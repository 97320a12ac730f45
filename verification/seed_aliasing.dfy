/** Object identity in the local data service's reservation list (`lib/data.ts`).
    The list the service keeps is a fresh array, but its elements are the very
    objects imported from the seed file, and the imported objects live as long as
    the module. `cancelReservation` writes the status into the object it finds,
    so a seed reservation cancelled once stays cancelled after
    `resetDatabase`, which builds a new array of the same seed objects.

    Here the objects are a heap indexed by references; a store is the heap
    together with the array of references. `CancelInPlace` is the service as
    written; `CancelCopying` replaces the array slot with a cancelled copy, as
    `updateUser` and `updateVehicle` already do for their records, and with it a
    reset restores the seed whatever happened before. */
module SeedAliasing {
  import opened Seqs
  import opened LocalData

  /** An object imported from the seed file, or one the service created. */
  datatype Ref = SeedObject(index: nat) | Created(serial: nat)

  datatype Store = Store(heap: map<Ref, Reservation>, list: seq<Ref>, nextSerial: nat)

  /** Every listed reference points to an object, and created objects are
      numbered below the next serial. */
  predicate Valid(st: Store) {
    && (forall i :: 0 <= i < |st.list| ==> st.list[i] in st.heap)
    && (forall r :: r in st.heap && r.Created? ==> r.serial < st.nextSerial)
  }

  /** The reservations the array shows. */
  function View(st: Store): (v: seq<Reservation>)
    requires Valid(st)
    ensures |v| == |st.list|
    ensures forall i :: 0 <= i < |v| ==> v[i] == st.heap[st.list[i]]
  {
    seq(|st.list|, i requires 0 <= i < |st.list| => st.heap[st.list[i]])
  }

  /** The seed objects still hold the seed's values. */
  predicate SeedIntact(st: Store, seed: seq<Reservation>) {
    forall i :: 0 <= i < |seed| ==> SeedObject(i) in st.heap && st.heap[SeedObject(i)] == seed[i]
  }

  function SeedRefs(n: nat): (refs: seq<Ref>)
    ensures |refs| == n && forall i :: 0 <= i < n ==> refs[i] == SeedObject(i)
  {
    seq(n, i requires 0 <= i < n => SeedObject(i))
  }

  /** Module load: the seed objects exist and the array lists them in order. */
  function Load(seed: seq<Reservation>): (st: Store)
    ensures Valid(st) && SeedIntact(st, seed) && View(st) == seed
  {
    var heap := map i | 0 <= i < |seed| :: SeedObject(i) := seed[i];
    Store(heap, SeedRefs(|seed|), 0)
  }

  /** `resetDatabase`: a new array of the same seed objects; the objects
      themselves are whatever they have become. */
  function Reset(st: Store, seed: seq<Reservation>): (r: Store)
    requires forall i :: 0 <= i < |seed| ==> SeedObject(i) in st.heap
    requires Valid(st)
    ensures Valid(r) && r.heap == st.heap
    ensures |View(r)| == |seed| && forall i :: 0 <= i < |seed| ==> View(r)[i] == st.heap[SeedObject(i)]
  {
    st.(list := SeedRefs(|seed|))
  }

  /** `createReservation`: a new object, appended to the array. */
  function Create(st: Store, draft: ReservationDraft, newId: string): (r: Store)
    requires Valid(st)
    ensures Valid(r)
    ensures View(r) == View(st) + [ReservationOf(draft, newId)]
    ensures forall x :: x in st.heap ==> x in r.heap && r.heap[x] == st.heap[x]
  {
    var slot := Created(st.nextSerial);
    var r := Store(st.heap[slot := ReservationOf(draft, newId)], st.list + [slot], st.nextSerial + 1);
    assert View(r) == View(st) + [ReservationOf(draft, newId)];
    r
  }

  /** `cancelReservation` as written: the status is written into the object the
      array slot refers to, which may be a seed object. */
  function CancelInPlace(st: Store, id: string): (r: Store)
    requires Valid(st)
    ensures Valid(r) && r.list == st.list && r.heap.Keys == st.heap.Keys
    ensures forall k :: FirstWithId(View(st), id, k) ==>
              r.heap[st.list[k]] == st.heap[st.list[k]].(status := Cancelled)
    ensures forall x :: x in st.heap && r.heap[x] != st.heap[x] ==>
              exists k :: FirstWithId(View(st), id, k) && x == st.list[k]
  {
    var k := FirstIndex(View(st), ReservationIdTest(id));
    if k == |st.list| then st
    else
      var obj := st.list[k];
      assert FirstWithId(View(st), id, k);
      assert forall i :: FirstWithId(View(st), id, i) ==> i == k;
      st.(heap := st.heap[obj := st.heap[obj].(status := Cancelled)])
  }

  /** As written, cancelling a seed reservation and resetting shows the
      reservation cancelled: the reset does not restore it. */
  lemma CancelSurvivesReset(seed: seq<Reservation>, id: string, k: nat)
    requires FirstWithId(seed, id, k) && seed[k].status != Cancelled
    ensures var after := Reset(CancelInPlace(Load(seed), id), seed);
            View(after)[k].status == Cancelled && View(after) != seed
  {
    var st := Load(seed);
    assert FirstIndex(View(st), ReservationIdTest(id)) == k by {
      var f := FirstIndex(View(st), ReservationIdTest(id));
      assert View(st)[k].id == id;
      assert f <= k;
    }
    var after := Reset(CancelInPlace(st, id), seed);
    assert View(after)[k] == seed[k].(status := Cancelled);
  }

  /** A concrete instance: one active seed reservation, cancelled, then reset. */
  lemma CancelSurvivesResetExample()
    ensures var seed := [Reservation("res_1", "user1", "1", "A1", "08:00", "12:00", Active, 20.0, "car1")];
            View(Reset(CancelInPlace(Load(seed), "res_1"), seed))[0].status == Cancelled
  {
    var seed := [Reservation("res_1", "user1", "1", "A1", "08:00", "12:00", Active, 20.0, "car1")];
    CancelSurvivesReset(seed, "res_1", 0);
  }

  /** Cancel by copy: the slot is pointed at a new, cancelled copy and no
      existing object is written. */
  function CancelCopying(st: Store, id: string): (r: Store)
    requires Valid(st)
    ensures Valid(r)
    ensures forall x :: x in st.heap ==> x in r.heap && r.heap[x] == st.heap[x]
    ensures View(r) == CancelReservation(Database([], View(st), [], [], [], []), id).reservations
  {
    var k := FirstIndex(View(st), ReservationIdTest(id));
    if k == |st.list| then st
    else
      var slot := Created(st.nextSerial);
      var copy := st.heap[st.list[k]].(status := Cancelled);
      var r := Store(st.heap[slot := copy], st.list[k := slot], st.nextSerial + 1);
      assert View(r) == View(st)[k := copy];
      r
  }

  datatype Op = CancelOp(id: string) | CreateOp(draft: ReservationDraft, newId: string)

  /** A session of writes with the corrected cancel. */
  function RunCopying(st: Store, ops: seq<Op>): Store
    requires Valid(st)
    decreases |ops|
  {
    if |ops| == 0 then st
    else
      var next := match ops[0]
        case CancelOp(id) => CancelCopying(st, id)
        case CreateOp(d, newId) => Create(st, d, newId);
      RunCopying(next, ops[1..])
  }

  /** No write of the corrected service touches an object that already exists. */
  lemma {:induction false} RunCopyingKeepsObjects(st: Store, ops: seq<Op>)
    requires Valid(st)
    ensures Valid(RunCopying(st, ops))
    ensures forall x :: x in st.heap ==> x in RunCopying(st, ops).heap && RunCopying(st, ops).heap[x] == st.heap[x]
    decreases |ops|
  {
    if |ops| > 0 {
      var next := match ops[0]
        case CancelOp(id) => CancelCopying(st, id)
        case CreateOp(d, newId) => Create(st, d, newId);
      RunCopyingKeepsObjects(next, ops[1..]);
    }
  }

  /** With the corrected cancel, a reset after any session shows the seed again. */
  lemma ResetRestoresSeed(seed: seq<Reservation>, ops: seq<Op>)
    ensures var st := RunCopying(Load(seed), ops);
            Valid(st) && SeedIntact(st, seed) && View(Reset(st, seed)) == seed
  {
    RunCopyingKeepsObjects(Load(seed), ops);
  }
}
