/** The older reservation service (`src/services/ReservationService.js`): a list
    of free-form records kept as JSON under one AsyncStorage key. A record is a
    map from field names to values; the stored slot is what reading the key and
    parsing it gives. Ids and the creation time, which the service takes from the
    clock, are parameters. */
module LegacyReservations {
  import opened Wrappers
  import opened Seqs

  /** JSON values the records carry. */
  datatype Value = Str(s: string) | Num(n: real) | Bool(b: bool)

  type Record = map<string, Value>

  /** What the storage key holds: nothing (or the empty string), text that does
      not parse, or a parsed list. */
  datatype Slot = Empty | Unparsable | Stored(records: seq<Record>)

  const Confirmed: Value := Str("confirmed")
  const CancelledStatus: Value := Str("cancelled")

  /** `r.id === reservationId`: the record has an `id` field holding that string. */
  predicate HasId(r: Record, id: string) {
    "id" in r && r["id"] == Str(id)
  }

  /** `getAllReservations`: the stored list, or the empty list when nothing is
      stored or it cannot be parsed. */
  function GetAll(slot: Slot): (r: seq<Record>)
    ensures slot.Stored? ==> r == slot.records
    ensures !slot.Stored? ==> r == []
  {
    match slot
    case Stored(records) => records
    case _ => []
  }

  /** `createReservation`: the input's fields, then `id`, `status: 'confirmed'`
      and `createdAt` over them, appended to the list and written back. */
  function Create(slot: Slot, input: Record, newId: string, createdAt: string): (r: (Slot, Record))
    ensures r.0 == Stored(GetAll(slot) + [r.1])
    ensures |GetAll(r.0)| == |GetAll(slot)| + 1
    ensures HasId(r.1, newId)
    ensures "status" in r.1 && r.1["status"] == Confirmed
    ensures "createdAt" in r.1 && r.1["createdAt"] == Str(createdAt)
    ensures r.1.Keys == input.Keys + {"id", "status", "createdAt"}
    ensures forall k :: k in input && k !in {"id", "status", "createdAt"} ==> r.1[k] == input[k]
  {
    var rec := input + map["id" := Str(newId), "status" := Confirmed, "createdAt" := Str(createdAt)];
    (Stored(GetAll(slot) + [rec]), rec)
  }

  /** `{ ...r, status: 'cancelled' }` on a matching record, the record itself
      otherwise. */
  function CancelOne(r: Record, id: string): Record {
    if HasId(r, id) then r["status" := CancelledStatus] else r
  }

  /** `cancelReservation`: every record with the id gets status `'cancelled'`;
      the list keeps its length and every other record. */
  function Cancel(slot: Slot, id: string): (r: Slot)
    ensures r.Stored? && |r.records| == |GetAll(slot)|
    ensures forall i :: 0 <= i < |r.records| && HasId(GetAll(slot)[i], id) ==>
              r.records[i] == GetAll(slot)[i]["status" := CancelledStatus]
    ensures forall i :: 0 <= i < |r.records| && !HasId(GetAll(slot)[i], id) ==>
              r.records[i] == GetAll(slot)[i]
  {
    var all := GetAll(slot);
    Stored(seq(|all|, i requires 0 <= i < |all| => CancelOne(all[i], id)))
  }

  function IdTest(id: string): Record -> bool {
    (r: Record) => HasId(r, id)
  }

  /** `getReservationById`: the first record with the id, or nothing. */
  function GetById(slot: Slot, id: string): (r: Option<Record>)
    ensures r.None? <==> forall x :: x in GetAll(slot) ==> !HasId(x, id)
    ensures r.Some? ==> HasId(r.value, id)
    ensures r.Some? ==> exists i :: 0 <= i < |GetAll(slot)| && GetAll(slot)[i] == r.value
                          && forall j :: 0 <= j < i ==> !HasId(GetAll(slot)[j], id)
  {
    Find(GetAll(slot), IdTest(id))
  }

  /** Cancelling twice is cancelling once. */
  lemma CancelIdempotent(slot: Slot, id: string)
    ensures Cancel(Cancel(slot, id), id) == Cancel(slot, id)
  {
    var once := Cancel(slot, id);
    var twice := Cancel(once, id);
    assert |twice.records| == |once.records|;
    forall i | 0 <= i < |once.records|
      ensures twice.records[i] == once.records[i]
    {
      if HasId(once.records[i], id) {
        assert once.records[i] == GetAll(slot)[i]["status" := CancelledStatus];
      }
    }
  }

  /** A stored list without the id comes back unchanged. */
  lemma CancelUnknownId(slot: Slot, id: string)
    requires slot.Stored?
    requires forall x :: x in slot.records ==> !HasId(x, id)
    ensures Cancel(slot, id) == slot
  {
    assert Cancel(slot, id).records == slot.records;
  }

  /** Create, cancel the new id, read it back: the record is cancelled, whatever
      else the list held. */
  lemma CreateCancelFind(slot: Slot, input: Record, newId: string, createdAt: string)
    ensures var (created, _) := Create(slot, input, newId, createdAt);
            var found := GetById(Cancel(created, newId), newId);
            found.Some? && found.value["status"] == CancelledStatus
  {
    var (created, rec) := Create(slot, input, newId, createdAt);
    var after := Cancel(created, newId);
    var n := |GetAll(slot)|;
    assert HasId(GetAll(created)[n], newId);
    assert HasId(after.records[n], newId);
    var found := GetById(after, newId);
    assert found.Some?;
    var i :| 0 <= i < |after.records| && after.records[i] == found.value;
    assert HasId(GetAll(created)[i], newId);
  }

  /** A record with the id that no earlier record shares is the one found. */
  lemma FoundFirst(records: seq<Record>, id: string, n: nat)
    requires n < |records| && HasId(records[n], id)
    requires forall j :: 0 <= j < n ==> !HasId(records[j], id)
    ensures GetById(Stored(records), id).Some?
    ensures GetById(Stored(records), id).value == records[n]
  {
    var f := GetById(Stored(records), id);
    assert records[n] in GetAll(Stored(records));
    var i :| 0 <= i < |records| && records[i] == f.value && forall j :: 0 <= j < i ==> !HasId(records[j], id);
    assert HasId(records[i], id);
    assert i == n;
  }

  /** Two creations under different ids give records each found by its own id,
      when neither id was in use. */
  lemma TwoCreatesDistinct(slot: Slot, input: Record, id1: string, id2: string, t1: string, t2: string)
    requires id1 != id2
    requires forall x :: x in GetAll(slot) ==> !HasId(x, id1) && !HasId(x, id2)
    ensures var (s1, r1) := Create(slot, input, id1, t1);
            var (s2, r2) := Create(s1, input, id2, t2);
            && r1["id"] != r2["id"]
            && GetById(s2, id1).Some? && GetById(s2, id1).value == r1
            && GetById(s2, id2).Some? && GetById(s2, id2).value == r2
            && |GetAll(s2)| == |GetAll(slot)| + 2
  {
    var (s1, r1) := Create(slot, input, id1, t1);
    var (s2, r2) := Create(s1, input, id2, t2);
    var all := GetAll(slot);
    var n := |all|;
    assert s2 == Stored(all + [r1] + [r2]);
    forall j | 0 <= j < n
      ensures !HasId((all + [r1] + [r2])[j], id1) && !HasId((all + [r1] + [r2])[j], id2)
    {
      assert (all + [r1] + [r2])[j] == all[j];
    }
    FoundFirst(all + [r1] + [r2], id1, n);
    FoundFirst(all + [r1] + [r2], id2, n + 1);
  }
}
