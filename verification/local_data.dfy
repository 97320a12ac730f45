/** The in-memory store behind the app's local data service (`lib/data.ts`):
    six record collections, lookups that filter or find, and state transformers
    for the writes. The store is a value here; every write returns the new store.
    Ids that the service builds from `Date.now()` are parameters. */
module LocalData {
  import opened Wrappers
  import opened Seqs
  import opened Text

  const InvalidCredentials: string := "Invalid email or password"

  datatype SpotStatus = Available | Occupied | Reserved
  datatype SpotKind = Regular | Disabled | Charging
  datatype ParkingSpot = ParkingSpot(id: string, status: SpotStatus, kind: SpotKind)
  datatype Floor = Floor(floor: int, spots: seq<ParkingSpot>)

  datatype Parking = Parking(
    id: string, name: string, address: string, distance: string,
    pricePerHour: real, currency: string, rating: real,
    totalSpots: int, availableSpots: int,
    latitude: real, longitude: real, image: string,
    features: seq<string>, floors: seq<Floor>)

  datatype ReservationStatus = Active | Completed | Cancelled

  datatype Reservation = Reservation(
    id: string, userId: string, parkingId: string, spotId: string,
    startTime: string, endTime: string, status: ReservationStatus,
    totalCost: real, vehicleId: string)

  /** A reservation as submitted: every field but the id. */
  datatype ReservationDraft = ReservationDraft(
    userId: string, parkingId: string, spotId: string,
    startTime: string, endTime: string, status: ReservationStatus,
    totalCost: real, vehicleId: string)

  datatype User = User(
    id: string, name: string, email: string, password: Option<string>,
    phone: string, avatar: string, address: Option<string>)

  /** `Partial<User>`: a field that is present overwrites the stored one. */
  datatype UserPatch = UserPatch(
    id: Option<string>, name: Option<string>, email: Option<string>,
    password: Option<string>, phone: Option<string>, avatar: Option<string>,
    address: Option<string>)

  datatype Vehicle = Vehicle(
    id: string, userId: string, brand: string, model: string, plate: string,
    color: string, colorHex: Option<string>, year: int)

  datatype VehicleDraft = VehicleDraft(
    userId: string, brand: string, model: string, plate: string,
    color: string, colorHex: Option<string>, year: int)

  datatype VehiclePatch = VehiclePatch(
    id: Option<string>, userId: Option<string>, brand: Option<string>,
    model: Option<string>, plate: Option<string>, color: Option<string>,
    colorHex: Option<string>, year: Option<int>)

  datatype PaymentMethod = PaymentMethod(
    id: string, userId: string, kind: string, cardNumber: string,
    cardHolder: string, expiryDate: string, isDefault: bool)

  datatype Review = Review(
    id: string, parkingId: string, userId: string,
    userName: Option<string>, userAvatar: Option<string>,
    rating: real, comment: string, date: string)

  datatype ReviewDraft = ReviewDraft(
    parkingId: string, userId: string,
    userName: Option<string>, userAvatar: Option<string>,
    rating: real, comment: string, date: string)

  datatype Database = Database(
    parkings: seq<Parking>, reservations: seq<Reservation>, users: seq<User>,
    vehicles: seq<Vehicle>, paymentMethods: seq<PaymentMethod>, reviews: seq<Review>)

  // ---------------------------------------------------------------------------
  // Authentication

  /** The user as handed out: the password field removed. */
  function WithoutPassword(u: User): User {
    u.(password := None)
  }

  predicate SameEmail(u: User, email: string) {
    Lower(u.email) == Lower(email)
  }

  predicate Credentials(u: User, email: string, password: string) {
    SameEmail(u, email) && u.password == Some(password)
  }

  function CredentialsTest(email: string, password: string): User -> bool {
    (u: User) => Credentials(u, email, password)
  }

  function EmailTest(email: string): User -> bool {
    (u: User) => SameEmail(u, email)
  }

  /** `login`: the first user whose email matches ignoring case and whose stored
      password equals the given one, handed out without its password. */
  function Login(db: Database, email: string, password: string): (r: Result<User, string>)
    ensures r.Success? <==> exists u :: u in db.users && Credentials(u, email, password)
    ensures r.Failure? ==> r.error == InvalidCredentials
    ensures r.Success? ==>
              && r.value.password.None?
              && exists i :: 0 <= i < |db.users| && Credentials(db.users[i], email, password)
                   && r.value == WithoutPassword(db.users[i])
                   && forall j :: 0 <= j < i ==> !Credentials(db.users[j], email, password)
  {
    match Find(db.users, CredentialsTest(email, password))
    case None => Failure(InvalidCredentials)
    case Some(u) => Success(WithoutPassword(u))
  }

  /** `getUserByEmail`: the first user whose email matches ignoring case,
      without its password. */
  function GetUserByEmail(db: Database, email: string): (r: Option<User>)
    ensures r.None? <==> forall u :: u in db.users ==> !SameEmail(u, email)
    ensures r.Some? ==>
              && r.value.password.None?
              && exists i :: 0 <= i < |db.users| && SameEmail(db.users[i], email)
                   && r.value == WithoutPassword(db.users[i])
                   && forall j :: 0 <= j < i ==> !SameEmail(db.users[j], email)
  {
    match Find(db.users, EmailTest(email))
    case None => None
    case Some(u) => Some(WithoutPassword(u))
  }

  /** A successful login is the password-less record `getUserByEmail` returns
      whenever no earlier user shares the email. */
  lemma LoginFindsUserByEmail(db: Database, email: string, password: string)
    requires Login(db, email, password).Success?
    requires forall i, j :: 0 <= i < j < |db.users| && SameEmail(db.users[i], email) ==> !SameEmail(db.users[j], email)
    ensures GetUserByEmail(db, email) == Some(Login(db, email, password).value)
  {
    var k := FirstIndex(db.users, CredentialsTest(email, password));
    var e := FirstIndex(db.users, EmailTest(email));
    assert Credentials(db.users[k], email, password);
    assert SameEmail(db.users[k], email);
    assert e <= k;
  }

  // ---------------------------------------------------------------------------
  // Parkings

  function ParkingIdTest(id: string): Parking -> bool {
    (p: Parking) => p.id == id
  }

  function ParkingNotFound(id: string): string {
    "Parking with id " + id + " not found"
  }

  /** `getParkingById`: the first parking with that id, or an error naming it. */
  function GetParkingById(db: Database, id: string): (r: Result<Parking, string>)
    ensures r.Failure? <==> forall p :: p in db.parkings ==> p.id != id
    ensures r.Failure? ==> r.error == ParkingNotFound(id)
    ensures r.Success? ==> r.value.id == id && r.value in db.parkings
    ensures r.Success? ==> exists i :: 0 <= i < |db.parkings| && db.parkings[i] == r.value
                              && forall j :: 0 <= j < i ==> db.parkings[j].id != id
  {
    match Find(db.parkings, ParkingIdTest(id))
    case None => Failure(ParkingNotFound(id))
    case Some(p) => Success(p)
  }

  predicate MatchesSearch(p: Parking, lowerQuery: string) {
    Includes(Lower(p.name), lowerQuery) || Includes(Lower(p.address), lowerQuery)
  }

  function SearchTest(lowerQuery: string): Parking -> bool {
    (p: Parking) => MatchesSearch(p, lowerQuery)
  }

  /** `searchParkings`: the parkings whose name or address contains the query,
      ignoring case, in store order. */
  function SearchParkings(db: Database, query: string): (r: seq<Parking>)
    ensures Subseq(r, db.parkings)
    ensures forall p :: p in r <==> p in db.parkings && MatchesSearch(p, Lower(query))
    ensures |r| == Count(db.parkings, SearchTest(Lower(query)))
  {
    Filter(db.parkings, SearchTest(Lower(query)))
  }

  /** Searching for the empty string returns every parking. */
  lemma SearchEmptyKeepsAll(db: Database)
    ensures SearchParkings(db, "") == db.parkings
  {
    forall p | p in db.parkings
      ensures SearchTest(Lower(""))(p)
    {
      IncludesEmpty(Lower(p.name));
    }
    FilterAll(db.parkings, SearchTest(Lower("")));
  }

  // ---------------------------------------------------------------------------
  // Per-user and per-parking lookups

  function ReservationUserTest(userId: string): Reservation -> bool {
    (r: Reservation) => r.userId == userId
  }

  function VehicleUserTest(userId: string): Vehicle -> bool {
    (v: Vehicle) => v.userId == userId
  }

  function PaymentUserTest(userId: string): PaymentMethod -> bool {
    (m: PaymentMethod) => m.userId == userId
  }

  function ReviewParkingTest(parkingId: string): Review -> bool {
    (v: Review) => v.parkingId == parkingId
  }

  /** `getReservations`: exactly the user's reservations, in store order. */
  function GetReservations(db: Database, userId: string): (r: seq<Reservation>)
    ensures Subseq(r, db.reservations)
    ensures forall x :: x in r <==> x in db.reservations && x.userId == userId
    ensures |r| == Count(db.reservations, ReservationUserTest(userId))
  {
    Filter(db.reservations, ReservationUserTest(userId))
  }

  /** `getVehicles`: exactly the user's vehicles, in store order. */
  function GetVehicles(db: Database, userId: string): (r: seq<Vehicle>)
    ensures Subseq(r, db.vehicles)
    ensures forall x :: x in r <==> x in db.vehicles && x.userId == userId
    ensures |r| == Count(db.vehicles, VehicleUserTest(userId))
  {
    Filter(db.vehicles, VehicleUserTest(userId))
  }

  /** `getPaymentMethods`: exactly the user's payment methods, in store order. */
  function GetPaymentMethods(db: Database, userId: string): (r: seq<PaymentMethod>)
    ensures Subseq(r, db.paymentMethods)
    ensures forall x :: x in r <==> x in db.paymentMethods && x.userId == userId
    ensures |r| == Count(db.paymentMethods, PaymentUserTest(userId))
  {
    Filter(db.paymentMethods, PaymentUserTest(userId))
  }

  /** `getReviews`: exactly the parking's reviews, in store order. */
  function GetReviews(db: Database, parkingId: string): (r: seq<Review>)
    ensures Subseq(r, db.reviews)
    ensures forall x :: x in r <==> x in db.reviews && x.parkingId == parkingId
    ensures |r| == Count(db.reviews, ReviewParkingTest(parkingId))
  {
    Filter(db.reviews, ReviewParkingTest(parkingId))
  }

  // ---------------------------------------------------------------------------
  // Reservations

  function ReservationOf(d: ReservationDraft, id: string): Reservation {
    Reservation(id, d.userId, d.parkingId, d.spotId, d.startTime, d.endTime, d.status, d.totalCost, d.vehicleId)
  }

  function DraftOf(r: Reservation): ReservationDraft {
    ReservationDraft(r.userId, r.parkingId, r.spotId, r.startTime, r.endTime, r.status, r.totalCost, r.vehicleId)
  }

  /** `createReservation`: appends the draft under the new id and hands it back;
      nothing already stored changes. */
  function CreateReservation(db: Database, draft: ReservationDraft, newId: string): (r: (Database, Reservation))
    ensures r.1.id == newId && DraftOf(r.1) == draft
    ensures r.0.reservations == db.reservations + [r.1]
    ensures r.0.(reservations := db.reservations) == db
  {
    var rec := ReservationOf(draft, newId);
    (db.(reservations := db.reservations + [rec]), rec)
  }

  function ReservationIdTest(id: string): Reservation -> bool {
    (r: Reservation) => r.id == id
  }

  /** Position `i` holds the first reservation with the id. */
  predicate FirstWithId(rs: seq<Reservation>, id: string, i: int) {
    0 <= i < |rs| && rs[i].id == id && forall j :: 0 <= j < i ==> rs[j].id != id
  }

  /** `cancelReservation`: the first reservation with the id becomes cancelled;
      an unknown id leaves the store as it was. */
  function CancelReservation(db: Database, id: string): (r: Database)
    ensures r.(reservations := db.reservations) == db
    ensures |r.reservations| == |db.reservations|
    ensures (forall x :: x in db.reservations ==> x.id != id) ==> r == db
    ensures forall i :: FirstWithId(db.reservations, id, i) ==>
              r.reservations[i] == db.reservations[i].(status := Cancelled)
    ensures forall i :: 0 <= i < |db.reservations| && r.reservations[i] != db.reservations[i] ==>
              FirstWithId(db.reservations, id, i)
  {
    var k := FirstIndex(db.reservations, ReservationIdTest(id));
    if k == |db.reservations| then db
    else
      var rs := db.reservations[k := db.reservations[k].(status := Cancelled)];
      assert forall i :: FirstWithId(db.reservations, id, i) ==> i == k;
      db.(reservations := rs)
  }

  /** Cancelling twice is cancelling once. */
  lemma CancelIdempotent(db: Database, id: string)
    ensures CancelReservation(CancelReservation(db, id), id) == CancelReservation(db, id)
  {
    var once := CancelReservation(db, id);
    var k := FirstIndex(db.reservations, ReservationIdTest(id));
    if k < |db.reservations| {
      assert FirstWithId(db.reservations, id, k);
      assert forall i :: 0 <= i < |db.reservations| ==> once.reservations[i].id == db.reservations[i].id;
      assert FirstWithId(once.reservations, id, k);
      assert once.reservations[k].(status := Cancelled) == once.reservations[k];
      assert CancelReservation(once, id).reservations == once.reservations;
    }
  }

  /** A reservation created under an id no stored reservation has is the one a
      later cancel of that id reaches, and only it. */
  lemma CreateThenCancel(db: Database, draft: ReservationDraft, newId: string)
    requires forall x :: x in db.reservations ==> x.id != newId
    ensures var (created, rec) := CreateReservation(db, draft, newId);
            CancelReservation(created, newId).reservations == db.reservations + [rec.(status := Cancelled)]
  {
    var (created, rec) := CreateReservation(db, draft, newId);
    var n := |db.reservations|;
    assert created.reservations[n] == rec;
    assert FirstWithId(created.reservations, newId, n);
    var after := CancelReservation(created, newId);
    assert forall i :: 0 <= i < n ==> after.reservations[i] == db.reservations[i] by {
      forall i | 0 <= i < n
        ensures after.reservations[i] == db.reservations[i]
      {
        assert created.reservations[i] == db.reservations[i];
      }
    }
  }

  // ---------------------------------------------------------------------------
  // Users

  function UserIdTest(id: string): User -> bool {
    (u: User) => u.id == id
  }

  function UserNotFound(id: string): string {
    "User with id " + id + " not found"
  }

  /** `{ ...user, ...data }`: each field present in the patch replaces the
      stored one, every other field keeps its value. */
  function PatchUser(u: User, p: UserPatch): (r: User)
    ensures p.id.Some? ==> r.id == p.id.value
    ensures p.id.None? ==> r.id == u.id
    ensures p.name.Some? ==> r.name == p.name.value
    ensures p.name.None? ==> r.name == u.name
    ensures p.email.Some? ==> r.email == p.email.value
    ensures p.email.None? ==> r.email == u.email
    ensures p.password.Some? ==> r.password == p.password
    ensures p.password.None? ==> r.password == u.password
    ensures p.phone.Some? ==> r.phone == p.phone.value
    ensures p.phone.None? ==> r.phone == u.phone
    ensures p.avatar.Some? ==> r.avatar == p.avatar.value
    ensures p.avatar.None? ==> r.avatar == u.avatar
    ensures p.address.Some? ==> r.address == p.address
    ensures p.address.None? ==> r.address == u.address
  {
    User(p.id.GetOr(u.id), p.name.GetOr(u.name), p.email.GetOr(u.email),
         if p.password.Some? then p.password else u.password,
         p.phone.GetOr(u.phone), p.avatar.GetOr(u.avatar),
         if p.address.Some? then p.address else u.address)
  }

  /** An empty patch changes nothing, and a patch applied twice is applied once. */
  lemma PatchUserLaws(u: User, p: UserPatch)
    ensures PatchUser(u, UserPatch(None, None, None, None, None, None, None)) == u
    ensures PatchUser(PatchUser(u, p), p) == PatchUser(u, p)
  {
  }

  /** `getUser`: the first user with the id, password included, or an error. */
  function GetUser(db: Database, id: string): (r: Result<User, string>)
    ensures r.Failure? <==> forall u :: u in db.users ==> u.id != id
    ensures r.Failure? ==> r.error == UserNotFound(id)
    ensures r.Success? ==> r.value.id == id && r.value in db.users
    ensures r.Success? ==> exists i :: 0 <= i < |db.users| && db.users[i] == r.value
                             && forall j :: 0 <= j < i ==> db.users[j].id != id
  {
    match Find(db.users, UserIdTest(id))
    case None => Failure(UserNotFound(id))
    case Some(u) => Success(u)
  }

  /** `updateUser`: the first user with the id is replaced by its patched copy,
      which is handed back; other users and collections are untouched. */
  function UpdateUser(db: Database, id: string, patch: UserPatch): (r: Result<(Database, User), string>)
    ensures r.Failure? <==> forall u :: u in db.users ==> u.id != id
    ensures r.Failure? ==> r.error == UserNotFound(id)
    ensures r.Success? ==>
              && r.value.0.(users := db.users) == db
              && |r.value.0.users| == |db.users|
              && exists i :: 0 <= i < |db.users| && db.users[i].id == id
                   && (forall j :: 0 <= j < i ==> db.users[j].id != id)
                   && r.value.1 == PatchUser(db.users[i], patch)
                   && r.value.0.users == db.users[i := r.value.1]
  {
    var k := FirstIndex(db.users, UserIdTest(id));
    if k == |db.users| then Failure(UserNotFound(id))
    else
      var u := PatchUser(db.users[k], patch);
      Success((db.(users := db.users[k := u]), u))
  }

  // ---------------------------------------------------------------------------
  // Vehicles

  function VehicleOf(d: VehicleDraft, id: string): Vehicle {
    Vehicle(id, d.userId, d.brand, d.model, d.plate, d.color, d.colorHex, d.year)
  }

  function VehicleDraftOf(v: Vehicle): VehicleDraft {
    VehicleDraft(v.userId, v.brand, v.model, v.plate, v.color, v.colorHex, v.year)
  }

  /** `addVehicle`: appends the draft under the new id and hands it back. */
  function AddVehicle(db: Database, draft: VehicleDraft, newId: string): (r: (Database, Vehicle))
    ensures r.1.id == newId && VehicleDraftOf(r.1) == draft
    ensures r.0.vehicles == db.vehicles + [r.1]
    ensures r.0.(vehicles := db.vehicles) == db
  {
    var v := VehicleOf(draft, newId);
    (db.(vehicles := db.vehicles + [v]), v)
  }

  function OtherVehicleTest(id: string): Vehicle -> bool {
    (v: Vehicle) => v.id != id
  }

  /** `deleteVehicle`: every vehicle with the id goes, the rest stay in order. */
  function DeleteVehicle(db: Database, id: string): (r: Database)
    ensures r.(vehicles := db.vehicles) == db
    ensures Subseq(r.vehicles, db.vehicles)
    ensures forall v :: v in r.vehicles <==> v in db.vehicles && v.id != id
    ensures |r.vehicles| == Count(db.vehicles, OtherVehicleTest(id))
  {
    db.(vehicles := Filter(db.vehicles, OtherVehicleTest(id)))
  }

  /** Deleting twice is deleting once; deleting an unknown id changes nothing. */
  lemma DeleteVehicleIdempotent(db: Database, id: string)
    ensures DeleteVehicle(DeleteVehicle(db, id), id) == DeleteVehicle(db, id)
    ensures (forall v :: v in db.vehicles ==> v.id != id) ==> DeleteVehicle(db, id) == db
  {
    var once := DeleteVehicle(db, id);
    FilterAll(once.vehicles, OtherVehicleTest(id));
    if forall v :: v in db.vehicles ==> v.id != id {
      FilterAll(db.vehicles, OtherVehicleTest(id));
    }
  }

  function VehicleIdTest(id: string): Vehicle -> bool {
    (v: Vehicle) => v.id == id
  }

  function VehicleNotFound(id: string): string {
    "Vehicle with id " + id + " not found"
  }

  /** `{ ...vehicle, ...data }` for vehicles. */
  function PatchVehicle(v: Vehicle, p: VehiclePatch): (r: Vehicle)
    ensures p.id.Some? ==> r.id == p.id.value
    ensures p.id.None? ==> r.id == v.id
    ensures p.userId.Some? ==> r.userId == p.userId.value
    ensures p.userId.None? ==> r.userId == v.userId
    ensures p.brand.Some? ==> r.brand == p.brand.value
    ensures p.brand.None? ==> r.brand == v.brand
    ensures p.model.Some? ==> r.model == p.model.value
    ensures p.model.None? ==> r.model == v.model
    ensures p.plate.Some? ==> r.plate == p.plate.value
    ensures p.plate.None? ==> r.plate == v.plate
    ensures p.color.Some? ==> r.color == p.color.value
    ensures p.color.None? ==> r.color == v.color
    ensures p.colorHex.Some? ==> r.colorHex == p.colorHex
    ensures p.colorHex.None? ==> r.colorHex == v.colorHex
    ensures p.year.Some? ==> r.year == p.year.value
    ensures p.year.None? ==> r.year == v.year
  {
    Vehicle(p.id.GetOr(v.id), p.userId.GetOr(v.userId), p.brand.GetOr(v.brand),
            p.model.GetOr(v.model), p.plate.GetOr(v.plate), p.color.GetOr(v.color),
            if p.colorHex.Some? then p.colorHex else v.colorHex,
            p.year.GetOr(v.year))
  }

  /** `updateVehicle`: the first vehicle with the id is replaced by its patched
      copy, which is handed back; an unknown id is an error. */
  function UpdateVehicle(db: Database, id: string, patch: VehiclePatch): (r: Result<(Database, Vehicle), string>)
    ensures r.Failure? <==> forall v :: v in db.vehicles ==> v.id != id
    ensures r.Failure? ==> r.error == VehicleNotFound(id)
    ensures r.Success? ==>
              && r.value.0.(vehicles := db.vehicles) == db
              && |r.value.0.vehicles| == |db.vehicles|
              && exists i :: 0 <= i < |db.vehicles| && db.vehicles[i].id == id
                   && (forall j :: 0 <= j < i ==> db.vehicles[j].id != id)
                   && r.value.1 == PatchVehicle(db.vehicles[i], patch)
                   && r.value.0.vehicles == db.vehicles[i := r.value.1]
  {
    var k := FirstIndex(db.vehicles, VehicleIdTest(id));
    if k == |db.vehicles| then Failure(VehicleNotFound(id))
    else
      var v := PatchVehicle(db.vehicles[k], patch);
      Success((db.(vehicles := db.vehicles[k := v]), v))
  }

  // ---------------------------------------------------------------------------
  // Reviews

  function ReviewOf(d: ReviewDraft, id: string): Review {
    Review(id, d.parkingId, d.userId, d.userName, d.userAvatar, d.rating, d.comment, d.date)
  }

  function ReviewDraftOf(v: Review): ReviewDraft {
    ReviewDraft(v.parkingId, v.userId, v.userName, v.userAvatar, v.rating, v.comment, v.date)
  }

  /** `addReview`: appends the draft under the new id and hands it back. */
  function AddReview(db: Database, draft: ReviewDraft, newId: string): (r: (Database, Review))
    ensures r.1.id == newId && ReviewDraftOf(r.1) == draft
    ensures r.0.reviews == db.reviews + [r.1]
    ensures r.0.(reviews := db.reviews) == db
  {
    var v := ReviewOf(draft, newId);
    (db.(reviews := db.reviews + [v]), v)
  }

  /** A review just added shows among its parking's reviews, last. */
  lemma AddedReviewListed(db: Database, draft: ReviewDraft, newId: string)
    ensures var (after, v) := AddReview(db, draft, newId);
            GetReviews(after, draft.parkingId) == GetReviews(db, draft.parkingId) + [v]
  {
    var (after, v) := AddReview(db, draft, newId);
    FilterAppendOne(db.reviews, v, ReviewParkingTest(draft.parkingId));
  }
}
