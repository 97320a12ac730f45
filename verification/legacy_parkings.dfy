/** The older mock parking service (`src/services/ParkingService.js`): a fixed
    list of five Barcelona parkings, a lookup by id and a case-insensitive search
    over name and address. */
module LegacyParkings {
  import opened Wrappers
  import opened Seqs
  import opened Text

  datatype MockParking = MockParking(
    id: string, name: string, address: string,
    latitude: real, longitude: real,
    availableSpots: int, totalSpots: int,
    pricePerHour: real, rating: real, features: seq<string>)

  /** The dataset the service serves. */
  const Mock: seq<MockParking> := [
    MockParking("1", "Central Parking Plaza", "123 Main Street, Barcelona",
                41.3851, 2.1734, 15, 50, 2.5, 4.5, ["Covered", "Security 24/7", "EV Charging"]),
    MockParking("2", "Marina Park & Ride", "456 Beach Avenue, Barcelona",
                41.3801, 2.1901, 8, 30, 3.0, 4.2, ["Outdoor", "Bike Storage", "Near Metro"]),
    MockParking("3", "Gothic Quarter Garage", "789 Gothic Street, Barcelona",
                41.3825, 2.1769, 22, 80, 2.0, 4.7, ["Covered", "Motorcycle Parking", "Disabled Access"]),
    MockParking("4", "Eixample Parking Center", "321 Diagonal Avenue, Barcelona",
                41.3900, 2.1650, 5, 40, 2.8, 4.0, ["Covered", "Car Wash", "Security"]),
    MockParking("5", "Sagrada Familia Parking", "567 Mallorca Street, Barcelona",
                41.4036, 2.1744, 12, 60, 3.5, 4.6, ["Covered", "Tourist Area", "EV Charging"])
  ]

  /** `getAllParkings`: the whole dataset, which is not empty. */
  function GetAllParkings(): (r: seq<MockParking>)
    ensures |r| == 5
    ensures forall i :: 0 <= i < |r| ==> r[i].availableSpots <= r[i].totalSpots
  {
    Mock
  }

  function IdTest(id: string): MockParking -> bool {
    (p: MockParking) => p.id == id
  }

  /** `getParkingById`: the first parking with the id, or nothing (no error). */
  function GetParkingById(id: string): (r: Option<MockParking>)
    ensures r.None? <==> forall p :: p in Mock ==> p.id != id
    ensures r.Some? ==> r.value.id == id && r.value in Mock
  {
    Find(Mock, IdTest(id))
  }

  /** Parking `"1"` is found and is the first of the dataset. */
  lemma ParkingOneFound()
    ensures GetParkingById("1") == Some(Mock[0])
  {
    assert IdTest("1")(Mock[0]);
    assert FirstIndex(Mock, IdTest("1")) == 0;
  }

  /** The search test: the lowercased name or address contains the lowercased query. */
  predicate MatchesSearch(p: MockParking, lowerQuery: string) {
    Includes(Lower(p.name), lowerQuery) || Includes(Lower(p.address), lowerQuery)
  }

  function SearchTest(lowerQuery: string): MockParking -> bool {
    (p: MockParking) => MatchesSearch(p, lowerQuery)
  }

  /** `searchParkings` over a list: exactly the matching parkings, in order. */
  function SearchIn(parkings: seq<MockParking>, query: string): (r: seq<MockParking>)
    ensures Subseq(r, parkings)
    ensures forall p :: p in r <==> p in parkings && MatchesSearch(p, Lower(query))
    ensures |r| == Count(parkings, SearchTest(Lower(query)))
  {
    Filter(parkings, SearchTest(Lower(query)))
  }

  /** `searchParkings`: the search over the dataset. */
  function SearchParkings(query: string): (r: seq<MockParking>)
    ensures Subseq(r, Mock)
    ensures forall p :: p in r <==> p in Mock && MatchesSearch(p, Lower(query))
  {
    SearchIn(Mock, query)
  }

  /** The empty query matches every parking of any list. */
  lemma SearchEmptyKeepsAll(parkings: seq<MockParking>)
    ensures SearchIn(parkings, "") == parkings
  {
    forall p | p in parkings
      ensures SearchTest(Lower(""))(p)
    {
      IncludesEmpty(Lower(p.name));
    }
    FilterAll(parkings, SearchTest(Lower("")));
  }

  /** Searching `"Central"` finds something, and the first hit's name contains
      `"Central"` as written. */
  lemma SearchCentral()
    ensures var r := SearchParkings("Central");
            |r| > 0 && Includes(r[0].name, "Central")
  {
    CentralMatchesFirst();
    FilterHead(Mock, SearchTest(Lower("Central")));
  }

  /** The first parking's name starts with `"Central"`, in either case. */
  lemma CentralMatchesFirst()
    ensures SearchTest(Lower("Central"))(Mock[0])
    ensures OccursAt(Mock[0].name, "Central", 0)
  {
    var q := Lower("Central");
    assert q == "central";
    var name := Lower(Mock[0].name);
    assert name[0..7] == "central";
    assert OccursAt(name, q, 0);
  }
}
