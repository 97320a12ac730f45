/** The client-side parking filter of the parking service: a chain of
    independent filters over the fetched parking list. */
module ParkingFilter {
  import opened Wrappers
  import opened Seqs
  import opened Text

  /** A parking as the backend returns it; the client never changes one. */
  datatype Parking = Parking(
    id: int,
    ownerId: int,
    name: string,
    description: string,
    address: string,
    city: string,
    province: string,
    postalCode: string,
    lat: real,
    lng: real,
    ratePerHour: real,
    dailyRate: real,
    monthlyRate: real,
    rating: real,
    ratingCount: int,
    totalSpots: int,
    regularSpots: int,
    disabledSpots: int,
    electricSpots: int,
    availableSpots: int,
    totalRows: int,
    totalColumns: int,
    imageUrl: string,
    operatingDays: string,
    open24Hours: bool,
    openingTime: Option<string>,
    closingTime: Option<string>)

  /** The optional filter fields; `None` is an absent field. */
  datatype Filters = Filters(
    query: Option<string>,
    city: Option<string>,
    minPrice: Option<real>,
    maxPrice: Option<real>,
    availableSpots: Option<real>)

  const NoFilters := Filters(None, None, None, None, None)

  /** A string field is applied only when it is truthy, i.e. present and non-empty. */
  predicate Truthy(s: Option<string>) { s.Some? && s.value != [] }

  /** Case-insensitive match of the query against name, address or city. */
  predicate MatchesQuery(p: Parking, query: string) {
    var q := Lower(query);
    Includes(Lower(p.name), q) || Includes(Lower(p.address), q) || Includes(Lower(p.city), q)
  }

  predicate QueryOk(p: Parking, f: Filters) { Truthy(f.query) ==> MatchesQuery(p, f.query.value) }
  predicate CityOk(p: Parking, f: Filters) { Truthy(f.city) ==> p.city == f.city.value }
  predicate MinPriceOk(p: Parking, f: Filters) { f.minPrice.Some? ==> p.ratePerHour >= f.minPrice.value }
  predicate MaxPriceOk(p: Parking, f: Filters) { f.maxPrice.Some? ==> p.ratePerHour <= f.maxPrice.value }
  predicate SpotsOk(p: Parking, f: Filters) {
    f.availableSpots.Some? ==> p.availableSpots as real >= f.availableSpots.value
  }

  /** The conjunction of every predicate the filter fields switch on. */
  predicate Kept(p: Parking, f: Filters) {
    QueryOk(p, f) && CityOk(p, f) && MinPriceOk(p, f) && MaxPriceOk(p, f) && SpotsOk(p, f)
  }

  function QueryTest(f: Filters): Parking -> bool { p => QueryOk(p, f) }
  function CityTest(f: Filters): Parking -> bool { p => CityOk(p, f) }
  function MinPriceTest(f: Filters): Parking -> bool { p => MinPriceOk(p, f) }
  function MaxPriceTest(f: Filters): Parking -> bool { p => MaxPriceOk(p, f) }
  function SpotsTest(f: Filters): Parking -> bool { p => SpotsOk(p, f) }
  function KeptTest(f: Filters): Parking -> bool { p => Kept(p, f) }

  /** One `if (field) filtered = filtered.filter(test)` step. */
  function Stage(s: seq<Parking>, active: bool, test: Parking -> bool): seq<Parking> {
    if active then Filter(s, test) else s
  }

  function FilterParkings(parkings: seq<Parking>, f: Filters): (r: seq<Parking>)
    ensures r == Filter(parkings, KeptTest(f))
    ensures Subseq(r, parkings)
    ensures forall p :: p in r <==> p in parkings && Kept(p, f)
  {
    var byQuery := Stage(parkings, Truthy(f.query), QueryTest(f));
    var byCity := Stage(byQuery, Truthy(f.city), CityTest(f));
    var byMin := Stage(byCity, f.minPrice.Some?, MinPriceTest(f));
    var byMax := Stage(byMin, f.maxPrice.Some?, MaxPriceTest(f));
    var r := Stage(byMax, f.availableSpots.Some?, SpotsTest(f));
    StagesCompose(parkings, f);
    r
  }

  /** An inactive stage's test holds of everything, so every stage is a filter. */
  lemma StageIsFilter(s: seq<Parking>, active: bool, test: Parking -> bool)
    requires !active ==> forall p :: test(p)
    ensures Stage(s, active, test) == Filter(s, test)
  {
    if !active {
      FilterAll(s, test);
    }
  }

  lemma StagesCompose(parkings: seq<Parking>, f: Filters)
    ensures
      var byQuery := Stage(parkings, Truthy(f.query), QueryTest(f));
      var byCity := Stage(byQuery, Truthy(f.city), CityTest(f));
      var byMin := Stage(byCity, f.minPrice.Some?, MinPriceTest(f));
      var byMax := Stage(byMin, f.maxPrice.Some?, MaxPriceTest(f));
      Stage(byMax, f.availableSpots.Some?, SpotsTest(f)) == Filter(parkings, KeptTest(f))
  {
    var q2 := (p: Parking) => QueryOk(p, f) && CityOk(p, f);
    var q3 := (p: Parking) => QueryOk(p, f) && CityOk(p, f) && MinPriceOk(p, f);
    var q4 := (p: Parking) => QueryOk(p, f) && CityOk(p, f) && MinPriceOk(p, f) && MaxPriceOk(p, f);

    var byQuery := Stage(parkings, Truthy(f.query), QueryTest(f));
    StageIsFilter(parkings, Truthy(f.query), QueryTest(f));
    var byCity := Stage(byQuery, Truthy(f.city), CityTest(f));
    StageIsFilter(byQuery, Truthy(f.city), CityTest(f));
    FilterFilter(parkings, QueryTest(f), CityTest(f), q2);
    var byMin := Stage(byCity, f.minPrice.Some?, MinPriceTest(f));
    StageIsFilter(byCity, f.minPrice.Some?, MinPriceTest(f));
    FilterFilter(parkings, q2, MinPriceTest(f), q3);
    var byMax := Stage(byMin, f.maxPrice.Some?, MaxPriceTest(f));
    StageIsFilter(byMin, f.maxPrice.Some?, MaxPriceTest(f));
    FilterFilter(parkings, q3, MaxPriceTest(f), q4);
    StageIsFilter(byMax, f.availableSpots.Some?, SpotsTest(f));
    FilterFilter(parkings, q4, SpotsTest(f), KeptTest(f));
  }

  /** With no filter field set the result is the input list itself. */
  lemma NoFiltersKeepsAll(parkings: seq<Parking>)
    ensures FilterParkings(parkings, NoFilters) == parkings
  {
    FilterAll(parkings, KeptTest(NoFilters));
  }

  /** An empty query string is falsy and filters nothing. */
  lemma EmptyQueryIgnored(parkings: seq<Parking>, f: Filters)
    requires f.query == Some([])
    ensures FilterParkings(parkings, f) == FilterParkings(parkings, f.(query := None))
  {
    FilterExt(parkings, KeptTest(f), KeptTest(f.(query := None)));
  }

  /** `tighter` keeps every filter `looser` applies, with the same value. */
  predicate Tightens(tighter: Filters, looser: Filters) {
    && (Truthy(looser.query) ==> tighter.query == looser.query)
    && (Truthy(looser.city) ==> tighter.city == looser.city)
    && (looser.minPrice.Some? ==> tighter.minPrice == looser.minPrice)
    && (looser.maxPrice.Some? ==> tighter.maxPrice == looser.maxPrice)
    && (looser.availableSpots.Some? ==> tighter.availableSpots == looser.availableSpots)
  }

  /** Adding filters never enlarges the result: it is a sub-sequence of the looser one. */
  lemma {:induction false} AddingFiltersNarrows(parkings: seq<Parking>, tighter: Filters, looser: Filters)
    requires Tightens(tighter, looser)
    ensures Subseq(FilterParkings(parkings, tighter), FilterParkings(parkings, looser))
  {
    FilterMonotone(parkings, KeptTest(tighter), KeptTest(looser));
  }
}
