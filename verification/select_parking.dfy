/** The spot-selection screen (`app/parking/select-parking.tsx`): floor lookup,
    the per-floor availability badge and status, choosing a spot, the range
    labels shown above the grid, and the split of a floor into two columns. The
    component's state is passed explicitly. */
module SelectParking {
  import opened Wrappers
  import opened Seqs
  import opened Text
  import opened LocalData

  datatype Screen = Screen(
    parking: Option<Parking>, selectedFloor: int,
    selectedSpot: Option<ParkingSpot>, spotRanges: seq<string>)

  /** The state the screen starts in: floor 2, nothing selected, no ranges. */
  const Initial: Screen := Screen(None, 2, None, [])

  function FloorTest(n: int): Floor -> bool {
    (f: Floor) => f.floor == n
  }

  /** The first floor numbered `n`, when there is a parking and such a floor. */
  function FindFloor(parking: Option<Parking>, n: int): (r: Option<Floor>)
    ensures r.None? <==> parking.None? || forall f :: f in parking.value.floors ==> f.floor != n
    ensures r.Some? ==> parking.Some? && r.value in parking.value.floors && r.value.floor == n
    ensures r.Some? ==> exists i :: 0 <= i < |parking.value.floors| && parking.value.floors[i] == r.value
                          && forall j :: 0 <= j < i ==> parking.value.floors[j].floor != n
  {
    if parking.None? then None else Find(parking.value.floors, FloorTest(n))
  }

  /** `getFloorSpots`: the spots of the selected floor, or none. */
  function GetFloorSpots(st: Screen): (r: seq<ParkingSpot>)
    ensures FindFloor(st.parking, st.selectedFloor).None? ==> r == []
    ensures FindFloor(st.parking, st.selectedFloor).Some? ==> r == FindFloor(st.parking, st.selectedFloor).value.spots
  {
    match FindFloor(st.parking, st.selectedFloor)
    case None => []
    case Some(f) => f.spots
  }

  function AvailableTest(): ParkingSpot -> bool {
    (s: ParkingSpot) => s.status == Available
  }

  /** Number of available spots of a floor (`filter(...).length`). */
  function AvailableCount(spots: seq<ParkingSpot>): (a: nat)
    ensures a <= |spots|
    ensures a == 0 <==> forall s :: s in spots ==> s.status != Available
    ensures a == Count(spots, AvailableTest())
  {
    FilterEmptyIff(spots, AvailableTest());
    |Filter(spots, AvailableTest())|
  }

  /** `getFloorAvailability`: `"available/total"` for the floor, `"0/0"` without it. */
  function GetFloorAvailability(parking: Option<Parking>, n: int): (r: string)
    ensures FindFloor(parking, n).None? ==> r == "0/0"
    ensures FindFloor(parking, n).Some? ==> '/' in r
  {
    match FindFloor(parking, n)
    case None => "0/0"
    case Some(f) =>
      var text := Decimal(AvailableCount(f.spots)) + "/" + Decimal(|f.spots|);
      assert text[|Decimal(AvailableCount(f.spots))|] == '/';
      text
  }

  /** The badge of an existing floor is two numerals around a slash: the number
      of available spots, then the floor's size, the first never above the second. */
  lemma AvailabilityReadsBack(parking: Option<Parking>, n: int)
    requires FindFloor(parking, n).Some?
    ensures var spots := FindFloor(parking, n).value.spots;
            var r := GetFloorAvailability(parking, n);
            exists cut :: 0 < cut < |r| - 1 && r[cut] == '/'
              && AllDigits(r[..cut]) && AllDigits(r[cut + 1..])
              && DigitsValue(r[..cut]) == AvailableCount(spots)
              && DigitsValue(r[cut + 1..]) == |spots|
              && DigitsValue(r[..cut]) <= DigitsValue(r[cut + 1..])
  {
    var spots := FindFloor(parking, n).value.spots;
    var a, t := Decimal(AvailableCount(spots)), Decimal(|spots|);
    var r := GetFloorAvailability(parking, n);
    assert r == a + "/" + t;
    assert r[..|a|] == a && r[|a| + 1..] == t;
    DecimalRoundTrip(AvailableCount(spots));
    DecimalRoundTrip(|spots|);
    assert r[|a|] == '/';
  }

  datatype FloorStatus = Full | HasRoom

  /** `getFloorStatus`: full exactly when the floor exists and has no available
      spot; a missing floor reports room. */
  function GetFloorStatus(parking: Option<Parking>, n: int): (r: FloorStatus)
    ensures r == Full <==> (FindFloor(parking, n).Some?
                            && forall s :: s in FindFloor(parking, n).value.spots ==> s.status != Available)
  {
    match FindFloor(parking, n)
    case None => HasRoom
    case Some(f) => if AvailableCount(f.spots) == 0 then Full else HasRoom
  }

  /** A full floor's badge starts with `0/`. */
  lemma FullFloorBadge(parking: Option<Parking>, n: int)
    requires GetFloorStatus(parking, n) == Full
    ensures GetFloorAvailability(parking, n) == "0/" + Decimal(|FindFloor(parking, n).value.spots|)
  {
  }

  /** `handleSpotSelect`: an available spot becomes the selection; any other
      spot leaves the screen as it was. */
  function HandleSpotSelect(st: Screen, spot: ParkingSpot): (r: Screen)
    ensures spot.status == Available ==> r == st.(selectedSpot := Some(spot))
    ensures spot.status != Available ==> r == st
  {
    if spot.status == Available then st.(selectedSpot := Some(spot)) else st
  }

  /** The selection only ever holds an available spot. */
  lemma SelectionStaysAvailable(st: Screen, spots: seq<ParkingSpot>)
    requires st.selectedSpot.Some? ==> st.selectedSpot.value.status == Available
    ensures var r := SelectAll(st, spots);
            r.selectedSpot.Some? ==> r.selectedSpot.value.status == Available
    decreases |spots|
  {
    if |spots| > 0 {
      SelectionStaysAvailable(HandleSpotSelect(st, spots[0]), spots[1..]);
    }
  }

  /** Tapping the spots one after the other. */
  function SelectAll(st: Screen, spots: seq<ParkingSpot>): Screen
    decreases |spots|
  {
    if |spots| == 0 then st else SelectAll(HandleSpotSelect(st, spots[0]), spots[1..])
  }

  /** The label of the range from `start` to `end`. */
  function RangeLabel(start: nat, end: nat): string {
    Decimal(start) + " - " + Decimal(end)
  }

  /** The `j`-th range: four spot numbers from `17 + 4j`. */
  function NthRange(j: nat): string {
    RangeLabel(17 + 4 * j, 20 + 4 * j)
  }

  /** The range generation in `loadParkingData`: with at least one floor, four
      ranges of four numbers starting at 17, each beginning right after the
      previous one ends; with no floor the ranges stay as they were. */
  method SpotRanges(floorCount: nat, current: seq<string>) returns (ranges: seq<string>)
    ensures floorCount == 0 ==> ranges == current
    ensures floorCount > 0 ==> |ranges| == 4 && forall j :: 0 <= j < 4 ==> ranges[j] == NthRange(j)
  {
    if floorCount == 0 {
      return current;
    }
    ranges := [];
    var start := 17;
    var i := 0;
    while i < 4
      invariant 0 <= i <= 4
      invariant start == 17 + 4 * i
      invariant |ranges| == i && forall j :: 0 <= j < i ==> ranges[j] == NthRange(j)
    {
      var end := start + 3;
      ranges := ranges + [RangeLabel(start, end)];
      start := end + 1;
      i := i + 1;
    }
  }

  /** The four ranges as displayed. */
  lemma RangesAsDisplayed()
    ensures [NthRange(0), NthRange(1), NthRange(2), NthRange(3)] == ["17 - 20", "21 - 24", "25 - 28", "29 - 32"]
  {
    TwoDigitRange(17, 20);
    TwoDigitRange(21, 24);
    TwoDigitRange(25, 28);
    TwoDigitRange(29, 32);
  }

  /** The label of two two-digit numbers, character by character. */
  lemma TwoDigitRange(a: nat, b: nat)
    requires 10 <= a < 100 && 10 <= b < 100
    ensures RangeLabel(a, b) == [DigitChar(a / 10), DigitChar(a % 10), ' ', '-', ' ', DigitChar(b / 10), DigitChar(b % 10)]
  {
    assert Decimal(a) == [DigitChar(a / 10), DigitChar(a % 10)];
    assert Decimal(b) == [DigitChar(b / 10), DigitChar(b % 10)];
  }

  /** `Math.ceil(n / 2)`: where the left column ends. */
  function Half(n: nat): (h: nat)
    ensures h <= n && h - (n - h) in {0, 1}
  {
    (n + 1) / 2
  }

  /** The left column: the first half of the floor, rounded up. */
  function LeftColumn(spots: seq<ParkingSpot>): (left: seq<ParkingSpot>)
    ensures |left| == Half(|spots|)
    ensures forall i :: 0 <= i < |left| ==> left[i] == spots[i]
  {
    spots[..Half(|spots|)]
  }

  /** The right column: the rest. */
  function RightColumn(spots: seq<ParkingSpot>): (right: seq<ParkingSpot>)
    ensures |right| == |spots| - Half(|spots|)
    ensures forall i :: 0 <= i < |right| ==> right[i] == spots[Half(|spots|) + i]
  {
    spots[Half(|spots|)..]
  }

  /** The two columns together are the floor, in order, the left one being as
      long as the right one or one longer. */
  lemma ColumnsSplitFloor(spots: seq<ParkingSpot>)
    ensures LeftColumn(spots) + RightColumn(spots) == spots
    ensures |LeftColumn(spots)| == |RightColumn(spots)| || |LeftColumn(spots)| == |RightColumn(spots)| + 1
  {
    assert LeftColumn(spots) + RightColumn(spots) == spots;
  }
}
