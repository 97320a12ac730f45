/** The spot-grid utilities of the parking-spot service: lookup, status and
    row filters, grid dimensions, the dense row/column grid and status counts. */
module SpotService {
  import opened Wrappers
  import opened Seqs

  /** Exactly one of the three states holds for every spot. */
  datatype SpotStatus = Available | Occupied | Reserved

  datatype Spot = Spot(
    id: string,
    parkingId: int,
    rowIndex: int,
    columnIndex: int,
    displayLabel: string,
    status: SpotStatus)

  predicate IsAvailable(s: Spot) { s.status == Available }
  predicate IsOccupied(s: Spot) { s.status == Occupied }
  predicate IsReserved(s: Spot) { s.status == Reserved }

  /** `spots.find(spot => spot.id === spotId)`. */
  function GetSpotById(spots: seq<Spot>, spotId: string): (r: Option<Spot>)
    ensures r.None? <==> forall i :: 0 <= i < |spots| ==> spots[i].id != spotId
    ensures r.Some? ==> exists k :: 0 <= k < |spots| && spots[k] == r.value && r.value.id == spotId
                                     && forall j :: 0 <= j < k ==> spots[j].id != spotId
    decreases |spots|
  {
    if |spots| == 0 then None
    else if spots[0].id == spotId then Some(spots[0])
    else
      var r := GetSpotById(spots[1..], spotId);
      if r.Some? then
        ghost var k :| 0 <= k < |spots[1..]| && spots[1..][k] == r.value && r.value.id == spotId
                       && forall j :: 0 <= j < k ==> spots[1..][j].id != spotId;
        assert spots[k + 1] == r.value;
        r
      else r
  }

  /** `spots.filter(spot => spot.status === 'available')`: every available
      spot, as often as it occurs, in order. */
  function GetAvailableSpots(spots: seq<Spot>): (r: seq<Spot>)
    ensures Subseq(r, spots)
    ensures forall s :: s in r <==> s in spots && s.status == Available
    ensures |r| == Count(spots, IsAvailable)
  {
    Filter(spots, IsAvailable)
  }

  function RowTest(rowIndex: int): Spot -> bool {
    (s: Spot) => s.rowIndex == rowIndex
  }

  /** `spots.filter(spot => spot.rowIndex === rowIndex)`: every spot of the row,
      as often as it occurs, in order. */
  function GetSpotsByRow(spots: seq<Spot>, rowIndex: int): (r: seq<Spot>)
    ensures Subseq(r, spots)
    ensures forall s :: s in r <==> s in spots && s.rowIndex == rowIndex
    ensures |r| == Count(spots, RowTest(rowIndex))
  {
    Filter(spots, RowTest(rowIndex))
  }

  // ---------------------------------------------------------------- statistics

  datatype SpotStatistics = SpotStatistics(total: nat, available: nat, occupied: nat, reserved: nat)

  lemma {:induction false} StatusCountsPartition(spots: seq<Spot>)
    ensures Count(spots, IsAvailable) + Count(spots, IsOccupied) + Count(spots, IsReserved) == |spots|
    decreases |spots|
  {
    if |spots| > 0 {
      StatusCountsPartition(spots[1..]);
    }
  }

  /** Counts per status; since the statuses are exhaustive and exclusive they add up to the total. */
  function GetSpotStatistics(spots: seq<Spot>): (st: SpotStatistics)
    ensures st.total == |spots|
    ensures st.available + st.occupied + st.reserved == st.total
    ensures st.available == |GetAvailableSpots(spots)|
    ensures st.available == Count(spots, IsAvailable)
    ensures st.occupied == Count(spots, IsOccupied)
    ensures st.reserved == Count(spots, IsReserved)
  {
    StatusCountsPartition(spots);
    SpotStatistics(|spots|, Count(spots, IsAvailable), Count(spots, IsOccupied), Count(spots, IsReserved))
  }

  // ---------------------------------------------------------------- dimensions

  function MaxOf(spots: seq<Spot>, key: Spot -> int): (m: int)
    requires |spots| > 0
    ensures forall i :: 0 <= i < |spots| ==> key(spots[i]) <= m
    ensures exists i :: 0 <= i < |spots| && key(spots[i]) == m
    decreases |spots|
  {
    if |spots| == 1 then key(spots[0])
    else
      var m := MaxOf(spots[1..], key);
      assert forall i :: 1 <= i < |spots| ==> key(spots[i]) == key(spots[1..][i - 1]);
      if key(spots[0]) >= m then key(spots[0]) else m
  }

  datatype Dimensions = Dimensions(maxRow: int, maxColumn: int)

  function RowOf(s: Spot): int { s.rowIndex }
  function ColumnOf(s: Spot): int { s.columnIndex }

  /** The largest row and column index in use; `(0, 0)` for no spots. */
  function GetGridDimensions(spots: seq<Spot>): (d: Dimensions)
    ensures |spots| == 0 ==> d == Dimensions(0, 0)
    ensures forall i :: 0 <= i < |spots| ==> spots[i].rowIndex <= d.maxRow && spots[i].columnIndex <= d.maxColumn
    ensures |spots| > 0 ==> exists i :: 0 <= i < |spots| && spots[i].rowIndex == d.maxRow
    ensures |spots| > 0 ==> exists i :: 0 <= i < |spots| && spots[i].columnIndex == d.maxColumn
  {
    if |spots| == 0 then Dimensions(0, 0)
    else Dimensions(MaxOf(spots, RowOf), MaxOf(spots, ColumnOf))
  }

  // ---------------------------------------------------------------- dense grid

  type Grid = seq<seq<Option<Spot>>>

  predicate Shaped(g: Grid, rows: nat, cols: nat) {
    |g| == rows && forall r :: 0 <= r < |g| ==> |g[r]| == cols
  }

  predicate At(s: Spot, r: int, c: int) { s.rowIndex == r && s.columnIndex == c }

  /** Position `i` holds a spot at row `r`, column `c`, and no later position does. */
  predicate LastIndexAt(spots: seq<Spot>, r: int, c: int, i: int) {
    0 <= i < |spots| && At(spots[i], r, c) && forall j :: i < j < |spots| ==> !At(spots[j], r, c)
  }

  /** The last spot (in input order) at row `r`, column `c`: the one the grid keeps. */
  function LastAt(spots: seq<Spot>, r: int, c: int): (cell: Option<Spot>)
    ensures cell.None? <==> forall i :: 0 <= i < |spots| ==> !(spots[i].rowIndex == r && spots[i].columnIndex == c)
    ensures cell.Some? ==> cell.value in spots && cell.value.rowIndex == r && cell.value.columnIndex == c
    ensures cell.Some? ==> exists i :: LastIndexAt(spots, r, c, i) && spots[i] == cell.value
    decreases |spots|
  {
    if |spots| == 0 then None
    else
      var last := spots[|spots| - 1];
      if At(last, r, c) then
        assert LastIndexAt(spots, r, c, |spots| - 1);
        Some(last)
      else
        var init := spots[..|spots| - 1];
        var cell := LastAt(init, r, c);
        assert forall i :: 0 <= i < |spots| - 1 ==> spots[i] == init[i];
        if cell.Some? then
          ghost var k :| LastIndexAt(init, r, c, k) && init[k] == cell.value;
          assert LastIndexAt(spots, r, c, k);
          cell
        else cell
  }

  function EmptyGrid(rows: nat, cols: nat): (g: Grid)
    ensures Shaped(g, rows, cols)
    ensures forall r, c :: 0 <= r < rows && 0 <= c < cols ==> g[r][c] == None
  {
    seq(rows, _ => seq(cols, _ => None))
  }

  /** `grid[spot.rowIndex][spot.columnIndex] = spot`; a negative column only sets a
      non-index property of the row array, so the cells are unchanged. */
  function Put(g: Grid, spot: Spot): Grid
    requires 0 <= spot.rowIndex < |g| && spot.columnIndex < |g[spot.rowIndex]|
  {
    if spot.columnIndex < 0 then g
    else g[spot.rowIndex := g[spot.rowIndex][spot.columnIndex := Some(spot)]]
  }

  predicate Fits(spots: seq<Spot>, rows: nat, cols: nat) {
    forall i :: 0 <= i < |spots| ==> 0 <= spots[i].rowIndex < rows && spots[i].columnIndex < cols
  }

  /** `spots.forEach(...)`: placing the spots one after another. */
  function PutAll(g: Grid, spots: seq<Spot>, rows: nat, cols: nat): (h: Grid)
    requires Shaped(g, rows, cols) && Fits(spots, rows, cols)
    ensures Shaped(h, rows, cols)
    decreases |spots|
  {
    if |spots| == 0 then g
    else
      var before := PutAll(g, spots[..|spots| - 1], rows, cols);
      Put(before, spots[|spots| - 1])
  }

  /** Placing into an empty grid leaves in each cell the last spot placed there. */
  lemma {:induction false} PutAllCells(spots: seq<Spot>, rows: nat, cols: nat)
    requires Fits(spots, rows, cols)
    ensures forall r, c :: 0 <= r < rows && 0 <= c < cols ==>
              PutAll(EmptyGrid(rows, cols), spots, rows, cols)[r][c] == LastAt(spots, r, c)
    decreases |spots|
  {
    if |spots| > 0 {
      var init := spots[..|spots| - 1];
      assert Fits(init, rows, cols) by {
        forall i | 0 <= i < |init| ensures 0 <= init[i].rowIndex < rows && init[i].columnIndex < cols {
          assert init[i] == spots[i];
        }
      }
      PutAllCells(init, rows, cols);
    }
  }

  datatype GridError =
    | InvalidArrayLength   // `new Array(maxColumn + 1)` with a negative length throws a RangeError
    | RowOutsideGrid       // `grid[rowIndex]` is undefined for a negative row: a TypeError

  /** Some spot has a non-negative row, so the row loop builds at least one row. */
  predicate RowsBuilt(spots: seq<Spot>) {
    exists i :: 0 <= i < |spots| && 0 <= spots[i].rowIndex
  }

  /** Some spot has a column of -1 or more, so `maxColumn + 1` is a valid array length. */
  predicate ColumnsFit(spots: seq<Spot>) {
    exists i :: 0 <= i < |spots| && -1 <= spots[i].columnIndex
  }

  /** `organizeIntoGrid`: a `(maxRow + 1) x (maxColumn + 1)` grid of cells, each
      holding the last spot at that position or nothing. */
  function OrganizeIntoGrid(spots: seq<Spot>): (r: Result<Grid, GridError>)
    ensures r.Success? <==>
              (forall i :: 0 <= i < |spots| ==> 0 <= spots[i].rowIndex)
              && (|spots| == 0 || exists i :: 0 <= i < |spots| && -1 <= spots[i].columnIndex)
    ensures r.Success? ==>
              var d := GetGridDimensions(spots);
              && Shaped(r.value, d.maxRow + 1, d.maxColumn + 1)
              && forall row, col :: 0 <= row <= d.maxRow && 0 <= col <= d.maxColumn ==>
                   r.value[row][col] == LastAt(spots, row, col)
    ensures |spots| == 0 ==> r == Success([[None]])
    ensures r == Failure(InvalidArrayLength) <==> RowsBuilt(spots) && !ColumnsFit(spots)
    ensures r == Failure(RowOutsideGrid) <==>
              (exists i :: 0 <= i < |spots| && spots[i].rowIndex < 0) && !(RowsBuilt(spots) && !ColumnsFit(spots))
  {
    var d := GetGridDimensions(spots);
    if d.maxRow >= 0 && d.maxColumn + 1 < 0 then Failure(InvalidArrayLength)
    else if exists i | 0 <= i < |spots| :: spots[i].rowIndex < 0 then Failure(RowOutsideGrid)
    else
      var rows, cols := d.maxRow + 1, d.maxColumn + 1;
      PutAllCells(spots, rows, cols);
      assert |spots| == 0 ==> EmptyGrid(rows, cols) == [[None]] by {
        if |spots| == 0 {
          assert EmptyGrid(rows, cols)[0] == [None];
        }
      }
      Success(PutAll(EmptyGrid(rows, cols), spots, rows, cols))
  }
}
