/**
 * Small grids worked through end to end: what the graph says about them, and
 * what a client of the grid observes when it opens their sites one by one.
 */
module Scenarios {
  import opened Sites
  import opened Connectivity
  import opened PercolationModel

  /** A blocked grid never percolates: Top reaches nothing but itself. */
  lemma BlockedGridDoesNotPercolate(n: int)
    ensures !Reach(n, {}, true, Top, Bottom)
  {
    if Reach(n, {}, true, Top, Bottom) {
      NothingOpenNothingReached(n, true, Top, Bottom);
    }
  }

  /** In a 1-by-1 grid with its only site open, the site is full and the system percolates. */
  lemma SingleSiteGraph()
    ensures Reach(1, {(1, 1)}, true, Top, Bottom)
    ensures Reach(1, {(1, 1)}, false, Site(1, 1), Top)
  {
    assert Walk(1, {(1, 1)}, true, [Top, Site(1, 1), Bottom], Top, Bottom);
    assert Walk(1, {(1, 1)}, false, [Site(1, 1), Top], Site(1, 1), Top);
  }

  /** Two open sites that touch only at a corner do not carry water from top to bottom. */
  lemma DiagonalGraph()
    ensures !Reach(2, {(1, 1), (2, 2)}, true, Top, Bottom)
    ensures !Reach(2, {(1, 1), (2, 2)}, false, Site(2, 2), Top)
  {
    var open := {(1, 1), (2, 2)};
    var upper := {Top, Site(1, 1)};
    forall x, y | x in upper && Edge(2, open, true, x, y)
      ensures y in upper
    {
    }
    assert Closed(2, open, true, upper);
    if Reach(2, open, true, Top, Bottom) {
      ClosedSetConfines(2, open, true, upper, Top, Bottom);
    }
    if Reach(2, open, false, Site(2, 2), Top) {
      ReachSymmetric(2, open, false, Site(2, 2), Top);
      ReachMonotone(2, open, open, false, true, Top, Site(2, 2));
      ClosedSetConfines(2, open, true, upper, Top, Site(2, 2));
    }
  }

  /**
   * Backwash in a 3-by-3 grid: with the first column and site (3, 3) open, the
   * system percolates and (3, 3) reaches Top through Bottom, but it is not full,
   * because the graph without Bottom leaves it on its own.
   */
  lemma BackwashGraph()
    ensures Reach(3, {(1, 1), (2, 1), (3, 1), (3, 3)}, true, Top, Bottom)
    ensures Reach(3, {(1, 1), (2, 1), (3, 1), (3, 3)}, true, Site(3, 3), Top)
    ensures !Reach(3, {(1, 1), (2, 1), (3, 1), (3, 3)}, false, Site(3, 3), Top)
  {
    var open := {(1, 1), (2, 1), (3, 1), (3, 3)};
    assert Walk(3, open, true, [Top, Site(1, 1), Site(2, 1), Site(3, 1), Bottom], Top, Bottom);
    assert Walk(3, open, true, [Site(3, 3), Bottom, Site(3, 1), Site(2, 1), Site(1, 1), Top], Site(3, 3), Top);
    var corner := {Site(3, 3)};
    assert Closed(3, open, false, corner);
    if Reach(3, open, false, Site(3, 3), Top) {
      ClosedSetConfines(3, open, false, corner, Site(3, 3), Top);
    }
  }

  /** A 2-by-2 grid with its first column open percolates, and its lower site is full. */
  lemma VerticalGraph()
    ensures Reach(2, {(1, 1), (2, 1)}, true, Top, Bottom)
    ensures Reach(2, {(1, 1), (2, 1)}, false, Site(2, 1), Top)
  {
    var open := {(1, 1), (2, 1)};
    assert Walk(2, open, true, [Top, Site(1, 1), Site(2, 1), Bottom], Top, Bottom);
    assert Walk(2, open, false, [Site(2, 1), Site(1, 1), Top], Site(2, 1), Top);
  }

  /**
   * A 2-by-2 grid with only site (2, 1) open: the site touches Bottom, but the
   * system does not percolate and the site is not full.
   */
  lemma BottomOnlyGraph()
    ensures !Reach(2, {(2, 1)}, true, Top, Bottom)
    ensures !Reach(2, {(2, 1)}, false, Site(2, 1), Top)
  {
    var open := {(2, 1)};
    var lower := {Bottom, Site(2, 1)};
    forall x, y | x in lower && Edge(2, open, true, x, y)
      ensures y in lower
    {
    }
    if Reach(2, open, true, Top, Bottom) {
      ReachSymmetric(2, open, true, Top, Bottom);
      ClosedSetConfines(2, open, true, lower, Bottom, Top);
    }
    if Reach(2, open, false, Site(2, 1), Top) {
      ReachMonotone(2, open, open, false, true, Site(2, 1), Top);
      ClosedSetConfines(2, open, true, lower, Site(2, 1), Top);
    }
  }

  /** Opens (row, col) of a valid grid, where it is in bounds: afterwards it is one of the open sites. */
  method OpenSite(grid: Percolation, row: int, col: int)
    requires grid.Valid() && InBounds(grid.rowSize, row, col)
    modifies grid, grid.openSites, grid.sites.id, grid.fullSites.id
    ensures grid.Valid() && grid.openSet == old(grid.openSet) + {(row, col)}
  {
    var outcome := grid.Open(row, col);
  }

  /** Opening the single site of a 1-by-1 grid: it is open, full, and the system percolates. */
  method SingleSite() returns (open: bool, full: bool, percolates: bool, count: int)
    ensures open && full && percolates && count == 1
  {
    var grid := new Percolation(1);
    var outcome := grid.Open(1, 1);
    var isOpen := grid.IsOpen(1, 1);
    var isFull := grid.IsFull(1, 1);
    SingleSiteGraph();
    percolates := grid.Percolates();
    count := grid.NumberOfOpenSites();
    open := isOpen.Success? && isOpen.value;
    full := isFull.Success? && isFull.value;
  }

  /** Opening the same site twice counts it once; opening the diagonal of a 2-by-2 grid does not percolate. */
  method Diagonal() returns (count: int, percolates: bool, full: bool)
    ensures count == 2 && !percolates && !full
  {
    var grid := new Percolation(2);
    OpenSite(grid, 1, 1);
    assert grid.openSet == {(1, 1)};
    OpenSite(grid, 2, 2);
    assert grid.openSet == {(1, 1), (2, 2)};
    OpenSite(grid, 1, 1);
    assert grid.openSet == {(1, 1), (2, 2)};
    count := grid.NumberOfOpenSites();
    DiagonalGraph();
    percolates := grid.Percolates();
    var isFull := grid.IsFull(2, 2);
    full := isFull.Success? && isFull.value;
  }

  /** Opening the first column of a 2-by-2 grid: the system percolates and the lower site is full. */
  method Vertical() returns (percolates: bool, full: bool)
    ensures percolates && full
  {
    var grid := new Percolation(2);
    OpenSite(grid, 1, 1);
    assert grid.openSet == {(1, 1)};
    OpenSite(grid, 2, 1);
    assert grid.openSet == {(1, 1), (2, 1)};
    VerticalGraph();
    percolates := grid.Percolates();
    var isFull := grid.IsFull(2, 1);
    full := isFull.Success? && isFull.value;
  }

  /** Opening only a bottom-row site: it is open, yet neither full nor percolating. */
  method BottomOnly() returns (open: bool, full: bool, percolates: bool)
    ensures open && !full && !percolates
  {
    var grid := new Percolation(2);
    OpenSite(grid, 2, 1);
    assert grid.openSet == {(2, 1)};
    BottomOnlyGraph();
    var isOpen := grid.IsOpen(2, 1);
    open := isOpen.Success? && isOpen.value;
    var isFull := grid.IsFull(2, 1);
    full := isFull.Success? && isFull.value;
    percolates := grid.Percolates();
  }

  /** Backwash avoided: the 3-by-3 grid percolates, yet (3, 3) is not reported full. */
  method Backwash() returns (percolates: bool, full: bool)
    ensures percolates && !full
  {
    var grid := new Percolation(3);
    OpenSite(grid, 1, 1);
    assert grid.openSet == {(1, 1)};
    OpenSite(grid, 2, 1);
    assert grid.openSet == {(1, 1), (2, 1)};
    OpenSite(grid, 3, 1);
    assert grid.openSet == {(1, 1), (2, 1), (3, 1)};
    OpenSite(grid, 3, 3);
    assert grid.openSet == {(1, 1), (2, 1), (3, 1), (3, 3)};
    BackwashGraph();
    percolates := grid.Percolates();
    var isFull := grid.IsFull(3, 3);
    full := isFull.Success? && isFull.value;
  }

  /**
   * Invalid arguments: a non-positive size is refused, the row is checked
   * before the column, and a refused call leaves the grid as it was.
   */
  method InvalidArguments() returns (created: bool, openError: Outcome, fullError: Result<bool>, count: int)
    ensures !created
    ensures openError == Fail(RowOutOfBounds)
    ensures fullError == Failure(ColumnOutOfBounds)
    ensures count == 0
  {
    var made := Create(0);
    created := made.Success?;
    var grid := new Percolation(2);
    openError := grid.Open(0, 5);
    fullError := grid.IsFull(2, 3);
    count := grid.NumberOfOpenSites();
  }
}
