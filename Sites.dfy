/**
 * Sites of an n-by-n percolation grid: their 1-based coordinates, the integer
 * ids the union-find structures use for them, the two virtual nodes, and the
 * validation of caller-supplied coordinates.
 */
module Sites {

  /** The only error kind: an invalid argument, told apart by what was wrong. */
  datatype Error = GridSizeNotPositive | RowOutOfBounds | ColumnOutOfBounds

  /** What an operation without a result value does: succeed or fail with an error. */
  datatype Outcome = Pass | Fail(error: Error)

  /** What an operation with a result value does. */
  datatype Result<T> = Success(value: T) | Failure(error: Error)

  /**
   * A node of the connectivity graph: the virtual top node, the virtual bottom
   * node, or the grid site at (row, col), both counted from 1.
   */
  datatype Node = Top | Bottom | Site(row: int, col: int)

  /** The largest side length for which every id, up to n * n + 1, fits in a 32-bit signed int. */
  const MaxSide := 46340

  /** Id of the virtual top node, in both structures. */
  const TopSite := 0

  predicate InBounds(n: int, row: int, col: int)
  {
    1 <= row <= n && 1 <= col <= n
  }

  /**
   * The coordinate check of every public coordinate-taking operation: the row
   * is checked before the column, and only in-bounds pairs pass.
   */
  function ValidateIndices(n: int, row: int, col: int): (r: Outcome)
    ensures r.Pass? <==> InBounds(n, row, col)
    ensures r == Fail(RowOutOfBounds) <==> !(1 <= row <= n)
    ensures r == Fail(ColumnOutOfBounds) <==> 1 <= row <= n && !(1 <= col <= n)
  {
    if row < 1 || row > n then Fail(RowOutOfBounds)
    else if col < 1 || col > n then Fail(ColumnOutOfBounds)
    else Pass
  }

  /** Id of the virtual bottom node, which only the percolation structure holds. */
  function BottomSite(n: int): int
  {
    n * n + 1
  }

  /** Row-major id of site (row, col): a grid site never gets a virtual id. */
  function XyTo1D(n: int, row: int, col: int): (id: int)
    requires InBounds(n, row, col)
    ensures 1 <= id <= n * n
    ensures id != TopSite && id != BottomSite(n)
  {
    MulMonotone(row - 1, n - 1, n);
    (row - 1) * n + col
  }

  /** The inverse of XyTo1D on the site ids 1..n*n. */
  function SiteOf(n: int, id: int): (rc: (int, int))
    requires n > 0 && 1 <= id <= n * n
    ensures InBounds(n, rc.0, rc.1)
  {
    var q, m := (id - 1) / n, (id - 1) % n;
    assert q < n by {
      if q >= n {
        MulMonotone(n, q, n);
      }
    }
    (q + 1, m + 1)
  }

  lemma MulMonotone(a: int, b: int, n: int)
    requires 0 <= a <= b && 0 <= n
    ensures 0 <= a * n <= b * n
  {
    assert b * n == a * n + (b - a) * n;
  }

  /** Euclidean division of q * n + m by n, for 0 <= m < n, gives back q and m. */
  lemma DivModUnique(q: int, m: int, n: int)
    requires n > 0 && 0 <= m < n
    ensures (q * n + m) / n == q && (q * n + m) % n == m
  {
    var a := q * n + m;
    var d := q - a / n;
    assert d * n == a % n - m;
    if d > 0 {
      assert d * n == (d - 1) * n + n;
      MulMonotone(0, d - 1, n);
    } else if d < 0 {
      assert (-d) * n == (-d - 1) * n + n;
      MulMonotone(0, -d - 1, n);
    }
  }

  /** Decoding the id of a site gives the site back. */
  lemma SiteOfXyTo1D(n: int, row: int, col: int)
    requires InBounds(n, row, col)
    ensures SiteOf(n, XyTo1D(n, row, col)) == (row, col)
  {
    DivModUnique(row - 1, col - 1, n);
  }

  /** Encoding the decoded site of an id gives the id back: XyTo1D is onto 1..n*n. */
  lemma XyTo1DSiteOf(n: int, id: int)
    requires n > 0 && 1 <= id <= n * n
    ensures XyTo1D(n, SiteOf(n, id).0, SiteOf(n, id).1) == id
  {
    var q, m := (id - 1) / n, (id - 1) % n;
    assert id - 1 == q * n + m;
  }

  /** Distinct sites get distinct ids. */
  lemma XyTo1DInjective(n: int, r1: int, c1: int, r2: int, c2: int)
    requires InBounds(n, r1, c1) && InBounds(n, r2, c2)
    ensures XyTo1D(n, r1, c1) == XyTo1D(n, r2, c2) <==> (r1, c1) == (r2, c2)
  {
    SiteOfXyTo1D(n, r1, c1);
    SiteOfXyTo1D(n, r2, c2);
  }

  /** A node belongs to the universe of a structure; only the percolation structure holds Bottom. */
  predicate IsNode(n: int, withBottom: bool, u: Node)
  {
    match u
    case Top => true
    case Bottom => withBottom
    case Site(r, c) => InBounds(n, r, c)
  }

  /** Number of ids of a structure: the n*n sites, Top, and Bottom when it is held. */
  function UniverseSize(n: int, withBottom: bool): int
  {
    n * n + (if withBottom then 2 else 1)
  }

  /** The id a structure uses for a node. */
  function NodeId(n: int, u: Node): (id: int)
    requires n > 0 && IsNode(n, true, u)
    ensures 0 <= id < UniverseSize(n, true)
    ensures id == TopSite <==> u == Top
    ensures id == BottomSite(n) <==> u == Bottom
  {
    match u
    case Top => TopSite
    case Bottom => BottomSite(n)
    case Site(r, c) => XyTo1D(n, r, c)
  }

  /** Every node of a structure's universe has an id inside that universe, and no two share one. */
  lemma NodeIdInjective(n: int, withBottom: bool, u: Node, v: Node)
    requires n > 0 && IsNode(n, withBottom, u) && IsNode(n, withBottom, v)
    ensures 0 <= NodeId(n, u) < UniverseSize(n, withBottom)
    ensures NodeId(n, u) == NodeId(n, v) <==> u == v
  {
    if u.Site? && v.Site? {
      XyTo1DInjective(n, u.row, u.col, v.row, v.col);
    }
  }
}
