/**
 * The percolation grid: an n-by-n grid of blocked or open sites, a counter of
 * open sites, and two union-find structures over site ids. `sites` holds every
 * site plus a virtual top node (id 0) and a virtual bottom node (id n*n+1) and
 * answers "does the system percolate"; `fullSites` holds every site plus the
 * virtual top node only and answers "is this site full", so that sites joined
 * to the bottom through some other percolating path are not reported as full.
 */
module PercolationModel {
  import opened Sites
  import opened Connectivity
  import opened DisjointSets

  /**
   * The representative array `s` of a structure over the nodes of an n-by-n
   * grid puts two nodes in the same set exactly when they are connected in the
   * graph of the open sites `open`.
   */
  ghost predicate Represents(s: seq<int>, n: int, open: set<(int, int)>, withBottom: bool)
    requires n > 0
  {
    forall u, v {:trigger SameSet(s, NodeId(n, u), NodeId(n, v))} ::
      IsNode(n, withBottom, u) && IsNode(n, withBottom, v) ==>
      (SameSet(s, NodeId(n, u), NodeId(n, v)) <==> Reach(n, open, withBottom, u, v))
  }

  /**
   * The state of a structure part-way through opening a site: two nodes share a
   * set when they were connected before, or when both are connected to a node
   * the new site has already been joined to.
   */
  ghost predicate Joined(s: seq<int>, n: int, open: set<(int, int)>, withBottom: bool, joined: set<Node>)
    requires n > 0
  {
    forall u, v {:trigger SameSet(s, NodeId(n, u), NodeId(n, v))} ::
      IsNode(n, withBottom, u) && IsNode(n, withBottom, v) ==>
      (SameSet(s, NodeId(n, u), NodeId(n, v)) <==>
        Reach(n, open, withBottom, u, v) ||
        (Near(n, open, withBottom, joined, u) && Near(n, open, withBottom, joined, v)))
  }

  /** The site (r, c) when it is in bounds and open; nothing otherwise. */
  ghost function IfOpen(n: int, open: set<(int, int)>, r: int, c: int): set<Node>
  {
    if InBounds(n, r, c) && (r, c) in open then {Site(r, c)} else {}
  }

  /**
   * What opening (r, c) joins the site to: its open in-bounds neighbours, Top
   * for a site of row 1 and, where the bottom node takes part, Bottom for a
   * site of row n.
   */
  ghost function Joins(n: int, open: set<(int, int)>, withBottom: bool, r: int, c: int): set<Node>
  {
    NeighbourJoins(n, open, r, c) + (if r == 1 then {Top} else {}) + (if withBottom && r == n then {Bottom} else {})
  }

  /** The site (r, c) and its open in-bounds neighbours. */
  ghost function NeighbourJoins(n: int, open: set<(int, int)>, r: int, c: int): set<Node>
  {
    {Site(r, c)} + IfOpen(n, open, r, c - 1) + IfOpen(n, open, r, c + 1) +
    IfOpen(n, open, r - 1, c) + IfOpen(n, open, r + 1, c)
  }

  /** The nodes the open operation joins a site to are exactly its neighbours in the graph. */
  lemma JoinsNeighbourhood(n: int, open: set<(int, int)>, withBottom: bool, r: int, c: int)
    requires InBounds(n, r, c)
    requires forall q :: q in open ==> InBounds(n, q.0, q.1)
    ensures Neighbourhood(n, open, withBottom, r, c, Joins(n, open, withBottom, r, c))
  {
    var open' := open + {(r, c)};
    var joined := Joins(n, open, withBottom, r, c);
    forall x | x in joined
      ensures x == Site(r, c) || Edge(n, open', withBottom, Site(r, c), x)
    {
      JoinedNodeIsNeighbour(n, open, withBottom, r, c, x);
    }
    forall x | Edge(n, open', withBottom, Site(r, c), x)
      ensures x in joined
    {
      NeighbourIsJoined(n, open, withBottom, r, c, x);
    }
  }

  /** Each node that opening (r, c) joins the site to is the site itself or one of its graph neighbours. */
  lemma JoinedNodeIsNeighbour(n: int, open: set<(int, int)>, withBottom: bool, r: int, c: int, x: Node)
    requires InBounds(n, r, c) && x in Joins(n, open, withBottom, r, c)
    ensures x == Site(r, c) || Edge(n, open + {(r, c)}, withBottom, Site(r, c), x)
  {
  }

  /** Each graph neighbour of the opened site (r, c) is among the nodes opening joins it to. */
  lemma NeighbourIsJoined(n: int, open: set<(int, int)>, withBottom: bool, r: int, c: int, x: Node)
    requires InBounds(n, r, c)
    requires forall q :: q in open ==> InBounds(n, q.0, q.1)
    requires Edge(n, open + {(r, c)}, withBottom, Site(r, c), x)
    ensures x in Joins(n, open, withBottom, r, c)
  {
    match x
    case Top =>
    case Bottom =>
    case Site(r2, c2) =>
      assert (r2, c2) in open;
  }

  /** Before any union, a blocked site forms a set of its own. */
  lemma StartJoin(s: seq<int>, n: int, open: set<(int, int)>, withBottom: bool, r: int, c: int)
    requires n > 0 && (r, c) !in open
    requires Represents(s, n, open, withBottom)
    ensures Joined(s, n, open, withBottom, {Site(r, c)})
  {
    forall u, v | IsNode(n, withBottom, u) && IsNode(n, withBottom, v)
      ensures SameSet(s, NodeId(n, u), NodeId(n, v)) <==>
        Reach(n, open, withBottom, u, v) ||
        (Near(n, open, withBottom, {Site(r, c)}, u) && Near(n, open, withBottom, {Site(r, c)}, v))
    {
      if Near(n, open, withBottom, {Site(r, c)}, u) && Near(n, open, withBottom, {Site(r, c)}, v) {
        BlockedSiteIsolated(n, open, withBottom, r, c, u);
        BlockedSiteIsolated(n, open, withBottom, r, c, v);
        ReachReflexive(n, open, withBottom, u);
      }
    }
  }

  /** One union of a node `a` with the site being opened, `c`, adds `a` to what the site is joined to. */
  lemma JoinStep(s: seq<int>, n: int, open: set<(int, int)>, withBottom: bool, joined: set<Node>, c: Node, a: Node)
    requires n > 0 && |s| == UniverseSize(n, withBottom)
    requires IsNode(n, withBottom, c) && IsNode(n, withBottom, a) && c in joined
    requires Joined(s, n, open, withBottom, joined)
    ensures NodeId(n, a) < |s| && NodeId(n, c) < |s|
    ensures Joined(Merged(s, NodeId(n, a), NodeId(n, c)), n, open, withBottom, joined + {a})
  {
    NodeIdInjective(n, withBottom, a, a);
    NodeIdInjective(n, withBottom, c, c);
    var m := Merged(s, NodeId(n, a), NodeId(n, c));
    ReachReflexive(n, open, withBottom, c);
    assert Near(n, open, withBottom, joined, c);
    forall u, v | IsNode(n, withBottom, u) && IsNode(n, withBottom, v)
      ensures SameSet(m, NodeId(n, u), NodeId(n, v)) <==>
        Reach(n, open, withBottom, u, v) ||
        (Near(n, open, withBottom, joined + {a}, u) && Near(n, open, withBottom, joined + {a}, v))
    {
      MergedSameSet(s, NodeId(n, a), NodeId(n, c), NodeId(n, u), NodeId(n, v));
      NearGrows(n, open, withBottom, joined, a, u);
      NearGrows(n, open, withBottom, joined, a, v);
      if Reach(n, open, withBottom, u, c) {
        assert Near(n, open, withBottom, joined, u);
      }
      if Reach(n, open, withBottom, c, v) {
        ReachSymmetric(n, open, withBottom, c, v);
        assert Near(n, open, withBottom, joined, v);
      }
      if Reach(n, open, withBottom, a, v) {
        ReachSymmetric(n, open, withBottom, a, v);
      }
      if Reach(n, open, withBottom, v, a) {
        ReachSymmetric(n, open, withBottom, v, a);
      }
      if Reach(n, open, withBottom, u, a) && Reach(n, open, withBottom, a, v) {
        ReachTransitive(n, open, withBottom, u, a, v);
      }
    }
  }

  /**
   * The representative array after connecting the site with id `source` to
   * its candidate neighbour (nr, nc): a union when the neighbour is in bounds
   * and open, no change otherwise.
   */
  function ConnectStep(s: seq<int>, n: int, open: set<(int, int)>, source: int, nr: int, nc: int): (r: seq<int>)
    requires 0 <= source < |s| && n * n < |s|
    ensures |r| == |s|
  {
    if InBounds(n, nr, nc) && (nr, nc) in open then Merged(s, XyTo1D(n, nr, nc), source) else s
  }

  /**
   * The representative array after all the unions of opening site (r, c):
   * with its four candidate neighbours, with Top for row 1 and, in a structure
   * that holds it, with Bottom for row n.
   */
  function AfterOpen(s: seq<int>, n: int, open: set<(int, int)>, withBottom: bool, r: int, c: int): (t: seq<int>)
    requires InBounds(n, r, c) && |s| == UniverseSize(n, withBottom)
    ensures |t| == |s|
  {
    var source := XyTo1D(n, r, c);
    var s4 := AfterNeighbours(s, n, open, source, r, c);
    var s5 := if r == 1 then Merged(s4, TopSite, source) else s4;
    if withBottom && r == n then Merged(s5, BottomSite(n), source) else s5
  }

  /** The representative array after connecting the site `source`, at (r, c), to its four candidate neighbours. */
  function AfterNeighbours(s: seq<int>, n: int, open: set<(int, int)>, source: int, r: int, c: int): (t: seq<int>)
    requires 0 <= source < |s| && n * n < |s|
    ensures |t| == |s|
  {
    var s1 := ConnectStep(s, n, open, source, r, c - 1);
    var s2 := ConnectStep(s1, n, open, source, r, c + 1);
    var s3 := ConnectStep(s2, n, open, source, r - 1, c);
    ConnectStep(s3, n, open, source, r + 1, c)
  }

  /** A union of `a` with the site being opened `c` that takes place only when `cond` holds. */
  lemma JoinStepIf(s: seq<int>, n: int, open: set<(int, int)>, withBottom: bool, joined: set<Node>, c: Node, a: Node, cond: bool)
    requires n > 0 && |s| == UniverseSize(n, withBottom)
    requires IsNode(n, withBottom, c) && c in joined
    requires cond ==> IsNode(n, withBottom, a)
    requires Joined(s, n, open, withBottom, joined)
    ensures cond ==> NodeId(n, a) < |s| && NodeId(n, c) < |s|
    ensures Joined(if cond then Merged(s, NodeId(n, a), NodeId(n, c)) else s, n, open, withBottom,
                   joined + (if cond then {a} else {}))
  {
    if cond {
      JoinStep(s, n, open, withBottom, joined, c, a);
    } else {
      assert joined + {} == joined;
    }
  }

  /** Connecting the site (r, c) being opened to a candidate neighbour adds that neighbour, if open, to what the site is joined to. */
  lemma NeighbourStep(s: seq<int>, n: int, open: set<(int, int)>, withBottom: bool, joined: set<Node>, r: int, c: int, nr: int, nc: int)
    requires |s| == UniverseSize(n, withBottom) && InBounds(n, r, c) && Site(r, c) in joined
    requires Adjacent(r, c, nr, nc)
    requires Joined(s, n, open, withBottom, joined)
    ensures Joined(ConnectStep(s, n, open + {(r, c)}, XyTo1D(n, r, c), nr, nc), n, open, withBottom, joined + IfOpen(n, open, nr, nc))
  {
    if InBounds(n, nr, nc) && (nr, nc) in open {
      JoinStep(s, n, open, withBottom, joined, Site(r, c), Site(nr, nc));
    } else {
      assert joined + IfOpen(n, open, nr, nc) == joined;
    }
  }

  /** Two neighbour steps in a row add both neighbours, where open, to what the site is joined to. */
  lemma NeighbourPair(s: seq<int>, n: int, open: set<(int, int)>, withBottom: bool, joined: set<Node>, r: int, c: int,
                      nr1: int, nc1: int, nr2: int, nc2: int)
    requires |s| == UniverseSize(n, withBottom) && InBounds(n, r, c) && Site(r, c) in joined
    requires Adjacent(r, c, nr1, nc1) && Adjacent(r, c, nr2, nc2)
    requires Joined(s, n, open, withBottom, joined)
    ensures Joined(ConnectStep(ConnectStep(s, n, open + {(r, c)}, XyTo1D(n, r, c), nr1, nc1), n, open + {(r, c)}, XyTo1D(n, r, c), nr2, nc2),
                   n, open, withBottom, joined + IfOpen(n, open, nr1, nc1) + IfOpen(n, open, nr2, nc2))
  {
    NeighbourStep(s, n, open, withBottom, joined, r, c, nr1, nc1);
    var s1 := ConnectStep(s, n, open + {(r, c)}, XyTo1D(n, r, c), nr1, nc1);
    NeighbourStep(s1, n, open, withBottom, joined + IfOpen(n, open, nr1, nc1), r, c, nr2, nc2);
  }

  /** After the four neighbour steps, the site being opened is joined to its open neighbours. */
  lemma NeighboursJoined(s: seq<int>, n: int, open: set<(int, int)>, withBottom: bool, r: int, c: int)
    requires |s| == UniverseSize(n, withBottom) && InBounds(n, r, c)
    requires Joined(s, n, open, withBottom, {Site(r, c)})
    ensures Joined(AfterNeighbours(s, n, open + {(r, c)}, XyTo1D(n, r, c), r, c), n, open, withBottom, NeighbourJoins(n, open, r, c))
  {
    var open', source := open + {(r, c)}, XyTo1D(n, r, c);
    var j0 := {Site(r, c)};
    NeighbourPair(s, n, open, withBottom, j0, r, c, r, c - 1, r, c + 1);
    var s2 := ConnectStep(ConnectStep(s, n, open', source, r, c - 1), n, open', source, r, c + 1);
    var j2 := j0 + IfOpen(n, open, r, c - 1) + IfOpen(n, open, r, c + 1);
    NeighbourPair(s2, n, open, withBottom, j2, r, c, r - 1, c, r + 1, c);
    NeighboursUnfold(s, n, open, withBottom, r, c);
  }

  /** The four neighbour steps written out one by one are AfterNeighbours, and the four neighbour sets NeighbourJoins. */
  lemma NeighboursUnfold(s: seq<int>, n: int, open: set<(int, int)>, withBottom: bool, r: int, c: int)
    requires |s| == UniverseSize(n, withBottom) && InBounds(n, r, c)
    requires Joined(ConnectStep(ConnectStep(ConnectStep(ConnectStep(s, n, open + {(r, c)}, XyTo1D(n, r, c), r, c - 1),
        n, open + {(r, c)}, XyTo1D(n, r, c), r, c + 1), n, open + {(r, c)}, XyTo1D(n, r, c), r - 1, c), n, open + {(r, c)}, XyTo1D(n, r, c), r + 1, c),
      n, open, withBottom, {Site(r, c)} + IfOpen(n, open, r, c - 1) + IfOpen(n, open, r, c + 1) + IfOpen(n, open, r - 1, c) + IfOpen(n, open, r + 1, c))
    ensures Joined(AfterNeighbours(s, n, open + {(r, c)}, XyTo1D(n, r, c), r, c), n, open, withBottom, NeighbourJoins(n, open, r, c))
  {
  }


  /**
   * The unions of opening the blocked site (r, c) turn a structure that
   * represents the grid before into one that represents the grid after.
   */
  lemma OpenRepresents(s: seq<int>, n: int, open: set<(int, int)>, withBottom: bool, r: int, c: int)
    requires InBounds(n, r, c) && (r, c) !in open && |s| == UniverseSize(n, withBottom)
    requires forall q :: q in open ==> InBounds(n, q.0, q.1)
    requires Represents(s, n, open, withBottom)
    ensures Represents(AfterOpen(s, n, open + {(r, c)}, withBottom, r, c), n, open + {(r, c)}, withBottom)
  {
    var open', source := open + {(r, c)}, XyTo1D(n, r, c);
    StartJoin(s, n, open, withBottom, r, c);
    NeighboursJoined(s, n, open, withBottom, r, c);
    var s4, j4 := AfterNeighbours(s, n, open', source, r, c), NeighbourJoins(n, open, r, c);
    JoinStepIf(s4, n, open, withBottom, j4, Site(r, c), Top, r == 1);
    var s5 := if r == 1 then Merged(s4, TopSite, source) else s4;
    var j5 := j4 + (if r == 1 then {Top} else {});
    JoinStepIf(s5, n, open, withBottom, j5, Site(r, c), Bottom, withBottom && r == n);
    var s6 := if withBottom && r == n then Merged(s5, BottomSite(n), source) else s5;
    var j6 := j5 + (if withBottom && r == n then {Bottom} else {});
    JoinsNeighbourhood(n, open, withBottom, r, c);
    FinishJoin(s6, n, open, withBottom, r, c, j6);
  }

  /** Once the site has been joined to all its neighbours, the structure represents the new graph. */
  lemma FinishJoin(s: seq<int>, n: int, open: set<(int, int)>, withBottom: bool, r: int, c: int, joined: set<Node>)
    requires n > 0 && (r, c) !in open && Neighbourhood(n, open, withBottom, r, c, joined)
    requires Joined(s, n, open, withBottom, joined)
    ensures Represents(s, n, open + {(r, c)}, withBottom)
  {
    forall u, v | IsNode(n, withBottom, u) && IsNode(n, withBottom, v)
      ensures SameSet(s, NodeId(n, u), NodeId(n, v)) <==> Reach(n, open + {(r, c)}, withBottom, u, v)
    {
      OpeningJoins(n, open, withBottom, r, c, joined, u, v);
    }
  }

  /** A structure of singletons represents the grid with every site blocked. */
  lemma SingletonsRepresentBlockedGrid(s: seq<int>, n: int, withBottom: bool)
    requires n > 0 && |s| == UniverseSize(n, withBottom)
    requires forall p, q :: SameSet(s, p, q) <==> 0 <= p < |s| && p == q
    ensures Represents(s, n, {}, withBottom)
  {
    forall u, v | IsNode(n, withBottom, u) && IsNode(n, withBottom, v)
      ensures SameSet(s, NodeId(n, u), NodeId(n, v)) <==> Reach(n, {}, withBottom, u, v)
    {
      NodeIdInjective(n, withBottom, u, v);
      if Reach(n, {}, withBottom, u, v) {
        NothingOpenNothingReached(n, withBottom, u, v);
      }
      if u == v {
        ReachReflexive(n, {}, withBottom, u);
      }
    }
  }

  class Percolation {
    /** The side length n of the grid. */
    const rowSize: int
    /** openSites[row - 1, col - 1] tells whether site (row, col) is open. */
    const openSites: array2<bool>
    var openCount: int
    /** Structure over all sites, Top and Bottom. */
    const sites: UnionFind
    /** Structure over all sites and Top: it never holds Bottom. */
    const fullSites: UnionFind
    const topSite: int
    const bottomSite: int
    /** The open sites, as (row, col) pairs. */
    ghost var openSet: set<(int, int)>

    /** The shape of the state, and the grid agreeing with `openSet`. */
    ghost predicate WellFormed()
      reads this, openSites, sites.id, fullSites.id
    {
      0 < rowSize <= MaxSide &&
      openSites.Length0 == rowSize && openSites.Length1 == rowSize &&
      sites.id != fullSites.id && sites.Valid() && fullSites.Valid() &&
      sites.id.Length == UniverseSize(rowSize, true) && fullSites.id.Length == UniverseSize(rowSize, false) &&
      topSite == TopSite && bottomSite == BottomSite(rowSize) &&
      (forall q :: q in openSet ==> InBounds(rowSize, q.0, q.1)) &&
      (forall i, j :: 0 <= i < rowSize && 0 <= j < rowSize ==> (openSites[i, j] <==> (i + 1, j + 1) in openSet))
    }

    /**
     * The object invariant: the counter is the number of open sites, and each
     * structure's sets are the connected components of its graph.
     */
    ghost predicate Valid()
      reads this, openSites, sites.id, fullSites.id
    {
      WellFormed() && openCount == |openSet| &&
      Represents(sites.id[..], rowSize, openSet, true) &&
      Represents(fullSites.id[..], rowSize, openSet, false)
    }

    /** An n-by-n grid with every site blocked. */
    constructor (n: int)
      requires 0 < n <= MaxSide
      ensures Valid() && rowSize == n && openSet == {} && openCount == 0
      ensures fresh(openSites) && fresh(sites.id) && fresh(fullSites.id)
      ensures forall i, j :: 0 <= i < n && 0 <= j < n ==> !openSites[i, j]
      ensures fullSites.id.Length == bottomSite
      ensures !sites.Connected(topSite, bottomSite)
    {
      rowSize := n;
      openSites := new bool[n, n]((i, j) => false);
      openCount := 0;
      sites := new UnionFind(n * n + 2);
      fullSites := new UnionFind(n * n + 1);
      topSite := TopSite;
      bottomSite := BottomSite(n);
      openSet := {};
      new;
      forall p, q
        ensures SameSet(sites.id[..], p, q) <==> 0 <= p < sites.id.Length && p == q
      {
        assert sites.Connected(p, q) <==> 0 <= p < sites.id.Length && p == q;
      }
      forall p, q
        ensures SameSet(fullSites.id[..], p, q) <==> 0 <= p < fullSites.id.Length && p == q
      {
        assert fullSites.Connected(p, q) <==> 0 <= p < fullSites.id.Length && p == q;
      }
      SingletonsRepresentBlockedGrid(sites.id[..], n, true);
      SingletonsRepresentBlockedGrid(fullSites.id[..], n, false);
    }

    /** Opens site (row, col) unless it is open already, joining it to its open neighbours. */
    method Open(row: int, col: int) returns (outcome: Outcome)
      requires Valid()
      modifies this, openSites, sites.id, fullSites.id
      ensures Valid()
      ensures outcome == ValidateIndices(rowSize, row, col)
      ensures outcome.Fail? || old((row, col) in openSet) ==>
        openSet == old(openSet) && openCount == old(openCount) && unchanged(openSites, sites.id, fullSites.id)
      ensures outcome.Pass? && old((row, col) !in openSet) ==>
        openSet == old(openSet) + {(row, col)} && openCount == old(openCount) + 1
      ensures outcome.Pass? ==> forall r, c :: Adjacent(row, col, r, c) && (r, c) in openSet ==>
        sites.Connected(XyTo1D(rowSize, row, col), XyTo1D(rowSize, r, c)) &&
        fullSites.Connected(XyTo1D(rowSize, row, col), XyTo1D(rowSize, r, c))
      ensures outcome.Pass? && row == 1 ==>
        sites.Connected(XyTo1D(rowSize, row, col), topSite) &&
        fullSites.Connected(XyTo1D(rowSize, row, col), topSite)
      ensures outcome.Pass? && row == rowSize ==> sites.Connected(XyTo1D(rowSize, row, col), bottomSite)
      ensures outcome.Pass? ==> forall i, j :: 0 <= i < rowSize && 0 <= j < rowSize ==>
        (openSites[i, j] <==> old(openSites[i, j]) || (i, j) == (row - 1, col - 1))
      ensures old(sites.Connected(topSite, bottomSite)) ==> sites.Connected(topSite, bottomSite)
      ensures old(Reach(rowSize, openSet, true, Top, Bottom)) ==> Reach(rowSize, openSet, true, Top, Bottom)
    {
      ConnectedIffReach(Top, Bottom);
      outcome := ValidateIndices(rowSize, row, col);
      if outcome.Fail? {
        return;
      }
      var isOpen := IsOpen(row, col);
      if !isOpen.value {
        OpenBlocked(row, col);
      }
      EdgesJoined(row, col);
      ConnectedIffReach(Top, Bottom);
    }

    /** Opens the blocked site (row, col): marks it, counts it, and joins it to its open neighbours. */
    method OpenBlocked(row: int, col: int)
      requires Valid() && InBounds(rowSize, row, col) && (row, col) !in openSet
      modifies this, openSites, sites.id, fullSites.id
      ensures Valid()
      ensures openSet == old(openSet) + {(row, col)} && openCount == old(openCount) + 1
      ensures old(Reach(rowSize, openSet, true, Top, Bottom)) ==> Reach(rowSize, openSet, true, Top, Bottom)
    {
      ghost var before, s, f := openSet, sites.id[..], fullSites.id[..];
      var source := XyTo1D(rowSize, row, col);
      MarkOpen(row, col);
      ConnectNeighbors(source, row, col);
      ConnectVirtual(source, row);
      OpenRepresents(s, rowSize, before, true, row, col);
      OpenRepresents(f, rowSize, before, false, row, col);
      if Reach(rowSize, before, true, Top, Bottom) {
        ReachMonotone(rowSize, before, openSet, true, true, Top, Bottom);
      }
    }

    /** Joins the site (row, col), whose id is `source`, to each of its four neighbours that is open. */
    method ConnectNeighbors(source: int, row: int, col: int)
      requires WellFormed() && InBounds(rowSize, row, col) && source == XyTo1D(rowSize, row, col)
      modifies sites.id, fullSites.id
      ensures WellFormed()
      ensures sites.id[..] == AfterNeighbours(old(sites.id[..]), rowSize, openSet, source, row, col)
      ensures fullSites.id[..] == AfterNeighbours(old(fullSites.id[..]), rowSize, openSet, source, row, col)
    {
      ghost var s, f := sites.id[..], fullSites.id[..];
      ConnectNeighbor(source, row, col - 1);
      ghost var s1, f1 := sites.id[..], fullSites.id[..];
      ConnectNeighbor(source, row, col + 1);
      ghost var s2, f2 := sites.id[..], fullSites.id[..];
      ConnectNeighbor(source, row - 1, col);
      ghost var s3, f3 := sites.id[..], fullSites.id[..];
      ConnectNeighbor(source, row + 1, col);
      assert s1 == ConnectStep(s, rowSize, openSet, source, row, col - 1);
      assert s2 == ConnectStep(s1, rowSize, openSet, source, row, col + 1);
      assert s3 == ConnectStep(s2, rowSize, openSet, source, row - 1, col);
      assert f1 == ConnectStep(f, rowSize, openSet, source, row, col - 1);
      assert f2 == ConnectStep(f1, rowSize, openSet, source, row, col + 1);
      assert f3 == ConnectStep(f2, rowSize, openSet, source, row - 1, col);
    }

    /**
     * Joins the site (row, col), whose id is `source`, to Top when it is in the
     * first row, and, in the percolation structure only, to Bottom when it is in the last row.
     */
    method ConnectVirtual(source: int, row: int)
      requires WellFormed() && 1 <= row <= rowSize && 1 <= source <= rowSize * rowSize
      modifies sites.id, fullSites.id
      ensures WellFormed()
      ensures sites.id[..] == (
        var s5 := if row == 1 then Merged(old(sites.id[..]), TopSite, source) else old(sites.id[..]);
        if row == rowSize then Merged(s5, BottomSite(rowSize), source) else s5)
      ensures fullSites.id[..] == if row == 1 then Merged(old(fullSites.id[..]), TopSite, source) else old(fullSites.id[..])
    {
      if row == 1 {
        sites.Union(topSite, source);
        fullSites.Union(topSite, source);
      }
      if row == rowSize {
        sites.Union(bottomSite, source);
      }
    }

    /** Marks the blocked site (row, col) open in the grid and in the counter. */
    method MarkOpen(row: int, col: int)
      requires WellFormed() && openCount == |openSet| && InBounds(rowSize, row, col) && (row, col) !in openSet
      modifies this, openSites
      ensures WellFormed() && openCount == |openSet|
      ensures openSet == old(openSet) + {(row, col)} && openCount == old(openCount) + 1
    {
      openSites[row - 1, col - 1] := true;
      openCount := openCount + 1;
      openSet := openSet + {(row, col)};
    }

    /** The open site (row, col) shares a set with every node it has an edge to. */
    lemma EdgesJoined(row: int, col: int)
      requires Valid() && (row, col) in openSet
      ensures forall r, c :: Adjacent(row, col, r, c) && (r, c) in openSet ==>
        sites.Connected(XyTo1D(rowSize, row, col), XyTo1D(rowSize, r, c)) &&
        fullSites.Connected(XyTo1D(rowSize, row, col), XyTo1D(rowSize, r, c))
      ensures row == 1 ==>
        sites.Connected(XyTo1D(rowSize, row, col), topSite) &&
        fullSites.Connected(XyTo1D(rowSize, row, col), topSite)
      ensures row == rowSize ==> sites.Connected(XyTo1D(rowSize, row, col), bottomSite)
    {
      var here := Site(row, col);
      forall r, c | Adjacent(row, col, r, c) && (r, c) in openSet
        ensures sites.Connected(XyTo1D(rowSize, row, col), XyTo1D(rowSize, r, c))
        ensures fullSites.Connected(XyTo1D(rowSize, row, col), XyTo1D(rowSize, r, c))
      {
        EdgeReach(rowSize, openSet, true, here, Site(r, c));
        EdgeReach(rowSize, openSet, false, here, Site(r, c));
        ConnectedIffReach(here, Site(r, c));
      }
      if row == 1 {
        EdgeReach(rowSize, openSet, true, here, Top);
        EdgeReach(rowSize, openSet, false, here, Top);
        ConnectedIffReach(here, Top);
      }
      if row == rowSize {
        EdgeReach(rowSize, openSet, true, here, Bottom);
        ConnectedIffReach(here, Bottom);
      }
    }

    /** Two nodes share a set of a structure exactly when they are connected in that structure's graph. */
    lemma ConnectedIffReach(u: Node, v: Node)
      requires Valid() && IsNode(rowSize, true, u) && IsNode(rowSize, true, v)
      ensures sites.Connected(NodeId(rowSize, u), NodeId(rowSize, v)) <==> Reach(rowSize, openSet, true, u, v)
      ensures IsNode(rowSize, false, u) && IsNode(rowSize, false, v) ==>
        (fullSites.Connected(NodeId(rowSize, u), NodeId(rowSize, v)) <==> Reach(rowSize, openSet, false, u, v))
    {
      assert SameSet(sites.id[..], NodeId(rowSize, u), NodeId(rowSize, v)) <==> Reach(rowSize, openSet, true, u, v);
      if IsNode(rowSize, false, u) && IsNode(rowSize, false, v) {
        assert SameSet(fullSites.id[..], NodeId(rowSize, u), NodeId(rowSize, v)) <==> Reach(rowSize, openSet, false, u, v);
      }
    }

    /** Joins the site `source` to the candidate neighbour (row, col) if it is in bounds and open. */
    method ConnectNeighbor(source: int, row: int, col: int)
      requires WellFormed() && 1 <= source <= rowSize * rowSize
      modifies sites.id, fullSites.id
      ensures WellFormed()
      ensures sites.id[..] == ConnectStep(old(sites.id[..]), rowSize, openSet, source, row, col)
      ensures fullSites.id[..] == ConnectStep(old(fullSites.id[..]), rowSize, openSet, source, row, col)
    {
      var isOpen := IsOpen(row, col);
      if isOpen.Failure? {
        return;
      }
      if isOpen.value {
        var neighbor := XyTo1D(rowSize, row, col);
        sites.Union(neighbor, source);
        fullSites.Union(neighbor, source);
      }
    }

    /** Whether site (row, col) is open. */
    method IsOpen(row: int, col: int) returns (r: Result<bool>)
      requires WellFormed()
      ensures r.Failure? <==> !InBounds(rowSize, row, col)
      ensures r.Failure? ==> Fail(r.error) == ValidateIndices(rowSize, row, col)
      ensures r.Success? ==> (r.value <==> (row, col) in openSet)
    {
      var v := ValidateIndices(rowSize, row, col);
      if v.Fail? {
        return Failure(v.error);
      }
      return Success(openSites[row - 1, col - 1]);
    }

    /**
     * Whether site (row, col) is full: open and connected to the top row
     * through open sites, never through the bottom node.
     */
    method IsFull(row: int, col: int) returns (r: Result<bool>)
      requires Valid()
      ensures r.Failure? <==> !InBounds(rowSize, row, col)
      ensures r.Failure? ==> Fail(r.error) == ValidateIndices(rowSize, row, col)
      ensures r.Success? ==>
        (r.value <==> (row, col) in openSet && fullSites.Connected(XyTo1D(rowSize, row, col), topSite))
      ensures r.Success? ==> (r.value <==> Reach(rowSize, openSet, false, Site(row, col), Top))
    {
      var v := ValidateIndices(rowSize, row, col);
      if v.Fail? {
        return Failure(v.error);
      }
      var isOpen := IsOpen(row, col);
      if isOpen.value {
        var source := XyTo1D(rowSize, row, col);
        fullSites.FindIdentifiesSet(source, topSite);
        assert NodeId(rowSize, Site(row, col)) == source && NodeId(rowSize, Top) == topSite;
        return Success(fullSites.Find(source) == fullSites.Find(topSite));
      }
      if Reach(rowSize, openSet, false, Site(row, col), Top) {
        ReachSymmetric(rowSize, openSet, false, Site(row, col), Top);
        BlockedSiteIsolated(rowSize, openSet, false, row, col, Top);
      }
      return Success(false);
    }

    /** The number of open sites. */
    method NumberOfOpenSites() returns (count: int)
      requires Valid()
      ensures count == |openSet|
    {
      count := openCount;
    }

    /** Whether the system percolates: some chain of open sites joins the top row to the bottom row. */
    method Percolates() returns (p: bool)
      requires Valid()
      ensures p <==> sites.Connected(topSite, bottomSite)
      ensures p <==> Reach(rowSize, openSet, true, Top, Bottom)
    {
      sites.FindIdentifiesSet(topSite, bottomSite);
      assert NodeId(rowSize, Top) == topSite && NodeId(rowSize, Bottom) == bottomSite;
      p := sites.Find(topSite) == sites.Find(bottomSite);
    }
  }

  /** Creates an n-by-n grid with every site blocked; a non-positive size is an invalid argument. */
  method Create(n: int) returns (r: Result<Percolation>)
    requires n <= MaxSide
    ensures r.Failure? <==> n <= 0
    ensures r.Failure? ==> r.error == GridSizeNotPositive
    ensures r.Success? ==>
      fresh(r.value) && fresh(r.value.openSites) && fresh(r.value.sites.id) && fresh(r.value.fullSites.id) &&
      r.value.Valid() && r.value.rowSize == n && r.value.openSet == {} && r.value.openCount == 0
    ensures r.Success? ==> !r.value.sites.Connected(r.value.topSite, r.value.bottomSite)
  {
    if n <= 0 {
      return Failure(GridSizeNotPositive);
    }
    var p := new Percolation(n);
    return Success(p);
  }
}
