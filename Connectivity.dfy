/**
 * The graph the two union-find structures of a percolation grid track. Its
 * nodes are the grid sites and the two virtual nodes; its edges join two open,
 * orthogonally adjacent sites, the virtual top node to every open site of row
 * 1, and, in the percolation structure only, the virtual bottom node to every
 * open site of row n. A site is full when it reaches Top in the graph without
 * Bottom, and the system percolates when Top reaches Bottom in the graph with
 * Bottom.
 */
module Connectivity {
  import opened Sites

  /** (r1, c1) and (r2, c2) share an edge of the grid: up, down, left or right. */
  predicate Adjacent(r1: int, c1: int, r2: int, c2: int)
  {
    (r1 == r2 && (c2 == c1 - 1 || c2 == c1 + 1)) || (c1 == c2 && (r2 == r1 - 1 || r2 == r1 + 1))
  }

  /**
   * Water can pass from `x` into the site `y`, given the open sites `open` of
   * an n-by-n grid; `withBottom` says whether the virtual bottom node takes part.
   */
  predicate Linked(n: int, open: set<(int, int)>, withBottom: bool, x: Node, y: Node)
  {
    y.Site? && (y.row, y.col) in open &&
    match x
    case Top => y.row == 1
    case Bottom => withBottom && y.row == n
    case Site(r, c) => (r, c) in open && Adjacent(r, c, y.row, y.col)
  }

  predicate Edge(n: int, open: set<(int, int)>, withBottom: bool, x: Node, y: Node)
  {
    Linked(n, open, withBottom, x, y) || Linked(n, open, withBottom, y, x)
  }

  /** `p` is a walk from `u` to `v` along edges of the graph. */
  ghost predicate Walk(n: int, open: set<(int, int)>, withBottom: bool, p: seq<Node>, u: Node, v: Node)
  {
    |p| >= 1 && p[0] == u && p[|p| - 1] == v &&
    forall i :: 0 <= i < |p| - 1 ==> Edge(n, open, withBottom, p[i], p[i + 1])
  }

  ghost predicate Reach(n: int, open: set<(int, int)>, withBottom: bool, u: Node, v: Node)
  {
    exists p :: Walk(n, open, withBottom, p, u, v)
  }

  lemma ReachReflexive(n: int, open: set<(int, int)>, withBottom: bool, u: Node)
    ensures Reach(n, open, withBottom, u, u)
  {
    assert Walk(n, open, withBottom, [u], u, u);
  }

  lemma EdgeReach(n: int, open: set<(int, int)>, withBottom: bool, u: Node, v: Node)
    requires Edge(n, open, withBottom, u, v)
    ensures Reach(n, open, withBottom, u, v)
  {
    assert Walk(n, open, withBottom, [u, v], u, v);
  }

  lemma ReachSymmetric(n: int, open: set<(int, int)>, withBottom: bool, u: Node, v: Node)
    requires Reach(n, open, withBottom, u, v)
    ensures Reach(n, open, withBottom, v, u)
  {
    var p :| Walk(n, open, withBottom, p, u, v);
    var q := seq(|p|, i requires 0 <= i < |p| => p[|p| - 1 - i]);
    forall i | 0 <= i < |q| - 1
      ensures Edge(n, open, withBottom, q[i], q[i + 1])
    {
      assert Edge(n, open, withBottom, p[|p| - 2 - i], p[|p| - 1 - i]);
    }
    assert Walk(n, open, withBottom, q, v, u);
  }

  lemma ReachTransitive(n: int, open: set<(int, int)>, withBottom: bool, u: Node, v: Node, w: Node)
    requires Reach(n, open, withBottom, u, v) && Reach(n, open, withBottom, v, w)
    ensures Reach(n, open, withBottom, u, w)
  {
    var p :| Walk(n, open, withBottom, p, u, v);
    var q :| Walk(n, open, withBottom, q, v, w);
    var r := p + q[1..];
    forall i | 0 <= i < |r| - 1
      ensures Edge(n, open, withBottom, r[i], r[i + 1])
    {
      if i < |p| - 1 {
        assert r[i] == p[i] && r[i + 1] == p[i + 1];
      } else {
        assert r[i] == q[i - |p| + 1] && r[i + 1] == q[i - |p| + 2];
      }
    }
    assert Walk(n, open, withBottom, r, u, w);
  }

  /**
   * Opening more sites, or letting the bottom node take part, never breaks a
   * connection: in particular percolation and fullness never revert, and a
   * site that is full also reaches Top in the percolation structure.
   */
  lemma ReachMonotone(n: int, open: set<(int, int)>, open': set<(int, int)>, withBottom: bool, withBottom': bool, u: Node, v: Node)
    requires open <= open' && (withBottom ==> withBottom')
    requires Reach(n, open, withBottom, u, v)
    ensures Reach(n, open', withBottom', u, v)
  {
    var p :| Walk(n, open, withBottom, p, u, v);
    forall i | 0 <= i < |p| - 1
      ensures Edge(n, open', withBottom', p[i], p[i + 1])
    {
      assert Edge(n, open, withBottom, p[i], p[i + 1]);
    }
    assert Walk(n, open', withBottom', p, u, v);
  }

  /** A blocked site has no edge, so nothing else reaches it. */
  lemma BlockedSiteIsolated(n: int, open: set<(int, int)>, withBottom: bool, r: int, c: int, u: Node)
    requires (r, c) !in open
    requires Reach(n, open, withBottom, u, Site(r, c))
    ensures u == Site(r, c)
  {
    var p :| Walk(n, open, withBottom, p, u, Site(r, c));
    if |p| > 1 {
      WalkLastEdge(n, open, withBottom, p, u, Site(r, c));
      assert false;
    }
  }

  /** With no open site the graph has no edge at all: every node reaches only itself. */
  lemma NothingOpenNothingReached(n: int, withBottom: bool, u: Node, v: Node)
    requires Reach(n, {}, withBottom, u, v)
    ensures u == v
  {
    var p :| Walk(n, {}, withBottom, p, u, v);
    if |p| > 1 {
      WalkLastEdge(n, {}, withBottom, p, u, v);
      assert false;
    }
  }

  /** A walk of more than one node ends with an edge into its last node. */
  lemma WalkLastEdge(n: int, open: set<(int, int)>, withBottom: bool, p: seq<Node>, u: Node, v: Node)
    requires Walk(n, open, withBottom, p, u, v) && |p| > 1
    ensures Edge(n, open, withBottom, p[|p| - 2], v)
  {
  }

  /** A set of nodes that no edge leaves. */
  ghost predicate Closed(n: int, open: set<(int, int)>, withBottom: bool, s: set<Node>)
  {
    forall x, y :: x in s && Edge(n, open, withBottom, x, y) ==> y in s
  }

  /** Everything a node of a closed set reaches is in that set. */
  lemma ClosedSetConfines(n: int, open: set<(int, int)>, withBottom: bool, s: set<Node>, u: Node, v: Node)
    requires Closed(n, open, withBottom, s) && u in s
    requires Reach(n, open, withBottom, u, v)
    ensures v in s
  {
    var p :| Walk(n, open, withBottom, p, u, v);
    var i := 0;
    while i < |p| - 1
      invariant 0 <= i < |p| && p[i] in s
    {
      assert Edge(n, open, withBottom, p[i], p[i + 1]);
      i := i + 1;
    }
  }

  /** `u` reaches, in the graph of `open`, one of the nodes of `joined`. */
  ghost predicate Near(n: int, open: set<(int, int)>, withBottom: bool, joined: set<Node>, u: Node)
  {
    exists j :: j in joined && Reach(n, open, withBottom, u, j)
  }

  lemma NearGrows(n: int, open: set<(int, int)>, withBottom: bool, joined: set<Node>, a: Node, u: Node)
    ensures Near(n, open, withBottom, joined + {a}, u) <==>
      Near(n, open, withBottom, joined, u) || Reach(n, open, withBottom, u, a)
  {
    if Reach(n, open, withBottom, u, a) {
      assert a in joined + {a};
    }
    if Near(n, open, withBottom, joined, u) {
      var j :| j in joined && Reach(n, open, withBottom, u, j);
      assert j in joined + {a};
    }
  }

  /**
   * `joined` is the site (r, c) together with every node it has an edge to
   * once it is open.
   */
  ghost predicate Neighbourhood(n: int, open: set<(int, int)>, withBottom: bool, r: int, c: int, joined: set<Node>)
  {
    Site(r, c) in joined &&
    (forall x :: x in joined ==> x == Site(r, c) || Edge(n, open + {(r, c)}, withBottom, Site(r, c), x)) &&
    (forall x :: Edge(n, open + {(r, c)}, withBottom, Site(r, c), x) ==> x in joined)
  }

  /** An edge of the grid after opening (r, c) that does not touch (r, c) was already there. */
  lemma OldEdge(n: int, open: set<(int, int)>, withBottom: bool, r: int, c: int, x: Node, y: Node)
    requires x != Site(r, c) && y != Site(r, c)
    requires Edge(n, open + {(r, c)}, withBottom, x, y)
    ensures Edge(n, open, withBottom, x, y)
  {
  }

  /**
   * The first node of a walk through the newly opened site (r, c) reaches,
   * without (r, c), one of the nodes (r, c) is joined to.
   */
  lemma {:induction false} NearFromWalk(n: int, open: set<(int, int)>, withBottom: bool, r: int, c: int, joined: set<Node>, p: seq<Node>)
    requires (r, c) !in open && Neighbourhood(n, open, withBottom, r, c, joined)
    requires |p| >= 1 && Site(r, c) in p
    requires forall i :: 0 <= i < |p| - 1 ==> Edge(n, open + {(r, c)}, withBottom, p[i], p[i + 1])
    ensures Near(n, open, withBottom, joined, p[0])
    decreases |p|
  {
    var s := Site(r, c);
    if p[0] == s {
      ReachReflexive(n, open, withBottom, s);
    } else if p[1] == s {
      assert Edge(n, open + {(r, c)}, withBottom, p[0], p[1]);
      assert p[0] in joined;
      ReachReflexive(n, open, withBottom, p[0]);
    } else {
      NearFromWalk(n, open, withBottom, r, c, joined, p[1..]);
      var j :| j in joined && Reach(n, open, withBottom, p[1], j);
      assert Edge(n, open + {(r, c)}, withBottom, p[0], p[1]);
      OldEdge(n, open, withBottom, r, c, p[0], p[1]);
      EdgeReach(n, open, withBottom, p[0], p[1]);
      ReachTransitive(n, open, withBottom, p[0], p[1], j);
    }
  }

  /** A walk that avoids (r, c) is a walk before (r, c) was opened. */
  lemma WalkAvoiding(n: int, open: set<(int, int)>, withBottom: bool, r: int, c: int, p: seq<Node>, u: Node, v: Node)
    requires Walk(n, open + {(r, c)}, withBottom, p, u, v) && Site(r, c) !in p
    ensures Reach(n, open, withBottom, u, v)
  {
    forall i | 0 <= i < |p| - 1
      ensures Edge(n, open, withBottom, p[i], p[i + 1])
    {
      assert p[i] in p && p[i + 1] in p;
      OldEdge(n, open, withBottom, r, c, p[i], p[i + 1]);
    }
    assert Walk(n, open, withBottom, p, u, v);
  }

  /**
   * Opening the blocked site (r, c) joins, and only joins, the components of
   * the nodes it has an edge to: afterwards u reaches v exactly when it did
   * before or both reach one of those nodes.
   */
  lemma OpeningJoins(n: int, open: set<(int, int)>, withBottom: bool, r: int, c: int, joined: set<Node>, u: Node, v: Node)
    requires (r, c) !in open && Neighbourhood(n, open, withBottom, r, c, joined)
    ensures Reach(n, open + {(r, c)}, withBottom, u, v) <==>
      Reach(n, open, withBottom, u, v) ||
      (Near(n, open, withBottom, joined, u) && Near(n, open, withBottom, joined, v))
  {
    var open' := open + {(r, c)};
    var s := Site(r, c);
    if Reach(n, open', withBottom, u, v) {
      var p :| Walk(n, open', withBottom, p, u, v);
      if s in p {
        NearFromWalk(n, open, withBottom, r, c, joined, p);
        var q := seq(|p|, i requires 0 <= i < |p| => p[|p| - 1 - i]);
        forall i | 0 <= i < |q| - 1
          ensures Edge(n, open', withBottom, q[i], q[i + 1])
        {
          assert Edge(n, open', withBottom, p[|p| - 2 - i], p[|p| - 1 - i]);
        }
        assert s in q by {
          var k :| 0 <= k < |p| && p[k] == s;
          assert q[|p| - 1 - k] == s;
        }
        NearFromWalk(n, open, withBottom, r, c, joined, q);
      } else {
        WalkAvoiding(n, open, withBottom, r, c, p, u, v);
      }
    }
    if Reach(n, open, withBottom, u, v) {
      ReachMonotone(n, open, open', withBottom, withBottom, u, v);
    }
    if Near(n, open, withBottom, joined, u) && Near(n, open, withBottom, joined, v) {
      ReachesOpened(n, open, withBottom, r, c, joined, u);
      ReachesOpened(n, open, withBottom, r, c, joined, v);
      ReachSymmetric(n, open', withBottom, v, s);
      ReachTransitive(n, open', withBottom, u, s, v);
    }
  }

  /** A node near the neighbourhood of (r, c) reaches (r, c) once it is open. */
  lemma ReachesOpened(n: int, open: set<(int, int)>, withBottom: bool, r: int, c: int, joined: set<Node>, u: Node)
    requires Neighbourhood(n, open, withBottom, r, c, joined)
    requires Near(n, open, withBottom, joined, u)
    ensures Reach(n, open + {(r, c)}, withBottom, u, Site(r, c))
  {
    var open' := open + {(r, c)};
    var j :| j in joined && Reach(n, open, withBottom, u, j);
    ReachMonotone(n, open, open', withBottom, withBottom, u, j);
    if j != Site(r, c) {
      EdgeReach(n, open', withBottom, j, Site(r, c));
      ReachTransitive(n, open', withBottom, u, j, Site(r, c));
    }
  }
}
