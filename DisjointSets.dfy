/**
 * A union-find structure over the ids 0..size-1, kept as an array that maps
 * every id to the representative of its set. Only the "same set" meaning of
 * union and find is modelled; the union by size of the library the grid
 * uses is a performance detail and is not reproduced.
 */
module DisjointSets {

  /** Ids `p` and `q` both belong to the universe of `s` and carry the same representative. */
  predicate SameSet(s: seq<int>, p: int, q: int)
  {
    0 <= p < |s| && 0 <= q < |s| && s[p] == s[q]
  }

  /** Every representative is an id of the universe and is the representative of its own set. */
  predicate Canonical(s: seq<int>)
  {
    forall x :: 0 <= x < |s| ==> 0 <= s[x] < |s| && s[s[x]] == s[x]
  }

  /**
   * The representative array after `union(p, q)`: the set of `p` is merged into
   * the set of `q`, and nothing else changes.
   */
  function Merged(s: seq<int>, p: int, q: int): (r: seq<int>)
    requires 0 <= p < |s| && 0 <= q < |s|
    ensures |r| == |s|
    ensures Canonical(s) ==> Canonical(r)
    ensures SameSet(r, p, q)
  {
    seq(|s|, i requires 0 <= i < |s| => if s[i] == s[p] then s[q] else s[i])
  }

  /**
   * After `union(p, q)`, x and y share a set exactly when they did before, or
   * one was with p and the other with q. In particular sets only ever merge.
   */
  lemma MergedSameSet(s: seq<int>, p: int, q: int, x: int, y: int)
    requires 0 <= p < |s| && 0 <= q < |s|
    ensures SameSet(Merged(s, p, q), x, y) <==>
      SameSet(s, x, y) || (SameSet(s, x, p) && SameSet(s, q, y)) || (SameSet(s, x, q) && SameSet(s, p, y))
  {
  }

  class UnionFind {
    /** id[x] is the representative of the set that holds x. */
    const id: array<int>

    ghost predicate Valid()
      reads id
    {
      Canonical(id[..])
    }

    /** `p` and `q` are in the same set. */
    predicate Connected(p: int, q: int)
      reads id
    {
      SameSet(id[..], p, q)
    }

    /** A structure of `size` singleton sets. */
    constructor (size: nat)
      ensures Valid() && fresh(id) && id.Length == size
      ensures forall p, q :: Connected(p, q) <==> 0 <= p < size && p == q
    {
      id := new int[size](i => i);
    }

    /** The representative of the set of `p`: a member of that set that stands for itself. */
    function Find(p: int): (root: int)
      reads id
      requires Valid() && 0 <= p < id.Length
      ensures 0 <= root < id.Length && id[root] == root
      ensures Connected(p, root)
    {
      id[p]
    }

    /**
     * Two ids have the same representative exactly when they are in the same
     * set: the bridge from the grid's `find(a) == find(b)` tests to sets. It
     * follows from the definitions alone; what unions do to sets is MergedSameSet.
     */
    lemma FindIdentifiesSet(p: int, q: int)
      requires Valid() && 0 <= p < id.Length && 0 <= q < id.Length
      ensures Find(p) == Find(q) <==> Connected(p, q)
    {
    }

    /** Merges the set of `p` into the set of `q`. */
    method Union(p: int, q: int)
      requires Valid() && 0 <= p < id.Length && 0 <= q < id.Length
      modifies id
      ensures Valid()
      ensures id[..] == Merged(old(id[..]), p, q)
    {
      var pRoot, qRoot := id[p], id[q];
      if pRoot == qRoot {
        return;
      }
      ghost var before := id[..];
      var i := 0;
      while i < id.Length
        invariant 0 <= i <= id.Length
        invariant forall k :: 0 <= k < i ==> id[k] == Merged(before, p, q)[k]
        invariant forall k :: i <= k < id.Length ==> id[k] == before[k]
      {
        if id[i] == pRoot {
          id[i] := qRoot;
        }
        i := i + 1;
      }
      assert id[..] == Merged(before, p, q);
    }
  }
}
