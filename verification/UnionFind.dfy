/** The union-find of `union_find_trivial.cpp`: recursive `find` with path compression and `unionVal`. */
module UnionFind {

  // ---------------------------------------------------------------------------
  // Forests as parent sequences
  // ---------------------------------------------------------------------------

  ghost predicate InRange(p: seq<int>) {
    forall i :: 0 <= i < |p| ==> 0 <= p[i] < |p|
  }

  /** `r` is where following parents from `u` comes to rest, after exactly `d` moves. */
  ghost predicate Climbs(p: seq<int>, u: int, d: nat, r: int)
    requires InRange(p) && 0 <= u < |p|
    decreases d
  {
    if d == 0 then p[u] == u == r else p[u] != u && Climbs(p, p[u], d - 1, r)
  }

  ghost predicate Grounded(p: seq<int>, u: int)
    requires InRange(p) && 0 <= u < |p|
  {
    exists d: nat, r :: Climbs(p, u, d, r)
  }

  /** No cycles other than roots: from everywhere some root is reached. */
  ghost predicate Acyclic(p: seq<int>) {
    InRange(p) && forall u :: 0 <= u < |p| ==> Grounded(p, u)
  }

  lemma {:induction false} ClimbUnique(p: seq<int>, u: int, d: nat, r: int, d': nat, r': int)
    requires InRange(p) && 0 <= u < |p| && Climbs(p, u, d, r) && Climbs(p, u, d', r')
    ensures d == d' && r == r'
    decreases d
  {
    if d > 0 {
      ClimbUnique(p, p[u], d - 1, r, d' - 1, r');
    }
  }

  lemma {:induction false} ClimbEndsAtRoot(p: seq<int>, u: int, d: nat, r: int)
    requires InRange(p) && 0 <= u < |p| && Climbs(p, u, d, r)
    ensures 0 <= r < |p| && p[r] == r
    decreases d
  {
    if d > 0 {
      ClimbEndsAtRoot(p, p[u], d - 1, r);
    }
  }

  ghost function Depth(p: seq<int>, u: int): (d: nat)
    requires Acyclic(p) && 0 <= u < |p|
    ensures exists r :: Climbs(p, u, d, r)
  {
    assert Grounded(p, u);
    var d: nat, r :| Climbs(p, u, d, r);
    d
  }

  ghost function Root(p: seq<int>, u: int): (r: int)
    requires Acyclic(p) && 0 <= u < |p|
    ensures Climbs(p, u, Depth(p, u), r)
    ensures 0 <= r < |p| && p[r] == r
  {
    var r :| Climbs(p, u, Depth(p, u), r);
    ClimbEndsAtRoot(p, u, Depth(p, u), r);
    r
  }

  lemma RootIs(p: seq<int>, u: int, d: nat, r: int)
    requires Acyclic(p) && 0 <= u < |p| && Climbs(p, u, d, r)
    ensures Root(p, u) == r && Depth(p, u) == d
  {
    ClimbUnique(p, u, d, r, Depth(p, u), Root(p, u));
  }

  lemma ParentHasSameRoot(p: seq<int>, u: int)
    requires Acyclic(p) && 0 <= u < |p|
    ensures p[u] == u ==> Root(p, u) == u
    ensures p[u] != u ==> Root(p, p[u]) == Root(p, u) && Depth(p, p[u]) < Depth(p, u)
  {
    if p[u] == u {
      assert Climbs(p, u, 0, u);
      RootIs(p, u, 0, u);
    } else {
      assert Climbs(p, p[u], Depth(p, u) - 1, Root(p, u));
      RootIs(p, p[u], Depth(p, u) - 1, Root(p, u));
    }
  }

  // ---------------------------------------------------------------------------
  // The two kinds of write
  // ---------------------------------------------------------------------------

  /** Pointing a non-root at its own root moves nobody's root. */
  lemma {:induction false} CompressClimb(p: seq<int>, u: int, r: int, x: int, d: nat) returns (d': nat)
    requires Acyclic(p) && 0 <= u < |p| && p[u] != u && r == Root(p, u)
    requires 0 <= x < |p| && Climbs(p, x, d, Root(p, x))
    ensures InRange(p[u := r]) && Climbs(p[u := r], x, d', Root(p, x))
    decreases d
  {
    var q := p[u := r];
    if d == 0 {
      d' := 0;
    } else if x == u {
      assert r != u;
      assert Climbs(q, r, 0, r);
      d' := 1;
      assert Climbs(q, x, 1, r);
    } else {
      ParentHasSameRoot(p, x);
      d' := CompressClimb(p, u, r, p[x], d - 1);
      d' := d' + 1;
    }
  }

  lemma CompressKeepsRoots(p: seq<int>, u: int)
    requires Acyclic(p) && 0 <= u < |p| && p[u] != u
    ensures var q := p[u := Root(p, u)];
      Acyclic(q) && forall x :: 0 <= x < |p| ==> Root(q, x) == Root(p, x)
  {
    var q := p[u := Root(p, u)];
    forall x | 0 <= x < |p|
      ensures Grounded(q, x)
    {
      var d := CompressClimb(p, u, Root(p, u), x, Depth(p, x));
    }
    forall x | 0 <= x < |p|
      ensures Root(q, x) == Root(p, x)
    {
      var d := CompressClimb(p, u, Root(p, u), x, Depth(p, x));
      RootIs(q, x, d, Root(p, x));
    }
  }

  /** The root after `b`'s tree was hung under root `a`. */
  function Merged(r: int, a: int, b: int): int {
    if r == b then a else r
  }

  lemma {:induction false} LinkClimb(p: seq<int>, a: int, b: int, x: int, d: nat) returns (d': nat)
    requires Acyclic(p) && 0 <= a < |p| && 0 <= b < |p| && p[a] == a && p[b] == b
    requires 0 <= x < |p| && Climbs(p, x, d, Root(p, x))
    ensures InRange(p[b := a]) && Climbs(p[b := a], x, d', Merged(Root(p, x), a, b))
    decreases d
  {
    var q := p[b := a];
    if d == 0 {
      if x == b && a != b {
        assert Climbs(q, a, 0, a);
        d' := 1;
        assert Climbs(q, x, 1, a);
      } else {
        d' := 0;
      }
    } else {
      ParentHasSameRoot(p, x);
      d' := LinkClimb(p, a, b, p[x], d - 1);
      d' := d' + 1;
    }
  }

  lemma LinkMerges(p: seq<int>, a: int, b: int)
    requires Acyclic(p) && 0 <= a < |p| && 0 <= b < |p| && p[a] == a && p[b] == b
    ensures var q := p[b := a];
      Acyclic(q) && forall x :: 0 <= x < |p| ==> Root(q, x) == Merged(Root(p, x), a, b)
  {
    var q := p[b := a];
    forall x | 0 <= x < |p|
      ensures Grounded(q, x)
    {
      var d := LinkClimb(p, a, b, x, Depth(p, x));
    }
    forall x | 0 <= x < |p|
      ensures Root(q, x) == Merged(Root(p, x), a, b)
    {
      var d := LinkClimb(p, a, b, x, Depth(p, x));
      RootIs(q, x, d, Merged(Root(p, x), a, b));
    }
  }

  // ---------------------------------------------------------------------------
  // The reference: connectivity in the graph of united pairs
  // ---------------------------------------------------------------------------

  /** `i` and `j` are linked by a chain of united pairs, used in either direction. */
  ghost predicate Connected(pairs: seq<(int, int)>, i: int, j: int) {
    if pairs == [] then i == j
    else
      var (u, v) := pairs[|pairs| - 1];
      var before := pairs[..|pairs| - 1];
      || Connected(before, i, j)
      || (Connected(before, i, u) && Connected(before, v, j))
      || (Connected(before, i, v) && Connected(before, u, j))
  }

  ghost predicate Equivalence(r: (int, int) -> bool) {
    && (forall i :: r(i, i))
    && (forall i, j :: r(i, j) ==> r(j, i))
    && (forall i, j, l :: r(i, j) && r(j, l) ==> r(i, l))
  }

  /** `Connected` is an equivalence that contains every pair, */
  lemma {:induction false} ConnectedIsEquivalence(pairs: seq<(int, int)>)
    ensures forall i :: Connected(pairs, i, i)
    ensures forall i, j :: Connected(pairs, i, j) ==> Connected(pairs, j, i)
    ensures forall i, j, l :: Connected(pairs, i, j) && Connected(pairs, j, l) ==> Connected(pairs, i, l)
    decreases |pairs|
  {
    if pairs != [] {
      ConnectedIsEquivalence(pairs[..|pairs| - 1]);
    }
  }

  lemma {:induction false} ConnectedContains(pairs: seq<(int, int)>, k: nat)
    requires k < |pairs|
    ensures Connected(pairs, pairs[k].0, pairs[k].1)
    decreases |pairs|
  {
    var before := pairs[..|pairs| - 1];
    if k < |before| {
      ConnectedContains(before, k);
    } else {
      ConnectedIsEquivalence(before);
    }
  }

  /** and it is below every other one that does. */
  lemma {:induction false} ConnectedIsLeast(pairs: seq<(int, int)>, r: (int, int) -> bool, i: int, j: int)
    requires Equivalence(r) && forall k :: 0 <= k < |pairs| ==> r(pairs[k].0, pairs[k].1)
    requires Connected(pairs, i, j)
    ensures r(i, j)
    decreases |pairs|
  {
    if pairs != [] {
      var (u, v) := pairs[|pairs| - 1];
      var before := pairs[..|pairs| - 1];
      assert r(u, v) by { assert r(pairs[|pairs| - 1].0, pairs[|pairs| - 1].1); }
      if Connected(before, i, j) {
        ConnectedIsLeast(before, r, i, j);
      } else if Connected(before, i, u) && Connected(before, v, j) {
        ConnectedIsLeast(before, r, i, u);
        ConnectedIsLeast(before, r, v, j);
      } else {
        ConnectedIsLeast(before, r, i, v);
        ConnectedIsLeast(before, r, u, j);
      }
    }
  }

  /** Two elements have the same root exactly when the united pairs connect them. */
  ghost predicate Partitions(p: seq<int>, pairs: seq<(int, int)>) {
    Acyclic(p) && forall i, j :: 0 <= i < |p| && 0 <= j < |p| ==> (Root(p, i) == Root(p, j) <==> Connected(pairs, i, j))
  }

  lemma UnitePartitions(p: seq<int>, q: seq<int>, pairs: seq<(int, int)>, u: int, v: int)
    requires Partitions(p, pairs) && 0 <= u < |p| && 0 <= v < |p|
    requires Acyclic(q) && |q| == |p|
    requires forall x :: 0 <= x < |p| ==> Root(q, x) == Merged(Root(p, x), Root(p, u), Root(p, v))
    ensures Partitions(q, pairs + [(u, v)])
  {
    var now := pairs + [(u, v)];
    assert now[..|now| - 1] == pairs;
    forall i, j | 0 <= i < |p| && 0 <= j < |p|
      ensures Root(q, i) == Root(q, j) <==> Connected(now, i, j)
    {
      assert Root(p, i) == Root(p, u) <==> Connected(pairs, i, u);
      assert Root(p, i) == Root(p, v) <==> Connected(pairs, i, v);
      assert Root(p, v) == Root(p, j) <==> Connected(pairs, v, j);
      assert Root(p, u) == Root(p, j) <==> Connected(pairs, u, j);
    }
  }

  lemma SameRootsPartition(p: seq<int>, q: seq<int>, pairs: seq<(int, int)>)
    requires Partitions(p, pairs) && Acyclic(q) && |q| == |p|
    requires forall x :: 0 <= x < |p| ==> Root(q, x) == Root(p, x)
    ensures Partitions(q, pairs)
  {
  }

  // ---------------------------------------------------------------------------
  // The structure
  // ---------------------------------------------------------------------------

  class UnionFindSet {
    const nSize: nat
    const vecFat: array<int>
    /** The pairs given to `UnionVal` so far. */
    ghost var united: seq<(int, int)>

    /** Kept by every run of calls: no cycles, and the classes are the connected components. */
    ghost predicate Valid()
      reads this, vecFat
    {
      vecFat.Length == nSize && Partitions(vecFat[..], united)
    }

    /** The intended initialisation, every element its own parent; the source's loop step leaves the
        order of its read and its increment open. */
    constructor (n: nat)
      ensures Valid() && nSize == n && united == [] && fresh(vecFat)
    {
      nSize := n;
      vecFat := new int[n](i => i);
      united := [];
      new;
      assert forall i :: 0 <= i < n ==> vecFat[..][i] == i;
      forall i | 0 <= i < n
        ensures Grounded(vecFat[..], i)
      {
        assert Climbs(vecFat[..], i, 0, i);
      }
      forall i | 0 <= i < n
        ensures Root(vecFat[..], i) == i
      {
        ParentHasSameRoot(vecFat[..], i);
      }
    }

    /** Returns the root; the writes of path compression change no element's root. The recursion ends
        because parents are strictly closer to it. */
    method Find(u: int) returns (r: int)
      requires Valid() && 0 <= u < nSize
      modifies vecFat
      ensures Valid() && r == Root(old(vecFat[..]), u)
      ensures forall x :: 0 <= x < nSize ==> Root(vecFat[..], x) == Root(old(vecFat[..]), x)
      ensures vecFat[u] == r
      decreases Depth(vecFat[..], u)
    {
      ghost var p := vecFat[..];
      ParentHasSameRoot(p, u);
      if vecFat[u] == u {
        return vecFat[u];
      }
      r := Find(vecFat[u]);
      ghost var q := vecFat[..];
      if q[u] != u {
        CompressKeepsRoots(q, u);
      } else {
        ParentHasSameRoot(q, u);
      }
      vecFat[u] := r;
      assert vecFat[..] == q[u := r];
      SameRootsPartition(q, vecFat[..], united);
    }

    /** `vecFat[find(v)] = find(u)`; `rightFirst` says which of the two calls the compiler runs first. */
    method UnionVal(u: int, v: int, rightFirst: bool)
      requires Valid() && 0 <= u < nSize && 0 <= v < nSize
      modifies this, vecFat
      ensures Valid() && united == old(united) + [(u, v)]
      ensures var p := old(vecFat[..]);
        forall x :: 0 <= x < nSize ==> Root(vecFat[..], x) == Merged(Root(p, x), Root(p, u), Root(p, v))
    {
      var a, b;
      if rightFirst {
        a := Find(u);
        b := Find(v);
      } else {
        b := Find(v);
        a := Find(u);
      }
      ghost var q := vecFat[..];
      assert a == Root(q, u) && b == Root(q, v);
      LinkMerges(q, a, b);
      vecFat[b] := a;
      assert vecFat[..] == q[b := a];
      UnitePartitions(q, vecFat[..], united, u, v);
      united := united + [(u, v)];
    }
  }
}
