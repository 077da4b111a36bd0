/** Finite directed graphs: walks, reachability, and a rank for every acyclic graph. */
module Digraphs {
  /** The successors of every node. */
  type Digraph = seq<set<nat>>

  predicate Closed(d: Digraph) {
    forall n, m :: 0 <= n < |d| && m in d[n] ==> m < |d|
  }

  predicate Edge(d: Digraph, n: nat, m: nat) {
    n < |d| && m in d[n]
  }

  predicate Walk(d: Digraph, p: seq<nat>) {
    |p| > 0 && forall i :: 0 <= i < |p| - 1 ==> Edge(d, p[i], p[i + 1])
  }

  predicate Joins(d: Digraph, p: seq<nat>, a: nat, b: nat) {
    Walk(d, p) && p[0] == a && p[|p| - 1] == b
  }

  ghost predicate Reaches(d: Digraph, a: nat, b: nat) {
    exists p :: Joins(d, p, a, b)
  }

  /** No edge leads back. */
  ghost predicate Acyclic(d: Digraph) {
    forall n, m :: Edge(d, n, m) ==> !Reaches(d, m, n)
  }

  lemma ReachesItself(d: Digraph, n: nat)
    ensures Reaches(d, n, n)
  {
    assert Joins(d, [n], n, n);
  }

  lemma ReachesTrans(d: Digraph, a: nat, b: nat, c: nat)
    requires Reaches(d, a, b) && Reaches(d, b, c)
    ensures Reaches(d, a, c)
  {
    var p :| Joins(d, p, a, b);
    var q :| Joins(d, q, b, c);
    var r := p + q[1..];
    forall i | 0 <= i < |r| - 1 ensures Edge(d, r[i], r[i + 1]) {
      if i < |p| - 1 {
      } else {
        assert Edge(d, q[i - |p| + 1], q[i - |p| + 2]);
      }
    }
    assert Joins(d, r, a, c);
  }

  lemma ReachesStep(d: Digraph, a: nat, b: nat, c: nat)
    requires Edge(d, a, b) && Reaches(d, b, c)
    ensures Reaches(d, a, c)
  {
    assert Joins(d, [a, b], a, b);
    ReachesTrans(d, a, b, c);
  }

  lemma SubwalkReaches(d: Digraph, p: seq<nat>, i: nat, j: nat)
    requires Walk(d, p) && i <= j < |p|
    ensures Reaches(d, p[i], p[j])
  {
    var q := p[i..j + 1];
    forall k | 0 <= k < |q| - 1 ensures Edge(d, q[k], q[k + 1]) {
      assert Edge(d, p[i + k], p[i + k + 1]);
    }
    assert Joins(d, q, p[i], p[j]);
  }

  /** Nothing outside a set without outgoing edges is reached from inside. */
  lemma {:induction false} Confined(d: Digraph, s: set<nat>, p: seq<nat>, i: nat)
    requires Walk(d, p) && i < |p| && p[0] in s
    requires forall n, m :: n in s && Edge(d, n, m) ==> m in s
    ensures p[i] in s
    decreases i
  {
    if i > 0 {
      Confined(d, s, p, i - 1);
      assert Edge(d, p[i - 1], p[i]);
    }
  }

  /** A graph whose edges all lead to smaller numbers is acyclic. */
  lemma DescendingIsAcyclic(d: Digraph)
    requires forall n, m :: Edge(d, n, m) ==> m < n
    ensures Acyclic(d)
  {
    forall n, m | Edge(d, n, m) ensures !Reaches(d, m, n) {
      if Reaches(d, m, n) {
        var p :| Joins(d, p, m, n);
        WalkDescends(d, p);
      }
    }
  }

  lemma {:induction false} WalkDescends(d: Digraph, p: seq<nat>)
    requires Walk(d, p) && forall n, m :: Edge(d, n, m) ==> m < n
    ensures p[|p| - 1] <= p[0]
  {
    if |p| > 1 {
      assert Edge(d, p[0], p[1]);
      forall i | 0 <= i < |p[1..]| - 1 ensures Edge(d, p[1..][i], p[1..][i + 1]) { assert Edge(d, p[i + 1], p[i + 2]); }
      WalkDescends(d, p[1..]);
    }
  }

  // ----- ranks -----

  ghost predicate StrictlyReaches(d: Digraph, n: nat, m: nat) {
    exists k :: Edge(d, n, k) && Reaches(d, k, m)
  }

  ghost function Below(d: Digraph, n: nat): set<nat> {
    set m | 0 <= m < |d| && StrictlyReaches(d, n, m)
  }

  ghost function Rank(d: Digraph, n: nat): nat {
    |Below(d, n)|
  }

  lemma SmallerSet(a: set<nat>, b: set<nat>)
    requires a < b
    ensures |a| < |b|
  {
    assert b == a + (b - a);
  }

  /** Along every edge of an acyclic graph the rank falls. */
  lemma RankFalls(d: Digraph, n: nat, m: nat)
    requires Closed(d) && Acyclic(d) && Edge(d, n, m)
    ensures Rank(d, m) < Rank(d, n)
  {
    ReachesItself(d, m);
    assert StrictlyReaches(d, n, m);
    forall x | x in Below(d, m) ensures x in Below(d, n) {
      var y :| Edge(d, m, y) && Reaches(d, y, x);
      ReachesStep(d, m, y, x);
    }
    assert m in Below(d, n) && m !in Below(d, m);
    SmallerSet(Below(d, m), Below(d, n));
  }

  lemma {:induction false} RangeSize(n: nat, s: set<nat>)
    requires forall x :: x in s ==> x < n
    ensures |s| <= n
  {
    if n == 0 {
      assert s == {};
    } else {
      RangeSize(n - 1, s - {n - 1});
    }
  }

  lemma RankIsSmall(d: Digraph, n: nat)
    requires Acyclic(d) && n < |d|
    ensures Rank(d, n) < |d|
  {
    assert n !in Below(d, n);
    RangeSize(|d|, Below(d, n) + {n});
  }

  /** Walks through an acyclic graph visit no node twice, so none has more nodes than the graph. */
  lemma {:induction false} WalksAreShort(d: Digraph, p: seq<nat>)
    requires Closed(d) && Acyclic(d) && Walk(d, p) && p[0] < |d|
    ensures |p| - 1 <= Rank(d, p[0]) < |d|
  {
    RankIsSmall(d, p[0]);
    if |p| > 1 {
      assert Edge(d, p[0], p[1]);
      RankFalls(d, p[0], p[1]);
      forall i | 0 <= i < |p[1..]| - 1 ensures Edge(d, p[1..][i], p[1..][i + 1]) { assert Edge(d, p[i + 1], p[i + 2]); }
      WalksAreShort(d, p[1..]);
    }
  }

  /**
    An acyclic graph stays acyclic when edges are added of which each leads to a node that does
    not reach back in the result.
   */
  lemma AcyclicExtension(d: Digraph, e: Digraph)
    requires Acyclic(d)
    requires forall n, m :: Edge(e, n, m) && !Edge(d, n, m) ==> !Reaches(e, m, n)
    ensures Acyclic(e)
  {
    forall n, m | Edge(e, n, m) ensures !Reaches(e, m, n) {
      if Reaches(e, m, n) {
        var p :| Joins(e, p, m, n);
        if forall i :: 0 <= i < |p| - 1 ==> Edge(d, p[i], p[i + 1]) {
          assert Joins(d, p, m, n);
          assert Reaches(d, m, n);
        } else {
          var i :| 0 <= i < |p| - 1 && !Edge(d, p[i], p[i + 1]);
          assert Edge(e, p[i], p[i + 1]);
          SubwalkReaches(e, p, i + 1, |p| - 1);
          ReachesStep(e, n, m, m) by { ReachesItself(e, m); }
          SubwalkReaches(e, p, 0, i);
          ReachesTrans(e, p[i + 1], n, m);
          ReachesTrans(e, p[i + 1], m, p[i]);
        }
      }
    }
  }
}
