/** Walks and reachability in a graph given by its edge relation. */
module Graphs {

  /** A walk along edges; a single node is a walk of length zero. */
  ghost predicate IsWalk<T(!new)>(edge: (T, T) -> bool, walk: seq<T>) {
    walk != [] && forall i :: 0 <= i < |walk| - 1 ==> edge(walk[i], walk[i + 1])
  }

  ghost predicate WalkFromTo<T(!new)>(edge: (T, T) -> bool, walk: seq<T>, a: T, b: T) {
    IsWalk(edge, walk) && walk[0] == a && walk[|walk| - 1] == b
  }

  ghost predicate Reachable<T(!new)>(edge: (T, T) -> bool, a: T, b: T) {
    exists walk :: WalkFromTo(edge, walk, a, b)
  }

  /** `b` can be reached from `a` by one edge or more. */
  ghost predicate ReachableBeyond<T(!new)>(edge: (T, T) -> bool, a: T, b: T) {
    exists walk :: WalkFromTo(edge, walk, a, b) && |walk| > 1
  }

  ghost predicate OnCycle<T(!new)>(edge: (T, T) -> bool, a: T) {
    ReachableBeyond(edge, a, a)
  }

  lemma WalkSuffix<T(!new)>(edge: (T, T) -> bool, walk: seq<T>, k: nat)
    requires IsWalk(edge, walk) && k < |walk|
    ensures IsWalk(edge, walk[k..])
  {
    var rest := walk[k..];
    forall i | 0 <= i < |rest| - 1 ensures edge(rest[i], rest[i + 1]) {
      assert edge(walk[k + i], walk[k + i + 1]);
    }
  }

  lemma ReachableSelf<T(!new)>(edge: (T, T) -> bool, a: T)
    ensures Reachable(edge, a, a)
  {
    assert WalkFromTo(edge, [a], a, a);
  }

  lemma ReachableAppend<T(!new)>(edge: (T, T) -> bool, a: T, b: T, c: T)
    requires Reachable(edge, a, b) && edge(b, c)
    ensures Reachable(edge, a, c) && ReachableBeyond(edge, a, c)
  {
    var walk :| WalkFromTo(edge, walk, a, b);
    assert WalkFromTo(edge, walk + [c], a, c);
  }

  /** One more edge in front of a walk. */
  lemma WalkPrepend<T(!new)>(edge: (T, T) -> bool, a: T, walk: seq<T>)
    requires IsWalk(edge, walk) && edge(a, walk[0])
    ensures ReachableBeyond(edge, a, walk[|walk| - 1])
  {
    var longer := [a] + walk;
    forall i | 0 <= i < |longer| - 1 ensures edge(longer[i], longer[i + 1]) {
      if i > 0 {
        assert longer[i] == walk[i - 1] && longer[i + 1] == walk[i];
      }
    }
    assert WalkFromTo(edge, longer, a, walk[|walk| - 1]);
  }

  lemma ReachablePrepend<T(!new)>(edge: (T, T) -> bool, a: T, b: T, c: T)
    requires edge(a, b) && Reachable(edge, b, c)
    ensures Reachable(edge, a, c) && ReachableBeyond(edge, a, c)
  {
    var walk :| WalkFromTo(edge, walk, b, c);
    WalkPrepend(edge, a, walk);
  }

  /** A node met again on a walk that continues to it lies on a cycle. */
  lemma ClosedWalkIsCycle<T(!new)>(edge: (T, T) -> bool, walk: seq<T>, a: T)
    requires IsWalk(edge, walk) && a in walk && edge(walk[|walk| - 1], a)
    ensures OnCycle(edge, a)
  {
    var k :| 0 <= k < |walk| && walk[k] == a;
    WalkSuffix(edge, walk, k);
    assert WalkFromTo(edge, walk[k..], a, walk[|walk| - 1]);
    ReachableAppend(edge, a, walk[|walk| - 1], a);
  }

  ghost predicate Closed<T(!new)>(edge: (T, T) -> bool, s: set<T>) {
    forall a, b :: a in s && edge(a, b) ==> b in s
  }

  lemma {:induction false} ClosedUnderWalks<T(!new)>(edge: (T, T) -> bool, s: set<T>, walk: seq<T>)
    requires Closed(edge, s) && IsWalk(edge, walk) && walk[0] in s
    ensures walk[|walk| - 1] in s
    decreases |walk|
  {
    if |walk| > 1 {
      WalkSuffix(edge, walk, 1);
      assert edge(walk[0], walk[1]);
      ClosedUnderWalks(edge, s, walk[1..]);
    }
  }

  lemma ClosedUnderReachable<T(!new)>(edge: (T, T) -> bool, s: set<T>, a: T, b: T)
    requires Closed(edge, s) && a in s && Reachable(edge, a, b)
    ensures b in s
  {
    var walk :| WalkFromTo(edge, walk, a, b);
    ClosedUnderWalks(edge, s, walk);
  }

  lemma WalkMonotone<T(!new)>(edge: (T, T) -> bool, wider: (T, T) -> bool, walk: seq<T>)
    requires IsWalk(edge, walk) && forall a, b :: edge(a, b) ==> wider(a, b)
    ensures IsWalk(wider, walk)
  {
  }

  lemma ReachableWider<T(!new)>(edge: (T, T) -> bool, wider: (T, T) -> bool, a: T, b: T)
    requires Reachable(edge, a, b) && forall x, y :: edge(x, y) ==> wider(x, y)
    ensures Reachable(wider, a, b)
  {
    var walk :| WalkFromTo(edge, walk, a, b);
    WalkMonotone(edge, wider, walk);
    assert WalkFromTo(wider, walk, a, b);
  }

  lemma ReachableBoth<T(!new)>(edge: (T, T) -> bool, a: T, b: T, c: T)
    requires Reachable(edge, a, b) && Reachable(edge, b, c)
    ensures Reachable(edge, a, c)
  {
    var first :| WalkFromTo(edge, first, a, b);
    var second :| WalkFromTo(edge, second, b, c);
    var walk := first + second[1..];
    forall i | 0 <= i < |walk| - 1 ensures edge(walk[i], walk[i + 1]) {
      if i >= |first| - 1 {
        var k := i - (|first| - 1);
        assert walk[i] == second[k] && walk[i + 1] == second[k + 1];
      }
    }
    assert WalkFromTo(edge, walk, a, c);
  }
}
