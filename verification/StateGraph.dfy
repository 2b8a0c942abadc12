/** Functional graphs given by a successor list (-1: no successor): paths and cycles. */
module StateGraph {
  predicate IsGraph(next: seq<int>) {
    forall i :: 0 <= i < |next| ==> -1 <= next[i] < |next|
  }

  /** n successor links from i; -1 once a state without successor has been left. */
  function Follow(next: seq<int>, i: int, n: nat): (j: int)
    requires IsGraph(next) && -1 <= i < |next|
    ensures -1 <= j < |next|
    decreases n
  {
    if n == 0 || i < 0 then i else Follow(next, next[i], n - 1)
  }

  ghost predicate Reaches(next: seq<int>, i: int, j: int)
    requires IsGraph(next) && -1 <= i < |next|
  {
    exists n: nat :: Follow(next, i, n) == j
  }

  ghost predicate OnCycle(next: seq<int>, i: int)
    requires IsGraph(next)
  {
    0 <= i < |next| && exists n: nat :: n > 0 && Follow(next, i, n) == i
  }

  lemma {:induction false} FollowAdd(next: seq<int>, i: int, m: nat, n: nat)
    requires IsGraph(next) && -1 <= i < |next|
    ensures Follow(next, i, m + n) == Follow(next, Follow(next, i, m), n)
    decreases m
  {
    if m > 0 && i >= 0 { FollowAdd(next, next[i], m - 1, n); }
  }

  lemma ReachesTransitive(next: seq<int>, i: int, j: int, k: int)
    requires IsGraph(next) && -1 <= i < |next| && -1 <= j < |next|
    requires Reaches(next, i, j) && Reaches(next, j, k)
    ensures Reaches(next, i, k)
  {
    var m: nat :| Follow(next, i, m) == j;
    var n: nat :| Follow(next, j, n) == k;
    FollowAdd(next, i, m, n);
  }

  /** A cycle goes on: the successor exists, is on it, and leads back. */
  lemma CycleSuccessor(next: seq<int>, i: int)
    requires IsGraph(next) && OnCycle(next, i)
    ensures next[i] >= 0 && OnCycle(next, next[i]) && Reaches(next, next[i], i)
  {
    var n: nat :| n > 0 && Follow(next, i, n) == i;
    FollowAdd(next, i, 1, n - 1);
    assert Follow(next, i, 1) == Follow(next, next[i], 0);
    assert Follow(next, next[i], n - 1) == i;
    FollowAdd(next, next[i], n - 1, 1);
    assert Follow(next, next[i], n) == next[i];
  }

  /** Whatever a state on a cycle reaches lies on the same cycle. */
  lemma {:induction false} CycleReturns(next: seq<int>, i: int, n: nat)
    requires IsGraph(next) && OnCycle(next, i)
    ensures Follow(next, i, n) >= 0 && OnCycle(next, Follow(next, i, n)) && Reaches(next, Follow(next, i, n), i)
    decreases n
  {
    if n == 0 {
      assert Follow(next, i, 0) == i;
    } else {
      CycleSuccessor(next, i);
      CycleReturns(next, next[i], n - 1);
      assert Follow(next, i, n) == Follow(next, next[i], n - 1);
      hide Reaches, OnCycle;
      ReachesTransitive(next, Follow(next, i, n), next[i], i);
    }
  }

  lemma CycleMutual(next: seq<int>, i: int, j: int)
    requires IsGraph(next) && OnCycle(next, i) && Reaches(next, i, j)
    ensures 0 <= j < |next| && OnCycle(next, j) && Reaches(next, j, i)
  {
    var n: nat :| Follow(next, i, n) == j;
    CycleReturns(next, i, n);
  }

  // ---------- visited sets ----------

  ghost function Indices(n: nat): (s: set<int>)
    ensures forall i :: i in s <==> 0 <= i < n
  {
    if n == 0 then {} else Indices(n - 1) + {n - 1}
  }

  ghost predicate Closed(next: seq<int>, visited: set<int>) {
    forall i :: i in visited ==> 0 <= i < |next| && (next[i] >= 0 ==> next[i] in visited)
  }

  lemma {:induction false} ClosedReach(next: seq<int>, visited: set<int>, i: int, n: nat)
    requires IsGraph(next) && Closed(next, visited) && i in visited
    ensures Follow(next, i, n) == -1 || Follow(next, i, n) in visited
    decreases n
  {
    if n > 0 && next[i] >= 0 { ClosedReach(next, visited, next[i], n - 1); }
  }

  /** A cycle that meets a closed set lies inside it. */
  lemma CycleInside(next: seq<int>, visited: set<int>, i: int, j: int)
    requires IsGraph(next) && Closed(next, visited) && OnCycle(next, i) && Reaches(next, i, j)
    requires j in visited
    ensures i in visited
  {
    CycleMutual(next, i, j);
    var n: nat :| Follow(next, j, n) == i;
    ClosedReach(next, visited, j, n);
  }

  /** `sources` holds one state from every cycle met by the visited states, and no more. */
  ghost predicate SourcesOf(next: seq<int>, visited: set<int>, sources: seq<int>)
    requires IsGraph(next)
  {
    && Closed(next, visited)
    && (forall k :: 0 <= k < |sources| ==> sources[k] in visited && OnCycle(next, sources[k]))
    && (forall i :: i in visited && OnCycle(next, i) ==> exists k :: 0 <= k < |sources| && Reaches(next, i, sources[k]))
    && (forall k, l :: 0 <= k < |sources| && 0 <= l < |sources| && k != l ==> !Reaches(next, sources[k], sources[l]))
  }

  /** A walk along `path` through unvisited states that has now arrived at `at`. */
  ghost predicate Walk(next: seq<int>, visited: set<int>, path: seq<int>, at: int)
    requires IsGraph(next)
  {
    && -1 <= at < |next|
    && (forall m :: 0 <= m < |path| ==> 0 <= path[m] < |next| && path[m] !in visited)
    && (forall m, m' :: 0 <= m < m' < |path| && m' == m + 1 ==> next[path[m]] == path[m'])
    && (path != [] ==> next[path[|path| - 1]] == at)
  }

  ghost function Elements(path: seq<int>): set<int> {
    set x | x in path
  }

  lemma {:induction false} WalkReaches(next: seq<int>, visited: set<int>, path: seq<int>, at: int, m: nat)
    requires IsGraph(next) && Walk(next, visited, path, at) && m < |path|
    ensures Follow(next, path[m], |path| - m) == at
    decreases |path| - m
  {
    if m + 1 < |path| {
      WalkReaches(next, visited, path, at, m + 1);
    } else {
      assert Follow(next, path[m], 1) == Follow(next, next[path[m]], 0);
    }
  }

  /** A walk that ends without meeting itself adds no cycle. */
  lemma WalkWithoutCycle(next: seq<int>, visited: set<int>, sources: seq<int>, path: seq<int>, at: int)
    requires IsGraph(next) && SourcesOf(next, visited, sources) && Walk(next, visited, path, at)
    requires at == -1 || at in visited
    ensures SourcesOf(next, visited + Elements(path), sources)
  {
    hide Follow, OnCycle;
    forall i | i in Elements(path)
      ensures !OnCycle(next, i)
    {
      var m :| 0 <= m < |path| && path[m] == i;
      WalkReaches(next, visited, path, at, m);
      if OnCycle(next, i) {
        if at == -1 { CycleReturns(next, i, |path| - m); } else { CycleInside(next, visited, i, at); }
      }
    }
    WalkClosed(next, visited, path, at);
  }

  lemma WalkClosed(next: seq<int>, visited: set<int>, path: seq<int>, at: int)
    requires IsGraph(next) && Closed(next, visited) && Walk(next, visited, path, at)
    requires at == -1 || at in visited || at in Elements(path)
    ensures Closed(next, visited + Elements(path))
  {
    forall i | i in Elements(path)
      ensures 0 <= i < |next| && (next[i] >= 0 ==> next[i] in visited + Elements(path))
    {
      var m :| 0 <= m < |path| && path[m] == i;
      assert m + 1 < |path| ==> path[m + 1] in path;
    }
  }

  /** A walk that meets itself adds exactly the cycle through the meeting point. */
  lemma WalkWithCycle(next: seq<int>, visited: set<int>, sources: seq<int>, path: seq<int>, at: int)
    requires IsGraph(next) && SourcesOf(next, visited, sources) && Walk(next, visited, path, at)
    requires at in Elements(path)
    ensures SourcesOf(next, visited + Elements(path), sources + [at])
  {
    var all := sources + [at];
    var m0 :| 0 <= m0 < |path| && path[m0] == at;
    WalkReaches(next, visited, path, at, m0);
    assert OnCycle(next, at);
    hide Follow, OnCycle;
    WalkClosed(next, visited, path, at);
    forall i | i in Elements(path)
      ensures Reaches(next, i, all[|sources|])
    {
      var m :| 0 <= m < |path| && path[m] == i;
      WalkReaches(next, visited, path, at, m);
    }
    forall i | i in visited && OnCycle(next, i)
      ensures exists k :: 0 <= k < |all| && Reaches(next, i, all[k])
    {
      var k :| 0 <= k < |sources| && Reaches(next, i, sources[k]);
      assert all[k] == sources[k];
    }
    forall k | 0 <= k < |sources|
      ensures !Reaches(next, sources[k], at) && !Reaches(next, at, sources[k])
    {
      if Reaches(next, at, sources[k]) { CycleInside(next, visited, at, sources[k]); }
      if n: nat :| Follow(next, sources[k], n) == at { ClosedReach(next, visited, sources[k], n); }
    }
  }

  /** Once everything is visited: every cycle has exactly one source. */
  lemma OneSourcePerCycle(next: seq<int>, visited: set<int>, sources: seq<int>, i: int)
    requires IsGraph(next) && SourcesOf(next, visited, sources) && i in visited && OnCycle(next, i)
    ensures exists k :: 0 <= k < |sources| && Reaches(next, i, sources[k]) && Reaches(next, sources[k], i)
    ensures forall k, l ::
              (0 <= k < |sources| && 0 <= l < |sources| && Reaches(next, i, sources[k]) && Reaches(next, i, sources[l])) ==> k == l
  {
    hide Follow, Reaches, OnCycle;
    var k :| 0 <= k < |sources| && Reaches(next, i, sources[k]);
    CycleMutual(next, i, sources[k]);
    forall k, l | 0 <= k < |sources| && 0 <= l < |sources| && Reaches(next, i, sources[k]) && Reaches(next, i, sources[l])
      ensures k == l
    {
      CycleMutual(next, i, sources[k]);
      ReachesTransitive(next, sources[k], i, sources[l]);
    }
  }
}
