/** The state graph: states found so far, their successors, and one state from every cycle. */
module Multihistory {
  import opened Bits
  import opened TagSystem
  import opened History
  import opened StateGraph
  import HistoryTheorems
  import PostLength

  /** The graph's own encoding of a Post event, for any head state a uint8_t can hold. */
  function NextState(s: TagState): TagState
    requires s.tape != []
  {
    var tail := s.tape[1..];
    if s.tape[0] == 0 then
      TagState(tail + (if s.headState != 1 then [0] else []), (s.headState + 2) % 3)
    else
      TagState(tail + (if s.headState == 0 then [1, 1] else if s.headState == 1 then [0]
                       else if s.headState == 2 then [1] else []),
               (s.headState + 1) % 3)
  }

  /** It agrees with the rule table of the chunked engine. */
  lemma NextStateIsStep(s: TagState)
    requires s.tape != [] && s.headState < 3
    ensures NextState(s) == Step(PostTable(), s)
  {
    assert s.tape[..1] == [s.tape[0]];
    PostLength.PostEvent(s.tape[0], s.headState);
  }

  /** The orbit under NextState, resting at the empty tape. */
  function Successor(s: TagState, n: nat): TagState
    decreases n
  {
    if n == 0 || s.tape == [] then s else Successor(NextState(s), n - 1)
  }

  lemma {:induction false} SuccessorNext(s: TagState, n: nat)
    requires Successor(s, n).tape != []
    ensures Successor(s, n + 1) == NextState(Successor(s, n))
    decreases n
  {
    if n == 0 {
      assert Successor(s, 1) == Successor(NextState(s), 0);
    } else if s.tape != [] {
      SuccessorNext(NextState(s), n - 1);
    }
  }

  // ---------- the graph invariant ----------

  /** The index map is the inverse of the state list. */
  ghost predicate Indexed(states: seq<TagState>, index: map<TagState, int>) {
    && (forall i :: 0 <= i < |states| ==> states[i] in index && index[states[i]] == i)
    && (forall s :: s in index ==> 0 <= index[s] < |states| && states[index[s]] == s)
  }

  /** Successor entry i: -1 exactly for the empty tape, otherwise the index of the next
      state; `|states|` stands for the state that is about to be added. */
  ghost predicate Edge(states: seq<TagState>, pending: TagState, i: int, successor: int)
    requires 0 <= i < |states|
  {
    if states[i].tape == [] then successor == -1
    else
      && 0 <= successor <= |states|
      && (if successor < |states| then states[successor] else pending) == NextState(states[i])
  }

  ghost predicate Edges(states: seq<TagState>, pending: TagState, next: seq<int>) {
    |next| == |states| && forall i :: 0 <= i < |states| ==> Edge(states, pending, i, next[i])
  }

  /** No successor is pending: the set of states is closed under NextState. */
  ghost predicate Complete(states: seq<TagState>, next: seq<int>) {
    && |next| == |states|
    && forall i :: 0 <= i < |states| ==>
         if states[i].tape == [] then next[i] == -1
         else 0 <= next[i] < |states| && states[next[i]] == NextState(states[i])
  }

  lemma CompleteIsGraph(states: seq<TagState>, next: seq<int>)
    requires Complete(states, next)
    ensures IsGraph(next) && |next| == |states|
  {}

  /** The graph, spelled out: no state twice, the index map its inverse, no successor exactly for
      the empty tape, and otherwise the index of the next state. */
  lemma GraphMeans(states: seq<TagState>, index: map<TagState, int>, next: seq<int>)
    requires Indexed(states, index) && Complete(states, next)
    ensures |next| == |states|
    ensures forall i, j :: 0 <= i < |states| && 0 <= j < |states| && states[i] == states[j] ==> i == j
    ensures forall i :: 0 <= i < |states| ==> states[i] in index && index[states[i]] == i
    ensures forall s :: s in index ==> s in states
    ensures forall i :: 0 <= i < |states| ==>
              && (next[i] == -1 <==> states[i].tape == [])
              && (next[i] != -1 ==> 0 <= next[i] < |states| && states[next[i]] == NextState(states[i]))
  {
    hide NextState;
    forall s | s in index ensures s in states { assert states[index[s]] == s; }
  }

  /** Adding the pending state, with the entry that points to its own successor. */
  lemma AddState(states: seq<TagState>, index: map<TagState, int>, next: seq<int>, s: TagState)
    requires Indexed(states, index) && Edges(states, s, next) && s !in index
    ensures Indexed(states + [s], index[s := |states|])
    ensures var all, index' := states + [s], index[s := |states|];
            if s.tape == [] then Edges(all, s, next + [-1])
            else var n := NextState(s);
                 Edges(all, n, next + [if n in index' then index'[n] else |all|])
  {
    hide NextState;
    var all := states + [s];
    var index' := index[s := |states|];
    assert Indexed(all, index') by { AddIndex(states, index, s); }
    var pending := if s.tape == [] then s else NextState(s);
    var last := if s.tape == [] then -1 else if pending in index' then index'[pending] else |all|;
    forall i | 0 <= i < |all|
      ensures Edge(all, pending, i, (next + [last])[i])
    {
      if i < |states| { assert Edge(states, s, i, next[i]); }
    }
  }

  lemma AddIndex(states: seq<TagState>, index: map<TagState, int>, s: TagState)
    requires Indexed(states, index) && s !in index
    ensures Indexed(states + [s], index[s := |states|])
  {}

  /** A finite set of states that contains everything reachable from its members. */
  ghost predicate ClosedOrbit(orbit: set<TagState>) {
    forall s :: s in orbit && s.tape != [] ==> NextState(s) in orbit
  }

  class PostTagMultihistory {
    var states: seq<TagState>
    var nextStates: seq<int>
    var statesIndex: map<TagState, int>
    var initStates: seq<int>

    ghost predicate Valid()
      reads this
    {
      && Indexed(states, statesIndex) && Complete(states, nextStates)
      && forall i :: 0 <= i < |initStates| ==> 0 <= initStates[i] < |states|
    }

    constructor ()
      ensures Valid() && states == [] && initStates == []
    {
      states, nextStates, statesIndex, initStates := [], [], map[], [];
    }

    /** nextState, branch by branch. */
    static method ComputeNextState(state: TagState) returns (newState: TagState)
      requires state.tape != []
      ensures newState == NextState(state)
      ensures state.headState < 3 ==> newState == Step(PostTable(), state)
    {
      hide Step;
      var tape := state.tape[1..];
      var headState: Byte;
      if state.tape[0] == 0 {
        headState := (state.headState + 2) % 3;
        if state.headState != 1 { tape := tape + [0]; }
      } else {
        headState := (state.headState + 1) % 3;
        if state.headState == 0 {
          tape := tape + [1];
          tape := tape + [1];
          assert tape == state.tape[1..] + [1, 1];
        } else if state.headState == 1 {
          tape := tape + [0];
        } else if state.headState == 2 {
          tape := tape + [1];
        }
      }
      newState := TagState(tape, headState);
      assert state.tape[1..] + [] == state.tape[1..];
      if state.headState < 3 { NextStateIsStep(state); }
    }

    /** Terminates exactly for orbits that are finite: `orbit` witnesses that this one is, and
        conversely the whole orbit is among the states afterwards. Old states, indices and
        successors never change; only states of the orbit are added. */
    method AddEvolutionStartingFromState(state: TagState, ghost orbit: set<TagState>)
      requires Valid() && state in orbit && ClosedOrbit(orbit)
      modifies this
      ensures Valid()
      ensures old(states) <= states && old(nextStates) <= nextStates
      ensures forall i :: |old(states)| <= i < |states| ==> exists n: nat :: states[i] == Successor(state, n)
      ensures forall n: nat :: Successor(state, n) in states
      ensures |initStates| == |old(initStates)| + 1 && old(initStates) <= initStates
      ensures states[initStates[|initStates| - 1]] == state
    {
      hide NextState, Successor, Indexed, Edges, Complete;
      CompleteEdges(states, nextStates, state);
      var currentState := state;
      ghost var n: nat := 0;
      SuccessorZero(state);
      while currentState !in statesIndex
        invariant Indexed(states, statesIndex) && |states| == |nextStates| && initStates == old(initStates)
        invariant Edges(states, currentState, nextStates)
        invariant currentState in statesIndex ==> Complete(states, nextStates)
        invariant currentState in orbit && currentState == Successor(state, n)
        invariant state in statesIndex || currentState == state
        invariant old(states) <= states && old(nextStates) <= nextStates
        invariant forall i :: |old(states)| <= i < |states| ==> exists n: nat :: states[i] == Successor(state, n)
        decreases orbit - statesIndex.Keys
      {
        ghost var added, missing := currentState, orbit - statesIndex.Keys;
        Grow(states, statesIndex, nextStates, currentState);
        states := states + [currentState];
        statesIndex := statesIndex[currentState := |states| - 1];
        if currentState.tape == [] {
          nextStates := nextStates + [-1];
        } else {
          SuccessorNext(state, n);
          n := n + 1;
          currentState := ComputeNextState(currentState);
          nextStates := nextStates + [if currentState in statesIndex then statesIndex[currentState] else |states|];
        }
        assert added in missing && added !in orbit - statesIndex.Keys;
      }
      IndexedAt(states, statesIndex, state);
      forall n: nat ensures Successor(state, n) in states { OrbitInside(states, nextStates, state, n); }
      initStates := initStates + [statesIndex[state]];
    }

    /** One state from every cycle of the graph, nothing off a cycle, no cycle twice. */
    method CycleSources() returns (sources: seq<int>)
      requires Valid()
      ensures IsGraph(nextStates)
      ensures SourcesOf(nextStates, Indices(|nextStates|), sources)
    {
      hide SourcesOf, Indexed, Complete, Follow, Indices, Walk, Marked;
      CompleteIsGraph(states, nextStates);
      var isEverVisited := new bool[|states|](_ => false);
      ghost var visited: set<int> := {};
      sources := [];
      NoSources(nextStates);
      NoneMarked(isEverVisited);
      var i := 0;
      while i < |states|
        invariant 0 <= i <= |states| && Marked(isEverVisited, visited)
        invariant SourcesOf(nextStates, visited, sources)
        invariant forall j :: 0 <= j < i ==> j in visited
      {
        MarkedAt(isEverVisited, visited, i);
        if !isEverVisited[i] {
          StartWalk(nextStates, visited, i);
          assert visited + Elements([]) == visited;
          sources, visited := TryToFindCycleSource(i, isEverVisited, {}, sources, visited, []);
        }
        i := i + 1;
      }
      AllMarked(isEverVisited, visited);
    }

    method TryToFindCycleSource(stateIndex: int, isEverVisited: array<bool>, currentlyVisitedStates: set<int>,
                                result: seq<int>, ghost visited: set<int>, ghost path: seq<int>)
      returns (sources: seq<int>, ghost visited': set<int>)
      requires IsGraph(nextStates) && isEverVisited.Length == |nextStates| == |states|
      requires SourcesOf(nextStates, visited, result) && Walk(nextStates, visited, path, stateIndex)
      requires currentlyVisitedStates == Elements(path)
      requires Marked(isEverVisited, visited + Elements(path))
      modifies isEverVisited
      ensures Marked(isEverVisited, visited')
      ensures SourcesOf(nextStates, visited', sources)
      ensures visited + Elements(path) <= visited' && (stateIndex >= 0 ==> stateIndex in visited')
      decreases Indices(|nextStates|) - (visited + Elements(path))
    {
      hide SourcesOf, Walk;
      sources, visited' := result, visited + Elements(path);
      WalkAt(nextStates, visited, path, stateIndex);
      if stateIndex < 0 {
        WalkWithoutCycle(nextStates, visited, result, path, stateIndex);
        return;
      }
      if stateIndex in currentlyVisitedStates {
        WalkWithCycle(nextStates, visited, result, path, stateIndex);
        sources := sources + [stateIndex];
      }
      if isEverVisited[stateIndex] {
        if stateIndex !in currentlyVisitedStates {
          WalkWithoutCycle(nextStates, visited, result, path, stateIndex);
        }
        return;
      }
      WalkOn(nextStates, visited, path, stateIndex);
      isEverVisited[stateIndex] := true;
      assert Elements(path + [stateIndex]) == Elements(path) + {stateIndex};
      sources, visited' := TryToFindCycleSource(nextStates[stateIndex], isEverVisited, currentlyVisitedStates + {stateIndex},
                                                sources, visited, path + [stateIndex]);
    }
  }

  // ---------- steps of the two loops ----------

  /** A complete graph holds the whole orbit of each of its states, which is therefore finite. */
  lemma {:induction false} OrbitInside(states: seq<TagState>, next: seq<int>, s: TagState, n: nat)
    requires Complete(states, next) && s in states
    ensures Successor(s, n) in states
    decreases n
  {
    hide NextState;
    if n > 0 && s.tape != [] {
      var i :| 0 <= i < |states| && states[i] == s;
      OrbitInside(states, next, NextState(s), n - 1);
    }
  }

  lemma SuccessorZero(s: TagState)
    ensures Successor(s, 0) == s
  {}

  lemma IndexedAt(states: seq<TagState>, index: map<TagState, int>, s: TagState)
    requires Indexed(states, index) && s in index
    ensures 0 <= index[s] < |states| && states[index[s]] == s
  {}

  lemma CompleteEdges(states: seq<TagState>, next: seq<int>, s: TagState)
    requires Complete(states, next)
    ensures |next| == |states| && Edges(states, s, next)
  {
    hide NextState;
  }

  /** One round of the adding loop. */
  lemma Grow(states: seq<TagState>, index: map<TagState, int>, next: seq<int>, s: TagState)
    requires Indexed(states, index) && Edges(states, s, next) && s !in index && |next| == |states|
    ensures var all, index' := states + [s], index[s := |states|];
            && Indexed(all, index')
            && (s.tape == [] ==> Edges(all, s, next + [-1]) && Complete(all, next + [-1]))
            && (s.tape != [] ==>
                  var n := NextState(s);
                  var next' := next + [if n in index' then index'[n] else |all|];
                  Edges(all, n, next') && (n in index' ==> Complete(all, next')))
  {
    hide NextState, Indexed, Edge;
    AddState(states, index, next, s);
    SuccessorsInside(states, s, next);
    var all, index' := states + [s], index[s := |states|];
    if s.tape == [] {
      AllInside(all, s, next + [-1]);
    } else {
      var n := NextState(s);
      if n in index' {
        IndexedAt(all, index', n);
        AllInside(all, n, next + [index'[n]]);
      }
    }
  }

  lemma SuccessorsInside(states: seq<TagState>, s: TagState, next: seq<int>)
    requires Edges(states, s, next)
    ensures forall i :: 0 <= i < |next| ==> next[i] <= |states|
  {
    hide NextState;
    forall i | 0 <= i < |next| ensures next[i] <= |states| { assert Edge(states, s, i, next[i]); }
  }

  lemma AllInside(states: seq<TagState>, s: TagState, next: seq<int>)
    requires Edges(states, s, next) && forall i :: 0 <= i < |next| ==> next[i] < |states|
    ensures Complete(states, next)
  {
    hide NextState;
    forall i | 0 <= i < |states|
      ensures if states[i].tape == [] then next[i] == -1
              else 0 <= next[i] < |states| && states[next[i]] == NextState(states[i])
    {
      assert Edge(states, s, i, next[i]);
    }
  }

  ghost predicate Marked(marks: array<bool>, visited: set<int>)
    reads marks
  {
    forall i :: i in visited <==> 0 <= i < marks.Length && marks[i]
  }

  lemma NoneMarked(marks: array<bool>)
    requires forall i :: 0 <= i < marks.Length ==> !marks[i]
    ensures Marked(marks, {})
  {}

  lemma MarkedAt(marks: array<bool>, visited: set<int>, i: int)
    requires Marked(marks, visited) && 0 <= i < marks.Length
    ensures marks[i] <==> i in visited
  {}

  lemma AllMarked(marks: array<bool>, visited: set<int>)
    requires Marked(marks, visited) && forall i :: 0 <= i < marks.Length ==> i in visited
    ensures visited == Indices(marks.Length)
  {
    hide Indices;
  }

  lemma NoSources(next: seq<int>)
    requires IsGraph(next)
    ensures SourcesOf(next, {}, [])
  {}

  lemma StartWalk(next: seq<int>, visited: set<int>, i: int)
    requires IsGraph(next) && 0 <= i < |next|
    ensures Walk(next, visited, [], i) && Elements([]) == {}
  {}

  lemma WalkAt(next: seq<int>, visited: set<int>, path: seq<int>, at: int)
    requires IsGraph(next) && Walk(next, visited, path, at)
    ensures -1 <= at < |next|
  {}

  lemma WalkOn(next: seq<int>, visited: set<int>, path: seq<int>, at: int)
    requires IsGraph(next) && Walk(next, visited, path, at) && 0 <= at && at !in visited
    ensures Walk(next, visited, path + [at], next[at])
  {}

  // ---------- the two engines agree ----------

  /** Following links in a complete graph is running the single-event Post machine. */
  lemma {:induction false} LinksFollowRun(states: seq<TagState>, next: seq<int>, i: int, n: nat)
    requires Complete(states, next) && 0 <= i < |states| && states[i].headState < 3
    requires forall k :: 0 <= k < n ==> Run(PostTable(), states[i], k).tape != []
    ensures IsGraph(next)
    ensures 0 <= Follow(next, i, n) < |states| && states[Follow(next, i, n)] == Run(PostTable(), states[i], n)
    decreases n
  {
    hide Run, Step, NextState, PostTable;
    CompleteIsGraph(states, next);
    HistoryTheorems.RunZero(PostTable(), states[i]);
    if n > 0 {
      var j := next[i];
      var s := states[i];
      NextStateIsStep(s);
      NextPhaseBelow(s);
      RunFirst(s, n);
      assert states[j] == Step(PostTable(), s);
      forall k | 0 <= k < n - 1
        ensures Run(PostTable(), states[j], k).tape != []
      {
        RunFirst(s, k + 1);
      }
      LinksFollowRun(states, next, j, n - 1);
    }
  }

  lemma RunFirst(s: TagState, n: nat)
    requires n > 0
    ensures Run(PostTable(), s, n) == Run(PostTable(), Step(PostTable(), s), n - 1)
  {}

  lemma NextPhaseBelow(s: TagState)
    requires s.tape != []
    ensures NextState(s).headState < 3
  {}

  /** A path of n links that does not run out is a run of n events. */
  lemma {:induction false} LinksAreRun(states: seq<TagState>, next: seq<int>, i: int, n: nat)
    requires Complete(states, next) && 0 <= i < |states| && states[i].headState < 3 && IsGraph(next)
    requires Follow(next, i, n) >= 0
    ensures states[Follow(next, i, n)] == Run(PostTable(), states[i], n)
    decreases n
  {
    hide Run, Step, NextState, PostTable;
    if n == 0 {
      HistoryTheorems.RunZero(PostTable(), states[i]);
    } else {
      LinkExists(next, i, n);
      NextStateIsStep(states[i]);
      NextPhaseBelow(states[i]);
      RunFirst(states[i], n);
      LinksAreRun(states, next, next[i], n - 1);
    }
  }

  lemma LinkExists(next: seq<int>, i: int, n: nat)
    requires IsGraph(next) && 0 <= i < |next| && n > 0 && Follow(next, i, n) >= 0
    ensures next[i] >= 0 && Follow(next, i, n) == Follow(next, next[i], n - 1)
  {}

  /** A cycle source recurs under the Post machine. */
  lemma SourceRecurs(states: seq<TagState>, next: seq<int>, i: int) returns (period: nat)
    requires Complete(states, next) && IsGraph(next) && OnCycle(next, i) && states[i].headState < 3
    ensures period > 0 && Run(PostTable(), states[i], period) == states[i]
  {
    hide Run, Follow, PostTable;
    period :| period > 0 && Follow(next, i, period) == i;
    LinksAreRun(states, next, i, period);
  }

  /** If the chunked engine reports e events under the Post rule, then e successor links
      from the init in the state graph lead to the same final state. */
  lemma EnginesAgree(cfg: Config, inits: seq<TagState>, es: seq<nat>, r: EvaluationResult,
                     states: seq<TagState>, next: seq<int>, i: int)
    requires cfg.Valid() && cfg.rule == PostTable() && Outcome(cfg, inits, es, r) && Admissible(cfg.rule, inits[|es|])
    requires Complete(states, next) && 0 <= i < |states| && states[i] == inits[|es|]
    ensures IsGraph(next)
    ensures 0 <= Follow(next, i, r.eventCount) < |states| && states[Follow(next, i, r.eventCount)] == r.finalState
  {
    hide Run, Stops, Continues, Peak;
    CompleteIsGraph(states, next);
    var e := r.eventCount;
    HistoryTheorems.RunZero(cfg.rule, states[i]);
    forall k | 0 <= k < e
      ensures Run(PostTable(), states[i], k).tape != []
      ensures states[i].headState < 3
    {
      HistoryTheorems.LiveUntilStop(cfg, inits, es, r, k);
      HistoryTheorems.LiveUntilStop(cfg, inits, es, r, 0);
    }
    if e > 0 {
      LinksFollowRun(states, next, i, e);
    }
  }

  lemma SameIndex(states: seq<TagState>, index: map<TagState, int>, a: int, b: int)
    requires Indexed(states, index) && 0 <= a < |states| && 0 <= b < |states| && states[a] == states[b]
    ensures a == b
  {}

  /** A walk that is twice at the same state enters one of the found cycles. */
  lemma LoopHasSource(next: seq<int>, sources: seq<int>, i: int, t: nat, e: nat)
    requires IsGraph(next) && SourcesOf(next, Indices(|next|), sources) && 0 <= i < |next|
    requires t < e && Follow(next, i, t) == Follow(next, i, e) >= 0
    ensures exists k :: 0 <= k < |sources| && Reaches(next, i, sources[k])
  {
    hide SourcesOf;
    var j := Follow(next, i, t);
    LoopIsCycle(next, i, t, e);
    hide Follow, Reaches, OnCycle;
    assert j in Indices(|next|);
    OneSourcePerCycle(next, Indices(|next|), sources, j);
    var k :| 0 <= k < |sources| && Reaches(next, j, sources[k]);
    SourceIndex(next, sources, k);
    ReachesTransitive(next, i, j, sources[k]);
  }

  lemma SourceIndex(next: seq<int>, sources: seq<int>, k: int)
    requires IsGraph(next) && SourcesOf(next, Indices(|next|), sources) && 0 <= k < |sources|
    ensures 0 <= sources[k] < |next|
  {}

  lemma LoopIsCycle(next: seq<int>, i: int, t: nat, e: nat)
    requires IsGraph(next) && 0 <= i < |next|
    requires t < e && Follow(next, i, t) == Follow(next, i, e) >= 0
    ensures OnCycle(next, Follow(next, i, t)) && Reaches(next, i, Follow(next, i, t))
  {
    hide Follow;
    FollowAdd(next, i, t, e - t);
  }

  /** A cycle reported by the chunked engine is found by the graph as well: from the init,
      links lead to one of the cycle sources. */
  lemma CyclesAgree(cfg: Config, inits: seq<TagState>, es: seq<nat>, r: EvaluationResult,
                    states: seq<TagState>, index: map<TagState, int>, next: seq<int>, sources: seq<int>, i: int)
    requires cfg.Valid() && cfg.rule == PostTable() && Outcome(cfg, inits, es, r) && Admissible(cfg.rule, inits[|es|])
    requires r.conclusionReason == ReachedAutomaticCheckpoint
    requires Indexed(states, index) && Complete(states, next) && 0 <= i < |states| && states[i] == inits[|es|]
    requires IsGraph(next) && SourcesOf(next, Indices(|next|), sources)
    ensures exists k :: 0 <= k < |sources| && Reaches(next, i, sources[k])
  {
    hide Run, Stops, Continues, Peak, Follow, Reaches, OnCycle, SourcesOf, Complete, Indexed;
    var t := HistoryTheorems.CycleStart(cfg, inits, es, r);
    EnginesAgree(cfg, inits, es, r, states, next, i);
    EarlierAgrees(cfg, inits, es, r, states, next, i, t);
    CompleteEdges(states, next, states[i]);
    SameIndex(states, index, Follow(next, i, t), Follow(next, i, r.eventCount));
    LoopHasSource(next, sources, i, t, r.eventCount);
  }

  /** The other direction: whenever mu links from the init lead to a state that lambda more links
      lead back to, the chunked engine with power-of-two checkpoints stops within twice mu,
      rounded up to a boundary, plus 8 * lambda events. */
  lemma GraphCycleStopsEngine(cfg: Config, inits: seq<TagState>, es: seq<nat>, r: EvaluationResult,
                              states: seq<TagState>, next: seq<int>, i: int, mu: nat, lambda: nat)
    requires cfg.Valid() && cfg.rule == PostTable() && Outcome(cfg, inits, es, r) && Admissible(cfg.rule, inits[|es|])
    requires cfg.checkpoints.flags.powerOfTwoEventCounts
    requires Complete(states, next) && 0 <= i < |states| && states[i] == inits[|es|]
    requires IsGraph(next) && |next| == |states|
    requires lambda > 0 && Follow(next, i, mu) == Follow(next, i, mu + lambda) >= 0
    ensures r.eventCount <= 2 * HistoryTheorems.RoundUp(mu, 8) + 8 * lambda
  {
    hide Run, Outcome, Complete, Follow, HistoryTheorems.RoundUp;
    HistoryTheorems.EventLimit(cfg, inits, es, r);
    if inits[|es|].headState < 3 {
      LinksAreRun(states, next, i, mu);
      LinksAreRun(states, next, i, mu + lambda);
      HistoryTheorems.EventCycleDetectedInTime(cfg, inits, es, r, mu, lambda);
    } else if r.eventCount > 0 {
      HistoryTheorems.RunZero(cfg.rule, inits[|es|]);
      HistoryTheorems.RunningAt(cfg, inits, es, r, 0);
    }
  }

  lemma EarlierAgrees(cfg: Config, inits: seq<TagState>, es: seq<nat>, r: EvaluationResult,
                      states: seq<TagState>, next: seq<int>, i: int, t: nat)
    requires cfg.Valid() && cfg.rule == PostTable() && Outcome(cfg, inits, es, r) && Admissible(cfg.rule, inits[|es|])
    requires Complete(states, next) && 0 <= i < |states| && states[i] == inits[|es|] && t < r.eventCount
    ensures IsGraph(next)
    ensures 0 <= Follow(next, i, t) < |states| && states[Follow(next, i, t)] == cfg.At(inits[|es|], t)
  {
    hide Run, Outcome;
    CompleteIsGraph(states, next);
    HistoryTheorems.EventLimit(cfg, inits, es, r);
    HistoryTheorems.RunZero(cfg.rule, states[i]);
    HistoryTheorems.LiveUntilStop(cfg, inits, es, r, 0);
    forall k | 0 <= k < t
      ensures Run(PostTable(), states[i], k).tape != []
    {
      HistoryTheorems.LiveUntilStop(cfg, inits, es, r, k);
    }
    LinksFollowRun(states, next, i, t);
  }
}
