/** Range and group searches: which states are evaluated, and which results are reported. */
module Searcher {
  import opened Bits
  import opened TagSystem
  import opened TagStates
  import H = History
  import HistoryTheorems
  import PostLength

  datatype ConclusionReason =
    | InvalidInput
    | Terminated
    | ReachedCycle
    | ReachedKnownCheckpoint
    | MaxTapeLengthExceeded
    | MaxEventCountExceeded
    | TimeConstraintExceeded
    | NotEvaluated
    | MergedWithAnotherInit

  datatype EvaluationResult = EvaluationResult(
    conclusionReason: ConclusionReason, eventCount: nat, maxTapeLength: nat, finalTapeLength: nat,
    initialState: TagState, finalState: TagState)

  datatype EvaluationParameters = EvaluationParameters(
    maxTapeLength: H.UInt64, maxEventCount: H.UInt64, checkpoints: seq<TagState>,
    automaticCheckpointsEveryEvents: H.UInt64, includeUnevaluatedStates: bool, includeMergedStates: bool)

  // ---------- one result ----------

  /** The switch over the evaluator's reasons; it has no case for MaxTapeLengthExceeded. */
  function Translated(reason: H.ConclusionReason): ConclusionReason {
    match reason
    case Terminated => Terminated
    case ReachedAutomaticCheckpoint => ReachedCycle
    case ReachedExplicitCheckpoint => ReachedKnownCheckpoint
    case MaxEventCountExceeded => MaxEventCountExceeded
    case TimeConstraintExceeded => TimeConstraintExceeded
    case NotEvaluated => NotEvaluated
    case ReachedPreviousInitCheckpoint => MergedWithAnotherInit
    case _ => InvalidInput
  }

  /** Two reasons of the evaluator are told apart in a report, unless they are exactly the
      pair InvalidInput and MaxTapeLengthExceeded. */
  lemma ReasonsToldApart(a: H.ConclusionReason, b: H.ConclusionReason)
    ensures Translated(a) == Translated(b) <==>
              a == b || {a, b} == {H.InvalidInput, H.MaxTapeLengthExceeded}
    ensures Translated(a) != MaxTapeLengthExceeded
  {
    if Translated(a) == Translated(b) && a != b {
      assert a in {H.InvalidInput, H.MaxTapeLengthExceeded} && b in {H.InvalidInput, H.MaxTapeLengthExceeded};
    }
    if {a, b} == {H.InvalidInput, H.MaxTapeLengthExceeded} {
      assert a in {a, b} && b in {a, b};
    }
  }

  function Report(init: TagState, r: H.EvaluationResult): EvaluationResult {
    EvaluationResult(Translated(r.conclusionReason), r.eventCount, r.maxIntermediateTapeLength,
                     |r.finalState.tape|, init, r.finalState)
  }

  predicate Kept(parameters: EvaluationParameters, reason: ConclusionReason) {
    && (reason != NotEvaluated || parameters.includeUnevaluatedStates)
    && (reason != MergedWithAnotherInit || parameters.includeMergedStates)
  }

  /** The reports of the first inits that pass the filter, in order. */
  function Reports(parameters: EvaluationParameters, states: seq<TagState>, history: seq<H.EvaluationResult>): seq<EvaluationResult>
    requires |history| == |states|
  {
    if states == [] then []
    else
      var n := |states| - 1;
      var report := Report(states[n], history[n]);
      Reports(parameters, states[..n], history[..n]) + (if Kept(parameters, report.conclusionReason) then [report] else [])
  }

  /** Exactly the results that pass the filter are reported. */
  lemma {:induction false} ReportedIffKept(parameters: EvaluationParameters, states: seq<TagState>, history: seq<H.EvaluationResult>, x: EvaluationResult)
    requires |history| == |states|
    ensures x in Reports(parameters, states, history) <==>
              exists i :: 0 <= i < |states| && x == Report(states[i], history[i]) && Kept(parameters, x.conclusionReason)
    decreases |states|
  {
    if states != [] {
      var n := |states| - 1;
      ReportedIffKept(parameters, states[..n], history[..n], x);
      if i :| 0 <= i < n && x == Report(states[..n][i], history[..n][i]) { assert x == Report(states[i], history[i]); }
      if i :| 0 <= i < n && x == Report(states[i], history[i]) { assert x == Report(states[..n][i], history[..n][i]); }
    }
  }

  /** At most one report per state. */
  lemma {:induction false} ReportsCount(parameters: EvaluationParameters, states: seq<TagState>, history: seq<H.EvaluationResult>)
    requires |history| == |states|
    ensures |Reports(parameters, states, history)| <= |states|
    decreases |states|
  {
    if states != [] { ReportsCount(parameters, states[..|states| - 1], history[..|states| - 1]); }
  }

  function ConfigOf(parameters: EvaluationParameters): H.Config {
    H.Config(PostTable(), H.EvaluationLimits(parameters.maxEventCount, parameters.maxTapeLength),
             H.CheckpointSpec(parameters.checkpoints,
                              H.AutomaticCheckpointParameters(true, parameters.automaticCheckpointsEveryEvents)))
  }

  /** Runs all states in one call of the evaluator and filters the results. */
  method EvaluateGroup(states: seq<TagState>, parameters: EvaluationParameters, clock: H.Clock)
    returns (results: seq<EvaluationResult>, ghost history: seq<H.EvaluationResult>, ghost kept: seq<nat>)
    requires forall i :: 0 <= i < |states| ==> H.Admissible(PostTable(), states[i])
    modifies clock
    ensures |history| == |states|
    ensures |kept| == |results| && forall k, l :: 0 <= k < l < |kept| ==> kept[k] < kept[l]
    ensures forall k :: 0 <= k < |kept| ==> kept[k] < |states| && results[k] == Report(states[kept[k]], history[kept[k]])
    ensures forall i :: 0 <= i < |states| ==>
              (i in kept <==>
                 && (history[i].conclusionReason == H.NotEvaluated ==> parameters.includeUnevaluatedStates)
                 && (history[i].conclusionReason == H.ReachedPreviousInitCheckpoint ==> parameters.includeMergedStates))
    ensures clock.looks == old(clock.looks) +
              if parameters.maxEventCount % 8 == 0 then H.AllAnswers(ConfigOf(parameters), states, history) else []
    ensures parameters.maxEventCount % 8 == 0 ==> H.Justified(ConfigOf(parameters), states, history)
    ensures parameters.maxEventCount % 8 != 0 ==>
              history == seq(|states|, _ => H.EvaluationResult(H.InvalidInput, TagState([], 255), 0, 0))
    ensures results == Reports(parameters, states, history)
  {
    hide H.Justified, Reports, Report, H.Admissible, H.PostTagHistory.Valid, H.AllAnswers;
    EventsOfPost();
    var evaluator := new H.PostTagHistory();
    var limits := H.EvaluationLimits(parameters.maxEventCount, parameters.maxTapeLength);
    var flags := H.AutomaticCheckpointParameters(true, parameters.automaticCheckpointsEveryEvents);
    var singleInitResults := evaluator.Evaluate(Post, states, limits, H.CheckpointSpec(parameters.checkpoints, flags), clock);
    history := singleInitResults;
    assert ConfigOf(parameters) == H.Config(RuleTable(Post), limits, H.CheckpointSpec(parameters.checkpoints, flags));
    HistoryLength(parameters, states, history);
    NoReports(parameters);
    results := [];
    ghost var looks := clock.looks;
    var initIndex := 0;
    while initIndex < |states|
      invariant 0 <= initIndex <= |states| && clock.looks == looks
      invariant results == Reports(parameters, states[..initIndex], history[..initIndex])
    {
      var result := ResultFor(states[initIndex], singleInitResults[initIndex]);
      NextReport(parameters, states, history, initIndex);
      if (result.conclusionReason != NotEvaluated || parameters.includeUnevaluatedStates)
         && (result.conclusionReason != MergedWithAnotherInit || parameters.includeMergedStates) {
        results := results + [result];
      }
      initIndex := initIndex + 1;
    }
    assert states[..|states|] == states && history[..|states|] == history;
    kept := ReportsFiltered(parameters, states, history);
  }

  /** What is reported, without the filter's own words: in the order of the states, exactly the
      results that are not NotEvaluated unless those were asked for, and not merged unless those
      were asked for. So the number of reports is the number of such states. */
  lemma {:induction false} ReportsFiltered(parameters: EvaluationParameters, states: seq<TagState>, history: seq<H.EvaluationResult>)
    returns (kept: seq<nat>)
    requires |history| == |states|
    ensures var results := Reports(parameters, states, history);
            && |kept| == |results| && (forall k, l :: 0 <= k < l < |kept| ==> kept[k] < kept[l])
            && (forall k :: 0 <= k < |kept| ==> kept[k] < |states| && results[k] == Report(states[kept[k]], history[kept[k]]))
    ensures forall i :: 0 <= i < |states| ==>
              (i in kept <==>
                 && (history[i].conclusionReason == H.NotEvaluated ==> parameters.includeUnevaluatedStates)
                 && (history[i].conclusionReason == H.ReachedPreviousInitCheckpoint ==> parameters.includeMergedStates))
    decreases |states|
  {
    hide Report, Kept;
    kept := [];
    if states != [] {
      var n := |states| - 1;
      kept := ReportsFiltered(parameters, states[..n], history[..n]);
      KeptMeans(parameters, states[n], history[n]);
      if Kept(parameters, Report(states[n], history[n]).conclusionReason) { kept := kept + [n]; }
    }
  }

  /** The number of reports is the number of states whose results pass. */
  lemma ReportsCounted(parameters: EvaluationParameters, states: seq<TagState>, history: seq<H.EvaluationResult>, passing: set<nat>)
    requires |history| == |states|
    requires forall i: nat :: i in passing <==>
               && i < |states|
               && (history[i].conclusionReason == H.NotEvaluated ==> parameters.includeUnevaluatedStates)
               && (history[i].conclusionReason == H.ReachedPreviousInitCheckpoint ==> parameters.includeMergedStates)
    ensures |Reports(parameters, states, history)| == |passing|
  {
    hide Reports;
    var kept := ReportsFiltered(parameters, states, history);
    forall i: nat
      ensures i in passing <==> i in kept
    {
      if i in kept { var k :| 0 <= k < |kept| && kept[k] == i; }
    }
    CountIncreasing(kept, passing);
  }

  lemma {:induction false} CountIncreasing(list: seq<nat>, elements: set<nat>)
    requires forall k, l :: 0 <= k < l < |list| ==> list[k] < list[l]
    requires forall i: nat :: i in elements <==> i in list
    ensures |elements| == |list|
    decreases |list|
  {
    if list == [] {
      assert elements == {};
    } else {
      var front, last := list[..|list| - 1], list[|list| - 1];
      assert list == front + [last];
      CountIncreasing(front, elements - {last});
    }
  }

  lemma KeptMeans(parameters: EvaluationParameters, state: TagState, r: H.EvaluationResult)
    ensures Kept(parameters, Report(state, r).conclusionReason) <==>
              && (r.conclusionReason == H.NotEvaluated ==> parameters.includeUnevaluatedStates)
              && (r.conclusionReason == H.ReachedPreviousInitCheckpoint ==> parameters.includeMergedStates)
  {}

  /** The fields of one reported result. */
  method ResultFor(state: TagState, singleInitResult: H.EvaluationResult) returns (result: EvaluationResult)
    ensures result == Report(state, singleInitResult)
  {
    var reason: ConclusionReason;
    match singleInitResult.conclusionReason {
      case Terminated => reason := Terminated;
      case ReachedAutomaticCheckpoint => reason := ReachedCycle;
      case ReachedExplicitCheckpoint => reason := ReachedKnownCheckpoint;
      case MaxEventCountExceeded => reason := MaxEventCountExceeded;
      case TimeConstraintExceeded => reason := TimeConstraintExceeded;
      case NotEvaluated => reason := NotEvaluated;
      case ReachedPreviousInitCheckpoint => reason := MergedWithAnotherInit;
      case _ => reason := InvalidInput;
    }
    return EvaluationResult(reason, singleInitResult.eventCount, singleInitResult.maxIntermediateTapeLength,
                            |singleInitResult.finalState.tape|, state, singleInitResult.finalState);
  }

  lemma EventsOfPost()
    ensures RuleTable(Post) == PostTable() && PostTable().K() == 8
  {}

  lemma HistoryLength(parameters: EvaluationParameters, states: seq<TagState>, history: seq<H.EvaluationResult>)
    requires (parameters.maxEventCount % 8 == 0 && H.Justified(ConfigOf(parameters), states, history))
          || history == seq(|states|, _ => H.EvaluationResult(H.InvalidInput, TagState([], 255), 0, 0))
    ensures |history| == |states|
  {}

  lemma NoReports(parameters: EvaluationParameters)
    ensures Reports(parameters, [], []) == []
  {}

  lemma NextReport(parameters: EvaluationParameters, states: seq<TagState>, history: seq<H.EvaluationResult>, i: nat)
    requires |history| == |states| && i < |states|
    ensures var report := Report(states[i], history[i]);
            Reports(parameters, states[..i + 1], history[..i + 1])
            == Reports(parameters, states[..i], history[..i]) + (if Kept(parameters, report.conclusionReason) then [report] else [])
  {
    assert states[..i + 1][..i] == states[..i] && history[..i + 1][..i] == history[..i];
  }

  /** The result of init j is reported, was not itself merged, and stands for the merged init i:
      its final state is the one of i's orbit at event n, and its conclusion is true of i. */
  ghost predicate StandsFor(parameters: EvaluationParameters, states: seq<TagState>, history: seq<H.EvaluationResult>,
                            i: nat, j: nat, n: nat)
    requires |states| == |history| && i < |states|
  {
    && j < i && Report(states[j], history[j]).conclusionReason !in {MergedWithAnotherInit, NotEvaluated}
    && Report(states[j], history[j]) in Reports(parameters, states, history)
    && n >= history[i].eventCount && Run(PostTable(), states[i], n) == history[j].finalState
    && HistoryTheorems.Holds(ConfigOf(parameters), states[i], history[j].conclusionReason, n)
  }

  /** Whatever the filter flags, behind every merged init there is a reported result of an
      earlier init whose final state lies on the merged init's orbit, and whose conclusion is
      true of the merged init as well. */
  lemma DroppedMergeIsRepresented(parameters: EvaluationParameters, states: seq<TagState>, history: seq<H.EvaluationResult>, i: nat)
    requires |states| == |history| && H.Justified(ConfigOf(parameters), states, history) && i < |states|
    requires forall k :: 0 <= k < |states| ==> H.Admissible(PostTable(), states[k])
    requires Report(states[i], history[i]).conclusionReason == MergedWithAnotherInit
    ensures exists j: nat, n: nat :: StandsFor(parameters, states, history, i, j, n)
  {
    hide Run, H.Outcome, H.Admissible, Reports, HistoryTheorems.Holds;
    var j, n := HistoryTheorems.MergedConclusionHolds(ConfigOf(parameters), states, history, i);
    ReportedIffKept(parameters, states, history, Report(states[j], history[j]));
    assert StandsFor(parameters, states, history, i, j, n);
  }

  /** Among the reports is one of an earlier init, evaluated and not itself merged, whose final
      state lies on the orbit of x's init, after x's own final event. */
  ghost predicate Represented(x: EvaluationResult, earlier: seq<TagState>, reports: seq<EvaluationResult>) {
    exists y: EvaluationResult, n: nat ::
      && y in reports && y.initialState in earlier && y.conclusionReason !in {MergedWithAnotherInit, NotEvaluated}
      && n >= x.eventCount && Run(PostTable(), x.initialState, n) == y.finalState
  }

  /** What the report of the init after `earlier` says about the orbit of its initial state. */
  ghost predicate Accurate(parameters: EvaluationParameters, earlier: seq<TagState>, reports: seq<EvaluationResult>, x: EvaluationResult) {
    match x.conclusionReason
    case Terminated => |x.finalState.tape| <= 8
    case ReachedCycle =>
      && HistoryTheorems.NeverEmpty(ConfigOf(parameters), x.initialState)
      && exists t: nat :: t < x.eventCount && Run(PostTable(), x.initialState, t) == x.finalState
    case ReachedKnownCheckpoint => x.finalState in parameters.checkpoints
    case MaxEventCountExceeded => x.eventCount == parameters.maxEventCount
    case InvalidInput => x.finalTapeLength > parameters.maxTapeLength
    case MaxTapeLengthExceeded => false
    case TimeConstraintExceeded => x.eventCount % 1000 == 0
    case NotEvaluated => x.eventCount == 0
    case MergedWithAnotherInit => Represented(x, earlier, reports)
  }

  /** Every reported result is true of the single-event Post machine started on its initial
      state: final state, lengths, maximum and reason. */
  lemma ReportIsTrue(parameters: EvaluationParameters, states: seq<TagState>, history: seq<H.EvaluationResult>, x: EvaluationResult)
    returns (i: nat)
    requires H.Justified(ConfigOf(parameters), states, history) && x in Reports(parameters, states, history)
    requires forall k :: 0 <= k < |states| ==> H.Admissible(PostTable(), states[k])
    ensures i < |states| && x == Report(states[i], history[i])
    ensures Accurate(parameters, states[..i], Reports(parameters, states, history), x)
    ensures x.finalState == Run(PostTable(), x.initialState, x.eventCount) && x.finalTapeLength == |x.finalState.tape|
    ensures x.eventCount % 8 == 0 && x.eventCount <= parameters.maxEventCount
    ensures forall n :: 0 <= n < x.eventCount ==> Live(PostTable(), Run(PostTable(), x.initialState, n))
    ensures forall n :: 0 <= n <= x.eventCount ==> |Run(PostTable(), x.initialState, n).tape| <= x.maxTapeLength + 2
    ensures exists n :: 0 <= n <= x.eventCount && n % 8 == 0 && |Run(PostTable(), x.initialState, n).tape| == x.maxTapeLength
  {
    hide Run, Live, Reports, Accurate, H.Outcome, H.Admissible;
    ReportedIffKept(parameters, states, history, x);
    i :| 0 <= i < |states| && x == Report(states[i], history[i]);
    var cfg, es := ConfigOf(parameters), H.EventCounts(history[..i]);
    assert H.Outcome(cfg, states, es, history[i]) && H.Admissible(PostTable(), states[i]);
    ResultIsTrue(parameters, states, es, history[i]);
    HistoryTheorems.LiveToReport(cfg, states, history, i);
    forall n | 0 <= n < x.eventCount
      ensures Live(PostTable(), Run(PostTable(), x.initialState, n))
    {
      assert Live(cfg.rule, cfg.At(states[i], n));
    }
    forall n | 0 <= n <= x.eventCount
      ensures |Run(PostTable(), x.initialState, n).tape| <= x.maxTapeLength + 2
    {
      PostLength.SampledMaximum(cfg, states, es, history[i], n);
    }
    var top := PostLength.ReportedMaximum(cfg, states, es, history[i]);
    assert |Run(PostTable(), x.initialState, top).tape| == x.maxTapeLength;
    if x.conclusionReason == MergedWithAnotherInit {
      MergeIsRepresented(parameters, states, history, i);
    } else {
      UnmergedIsAccurate(parameters, states, es, history[i], states[..i], Reports(parameters, states, history));
    }
  }

  lemma ResultIsTrue(parameters: EvaluationParameters, states: seq<TagState>, es: seq<nat>, r: H.EvaluationResult)
    requires ConfigOf(parameters).Valid() && H.Outcome(ConfigOf(parameters), states, es, r)
    ensures r.finalState == Run(PostTable(), states[|es|], r.eventCount)
    ensures r.eventCount % 8 == 0 && r.eventCount <= parameters.maxEventCount
  {
    hide Run, H.Continues, H.Peak, H.Stops;
  }

  lemma MergeIsRepresented(parameters: EvaluationParameters, states: seq<TagState>, history: seq<H.EvaluationResult>, i: nat)
    requires H.Justified(ConfigOf(parameters), states, history) && i < |states|
    requires forall k :: 0 <= k < |states| ==> H.Admissible(PostTable(), states[k])
    requires Report(states[i], history[i]).conclusionReason == MergedWithAnotherInit
    ensures Accurate(parameters, states[..i], Reports(parameters, states, history), Report(states[i], history[i]))
  {
    hide Run, H.Justified, H.Admissible, Reports, Translated, HistoryTheorems.Holds;
    assert |history| == |states| by { SameLength(parameters, states, history); }
    DroppedMergeIsRepresented(parameters, states, history, i);
    var j: nat, n: nat :| StandsFor(parameters, states, history, i, j, n);
    assert states[..i][j] == states[j];
    RepresentedBy(Report(states[i], history[i]), states[..i], Reports(parameters, states, history), Report(states[j], history[j]), n);
  }

  lemma SameLength(parameters: EvaluationParameters, states: seq<TagState>, history: seq<H.EvaluationResult>)
    requires H.Justified(ConfigOf(parameters), states, history)
    ensures |history| == |states|
  {}

  lemma RepresentedBy(x: EvaluationResult, earlier: seq<TagState>, reports: seq<EvaluationResult>, y: EvaluationResult, n: nat)
    requires y in reports && y.initialState in earlier && y.conclusionReason !in {MergedWithAnotherInit, NotEvaluated}
    requires n >= x.eventCount && Run(PostTable(), x.initialState, n) == y.finalState
    ensures Represented(x, earlier, reports)
  {
    hide Run;
  }

  lemma UnmergedIsAccurate(parameters: EvaluationParameters, states: seq<TagState>, es: seq<nat>, r: H.EvaluationResult,
                           earlier: seq<TagState>, reports: seq<EvaluationResult>)
    requires ConfigOf(parameters).Valid() && H.Outcome(ConfigOf(parameters), states, es, r)
    requires H.Admissible(PostTable(), states[|es|])
    requires Report(states[|es|], r).conclusionReason != MergedWithAnotherInit
    ensures Accurate(parameters, earlier, reports, Report(states[|es|], r))
  {
    hide Run, H.Outcome, H.Admissible, HistoryTheorems.NeverEmpty, HistoryTheorems.LiveUpTo;
    var cfg := ConfigOf(parameters);
    ResultIsTrue(parameters, states, es, r);
    HistoryTheorems.ConclusionHolds(cfg, states, es, r);
    HistoryTheorems.NeverInvalid(cfg, states, es, r);
    if r.conclusionReason == H.ReachedAutomaticCheckpoint {
      var t := HistoryTheorems.CycleStart(cfg, states, es, r);
    }
  }

  // ---------- what the parameters promise ----------

  /** No evaluation goes past a boundary at which the state is one of the given checkpoints or
      the tape is longer than allowed, or past the given number of events. */
  lemma StopsWhereAsked(parameters: EvaluationParameters, states: seq<TagState>, history: seq<H.EvaluationResult>, i: nat, t: nat)
    requires H.Justified(ConfigOf(parameters), states, history) && i < |states| && t % 8 == 0
    requires Run(PostTable(), states[i], t) in parameters.checkpoints
          || |Run(PostTable(), states[i], t).tape| > parameters.maxTapeLength || t >= parameters.maxEventCount
    ensures history[i].eventCount <= t
  {
    hide Run, H.Outcome;
    var cfg, es := ConfigOf(parameters), H.EventCounts(history[..i]);
    assert H.Outcome(cfg, states, es, history[i]);
    HistoryTheorems.EventLimit(cfg, states, es, history[i]);
    if t < history[i].eventCount {
      HistoryTheorems.WithinLimits(cfg, states, es, history[i], t);
      HistoryTheorems.RunningAt(cfg, states, es, history[i], t);
    }
  }

  /** Cycles are always looked for, at the powers of two and at the given multiples. */
  lemma CyclesStop(parameters: EvaluationParameters, states: seq<TagState>, history: seq<H.EvaluationResult>, i: nat, mu: nat, lambda: nat)
    requires H.Justified(ConfigOf(parameters), states, history) && i < |states|
    requires mu % 8 == 0 && lambda % 8 == 0 && lambda > 0
    requires Run(PostTable(), states[i], mu) == Run(PostTable(), states[i], mu + lambda)
    ensures history[i].eventCount <= 2 * mu + lambda
    ensures parameters.automaticCheckpointsEveryEvents > 0 ==>
              history[i].eventCount <= mu + 8 * parameters.automaticCheckpointsEveryEvents + lambda
  {
    hide Run, H.Outcome;
    var cfg, es := ConfigOf(parameters), H.EventCounts(history[..i]);
    assert H.Outcome(cfg, states, es, history[i]);
    HistoryTheorems.CycleDetectedInTime(cfg, states, es, history[i], mu, lambda);
    if parameters.automaticCheckpointsEveryEvents > 0 {
      HistoryTheorems.CycleDetectedByMultiple(cfg, states, es, history[i], mu, lambda);
    }
  }

  // ---------- ranges ----------

  /** The states from begin up to, not including, end. */
  method StatesInRange(begin: TagState, end: TagState) returns (states: seq<TagState>)
    requires AtOrAfter(begin, end)
    ensures |states| == Rank(end) - Rank(begin)
    ensures forall k :: 0 <= k < |states| ==> states[k] == Nth(begin, k)
  {
    hide Incremented, Value;
    states := [];
    var state := new MutableTagState(begin);
    RangeStep(begin, end, 0);
    while state.Snapshot() != end
      invariant fresh(state) && state.Snapshot() == Nth(begin, |states|)
      invariant |states| <= Rank(end) - Rank(begin)
      invariant Nth(begin, |states|) == end <==> |states| == Rank(end) - Rank(begin)
      invariant forall k :: 0 <= k < |states| ==> states[k] == Nth(begin, k)
      decreases Rank(end) - Rank(begin) - |states|
    {
      states := states + [state.Snapshot()];
      state.Increment(3);
      RangeStep(begin, end, |states|);
    }
  }

  /** The k-th state is the end exactly when k is the difference of the ranks. */
  lemma RangeStep(begin: TagState, end: TagState, k: nat)
    requires AtOrAfter(begin, end)
    ensures Nth(begin, k) == end <==> k == Rank(end) - Rank(begin)
  {
    hide Nth, Value;
    NthRank(begin, k);
    EnumerationMeets(begin, end);
  }

  method EvaluateRange(begin: TagState, end: TagState, parameters: EvaluationParameters, clock: H.Clock)
    returns (results: seq<EvaluationResult>, ghost states: seq<TagState>, ghost history: seq<H.EvaluationResult>)
    requires AtOrAfter(begin, end) && (begin != end ==> H.Admissible(PostTable(), begin))
    modifies clock
    ensures |states| == |history| == Rank(end) - Rank(begin)
    ensures forall k :: 0 <= k < |states| ==> states[k] == Nth(begin, k)
    ensures parameters.maxEventCount % 8 == 0 ==> H.Justified(ConfigOf(parameters), states, history)
    ensures parameters.maxEventCount % 8 != 0 ==>
              history == seq(|states|, _ => H.EvaluationResult(H.InvalidInput, TagState([], 255), 0, 0))
    ensures results == Reports(parameters, states, history)
  {
    hide H.Justified, Reports, Nth, Rank, AtOrAfter;
    var inits := StatesInRange(begin, end);
    if inits != [] {
      assert begin != end;
      forall k | 0 <= k < |inits| ensures H.Admissible(PostTable(), inits[k]) { NthAdmissible(begin, k); }
    }
    states := inits;
    ghost var kept;
    results, history, kept := EvaluateGroup(inits, parameters, clock);
  }

  lemma NthAdmissible(begin: TagState, k: nat)
    requires H.Admissible(PostTable(), begin)
    ensures H.Admissible(PostTable(), Nth(begin, k))
  {
    hide Nth, Rank;
    NthRank(begin, k);
  }

  // ---------- ranges of integers ----------

  function RangeBegin(tapeLength: nat, tapeBegin: nat): TagState {
    TagState(Digits(tapeBegin, tapeLength), 0)
  }

  function RangeEnd(tapeLength: nat, tapeEnd: nat): TagState {
    TagState(Digits(tapeEnd, if tapeEnd == Shl(1, tapeLength) then tapeLength + 1 else tapeLength), 0)
  }

  lemma {:induction false} ShlOne(n: nat)
    ensures Shl(1, n) == Pow2(n)
  {
    if n > 0 { ShlOne(n - 1); }
  }

  lemma {:induction false} PowerDigits(n: nat)
    ensures Low(Pow2(n), n) == 0 && Digits(Pow2(n), n + 1)[0] == 1
  {
    if n > 0 {
      assert Pow2(n) / 2 == Pow2(n - 1) && Pow2(n) % 2 == 0;
      PowerDigits(n - 1);
    }
  }

  lemma PowerFits(n: nat)
    ensures Low(Pow2(n), n + 1) == Pow2(n)
  {
    LowSmall(Pow2(n), n + 1);
  }

  /** The constructor keeps only the low tapeLength bits, except for an end of exactly
      2^tapeLength. The loop reaches the end if and only if the truncated begin is not past
      it; then it enumerates three heads for every tape in between. */
  lemma IntegerRange(tapeLength: nat, tapeBegin: nat, tapeEnd: nat)
    ensures var b := Low(tapeBegin, tapeLength);
            var e := if tapeEnd == Pow2(tapeLength) then tapeEnd else Low(tapeEnd, tapeLength);
            && (AtOrAfter(RangeBegin(tapeLength, tapeBegin), RangeEnd(tapeLength, tapeEnd)) <==> b <= e)
            && Rank(RangeEnd(tapeLength, tapeEnd)) - Rank(RangeBegin(tapeLength, tapeBegin)) == 3 * (e - b)
  {
    hide Value, Low, Digits;
    ShlOne(tapeLength);
    ValueOfDigits(tapeBegin, tapeLength);
    if tapeEnd == Pow2(tapeLength) {
      PowerDigits(tapeLength);
      PowerFits(tapeLength);
      ValueOfDigits(tapeEnd, tapeLength + 1);
    } else {
      ValueOfDigits(tapeEnd, tapeLength);
    }
  }

  /** For begin <= end <= 2^length the enumeration terminates and has 3 * (end - begin) states
      if and only if begin < 2^length: an empty range at 2^length starts over at tape 0. */
  lemma IntegerRangeExact(tapeLength: nat, tapeBegin: nat, tapeEnd: nat)
    requires tapeBegin <= tapeEnd <= Pow2(tapeLength)
    ensures AtOrAfter(RangeBegin(tapeLength, tapeBegin), RangeEnd(tapeLength, tapeEnd))
    ensures tapeBegin < Pow2(tapeLength) <==>
              Rank(RangeEnd(tapeLength, tapeEnd)) - Rank(RangeBegin(tapeLength, tapeBegin)) == 3 * (tapeEnd - tapeBegin)
    ensures tapeBegin == Pow2(tapeLength) ==>
              Rank(RangeEnd(tapeLength, tapeEnd)) - Rank(RangeBegin(tapeLength, tapeBegin)) == 3 * Pow2(tapeLength)
  {
    hide Value, Low, Digits, AtOrAfter, Rank;
    IntegerRange(tapeLength, tapeBegin, tapeEnd);
    PowerDigits(tapeLength);
    if tapeBegin < Pow2(tapeLength) { LowSmall(tapeBegin, tapeLength); }
    if tapeEnd < Pow2(tapeLength) { LowSmall(tapeEnd, tapeLength); }
  }

  lemma {:induction false} DigitsOfLow(v: nat, n: nat)
    ensures Digits(Low(v, n), n) == Digits(v, n)
  {
    if n > 0 { DigitsOfLow(v / 2, n - 1); }
  }

  /** The k-th state of a range is read off k: the truncated begin + k / 3 as tape, head k % 3. */
  lemma IntegerRangeStates(tapeLength: nat, tapeBegin: nat, k: nat)
    requires Low(tapeBegin, tapeLength) + k / 3 < Pow2(tapeLength)
    ensures Nth(RangeBegin(tapeLength, tapeBegin), k) == TagState(Digits(Low(tapeBegin, tapeLength) + k / 3, tapeLength), k % 3)
  {
    DigitsOfLow(tapeBegin, tapeLength);
    NthFits(Low(tapeBegin, tapeLength), tapeLength, k);
  }

  /** Every range for which the source terminates: what is left of the bounds in tapeLength
      bits decides which states are evaluated. */
  method EvaluateIntegerRange(tapeLength: nat, tapeBegin: H.UInt64, tapeEnd: H.UInt64, parameters: EvaluationParameters, clock: H.Clock)
    returns (results: seq<EvaluationResult>, ghost states: seq<TagState>, ghost history: seq<H.EvaluationResult>)
    requires tapeLength < 64
    requires Low(tapeBegin, tapeLength) <= if tapeEnd == Pow2(tapeLength) then tapeEnd else Low(tapeEnd, tapeLength)
    modifies clock
    ensures var b := Low(tapeBegin, tapeLength);
            var e := if tapeEnd == Pow2(tapeLength) then tapeEnd else Low(tapeEnd, tapeLength);
            && |states| == 3 * (e - b)
            && forall k :: 0 <= k < |states| ==> states[k] == TagState(Digits(b + k / 3, tapeLength), k % 3)
    ensures |states| == |history| && results == Reports(parameters, states, history)
    ensures parameters.maxEventCount % 8 == 0 ==> H.Justified(ConfigOf(parameters), states, history)
    ensures parameters.maxEventCount % 8 != 0 ==>
              history == seq(|states|, _ => H.EvaluationResult(H.InvalidInput, TagState([], 255), 0, 0))
  {
    hide H.Justified, Reports, Nth, Rank, AtOrAfter, Digits, Low, Shl, Pow2, H.Admissible;
    ShlOne(tapeLength);
    IntegerRange(tapeLength, tapeBegin, tapeEnd);
    var begin := new MutableTagState.FromContents(tapeLength, tapeBegin, 0);
    var end := new MutableTagState.FromContents(if tapeEnd == Shl(1, tapeLength) then tapeLength + 1 else tapeLength, tapeEnd, 0);
    assert H.Admissible(PostTable(), begin.Snapshot()) by { HeadZero(begin.Snapshot()); }
    results, states, history := EvaluateRange(begin.Snapshot(), end.Snapshot(), parameters, clock);
    forall k | 0 <= k < |states|
      ensures states[k] == TagState(Digits(Low(tapeBegin, tapeLength) + k / 3, tapeLength), k % 3)
    {
      IntegerRangeStates(tapeLength, tapeBegin, k);
    }
  }

  lemma HeadZero(s: TagState)
    requires s.headState == 0
    ensures H.Admissible(PostTable(), s)
  {}
}
