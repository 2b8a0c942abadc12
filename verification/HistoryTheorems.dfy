/** What the reported conclusions imply about the single-event orbits. */
module HistoryTheorems {
  import opened Bits
  import opened TagSystem
  import opened History

  // ---------- runs up to the reported event ----------

  /** Every event up to the reported one really happened: the machine was never stuck. */
  lemma LiveUntilStop(cfg: Config, inits: seq<TagState>, es: seq<nat>, r: EvaluationResult, n: nat)
    requires cfg.Valid() && Outcome(cfg, inits, es, r) && n < r.eventCount && Admissible(cfg.rule, inits[|es|])
    ensures |cfg.At(inits[|es|], n).tape| > cfg.rule.inputLength
    ensures Live(cfg.rule, cfg.At(inits[|es|], n))
  {
    hide Outcome, Continues, Known, Run, Peak, ChunkedRule.K;
    EventLimit(cfg, inits, es, r);
    var init := inits[|es|];
    var i := n % cfg.rule.K();
    BoundaryBelow(n, cfg.rule.K());
    RunningAt(cfg, inits, es, r, 0);
    RunningAt(cfg, inits, es, r, n - i);
    RunZero(cfg.rule, init);
    RunAdd(cfg.rule, init, n - i, i);
    RunShrinksSlowly(cfg.rule, cfg.At(init, n - i), i);
    RunKeepsPhase(cfg.rule, init, n);
  }

  lemma RunZero(rule: ChunkedRule, s: TagState)
    requires rule.Valid()
    ensures Run(rule, s, 0) == s
  {}

  /** At a boundary before the stop, none of the reasons to stop holds. */
  lemma RunningAt(cfg: Config, inits: seq<TagState>, es: seq<nat>, r: EvaluationResult, t: nat)
    requires cfg.Valid() && Outcome(cfg, inits, es, r) && t < r.eventCount && t % cfg.rule.K() == 0
    ensures Continues(cfg, inits, es, t)
    ensures |cfg.At(inits[|es|], t).tape| > 8 && cfg.At(inits[|es|], t) !in cfg.checkpoints.states
  {
    hide Run, Peak, SeenBy, Stops;
  }

  lemma WithinLimits(cfg: Config, inits: seq<TagState>, es: seq<nat>, r: EvaluationResult, t: nat)
    requires cfg.Valid() && Outcome(cfg, inits, es, r) && t < r.eventCount && t % cfg.rule.K() == 0
    ensures t < cfg.limits.maxEventCount && |cfg.At(inits[|es|], t).tape| <= cfg.limits.maxTapeLength
  {
    hide Run, Known, Stops;
    assert Continues(cfg, inits, es, t);
    PeakCovers(cfg, inits[|es|], t);
  }

  lemma PeakCovers(cfg: Config, init: TagState, t: nat)
    requires cfg.rule.Valid() && t % cfg.rule.K() == 0
    ensures |cfg.At(init, t).tape| <= Peak(cfg, init, t)
  {
    if t < cfg.rule.K() {
      FirstBoundary(t, cfg.rule.K());
      RunZero(cfg.rule, init);
    }
  }

  lemma BoundaryBelow(n: nat, k: nat)
    requires k == 4 || k == 8
    ensures (n - n % k) % k == 0 && n % k < k
  {
    if k == 4 {} else {}
  }

  /** Read off Outcome, which EvaluateState proves of the loop: `Terminated` is reported exactly
      when at most 8 cells are left before the event limit; no earlier boundary had so few. */
  lemma TerminationExact(cfg: Config, inits: seq<TagState>, es: seq<nat>, r: EvaluationResult)
    requires cfg.Valid() && Outcome(cfg, inits, es, r) && !Late(r)
    ensures r.conclusionReason == Terminated <==> |r.finalState.tape| <= 8 && r.eventCount < cfg.limits.maxEventCount
    ensures forall t :: 0 <= t < r.eventCount && t % cfg.rule.K() == 0 ==> |cfg.At(inits[|es|], t).tape| > 8
  {
    hide Run, Peak, Known, SeenBy;
    forall t | 0 <= t < r.eventCount && t % cfg.rule.K() == 0
      ensures |cfg.At(inits[|es|], t).tape| > 8
    {
      RunningAt(cfg, inits, es, r, t);
    }
  }

  /** An explicit-checkpoint stop is at the first boundary whose state is in the set. */
  lemma ExplicitStopIsEarliest(cfg: Config, inits: seq<TagState>, es: seq<nat>, r: EvaluationResult, t: nat)
    requires cfg.Valid() && Outcome(cfg, inits, es, r) && t % cfg.rule.K() == 0
    requires cfg.At(inits[|es|], t) in cfg.checkpoints.states
    ensures r.eventCount <= t
    ensures r.eventCount == t ==>
              (r.conclusionReason == ReachedExplicitCheckpoint <==>
                 !Late(r) && t < cfg.limits.maxEventCount && |r.finalState.tape| > 8
                 && r.maxIntermediateTapeLength <= cfg.limits.maxTapeLength)
  {
    if t < r.eventCount { RunningAt(cfg, inits, es, r, t); }
    hide Run, Peak, SeenBy, Continues;
  }

  // ---------- the result is determined ----------

  /** Apart from the clock, nothing about a result is left open: two justified results for
      the same init agree. */
  lemma OutcomeUnique(cfg: Config, inits: seq<TagState>, es: seq<nat>, r: EvaluationResult, r': EvaluationResult)
    requires cfg.Valid() && Outcome(cfg, inits, es, r) && Outcome(cfg, inits, es, r')
    requires !Late(r) && !Late(r')
    ensures r == r'
  {
    hide Run, Peak;
    if r.eventCount < r'.eventCount {
      StopsEndsRun(cfg, inits, es, r);
    } else if r'.eventCount < r.eventCount {
      StopsEndsRun(cfg, inits, es, r');
    } else {
      if r.conclusionReason == ReachedAutomaticCheckpoint { CycleNotMerge(cfg, inits, es, r); }
      if r'.conclusionReason == ReachedAutomaticCheckpoint { CycleNotMerge(cfg, inits, es, r'); }
    }
  }

  lemma StopsEndsRun(cfg: Config, inits: seq<TagState>, es: seq<nat>, r: EvaluationResult)
    requires cfg.Valid() && Outcome(cfg, inits, es, r) && !Late(r)
    ensures !Continues(cfg, inits, es, r.eventCount)
  {
    hide Run, Peak, SeenWithin;
    var e := r.eventCount;
    if r.conclusionReason == ReachedPreviousInitCheckpoint {
      var j :| 0 <= j < |es| && SeenBy(cfg, inits, es, j, cfg.At(inits[|es|], e));
      SeenEarlier(cfg, inits, es, e, j, cfg.At(inits[|es|], e));
    }
  }

  lemma SeenEarlier(cfg: Config, inits: seq<TagState>, es: seq<nat>, e: nat, j: int, s: TagState)
    requires cfg.rule.Valid() && SeenBy(cfg, inits, es, j, s)
    ensures SeenBy(cfg, inits, es + [e], j, s) && Known(cfg, inits, es + [e], s)
  {
    assert (es + [e])[j] == es[j];
    assert SeenBy(cfg, inits, es + [e], j, s);
  }

  /** A state of the init's own orbit that stops it was not left by an earlier init. */
  lemma CycleNotMerge(cfg: Config, inits: seq<TagState>, es: seq<nat>, r: EvaluationResult)
    requires cfg.Valid() && Outcome(cfg, inits, es, r) && r.conclusionReason == ReachedAutomaticCheckpoint
    ensures forall j :: 0 <= j < |es| ==> !SeenBy(cfg, inits, es, j, r.finalState)
  {
    hide Run, Peak, SeenBy, Outcome, Stops, Continues, Known;
    EventLimit(cfg, inits, es, r);
    var t := CycleStart(cfg, inits, es, r);
    forall j | 0 <= j < |es|
      ensures !SeenBy(cfg, inits, es, j, r.finalState)
    {
      if SeenBy(cfg, inits, es, j, r.finalState) {
        SeenEarlier(cfg, inits, es, t, j, r.finalState);
        NotContinuing(cfg, inits, es, t);
      }
    }
  }

  // ---------- cycle detection ----------

  /** ReachedAutomaticCheckpoint: the final state already occurred at an earlier boundary. */
  lemma CycleStart(cfg: Config, inits: seq<TagState>, es: seq<nat>, r: EvaluationResult) returns (t: nat)
    requires cfg.Valid() && Outcome(cfg, inits, es, r) && r.conclusionReason == ReachedAutomaticCheckpoint
    ensures t < r.eventCount && t % cfg.rule.K() == 0
    ensures cfg.At(inits[|es|], t) == r.finalState == cfg.At(inits[|es|], r.eventCount)
    ensures Continues(cfg, inits, es, t)
    ensures Seen(cfg, inits[|es|], r.eventCount, t, r.finalState)
  {
    hide Run, Peak, Known, Continues, Scheduled;
    var e := r.eventCount;
    assert SeenBy(cfg, inits, es + [e], |es|, r.finalState);
    assert (es + [e])[|es|] == e;
    t :| Seen(cfg, inits[|es|], e, t, r.finalState);
  }

  /** Soundness: a reported cycle is one. The orbit is periodic from some event before the
      reported one on, and never reaches the empty tape. */
  lemma CycleSound(cfg: Config, inits: seq<TagState>, es: seq<nat>, r: EvaluationResult) returns (t: nat, period: nat)
    requires cfg.Valid() && Outcome(cfg, inits, es, r) && r.conclusionReason == ReachedAutomaticCheckpoint
    requires Admissible(cfg.rule, inits[|es|])
    ensures period > 0 && t + period == r.eventCount
    ensures forall n: nat :: n >= t ==> cfg.At(inits[|es|], n + period) == cfg.At(inits[|es|], n)
    ensures forall n: nat :: cfg.At(inits[|es|], n).tape != []
  {
    t := CycleStart(cfg, inits, es, r);
    period := r.eventCount - t;
    var init := inits[|es|];
    forall n: nat | n >= t
      ensures cfg.At(inits[|es|], n + period) == cfg.At(inits[|es|], n)
    {
      RunPeriodic(cfg.rule, init, t, period, n);
    }
    forall n: nat
      ensures cfg.At(inits[|es|], n).tape != []
    {
      var m := n;
      if n >= t { m := RunWraps(cfg.rule, init, t, period, n, 1); }
      LiveUntilStop(cfg, inits, es, r, m);
    }
  }

  lemma {:induction false} PowerAbove(n: nat) returns (k: nat)
    requires n > 0
    ensures n <= Pow2(k) < 2 * n
  {
    if n == 1 {
      k := 0;
    } else {
      var k' := PowerAbove((n + 1) / 2);
      k := k' + 1;
    }
  }

  lemma PowerOnBoundary(k: nat, step: nat)
    requires (step == 4 || step == 8) && step <= Pow2(k)
    ensures Pow2(k) % step == 0
  {
    hide Pow2;
    Pow2Values();
    if k >= 3 { PowerOfEight(k); }
    if step == 4 {} else {}
  }

  lemma PowerOfEight(k: nat)
    requires k >= 3
    ensures Pow2(k) % 8 == 0 && Pow2(k) % 4 == 0
  {
    assert Pow2(k) == 2 * Pow2(k - 1) == 4 * Pow2(k - 2) == 8 * Pow2(k - 3);
    hide Pow2;
    Eightfold(Pow2(k), Pow2(k - 3));
  }

  lemma Eightfold(n: nat, m: nat)
    requires n == 8 * m
    ensures n % 8 == 0 && n % 4 == 0
  {}

  /** Completeness, with a bound: if the orbit at the boundaries has preperiod mu and period
      lambda, the run stops within 2 mu + lambda events, whatever stops it. */
  lemma CycleDetectedInTime(cfg: Config, inits: seq<TagState>, es: seq<nat>, r: EvaluationResult, mu: nat, lambda: nat)
    requires cfg.Valid() && Outcome(cfg, inits, es, r) && cfg.checkpoints.flags.powerOfTwoEventCounts
    requires mu % cfg.rule.K() == 0 && lambda % cfg.rule.K() == 0 && lambda > 0
    requires cfg.At(inits[|es|], mu) == cfg.At(inits[|es|], mu + lambda)
    ensures r.eventCount <= 2 * mu + lambda
  {
    hide Run, Peak, Stops, Continues, Known, Outcome, PowerOfTwo, IsPowerOfTwo;
    EventLimit(cfg, inits, es, r);
    var c := CheckpointAfter(mu, cfg.rule.K());
    if 2 * mu + lambda < r.eventCount {
      PowerOfTwoSchedule(c);
      RecurringStateStops(cfg, inits, es, r, mu, lambda, c);
    }
  }

  lemma EventLimit(cfg: Config, inits: seq<TagState>, es: seq<nat>, r: EvaluationResult)
    requires cfg.Valid() && Outcome(cfg, inits, es, r)
    ensures r.eventCount <= cfg.limits.maxEventCount && |es| < |inits|
  {}

  lemma IsPower(k: nat)
    ensures PowerOfTwo(Pow2(k))
  {}

  /** The least multiple of d at or above n. */
  lemma MultipleAbove(n: nat, d: nat) returns (q: nat)
    requires d > 0
    ensures n <= q * d < n + d
  {
    q := n / d;
    assert n == q * d + n % d;
    if n % d > 0 {
      q := q + 1;
      assert q * d == (q - 1) * d + d;
    }
  }

  lemma MultipleOfBoth(q: nat, k: nat, m: nat)
    requires (k == 4 || k == 8) && m > 0
    ensures (q * (k * m)) % m == 0 && (q * (k * m)) % k == 0
  {
    assert q * (k * m) == (q * k) * m == (q * m) * k;
    Multiple(q * k, m);
    Multiple(q * m, k);
  }

  lemma Multiple(a: nat, d: nat)
    requires d > 0
    ensures (a * d) % d == 0
  {
    RemainderUnique(a * d, a, d, 0);
  }

  /** Completeness for checkpoints every m events: the run stops within mu + K * m + lambda
      events, K being the events per chunk. */
  lemma CycleDetectedByMultiple(cfg: Config, inits: seq<TagState>, es: seq<nat>, r: EvaluationResult, mu: nat, lambda: nat)
    requires cfg.Valid() && Outcome(cfg, inits, es, r) && cfg.checkpoints.flags.eventCountsMultiple > 0
    requires lambda % cfg.rule.K() == 0 && lambda > 0
    requires cfg.At(inits[|es|], mu) == cfg.At(inits[|es|], mu + lambda)
    ensures r.eventCount <= mu + cfg.rule.K() * cfg.checkpoints.flags.eventCountsMultiple + lambda
  {
    hide Run, Peak, Stops, Continues, Known, Outcome, IsPowerOfTwo;
    EventLimit(cfg, inits, es, r);
    var init, m, k := inits[|es|], cfg.checkpoints.flags.eventCountsMultiple, cfg.rule.K();
    assert k * m > 0 by { Positive(k, m); }
    var q := MultipleAbove(mu, k * m);
    var c: nat := q * (k * m);
    MultipleOfBoth(q, k, m);
    if mu + k * m + lambda < r.eventCount {
      RecurringStateStops(cfg, inits, es, r, mu, lambda, c);
    }
  }

  lemma Positive(a: nat, b: nat)
    requires a > 0 && b > 0
    ensures a * b > 0
  {}

  /** A scheduled state on the periodic part cannot recur before the reported event. */
  lemma RecurringStateStops(cfg: Config, inits: seq<TagState>, es: seq<nat>, r: EvaluationResult, mu: nat, lambda: nat, c: nat)
    requires cfg.Valid() && Outcome(cfg, inits, es, r)
    requires lambda % cfg.rule.K() == 0 && lambda > 0 && mu <= c && c % cfg.rule.K() == 0
    requires cfg.At(inits[|es|], mu) == cfg.At(inits[|es|], mu + lambda)
    requires c < TWO_TO_THE_64 && Scheduled(cfg.checkpoints.flags, c)
    ensures r.eventCount <= c + lambda
  {
    hide Run, Peak, Stops, Continues, Known, Outcome, Scheduled;
    EventLimit(cfg, inits, es, r);
    if c + lambda < r.eventCount {
      var init, again := inits[|es|], c + lambda;
      BoundarySum(c, lambda, cfg.rule.K());
      RunPeriodic(cfg.rule, init, mu, lambda, c);
      assert Seen(cfg, init, again, c, cfg.At(init, again));
      OwnCheckpointKnown(cfg, inits, es, again, c);
      NotContinuing(cfg, inits, es, again);
      RunningAt(cfg, inits, es, r, again);
    }
  }

  lemma BoundarySum(a: nat, b: nat, k: nat)
    requires (k == 4 || k == 8) && a % k == 0 && b % k == 0
    ensures (a + b) % k == 0
  {
    if k == 4 {} else {}
  }

  lemma OwnCheckpointKnown(cfg: Config, inits: seq<TagState>, es: seq<nat>, e: nat, t: nat)
    requires cfg.rule.Valid() && |es| < |inits| && Seen(cfg, inits[|es|], e, t, cfg.At(inits[|es|], e))
    ensures Known(cfg, inits, es + [e], cfg.At(inits[|es|], e))
  {
    hide Run, Scheduled;
    assert (es + [e])[|es|] == e;
    assert SeenBy(cfg, inits, es + [e], |es|, cfg.At(inits[|es|], e));
  }

  lemma NotContinuing(cfg: Config, inits: seq<TagState>, es: seq<nat>, e: nat)
    requires cfg.rule.Valid() && |es| < |inits| && Known(cfg, inits, es + [e], cfg.At(inits[|es|], e))
    ensures !Continues(cfg, inits, es, e)
  {}

  /** The same counted in single events: an orbit with preperiod mu and period lambda stops the
      run within twice the first boundary at or after mu, plus K * lambda events. */
  lemma EventCycleDetectedInTime(cfg: Config, inits: seq<TagState>, es: seq<nat>, r: EvaluationResult, mu: nat, lambda: nat)
    requires cfg.Valid() && Outcome(cfg, inits, es, r) && cfg.checkpoints.flags.powerOfTwoEventCounts
    requires lambda > 0 && cfg.At(inits[|es|], mu) == cfg.At(inits[|es|], mu + lambda)
    ensures r.eventCount <= 2 * RoundUp(mu, cfg.rule.K()) + cfg.rule.K() * lambda
  {
    hide Run, Outcome;
    EventLimit(cfg, inits, es, r);
    var k, from := cfg.rule.K(), RoundUp(mu, cfg.rule.K());
    RunPeriodicTimes(cfg.rule, inits[|es|], mu, lambda, from, k);
    Multiple(lambda, k);
    CycleDetectedInTime(cfg, inits, es, r, from, k * lambda);
  }

  /** The first boundary at or after event n. */
  function RoundUp(n: nat, k: nat): (b: nat)
    requires k == 4 || k == 8
    ensures n <= b < n + k && b % k == 0
  {
    if k == 4 then UpToFour(n); 4 * ((n + 3) / 4) else UpToEight(n); 8 * ((n + 7) / 8)
  }

  lemma UpToFour(n: nat)
    ensures n <= 4 * ((n + 3) / 4) < n + 4 && (4 * ((n + 3) / 4)) % 4 == 0
  {}

  lemma UpToEight(n: nat)
    ensures n <= 8 * ((n + 7) / 8) < n + 8 && (8 * ((n + 7) / 8)) % 8 == 0
  {}

  lemma {:induction false} RunPeriodicTimes(rule: ChunkedRule, s: TagState, from: nat, period: nat, n: nat, times: nat)
    requires rule.Valid() && Run(rule, s, from) == Run(rule, s, from + period) && from <= n
    ensures times * period >= 0 && Run(rule, s, n) == Run(rule, s, n + times * period)
    decreases times
  {
    hide Run;
    if times > 0 {
      RunPeriodicTimes(rule, s, from, period, n, times - 1);
      RunPeriodic(rule, s, from, period, n + (times - 1) * period);
      assert (times - 1) * period + period == times * period;
    }
  }

  /** Before event n every boundary has more than one chunk and keeps to the tape limit. */
  ghost predicate Roomy(cfg: Config, init: TagState, n: nat)
    requires cfg.rule.Valid()
  {
    forall t :: 0 <= t < n && t % cfg.rule.K() == 0 ==> 8 < |cfg.At(init, t).tape| <= cfg.limits.maxTapeLength
  }

  lemma RoomyAlways(cfg: Config, init: TagState, mu: nat, lambda: nat, n: nat)
    requires cfg.rule.Valid() && Roomy(cfg, init, mu + lambda) && cfg.At(init, mu) == cfg.At(init, mu + lambda)
    requires lambda > 0 && lambda % cfg.rule.K() == 0
    ensures Roomy(cfg, init, n)
  {
    hide Run;
    forall t | 0 <= t < n && t % cfg.rule.K() == 0
      ensures 8 < |cfg.At(init, t).tape| <= cfg.limits.maxTapeLength
    {
      var m := t;
      if t >= mu { m := RunWraps(cfg.rule, init, mu, lambda, t, cfg.rule.K()); }
      assert 8 < |cfg.At(init, m).tape| <= cfg.limits.maxTapeLength;
    }
  }

  lemma {:induction false} PeakWithin(cfg: Config, init: TagState, e: nat)
    requires cfg.rule.Valid() && e % cfg.rule.K() == 0 && Roomy(cfg, init, e + 1)
    ensures Peak(cfg, init, e) <= cfg.limits.maxTapeLength
    decreases e
  {
    hide Run;
    var k := cfg.rule.K();
    assert |cfg.At(init, e).tape| <= cfg.limits.maxTapeLength;
    if e < k {
      RunZero(cfg.rule, init);
      FirstBoundary(e, k);
    } else {
      SameRemainder(e, k, k);
      PeakWithin(cfg, init, e - k);
    }
  }

  lemma FirstBoundary(e: nat, k: nat)
    requires (k == 4 || k == 8) && e < k && e % k == 0
    ensures e == 0
  {}

  /** What is reported for a periodic orbit: if no limit, short tape or clock intervenes, the run
      ends at a checkpoint, and the cycle is the init's own unless the final state is an
      explicit checkpoint or was left by an earlier init. */
  lemma CycleReported(cfg: Config, inits: seq<TagState>, es: seq<nat>, r: EvaluationResult, mu: nat, lambda: nat)
    requires cfg.Valid() && Outcome(cfg, inits, es, r) && cfg.checkpoints.flags.powerOfTwoEventCounts && !Late(r)
    requires mu % cfg.rule.K() == 0 && lambda % cfg.rule.K() == 0 && lambda > 0 && 2 * mu + lambda < cfg.limits.maxEventCount
    requires cfg.At(inits[|es|], mu) == cfg.At(inits[|es|], mu + lambda) && Roomy(cfg, inits[|es|], mu + lambda)
    ensures r.conclusionReason in {ReachedExplicitCheckpoint, ReachedAutomaticCheckpoint, ReachedPreviousInitCheckpoint}
    ensures r.conclusionReason == ReachedAutomaticCheckpoint <==>
              r.finalState !in cfg.checkpoints.states && forall j :: 0 <= j < |es| ==> !SeenBy(cfg, inits, es, j, r.finalState)
  {
    hide Run, Peak, Continues, Known, SeenBy, Roomy;
    var init, e := inits[|es|], r.eventCount;
    CycleDetectedInTime(cfg, inits, es, r, mu, lambda);
    RoomyAlways(cfg, init, mu, lambda, e + 1);
    PeakWithin(cfg, init, e);
    RoomyAt(cfg, init, e);
    if r.conclusionReason == ReachedAutomaticCheckpoint { CycleNotMerge(cfg, inits, es, r); }
  }

  lemma RoomyAt(cfg: Config, init: TagState, e: nat)
    requires cfg.rule.Valid() && Roomy(cfg, init, e + 1) && e % cfg.rule.K() == 0
    ensures |cfg.At(init, e).tape| > 8
  {}

  /** Once a result says that the time is up, all later inits are left as they are. */
  lemma RestNotEvaluated(cfg: Config, inits: seq<TagState>, results: seq<EvaluationResult>, i: nat, j: nat)
    requires Justified(cfg, inits, results) && i < j < |results|
    requires results[i].conclusionReason == TimeConstraintExceeded || results[i].conclusionReason == NotEvaluated
    ensures results[j].conclusionReason == NotEvaluated && results[j].eventCount == 0
    ensures results[j].finalState == inits[j] && results[j].maxIntermediateTapeLength == |inits[j].tape|
  {
    hide Run, Continues;
    assert Late(results[i]);
    assert Outcome(cfg, inits, EventCounts(results[..j]), results[j]);
    RunZero(cfg.rule, inits[j]);
  }

  // ---------- checkpoints are left only when asked for ----------

  /** A run ends at an automatic checkpoint only if one was due: the owning run, its own or an
      earlier init's, was in the final state at an earlier boundary whose event count is 0 or a
      power of two, if these were asked for, or a multiple of the given number, if there is one. */
  lemma CheckpointWasDue(cfg: Config, inits: seq<TagState>, es: seq<nat>, r: EvaluationResult) returns (j: nat, t: nat)
    requires cfg.Valid() && Outcome(cfg, inits, es, r)
    requires r.conclusionReason == ReachedAutomaticCheckpoint || r.conclusionReason == ReachedPreviousInitCheckpoint
    ensures if r.conclusionReason == ReachedAutomaticCheckpoint then j == |es| && t < r.eventCount else j < |es| && t < es[j]
    ensures t % cfg.rule.K() == 0 && cfg.At(inits[j], t) == r.finalState
    ensures var flags := cfg.checkpoints.flags;
            || (flags.powerOfTwoEventCounts && (t == 0 || exists k: nat :: t == Pow2(k)))
            || (flags.eventCountsMultiple > 0 && t % flags.eventCountsMultiple == 0)
  {
    if r.conclusionReason == ReachedAutomaticCheckpoint {
      j := |es|;
      t := CycleStart(cfg, inits, es, r);
      SeenWasDue(cfg, inits[j], r.eventCount, t, r.finalState);
    } else {
      j, t := EarlierSeen(cfg, inits, es, r);
      SeenWasDue(cfg, inits[j], es[j], t, r.finalState);
    }
  }

  lemma EarlierSeen(cfg: Config, inits: seq<TagState>, es: seq<nat>, r: EvaluationResult) returns (j: nat, t: nat)
    requires cfg.Valid() && Outcome(cfg, inits, es, r) && r.conclusionReason == ReachedPreviousInitCheckpoint
    ensures j < |es| && j < |inits| && Seen(cfg, inits[j], es[j], t, r.finalState)
  {
    hide Run, Peak, Continues, Known, Scheduled;
    j :| 0 <= j < |es| && SeenBy(cfg, inits, es, j, r.finalState);
    t :| Seen(cfg, inits[j], es[j], t, r.finalState);
  }

  lemma SeenWasDue(cfg: Config, init: TagState, e: nat, t: nat, s: TagState)
    requires cfg.Valid() && Seen(cfg, init, e, t, s)
    ensures t < e && t % cfg.rule.K() == 0 && cfg.At(init, t) == s
    ensures var flags := cfg.checkpoints.flags;
            || (flags.powerOfTwoEventCounts && (t == 0 || exists k: nat :: t == Pow2(k)))
            || (flags.eventCountsMultiple > 0 && t % flags.eventCountsMultiple == 0)
  {
    hide *;
    SeenParts(cfg, init, e, t, s);
    ScheduleMeans(cfg.checkpoints.flags, t);
    if PowerOfTwo(t) { PowerWitness(t); }
  }

  lemma SeenParts(cfg: Config, init: TagState, e: nat, t: nat, s: TagState)
    requires cfg.Valid() && Seen(cfg, init, e, t, s)
    ensures t < e <= cfg.limits.maxEventCount && t % cfg.rule.K() == 0
    ensures cfg.At(init, t) == s && Scheduled(cfg.checkpoints.flags, t)
  {}

  lemma PowerWitness(n: nat)
    requires PowerOfTwo(n)
    ensures exists k: nat :: n == Pow2(k)
  {}

  /** With no automatic checkpoints asked for, neither of these reasons is ever reported. */
  lemma NoCheckpointsAskedFor(cfg: Config, inits: seq<TagState>, es: seq<nat>, r: EvaluationResult)
    requires cfg.Valid() && Outcome(cfg, inits, es, r)
    requires !cfg.checkpoints.flags.powerOfTwoEventCounts && cfg.checkpoints.flags.eventCountsMultiple == 0
    ensures r.conclusionReason != ReachedAutomaticCheckpoint && r.conclusionReason != ReachedPreviousInitCheckpoint
  {
    hide Outcome;
    if r.conclusionReason == ReachedAutomaticCheckpoint || r.conclusionReason == ReachedPreviousInitCheckpoint {
      var j, t := CheckpointWasDue(cfg, inits, es, r);
    }
  }

  // ---------- merging ----------

  /** A run does not go past a boundary whose state an earlier init left as a checkpoint. */
  lemma StopsAtEarlierCheckpoint(cfg: Config, inits: seq<TagState>, results: seq<EvaluationResult>, i: nat, j: nat, t: nat, u: nat)
    requires Justified(cfg, inits, results) && i < j < |results| && u % cfg.rule.K() == 0
    requires Seen(cfg, inits[i], results[i].eventCount, t, cfg.At(inits[j], u))
    ensures results[j].eventCount <= u
  {
    hide Run, Peak, Continues, Stops, Known, Seen, Outcome;
    var es := EventCounts(results[..j]);
    assert Outcome(cfg, inits, es, results[j]);
    if u < results[j].eventCount {
      assert es[i] == results[i].eventCount;
      assert SeenBy(cfg, inits, es, i, cfg.At(inits[j], u));
      SeenEarlier(cfg, inits, es, u, i, cfg.At(inits[j], u));
      NotContinuing(cfg, inits, es, u);
      RunningAt(cfg, inits, es, results[j], u);
    }
  }

  /** Completeness of merge detection: if a later init at boundary n is in the state an earlier
      one was in at boundary m, and the earlier one was run for 2 m events, then the later one
      is stopped within n + m events. */
  lemma MergeDetectedInTime(cfg: Config, inits: seq<TagState>, results: seq<EvaluationResult>, i: nat, j: nat, m: nat, n: nat)
    requires Justified(cfg, inits, results) && i < j < |results| && cfg.checkpoints.flags.powerOfTwoEventCounts
    requires m % cfg.rule.K() == 0 && n % cfg.rule.K() == 0 && cfg.At(inits[i], m) == cfg.At(inits[j], n)
    requires 2 * m <= results[i].eventCount && 0 < results[i].eventCount
    ensures results[j].eventCount <= n + m
  {
    hide Run, Peak, Outcome, IsPowerOfTwo, PowerOfTwo;
    var e := results[i].eventCount;
    EventLimit(cfg, inits, EventCounts(results[..i]), results[i]);
    var c := CheckpointAfter(m, cfg.rule.K());
    PowerOfTwoSchedule(c);
    MergedOrbit(cfg, inits[j], n, inits[i], m, c);
    assert Seen(cfg, inits[i], e, c, cfg.At(inits[i], c));
    SameRemainder(n + c, m, cfg.rule.K());
    BoundarySum(n, c, cfg.rule.K());
    StopsAtEarlierCheckpoint(cfg, inits, results, i, j, c, n + (c - m));
  }

  /** The first power of two at or after a boundary, itself a boundary; 0 for the boundary 0. */
  lemma CheckpointAfter(mu: nat, k: nat) returns (c: nat)
    requires (k == 4 || k == 8) && mu % k == 0
    ensures mu <= c && c % k == 0 && (if mu == 0 then c == 0 else c < 2 * mu && PowerOfTwo(c))
  {
    c := 0;
    if mu > 0 {
      var p := PowerAbove(mu);
      PowerOnBoundary(p, k);
      c := Pow2(p);
      IsPower(p);
    }
  }

  /** Each boundary cycle is reported at most once per call: the orbits of two inits that both
      reported a cycle of their own share no boundary state. */
  lemma CyclesReportedOnce(cfg: Config, inits: seq<TagState>, results: seq<EvaluationResult>, i: nat, j: nat, m: nat, n: nat)
    requires Justified(cfg, inits, results) && i < j < |results|
    requires results[i].conclusionReason == results[j].conclusionReason == ReachedAutomaticCheckpoint
    requires m % cfg.rule.K() == 0 && n % cfg.rule.K() == 0
    ensures cfg.At(inits[i], m) != cfg.At(inits[j], n)
  {
    hide Run, Peak, Outcome, Continues, Seen;
    var k := cfg.rule.K();
    var ti, pi := OwnCycle(cfg, inits, results, i);
    var tj, pj := OwnCycle(cfg, inits, results, j);
    if cfg.At(inits[i], m) == cfg.At(inits[j], n) {
      var at := RunRecurs(cfg.rule, inits[i], ti, pi, m, k);
      MergedOrbit(cfg, inits[j], n, inits[i], m, at);
      var u: nat := n + (at - m);
      BoundarySum(n, at, k);
      SameRemainder(n + at, m, k);
      if u >= tj { u := RunWraps(cfg.rule, inits[j], tj, pj, u, k); }
      StopsAtEarlierCheckpoint(cfg, inits, results, i, j, ti, u);
    }
  }

  /** The checkpoint an init ran into on its own orbit, and the period. */
  lemma OwnCycle(cfg: Config, inits: seq<TagState>, results: seq<EvaluationResult>, i: nat) returns (t: nat, period: nat)
    requires Justified(cfg, inits, results) && i < |results| && results[i].conclusionReason == ReachedAutomaticCheckpoint
    ensures period > 0 && t + period == results[i].eventCount && t % cfg.rule.K() == 0 && period % cfg.rule.K() == 0
    ensures Seen(cfg, inits[i], results[i].eventCount, t, cfg.At(inits[i], t))
    ensures cfg.At(inits[i], t) == cfg.At(inits[i], t + period)
  {
    hide Run, Peak, Continues, Stops, Seen;
    var es := EventCounts(results[..i]);
    assert Outcome(cfg, inits, es, results[i]);
    t := CycleStart(cfg, inits, es, results[i]);
    period := results[i].eventCount - t;
    SameRemainder(results[i].eventCount, t, cfg.rule.K());
  }

  /** The earlier init, and its event, whose checkpoint the merged init ran into. */
  lemma MergeTarget(cfg: Config, inits: seq<TagState>, results: seq<EvaluationResult>, i: nat) returns (j: nat, t: nat)
    requires Justified(cfg, inits, results) && i < |results|
    requires results[i].conclusionReason == ReachedPreviousInitCheckpoint
    ensures j < i && t < results[j].eventCount && t % cfg.rule.K() == 0
    ensures cfg.At(inits[j], t) == cfg.At(inits[i], results[i].eventCount) == results[i].finalState
    ensures results[j].conclusionReason != NotEvaluated && results[j].conclusionReason != InvalidInput
  {
    hide Run, Peak, Known, Continues, Scheduled;
    var es := EventCounts(results[..i]);
    assert Outcome(cfg, inits, es, results[i]);
    j :| 0 <= j < |es| && SeenBy(cfg, inits, es, j, results[i].finalState);
    t :| Seen(cfg, inits[j], es[j], t, results[i].finalState);
    assert es[j] == results[j].eventCount;
    assert Outcome(cfg, inits, EventCounts(results[..j]), results[j]);
  }

  /** From the merge on, the two orbits are the same. */
  lemma MergedOrbit(cfg: Config, a: TagState, e: nat, b: TagState, t: nat, n: nat)
    requires cfg.rule.Valid() && cfg.At(a, e) == cfg.At(b, t) && t <= n
    ensures cfg.At(a, e + (n - t)) == cfg.At(b, n)
  {
    RunAdd(cfg.rule, a, e, n - t);
    RunAdd(cfg.rule, b, t, n - t);
  }

  lemma FinalOnOrbit(cfg: Config, inits: seq<TagState>, results: seq<EvaluationResult>, i: nat)
    requires Justified(cfg, inits, results) && i < |results|
    ensures results[i].finalState == cfg.At(inits[i], results[i].eventCount)
  {
    hide Run, Peak, Continues, Stops;
    assert Outcome(cfg, inits, EventCounts(results[..i]), results[i]);
  }

  /** Every event before n is possible. */
  ghost predicate LiveUpTo(cfg: Config, init: TagState, n: nat)
    requires cfg.rule.Valid()
  {
    forall m :: 0 <= m < n ==> Live(cfg.rule, cfg.At(init, m))
  }

  lemma LiveToReport(cfg: Config, inits: seq<TagState>, results: seq<EvaluationResult>, i: nat)
    requires Justified(cfg, inits, results) && i < |results| && Admissible(cfg.rule, inits[i])
    ensures LiveUpTo(cfg, inits[i], results[i].eventCount)
  {
    hide Outcome, LiveUpTo;
    assert Outcome(cfg, inits, EventCounts(results[..i]), results[i]);
    LiveToOutcome(cfg, inits, EventCounts(results[..i]), results[i]);
  }

  lemma LiveMerged(cfg: Config, a: TagState, e: nat, b: TagState, t: nat, n: nat)
    requires cfg.rule.Valid() && cfg.At(a, e) == cfg.At(b, t) && t <= n
    requires LiveUpTo(cfg, a, e) && LiveUpTo(cfg, b, n)
    ensures LiveUpTo(cfg, a, e + (n - t))
  {
    hide Run, Live;
    forall m | e <= m < e + (n - t)
      ensures Live(cfg.rule, cfg.At(a, m))
    {
      MergedOrbit(cfg, a, e, b, t, t + (m - e));
    }
  }

  /** Merging loses nothing: behind every merged init there is an earlier init that was
      evaluated, was not itself merged, and whose final state lies on the merged init's
      orbit, all events up to there being possible. By induction along the chain of merges. */
  lemma {:induction false} MergingLosesNothing(cfg: Config, inits: seq<TagState>, results: seq<EvaluationResult>, i: nat) returns (j: nat, n: nat)
    requires Justified(cfg, inits, results) && i < |results|
    requires results[i].conclusionReason == ReachedPreviousInitCheckpoint
    ensures j < i && results[j].conclusionReason !in {ReachedPreviousInitCheckpoint, NotEvaluated, InvalidInput}
    ensures n >= results[i].eventCount && cfg.At(inits[i], n) == results[j].finalState
    ensures (forall k :: 0 <= k <= i ==> Admissible(cfg.rule, inits[k])) ==> LiveUpTo(cfg, inits[i], n)
    decreases i
  {
    hide Run, Outcome, LiveUpTo, Admissible;
    var e, j0, t := results[i].eventCount, 0, 0;
    j0, t := MergeTarget(cfg, inits, results, i);
    var m := results[j0].eventCount;
    j := j0;
    if results[j0].conclusionReason == ReachedPreviousInitCheckpoint {
      j, m := MergingLosesNothing(cfg, inits, results, j0);
    } else {
      FinalOnOrbit(cfg, inits, results, j0);
    }
    n := e + (m - t);
    MergedOrbit(cfg, inits[i], e, inits[j0], t, m);
    if forall k :: 0 <= k <= i ==> Admissible(cfg.rule, inits[k]) {
      assert Admissible(cfg.rule, inits[i]) && Admissible(cfg.rule, inits[j0]);
      LiveToReport(cfg, inits, results, i);
      LiveToReport(cfg, inits, results, j0);
      LiveMerged(cfg, inits[i], e, inits[j0], t, m);
    }
  }

  ghost predicate NeverEmpty(cfg: Config, init: TagState)
    requires cfg.rule.Valid()
  {
    forall n: nat :: cfg.At(init, n).tape != []
  }

  /** What a conclusion says about an init's orbit, read at event n: every event up to there is
      possible, and the reason holds there. A limit on events, the clock and a merge say
      nothing more. */
  ghost predicate Holds(cfg: Config, init: TagState, reason: ConclusionReason, n: nat)
    requires cfg.rule.Valid()
  {
    && LiveUpTo(cfg, init, n)
    && match reason
       case Terminated => |cfg.At(init, n).tape| <= 8
       case ReachedExplicitCheckpoint => cfg.At(init, n) in cfg.checkpoints.states
       case ReachedAutomaticCheckpoint =>
         NeverEmpty(cfg, init) && exists m: nat :: n < m && cfg.At(init, n) == cfg.At(init, m)
       case MaxTapeLengthExceeded => |cfg.At(init, n).tape| > cfg.limits.maxTapeLength
       case _ => true
  }

  /** Two orbits that share a state: if one is never empty, neither is the other. */
  lemma NeverEmptyShared(cfg: Config, a: TagState, n: nat, b: TagState, e: nat)
    requires cfg.rule.Valid() && cfg.At(a, n) == cfg.At(b, e) && NeverEmpty(cfg, b)
    ensures NeverEmpty(cfg, a)
  {
    hide Run;
    forall m: nat
      ensures cfg.At(a, m).tape != []
    {
      if cfg.At(a, m).tape == [] {
        var far := if m < n then n else m;
        RunAdd(cfg.rule, a, m, far - m);
        EmptyRests(cfg.rule, cfg.At(a, m), far - m);
        MergedOrbit(cfg, a, n, b, e, e + (far - n));
      }
    }
  }

  /** A conclusion carries over to any orbit that lives up to a state where it holds. */
  lemma HoldsShared(cfg: Config, a: TagState, n: nat, b: TagState, e: nat, reason: ConclusionReason)
    requires cfg.rule.Valid() && cfg.At(a, n) == cfg.At(b, e) && Holds(cfg, b, reason, e) && LiveUpTo(cfg, a, n)
    ensures Holds(cfg, a, reason, n)
  {
    hide Run, NeverEmpty, LiveUpTo;
    if reason == ReachedAutomaticCheckpoint {
      var m: nat :| e < m && cfg.At(b, e) == cfg.At(b, m);
      NeverEmptyShared(cfg, a, n, b, e);
      MergedOrbit(cfg, a, n, b, e, m);
      assert cfg.At(a, n) == cfg.At(a, n + (m - e));
    }
  }

  /** Every conclusion reported for the representative of a merged init is also true of the
      merged init's own orbit, so dropping the merged result drops no conclusion. */
  lemma MergedConclusionHolds(cfg: Config, inits: seq<TagState>, results: seq<EvaluationResult>, i: nat) returns (j: nat, n: nat)
    requires Justified(cfg, inits, results) && i < |results|
    requires forall k :: 0 <= k <= i ==> Admissible(cfg.rule, inits[k])
    requires results[i].conclusionReason == ReachedPreviousInitCheckpoint
    ensures j < i && results[j].conclusionReason !in {ReachedPreviousInitCheckpoint, NotEvaluated, InvalidInput}
    ensures n >= results[i].eventCount && cfg.At(inits[i], n) == results[j].finalState
    ensures Holds(cfg, inits[i], results[j].conclusionReason, n)
  {
    hide Run, Outcome, Holds, LiveUpTo, Admissible;
    j, n := MergingLosesNothing(cfg, inits, results, i);
    assert Outcome(cfg, inits, EventCounts(results[..j]), results[j]) && Admissible(cfg.rule, inits[j]);
    FinalOnOrbit(cfg, inits, results, j);
    ConclusionHolds(cfg, inits, EventCounts(results[..j]), results[j]);
    HoldsShared(cfg, inits[i], n, inits[j], results[j].eventCount, results[j].conclusionReason);
  }

  /** Every reported conclusion is true of the init's own orbit at the reported event, which for
      the limits is the limit, for the clock a clock check, and for a merge a state that an
      earlier init had left. */
  lemma ConclusionHolds(cfg: Config, inits: seq<TagState>, es: seq<nat>, r: EvaluationResult)
    requires cfg.Valid() && Outcome(cfg, inits, es, r) && Admissible(cfg.rule, inits[|es|])
    ensures Holds(cfg, inits[|es|], r.conclusionReason, r.eventCount)
    ensures r.conclusionReason == MaxEventCountExceeded ==> r.eventCount == cfg.limits.maxEventCount
    ensures r.conclusionReason == TimeConstraintExceeded ==> r.eventCount % EVENTS_PER_CLOCK_CHECK == 0
    ensures r.conclusionReason == NotEvaluated ==> r.eventCount == 0
    ensures r.conclusionReason == ReachedPreviousInitCheckpoint ==>
              exists j: nat, t: nat :: j < |es| && t < es[j] && cfg.At(inits[j], t) == r.finalState
  {
    hide Run, Peak, Continues, Known, NeverEmpty, LiveUpTo, Scheduled;
    LiveToOutcome(cfg, inits, es, r);
    if r.conclusionReason == ReachedAutomaticCheckpoint {
      OwnCycleHolds(cfg, inits, es, r);
    } else if r.conclusionReason == MaxTapeLengthExceeded {
      TooLongNow(cfg, inits, es, r);
    } else if r.conclusionReason == ReachedPreviousInitCheckpoint {
      var j :| 0 <= j < |es| && SeenBy(cfg, inits, es, j, r.finalState);
      var t: nat :| Seen(cfg, inits[j], es[j], t, r.finalState);
    }
  }

  lemma NeverInvalid(cfg: Config, inits: seq<TagState>, es: seq<nat>, r: EvaluationResult)
    requires cfg.Valid() && Outcome(cfg, inits, es, r)
    ensures r.conclusionReason != InvalidInput
  {}

  lemma LiveToOutcome(cfg: Config, inits: seq<TagState>, es: seq<nat>, r: EvaluationResult)
    requires cfg.Valid() && Outcome(cfg, inits, es, r) && Admissible(cfg.rule, inits[|es|])
    ensures LiveUpTo(cfg, inits[|es|], r.eventCount)
  {
    hide Run, Outcome, Live;
    EventLimit(cfg, inits, es, r);
    forall m | 0 <= m < r.eventCount
      ensures Live(cfg.rule, cfg.At(inits[|es|], m))
    {
      LiveUntilStop(cfg, inits, es, r, m);
    }
  }

  lemma OwnCycleHolds(cfg: Config, inits: seq<TagState>, es: seq<nat>, r: EvaluationResult)
    requires cfg.Valid() && Outcome(cfg, inits, es, r) && Admissible(cfg.rule, inits[|es|])
    requires r.conclusionReason == ReachedAutomaticCheckpoint
    ensures NeverEmpty(cfg, inits[|es|])
    ensures exists m: nat :: r.eventCount < m && cfg.At(inits[|es|], r.eventCount) == cfg.At(inits[|es|], m)
  {
    hide Run, Outcome;
    EventLimit(cfg, inits, es, r);
    var t, period := CycleSound(cfg, inits, es, r);
    assert cfg.At(inits[|es|], r.eventCount + period) == cfg.At(inits[|es|], r.eventCount);
  }

  /** The tape limit is exceeded by the final state itself: until then it was kept. */
  lemma TooLongNow(cfg: Config, inits: seq<TagState>, es: seq<nat>, r: EvaluationResult)
    requires cfg.Valid() && Outcome(cfg, inits, es, r) && r.conclusionReason == MaxTapeLengthExceeded
    ensures |r.finalState.tape| > cfg.limits.maxTapeLength
  {
    hide Run, Known;
    var e, k := r.eventCount, cfg.rule.K();
    if e >= k {
      SameRemainder(e, k, k);
      assert Continues(cfg, inits, es, e - k);
    } else {
      FirstBoundary(e, k);
      RunZero(cfg.rule, inits[|es|]);
    }
  }
}
