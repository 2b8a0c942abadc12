/** The evaluation loops: limits, explicit and automatic checkpoints, and the trie shared by
    all inits of a call. Outcome says, for one init and without mentioning chunks or the
    trie, what a reported result means. */
module History {
  import opened Bits
  import opened TagSystem
  import opened ChunkTable
  import opened Chunks
  import opened ChunkedStates
  import opened CheckpointsTries

  datatype ConclusionReason =
    | InvalidInput
    | Terminated
    | ReachedExplicitCheckpoint
    | ReachedAutomaticCheckpoint
    | ReachedPreviousInitCheckpoint
    | MaxEventCountExceeded
    | MaxTapeLengthExceeded
    | TimeConstraintExceeded
    | NotEvaluated

  type UInt64 = n: nat | n < 0x1_0000_0000_0000_0000

  datatype EvaluationResult = EvaluationResult(
    conclusionReason: ConclusionReason, finalState: TagState, eventCount: nat, maxIntermediateTapeLength: nat)

  datatype AutomaticCheckpointParameters = AutomaticCheckpointParameters(
    powerOfTwoEventCounts: bool, eventCountsMultiple: UInt64)

  datatype EvaluationLimits = EvaluationLimits(maxEventCount: UInt64, maxTapeLength: UInt64)

  datatype CheckpointSpec = CheckpointSpec(states: seq<TagState>, flags: AutomaticCheckpointParameters)

  const EXPLICIT_CHECKPOINT := -1
  const EVENTS_PER_CLOCK_CHECK := 1000

  /** `number & (number - 1)` on uint64_t; despite its name, true when the number is neither
      0 nor a power of two. */
  predicate IsPowerOfTwo(number: UInt64) {
    BitAnd(number, (number + TWO_TO_THE_64 - 1) % TWO_TO_THE_64) != 0
  }

  /** Event counts after which the state becomes an automatic checkpoint. */
  predicate Scheduled(flags: AutomaticCheckpointParameters, eventCount: UInt64) {
    || (flags.powerOfTwoEventCounts && !IsPowerOfTwo(eventCount))
    || (flags.eventCountsMultiple != 0 && eventCount % flags.eventCountsMultiple == 0)
  }

  ghost predicate PowerOfTwo(n: nat) {
    exists k: nat :: n == Pow2(k)
  }

  lemma PowerOfTwoHalf(n: nat)
    requires n > 0 && n % 2 == 0
    ensures PowerOfTwo(n) <==> PowerOfTwo(n / 2)
  {
    if PowerOfTwo(n) {
      var k: nat :| n == Pow2(k);
      assert k != 0 && n / 2 == Pow2(k - 1);
    }
    if PowerOfTwo(n / 2) {
      var k: nat :| n / 2 == Pow2(k);
      assert n == Pow2(k + 1);
    }
  }

  lemma {:induction false} PredecessorMask(n: nat)
    requires n > 0
    ensures BitAnd(n, n - 1) == 0 <==> PowerOfTwo(n)
  {
    if n == 1 {
      assert n == Pow2(0);
    } else if n % 2 == 1 {
      assert n / 2 == (n - 1) / 2;
      BitAndSelf(n / 2);
      forall k: nat ensures n != Pow2(k) {}
    } else {
      assert (n - 1) / 2 == n / 2 - 1 && BitAnd(n, n - 1) == 2 * BitAnd(n / 2, n / 2 - 1);
      hide BitAnd, PowerOfTwo;
      PredecessorMask(n / 2);
      PowerOfTwoHalf(n);
    }
  }

  /** The net schedule of powerOfTwoEventCounts: event count 0 and the powers of two. */
  lemma PowerOfTwoSchedule(eventCount: UInt64)
    ensures !IsPowerOfTwo(eventCount) <==> eventCount == 0 || PowerOfTwo(eventCount)
  {
    if eventCount > 0 {
      hide BitAnd, PowerOfTwo;
      PredecessorMask(eventCount);
    }
  }

  /** Exactly when a state becomes an automatic checkpoint. */
  lemma ScheduleMeans(flags: AutomaticCheckpointParameters, eventCount: UInt64)
    ensures Scheduled(flags, eventCount) <==>
              || (flags.powerOfTwoEventCounts && (eventCount == 0 || PowerOfTwo(eventCount)))
              || (flags.eventCountsMultiple > 0 && eventCount % flags.eventCountsMultiple == 0)
  {
    hide PowerOfTwo;
    PowerOfTwoSchedule(eventCount);
  }

  // ---------- what one init's run looks like from outside ----------

  /** A call: the rule, the limits and the checkpoints. */
  datatype Config = Config(rule: ChunkedRule, limits: EvaluationLimits, checkpoints: CheckpointSpec) {
    predicate Valid() {
      rule.Valid() && limits.maxEventCount % rule.K() == 0
    }

    /** The single-event orbit of an init. */
    function At(init: TagState, t: nat): TagState
      requires rule.Valid()
    {
      Run(rule, init, t)
    }
  }

  /** The source indexes its tables with the phase of any init that is actually stepped. */
  predicate Admissible(rule: ChunkedRule, init: TagState) {
    init.headState < rule.phaseCount || |init.tape| <= 8
  }

  /** The longest tape at a chunk boundary up to event t. */
  function Peak(cfg: Config, init: TagState, t: nat): nat
    requires cfg.rule.Valid()
    decreases t
  {
    if t < cfg.rule.K() then |init.tape|
    else Max(Peak(cfg, init, t - cfg.rule.K()), |cfg.At(init, t).tape|)
  }

  function Max(a: nat, b: nat): nat {
    if a < b then b else a
  }

  /** The init became a checkpoint in state s, at a scheduled boundary t before event e. */
  ghost predicate Seen(cfg: Config, init: TagState, e: nat, t: nat, s: TagState)
    requires cfg.rule.Valid()
  {
    t < e <= cfg.limits.maxEventCount && t % cfg.rule.K() == 0
    && Scheduled(cfg.checkpoints.flags, t) && cfg.At(init, t) == s
  }

  ghost predicate SeenWithin(cfg: Config, init: TagState, e: nat, s: TagState)
    requires cfg.rule.Valid()
  {
    exists t: nat :: Seen(cfg, init, e, t, s)
  }

  /** Init j, run for es[j] events, left a checkpoint in state s. */
  ghost predicate SeenBy(cfg: Config, inits: seq<TagState>, es: seq<nat>, j: int, s: TagState)
    requires cfg.rule.Valid()
  {
    0 <= j < |es| && j < |inits| && SeenWithin(cfg, inits[j], es[j], s)
  }

  /** s is an explicit checkpoint or was left by one of the inits. */
  ghost predicate Known(cfg: Config, inits: seq<TagState>, es: seq<nat>, s: TagState)
    requires cfg.rule.Valid()
  {
    s in cfg.checkpoints.states || exists j :: SeenBy(cfg, inits, es, j, s)
  }

  /** Nothing stops the run of init |es| at boundary t. */
  ghost predicate Continues(cfg: Config, inits: seq<TagState>, es: seq<nat>, t: nat)
    requires cfg.rule.Valid() && |es| < |inits|
  {
    var init := inits[|es|];
    && t < cfg.limits.maxEventCount
    && |cfg.At(init, t).tape| > 8
    && Peak(cfg, init, t) <= cfg.limits.maxTapeLength
    && !Known(cfg, inits, es + [t], cfg.At(init, t))
  }

  /** Why the run of init |es| stopped after e events. */
  ghost predicate Stops(cfg: Config, inits: seq<TagState>, es: seq<nat>, e: nat, reason: ConclusionReason)
    requires cfg.rule.Valid() && |es| < |inits|
  {
    var init, final := inits[|es|], cfg.At(inits[|es|], e);
    var running := e < cfg.limits.maxEventCount && |final.tape| > 8;
    var searching := running && Peak(cfg, init, e) <= cfg.limits.maxTapeLength;
    match reason
    case NotEvaluated => e == 0
    case InvalidInput => false
    case MaxEventCountExceeded => e == cfg.limits.maxEventCount
    case Terminated => e < cfg.limits.maxEventCount && |final.tape| <= 8
    case TimeConstraintExceeded => running && e % EVENTS_PER_CLOCK_CHECK == 0
    case MaxTapeLengthExceeded => running && Peak(cfg, init, e) > cfg.limits.maxTapeLength
    case ReachedExplicitCheckpoint => searching && final in cfg.checkpoints.states
    case ReachedAutomaticCheckpoint =>
      searching && final !in cfg.checkpoints.states && SeenBy(cfg, inits, es + [e], |es|, final)
    case ReachedPreviousInitCheckpoint =>
      searching && final !in cfg.checkpoints.states && exists j :: 0 <= j < |es| && SeenBy(cfg, inits, es, j, final)
  }

  /** The result of init |es|, the earlier inits having run for es events: it is the
      single-event machine after eventCount events, at the first boundary where something
      stops the run. */
  ghost predicate Outcome(cfg: Config, inits: seq<TagState>, es: seq<nat>, r: EvaluationResult)
    requires cfg.rule.Valid()
  {
    && |es| < |inits|
    && var init, e := inits[|es|], r.eventCount;
    && e % cfg.rule.K() == 0 && e <= cfg.limits.maxEventCount
    && r.finalState == cfg.At(init, e)
    && r.maxIntermediateTapeLength == Peak(cfg, init, e)
    && (forall t :: 0 <= t < e && t % cfg.rule.K() == 0 ==> Continues(cfg, inits, es, t))
    && Stops(cfg, inits, es, e, r.conclusionReason)
  }

  function EventCounts(results: seq<EvaluationResult>): (es: seq<nat>)
    ensures |es| == |results|
    ensures forall i :: 0 <= i < |es| ==> es[i] == results[i].eventCount
  {
    seq(|results|, i requires 0 <= i < |results| => results[i].eventCount)
  }

  /** The results of the first inits of a call. */
  ghost predicate JustifiedSoFar(cfg: Config, inits: seq<TagState>, results: seq<EvaluationResult>) {
    && cfg.Valid() && |results| <= |inits|
    && (forall i :: 0 <= i < |results| ==> Outcome(cfg, inits, EventCounts(results[..i]), results[i]))
    && TimeOut(results)
  }

  /** All results of one call. */
  ghost predicate Justified(cfg: Config, inits: seq<TagState>, results: seq<EvaluationResult>) {
    JustifiedSoFar(cfg, inits, results) && |results| == |inits|
  }

  predicate Late(r: EvaluationResult) {
    r.conclusionReason == TimeConstraintExceeded || r.conclusionReason == NotEvaluated
  }

  /** Once the time is up, no later init is evaluated. */
  ghost predicate TimeOut(results: seq<EvaluationResult>) {
    forall i, j :: 0 <= i < j < |results| && Late(results[i]) ==> results[j].conclusionReason == NotEvaluated
  }

  // ---------- the shared trie, read as a set of known states ----------

  /** Exactly the known states are keys; an explicit checkpoint has value -1, any other
      value is the index of an init that was in that state. */
  ghost predicate TrieFor(cfg: Config, inits: seq<TagState>, es: seq<nat>, contents: map<Chunked, int>)
    requires cfg.rule.Valid()
  {
    forall s: TagState ::
      && (ChunkedFrom(s) in contents <==> Known(cfg, inits, es, s))
      && (ChunkedFrom(s) in contents ==>
            if s in cfg.checkpoints.states then contents[ChunkedFrom(s)] == EXPLICIT_CHECKPOINT
            else SeenBy(cfg, inits, es, contents[ChunkedFrom(s)], s))
  }

  lemma ChunkedFromInjective(a: TagState, b: TagState)
    requires ChunkedFrom(a) == ChunkedFrom(b)
    ensures a == b
  {
    PackTapeCorrect(a);
    PackTapeCorrect(b);
  }

  /** One more boundary extends what the current init has seen by at most that state. */
  lemma SeenNext(cfg: Config, init: TagState, e: nat, e': nat, s: TagState)
    requires cfg.Valid() && e % cfg.rule.K() == 0 && e' == e + cfg.rule.K() <= cfg.limits.maxEventCount
    ensures SeenWithin(cfg, init, e', s) <==>
              SeenWithin(cfg, init, e, s) || (Scheduled(cfg.checkpoints.flags, e) && cfg.At(init, e) == s)
  {
    hide Scheduled, Run;
    if t: nat :| Seen(cfg, init, e', t, s) {
      SameBoundary(t, e, cfg.rule.K());
      if t < e { assert Seen(cfg, init, e, t, s); }
    }
    if t: nat :| Seen(cfg, init, e, t, s) { assert Seen(cfg, init, e', t, s); }
    if Scheduled(cfg.checkpoints.flags, e) && cfg.At(init, e) == s { assert Seen(cfg, init, e', e, s); }
  }

  lemma SameBoundary(t: nat, e: nat, k: nat)
    requires (k == 4 || k == 8) && t % k == 0 && e % k == 0 && t < e + k
    ensures t <= e
  {
    if k == 4 {} else {}
  }

  lemma SeenByNext(cfg: Config, inits: seq<TagState>, es: seq<nat>, e: nat, j: int, s: TagState)
    requires cfg.Valid() && |es| < |inits| && e % cfg.rule.K() == 0 && e + cfg.rule.K() <= cfg.limits.maxEventCount
    ensures SeenBy(cfg, inits, es + [e + cfg.rule.K()], j, s) <==>
              SeenBy(cfg, inits, es + [e], j, s)
              || (j == |es| && Scheduled(cfg.checkpoints.flags, e) && cfg.At(inits[|es|], e) == s)
  {
    hide SeenWithin, Scheduled, Run;
    if 0 <= j < |es| {
      assert (es + [e])[j] == es[j] == (es + [e + cfg.rule.K()])[j];
    } else if j == |es| {
      SeenNext(cfg, inits[j], e, e + cfg.rule.K(), s);
    }
  }

  lemma KnownNext(cfg: Config, inits: seq<TagState>, es: seq<nat>, e: nat, s: TagState)
    requires cfg.Valid() && |es| < |inits| && e % cfg.rule.K() == 0 && e + cfg.rule.K() <= cfg.limits.maxEventCount
    ensures Known(cfg, inits, es + [e + cfg.rule.K()], s) <==>
              Known(cfg, inits, es + [e], s) || (Scheduled(cfg.checkpoints.flags, e) && cfg.At(inits[|es|], e) == s)
  {
    hide SeenBy, Scheduled, Run;
    var added := Scheduled(cfg.checkpoints.flags, e) && cfg.At(inits[|es|], e) == s;
    var later := es + [e + cfg.rule.K()];
    if j :| SeenBy(cfg, inits, later, j, s) { SeenByNext(cfg, inits, es, e, j, s); }
    if j :| SeenBy(cfg, inits, es + [e], j, s) { SeenByNext(cfg, inits, es, e, j, s); }
    if added { SeenByNext(cfg, inits, es, e, |es|, s); }
  }

  /** Inserting the scheduled state keeps the trie in step with the run. */
  lemma TrieNext(cfg: Config, inits: seq<TagState>, es: seq<nat>, e: nat, contents: map<Chunked, int>)
    requires cfg.Valid() && |es| < |inits| && e % cfg.rule.K() == 0 && e + cfg.rule.K() <= cfg.limits.maxEventCount
    requires TrieFor(cfg, inits, es + [e], contents)
    requires !Known(cfg, inits, es + [e], cfg.At(inits[|es|], e))
    ensures var key := ChunkedFrom(cfg.At(inits[|es|], e));
            TrieFor(cfg, inits, es + [e + cfg.rule.K()],
                    if Scheduled(cfg.checkpoints.flags, e) then InsertFirst(contents, key, |es|) else contents)
  {
    hide SeenBy, Known, Scheduled, Run, ChunkedFrom;
    var now := cfg.At(inits[|es|], e);
    NotKnownNotExplicit(cfg, inits, es + [e], now);
    var key := ChunkedFrom(now);
    var contents' := if Scheduled(cfg.checkpoints.flags, e) then InsertFirst(contents, key, |es|) else contents;
    forall s: TagState
      ensures ChunkedFrom(s) in contents' <==> Known(cfg, inits, es + [e + cfg.rule.K()], s)
      ensures ChunkedFrom(s) in contents' ==>
                if s in cfg.checkpoints.states then contents'[ChunkedFrom(s)] == EXPLICIT_CHECKPOINT
                else SeenBy(cfg, inits, es + [e + cfg.rule.K()], contents'[ChunkedFrom(s)], s)
    {
      KnownNext(cfg, inits, es, e, s);
      if ChunkedFrom(s) == key { ChunkedFromInjective(s, now); }
      if ChunkedFrom(s) in contents' { SeenByNext(cfg, inits, es, e, contents'[ChunkedFrom(s)], s); }
    }
  }

  lemma NotKnownNotExplicit(cfg: Config, inits: seq<TagState>, es: seq<nat>, s: TagState)
    requires cfg.rule.Valid() && !Known(cfg, inits, es, s)
    ensures s !in cfg.checkpoints.states
  {}

  /** An init that has not run yet has seen nothing. */
  lemma TrieStart(cfg: Config, inits: seq<TagState>, es: seq<nat>, contents: map<Chunked, int>)
    requires cfg.rule.Valid() && |es| < |inits|
    requires TrieFor(cfg, inits, es, contents)
    ensures TrieFor(cfg, inits, es + [0], contents)
  {
    hide ChunkedFrom;
    forall j: int, s: TagState
      ensures SeenBy(cfg, inits, es + [0], j, s) <==> SeenBy(cfg, inits, es, j, s)
    {
      if 0 <= j < |es| { assert (es + [0])[j] == es[j]; }
    }
    hide SeenBy;
    forall s: TagState
      ensures Known(cfg, inits, es + [0], s) <==> Known(cfg, inits, es, s)
    {
      if j :| SeenBy(cfg, inits, es, j, s) { assert SeenBy(cfg, inits, es + [0], j, s); }
    }
  }

  // ---------- the loop over one init ----------

  /** The run of init |es| has reached boundary e without being stopped. */
  ghost predicate Progress(cfg: Config, inits: seq<TagState>, es: seq<nat>, e: nat, peak: nat, now: Chunked, contents: map<Chunked, int>) {
    && cfg.Valid() && |es| < |inits| && e % cfg.rule.K() == 0 && e <= cfg.limits.maxEventCount
    && now == ChunkedFrom(cfg.At(inits[|es|], e))
    && Admissible(cfg.rule, cfg.At(inits[|es|], e))
    && peak == Peak(cfg, inits[|es|], e)
    && TrieFor(cfg, inits, es + [e], contents)
    && forall t :: 0 <= t < e && t % cfg.rule.K() == 0 ==> Continues(cfg, inits, es, t)
  }

  lemma ProgressStart(cfg: Config, inits: seq<TagState>, es: seq<nat>, contents: map<Chunked, int>)
    requires cfg.Valid() && |es| < |inits| && Admissible(cfg.rule, inits[|es|])
    requires TrieFor(cfg, inits, es, contents)
    ensures var now := ChunkedFrom(inits[|es|]);
            Progress(cfg, inits, es, 0, TapeLength(now), now, contents)
  {
    hide TrieFor, ChunkedFrom;
    TrieStart(cfg, inits, es, contents);
    PackTapeCorrect(inits[|es|]);
    TapeLengthIsLength(ChunkedFrom(inits[|es|]));
  }

  lemma ProgressFacts(cfg: Config, inits: seq<TagState>, es: seq<nat>, e: nat, peak: nat, now: Chunked, contents: map<Chunked, int>)
    requires Progress(cfg, inits, es, e, peak, now, contents)
    ensures Canonical(now) && ToTagState(now) == cfg.At(inits[|es|], e)
    ensures |now.chunks| > 1 <==> |cfg.At(inits[|es|], e).tape| > 8
    ensures |now.chunks| > 1 ==> now.phase < cfg.rule.phaseCount
    ensures now in contents <==> Known(cfg, inits, es + [e], cfg.At(inits[|es|], e))
  {
    hide Run, Known, Continues, ChunkedFrom, Canonical, ToTagState, TapeLength;
    PackTapeCorrect(cfg.At(inits[|es|], e));
    TapeLengthIsLength(now);
    assert ToTagState(now).tape == Tape(now) && ToTagState(now).headState == now.phase by { ToTagStateParts(now); }
  }

  lemma ToTagStateParts(c: Chunked)
    ensures ToTagState(c).tape == Tape(c) && ToTagState(c).headState == c.phase
  {}

  lemma ContinuesNow(cfg: Config, inits: seq<TagState>, es: seq<nat>, e: nat, peak: nat, now: Chunked, contents: map<Chunked, int>)
    requires Progress(cfg, inits, es, e, peak, now, contents)
    requires e < cfg.limits.maxEventCount && |now.chunks| > 1 && peak <= cfg.limits.maxTapeLength && now !in contents
    ensures Continues(cfg, inits, es, e)
    ensures e + cfg.rule.K() <= cfg.limits.maxEventCount
  {
    hide Known, TrieFor;
    ProgressFacts(cfg, inits, es, e, peak, now, contents);
    SameBoundary(e, cfg.limits.maxEventCount, cfg.rule.K());
    NextBoundary(e, cfg.limits.maxEventCount, cfg.rule.K());
  }

  lemma NextBoundary(e: nat, max: nat, k: nat)
    requires (k == 4 || k == 8) && e % k == 0 && max % k == 0 && e < max
    ensures e + k <= max
  {
    if k == 4 {} else {}
  }

  /** One table lookup moves the packed state to the next boundary of the orbit. */
  lemma StateNext(cfg: Config, init: TagState, e: nat, now: Chunked, next: Chunked)
    requires cfg.rule.Valid() && ToTagState(now) == cfg.At(init, e)
    requires Canonical(next) && ToTagState(next) == Run(cfg.rule, ToTagState(now), cfg.rule.K()) && next.phase < cfg.rule.phaseCount
    ensures next == ChunkedFrom(cfg.At(init, e + cfg.rule.K()))
    ensures Admissible(cfg.rule, cfg.At(init, e + cfg.rule.K()))
    ensures Peak(cfg, init, e + cfg.rule.K()) == Max(Peak(cfg, init, e), TapeLength(next))
  {
    hide ChunkedFrom, Canonical, Run, TapeLength, Tape;
    RunAdd(cfg.rule, init, e, cfg.rule.K());
    CanonicalUnique(next);
    TapeLengthIsLength(next);
  }

  lemma ContinuesUpTo(cfg: Config, inits: seq<TagState>, es: seq<nat>, e: nat)
    requires cfg.Valid() && |es| < |inits| && e % cfg.rule.K() == 0 && Continues(cfg, inits, es, e)
    requires forall t :: 0 <= t < e && t % cfg.rule.K() == 0 ==> Continues(cfg, inits, es, t)
    ensures forall t :: 0 <= t < e + cfg.rule.K() && t % cfg.rule.K() == 0 ==> Continues(cfg, inits, es, t)
    ensures (e + cfg.rule.K()) % cfg.rule.K() == 0
  {
    hide Continues;
    forall t | 0 <= t < e + cfg.rule.K() && t % cfg.rule.K() == 0
      ensures Continues(cfg, inits, es, t)
    {
      SameBoundary(t, e, cfg.rule.K());
    }
  }

  /** One round of the loop. */
  lemma ProgressStep(cfg: Config, inits: seq<TagState>, es: seq<nat>, e: nat, peak: nat, now: Chunked, contents: map<Chunked, int>, next: Chunked)
    requires Progress(cfg, inits, es, e, peak, now, contents)
    requires e < cfg.limits.maxEventCount && |now.chunks| > 1 && peak <= cfg.limits.maxTapeLength && now !in contents
    requires Canonical(next) && ToTagState(next) == Run(cfg.rule, ToTagState(now), cfg.rule.K()) && next.phase < cfg.rule.phaseCount
    ensures e + cfg.rule.K() <= cfg.limits.maxEventCount
    ensures Progress(cfg, inits, es, e + cfg.rule.K(), Max(peak, TapeLength(next)), next,
                     if Scheduled(cfg.checkpoints.flags, e) then InsertFirst(contents, now, |es|) else contents)
  {
    hide TrieFor, Known, Continues, ChunkedFrom, Canonical, ToTagState, Run, TapeLength, Scheduled, Peak, Max, InsertFirst, Admissible;
    ProgressFacts(cfg, inits, es, e, peak, now, contents);
    ContinuesNow(cfg, inits, es, e, peak, now, contents);
    TrieNext(cfg, inits, es, e, contents);
    StateNext(cfg, inits[|es|], e, now, next);
    ContinuesUpTo(cfg, inits, es, e);
  }

  /** Everything the loop can report is justified. */
  lemma ProgressStops(cfg: Config, inits: seq<TagState>, es: seq<nat>, e: nat, peak: nat, now: Chunked, contents: map<Chunked, int>, reason: ConclusionReason)
    requires Progress(cfg, inits, es, e, peak, now, contents)
    requires Stops(cfg, inits, es, e, reason)
    ensures Outcome(cfg, inits, es, EvaluationResult(reason, ToTagState(now), e, peak))
  {
    ProgressFacts(cfg, inits, es, e, peak, now, contents);
  }

  /** What a hit in the trie means. */
  lemma HitMeans(cfg: Config, inits: seq<TagState>, es: seq<nat>, e: nat, peak: nat, now: Chunked, contents: map<Chunked, int>)
    requires Progress(cfg, inits, es, e, peak, now, contents)
    requires e < cfg.limits.maxEventCount && |now.chunks| > 1 && peak <= cfg.limits.maxTapeLength && now in contents
    ensures Stops(cfg, inits, es, e,
                  if contents[now] == EXPLICIT_CHECKPOINT then ReachedExplicitCheckpoint
                  else if contents[now] == |es| then ReachedAutomaticCheckpoint
                  else ReachedPreviousInitCheckpoint)
  {
    hide Run, SeenWithin, Continues, ChunkedFrom, Canonical, ToTagState;
    ProgressFacts(cfg, inits, es, e, peak, now, contents);
    var v := contents[now];
    if v != EXPLICIT_CHECKPOINT && v != |es| {
      assert (es + [e])[v] == es[v];
      assert SeenBy(cfg, inits, es, v, cfg.At(inits[|es|], e));
    }
  }

  // ---------- looking at the clock ----------

  /** std::chrono::steady_clock against the deadline: an arbitrary answer that never goes
      back from late to early. Every answer given is on record. */
  class Clock {
    var late: bool
    ghost var looks: seq<bool>

    constructor ()
      ensures looks == []
    {
      late, looks := *, [];
    }

    method IsPastDeadline() returns (past: bool)
      modifies this
      ensures past == late && (old(late) ==> late)
      ensures looks == old(looks) + [past]
    {
      if !late { late := *; }
      past := late;
      looks := looks + [past];
    }
  }

  predicate Due(cfg: Config, t: nat)
    requires cfg.rule.Valid()
  {
    t % cfg.rule.K() == 0 && t % EVENTS_PER_CLOCK_CHECK == 0
  }

  /** The boundaries up to event e at which a run looks at the clock: every 1000 events, while
      there are events left and more than 8 cells. */
  ghost function ClockChecks(cfg: Config, init: TagState, e: nat): set<nat>
    requires cfg.rule.Valid()
  {
    set t: nat | 0 <= t <= e && Due(cfg, t) && t < cfg.limits.maxEventCount && |cfg.At(init, t).tape| > 8
  }

  function OnTime(n: nat): (answers: seq<bool>)
    ensures |answers| == n
  {
    seq(n, _ => false)
  }

  /** What the clock answered during the run with this result: it was asked once at the start
      and, unless it was late then, at each of the checks; only the last answer can be that
      it is late, and then that ended the run. */
  ghost function Answers(cfg: Config, init: TagState, r: EvaluationResult): seq<bool>
    requires cfg.rule.Valid()
  {
    OnTime(if r.conclusionReason == NotEvaluated then 0 else |ClockChecks(cfg, init, r.eventCount)|) + [Late(r)]
  }

  /** The answers during the first runs of a call. */
  ghost function AllAnswers(cfg: Config, inits: seq<TagState>, results: seq<EvaluationResult>): seq<bool>
    requires cfg.rule.Valid() && |results| <= |inits|
  {
    if results == [] then []
    else
      var n := |results| - 1;
      AllAnswers(cfg, inits, results[..n]) + Answers(cfg, inits[n], results[n])
  }

  /** The checks strictly before event e, on a run that has come that far. */
  ghost function ChecksBefore(cfg: Config, e: nat): set<nat>
    requires cfg.rule.Valid()
  {
    set t: nat | 0 <= t < e && Due(cfg, t)
  }

  lemma ChecksStart(cfg: Config)
    requires cfg.rule.Valid()
    ensures ChecksBefore(cfg, 0) == {}
  {}

  lemma ChecksNext(cfg: Config, e: nat)
    requires cfg.rule.Valid() && e % cfg.rule.K() == 0
    ensures |ChecksBefore(cfg, e + cfg.rule.K())| == |ChecksBefore(cfg, e)| + (if e % 1000 == 0 then 1 else 0)
  {
    hide ChunkedRule.K, ChunkedRule.Valid, Due;
    forall t: nat | t < e + cfg.rule.K() && Due(cfg, t)
      ensures t <= e
    {
      DueBoundary(cfg, t, e);
    }
    DueNow(cfg, e);
    if e % 1000 == 0 {
      assert ChecksBefore(cfg, e + cfg.rule.K()) == ChecksBefore(cfg, e) + {e};
    } else {
      assert ChecksBefore(cfg, e + cfg.rule.K()) == ChecksBefore(cfg, e);
    }
  }

  lemma DueBoundary(cfg: Config, t: nat, e: nat)
    requires cfg.rule.Valid() && Due(cfg, t) && e % cfg.rule.K() == 0 && t < e + cfg.rule.K()
    ensures t <= e && t % cfg.rule.K() == 0
  {
    hide ChunkedRule.K, ChunkedRule.Valid;
    SameBoundary(t, e, cfg.rule.K());
  }

  lemma DueNow(cfg: Config, e: nat)
    requires cfg.rule.Valid() && e % cfg.rule.K() == 0
    ensures Due(cfg, e) <==> e % 1000 == 0
  {}

  /** The record of one run, spelled out: the clock was asked once at the start and, unless the
      init was not evaluated, once at every boundary reached that is a multiple of 1000 events
      with events left and more than 8 cells; only the last answer can have been that the
      deadline is past, and it was exactly if the run ended for that reason. */
  lemma LooksAtTheClock(cfg: Config, init: TagState, r: EvaluationResult, checks: set<nat>)
    requires cfg.rule.Valid()
    requires checks == set t: nat | 0 <= t <= r.eventCount && t % cfg.rule.K() == 0 && t % 1000 == 0
                                    && t < cfg.limits.maxEventCount && |Run(cfg.rule, init, t).tape| > 8
    ensures var answers := Answers(cfg, init, r);
            && |answers| == 1 + (if r.conclusionReason == NotEvaluated then 0 else |checks|)
            && (forall k :: 0 <= k < |answers| - 1 ==> !answers[k])
            && (answers[|answers| - 1] <==> r.conclusionReason == NotEvaluated || r.conclusionReason == TimeConstraintExceeded)
  {
    hide Run, ChunkedRule.K;
    assert ClockChecks(cfg, init, r.eventCount) == checks;
  }

  /** A run that has come to event e has been told to be on time at the start and at every
      check before e. */
  ghost predicate OnRecord(cfg: Config, e: nat, start: seq<bool>, looks: seq<bool>)
    requires cfg.rule.Valid()
  {
    looks == start + OnTime(|ChecksBefore(cfg, e)| + 1)
  }

  lemma RecordStart(cfg: Config, init: TagState, r: EvaluationResult, start: seq<bool>, looks: seq<bool>, past: bool)
    requires cfg.rule.Valid() && looks == start + [past]
    ensures !past ==> OnRecord(cfg, 0, start, looks)
    ensures past && r.conclusionReason == NotEvaluated ==> looks == start + Answers(cfg, init, r)
  {
    hide Due, ClockChecks;
    ChecksStart(cfg);
    assert OnTime(1) == [false] && OnTime(0) + [true] == [true];
  }

  lemma RecordNext(cfg: Config, e: nat, start: seq<bool>, before: seq<bool>, looks: seq<bool>)
    requires cfg.rule.Valid() && e % cfg.rule.K() == 0 && OnRecord(cfg, e, start, before)
    requires looks == before + if e % 1000 == 0 then [false] else []
    ensures OnRecord(cfg, e + cfg.rule.K(), start, looks)
  {
    hide ChecksBefore, ChunkedRule.K;
    ChecksNext(cfg, e);
    OneMore(start, |ChecksBefore(cfg, e)| + 1);
  }

  lemma OneMore(start: seq<bool>, n: nat)
    ensures start + OnTime(n) + [false] == start + OnTime(n + 1)
  {
    assert OnTime(n + 1) == OnTime(n) + [false];
  }

  lemma RecordStop(cfg: Config, inits: seq<TagState>, es: seq<nat>, peak: nat, now: Chunked, contents: map<Chunked, int>,
                   r: EvaluationResult, start: seq<bool>, before: seq<bool>, looks: seq<bool>)
    requires Progress(cfg, inits, es, r.eventCount, peak, now, contents) && OnRecord(cfg, r.eventCount, start, before)
    requires r.conclusionReason != NotEvaluated
    requires var e := r.eventCount;
             looks == before + if e % 1000 == 0 && e < cfg.limits.maxEventCount && |now.chunks| > 1 then [Late(r)] else []
    requires Late(r) ==> looks != before
    ensures looks == start + Answers(cfg, inits[|es|], r)
  {
    var n := |ChecksBefore(cfg, r.eventCount)|;
    ChecksAtStop(cfg, inits, es, r.eventCount, peak, now, contents);
    hide Progress, ChecksBefore, ClockChecks;
    assert OnTime(n + 1) == OnTime(n) + [false];
    assert start + OnTime(n + 1) + [Late(r)] == start + (OnTime(n + 1) + [Late(r)]);
  }

  /** All checks of a run that stopped at e: those before it, and e itself if it is due there
      and the run was not over. */
  lemma ChecksAtStop(cfg: Config, inits: seq<TagState>, es: seq<nat>, e: nat, peak: nat, now: Chunked, contents: map<Chunked, int>)
    requires Progress(cfg, inits, es, e, peak, now, contents)
    ensures |ClockChecks(cfg, inits[|es|], e)| == |ChecksBefore(cfg, e)| +
              (if e % 1000 == 0 && e < cfg.limits.maxEventCount && |now.chunks| > 1 then 1 else 0)
  {
    hide Run, Known, TrieFor, Peak, ChunkedFrom, Canonical, ToTagState, Admissible, ChunkedRule.K;
    ProgressFacts(cfg, inits, es, e, peak, now, contents);
    var checks, before := ClockChecks(cfg, inits[|es|], e), ChecksBefore(cfg, e);
    forall t | t in before ensures t in checks { assert Continues(cfg, inits, es, t); }
    hide Continues, Progress;
    BoundaryNow(cfg, inits, es, e, peak, now, contents);
    DueNow(cfg, e);
    if e % 1000 == 0 && e < cfg.limits.maxEventCount && |now.chunks| > 1 {
      assert checks == before + {e};
    } else {
      assert checks == before;
    }
  }

  lemma BoundaryNow(cfg: Config, inits: seq<TagState>, es: seq<nat>, e: nat, peak: nat, now: Chunked, contents: map<Chunked, int>)
    requires Progress(cfg, inits, es, e, peak, now, contents)
    ensures e % cfg.rule.K() == 0
  {}

  /** The first look alone decides whether an init is evaluated at all. */
  lemma FirstLookDecides(cfg: Config, inits: seq<TagState>, es: seq<nat>, r: EvaluationResult)
    requires cfg.Valid() && Outcome(cfg, inits, es, r)
    ensures Answers(cfg, inits[|es|], r)[0] <==> r.conclusionReason == NotEvaluated
  {
    hide Run, Continues, Peak, Known;
    if r.conclusionReason == TimeConstraintExceeded {
      assert r.eventCount in ClockChecks(cfg, inits[|es|], r.eventCount);
    }
  }

  /** The checks at the top of a round: clock, tape length, trie, in this order. */
  method CheckStops(ghost cfg: Config, ghost inits: seq<TagState>, ghost es: seq<nat>,
                    state: Chunked, eventCount: nat, index: nat, limits: EvaluationLimits,
                    clock: Clock, checkpoints: CheckpointsTrie, maxIntermediateTapeLength: nat)
    returns (stop: Option<ConclusionReason>)
    requires cfg.limits == limits && index == |es| && checkpoints.Valid() && !clock.late
    requires Progress(cfg, inits, es, eventCount, maxIntermediateTapeLength, state, checkpoints.contents)
    requires eventCount < limits.maxEventCount && |state.chunks| > 1
    modifies clock
    ensures stop.Some? ==> Outcome(cfg, inits, es, EvaluationResult(stop.value, ToTagState(state), eventCount, maxIntermediateTapeLength))
    ensures stop != Some(NotEvaluated)
    ensures clock.late <==> stop == Some(TimeConstraintExceeded)
    ensures clock.looks == old(clock.looks) + if eventCount % 1000 == 0 then [clock.late] else []
    ensures clock.late ==> eventCount % 1000 == 0
    ensures stop == None ==> maxIntermediateTapeLength <= limits.maxTapeLength && state !in checkpoints.contents
  {
    hide Progress, Outcome, Stops, ToTagState;
    ProgressEnds(cfg, inits, es, eventCount, maxIntermediateTapeLength, state, checkpoints.contents);
    if eventCount % EVENTS_PER_CLOCK_CHECK == 0 {
      var past := clock.IsPastDeadline();
      if past { return Some(TimeConstraintExceeded); }
    }
    if maxIntermediateTapeLength > limits.maxTapeLength { return Some(MaxTapeLengthExceeded); }
    var foundCheckpoint := checkpoints.FindValue(state);
    if foundCheckpoint == None { return None; }
    HitMeans(cfg, inits, es, eventCount, maxIntermediateTapeLength, state, checkpoints.contents);
    var reason :=
      if foundCheckpoint.value == EXPLICIT_CHECKPOINT then ReachedExplicitCheckpoint
      else if foundCheckpoint.value == index then ReachedAutomaticCheckpoint
      else ReachedPreviousInitCheckpoint;
    ProgressStops(cfg, inits, es, eventCount, maxIntermediateTapeLength, state, checkpoints.contents, reason);
    return Some(reason);
  }

  /** The rest of a round: leave a checkpoint if one is due, then evaluate one chunk. */
  method Advance(ghost cfg: Config, ghost inits: seq<TagState>, ghost es: seq<nat>,
                 table: ChunkEvaluationTable, state: ChunkedState, eventCount: UInt64, index: nat,
                 checkpoints: CheckpointsTrie, flags: AutomaticCheckpointParameters, ghost peak: nat)
    requires IsTable(cfg.rule, table) && cfg.checkpoints.flags == flags && index == |es| && checkpoints.Valid()
    requires Progress(cfg, inits, es, eventCount, peak, state.Snapshot(), checkpoints.contents)
    requires eventCount < cfg.limits.maxEventCount && |state.chunks| > 1
    requires peak <= cfg.limits.maxTapeLength && state.Snapshot() !in checkpoints.contents
    modifies state, checkpoints
    ensures checkpoints.Valid() && cfg.rule.Valid()
    ensures eventCount + cfg.rule.K() <= cfg.limits.maxEventCount
    ensures Progress(cfg, inits, es, eventCount + cfg.rule.K(), Max(peak, TapeLength(state.Snapshot())), state.Snapshot(), checkpoints.contents)
  {
    hide Progress, Canonical, ToTagState, Scheduled, TapeLength, InsertFirst, Run, Max;
    ghost var now, contents := state.Snapshot(), checkpoints.contents;
    ProgressFacts(cfg, inits, es, eventCount, peak, now, contents);
    if Scheduled(flags, eventCount) {
      var _ := checkpoints.Insert(state.Snapshot(), index);
    }
    state.EvaluateOnce(cfg.rule, table);
    ProgressStep(cfg, inits, es, eventCount, peak, now, contents, state.Snapshot());
  }

  /** The inner evaluate: runs one init until something stops it. */
  method EvaluateState(ghost cfg: Config, ghost inits: seq<TagState>, ghost es: seq<nat>,
                       table: ChunkEvaluationTable, state: ChunkedState, index: nat, limits: EvaluationLimits,
                       clock: Clock, checkpoints: CheckpointsTrie, flags: AutomaticCheckpointParameters,
                       initialTapeLength: nat)
    returns (eventCount: nat, conclusionReason: ConclusionReason, maxIntermediateTapeLength: nat)
    requires IsTable(cfg.rule, table) && cfg.limits == limits && cfg.checkpoints.flags == flags && index == |es|
    requires checkpoints.Valid()
    requires Progress(cfg, inits, es, 0, initialTapeLength, state.Snapshot(), checkpoints.contents)
    modifies state, clock, checkpoints
    ensures checkpoints.Valid() && cfg.rule.Valid()
    ensures |es| < |inits| && Canonical(state.Snapshot())
    ensures Outcome(cfg, inits, es, EvaluationResult(conclusionReason, ToTagState(state.Snapshot()), eventCount, maxIntermediateTapeLength))
    ensures TrieFor(cfg, inits, es + [eventCount], checkpoints.contents)
    ensures old(clock.late) ==> conclusionReason == NotEvaluated
    ensures clock.late <==> conclusionReason == TimeConstraintExceeded || conclusionReason == NotEvaluated
    ensures clock.looks == old(clock.looks) +
              Answers(cfg, inits[|es|], EvaluationResult(conclusionReason, ToTagState(state.Snapshot()), eventCount, maxIntermediateTapeLength))
  {
    hide Progress, Outcome, TrieFor, Canonical, ToTagState, TapeLength, Max, IsTable, Agrees, Config.Valid, ChunkedRule.Valid;
    hide ChunkedRule.K, Answers, OnRecord;
    TableStep(cfg, table);
    maxIntermediateTapeLength := initialTapeLength;
    eventCount := 0;
    ghost var start := clock.looks;
    ProgressEnds(cfg, inits, es, 0, maxIntermediateTapeLength, state.Snapshot(), checkpoints.contents);
    var past := clock.IsPastDeadline();
    RecordStart(cfg, inits[|es|], EvaluationResult(NotEvaluated, ToTagState(state.Snapshot()), 0, initialTapeLength), start, clock.looks, past);
    if past {
      conclusionReason := NotEvaluated;
      return;
    }
    while eventCount < limits.maxEventCount && |state.chunks| > 1
      invariant checkpoints.Valid() && !clock.late
      invariant Progress(cfg, inits, es, eventCount, maxIntermediateTapeLength, state.Snapshot(), checkpoints.contents)
      invariant eventCount <= limits.maxEventCount
      invariant OnRecord(cfg, eventCount, start, clock.looks)
      decreases limits.maxEventCount - eventCount
    {
      ghost var before := clock.looks;
      var stop := CheckStops(cfg, inits, es, state.Snapshot(), eventCount, index, limits, clock, checkpoints, maxIntermediateTapeLength);
      if stop.Some? {
        conclusionReason := stop.value;
        ProgressEnds(cfg, inits, es, eventCount, maxIntermediateTapeLength, state.Snapshot(), checkpoints.contents);
        RecordStop(cfg, inits, es, maxIntermediateTapeLength, state.Snapshot(), checkpoints.contents,
                   EvaluationResult(conclusionReason, ToTagState(state.Snapshot()), eventCount, maxIntermediateTapeLength),
                   start, before, clock.looks);
        return;
      }
      BoundaryNow(cfg, inits, es, eventCount, maxIntermediateTapeLength, state.Snapshot(), checkpoints.contents);
      RecordNext(cfg, eventCount, start, before, clock.looks);
      Advance(cfg, inits, es, table, state, eventCount, index, checkpoints, flags, maxIntermediateTapeLength);
      maxIntermediateTapeLength := Max(maxIntermediateTapeLength, TapeLength(state.Snapshot()));
      eventCount := (eventCount + table.eventsAtOnce) % TWO_TO_THE_64;
    }
    ProgressEnds(cfg, inits, es, eventCount, maxIntermediateTapeLength, state.Snapshot(), checkpoints.contents);
    if eventCount == limits.maxEventCount {
      conclusionReason := MaxEventCountExceeded;
    } else {
      conclusionReason := Terminated;
    }
    RecordStop(cfg, inits, es, maxIntermediateTapeLength, state.Snapshot(), checkpoints.contents,
               EvaluationResult(conclusionReason, ToTagState(state.Snapshot()), eventCount, maxIntermediateTapeLength),
               start, clock.looks, clock.looks);
  }

  lemma TableStep(cfg: Config, table: ChunkEvaluationTable)
    requires IsTable(cfg.rule, table)
    ensures cfg.rule.Valid() && table.eventsAtOnce == cfg.rule.K()
  {}

  /** The reports that do not depend on the trie. */
  lemma ProgressEnds(cfg: Config, inits: seq<TagState>, es: seq<nat>, e: nat, peak: nat, now: Chunked, contents: map<Chunked, int>)
    requires Progress(cfg, inits, es, e, peak, now, contents)
    ensures |es| < |inits| && Canonical(now) && cfg.Valid() && TrieFor(cfg, inits, es + [e], contents)
    ensures |now.chunks| > 1 ==> now.phase < cfg.rule.phaseCount
    ensures var r := EvaluationResult(NotEvaluated, ToTagState(now), e, peak);
            && (e == 0 ==> Outcome(cfg, inits, es, r))
            && (e == cfg.limits.maxEventCount ==> Outcome(cfg, inits, es, r.(conclusionReason := MaxEventCountExceeded)))
            && (e < cfg.limits.maxEventCount && |now.chunks| <= 1 ==> Outcome(cfg, inits, es, r.(conclusionReason := Terminated)))
            && (e < cfg.limits.maxEventCount && |now.chunks| > 1 && e % EVENTS_PER_CLOCK_CHECK == 0 ==>
                  Outcome(cfg, inits, es, r.(conclusionReason := TimeConstraintExceeded)))
            && (e < cfg.limits.maxEventCount && |now.chunks| > 1 && peak > cfg.limits.maxTapeLength ==>
                  Outcome(cfg, inits, es, r.(conclusionReason := MaxTapeLengthExceeded)))
  {
    hide Run, Known, Continues, ChunkedFrom, Canonical, ToTagState, TrieFor;
    ProgressFacts(cfg, inits, es, e, peak, now, contents);
  }

  // ---------- the loop over all inits of a call ----------

  lemma JustifiedNext(cfg: Config, inits: seq<TagState>, results: seq<EvaluationResult>, r: EvaluationResult)
    requires JustifiedSoFar(cfg, inits, results) && Outcome(cfg, inits, EventCounts(results), r)
    requires (exists i :: 0 <= i < |results| && Late(results[i])) ==> r.conclusionReason == NotEvaluated
    ensures JustifiedSoFar(cfg, inits, results + [r])
    ensures EventCounts(results + [r]) == EventCounts(results) + [r.eventCount]
  {
    assert |EventCounts(results)| < |inits| by { OutcomeIndex(cfg, inits, EventCounts(results), r); }
    hide Outcome;
    var all := results + [r];
    forall i | 0 <= i < |all|
      ensures Outcome(cfg, inits, EventCounts(all[..i]), all[i])
    {
      if i < |results| { assert all[..i] == results[..i]; } else { assert all[..i] == results; }
    }
  }

  lemma OutcomeIndex(cfg: Config, inits: seq<TagState>, es: seq<nat>, r: EvaluationResult)
    requires cfg.rule.Valid() && Outcome(cfg, inits, es, r)
    ensures |es| < |inits|
  {}

  /** A trie holding just the given explicit checkpoints. */
  ghost predicate ExplicitTrie(states: seq<TagState>, contents: map<Chunked, int>) {
    forall s: TagState ::
      && (ChunkedFrom(s) in contents <==> s in states)
      && (ChunkedFrom(s) in contents ==> contents[ChunkedFrom(s)] == EXPLICIT_CHECKPOINT)
  }

  lemma NoCheckpoints()
    ensures ExplicitTrie([], map[])
  {}

  lemma ExplicitNext(states: seq<TagState>, contents: map<Chunked, int>, s: TagState)
    requires ExplicitTrie(states, contents)
    ensures ExplicitTrie(states + [s], InsertFirst(contents, ChunkedFrom(s), EXPLICIT_CHECKPOINT))
  {
    hide ChunkedFrom;
    forall t: TagState | ChunkedFrom(t) == ChunkedFrom(s) ensures t == s { ChunkedFromInjective(t, s); }
  }

  lemma ExplicitTrieFor(cfg: Config, inits: seq<TagState>, contents: map<Chunked, int>)
    requires cfg.rule.Valid() && ExplicitTrie(cfg.checkpoints.states, contents)
    ensures TrieFor(cfg, inits, [], contents)
  {
    hide ChunkedFrom;
  }

  class PostTagHistory {
    var evaluationTables: map<NamedRule, ChunkEvaluationTable>

    /** Every cached table belongs to its rule. */
    ghost predicate Valid()
      reads this
    {
      forall rule :: rule in evaluationTables ==> IsTable(RuleTable(rule), evaluationTables[rule])
    }

    constructor ()
      ensures Valid()
    {
      evaluationTables := map[];
    }

    method CachedTable(rule: NamedRule) returns (table: ChunkEvaluationTable)
      requires Valid()
      modifies this
      ensures Valid() && IsTable(RuleTable(rule), table)
    {
      hide IsTable, RuleTable;
      if rule !in evaluationTables {
        table := CreateChunkEvaluationTable(RuleTable(rule));
        evaluationTables := evaluationTables[rule := table];
      }
      table := evaluationTables[rule];
    }

    /** Runs all inits against one deadline and one shared trie. */
    method Evaluate(rule: NamedRule, inits: seq<TagState>, limits: EvaluationLimits, checkpointSpec: CheckpointSpec, clock: Clock)
      returns (results: seq<EvaluationResult>)
      requires Valid()
      requires forall i :: 0 <= i < |inits| ==> Admissible(RuleTable(rule), inits[i])
      modifies this, clock
      ensures Valid()
      ensures limits.maxEventCount % RuleTable(rule).K() != 0 ==>
                results == seq(|inits|, _ => EvaluationResult(InvalidInput, TagState([], 255), 0, 0))
      ensures limits.maxEventCount % RuleTable(rule).K() == 0 ==>
                Justified(Config(RuleTable(rule), limits, checkpointSpec), inits, results)
      ensures clock.looks == old(clock.looks) +
                if limits.maxEventCount % RuleTable(rule).K() == 0
                then AllAnswers(Config(RuleTable(rule), limits, checkpointSpec), inits, results) else []
    {
      hide IsTable, RuleTable, ExplicitTrie, TrieFor, JustifiedSoFar, ChunkedFrom, ChunkedRule.Valid, Outcome, Agrees, AllAnswers, Answers;
      var table := CachedTable(rule);
      ghost var cfg := Config(RuleTable(rule), limits, checkpointSpec);
      TableStep(cfg, table);
      if limits.maxEventCount % table.eventsAtOnce != 0 {
        results := seq(|inits|, _ => EvaluationResult(InvalidInput, TagState([], 255), 0, 0));
        return;
      }
      var checkpointsTrie := InsertCheckpoints(checkpointSpec.states);
      ExplicitTrieFor(cfg, inits, checkpointsTrie.contents);
      results := [];
      NothingYet(cfg, inits);
      ghost var start := clock.looks;
      while |results| < |inits|
        invariant checkpointsTrie.Valid() && fresh(checkpointsTrie) && Valid()
        invariant |results| <= |inits| && JustifiedSoFar(cfg, inits, results)
        invariant TrieFor(cfg, inits, EventCounts(results), checkpointsTrie.contents)
        invariant forall i :: 0 <= i < |results| && Late(results[i]) ==> clock.late
        invariant clock.looks == start + AllAnswers(cfg, inits, results)
      {
        ghost var es := EventCounts(results);
        var result := EvaluateInit(cfg, inits, es, table, inits[|results|], |results|, limits, clock, checkpointsTrie, checkpointSpec.flags);
        JustifiedNext(cfg, inits, results, result);
        AnswersNext(cfg, inits, results, result);
        results := results + [result];
      }
    }

    /** One round of the loop over the inits. */
    static method EvaluateInit(ghost cfg: Config, ghost inits: seq<TagState>, ghost es: seq<nat>,
                               table: ChunkEvaluationTable, init: TagState, index: nat, limits: EvaluationLimits,
                               clock: Clock, checkpoints: CheckpointsTrie, flags: AutomaticCheckpointParameters)
      returns (result: EvaluationResult)
      requires IsTable(cfg.rule, table) && cfg.limits == limits && cfg.checkpoints.flags == flags && cfg.Valid()
      requires checkpoints.Valid() && TrieFor(cfg, inits, es, checkpoints.contents)
      requires |es| < |inits| && index == |es| && init == inits[index] && Admissible(cfg.rule, init)
      modifies clock, checkpoints
      ensures checkpoints.Valid()
      ensures Outcome(cfg, inits, es, result)
      ensures TrieFor(cfg, inits, es + [result.eventCount], checkpoints.contents)
      ensures old(clock.late) ==> result.conclusionReason == NotEvaluated
      ensures clock.late <==> Late(result)
      ensures clock.looks == old(clock.looks) + Answers(cfg, init, result)
    {
      hide IsTable, TrieFor, Outcome, Progress, ChunkedFrom, ToTagState, Canonical, TapeLength;
      var chunkedState := new ChunkedState(init);
      ProgressStart(cfg, inits, es, checkpoints.contents);
      var eventCount, conclusionReason, maxIntermediateTapeLength :=
        EvaluateState(cfg, inits, es, table, chunkedState, index, limits, clock, checkpoints, flags, TapeLength(chunkedState.Snapshot()));
      var finalState := chunkedState.Unload();
      result := EvaluationResult(conclusionReason, finalState, eventCount, maxIntermediateTapeLength);
    }

    static method InsertCheckpoints(states: seq<TagState>) returns (trie: CheckpointsTrie)
      ensures fresh(trie) && trie.Valid() && ExplicitTrie(states, trie.contents)
    {
      hide ExplicitTrie, Agrees;
      trie := new CheckpointsTrie();
      NoCheckpoints();
      var i := 0;
      while i < |states|
        invariant 0 <= i <= |states| && fresh(trie) && trie.Valid()
        invariant ExplicitTrie(states[..i], trie.contents)
      {
        assert states[..i + 1] == states[..i] + [states[i]];
        InsertCheckpoint(trie, states[..i], states[i]);
        i := i + 1;
      }
      assert states[..|states|] == states;
    }

    static method InsertCheckpoint(trie: CheckpointsTrie, ghost before: seq<TagState>, state: TagState)
      requires trie.Valid() && ExplicitTrie(before, trie.contents)
      modifies trie
      ensures trie.Valid() && ExplicitTrie(before + [state], trie.contents)
    {
      hide ExplicitTrie, ChunkedFrom, InsertFirst, Agrees, Canonical, ToTagState;
      var checkpoint := new ChunkedState(state);
      ExplicitNext(before, trie.contents, state);
      var _ := trie.Insert(checkpoint.Snapshot(), EXPLICIT_CHECKPOINT);
    }

    /** The overload for one init. */
    method EvaluateSingle(rule: NamedRule, init: TagState, limits: EvaluationLimits, checkpointSpec: CheckpointSpec, clock: Clock)
      returns (result: EvaluationResult)
      requires Valid() && Admissible(RuleTable(rule), init)
      modifies this, clock
      ensures Valid()
      ensures limits.maxEventCount % RuleTable(rule).K() != 0 ==>
                result == EvaluationResult(InvalidInput, TagState([], 255), 0, 0)
      ensures limits.maxEventCount % RuleTable(rule).K() == 0 ==>
                && Outcome(Config(RuleTable(rule), limits, checkpointSpec), [init], [], result)
                && clock.looks == old(clock.looks) + Answers(Config(RuleTable(rule), limits, checkpointSpec), init, result)
    {
      hide Outcome;
      var results := Evaluate(rule, [init], limits, checkpointSpec, clock);
      assert results[..0] == [] && EventCounts([]) == [];
      result := results[0];
    }
  }

  lemma NothingYet(cfg: Config, inits: seq<TagState>)
    requires cfg.Valid()
    ensures JustifiedSoFar(cfg, inits, []) && EventCounts([]) == [] && AllAnswers(cfg, inits, []) == []
  {}

  lemma AnswersNext(cfg: Config, inits: seq<TagState>, results: seq<EvaluationResult>, r: EvaluationResult)
    requires cfg.rule.Valid() && |results| < |inits|
    ensures AllAnswers(cfg, inits, results + [r]) == AllAnswers(cfg, inits, results) + Answers(cfg, inits[|results|], r)
  {
    hide Answers;
    var all := results + [r];
    assert all[..|all| - 1] == results;
    assert AllAnswers(cfg, inits, all) == AllAnswers(cfg, inits, all[..|all| - 1]) + Answers(cfg, inits[|all| - 1], all[|all| - 1]);
  }
}
