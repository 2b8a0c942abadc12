/** How tape lengths move under the Post rule, and what sampling them every 8 events misses. */
module PostLength {
  import opened Bits
  import opened TagSystem
  import opened ChunkTable
  import opened History
  import HistoryTheorems

  /** The six rows of the Post table, spelled out. */
  lemma PostEvent(b: Bit, phase: Byte)
    requires phase < 3
    ensures var rule := PostTable();
            && rule.Output([b], phase) == (if b == 1 then (if phase == 0 then [1, 1] else if phase == 1 then [0] else [1])
                                           else if phase == 1 then [] else [0])
            && rule.NextPhase([b], phase) == (if b == 1 then (phase + 1) % 3 else (phase + 2) % 3)
  {
    SmallDigits();
    hide Digits, ChunkedRule.Row, ChunkedRule.Valid;
    PostRow(b, phase);
    if b == 0 {
      if phase == 0 {} else if phase == 1 {} else {}
    } else {
      if phase == 0 {} else if phase == 1 {} else {}
    }
  }

  lemma SmallDigits()
    ensures Digits(0, 0) == [] && Digits(0, 1) == [0] && Digits(1, 1) == [1]
    ensures Digits(0, 2) == [0, 0] && Digits(1, 2) == [0, 1] && Digits(2, 2) == [1, 0] && Digits(3, 2) == [1, 1]
    ensures Digits(9, 4) == [1, 0, 0, 1]
  {
    hide Digits;
    NoDigits();
    PushDigit(0, 0, 0);
    PushDigit(0, 0, 1);
    PushDigit(0, 1, 0);
    PushDigit(0, 1, 1);
    PushDigit(1, 1, 0);
    PushDigit(1, 1, 1);
    PushDigit(2, 2, 0);
    PushDigit(4, 3, 1);
  }

  lemma NoDigits()
    ensures Digits(0, 0) == []
  {}

  lemma PushDigit(v: nat, n: nat, b: Bit)
    ensures Digits(2 * v + b, n + 1) == Digits(v, n) + [b]
  {
    assert (2 * v + b) / 2 == v && (2 * v + b) % 2 == b;
  }

  lemma PostRow(b: Bit, phase: Byte)
    requires phase < 3
    ensures PostTable().Row([b], phase) == 3 * b + phase
  {
    assert [b][..0] == [] && Value([b]) == b;
  }

  /** Cells of the unpacked Post tape behind the last packed cell that are not there yet. */
  function Pad(phase: Byte): nat {
    (3 - phase as int) % 3
  }

  /** Length of the original, unpacked Post tape: three cells per packed cell, less the pad. */
  function RawLength(s: TagState): int {
    3 * |s.tape| - Pad(s.headState)
  }

  /** Ones minus zeros. */
  function Balance(bits: seq<Bit>): int {
    if bits == [] then 0 else (if bits[0] == 1 then 1 else -1) + Balance(bits[1..])
  }

  lemma {:induction false} BalanceBound(bits: seq<Bit>)
    ensures -|bits| <= Balance(bits) <= |bits|
  {
    if bits != [] { BalanceBound(bits[1..]); }
  }

  lemma EventLength(b: Bit, phase: Byte)
    requires phase < 3
    ensures 3 * |PostTable().Output([b], phase)| - Pad(PostTable().NextPhase([b], phase))
         == 3 - Pad(phase) + (if b == 1 then 1 else -1)
  {
    hide ChunkedRule.Output, ChunkedRule.NextPhase;
    PostEvent(b, phase);
    if phase == 0 {} else if phase == 1 {} else {}
  }

  /** Reading a one lengthens the unpacked tape by one cell, reading a zero shortens it. */
  lemma {:induction false} EmitLength(bits: seq<Bit>, phase: Byte)
    requires phase < 3
    ensures var emitted := Emit(PostTable(), bits, phase);
            3 * |emitted.0| - Pad(emitted.1) == 3 * |bits| - Pad(phase) + Balance(bits)
    decreases |bits|
  {
    if bits != [] {
      hide ChunkedRule.Output, ChunkedRule.NextPhase, Pad;
      assert bits[..1] == [bits[0]];
      EventLength(bits[0], phase);
      EmitLength(bits[1..], PostTable().NextPhase(bits[..1], phase));
    }
  }

  /** The cells read by the next n events, in order. */
  function CellsRead(s: TagState, n: nat): seq<Bit>
    decreases n
  {
    if n == 0 || s.tape == [] then [] else [s.tape[0]] + CellsRead(Step(PostTable(), s), n - 1)
  }

  /** One event changes the unpacked length by one, up for a one and down for a zero. */
  lemma StepLength(s: TagState)
    requires s.headState < 3 && s.tape != []
    ensures Step(PostTable(), s).headState < 3
    ensures RawLength(Step(PostTable(), s)) == RawLength(s) + (if s.tape[0] == 1 then 1 else -1)
  {
    hide ChunkedRule.Output, ChunkedRule.NextPhase, Pad;
    assert s.tape[..1] == [s.tape[0]];
    EventLength(s.tape[0], s.headState);
  }

  /** Conservation over any run: the unpacked length changes by the ones read minus the zeros
      read. */
  lemma {:induction false} LengthConserved(s: TagState, n: nat)
    requires s.headState < 3
    ensures RawLength(Run(PostTable(), s, n)) == RawLength(s) + Balance(CellsRead(s, n))
    decreases n
  {
    hide Step, RawLength;
    if n > 0 {
      if s.tape == [] {
        EmptyRests(PostTable(), s, n);
      } else {
        StepLength(s);
        LengthConserved(Step(PostTable(), s), n - 1);
        assert CellsRead(s, n)[1..] == CellsRead(Step(PostTable(), s), n - 1);
      }
    }
  }

  /** As long as cells of the initial tape are read, the balance is theirs. */
  lemma LengthAfter(s: TagState, n: nat)
    requires s.headState < 3 && n <= |s.tape|
    ensures RawLength(Run(PostTable(), s, n)) == RawLength(s) + Balance(s.tape[..n])
  {
    hide Run, Emit;
    assert s == TagState(s.tape[..n] + s.tape[n..], s.headState) by { assert s.tape[..n] + s.tape[n..] == s.tape; }
    RunConsumesFront(PostTable(), s.tape[..n], s.tape[n..], s.headState, n);
    EmitLength(s.tape[..n], s.headState);
  }

  /** One chunk emits between 5 and 11 bits, so its output fits 16 bits and the tape changes
      by at most 3 cells. */
  lemma ChunkOutputSize(chunk: Byte, phase: Byte, out: ChunkOutput)
    requires IsChunkOutput(PostTable(), chunk, phase, out)
    ensures 5 <= out.newTapeSize <= 11 && out.newTape < Pow2(11)
  {
    hide Emit, Digits;
    EmitLength(Digits(chunk, 8), phase);
    BalanceBound(Digits(chunk, 8));
    Pow2Monotone(out.newTapeSize, 11);
  }

  /** The tape i events into a chunk, against the tape at the chunk's two ends. */
  lemma WithinChunk(s: TagState, i: nat)
    requires s.headState < 3 && |s.tape| > 8 && i <= 8
    ensures |Run(PostTable(), s, i).tape| <= 2 + Max(|s.tape|, |Run(PostTable(), s, 8).tape|)
    ensures -3 <= |Run(PostTable(), s, 8).tape| - |s.tape| <= 3
  {
    hide Run;
    LengthAfter(s, i);
    BalanceBound(s.tape[..i]);
    LengthAfter(s, 8);
    BalanceBound(s.tape[..8]);
    if i == 7 {
      RunAdd(PostTable(), s, 7, 1);
      RunShrinksSlowly(PostTable(), Run(PostTable(), s, 7), 1);
    }
  }

  /** 2 is the exact slack: on the chunk 11110000 in phase 0 the tape is 2 cells longer half
      way than at either end. */
  lemma SlackIsAttained(rest: seq<Bit>)
    ensures var s := TagState([1, 1, 1, 1, 0, 0, 0, 0] + rest, 0);
            && |Run(PostTable(), s, 4).tape| == |s.tape| + 2
            && |Run(PostTable(), s, 8).tape| == |s.tape|
  {
    hide Run, Balance;
    var s := TagState([1, 1, 1, 1, 0, 0, 0, 0] + rest, 0);
    assert s.tape[..4] == [1, 1, 1, 1] && s.tape[..8] == [1, 1, 1, 1] + [0, 0, 0, 0];
    FourAndFour();
    RunKeepsPhase(PostTable(), s, 4);
    RunKeepsPhase(PostTable(), s, 8);
    LengthAfter(s, 4);
    LengthAfter(s, 8);
  }

  lemma {:induction false} BalanceConcat(a: seq<Bit>, b: seq<Bit>)
    ensures Balance(a + b) == Balance(a) + Balance(b)
  {
    if a == [] {
      assert a + b == b;
    } else {
      assert (a + b)[1..] == a[1..] + b;
      BalanceConcat(a[1..], b);
    }
  }

  lemma FourAndFour()
    ensures Balance([1, 1, 1, 1]) == 4 && Balance([1, 1, 1, 1] + [0, 0, 0, 0]) == 0
  {
    BalanceConcat([1, 1, 1, 1], [0, 0, 0, 0]);
    BalanceConcat([1, 1], [1, 1]);
    BalanceConcat([0, 0], [0, 0]);
    assert [1, 1, 1, 1] == [1, 1] + [1, 1] && [0, 0, 0, 0] == [0, 0] + [0, 0];
    assert Balance([1, 1]) == 1 + Balance([1]) && Balance([0, 0]) == -1 + Balance([0]);
  }

  // ---------- the reported maximum ----------

  /** Peak is the maximum over the boundaries: an upper bound that is attained. */
  lemma {:induction false} PeakIsMaximum(cfg: Config, init: TagState, e: nat) returns (top: nat)
    requires cfg.rule.Valid() && e % cfg.rule.K() == 0
    ensures forall t :: 0 <= t <= e && t % cfg.rule.K() == 0 ==> |cfg.At(init, t).tape| <= Peak(cfg, init, e)
    ensures top <= e && top % cfg.rule.K() == 0 && |cfg.At(init, top).tape| == Peak(cfg, init, e)
    decreases e
  {
    hide Run;
    var k := cfg.rule.K();
    if e < k {
      HistoryTheorems.FirstBoundary(e, k);
      HistoryTheorems.RunZero(cfg.rule, init);
      top := 0;
    } else {
      SameRemainder(e, k, k);
      top := PeakIsMaximum(cfg, init, e - k);
      if Peak(cfg, init, e) != Peak(cfg, init, e - k) { top := e; }
      forall t | 0 <= t <= e && t % k == 0
        ensures |cfg.At(init, t).tape| <= Peak(cfg, init, e)
      {
        SameBoundary(t, e, k);
        if t < e { EarlierBoundary(t, e, k); }
      }
    }
  }

  lemma EarlierBoundary(t: nat, e: nat, k: nat)
    requires (k == 4 || k == 8) && t % k == 0 && e % k == 0 && t < e
    ensures t <= e - k
  {
    if k == 4 {} else {}
  }

  /** The reported maximum is sampled every 8 events, yet no tape at any single event up to
      the reported one is more than 2 cells longer. */
  lemma SampledMaximum(cfg: Config, inits: seq<TagState>, es: seq<nat>, r: EvaluationResult, n: nat)
    requires cfg.Valid() && cfg.rule == PostTable() && Outcome(cfg, inits, es, r) && n <= r.eventCount
    requires Admissible(cfg.rule, inits[|es|])
    ensures |cfg.At(inits[|es|], n).tape| <= r.maxIntermediateTapeLength + 2
  {
    hide Run, Outcome, Peak, Admissible;
    HistoryTheorems.EventLimit(cfg, inits, es, r);
    OutcomePeak(cfg, inits, es, r);
    var init, e := inits[|es|], r.eventCount;
    var i := n % 8;
    var t := n - i;
    BoundaryOf(n);
    var top := PeakIsMaximum(cfg, init, e);
    assert |cfg.At(init, t).tape| <= Peak(cfg, init, e);
    if i > 0 {
      NextBoundary(t, e, 8);
      SameRemainder(t + 8, 8, 8);
      assert |cfg.At(init, t + 8).tape| <= Peak(cfg, init, e);
      HistoryTheorems.RunningAt(cfg, inits, es, r, t);
      HistoryTheorems.RunningAt(cfg, inits, es, r, 0);
      HistoryTheorems.RunZero(cfg.rule, init);
      KnownPhase(cfg.rule, init, t);
      RunAdd(cfg.rule, init, t, i);
      RunAdd(cfg.rule, init, t, 8);
      WithinChunk(cfg.At(init, t), i);
    }
  }

  /** The reported maximum is the length of the tape at some boundary of the run. */
  lemma ReportedMaximum(cfg: Config, inits: seq<TagState>, es: seq<nat>, r: EvaluationResult) returns (top: nat)
    requires cfg.Valid() && Outcome(cfg, inits, es, r)
    ensures top <= r.eventCount && top % cfg.rule.K() == 0
    ensures |cfg.At(inits[|es|], top).tape| == r.maxIntermediateTapeLength
    ensures forall t :: 0 <= t <= r.eventCount && t % cfg.rule.K() == 0 ==> |cfg.At(inits[|es|], t).tape| <= r.maxIntermediateTapeLength
  {
    hide Run, Outcome, Peak;
    HistoryTheorems.EventLimit(cfg, inits, es, r);
    OutcomePeak(cfg, inits, es, r);
    top := PeakIsMaximum(cfg, inits[|es|], r.eventCount);
  }

  lemma OutcomePeak(cfg: Config, inits: seq<TagState>, es: seq<nat>, r: EvaluationResult)
    requires cfg.Valid() && Outcome(cfg, inits, es, r)
    ensures r.maxIntermediateTapeLength == Peak(cfg, inits[|es|], r.eventCount) && r.eventCount % cfg.rule.K() == 0
    ensures r.finalState == cfg.At(inits[|es|], r.eventCount)
  {
    hide Run, Continues, Stops, Peak;
  }

  lemma BoundaryOf(n: nat)
    ensures n % 8 <= n && (n - n % 8) % 8 == 0
  {
    assert n - n % 8 == 8 * (n / 8);
  }

  lemma KnownPhase(rule: ChunkedRule, init: TagState, t: nat)
    requires rule.Valid() && Admissible(rule, init) && |init.tape| > 8
    ensures Run(rule, init, t).headState < rule.phaseCount
  {
    RunKeepsPhase(rule, init, t);
  }

  /** From boundary to boundary a tape grows by at most 3 cells. */
  lemma {:induction false} PeakGrowth(cfg: Config, init: TagState, e: nat)
    requires cfg.rule == PostTable() && e % 8 == 0 && init.headState < 3
    requires forall t :: 0 <= t < e && t % 8 == 0 ==> |cfg.At(init, t).tape| > 8
    ensures |cfg.At(init, e).tape| <= |init.tape| + 3 * (e / 8) && Peak(cfg, init, e) <= |init.tape| + 3 * (e / 8)
    decreases e
  {
    hide Run;
    if e < 8 {
      HistoryTheorems.RunZero(cfg.rule, init);
    } else {
      var t := e - 8;
      SameRemainder(e, 8, 8);
      PeakGrowth(cfg, init, t);
      assert |cfg.At(init, t).tape| > 8;
      RunKeepsPhase(cfg.rule, init, t);
      WithinChunk(cfg.At(init, t), 8);
      RunAdd(cfg.rule, init, t, 8);
    }
  }

  /** What is reported about an init's lengths is bounded by its own length and the events. */
  lemma ReportedLengths(cfg: Config, inits: seq<TagState>, es: seq<nat>, r: EvaluationResult)
    requires cfg.Valid() && cfg.rule == PostTable() && Outcome(cfg, inits, es, r) && Admissible(cfg.rule, inits[|es|])
    ensures |r.finalState.tape| <= |inits[|es|].tape| + 3 * (r.eventCount / 8)
    ensures r.maxIntermediateTapeLength <= |inits[|es|].tape| + 3 * (r.eventCount / 8)
  {
    hide Run, Outcome, Peak;
    HistoryTheorems.EventLimit(cfg, inits, es, r);
    OutcomePeak(cfg, inits, es, r);
    var init := inits[|es|];
    HistoryTheorems.RunZero(cfg.rule, init);
    if init.headState < 3 {
      forall t | 0 <= t < r.eventCount && t % 8 == 0
        ensures |cfg.At(init, t).tape| > 8
      {
        HistoryTheorems.RunningAt(cfg, inits, es, r, t);
      }
      PeakGrowth(cfg, init, r.eventCount);
    } else {
      if r.eventCount > 0 { HistoryTheorems.RunningAt(cfg, inits, es, r, 0); }
      PeakAtStart(cfg, init);
    }
  }

  lemma PeakAtStart(cfg: Config, init: TagState)
    requires cfg.rule.Valid()
    ensures Peak(cfg, init, 0) == |init.tape|
  {}

  // ---------- Terminated is not dying out ----------

  /** Two cells that read each other back: the machine never stops, yet with at most 8 cells
      left the evaluator reports Terminated at once. */
  lemma TerminatedMayCycle(cfg: Config, inits: seq<TagState>, es: seq<nat>, r: EvaluationResult, n: nat)
    requires cfg.Valid() && cfg.rule == PostTable() && Outcome(cfg, inits, es, r) && !Late(r)
    requires inits[|es|] == TagState([0, 1], 0) && cfg.limits.maxEventCount > 0
    ensures r.conclusionReason == Terminated && r.eventCount == 0
    ensures Run(PostTable(), inits[|es|], n) == if n % 2 == 0 then TagState([0, 1], 0) else TagState([1, 0], 2)
  {
    hide Run, Peak, Known, SeenBy, Step;
    HistoryTheorems.EventLimit(cfg, inits, es, r);
    HistoryTheorems.RunZero(cfg.rule, inits[|es|]);
    if r.eventCount > 0 { HistoryTheorems.RunningAt(cfg, inits, es, r, 0); }
    TwoCells(n);
  }

  ghost predicate AllZeros(tape: seq<Bit>) {
    forall i :: 0 <= i < |tape| ==> tape[i] == 0
  }

  /** No tape dies out sooner than one event per unpacked cell. */
  lemma {:induction false} DiesNoSooner(s: TagState, n: nat)
    requires s.headState < 3 && Run(PostTable(), s, n).tape == []
    ensures RawLength(s) <= n
    decreases n
  {
    hide Step, RawLength;
    if s.tape == [] {
      EmptyRawLength(s);
    } else if n > 0 {
      StepLength(s);
      DiesNoSooner(Step(PostTable(), s), n - 1);
    }
  }

  lemma EmptyRawLength(s: TagState)
    requires s.tape == []
    ensures RawLength(s) <= 0
  {}

  /** A tape of zeros dies out after exactly one event per unpacked cell. */
  lemma {:induction false} ZerosDieOut(s: TagState, n: nat)
    requires s.headState < 3 && AllZeros(s.tape)
    ensures Run(PostTable(), s, n).tape == [] <==> RawLength(s) <= n
    decreases n
  {
    if s.tape == [] {
      EmptyRests(PostTable(), s, n);
    } else if n > 0 {
      hide Step, RawLength;
      StepLength(s);
      ZerosStay(s);
      ZerosDieOut(Step(PostTable(), s), n - 1);
    }
  }

  lemma ZerosStay(s: TagState)
    requires s.headState < 3 && s.tape != [] && AllZeros(s.tape)
    ensures AllZeros(Step(PostTable(), s).tape)
  {
    hide ChunkedRule.Output, ChunkedRule.NextPhase;
    assert s.tape[..1] == [0];
    PostEvent(0, s.headState);
  }

  lemma {:induction false} TwoCells(n: nat)
    ensures Run(PostTable(), TagState([0, 1], 0), n) == if n % 2 == 0 then TagState([0, 1], 0) else TagState([1, 0], 2)
    decreases n
  {
    hide Run, Step;
    var s := TagState([0, 1], 0);
    if n == 0 {
      HistoryTheorems.RunZero(PostTable(), s);
    } else if n == 1 {
      OneEvent(s);
      TwoCellsStep();
    } else {
      OneEvent(s);
      OneEvent(TagState([1, 0], 2));
      TwoCellsStep();
      RunAdd(PostTable(), s, 1, 1);
      RunAdd(PostTable(), s, 2, n - 2);
      TwoCells(n - 2);
    }
  }

  lemma OneEvent(s: TagState)
    ensures Run(PostTable(), s, 1) == Step(PostTable(), s)
  {
    assert Run(PostTable(), s, 1) == Run(PostTable(), Step(PostTable(), s), 0);
  }

  lemma TwoCellsStep()
    ensures Step(PostTable(), TagState([0, 1], 0)) == TagState([1, 0], 2)
    ensures Step(PostTable(), TagState([1, 0], 2)) == TagState([0, 1], 0)
  {
    hide ChunkedRule.Output, ChunkedRule.NextPhase, ChunkedRule.Valid;
    PostEvent(0, 0);
    PostEvent(1, 2);
    assert [0, 1][..1] == [0] && [0, 1][1..] == [1] && [1, 0][..1] == [1] && [1, 0][1..] == [0];
  }
}
