/** The reference machine: one event at a time on an unpacked tape. Everything the chunked
    engine, the state graph and the packing do is proved against Step and Run. */
module TagSystem {
  import opened Bits

  datatype TagState = TagState(tape: seq<Bit>, headState: Byte)

  datatype NamedRule = Post | Rule002211 | Rule000010111

  /** A rule table, indexed by phaseCount * (bits read) + phase. */
  datatype ChunkedRule = ChunkedRule(
    inputLength: nat, phaseCount: nat,
    outputTapes: seq<nat>, outputLengths: seq<nat>, outputPhases: seq<Byte>)
  {
    /** What the chunked engine relies on: entries exist for every index, outputs have the
        stated length, and eight bits of input yield at most sixteen bits of output. */
    predicate Valid() {
      && (inputLength == 1 || inputLength == 2)
      && 1 <= phaseCount <= 3
      && |outputTapes| == |outputLengths| == |outputPhases| == (if inputLength == 1 then 2 else 4) * phaseCount
      && (forall i :: 0 <= i < |outputTapes| ==> outputTapes[i] < Pow2(outputLengths[i]))
      && (forall i :: 0 <= i < |outputLengths| ==> outputLengths[i] <= 2 * inputLength)
      && (forall i :: 0 <= i < |outputPhases| ==> outputPhases[i] < phaseCount)
    }

    /** K, the number of events per chunk of eight cells. */
    function K(): (k: nat)
      requires Valid()
      ensures k == if inputLength == 1 then 8 else 4
    {
      8 / inputLength
    }

    /** The table row for the bits just read. */
    function Row(bits: seq<Bit>, phase: nat): (i: nat)
      requires Valid() && |bits| == inputLength && phase < phaseCount
      ensures i < |outputTapes|
    {
      Pow2Values();
      assert Value(bits) < if inputLength == 1 then 2 else 4;
      phaseCount * Value(bits) + phase
    }

    function Output(bits: seq<Bit>, phase: nat): (out: seq<Bit>)
      requires Valid() && |bits| == inputLength && phase < phaseCount
      ensures |out| <= 2 * inputLength
    {
      var i := Row(bits, phase);
      Digits(outputTapes[i], outputLengths[i])
    }

    function NextPhase(bits: seq<Bit>, phase: nat): (p: Byte)
      requires Valid() && |bits| == inputLength && phase < phaseCount
      ensures p < phaseCount
    {
      outputPhases[Row(bits, phase)]
    }
  }

  function PostTable(): (r: ChunkedRule)
    ensures r.Valid()
  {
    Pow2Values();
    ChunkedRule(1, 3, [0, 0, 0, 3, 0, 1], [1, 0, 1, 2, 1, 1], [2, 0, 1, 1, 2, 0])
  }

  function Table002211(): (r: ChunkedRule)
    ensures r.Valid()
  {
    Pow2Values();
    ChunkedRule(2, 2, [0, 0, 0, 2, 9, 1, 0, 0], [2, 0, 2, 2, 4, 2, 0, 0], [1, 0, 0, 1, 1, 0, 0, 0])
  }

  function Table000010111(): (r: ChunkedRule)
    ensures r.Valid()
  {
    Pow2Values();
    ChunkedRule(2, 1, [0, 0, 5, 3], [1, 3, 3, 3], [0, 0, 0, 0])
  }

  function RuleTable(rule: NamedRule): (r: ChunkedRule)
    ensures r.Valid()
  {
    match rule
    case Post => PostTable()
    case Rule002211 => Table002211()
    case Rule000010111 => Table000010111()
  }

  /** An event can happen: enough cells to read, and a phase the rule knows. */
  predicate Live(rule: ChunkedRule, s: TagState) {
    rule.inputLength <= |s.tape| && s.headState < rule.phaseCount
  }

  /** One event; a state without a successor stays put. */
  function Step(rule: ChunkedRule, s: TagState): TagState
    requires rule.Valid()
  {
    if !Live(rule, s) then s
    else
      var read := s.tape[..rule.inputLength];
      TagState(s.tape[rule.inputLength..] + rule.Output(read, s.headState), rule.NextPhase(read, s.headState))
  }

  function Run(rule: ChunkedRule, s: TagState, n: nat): TagState
    requires rule.Valid()
    decreases n
  {
    if n == 0 then s else Run(rule, Step(rule, s), n - 1)
  }

  lemma {:induction false} RunAdd(rule: ChunkedRule, s: TagState, m: nat, n: nat)
    requires rule.Valid()
    ensures Run(rule, s, m + n) == Run(rule, Run(rule, s, m), n)
    decreases m
  {
    if m > 0 { RunAdd(rule, Step(rule, s), m - 1, n); }
  }

  lemma {:induction false} RunKeepsPhase(rule: ChunkedRule, s: TagState, n: nat)
    requires rule.Valid() && s.headState < rule.phaseCount
    ensures Run(rule, s, n).headState < rule.phaseCount
    decreases n
  {
    if n > 0 { RunKeepsPhase(rule, Step(rule, s), n - 1); }
  }

  // ---------- a whole chunk of events ----------

  /** Bits appended, and phase reached, when exactly `bits` is consumed event by event. */
  function Emit(rule: ChunkedRule, bits: seq<Bit>, phase: Byte): (r: (seq<Bit>, Byte))
    requires rule.Valid() && phase < rule.phaseCount
    ensures |r.0| <= 2 * |bits| && r.1 < rule.phaseCount
  {
    if |bits| < rule.inputLength then ([], phase)
    else
      var read := bits[..rule.inputLength];
      var rest := Emit(rule, bits[rule.inputLength..], rule.NextPhase(read, phase));
      (rule.Output(read, phase) + rest.0, rest.1)
  }

  /** First in, first out: the cells in front are all read before any appended cell, so n
      events turn `front + rest` into `rest + Emit(front)`. */
  lemma {:induction false} RunConsumesFront(rule: ChunkedRule, front: seq<Bit>, rest: seq<Bit>, phase: Byte, n: nat)
    requires rule.Valid() && phase < rule.phaseCount && |front| == (if rule.inputLength == 1 then n else 2 * n)
    ensures Run(rule, TagState(front + rest, phase), n)
         == TagState(rest + Emit(rule, front, phase).0, Emit(rule, front, phase).1)
    decreases n
  {
    hide ChunkedRule.Output, ChunkedRule.NextPhase;
    if n == 0 {
      assert front + rest == rest + [];
    } else {
      var k := rule.inputLength;
      var read, left := front[..k], front[k..];
      var out, phase' := rule.Output(read, phase), rule.NextPhase(read, phase);
      assert (front + rest)[..k] == read && (front + rest)[k..] + out == left + (rest + out);
      RunConsumesFront(rule, left, rest + out, phase', n - 1);
      assert (rest + out) + Emit(rule, left, phase').0 == rest + (out + Emit(rule, left, phase').0);
    }
  }

  /** An event removes at most inputLength cells, so a long tape stays live for a while. */
  lemma {:induction false} RunShrinksSlowly(rule: ChunkedRule, s: TagState, n: nat)
    requires rule.Valid()
    ensures |s.tape| <= |Run(rule, s, n).tape| + (if rule.inputLength == 1 then n else 2 * n)
    decreases n
  {
    if n > 0 { RunShrinksSlowly(rule, Step(rule, s), n - 1); }
  }

  // ---------- periodic orbits ----------

  /** Once a state recurs after `period` events, it recurs forever. */
  lemma RunPeriodic(rule: ChunkedRule, s: TagState, from: nat, period: nat, n: nat)
    requires rule.Valid() && Run(rule, s, from) == Run(rule, s, from + period) && from <= n
    ensures Run(rule, s, n) == Run(rule, s, n + period)
  {
    RunAdd(rule, s, from, n - from);
    RunAdd(rule, s, from + period, n - from);
  }

  /** Every state on the orbit after `from` already occurs in the first period, at an event
      with the same remainder modulo k. */
  lemma {:induction false} RunWraps(rule: ChunkedRule, s: TagState, from: nat, period: nat, n: nat, k: nat) returns (m: nat)
    requires rule.Valid() && Run(rule, s, from) == Run(rule, s, from + period) && from <= n && period > 0
    requires (k == 1 || k == 4 || k == 8) && period % k == 0
    ensures from <= m < from + period && Run(rule, s, m) == Run(rule, s, n) && m % k == n % k
    decreases n
  {
    if n < from + period {
      m := n;
    } else {
      RunPeriodic(rule, s, from, period, n - period);
      m := RunWraps(rule, s, from, period, n - period, k);
      SameRemainder(n, period, k);
    }
  }

  /** A state on a cycle recurs arbitrarily late, always at events with the same remainder. */
  lemma {:induction false} RunRecurs(rule: ChunkedRule, s: TagState, from: nat, period: nat, least: nat, k: nat) returns (m: nat)
    requires rule.Valid() && Run(rule, s, from) == Run(rule, s, from + period) && period > 0
    requires (k == 1 || k == 4 || k == 8) && period % k == 0
    ensures least <= m && from <= m && Run(rule, s, m) == Run(rule, s, from) && m % k == from % k
    decreases least - from
  {
    if least <= from {
      m := from;
    } else {
      RunPeriodic(rule, s, from, period, from + period);
      m := RunRecurs(rule, s, from + period, period, least, k);
      SameRemainder(from + period, period, k);
    }
  }

  lemma SameRemainder(n: nat, period: nat, k: nat)
    requires (k == 1 || k == 4 || k == 8) && period % k == 0 && period <= n
    ensures (n - period) % k == n % k
  {
    if k == 4 {
      SameRemainder4(n, period);
    } else if k == 8 {
      SameRemainder8(n, period);
    }
  }

  lemma SameRemainder4(n: nat, period: nat)
    requires period % 4 == 0 && period <= n
    ensures (n - period) % 4 == n % 4
  {
    assert n - period == 4 * (n / 4 - period / 4) + n % 4;
  }

  lemma SameRemainder8(n: nat, period: nat)
    requires period % 8 == 0 && period <= n
    ensures (n - period) % 8 == n % 8
  {
    assert n - period == 8 * (n / 8 - period / 8) + n % 8;
  }

  /** The empty tape stays put. */
  lemma {:induction false} EmptyRests(rule: ChunkedRule, s: TagState, n: nat)
    requires rule.Valid() && s.tape == []
    ensures Run(rule, s, n) == s
    decreases n
  {
    if n > 0 { EmptyRests(rule, s, n - 1); }
  }
}
