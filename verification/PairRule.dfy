/** The rule 000010111, which reads pairs and has a single phase: its four events as bit strings,
    and what they do to the length of the tape. */
module PairRule {
  import opened Bits
  import opened TagSystem
  import PostLength

  /** 00 -> 0, 01 -> 000, 10 -> 101, 11 -> 011 */
  lemma PairEvent(a: Bit, b: Bit)
    ensures var rule := RuleTable(Rule000010111);
            && rule.inputLength == 2 && rule.phaseCount == 1
            && rule.Output([a, b], 0) ==
                 (if a == 0 then (if b == 0 then [0] else [0, 0, 0]) else if b == 0 then [1, 0, 1] else [0, 1, 1])
            && rule.NextPhase([a, b], 0) == 0
  {
    SmallTapes();
    hide Digits, ChunkedRule.Row, ChunkedRule.Valid;
    PairRow(a, b);
    if a == 0 {
      if b == 0 {} else {}
    } else {
      if b == 0 {} else {}
    }
  }

  lemma SmallTapes()
    ensures Digits(0, 1) == [0] && Digits(0, 3) == [0, 0, 0] && Digits(5, 3) == [1, 0, 1] && Digits(3, 3) == [0, 1, 1]
  {
    hide Digits;
    PostLength.SmallDigits();
    PostLength.PushDigit(0, 2, 0);
    PostLength.PushDigit(2, 2, 1);
    PostLength.PushDigit(1, 2, 1);
  }

  lemma PairRow(a: Bit, b: Bit)
    ensures Table000010111().Row([a, b], 0) == 2 * a + b
  {
    assert [a, b][..1] == [a] && [a][..0] == [];
    assert Value([a]) == a && Value([a, b]) == 2 * a + b;
  }

  /** One event on a tape of at least two cells. */
  lemma PairStep(a: Bit, b: Bit, rest: seq<Bit>)
    ensures Step(RuleTable(Rule000010111), TagState([a, b] + rest, 0)) ==
            TagState(rest + (if a == 0 then (if b == 0 then [0] else [0, 0, 0]) else if b == 0 then [1, 0, 1] else [0, 1, 1]), 0)
  {
    hide ChunkedRule.Output, ChunkedRule.NextPhase, ChunkedRule.Valid;
    var tape := [a, b] + rest;
    assert tape[..2] == [a, b] && tape[2..] == rest;
    PairEvent(a, b);
  }

  /** Of the next n events, those that read a pair other than 00, less those that read 00. */
  function PairBalance(s: TagState, n: nat): int
    decreases n
  {
    if n == 0 || |s.tape| < 2 then 0
    else (if s.tape[0] == 0 && s.tape[1] == 0 then -1 else 1) + PairBalance(Step(RuleTable(Rule000010111), s), n - 1)
  }

  lemma StepLength(s: TagState)
    requires |s.tape| >= 2 && s.headState == 0
    ensures var next := Step(RuleTable(Rule000010111), s);
            && next.headState == 0
            && |next.tape| == |s.tape| + if s.tape[0] == 0 && s.tape[1] == 0 then -1 else 1
  {
    hide Step;
    var a, b, rest := s.tape[0], s.tape[1], s.tape[2..];
    assert s.tape == [a, b] + rest;
    PairStep(a, b, rest);
  }

  lemma {:induction false} ShortRests(s: TagState, n: nat)
    requires |s.tape| < 2
    ensures Run(RuleTable(Rule000010111), s, n) == s
    decreases n
  {
    if n > 0 { ShortRests(s, n - 1); }
  }

  /** Over any run the tape loses a cell for every 00 read and gains one for every other pair. */
  lemma {:induction false} LengthByPairs(s: TagState, n: nat)
    requires s.headState == 0
    ensures |Run(RuleTable(Rule000010111), s, n).tape| == |s.tape| + PairBalance(s, n)
    decreases n
  {
    hide Step, RuleTable;
    if |s.tape| < 2 {
      ShortRests(s, n);
    } else if n > 0 {
      StepLength(s);
      LengthByPairs(Step(RuleTable(Rule000010111), s), n - 1);
    }
  }
}
