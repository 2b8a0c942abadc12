/** TagState as an object: reading a tape off an integer, and the increment that drives the
    range search. */
module TagStates {
  import opened Bits
  import opened TagSystem

  // ---------- the increment, digit by digit ----------

  /** Binary successor; a tape of ones grows by one cell. */
  function SuccTape(tape: seq<Bit>): (r: seq<Bit>)
    ensures |tape| <= |r| <= |tape| + 1
  {
    if tape == [] then [1]
    else if tape[|tape| - 1] == 0 then tape[..|tape| - 1] + [1]
    else SuccTape(tape[..|tape| - 1]) + [0]
  }

  /** Head state first, then the tape. */
  function Incremented(s: TagState, phaseCount: nat): TagState {
    if (s.headState + 1) % 256 == phaseCount then TagState(SuccTape(s.tape), 0)
    else TagState(s.tape, (s.headState + 1) % 256)
  }

  function Ones(n: nat): (r: seq<Bit>)
    ensures |r| == n
  {
    seq(n, _ => 1)
  }

  lemma {:induction false} SuccTapeValue(tape: seq<Bit>)
    ensures Value(SuccTape(tape)) == Value(tape) + 1
    ensures |SuccTape(tape)| > |tape| ==> SuccTape(tape)[0] == 1
  {
    if tape == [] {
      assert [1][..0] == [];
    } else {
      var front := tape[..|tape| - 1];
      if tape[|tape| - 1] == 0 {
        assert (front + [1])[..|front|] == front;
      } else {
        SuccTapeValue(front);
        assert (SuccTape(front) + [0])[..|SuccTape(front)|] == SuccTape(front);
      }
    }
  }

  /** The carry: trailing ones become zeros and the zero before them a one. */
  lemma {:induction false} SuccTapeCarry(front: seq<Bit>, k: nat)
    ensures SuccTape(front + [0] + Ones(k)) == front + [1] + Zeros(k)
  {
    var tape := front + [0] + Ones(k);
    if k == 0 {
      assert tape == front + [0] && front + [1] + Zeros(0) == front + [1];
    } else {
      assert Ones(k) == Ones(k - 1) + [1] && Zeros(k) == Zeros(k - 1) + [0];
      assert tape[..|tape| - 1] == front + [0] + Ones(k - 1);
      SuccTapeCarry(front, k - 1);
      assert (front + [1] + Zeros(k - 1)) + [0] == front + [1] + Zeros(k);
    }
  }

  lemma {:induction false} SuccTapeOverflow(k: nat)
    ensures SuccTape(Ones(k)) == [1] + Zeros(k)
  {
    if k > 0 {
      assert Ones(k)[..k - 1] == Ones(k - 1) && Zeros(k) == Zeros(k - 1) + [0];
      SuccTapeOverflow(k - 1);
      assert ([1] + Zeros(k - 1)) + [0] == [1] + Zeros(k);
    }
  }

  // ---------- ranks ----------

  /** Position in the search order: 3 * value + head. A head state past the phases is first
      counted up to 256, which wraps to 0, on the same tape. */
  function Rank(s: TagState): int {
    3 * Value(s.tape) + (if s.headState < 3 then s.headState else s.headState - 256)
  }

  function Nth(begin: TagState, k: nat): TagState {
    if k == 0 then begin else Incremented(Nth(begin, k - 1), 3)
  }

  /** The states an enumeration from `begin` can meet: no lower rank, on a longer tape only
      with a leading one, and with an unknown head state only on the first tape. */
  predicate AtOrAfter(begin: TagState, s: TagState) {
    if s.headState < 3 then
      && Rank(begin) <= Rank(s) && Value(begin.tape) <= Value(s.tape)
      && |begin.tape| <= |s.tape| && (|begin.tape| < |s.tape| ==> s.tape[0] == 1)
    else
      s.tape == begin.tape && 3 <= begin.headState <= s.headState
  }

  lemma {:induction false} NthRank(begin: TagState, k: nat)
    ensures AtOrAfter(begin, Nth(begin, k)) && Rank(Nth(begin, k)) == Rank(begin) + k
  {
    if k > 0 {
      hide AtOrAfter, Rank, Incremented;
      NthRank(begin, k - 1);
      IncrementedRank(begin, Nth(begin, k - 1));
    } else {
      AtBegin(begin);
    }
  }

  lemma AtBegin(begin: TagState)
    ensures AtOrAfter(begin, begin)
  {
    hide Value;
  }

  lemma IncrementedRank(begin: TagState, s: TagState)
    requires AtOrAfter(begin, s)
    ensures AtOrAfter(begin, Incremented(s, 3)) && Rank(Incremented(s, 3)) == Rank(s) + 1
  {
    hide Value, SuccTape;
    if s.headState == 2 {
      SuccTapeValue(s.tape);
      LeadingOneStays(s.tape);
    }
  }

  lemma {:induction false} LeadingOneStays(tape: seq<Bit>)
    ensures tape != [] && tape[0] == 1 ==> SuccTape(tape)[0] == 1
  {
    if |tape| > 1 {
      var front := tape[..|tape| - 1];
      LeadingOneStays(front);
      assert front[0] == tape[0];
    }
  }

  lemma {:induction false} LeadingOne(tape: seq<Bit>)
    requires tape != [] && tape[0] == 1
    ensures Value(tape) >= Pow2(|tape| - 1)
  {
    if |tape| > 1 { LeadingOne(tape[..|tape| - 1]); } else { assert tape[..0] == []; }
  }

  lemma SameValueSameTape(begin: seq<Bit>, a: seq<Bit>, b: seq<Bit>)
    requires Value(a) == Value(b) && |begin| <= |a| && |begin| <= |b|
    requires (|begin| < |a| ==> a[0] == 1) && (|begin| < |b| ==> b[0] == 1)
    ensures a == b
  {
    hide Value, Pow2;
    if |a| < |b| {
      LeadingOne(b);
      Pow2Monotone(|a|, |b| - 1);
    } else if |b| < |a| {
      LeadingOne(a);
      Pow2Monotone(|b|, |a| - 1);
    } else {
      ValueInjective(a, b);
    }
  }

  /** Rank determines the state among those an enumeration can meet. */
  lemma RankInjective(begin: TagState, a: TagState, b: TagState)
    requires AtOrAfter(begin, a) && AtOrAfter(begin, b) && Rank(a) == Rank(b)
    ensures a == b
  {
    hide Value;
    if a.headState < 3 && b.headState < 3 {
      assert Value(a.tape) == Value(b.tape) && a.headState == b.headState;
      SameValueSameTape(begin.tape, a.tape, b.tape);
    }
  }

  /** The enumeration from `begin` meets `end` if and only if end is at or after begin, and
      then after exactly as many increments as the ranks differ. */
  lemma EnumerationMeets(begin: TagState, end: TagState)
    ensures (exists k: nat :: Nth(begin, k) == end) <==> AtOrAfter(begin, end)
    ensures AtOrAfter(begin, end) ==> Rank(begin) <= Rank(end) && Nth(begin, Rank(end) - Rank(begin)) == end
  {
    hide Value, Nth;
    if k: nat :| Nth(begin, k) == end { NthRank(begin, k); }
    if AtOrAfter(begin, end) {
      var k: nat := Rank(end) - Rank(begin);
      NthRank(begin, k);
      RankInjective(begin, Nth(begin, k), end);
    }
  }

  /** While the value fits the tape, the k-th state is read off the rank. */
  lemma NthFits(value: nat, length: nat, k: nat)
    requires value + k / 3 < Pow2(length)
    ensures Nth(TagState(Digits(value, length), 0), k) == TagState(Digits(value + k / 3, length), k % 3)
  {
    hide Nth, Digits, Value;
    var begin := TagState(Digits(value, length), 0);
    var s := TagState(Digits(value + k / 3, length), k % 3);
    ValueOfDigits(value, length);
    ValueOfDigits(value + k / 3, length);
    LowSmall(value, length);
    LowSmall(value + k / 3, length);
    EnumerationMeets(begin, s);
  }

  class MutableTagState {
    var tape: seq<Bit>
    var headState: Byte

    function Snapshot(): TagState
      reads this
    {
      TagState(tape, headState)
    }

    constructor (state: TagState)
      ensures Snapshot() == state
    {
      tape, headState := state.tape, state.headState;
    }

    /** Fills the tape from the last cell with the low bits of the contents. */
    constructor FromContents(tapeLength: nat, tapeContents: nat, inputHeadState: Byte)
      ensures Snapshot() == TagState(Digits(tapeContents, tapeLength), inputHeadState)
    {
      var cells: seq<Bit> := Zeros(tapeLength);
      var contents := tapeContents;
      var i := tapeLength;
      while i > 0
        invariant 0 <= i <= tapeLength == |cells|
        invariant Digits(contents, i) + cells[i..] == Digits(tapeContents, tapeLength)
      {
        i := i - 1;
        ghost var before := cells[i + 1..];
        cells := cells[i := contents % 2];
        assert cells[i..] == [contents % 2] + before;
        assert (Digits(contents / 2, i) + [contents % 2]) + before == Digits(contents / 2, i) + ([contents % 2] + before);
        contents := contents / 2;
      }
      assert cells[0..] == cells;
      tape, headState := cells, inputHeadState;
    }

    /** The carry loop with its early exit, and the overflow to a longer tape. */
    method Increment(phaseCount: nat)
      modifies this
      ensures Snapshot() == Incremented(old(Snapshot()), phaseCount)
    {
      hide Carrying, SuccTape;
      headState := (headState + 1) % 256;
      if headState == phaseCount {
        headState := 0;
        ghost var was := tape;
        CarryStart(was);
        var tapeIndex := |tape| - 1;
        while tapeIndex >= 0
          invariant -1 <= tapeIndex < |tape| == |was| && headState == 0
          invariant Carrying(was, tape, tapeIndex + 1)
        {
          CarryStep(was, tape, tapeIndex + 1);
          if tape[tapeIndex] == 0 {
            tape := tape[tapeIndex := 1];
            break;
          } else {
            tape := tape[tapeIndex := 0];
          }
          tapeIndex := tapeIndex - 1;
        }
        if tapeIndex < 0 {
          CarryOut(was, tape);
          tape := Zeros(|tape| + 1);
          tape := tape[0 := 1];
        }
      }
    }
  }

  /** The carry has turned the ones behind the first i cells into zeros. */
  ghost predicate Carrying(was: seq<Bit>, now: seq<Bit>, i: nat) {
    && i <= |was|
    && was == was[..i] + Ones(|was| - i)
    && now == was[..i] + Zeros(|was| - i)
  }

  lemma CarryStart(tape: seq<Bit>)
    ensures Carrying(tape, tape, |tape|)
  {}

  lemma CarryStep(was: seq<Bit>, now: seq<Bit>, i: nat)
    requires Carrying(was, now, i) && i > 0
    ensures |now| == |was|
    ensures now[i - 1] == 0 ==> now[i - 1 := 1] == SuccTape(was)
    ensures now[i - 1] != 0 ==> Carrying(was, now[i - 1 := 0], i - 1)
  {
    hide Carrying, SuccTape;
    CarrySplit(was, now, i);
    var k, front := |was| - i, was[..i - 1];
    if now[i - 1] == 0 {
      SuccTapeCarry(front, k);
    } else {
      CarryOn(was, now, i);
    }
  }

  lemma CarrySplit(was: seq<Bit>, now: seq<Bit>, i: nat)
    requires Carrying(was, now, i) && i > 0
    ensures |now| == |was| && i <= |was|
    ensures was == was[..i - 1] + [now[i - 1]] + Ones(|was| - i)
    ensures now[i - 1 := 1] == was[..i - 1] + [1] + Zeros(|was| - i)
  {
    assert was[..i] == was[..i - 1] + [was[i - 1]];
  }

  lemma CarryOn(was: seq<Bit>, now: seq<Bit>, i: nat)
    requires Carrying(was, now, i) && i > 0 && i <= |now| && now[i - 1] != 0
    ensures Carrying(was, now[i - 1 := 0], i - 1)
  {
    var k, front := |was| - i, was[..i - 1];
    assert was[..i] == front + [1];
    assert [1] + Ones(k) == Ones(k + 1) && [0] + Zeros(k) == Zeros(k + 1);
  }

  lemma CarryOut(was: seq<Bit>, now: seq<Bit>)
    requires Carrying(was, now, 0)
    ensures |now| == |was| && Zeros(|now| + 1)[0 := 1] == SuccTape(was)
  {
    assert was == Ones(|was|);
    SuccTapeOverflow(|was|);
    assert Zeros(|now| + 1)[0 := 1] == [1] + Zeros(|was|);
  }
}
