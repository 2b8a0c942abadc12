/** Packed states against the original tag systems: Post's of 1921 and 002211. */
module Packing {
  import opened Bits
  import opened TagSystem
  import opened History
  import HistoryTheorems
  import PostLength

  /** A cell of an unpacked tape; blanks may stand where nothing is ever read. */
  datatype Cell = Blank | Symbol(value: nat)

  datatype PackError = InvalidUnpackedTape | InvalidBlanks | InvalidStateFormat | InvalidDrop

  datatype Result<T> = Ok(value: T) | Err(error: PackError)

  /** An unpacked tag system: cells deleted per event, what is appended for the first cell,
      and the bits a cell packs into. */
  datatype TagRules = TagRules(deletion: nat, appendants: seq<seq<nat>>, atomLength: nat) {
    predicate Valid() {
      && (deletion == 2 || deletion == 3) && (atomLength == 1 || atomLength == 2)
      && |appendants| == (if atomLength == 1 then 2 else 3)
      && forall c :: 0 <= c < |appendants| ==> AllSymbols(appendants[c])
    }

    predicate AllSymbols(cells: seq<nat>) {
      forall i :: 0 <= i < |cells| ==> cells[i] < |appendants|
    }
  }

  /** {0,_,_} -> {0,0}, {1,_,_} -> {1,1,0,1} */
  function PostRules(): (r: TagRules)
    ensures r.Valid()
  {
    var r := TagRules(3, [[0, 0], [1, 1, 0, 1]], 1);
    assert r.AllSymbols([0, 0]) && r.AllSymbols([1, 1, 0, 1]);
    r
  }

  /** {0,_} -> {0}, {1,_} -> {0,2}, {2,_} -> {2,1,1} */
  function Rules002211(): (r: TagRules)
    ensures r.Valid()
  {
    var r := TagRules(2, [[0], [0, 2], [2, 1, 1]], 2);
    assert r.AllSymbols([0]) && r.AllSymbols([0, 2]) && r.AllSymbols([2, 1, 1]);
    r
  }

  function Symbols(cells: seq<nat>): (r: seq<Cell>)
    ensures |r| == |cells|
    ensures forall i :: 0 <= i < |r| ==> r[i] == Symbol(cells[i])
  {
    seq(|cells|, i requires 0 <= i < |cells| => Symbol(cells[i]))
  }

  /** One event of the original system; it halts on a tape too short to delete from. */
  function RawStep(r: TagRules, tape: seq<Cell>): seq<Cell>
    requires r.Valid()
  {
    if |tape| < r.deletion || tape[0].Blank? || tape[0].value >= |r.appendants| then tape
    else tape[r.deletion..] + Symbols(r.appendants[tape[0].value])
  }

  function RawRun(r: TagRules, tape: seq<Cell>, n: nat): seq<Cell>
    requires r.Valid()
    decreases n
  {
    if n == 0 then tape else RawRun(r, RawStep(r, tape), n - 1)
  }

  // ---------- packing ----------

  /** The cells that will be read: every `step`-th one after skipping `skip`. */
  function Sample(tape: seq<Cell>, skip: nat, step: nat): seq<Cell>
    requires step > 0
  {
    if |tape| <= skip then [] else [tape[skip]] + Sample(tape[skip + 1..], step - 1, step)
  }

  /** Each atom as atomLength binary digits. */
  function Encode(cells: seq<Cell>, atomLength: nat): seq<Bit> {
    if cells == [] then []
    else (if cells[0].Symbol? then Digits(cells[0].value, atomLength) else Zeros(atomLength)) + Encode(cells[1..], atomLength)
  }

  predicate InAlphabet(r: TagRules, tape: seq<Cell>) {
    forall i :: 0 <= i < |tape| ==> tape[i].Blank? || tape[i].value < |r.appendants|
  }

  predicate NoBlanks(cells: seq<Cell>) {
    forall i :: 0 <= i < |cells| ==> cells[i].Symbol?
  }

  /** toPackedTagSystemState for one of the two systems. */
  function ToPacked(r: TagRules, tape: seq<Cell>): Result<TagState>
    requires r.Valid()
  {
    if !InAlphabet(r, tape) then Err(InvalidUnpackedTape)
    else if !NoBlanks(Sample(tape, 0, r.deletion)) then Err(InvalidBlanks)
    else Ok(Packed(r, tape))
  }

  function Packed(r: TagRules, tape: seq<Cell>): TagState
    requires r.Valid()
  {
    TagState(Encode(Sample(tape, 0, r.deletion), r.atomLength), |tape| % r.deletion)
  }

  // ---------- sampling an appended tape ----------

  /** Cells still to skip after `n` cells of a tape sampled with this skip. */
  function SkipAfter(n: nat, skip: nat, step: nat): nat
    requires step > 0
    decreases n
  {
    if n <= skip then skip - n else SkipAfter(n - skip - 1, step - 1, step)
  }

  lemma {:induction false} SampleConcat(a: seq<Cell>, b: seq<Cell>, skip: nat, step: nat)
    requires step > 0
    ensures Sample(a + b, skip, step) == Sample(a, skip, step) + Sample(b, SkipAfter(|a|, skip, step), step)
    decreases |a|
  {
    if |a| > skip {
      hide *;
      SampleConcat(a[skip + 1..], b, step - 1, step);
      assert (a + b)[skip + 1..] == a[skip + 1..] + b;
      SampleNext(a, skip, step);
      SampleNext(a + b, skip, step);
      ConsConcat(a[skip], Sample(a[skip + 1..], step - 1, step), Sample(b, SkipAfter(|a| - skip - 1, step - 1, step), step));
      SkipNext(|a|, skip, step);
    } else {
      SampleSkip(a, b, skip, step);
    }
  }

  lemma SkipNext(n: nat, skip: nat, step: nat)
    requires step > 0 && n > skip
    ensures SkipAfter(n, skip, step) == SkipAfter(n - skip - 1, step - 1, step)
  {}

  lemma ConsConcat(x: Cell, a: seq<Cell>, b: seq<Cell>)
    ensures [x] + (a + b) == ([x] + a) + b
  {}

  lemma SampleNext(tape: seq<Cell>, skip: nat, step: nat)
    requires step > 0 && skip < |tape|
    ensures Sample(tape, skip, step) == [tape[skip]] + Sample(tape[skip + 1..], step - 1, step)
  {}

  lemma SampleSkip(a: seq<Cell>, b: seq<Cell>, skip: nat, step: nat)
    requires step > 0 && |a| <= skip
    ensures Sample(a + b, skip, step) == Sample(b, skip - |a|, step)
  {
    if |a + b| > skip {
      assert (a + b)[skip + 1..] == b[skip - |a| + 1..];
    }
  }

  /** What is skipped depends on the length only through its remainder: the packed phase. */
  lemma {:induction false} SkipIsPhase(n: nat, skip: nat, step: nat)
    requires 2 <= step <= 3 && skip < step
    ensures SkipAfter(n, skip, step) < step
    ensures step == 2 ==> SkipAfter(n, skip, step) == (skip + n) % 2
    ensures step == 3 ==> SkipAfter(n, skip, step) == (skip + 2 * n) % 3
    decreases n
  {
    if n > skip {
      SkipIsPhase(n - skip - 1, step - 1, step);
      if step == 2 { Mod2(skip, n); } else { Mod3(skip, n); }
    }
  }

  lemma Mod2(skip: nat, n: nat)
    requires n > skip
    ensures (1 + (n - skip - 1)) % 2 == (skip + n) % 2
  {}

  lemma Mod3(skip: nat, n: nat)
    requires n > skip
    ensures (2 + 2 * (n - skip - 1)) % 3 == (skip + 2 * n) % 3
  {}

  lemma {:induction false} EncodeConcat(a: seq<Cell>, b: seq<Cell>, atomLength: nat)
    ensures Encode(a + b, atomLength) == Encode(a, atomLength) + Encode(b, atomLength)
  {
    if a == [] {
      assert a + b == b;
    } else {
      assert (a + b)[1..] == a[1..] + b;
      EncodeConcat(a[1..], b, atomLength);
    }
  }

  // ---------- one event of each system ----------

  /** What is skipped of the appended cells in each phase. */
  function SkipOf(phase: nat, deletion: nat): nat {
    if deletion == 2 then phase % 2 else (2 * phase) % 3
  }

  /** The table row for an atom and a phase is the sampled, encoded appendant. */
  ghost predicate RowAgrees(r: TagRules, rule: ChunkedRule, c: nat, phase: Byte)
    requires r.Valid() && rule.Valid() && rule.inputLength == r.atomLength && rule.phaseCount == r.deletion
    requires c < |r.appendants| && phase < r.deletion
  {
    && rule.Output(Digits(c, r.atomLength), phase)
       == Encode(Sample(Symbols(r.appendants[c]), SkipOf(phase, r.deletion), r.deletion), r.atomLength)
    && rule.NextPhase(Digits(c, r.atomLength), phase) == (phase + |r.appendants[c]|) % r.deletion
  }

  ghost predicate Agrees(r: TagRules, rule: ChunkedRule) {
    && r.Valid() && rule.Valid() && rule.inputLength == r.atomLength && rule.phaseCount == r.deletion
    && forall c: nat, phase: Byte :: c < |r.appendants| && phase < r.deletion ==> RowAgrees(r, rule, c, phase)
  }

  lemma SampleOne(a: Cell, step: nat)
    requires step == 2 || step == 3
    ensures Sample([a], 0, step) == [a] && Sample([a], 1, step) == [] && Sample([a], 2, step) == []
  {
    assert [a][1..] == [];
  }

  lemma SampleTwo(a: Cell, b: Cell, step: nat)
    requires step == 2 || step == 3
    ensures Sample([a, b], 0, step) == [a] && Sample([a, b], 1, step) == [b] && Sample([a, b], 2, step) == []
  {
    assert [a, b][1..] == [b] && [a, b][2..] == [];
    SampleOne(b, step);
  }

  lemma SampleThree(a: Cell, b: Cell, c: Cell)
    ensures Sample([a, b, c], 0, 2) == [a, c] && Sample([a, b, c], 1, 2) == [b]
  {
    assert [a, b, c][1..] == [b, c] && [a, b, c][2..] == [c];
    SampleTwo(b, c, 2);
    SampleOne(c, 2);
  }

  lemma SampleFour(a: Cell, b: Cell, c: Cell, d: Cell)
    ensures Sample([a, b, c, d], 0, 3) == [a, d] && Sample([a, b, c, d], 1, 3) == [b] && Sample([a, b, c, d], 2, 3) == [c]
  {
    assert [a, b, c, d][1..] == [b, c, d] && [a, b, c, d][2..] == [c, d] && [a, b, c, d][3..] == [d];
    assert [b, c, d][3 - 1..] == [d];
    SampleOne(d, 3);
    SampleTwo(c, d, 3);
  }

  lemma EncodeOne(c: nat, atomLength: nat)
    ensures Encode([Symbol(c)], atomLength) == Digits(c, atomLength)
  {
    assert [Symbol(c)][1..] == [];
  }

  lemma EncodeTwo(c: nat, d: nat, atomLength: nat)
    ensures Encode([Symbol(c), Symbol(d)], atomLength) == Digits(c, atomLength) + Digits(d, atomLength)
  {
    EncodeConcat([Symbol(c)], [Symbol(d)], atomLength);
    EncodeOne(c, atomLength);
    EncodeOne(d, atomLength);
    assert [Symbol(c)] + [Symbol(d)] == [Symbol(c), Symbol(d)];
  }

  lemma PostRowAgrees(c: nat, phase: Byte)
    requires c < 2 && phase < 3
    ensures RowAgrees(PostRules(), PostTable(), c, phase)
  {
    PostLength.SmallDigits();
    hide Digits, Sample, Encode, ChunkedRule.Output, ChunkedRule.NextPhase, ChunkedRule.Valid;
    PostLength.PostEvent(c, phase);
    if c == 0 {
      assert Symbols([0, 0]) == [Symbol(0), Symbol(0)];
      SampleTwo(Symbol(0), Symbol(0), 3);
      EncodeOne(0, 1);
      EncodeNothing(1);
    } else {
      assert Symbols([1, 1, 0, 1]) == [Symbol(1), Symbol(1), Symbol(0), Symbol(1)];
      SampleFour(Symbol(1), Symbol(1), Symbol(0), Symbol(1));
      EncodeOne(0, 1);
      EncodeOne(1, 1);
      EncodeTwo(1, 1, 1);
    }
  }

  lemma EncodeNothing(atomLength: nat)
    ensures Encode([], atomLength) == []
  {}

  lemma PostAgrees()
    ensures Agrees(PostRules(), PostTable())
  {
    hide RowAgrees;
    forall c: nat, phase: Byte | c < 2 && phase < 3 ensures RowAgrees(PostRules(), PostTable(), c, phase) { PostRowAgrees(c, phase); }
  }

  /** The rows of the 002211 table, spelled out; the pair 11 stands for no cell. */
  lemma Event002211(c: nat, phase: Byte)
    requires c < 4 && phase < 2
    ensures var rule := RuleTable(Rule002211);
            && rule.Output(Digits(c, 2), phase) ==
                 (if c == 0 then (if phase == 0 then [0, 0] else [])
                  else if c == 1 then (if phase == 0 then [0, 0] else [1, 0])
                  else if c == 2 then (if phase == 0 then [1, 0, 0, 1] else [0, 1])
                  else [])
            && rule.NextPhase(Digits(c, 2), phase) ==
                 (if c == 0 then 1 - phase else if c == 1 then phase else if c == 2 then 1 - phase else 0)
  {
    PostLength.SmallDigits();
    hide Digits, ChunkedRule.Row, ChunkedRule.Valid;
    Row002211(c, phase);
    if c == 0 {
      if phase == 0 {} else {}
    } else if c == 1 {
      if phase == 0 {} else {}
    } else if c == 2 {
      if phase == 0 {} else {}
    } else {
      if phase == 0 {} else {}
    }
  }

  lemma Row002211(c: nat, phase: Byte)
    requires c < 4 && phase < 2
    ensures Table002211().Row(Digits(c, 2), phase) == 2 * c + phase
  {
    hide Digits, Value, Low;
    ValueOfDigits(c, 2);
    Pow2Values();
    LowSmall(c, 2);
  }

  lemma RowAgrees002211(c: nat, phase: Byte)
    requires c < 3 && phase < 2
    ensures RowAgrees(Rules002211(), Table002211(), c, phase)
  {
    PostLength.SmallDigits();
    hide Digits, Sample, Encode, ChunkedRule.Output, ChunkedRule.NextPhase, ChunkedRule.Valid;
    Event002211(c, phase);
    if c == 0 {
      assert Symbols([0]) == [Symbol(0)];
      SampleOne(Symbol(0), 2);
      EncodeOne(0, 2);
      EncodeNothing(2);
    } else if c == 1 {
      assert Symbols([0, 2]) == [Symbol(0), Symbol(2)];
      SampleTwo(Symbol(0), Symbol(2), 2);
      EncodeOne(0, 2);
      EncodeOne(2, 2);
    } else {
      assert Symbols([2, 1, 1]) == [Symbol(2), Symbol(1), Symbol(1)];
      SampleThree(Symbol(2), Symbol(1), Symbol(1));
      EncodeOne(1, 2);
      EncodeTwo(2, 1, 2);
    }
  }

  lemma Agrees002211()
    ensures Agrees(Rules002211(), Table002211())
  {
    hide RowAgrees;
    forall c: nat, phase: Byte | c < 3 && phase < 2 ensures RowAgrees(Rules002211(), Table002211(), c, phase) { RowAgrees002211(c, phase); }
  }

  // ---------- simulation ----------

  /** A tape that packs without error. */
  predicate Packable(r: TagRules, tape: seq<Cell>)
    requires r.Valid()
  {
    InAlphabet(r, tape) && NoBlanks(Sample(tape, 0, r.deletion))
  }

  /** The sampled cells are those at the multiples of the step. */
  lemma {:induction false} SampleAt(tape: seq<Cell>, step: nat, k: nat)
    requires step == 2 || step == 3
    ensures k < |Sample(tape, 0, step)| <==> step * k < |tape|
    ensures step * k < |tape| ==> Sample(tape, 0, step)[k] == tape[step * k]
    decreases |tape|
  {
    hide Sample;
    if |tape| >= step {
      SampleFirst(tape, step);
      if k > 0 { SampleAt(tape[step..], step, k - 1); }
    } else if tape != [] {
      SampleShort(tape, step);
    } else {
      SampleNothing(step);
    }
  }

  lemma SampleNothing(step: nat)
    requires step > 0
    ensures Sample([], 0, step) == []
  {}

  /** When packing succeeds, and with what error it fails otherwise: every cell must be a blank
      or in the alphabet, and no blank may stand at a multiple of the deletion number. */
  lemma PackingErrors(r: TagRules, tape: seq<Cell>)
    requires r.Valid()
    ensures ToPacked(r, tape).Ok? <==> Packable(r, tape)
    ensures ToPacked(r, tape) == Err(InvalidUnpackedTape) <==>
              exists i :: 0 <= i < |tape| && tape[i].Symbol? && tape[i].value >= |r.appendants|
    ensures ToPacked(r, tape) == Err(InvalidBlanks) <==>
              && (forall i :: 0 <= i < |tape| && tape[i].Symbol? ==> tape[i].value < |r.appendants|)
              && exists k :: 0 <= k && r.deletion * k < |tape| && tape[r.deletion * k] == Blank
    ensures ToPacked(r, tape).Ok? ==> ToPacked(r, tape).value.headState == |tape| % r.deletion
  {
    hide Sample, Encode;
    var cells := Sample(tape, 0, r.deletion);
    forall k: nat
      ensures k < |cells| <==> r.deletion * k < |tape|
      ensures r.deletion * k < |tape| ==> cells[k] == tape[r.deletion * k]
    {
      SampleAt(tape, r.deletion, k);
    }
  }

  /** A packed tape holds, bit for bit, the cells at the multiples of the deletion number. */
  lemma {:induction false} EncodeAt(cells: seq<Cell>, a: nat, k: nat)
    requires (a == 1 || a == 2) && k < |cells| && cells[k].Symbol?
    ensures a * k + a <= |Encode(cells, a)| && Encode(cells, a)[a * k..a * k + a] == Digits(cells[k].value, a)
    decreases k
  {
    EncodeAtomLength(cells, a);
    var first := if cells[0].Symbol? then Digits(cells[0].value, a) else Zeros(a);
    assert |first| == a && Encode(cells, a) == first + Encode(cells[1..], a);
    hide *;
    if k > 0 {
      EncodeAt(cells[1..], a, k - 1);
      Atomwise(a, k);
      SliceBehind(first, Encode(cells[1..], a), a * (k - 1), a);
    }
  }

  lemma Atomwise(a: nat, k: nat)
    requires (a == 1 || a == 2) && k > 0
    ensures a * k == a + a * (k - 1) && a * (k - 1) >= 0
  {}

  lemma SliceBehind(first: seq<Bit>, rest: seq<Bit>, i: nat, n: nat)
    requires i + n <= |rest|
    ensures (first + rest)[|first| + i..|first| + i + n] == rest[i..i + n]
  {}

  /** Every third cell, or every second one, as its digits. */
  lemma PackedAt(r: TagRules, tape: seq<Cell>, k: nat)
    requires r.Valid() && Packable(r, tape) && r.deletion * k < |tape|
    ensures tape[r.deletion * k].Symbol? && r.atomLength * k + r.atomLength <= |Packed(r, tape).tape|
    ensures Packed(r, tape).tape[r.atomLength * k..r.atomLength * k + r.atomLength] == Digits(tape[r.deletion * k].value, r.atomLength)
    ensures |Packed(r, tape).tape| == r.atomLength * ((|tape| + r.deletion - 1) / r.deletion)
  {
    hide Sample, Encode, Digits;
    SampleAt(tape, r.deletion, k);
    EncodeAt(Sample(tape, 0, r.deletion), r.atomLength, k);
    EncodeAtomLength(Sample(tape, 0, r.deletion), r.atomLength);
    SampleLength(tape, r.deletion);
    if r.deletion == 2 {} else {}
  }

  /** What PostLength calls the unpacked length is the length of the unpacked tape. */
  lemma RawLengthIsLength(tape: seq<Cell>)
    requires Packable(PostRules(), tape)
    ensures PostLength.RawLength(Packed(PostRules(), tape)) == |tape|
  {
    hide Sample, Encode;
    EncodeAtomLength(Sample(tape, 0, 3), 1);
    SampleLength(tape, 3);
  }

  /** Deleting a full group removes exactly the first sampled cell. */
  lemma SampleFirst(tape: seq<Cell>, step: nat)
    requires 0 < step <= |tape|
    ensures Sample(tape, 0, step) == [tape[0]] + Sample(tape[step..], 0, step)
  {
    if step < |tape| {
      assert tape[1..][step..] == tape[step..][1..];
    }
  }

  lemma SampleDeleted(tape: seq<Cell>, cells: seq<Cell>, step: nat)
    requires 2 <= step <= 3 && step <= |tape|
    ensures Sample(tape[step..] + cells, 0, step)
         == Sample(tape[step..], 0, step) + Sample(cells, SkipOf(|tape| % step, step), step)
  {
    hide Sample, SkipOf, SkipAfter;
    SampleConcat(tape[step..], cells, 0, step);
    SkipDeleted(|tape|, step);
  }

  lemma SkipDeleted(n: nat, step: nat)
    requires 2 <= step <= 3 && step <= n
    ensures SkipAfter(n - step, 0, step) == SkipOf(n % step, step)
  {
    hide SkipAfter;
    SkipIsPhase(n - step, 0, step);
    if step == 2 {
      assert (n - 2) % 2 == n % 2;
    } else {
      TwiceMod3(n);
    }
  }

  lemma TwiceMod3(n: nat)
    requires n >= 3
    ensures (2 * (n - 3)) % 3 == (2 * (n % 3)) % 3
  {}

  /** One raw event is one packed event. */
  lemma Simulation(r: TagRules, rule: ChunkedRule, tape: seq<Cell>)
    requires Agrees(r, rule) && Packable(r, tape) && |tape| >= r.deletion
    ensures Packable(r, RawStep(r, tape))
    ensures Packed(r, RawStep(r, tape)) == Step(rule, Packed(r, tape))
  {
    hide Sample, Encode, Digits, ChunkedRule.Output, ChunkedRule.NextPhase;
    var d, a := r.deletion, r.atomLength;
    SampleFirst(tape, d);
    assert tape[0].Symbol? && tape[0].value < |r.appendants| by { assert Sample(tape, 0, d)[0] == tape[0]; }
    var c := tape[0].value;
    var u, app := tape[d..], Symbols(r.appendants[c]);
    assert r.AllSymbols(r.appendants[c]);
    SampleDeleted(tape, app, d);
    assert RowAgrees(r, rule, c, |tape| % d);
    var kept, added := Sample(u, 0, d), Sample(app, SkipOf(|tape| % d, d), d);
    SampleNoBlanks(app, SkipOf(|tape| % d, d), d);
    assert NoBlanks(kept) by { KeptNoBlanks(tape[0], kept); }
    assert InAlphabet(r, u + app);
    EncodeConcat([tape[0]], kept, a);
    EncodeOne(c, a);
    EncodeConcat(kept, added, a);
    PackedStep(r, rule, tape, c, Encode(kept, a), Encode(added, a));
  }

  lemma KeptNoBlanks(first: Cell, kept: seq<Cell>)
    requires NoBlanks([first] + kept)
    ensures NoBlanks(kept)
  {
    forall i | 0 <= i < |kept| ensures kept[i].Symbol? { assert ([first] + kept)[i + 1] == kept[i]; }
  }

  lemma {:induction false} SampleNoBlanks(cells: seq<Cell>, skip: nat, step: nat)
    requires step > 0 && NoBlanks(cells)
    ensures NoBlanks(Sample(cells, skip, step))
    decreases |cells|
  {
    if |cells| > skip { SampleNoBlanks(cells[skip + 1..], step - 1, step); }
  }

  /** The packed side of one event, once the pieces are named. */
  lemma PackedStep(r: TagRules, rule: ChunkedRule, tape: seq<Cell>, c: nat, kept: seq<Bit>, added: seq<Bit>)
    requires Agrees(r, rule) && |tape| >= r.deletion && tape[0] == Symbol(c) && c < |r.appendants|
    requires Packed(r, tape) == TagState(Digits(c, r.atomLength) + kept, |tape| % r.deletion)
    requires added == Encode(Sample(Symbols(r.appendants[c]), SkipOf(|tape| % r.deletion, r.deletion), r.deletion), r.atomLength)
    requires Packed(r, RawStep(r, tape)).tape == kept + added
    ensures Packed(r, RawStep(r, tape)) == Step(rule, Packed(r, tape))
  {
    hide Sample, Encode, Digits, ChunkedRule.Output, ChunkedRule.NextPhase, SkipOf;
    var s := Packed(r, tape);
    assert s.tape[..r.atomLength] == Digits(c, r.atomLength) && s.tape[r.atomLength..] == kept;
    assert RowAgrees(r, rule, c, |tape| % r.deletion);
    PhaseAfter(|tape|, |r.appendants[c]|, r.deletion);
  }

  lemma PhaseAfter(n: nat, added: nat, d: nat)
    requires (d == 2 || d == 3) && n >= d
    ensures (n - d + added) % d == (n % d + added) % d
  {
    if d == 2 {} else {}
  }

  /** Lifted to n events, while the raw tape stays long enough. */
  lemma {:induction false} SimulationRun(r: TagRules, rule: ChunkedRule, tape: seq<Cell>, n: nat)
    requires Agrees(r, rule) && Packable(r, tape)
    requires forall k :: 0 <= k < n ==> |RawRun(r, tape, k)| >= r.deletion
    ensures Packable(r, RawRun(r, tape, n))
    ensures Packed(r, RawRun(r, tape, n)) == Run(rule, Packed(r, tape), n)
    decreases n
  {
    hide Agrees, Packable, Packed, Step, RawStep;
    AgreesValid(r, rule);
    if n > 0 {
      assert RawRun(r, tape, 0) == tape;
      Simulation(r, rule, tape);
      forall k | 0 <= k < n - 1
        ensures |RawRun(r, RawStep(r, tape), k)| >= r.deletion
      {
        assert RawRun(r, tape, k + 1) == RawRun(r, RawStep(r, tape), k);
      }
      SimulationRun(r, rule, RawStep(r, tape), n - 1);
    }
  }

  lemma AgreesValid(r: TagRules, rule: ChunkedRule)
    requires Agrees(r, rule)
    ensures r.Valid() && rule.Valid() && rule.inputLength == r.atomLength && rule.phaseCount == r.deletion
    ensures 2 <= r.deletion <= 3
  {}

  /** The two original systems with their packed tables. */
  predicate Original(r: TagRules, rule: ChunkedRule) {
    (r == PostRules() && rule == RuleTable(Post)) || (r == Rules002211() && rule == RuleTable(Rule002211))
  }

  lemma OriginalAgrees(r: TagRules, rule: ChunkedRule)
    requires Original(r, rule)
    ensures Agrees(r, rule)
  {
    hide Agrees;
    PostAgrees();
    Agrees002211();
  }

  /** A tape too short for an event halts the original system, while its packing, if not
      empty, still has a cell to read: the simulation of a step is exact up to that point. */
  lemma SimulationExact(r: TagRules, rule: ChunkedRule, tape: seq<Cell>)
    requires Original(r, rule) && r.Valid() && rule.Valid() && Packable(r, tape)
    ensures |tape| >= r.deletion || tape == [] <==> Packed(r, RawStep(r, tape)) == Step(rule, Packed(r, tape))
  {
    hide Agrees, Packable, Packed, Step, RawStep, Original, TagRules.Valid, ChunkedRule.Valid;
    OriginalAgrees(r, rule);
    if |tape| >= r.deletion {
      Simulation(r, rule, tape);
    } else if tape == [] {
      EmptyTape(r, rule);
    } else {
      ShortTape(r, rule, tape);
    }
  }

  lemma EmptyTape(r: TagRules, rule: ChunkedRule)
    requires Agrees(r, rule)
    ensures Packed(r, RawStep(r, [])) == Step(rule, Packed(r, []))
  {}

  lemma ShortTape(r: TagRules, rule: ChunkedRule, tape: seq<Cell>)
    requires Original(r, rule) && Agrees(r, rule) && Packable(r, tape) && 0 < |tape| < r.deletion
    ensures Packed(r, RawStep(r, tape)) != Step(rule, Packed(r, tape))
  {
    hide *;
    AgreesValid(r, rule);
    var c := ShortEvent(r, rule, tape);
    OriginalMoves(r, rule, c, |tape|);
  }

  /** No row of either table leaves both the cells and the phase as they were. */
  lemma OriginalMoves(r: TagRules, rule: ChunkedRule, c: nat, phase: Byte)
    requires Original(r, rule) && r.Valid() && rule.Valid() && rule.inputLength == r.atomLength
    requires c < |r.appendants| && 0 < phase < r.deletion && phase < rule.phaseCount
    ensures rule.Output(Digits(c, r.atomLength), phase) != Digits(c, r.atomLength)
         || rule.NextPhase(Digits(c, r.atomLength), phase) != phase
  {
    hide ChunkedRule.Output, ChunkedRule.NextPhase, ChunkedRule.Valid, TagRules.Valid, Digits;
    if r == PostRules() {
      PostRowMoves(c, phase);
    } else {
      Row002211Moves(c);
    }
  }

  /** What the packed machine does on a tape that is too short for the original system. */
  lemma ShortEvent(r: TagRules, rule: ChunkedRule, tape: seq<Cell>) returns (c: nat)
    requires Agrees(r, rule) && Packable(r, tape) && 0 < |tape| < r.deletion
    ensures c < |r.appendants|
    ensures Packed(r, RawStep(r, tape)) == TagState(Digits(c, r.atomLength), |tape|)
    ensures Step(rule, Packed(r, tape)) ==
              TagState(rule.Output(Digits(c, r.atomLength), |tape|), rule.NextPhase(Digits(c, r.atomLength), |tape|))
  {
    hide Sample, Encode, Digits, ChunkedRule.Output, ChunkedRule.NextPhase;
    SampleShort(tape, r.deletion);
    assert tape[0].Symbol? && tape[0].value < |r.appendants| by { assert Sample(tape, 0, r.deletion)[0] == tape[0]; }
    c := tape[0].value;
    EncodeOne(c, r.atomLength);
    var bits := Packed(r, tape).tape;
    assert bits == Digits(c, r.atomLength) && bits[..r.atomLength] == bits && bits[r.atomLength..] == [];
  }

  lemma PostRowMoves(c: nat, phase: Byte)
    requires c < 2 && phase < 3
    ensures PostTable().NextPhase(Digits(c, 1), phase) != phase
  {
    hide ChunkedRule.Output, ChunkedRule.NextPhase, ChunkedRule.Valid, Digits;
    PostLength.SmallDigits();
    PostLength.PostEvent(c, phase);
  }

  lemma Row002211Moves(c: nat)
    requires c < 3
    ensures Table002211().NextPhase(Digits(c, 2), 1) != 1 || Table002211().Output(Digits(c, 2), 1) != Digits(c, 2)
  {
    hide ChunkedRule.Output, ChunkedRule.NextPhase, ChunkedRule.Valid, Digits;
    PostLength.SmallDigits();
    Event002211(c, 1);
  }

  // ---------- the chunked engine runs the original system ----------

  lemma EncodeLength(cells: seq<Cell>, a: nat)
    ensures |cells| <= 1 ==> |Encode(cells, a)| <= a
  {
    if |cells| == 1 { assert cells[1..] == []; }
  }

  /** More than one packed cell means more than enough unpacked ones. */
  lemma LongEnough(r: TagRules, tape: seq<Cell>)
    requires r.Valid() && |Packed(r, tape).tape| > r.atomLength
    ensures |tape| > r.deletion
  {
    var cells := Sample(tape, 0, r.deletion);
    if |tape| <= r.deletion {
      FewSampled(tape, 0, r.deletion);
      EncodeLength(cells, r.atomLength);
    }
  }

  lemma FewSampled(tape: seq<Cell>, skip: nat, step: nat)
    requires step > 0 && |tape| <= skip + step
    ensures |Sample(tape, skip, step)| <= 1
  {
    if |tape| > skip { assert |tape[skip + 1..]| <= step - 1; }
  }

  /** While the packed run stays live, so does the original one. */
  lemma {:induction false} RawStaysLong(r: TagRules, rule: ChunkedRule, tape: seq<Cell>, n: nat)
    requires Agrees(r, rule) && Packable(r, tape)
    requires forall k :: 0 <= k < n ==> |Run(rule, Packed(r, tape), k).tape| > r.atomLength
    ensures forall k :: 0 <= k < n ==> |RawRun(r, tape, k)| >= r.deletion
    decreases n
  {
    hide Agrees, Packable, Packed, Run, RawRun;
    AgreesValid(r, rule);
    if n > 0 {
      RawStaysLong(r, rule, tape, n - 1);
      SimulationRun(r, rule, tape, n - 1);
      LongEnough(r, RawRun(r, tape, n - 1));
    }
  }

  /** End to end: started on a packed tape, the chunked engine reports exactly the packing of
      the original system's tape after eventCount original events, none of which was
      impossible. */
  lemma EngineRunsOriginal(r: TagRules, cfg: Config, inits: seq<TagState>, es: seq<nat>, result: EvaluationResult, tape: seq<Cell>)
    requires cfg.Valid() && Agrees(r, cfg.rule) && Packable(r, tape)
    requires Outcome(cfg, inits, es, result) && inits[|es|] == Packed(r, tape)
    ensures forall k :: 0 <= k < result.eventCount ==> |RawRun(r, tape, k)| >= r.deletion
    ensures Packable(r, RawRun(r, tape, result.eventCount))
    ensures result.finalState == Packed(r, RawRun(r, tape, result.eventCount))
  {
    AgreesValid(r, cfg.rule);
    var init := inits[|es|];
    assert Admissible(cfg.rule, init);
    assert result.finalState == Run(cfg.rule, init, result.eventCount);
    hide Agrees, Packable, Packed, Run, RawRun, Outcome, Admissible;
    forall k | 0 <= k < result.eventCount
      ensures |Run(cfg.rule, init, k).tape| > r.atomLength
    {
      HistoryTheorems.LiveUntilStop(cfg, inits, es, result, k);
    }
    RawStaysLong(r, cfg.rule, tape, result.eventCount);
    SimulationRun(r, cfg.rule, tape, result.eventCount);
  }

  // ---------- a cycle of the engine is a cycle of the original system ----------

  lemma {:induction false} EncodeAtomLength(cells: seq<Cell>, a: nat)
    ensures a * |cells| >= 0 && |Encode(cells, a)| == a * |cells|
  {
    if cells != [] {
      EncodeAtomLength(cells[1..], a);
      assert a * |cells| == a * |cells[1..]| + a;
    }
  }

  lemma {:induction false} SampleLength(tape: seq<Cell>, d: nat)
    requires d == 2 || d == 3
    ensures |Sample(tape, 0, d)| == if d == 2 then (|tape| + 1) / 2 else (|tape| + 2) / 3
    decreases |tape|
  {
    if |tape| >= d {
      hide Sample;
      SampleFirst(tape, d);
      SampleLength(tape[d..], d);
    } else if tape != [] {
      SampleShort(tape, d);
    }
  }

  lemma LengthFromSample(m: nat, n: nat, d: nat)
    requires d == 2 || d == 3
    requires if d == 2 then (m + 1) / 2 == (n + 1) / 2 && m % 2 == n % 2 else (m + 2) / 3 == (n + 2) / 3 && m % 3 == n % 3
    ensures m == n
  {}

  /** The packing determines the length of a tape. */
  lemma SameLength(r: TagRules, a: seq<Cell>, b: seq<Cell>)
    requires r.Valid() && Packed(r, a) == Packed(r, b)
    ensures |a| == |b|
  {
    hide Sample, Encode;
    var d := r.deletion;
    EncodeAtomLength(Sample(a, 0, d), r.atomLength);
    EncodeAtomLength(Sample(b, 0, d), r.atomLength);
    SampleLength(a, d);
    SampleLength(b, d);
    LengthFromSample(|a|, |b|, d);
  }

  /** The packing determines the cell that is read next. */
  lemma FirstCell(r: TagRules, tape: seq<Cell>)
    requires r.Valid() && Packable(r, tape) && |tape| >= r.deletion
    ensures tape[0].Symbol? && tape[0].value < |r.appendants| && |Packed(r, tape).tape| >= r.atomLength
    ensures tape[0].value == Value(Packed(r, tape).tape[..r.atomLength])
  {
    hide Sample, Encode, Digits, Value;
    var rest := Sample(tape[r.deletion..], 0, r.deletion);
    SampleFirst(tape, r.deletion);
    assert tape[0].Symbol? && tape[0].value < |r.appendants| by { assert Sample(tape, 0, r.deletion)[0] == tape[0]; }
    EncodeConcat([tape[0]], rest, r.atomLength);
    EncodeOne(tape[0].value, r.atomLength);
    Pow2Values();
    ValueOfDigits(tape[0].value, r.atomLength);
    LowSmall(tape[0].value, r.atomLength);
    assert Packed(r, tape).tape == Digits(tape[0].value, r.atomLength) + Encode(rest, r.atomLength);
  }

  /** Two tapes with the same packing differ only in cells that are never read; each event
      deletes some of those, and none is ever appended. */
  lemma {:induction false} UnreadVanish(r: TagRules, rule: ChunkedRule, a: seq<Cell>, b: seq<Cell>, w: nat, n: nat)
    requires Agrees(r, rule) && Packable(r, a) && Packable(r, b) && Packed(r, a) == Packed(r, b)
    requires w <= |a| && w <= |b| && a[w..] == b[w..] && w <= n
    requires forall k :: 0 <= k < n ==> |RawRun(r, a, k)| >= r.deletion
    ensures RawRun(r, a, n) == RawRun(r, b, n)
    decreases n
  {
    hide Agrees, Packable, Packed, Step;
    AgreesValid(r, rule);
    if w == 0 {
      assert a[0..] == a && b[0..] == b;
    } else {
      assert RawRun(r, a, 0) == a;
      SameLength(r, a, b);
      RawStepShared(r, a, b, w);
      Simulation(r, rule, a);
      Simulation(r, rule, b);
      forall k | 0 <= k < n - 1
        ensures |RawRun(r, RawStep(r, a), k)| >= r.deletion
      {
        assert RawRun(r, a, k + 1) == RawRun(r, RawStep(r, a), k);
      }
      hide RawStep;
      UnreadVanish(r, rule, RawStep(r, a), RawStep(r, b), if w < r.deletion then 0 else w - r.deletion, n - 1);
    }
  }

  lemma RawStepShared(r: TagRules, a: seq<Cell>, b: seq<Cell>, w: nat)
    requires r.Valid() && Packable(r, a) && Packable(r, b) && Packed(r, a) == Packed(r, b)
    requires |a| == |b| >= r.deletion && w <= |a| && a[w..] == b[w..]
    ensures var w' := if w < r.deletion then 0 else w - r.deletion;
            && w' <= |RawStep(r, a)| && w' <= |RawStep(r, b)|
            && RawStep(r, a)[w'..] == RawStep(r, b)[w'..]
  {
    hide Packable, Packed;
    FirstCell(r, a);
    FirstCell(r, b);
    var d, app := r.deletion, Symbols(r.appendants[a[0].value]);
    assert RawStep(r, a) == a[d..] + app && RawStep(r, b) == b[d..] + app;
    hide RawStep;
    if w < d {
      assert a[d..] == a[w..][d - w..] && b[d..] == b[w..][d - w..];
    } else {
      assert (a[d..] + app)[w - d..] == a[w..] + app && (b[d..] + app)[w - d..] == b[w..] + app;
    }
  }

  lemma {:induction false} RawRunAdd(r: TagRules, tape: seq<Cell>, m: nat, n: nat)
    requires r.Valid()
    ensures RawRun(r, tape, m + n) == RawRun(r, RawRun(r, tape, m), n)
    decreases m
  {
    hide RawStep;
    if m > 0 { RawRunAdd(r, RawStep(r, tape), m - 1, n); }
  }

  /** After a reported cycle the packed tape always has cells to spare. */
  lemma CycleStaysLong(cfg: Config, inits: seq<TagState>, es: seq<nat>, result: EvaluationResult, k: nat)
    requires cfg.Valid() && Outcome(cfg, inits, es, result) && Admissible(cfg.rule, inits[|es|])
    requires result.conclusionReason == ReachedAutomaticCheckpoint
    ensures |Run(cfg.rule, inits[|es|], k).tape| > cfg.rule.inputLength
  {
    hide Run, Outcome, Admissible, Continues, Seen;
    HistoryTheorems.EventLimit(cfg, inits, es, result);
    var t := HistoryTheorems.CycleStart(cfg, inits, es, result);
    var m := k;
    if k >= t { m := RunWraps(cfg.rule, inits[|es|], t, result.eventCount - t, k, 1); }
    HistoryTheorems.LiveUntilStop(cfg, inits, es, result, m);
  }

  /** A cycle reported for a packed tape is a cycle of the original system, which never halts:
      some tape recurs cell by cell, the cells that are never read included. */
  lemma EngineFindsOriginalCycle(r: TagRules, cfg: Config, inits: seq<TagState>, es: seq<nat>, result: EvaluationResult, tape: seq<Cell>)
    returns (n: nat, period: nat)
    requires cfg.Valid() && Agrees(r, cfg.rule) && Packable(r, tape)
    requires Outcome(cfg, inits, es, result) && inits[|es|] == Packed(r, tape)
    requires result.conclusionReason == ReachedAutomaticCheckpoint
    ensures period > 0 && RawRun(r, tape, n) == RawRun(r, tape, n + period)
    ensures forall k: nat :: |RawRun(r, tape, k)| >= r.deletion
  {
    hide Agrees, Packable, Packed, Run, RawRun, Outcome, Admissible, Continues, Seen;
    AgreesValid(r, cfg.rule);
    PackedAdmissible(r, cfg.rule, tape);
    HistoryTheorems.EventLimit(cfg, inits, es, result);
    forall k: nat
      ensures |Run(cfg.rule, Packed(r, tape), k).tape| > r.atomLength
    {
      CycleStaysLong(cfg, inits, es, result, k);
    }
    forall k: nat
      ensures |RawRun(r, tape, k)| >= r.deletion
    {
      RawStaysLong(r, cfg.rule, tape, k + 1);
    }
    var t := HistoryTheorems.CycleStart(cfg, inits, es, result);
    period := result.eventCount - t;
    var a, b := RawRun(r, tape, t), RawRun(r, tape, t + period);
    SimulationRun(r, cfg.rule, tape, t);
    SimulationRun(r, cfg.rule, tape, t + period);
    SameLength(r, a, b);
    n := t + |a|;
    forall k | 0 <= k < |a|
      ensures |RawRun(r, a, k)| >= r.deletion
    {
      RawRunAdd(r, tape, t, k);
    }
    UnreadVanish(r, cfg.rule, a, b, |a|, |a|);
    RawRunAdd(r, tape, t, |a|);
    RawRunAdd(r, tape, t + period, |a|);
  }

  lemma PackedAdmissible(r: TagRules, rule: ChunkedRule, tape: seq<Cell>)
    requires Agrees(r, rule)
    ensures Admissible(rule, Packed(r, tape))
  {}

  // ---------- unpacking ----------

  /** FromDigits over full groups; a last incomplete group is dropped. */
  function Atoms(tape: seq<Bit>, atomLength: nat): seq<nat>
    requires atomLength > 0
  {
    if |tape| < atomLength then [] else [Value(tape[..atomLength])] + Atoms(tape[atomLength..], atomLength)
  }

  function Blanks(n: nat): (b: seq<Cell>)
    ensures |b| == n
  {
    seq(n, _ => Blank)
  }

  /** An atom followed by deletion - 1 blanks. */
  function Group(atom: nat, deletion: nat): (g: seq<Cell>)
    requires deletion > 0
    ensures |g| == deletion && g[0] == Symbol(atom)
  {
    [Symbol(atom)] + Blanks(deletion - 1)
  }

  function Spread(atoms: seq<nat>, deletion: nat): seq<Cell>
    requires deletion > 0
  {
    if atoms == [] then [] else Group(atoms[0], deletion) + Spread(atoms[1..], deletion)
  }

  /** fromPackedTagSystemState: the pattern check on the phase, then the trailing blanks are
      dropped, which fails on an empty tape with a phase. */
  function FromPacked(r: TagRules, s: TagState): Result<seq<Cell>>
    requires r.Valid()
  {
    if s.headState >= r.deletion then Err(InvalidStateFormat)
    else
      var phase0Tape := Spread(Atoms(s.tape, r.atomLength), r.deletion);
      var elementsToDrop := (r.deletion - s.headState as int) % r.deletion;
      if elementsToDrop > |phase0Tape| then Err(InvalidDrop)
      else Ok(phase0Tape[..|phase0Tape| - elementsToDrop])
  }

  lemma {:induction false} AtomsLength(tape: seq<Bit>, a: nat)
    requires a == 1 || a == 2
    ensures |Atoms(tape, a)| == if a == 1 then |tape| else |tape| / 2
    decreases |tape|
  {
    if |tape| >= a {
      hide Atoms;
      AtomsStep(tape, a);
      AtomsLength(tape[a..], a);
    }
  }

  /** Atom k, read off its bits. */
  lemma {:induction false} AtomAt(tape: seq<Bit>, a: nat, k: nat)
    requires (a == 1 || a == 2) && k < |Atoms(tape, a)|
    ensures a * k + a <= |tape| && Atoms(tape, a)[k] == Value(tape[a * k..a * k + a])
    decreases k
  {
    AtomsEmpty(tape, a);
    hide *;
    AtomsStep(tape, a);
    if k > 0 {
      AtomAt(tape[a..], a, k - 1);
      Atomwise(a, k);
      SliceBehind(tape[..a], tape[a..], a * (k - 1), a);
      assert tape[..a] + tape[a..] == tape;
    }
  }

  /** Group k of a spread tape. */
  lemma {:induction false} SpreadAt(atoms: seq<nat>, d: nat, k: nat)
    requires (d == 2 || d == 3) && k < |atoms|
    ensures d * k + d <= |Spread(atoms, d)| == d * |atoms|
    ensures Spread(atoms, d)[d * k] == Symbol(atoms[k])
    ensures Spread(atoms, d)[d * k + 1] == Blank && Spread(atoms, d)[d * k + d - 1] == Blank
    decreases k
  {
    SpreadLength(atoms, d);
    if k > 0 {
      hide Group;
      SpreadAt(atoms[1..], d, k - 1);
      assert Spread(atoms, d) == Group(atoms[0], d) + Spread(atoms[1..], d);
      assert d * k == d + d * (k - 1);
    } else {
      assert Spread(atoms, d) == Group(atoms[0], d) + Spread(atoms[1..], d);
    }
  }

  /** What unpacking gives: it fails for an unknown phase, and for a phase on a tape without a
      whole atom; otherwise atom k stands at the k-th multiple of the deletion number, followed
      by blanks, and the length has the phase as its remainder. */
  lemma UnpackedAt(r: TagRules, s: TagState, k: nat)
    requires r.Valid()
    ensures FromPacked(r, s) == Err(InvalidStateFormat) <==> s.headState >= r.deletion
    ensures FromPacked(r, s) == Err(InvalidDrop) <==> 0 < s.headState < r.deletion && |s.tape| < r.atomLength
    ensures s.headState < r.deletion && (s.headState == 0 || |s.tape| >= r.atomLength) ==>
              && FromPacked(r, s).Ok?
              && var tape, atoms := FromPacked(r, s).value, Atoms(s.tape, r.atomLength);
              && |tape| % r.deletion == s.headState && r.deletion * |atoms| - r.deletion < |tape| <= r.deletion * |atoms|
              && |atoms| == (if r.atomLength == 1 then |s.tape| else |s.tape| / 2)
              && (k < |atoms| ==>
                    && r.atomLength * k + r.atomLength <= |s.tape|
                    && atoms[k] == Value(s.tape[r.atomLength * k..r.atomLength * k + r.atomLength]))
              && (k < |atoms| ==> r.deletion * k < |tape| && tape[r.deletion * k] == Symbol(atoms[k]))
              && (k < |atoms| && r.deletion * k + 1 < |tape| ==> tape[r.deletion * k + 1] == Blank)
              && (k < |atoms| && r.deletion * k + r.deletion - 1 < |tape| ==> tape[r.deletion * k + r.deletion - 1] == Blank)
  {
    hide Spread, Atoms, Value;
    var d := r.deletion;
    var atoms := Atoms(s.tape, r.atomLength);
    AtomsEmpty(s.tape, r.atomLength);
    AtomsLength(s.tape, r.atomLength);
    if k < |atoms| { AtomAt(s.tape, r.atomLength, k); }
    SpreadLength(atoms, d);
    if s.headState < d {
      LengthPhase(d, |atoms|, s.headState);
      CutBelow(d, s.headState);
      if k < |atoms| {
        SpreadAt(atoms, d, k);
        GroupsBelow(d, k, |atoms|);
      }
    }
  }

  lemma CutBelow(d: nat, phase: nat)
    requires (d == 2 || d == 3) && phase < d
    ensures (d - phase as int) % d < d && ((d - phase as int) % d == 0 <==> phase == 0)
  {
    if d == 2 {} else {}
  }

  lemma GroupsBelow(d: nat, k: nat, n: nat)
    requires (d == 2 || d == 3) && k < n
    ensures d * k <= d * n - d
  {
    if d == 2 {} else {}
  }

  lemma {:induction false} SpreadLength(atoms: seq<nat>, d: nat)
    requires d == 2 || d == 3
    ensures |Spread(atoms, d)| == d * |atoms|
  {
    if atoms != [] { SpreadLength(atoms[1..], d); }
  }

  /** The spread tape without its last `cut` cells. */
  function Cropped(atoms: seq<nat>, d: nat, cut: nat): (tape: seq<Cell>)
    requires (d == 2 || d == 3) && cut < d && (atoms == [] ==> cut == 0)
    ensures |tape| == d * |atoms| - cut
  {
    SpreadLength(atoms, d);
    Spread(atoms, d)[..d * |atoms| - cut]
  }

  lemma CroppedOne(atom: nat, d: nat, cut: nat)
    requires (d == 2 || d == 3) && cut < d
    ensures Cropped([atom], d, cut) == Group(atom, d)[..d - cut]
  {
    hide Group;
    assert [atom][1..] == [];
    assert Group(atom, d) + [] == Group(atom, d);
  }

  lemma CroppedCons(atoms: seq<nat>, d: nat, cut: nat)
    requires (d == 2 || d == 3) && cut < d && |atoms| >= 2
    ensures Cropped(atoms, d, cut) == Group(atoms[0], d) + Cropped(atoms[1..], d, cut)
  {
    hide Group;
    SpreadLength(atoms[1..], d);
  }

  /** Sampling a spread tape gives the atoms back, wherever in the last group it is cut. */
  lemma {:induction false} SampleSpread(atoms: seq<nat>, d: nat, cut: nat)
    requires (d == 2 || d == 3) && cut < d && (atoms == [] ==> cut == 0)
    ensures Sample(Cropped(atoms, d, cut), 0, d) == Symbols(atoms)
  {
    if |atoms| == 1 {
      hide Group, Spread;
      CroppedOne(atoms[0], d, cut);
      assert atoms == [atoms[0]];
      FewSampled(Cropped(atoms, d, cut), 0, d);
    } else if |atoms| > 1 {
      hide Sample, Spread, Group, Cropped;
      SampleSpread(atoms[1..], d, cut);
      CroppedCons(atoms, d, cut);
      var tail := Cropped(atoms[1..], d, cut);
      assert (Group(atoms[0], d) + tail)[d..] == tail;
      SampleFirst(Group(atoms[0], d) + tail, d);
      assert Symbols(atoms) == [Symbol(atoms[0])] + Symbols(atoms[1..]);
    }
  }

  lemma {:induction false} EncodeAtoms(tape: seq<Bit>, a: nat)
    requires a == 1 || a == 2
    ensures |Encode(Symbols(Atoms(tape, a)), a)| == (if a == 1 then |tape| else 2 * (|tape| / 2))
    ensures |tape| % a == 0 ==> Encode(Symbols(Atoms(tape, a)), a) == tape
  {
    if |tape| >= a {
      var head, rest := tape[..a], tape[a..];
      EncodeAtoms(rest, a);
      AtomsFirst(tape, a);
      assert tape == head + rest;
    }
  }

  lemma AtomsFirst(tape: seq<Bit>, a: nat)
    requires (a == 1 || a == 2) && |tape| >= a
    ensures Encode(Symbols(Atoms(tape, a)), a) == tape[..a] + Encode(Symbols(Atoms(tape[a..], a)), a)
  {
    hide *;
    var atom, rest := Value(tape[..a]), Atoms(tape[a..], a);
    AtomsStep(tape, a);
    assert Symbols([atom] + rest) == [Symbol(atom)] + Symbols(rest);
    EncodeConcat([Symbol(atom)], Symbols(rest), a);
    EncodeOne(atom, a);
    DigitsOfValue(tape[..a]);
  }

  lemma AtomsStep(tape: seq<Bit>, a: nat)
    requires a > 0 && |tape| >= a
    ensures Atoms(tape, a) == [Value(tape[..a])] + Atoms(tape[a..], a)
  {
    hide Value;
  }

  predicate AtomsInAlphabet(r: TagRules, atoms: seq<nat>) {
    forall i :: 0 <= i < |atoms| ==> atoms[i] < |r.appendants|
  }

  lemma GroupAlphabet(r: TagRules, atom: nat, d: nat, n: nat, tail: seq<Cell>)
    requires 0 < n <= d && (tail == [] || n == d)
    ensures InAlphabet(r, Group(atom, d)[..n] + tail) <==> atom < |r.appendants| && InAlphabet(r, tail)
  {
    var tape := Group(atom, d)[..n] + tail;
    assert tape[0] == Symbol(atom);
    assert forall i :: 0 <= i < |tail| ==> tail[i] == tape[n + i];
    assert forall i :: 1 <= i < n ==> tape[i] == Blank;
  }

  lemma AtomsCons(r: TagRules, atom: nat, atoms: seq<nat>)
    ensures AtomsInAlphabet(r, [atom] + atoms) <==> atom < |r.appendants| && AtomsInAlphabet(r, atoms)
  {
    var all := [atom] + atoms;
    assert all[0] == atom;
    assert forall i :: 0 <= i < |atoms| ==> atoms[i] == all[i + 1];
  }

  lemma {:induction false} SpreadAlphabet(r: TagRules, atoms: seq<nat>, d: nat, cut: nat)
    requires (d == 2 || d == 3) && cut < d && (atoms == [] ==> cut == 0)
    ensures InAlphabet(r, Cropped(atoms, d, cut)) <==> AtomsInAlphabet(r, atoms)
  {
    if |atoms| == 1 {
      hide Group, Cropped;
      CroppedOne(atoms[0], d, cut);
      GroupAlphabet(r, atoms[0], d, d - cut, []);
      assert atoms == [atoms[0]] && Group(atoms[0], d)[..d - cut] + [] == Group(atoms[0], d)[..d - cut];
    } else if |atoms| > 1 {
      hide Group, Cropped, InAlphabet, AtomsInAlphabet;
      SpreadAlphabet(r, atoms[1..], d, cut);
      CroppedCons(atoms, d, cut);
      GroupAlphabet(r, atoms[0], d, d, Cropped(atoms[1..], d, cut));
      assert Group(atoms[0], d)[..d] == Group(atoms[0], d);
      AtomsCons(r, atoms[0], atoms[1..]);
      assert atoms == [atoms[0]] + atoms[1..];
    }
  }

  /** Packing after unpacking is the identity exactly on states with a phase of the system, a
      tape of whole atoms of the alphabet, and no phase on an empty tape. */
  lemma RoundTrip(r: TagRules, s: TagState)
    requires r.Valid()
    ensures Unpackable(r, s) <==> FromPacked(r, s).Ok? && ToPacked(r, FromPacked(r, s).value) == Ok(s)
  {
    var atoms := Atoms(s.tape, r.atomLength);
    var cut := (r.deletion - s.headState as int) % r.deletion;
    hide Spread, Atoms, ToPacked;
    AtomsEmpty(s.tape, r.atomLength);
    if s.headState < r.deletion {
      SpreadLength(atoms, r.deletion);
      if atoms != [] || cut == 0 {
        RoundTripSpread(r, s);
      } else {
        assert FromPacked(r, s).Err?;
      }
    }
  }

  predicate Unpackable(r: TagRules, s: TagState)
    requires r.Valid()
  {
    && s.headState < r.deletion
    && |s.tape| % r.atomLength == 0
    && AtomsInAlphabet(r, Atoms(s.tape, r.atomLength))
    && (s.tape == [] ==> s.headState == 0)
  }

  lemma RoundTripSpread(r: TagRules, s: TagState)
    requires r.Valid() && s.headState < r.deletion
    requires Atoms(s.tape, r.atomLength) != [] || s.headState == 0
    ensures FromPacked(r, s).Ok?
    ensures ToPacked(r, FromPacked(r, s).value) == Ok(s) <==>
              AtomsInAlphabet(r, Atoms(s.tape, r.atomLength)) && |s.tape| % r.atomLength == 0
  {
    hide Sample, Encode, Atoms, InAlphabet, AtomsInAlphabet, ToPacked, Cropped;
    var d := r.deletion;
    var atoms := Atoms(s.tape, r.atomLength);
    var cut := (d - s.headState as int) % d;
    assert cut < d && (atoms == [] ==> cut == 0);
    var tape := Cropped(atoms, d, cut);
    UnpackedIsCropped(r, s);
    SampleSpread(atoms, d, cut);
    SpreadAlphabet(r, atoms, d, cut);
    LengthPhase(d, |atoms|, s.headState);
    PackSampled(r, s, tape);
  }

  lemma UnpackedIsCropped(r: TagRules, s: TagState)
    requires r.Valid() && s.headState < r.deletion
    requires Atoms(s.tape, r.atomLength) != [] || s.headState == 0
    ensures var cut := (r.deletion - s.headState as int) % r.deletion;
            FromPacked(r, s) == Ok(Cropped(Atoms(s.tape, r.atomLength), r.deletion, cut))
  {
    hide Spread, Atoms;
    SpreadLength(Atoms(s.tape, r.atomLength), r.deletion);
  }

  lemma PackSampled(r: TagRules, s: TagState, tape: seq<Cell>)
    requires r.Valid() && Sample(tape, 0, r.deletion) == Symbols(Atoms(s.tape, r.atomLength))
    requires InAlphabet(r, tape) <==> AtomsInAlphabet(r, Atoms(s.tape, r.atomLength))
    requires |tape| % r.deletion == s.headState
    ensures ToPacked(r, tape) == Ok(s) <==>
              AtomsInAlphabet(r, Atoms(s.tape, r.atomLength)) && |s.tape| % r.atomLength == 0
  {
    hide Sample, Encode, Atoms, InAlphabet, AtomsInAlphabet;
    EncodeAtoms(s.tape, r.atomLength);
  }

  lemma AtomsEmpty(tape: seq<Bit>, a: nat)
    requires a == 1 || a == 2
    ensures Atoms(tape, a) == [] <==> |tape| < a
  {}

  lemma LengthPhase(d: nat, n: nat, phase: nat)
    requires (d == 2 || d == 3) && phase < d
    ensures var cut := (d - phase as int) % d; d * n - cut >= 0 ==> (d * n - cut) % d == phase
  {
    if d == 2 {} else {}
  }

  // ---------- unpacking what was packed ----------

  function Values(cells: seq<Cell>): (v: seq<nat>)
    requires NoBlanks(cells)
    ensures |v| == |cells|
  {
    seq(|cells|, i requires 0 <= i < |cells| => cells[i].value)
  }

  /** The tape with everything that is never read blanked out. */
  function Blanked(tape: seq<Cell>, d: nat): (b: seq<Cell>)
    requires d > 0
    ensures |b| == |tape|
  {
    seq(|tape|, i requires 0 <= i < |tape| => if i % d == 0 then tape[i] else Blank)
  }

  lemma {:induction false} AtomsOfEncode(cells: seq<Cell>, a: nat)
    requires (a == 1 || a == 2) && NoBlanks(cells)
    requires forall i :: 0 <= i < |cells| ==> cells[i].value < Pow2(a)
    ensures Atoms(Encode(cells, a), a) == Values(cells)
  {
    if cells != [] {
      var bits := Digits(cells[0].value, a);
      AtomsOfEncode(cells[1..], a);
      var all := Encode(cells, a);
      assert all[..a] == bits && all[a..] == Encode(cells[1..], a);
      hide Digits, Value, Encode;
      ValueOfDigits(cells[0].value, a);
      LowSmall(cells[0].value, a);
      assert Values(cells) == [cells[0].value] + Values(cells[1..]);
    }
  }

  /** Blanks that fill up the last group of n cells. */
  function Padding(n: nat, d: nat): nat
    requires d == 2 || d == 3
  {
    (d - n % d) % d
  }

  lemma {:induction false} SpreadOfSample(tape: seq<Cell>, d: nat)
    requires (d == 2 || d == 3) && NoBlanks(Sample(tape, 0, d))
    ensures var spread := Spread(Values(Sample(tape, 0, d)), d);
            && |spread| == |tape| + Padding(|tape|, d)
            && spread[..|tape|] == Blanked(tape, d)
    decreases |tape|
  {
    if |tape| >= d {
      hide Sample, Spread, Blanked, NoBlanks, Padding;
      var rest := Sample(tape[d..], 0, d);
      SampleFirst(tape, d);
      KeptNoBlanks(tape[0], rest);
      SpreadOfSample(tape[d..], d);
      ValuesCons(tape[0], rest);
      SpreadCons(tape, d, Values(rest));
    } else if tape != [] {
      SpreadShort(tape, d);
    }
  }

  lemma ValuesCons(first: Cell, rest: seq<Cell>)
    requires NoBlanks([first] + rest) && NoBlanks(rest)
    ensures first.Symbol? && Values([first] + rest) == [first.value] + Values(rest)
  {
    assert ([first] + rest)[0] == first;
  }

  lemma SpreadShort(tape: seq<Cell>, d: nat)
    requires (d == 2 || d == 3) && NoBlanks(Sample(tape, 0, d)) && 0 < |tape| < d
    ensures var spread := Spread(Values(Sample(tape, 0, d)), d);
            |spread| == d && spread[..|tape|] == Blanked(tape, d)
  {
    hide Sample, Spread;
    SampleShort(tape, d);
    assert NoBlanks([tape[0]]) && [tape[0]][0] == tape[0];
    assert Values([tape[0]]) == [tape[0].value];
    SpreadOne(tape[0].value, d);
    if d == 2 {} else {}
  }

  lemma SampleShort(tape: seq<Cell>, d: nat)
    requires (d == 2 || d == 3) && 0 < |tape| < d
    ensures Sample(tape, 0, d) == [tape[0]]
  {}

  lemma SpreadOne(atom: nat, d: nat)
    requires d == 2 || d == 3
    ensures Spread([atom], d) == Group(atom, d)
  {
    hide Group;
    assert [atom][1..] == [] && Group(atom, d) + [] == Group(atom, d);
  }

  lemma SpreadCons(tape: seq<Cell>, d: nat, values: seq<nat>)
    requires (d == 2 || d == 3) && |tape| >= d && tape[0].Symbol?
    requires |Spread(values, d)| == |tape[d..]| + Padding(|tape[d..]|, d)
    requires Spread(values, d)[..|tape| - d] == Blanked(tape[d..], d)
    ensures var spread := Spread([tape[0].value] + values, d);
            && |spread| == |tape| + Padding(|tape|, d)
            && spread[..|tape|] == Blanked(tape, d)
  {
    hide *;
    SpreadFirst(tape[0].value, values, d);
    BlankedShift(tape, d);
    SamePadding(|tape|, d);
    var group, tail := Group(tape[0].value, d), Spread(values, d);
    assert (group + tail)[..|tape|] == group + tail[..|tape| - d];
  }

  lemma SpreadFirst(atom: nat, atoms: seq<nat>, d: nat)
    requires d == 2 || d == 3
    ensures Spread([atom] + atoms, d) == Group(atom, d) + Spread(atoms, d)
  {
    hide Group;
    assert ([atom] + atoms)[1..] == atoms;
  }

  lemma SamePadding(n: nat, d: nat)
    requires (d == 2 || d == 3) && n >= d
    ensures Padding(n - d, d) == Padding(n, d)
  {
    if d == 2 {} else {}
  }

  lemma BlankedShift(tape: seq<Cell>, d: nat)
    requires (d == 2 || d == 3) && |tape| >= d && tape[0].Symbol?
    ensures Blanked(tape, d) == Group(tape[0].value, d) + Blanked(tape[d..], d)
  {
    forall i | d <= i < |tape|
      ensures Blanked(tape, d)[i] == Blanked(tape[d..], d)[i - d]
    {
      if d == 2 { assert i % 2 == (i - 2) % 2; } else { assert i % 3 == (i - 3) % 3; }
    }
  }

  /** Unpacking a packed tape always succeeds and loses only the cells that are never read. */
  lemma UnpackOfPack(r: TagRules, tape: seq<Cell>)
    requires r.Valid() && Packable(r, tape)
    ensures FromPacked(r, Packed(r, tape)) == Ok(Blanked(tape, r.deletion))
  {
    var d, a := r.deletion, r.atomLength;
    var cells := Sample(tape, 0, d);
    SampledInAlphabet(r, tape, 0, d);
    Pow2Values();
    hide Sample, Encode, Spread, Atoms;
    AtomsOfEncode(cells, a);
    SpreadOfSample(tape, d);
    if d == 2 {} else {}
  }

  lemma {:induction false} SampledInAlphabet(r: TagRules, tape: seq<Cell>, skip: nat, step: nat)
    requires step > 0 && InAlphabet(r, tape)
    ensures InAlphabet(r, Sample(tape, skip, step))
    decreases |tape|
  {
    if |tape| > skip { SampledInAlphabet(r, tape[skip + 1..], step - 1, step); }
  }
}
