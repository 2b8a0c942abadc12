/** The precomputed table: for every 8-bit chunk and phase, the output of the
    eventsAtOnce events that consume exactly that chunk. */
module ChunkTable {
  import opened Bits
  import opened TagSystem

  datatype ChunkOutput = ChunkOutput(newTape: nat, newTapeSize: nat, newPhase: Byte)

  datatype ChunkEvaluationTable = ChunkEvaluationTable(
    outputs: seq<ChunkOutput>, phaseCount: nat, eventsAtOnce: nat)

  /** `out` packs what the single-event machine emits while consuming the chunk. */
  predicate IsChunkOutput(rule: ChunkedRule, chunk: nat, phase: nat, out: ChunkOutput) {
    && rule.Valid() && chunk < 256 && phase < rule.phaseCount
    && var emitted := Emit(rule, Digits(chunk, 8), phase);
       out == ChunkOutput(Value(emitted.0), |emitted.0|, emitted.1)
  }

  predicate IsTable(rule: ChunkedRule, table: ChunkEvaluationTable) {
    && rule.Valid()
    && table.phaseCount == rule.phaseCount
    && table.eventsAtOnce == rule.K()
    && |table.outputs| == 256 * rule.phaseCount
    && forall k :: 0 <= k < |table.outputs| ==>
         IsChunkOutput(rule, k / rule.phaseCount, k % rule.phaseCount, table.outputs[k])
  }

  /** Popping `len` bits off the top of a w-bit word whose first i bits are already gone. */
  lemma PopBits(bits: seq<Bit>, i: nat, len: nat, w: nat)
    requires |bits| == w && i + len <= w
    ensures Shr(Shl(Value(bits[i..]), i), w - len) == Value(bits[i..i + len])
    ensures Low(Shl(Shl(Value(bits[i..]), i), len), w) == Shl(Value(bits[i + len..]), i + len)
  {
    hide *;
    var head, tail := bits[i..i + len], bits[i + len..];
    var v, t := Value(head), Value(tail);
    assert bits[i..] == head + tail;
    calc {
      Shl(Value(bits[i..]), i);
      { ValueConcat(head, tail); ShlSum(Shl(v, |tail|), t, i); ShlTwice(v, |tail|, i); }
      Shl(v, w - len) + Shl(t, i);
    }
    ShlBound(t, |tail|, i);
    ShlSplit(v, Shl(t, i), w - len);
    ShlSum(Shl(v, w - len), Shl(t, i), len);
    ShlTwice(v, w - len, len);
    ShlTwice(t, i, len);
    ShlBound(t, |tail|, i + len);
    ShlSplit(v, Shl(t, i + len), w);
  }

  lemma LowMask(len: nat)
    requires len == 1 || len == 2
    ensures Shr(255, 8 - len) == Pow2(len) - 1
  {
    assert Shr(255, 4) == 15;
    assert Shr(255, 6) == Shr(15, 2) by { assert Shr(255, 6) == Shr(63, 4); assert Shr(63, 4) == Shr(15, 2); }
    assert Shr(255, 7) == Shr(127, 6) == Shr(63, 5) == Shr(31, 4);
    assert Shr(31, 4) == 1;
    Pow2Values();
  }

  /** After i bits, `emitted` has been output and the machine is in `phase`. */
  ghost predicate EmittedSoFar(rule: ChunkedRule, bits: seq<Bit>, inputPhase: Byte, i: nat, phase: Byte, emitted: seq<Bit>) {
    && rule.Valid() && inputPhase < rule.phaseCount && phase < rule.phaseCount && i <= |bits|
    && Emit(rule, bits, inputPhase).0 == emitted + Emit(rule, bits[i..], phase).0
    && Emit(rule, bits, inputPhase).1 == Emit(rule, bits[i..], phase).1
  }

  lemma EmitStart(rule: ChunkedRule, inputTape: Byte, inputPhase: Byte)
    requires rule.Valid() && inputPhase < rule.phaseCount
    ensures EmittedSoFar(rule, Digits(inputTape, 8), inputPhase, 0, inputPhase, [])
    ensures inputTape == Shl(Value(Digits(inputTape, 8)[0..]), 0)
    ensures 0 == Value([])
  {
    var bits := Digits(inputTape, 8);
    ByteOfDigits(inputTape);
    assert bits[0..] == bits && [] + Emit(rule, bits, inputPhase).0 == Emit(rule, bits, inputPhase).0;
  }

  lemma EmitEnd(rule: ChunkedRule, bits: seq<Bit>, inputPhase: Byte, phase: Byte, emitted: seq<Bit>)
    requires EmittedSoFar(rule, bits, inputPhase, |bits|, phase, emitted)
    ensures Emit(rule, bits, inputPhase) == (emitted, phase)
  {
    assert bits[|bits|..] == [] && emitted + [] == emitted;
  }

  lemma EmitNext(rule: ChunkedRule, bits: seq<Bit>, inputPhase: Byte, i: nat, phase: Byte, emitted: seq<Bit>)
    requires EmittedSoFar(rule, bits, inputPhase, i, phase, emitted) && i + rule.inputLength <= |bits|
    ensures var read := bits[i..i + rule.inputLength];
            EmittedSoFar(rule, bits, inputPhase, i + rule.inputLength, rule.NextPhase(read, phase),
                         emitted + rule.Output(read, phase))
  {
    var len := rule.inputLength;
    var read := bits[i..i + len];
    assert bits[i..][..len] == read && bits[i..][len..] == bits[i + len..];
    var rest := Emit(rule, bits[i + len..], rule.NextPhase(read, phase)).0;
    assert emitted + (rule.Output(read, phase) + rest) == (emitted + rule.Output(read, phase)) + rest;
  }

  /** The mask keeps exactly the bits popped. */
  lemma MaskPopped(bits: seq<Bit>)
    requires |bits| == 1 || |bits| == 2
    ensures BitAnd(Value(bits), Shr(255, 8 - |bits|)) == Value(bits)
  {
    LowMask(|bits|);
    BitAndMask(Value(bits), |bits|);
    LowSmall(Value(bits), |bits|);
  }

  /** What one round pops off the word, and what is left of it. */
  lemma PopStep(bits: seq<Bit>, i: nat, len: nat)
    requires |bits| == 8 && (len == 1 || len == 2) && i + len <= 8
    ensures var word := Shl(Value(bits[i..]), i);
            && BitAnd(Shr(word, 8 - len), Shr(255, 8 - len)) == Value(bits[i..i + len])
            && ToByte(Shl(word, len)) == Shl(Value(bits[i + len..]), i + len)
  {
    hide *;
    PopBits(bits, i, len, 8);
    MaskPopped(bits[i..i + len]);
    ByteIsLow(Shl(Shl(Value(bits[i..]), i), len));
  }

  /** What one round appends, row k being the one for the bits read and the phase. */
  lemma AppendStep(rule: ChunkedRule, bits: seq<Bit>, inputPhase: Byte, i: nat, phase: Byte, emitted: seq<Bit>, k: nat)
    requires rule.Valid() && |bits| == 8 && i + rule.inputLength <= 8 && |emitted| <= 2 * i
    requires phase < rule.phaseCount && EmittedSoFar(rule, bits, inputPhase, i, phase, emitted)
    requires k == rule.phaseCount * Value(bits[i..i + rule.inputLength]) + phase
    ensures k < |rule.outputTapes| == |rule.outputLengths| == |rule.outputPhases|
    ensures var added := Digits(rule.outputTapes[k], rule.outputLengths[k]);
            && ToByte(|emitted| + |added|) == |emitted + added| <= 2 * (i + rule.inputLength)
            && Low(Shl(Value(emitted), |added|) + rule.outputTapes[k], 16) == Value(emitted + added)
            && rule.outputPhases[k] < rule.phaseCount
            && EmittedSoFar(rule, bits, inputPhase, i + rule.inputLength, rule.outputPhases[k], emitted + added)
  {
    hide *;
    var read := bits[i..i + rule.inputLength];
    RowOf(rule, read, phase);
    EmitNext(rule, bits, inputPhase, i, phase, emitted);
    Append(emitted, rule.outputTapes[k], rule.outputLengths[k], 16);
    SmallByte(|emitted| + rule.outputLengths[k]);
  }

  method CreateChunkOutput(rule: ChunkedRule, inputTape: Byte, inputPhase: Byte) returns (result: ChunkOutput)
    requires rule.Valid() && inputPhase < rule.phaseCount
    ensures IsChunkOutput(rule, inputTape, inputPhase, result)
  {
    hide Emit, EmittedSoFar, Digits, Value, Low, Shl, Shr, BitAnd, Pow2, ToByte, ChunkedRule.Valid;
    OneOrTwo(rule);
    var output := 0;
    var outputSize: Byte := 0;
    var phase: Byte := inputPhase;
    var shiftedInputTape := inputTape;
    var len := rule.inputLength;
    ghost var bits := Digits(inputTape, 8);
    ghost var emitted: seq<Bit> := [];
    EmitStart(rule, inputTape, inputPhase);
    var i := 0;
    while i < 8
      invariant 0 <= i <= 8 && (len == 2 ==> i % 2 == 0)
      invariant phase < rule.phaseCount && EmittedSoFar(rule, bits, inputPhase, i, phase, emitted)
      invariant shiftedInputTape == Shl(Value(bits[i..]), i)
      invariant output == Value(emitted) && outputSize == |emitted| <= 2 * i
    {
      NextCells(i, len);
      PopStep(bits, i, len);
      var poppedBits := BitAnd(Shr(shiftedInputTape, 8 - len), Shr(255, 8 - len));
      shiftedInputTape := ToByte(Shl(shiftedInputTape, len));
      var outputIndex := rule.phaseCount * poppedBits + phase;
      AppendStep(rule, bits, inputPhase, i, phase, emitted, outputIndex);
      outputSize := ToByte(outputSize + rule.outputLengths[outputIndex]);
      output := Low(Shl(output, rule.outputLengths[outputIndex]) + rule.outputTapes[outputIndex], 16);
      emitted := emitted + Digits(rule.outputTapes[outputIndex], rule.outputLengths[outputIndex]);
      phase := rule.outputPhases[outputIndex];
      i := i + len;
    }
    EmitEnd(rule, bits, inputPhase, phase, emitted);
    return ChunkOutput(output, outputSize, phase);
  }

  /** Appending to a w-bit accumulator does not overflow while it holds at most w bits. */
  lemma Append(bits: seq<Bit>, tape: nat, len: nat, w: nat)
    requires tape < Pow2(len) && |bits| + len <= w
    ensures Low(Shl(Value(bits), len) + tape, w) == Value(bits + Digits(tape, len))
  {
    var out := Digits(tape, len);
    ValueConcat(bits, out);
    ValueOfDigits(tape, len);
    LowSmall(tape, len);
    Pow2Monotone(|bits + out|, w);
    LowSmall(Value(bits + out), w);
  }

  lemma OneOrTwo(rule: ChunkedRule)
    requires rule.Valid()
    ensures rule.inputLength == 1 || rule.inputLength == 2
  {}

  lemma NextCells(i: nat, len: nat)
    requires (len == 1 || len == 2) && i < 8 && (len == 2 ==> i % 2 == 0)
    ensures i + len <= 8 && (len == 2 ==> (i + len) % 2 == 0)
  {}

  lemma ByteIsLow(v: nat)
    ensures ToByte(v) == Low(v, 8)
  {
    hide Low;
  }

  /** The row of the rule that the bits just read and the phase select. */
  lemma RowOf(rule: ChunkedRule, read: seq<Bit>, phase: Byte)
    requires rule.Valid() && |read| == rule.inputLength && phase < rule.phaseCount
    ensures var i := rule.phaseCount * Value(read) + phase;
            && i < |rule.outputTapes| == |rule.outputLengths| == |rule.outputPhases|
            && rule.outputTapes[i] < Pow2(rule.outputLengths[i]) && rule.outputLengths[i] <= 2 * |read|
            && rule.Output(read, phase) == Digits(rule.outputTapes[i], rule.outputLengths[i])
            && rule.NextPhase(read, phase) == rule.outputPhases[i]
  {
    hide Digits, Value, Pow2;
    assert rule.Row(read, phase) == rule.phaseCount * Value(read) + phase;
  }

  lemma FlatIndex(phaseCount: nat, chunk: nat, phase: nat)
    requires 1 <= phaseCount <= 3 && phase < phaseCount
    ensures (phaseCount * chunk + phase) / phaseCount == chunk
    ensures (phaseCount * chunk + phase) % phaseCount == phase
    ensures chunk < 256 ==> phaseCount * chunk + phase < 256 * phaseCount
  {
    if phaseCount == 1 {
    } else if phaseCount == 2 {
    } else {
    }
  }

  method CreateChunkEvaluationTable(rule: ChunkedRule) returns (table: ChunkEvaluationTable)
    requires rule.Valid()
    ensures IsTable(rule, table)
  {
    hide IsChunkOutput;
    var outputs := new ChunkOutput[256 * rule.phaseCount](_ => ChunkOutput(0, 0, 0));
    var pc := rule.phaseCount;
    var inputTape: Byte := 255;
    ghost var filled := 0;  // chunks done
    while true
      invariant 0 <= filled < 256
      invariant inputTape == if filled == 0 then 255 else filled - 1
      invariant forall k :: 0 <= k < pc * filled && k < outputs.Length ==> IsChunkOutput(rule, k / pc, k % pc, outputs[k])
      decreases 256 - filled
    {
      inputTape := (inputTape + 1) % 256;
      assert inputTape == filled;
      var inputPhase := 0;
      while inputPhase < pc
        invariant 0 <= inputPhase <= pc
        invariant forall k :: 0 <= k < pc * filled + inputPhase && k < outputs.Length ==>
                    IsChunkOutput(rule, k / pc, k % pc, outputs[k])
      {
        var output := CreateChunkOutput(rule, inputTape, inputPhase);
        FlatIndex(pc, inputTape, inputPhase);
        outputs[pc * inputTape + inputPhase] := output;
        inputPhase := inputPhase + 1;
      }
      assert pc * (filled + 1) == pc * filled + pc;
      if inputTape == 255 { break; }
      filled := filled + 1;
    }
    assert forall k :: 0 <= k < outputs.Length ==> IsChunkOutput(rule, k / pc, k % pc, outputs[..][k]);
    return ChunkEvaluationTable(outputs[..], pc, 8 / rule.inputLength);
  }

  /** What the table holds for a phase the rule does not know: the row of a later chunk, or
      nothing at all once that chunk would be past 255. */
  lemma UnknownPhase(rule: ChunkedRule, table: ChunkEvaluationTable, chunk: Byte, phase: Byte)
    requires IsTable(rule, table)
    ensures table.phaseCount * chunk + phase < |table.outputs| <==> chunk + phase / rule.phaseCount < 256
    ensures chunk + phase / rule.phaseCount < 256 ==>
              IsChunkOutput(rule, chunk + phase / rule.phaseCount, phase % rule.phaseCount,
                            table.outputs[table.phaseCount * chunk + phase])
  {
    hide IsChunkOutput, ChunkedRule.K;
    RowAfter(rule.phaseCount, chunk, phase);
    FlatIndex(rule.phaseCount, chunk + phase / rule.phaseCount, phase % rule.phaseCount);
  }

  lemma RowAfter(phaseCount: nat, chunk: nat, phase: nat)
    requires 1 <= phaseCount <= 3
    ensures phase % phaseCount < phaseCount
    ensures phaseCount * chunk + phase == phaseCount * (chunk + phase / phaseCount) + phase % phaseCount
    ensures phaseCount * chunk + phase < 256 * phaseCount <==> chunk + phase / phaseCount < 256
  {
    if phaseCount == 1 {
    } else if phaseCount == 2 {
    } else {
    }
  }
}
