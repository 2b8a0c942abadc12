/** The mutable packed state and the operations that load, advance and unload it. */
module ChunkedStates {
  import opened Bits
  import opened TagSystem
  import opened ChunkTable
  import opened Chunks

  // ---------- what pushing onto the queue does to the tape ----------

  /** `back = (back << k) + b` appends the k bits of b. */
  lemma PushBits(chunks: seq<Byte>, size: nat, b: nat, k: nat)
    requires Shaped(chunks, size) && b < Pow2(k) && size + k <= 8
    ensures Shl(Back(chunks), k) + b < 256
    ensures var pushed := WithBack(chunks, Shl(Back(chunks), k) + b);
            && Shaped(pushed, size + k)
            && Unpacked(pushed, size + k) == Unpacked(chunks, size) + Digits(b, k)
  {
    hide Digits, FullChunks, Shl, Pow2;
    var front := chunks[..|chunks| - 1];
    DigitsConcat(Back(chunks), size, b, k);
    Pow2Monotone(size + k, 8);
    Pow2Values();
    assert WithBack(chunks, Shl(Back(chunks), k) + b)[..|chunks| - 1] == front;
    assert FullChunks(front) + (Digits(Back(chunks), size) + Digits(b, k))
        == (FullChunks(front) + Digits(Back(chunks), size)) + Digits(b, k);
  }

  /** A fresh chunk behind a full one changes nothing on the tape. */
  lemma PushChunk(chunks: seq<Byte>)
    requires chunks != [] ==> Shaped(chunks, 8)
    ensures Shaped(chunks + [0], 0)
    ensures Unpacked(chunks + [0], 0) == if chunks == [] then [] else Unpacked(chunks, 8)
  {
    assert (chunks + [0])[..|chunks|] == chunks;
    if chunks != [] {
      var n := |chunks| - 1;
      assert chunks == chunks[..n] + [chunks[n]];
      FullChunksConcat(chunks[..n], [chunks[n]]);
      assert FullChunks([chunks[n]]) == Digits(chunks[n], 8) + FullChunks([]);
    }
  }

  lemma {:induction false} LowShl(v: nat, k: nat, j: nat)
    ensures Low(Shl(v, j), k + j) == Shl(Low(v, k), j)
    decreases j
  {
    if j > 0 {
      LowShl(v, k, j - 1);
      assert Shl(v, j) / 2 == Shl(v, j - 1);
    }
  }

  /** The two shifts through a w-bit register cut out bits a .. a + k of the output. */
  lemma CutBits(bits: seq<Bit>, a: nat, k: nat, w: nat)
    requires a + k <= |bits| && k <= w
    ensures Shr(Low(Shl(Shr(Value(bits), |bits| - a - k), w - k), w), w - k) == Value(bits[a..a + k])
  {
    hide *;
    var x := Shr(Value(bits), |bits| - a - k);
    LowShl(x, k, w - k);
    ValueSlice(bits, a, k);
    ShlSplit(Low(x, k), 0, w - k);
  }

  /** The test `chunk & (1 << 7)`. */
  lemma TopBit(bits: seq<Bit>, i: nat)
    requires |bits| == 8 && i < 8
    ensures BitAnd(Shl(Value(bits[i..]), i), Shl(1, 7)) == (if bits[i] == 1 then 128 else 0)
  {
    hide Shl, Shr, Low, BitAnd;
    var word := Shl(Value(bits[i..]), i);
    PopBits(bits, i, 1, 8);
    assert Value(bits[i..i + 1]) == bits[i] by { assert Value(bits[i..i + 1][..0]) == 0; }
    BitAndShifted(word, 1, 7);
    BitAndMask(Shr(word, 7), 1);
    Pow2Values();
    LowSmall(bits[i], 1);
    ShlValues();
  }

  lemma ShlValues()
    ensures Shl(1, 7) == 128 && Shl(0, 7) == 0
  {
    assert Shl(1, 4) == 16;
    assert Shl(0, 4) == 0;
  }

  class ChunkedState {
    var chunks: seq<Byte>
    var lastChunkSize: Byte
    var phase: Byte

    function Snapshot(): Chunked
      reads this
    {
      Chunked(chunks, lastChunkSize, phase)
    }

    /** toChunkedState */
    constructor (state: TagState)
      ensures Snapshot() == ChunkedFrom(state)
      ensures Canonical(Snapshot()) && ToTagState(Snapshot()) == state
    {
      hide PackedUpTo, Shl, ToByte, Back, WithBack;
      var result: seq<Byte> := [];
      var i := 0;
      StartPacking(state.tape);
      while i < |state.tape|
        invariant 0 <= i <= |state.tape|
        invariant PackedUpTo(result, state.tape, i)
      {
        PackNext(result, state.tape, i);
        if i % 8 == 0 { result := result + [0]; }
        result := WithBack(result, ToByte(Shl(Back(result), 1) + state.tape[i]));
        i := i + 1;
      }
      var size: Byte := |state.tape| % 8;
      if size == 0 && |state.tape| != 0 { size := 8; }
      FinishPacking(Chunked(result, size, state.headState), state);
      chunks, lastChunkSize, phase := result, size, state.headState;
    }

    /** fromChunkedStateDestructively */
    method Unload() returns (state: TagState)
      requires Canonical(Snapshot())
      modifies this
      ensures state == old(ToTagState(Snapshot()))
      ensures chunks == []
    {
      hide Digits, Unloading;
      ghost var whole := Tape(Snapshot());
      var tape: seq<Bit> := [];
      if |chunks| > 0 {
        StartUnloading(Snapshot());
        while |chunks| > 1
          invariant |chunks| > 0 && lastChunkSize == old(lastChunkSize) && phase == old(phase)
          invariant Unloading(tape, chunks, lastChunkSize, whole)
        {
          UnloadFront(tape, chunks, lastChunkSize, whole);
          tape := PushBitsFromChunk(tape, chunks[0], 8);
          chunks := chunks[1..];
        }
        UnloadLast(tape, chunks, lastChunkSize, whole);
        tape := PushBitsFromChunk(tape, chunks[0], lastChunkSize);
        chunks := chunks[1..];
      }
      return TagState(tape, phase);
    }

    /** One table lookup is exactly eventsAtOnce single events. */
    method EvaluateOnce(ghost rule: ChunkedRule, table: ChunkEvaluationTable)
      requires IsTable(rule, table)
      requires Canonical(Snapshot()) && |chunks| > 1 && phase < rule.phaseCount
      modifies this
      ensures Canonical(Snapshot()) && phase < rule.phaseCount
      ensures ToTagState(Snapshot()) == Run(rule, old(ToTagState(Snapshot())), table.eventsAtOnce)
    {
      hide Digits, Shl, Shr, Low, Value, Pow2, Unpacked, Run, IsTable, Back, WithBack, ToByte, Cut, Storing, Canonical, Tape, ToTagState;
      ghost var kept, out := LookUp(rule, table, Chunked(chunks, lastChunkSize, phase));
      var nextChunkIndex := table.phaseCount * chunks[0] + phase;
      var chunkOutput := table.outputs[nextChunkIndex];
      chunks := chunks[1..];
      phase := chunkOutput.newPhase;
      var remainingBitCountToStore := chunkOutput.newTapeSize;
      while remainingBitCountToStore > 0
        invariant 0 <= remainingBitCountToStore <= |out| && lastChunkSize <= 8 && phase == chunkOutput.newPhase
        invariant Storing(chunks, lastChunkSize, kept, out, remainingBitCountToStore)
        decreases remainingBitCountToStore, lastChunkSize
      {
        Queue(chunks, lastChunkSize, kept, out, remainingBitCountToStore);
        StoreBits(chunks, lastChunkSize, kept, out, remainingBitCountToStore);
        var bitCountToStoreNow := if remainingBitCountToStore < 8 - lastChunkSize then remainingBitCountToStore else 8 - lastChunkSize;
        var bitCountNotToStoreNow := remainingBitCountToStore - bitCountToStoreNow;
        var bitsToStoreNow := ToByte(Cut(chunkOutput.newTape, bitCountNotToStoreNow, bitCountToStoreNow));
        chunks := WithBack(chunks, ToByte(Shl(Back(chunks), bitCountToStoreNow) + bitsToStoreNow));
        lastChunkSize := lastChunkSize + bitCountToStoreNow;
        remainingBitCountToStore := remainingBitCountToStore - bitCountToStoreNow;
        if remainingBitCountToStore > 0 {
          chunks := chunks + [0];
          lastChunkSize := 0;
        }
      }
      Stored(Chunked(chunks, lastChunkSize, phase), kept, out);
    }
  }

  // ---------- loading ----------

  lemma PushOneBit(chunks: seq<Byte>, size: nat, b: Bit)
    requires Shaped(chunks, size) && size < 8
    ensures var pushed := WithBack(chunks, ToByte(Shl(Back(chunks), 1) + b));
            && Shaped(pushed, size + 1)
            && Unpacked(pushed, size + 1) == Unpacked(chunks, size) + [b]
  {
    assert chunks != [];
    assert Digits(b, 1) == [b] && Pow2(1) == 2;
    hide *;
    PushBits(chunks, size, b, 1);
    SmallByte(Shl(Back(chunks), 1) + b);
  }

  /** The first i cells are packed. */
  ghost predicate PackedUpTo(chunks: seq<Byte>, tape: seq<Bit>, i: nat) {
    && i <= |tape|
    && if i == 0 then chunks == []
       else Shaped(chunks, (i - 1) % 8 + 1) && Unpacked(chunks, (i - 1) % 8 + 1) == tape[..i]
  }

  lemma StartPacking(tape: seq<Bit>)
    ensures PackedUpTo([], tape, 0)
  {}

  lemma PackNext(chunks: seq<Byte>, tape: seq<Bit>, i: nat)
    requires PackedUpTo(chunks, tape, i) && i < |tape|
    ensures i % 8 != 0 ==> chunks != []
    ensures var pushed := if i % 8 == 0 then chunks + [0] else chunks;
            PackedUpTo(WithBack(pushed, ToByte(Shl(Back(pushed), 1) + tape[i])), tape, i + 1)
  {
    hide Unpacked, Shl, ToByte, Back, WithBack, Pow2;
    if i % 8 == 0 { PushChunk(chunks); }
    var pushed: seq<Byte> := if i % 8 == 0 then chunks + [0] else chunks;
    PushOneBit(pushed, i % 8, tape[i]);
    assert tape[..i + 1] == tape[..i] + [tape[i]];
  }

  lemma FinishPacking(c: Chunked, state: TagState)
    requires PackedUpTo(c.chunks, state.tape, |state.tape|) && c.phase == state.headState
    requires c.lastChunkSize == if state.tape == [] then 0 else (|state.tape| - 1) % 8 + 1
    ensures c == ChunkedFrom(state) && Canonical(c) && ToTagState(c) == state
  {
    hide Unpacked, PackTape;
    assert state.tape[..|state.tape|] == state.tape;
    CanonicalUnique(c);
  }

  // ---------- unloading ----------

  /** What has been pushed plus what is still queued is the whole tape. */
  ghost predicate Unloading(tape: seq<Bit>, chunks: seq<Byte>, size: Byte, whole: seq<Bit>) {
    Shaped(chunks, size) && tape + Unpacked(chunks, size) == whole
  }

  lemma StartUnloading(c: Chunked)
    requires Canonical(c) && c.chunks != []
    ensures Unloading([], c.chunks, c.lastChunkSize, Tape(c))
  {
    hide Unpacked;
    assert [] + Tape(c) == Tape(c);
  }

  lemma UnloadFront(tape: seq<Bit>, chunks: seq<Byte>, size: Byte, whole: seq<Bit>)
    requires Unloading(tape, chunks, size, whole) && |chunks| > 1
    ensures chunks[0] < Pow2(8)
    ensures Unloading(tape + Digits(chunks[0], 8), chunks[1..], size, whole)
  {
    var rest := chunks[1..];
    Pow2Values();
    assert Shaped(rest, size);
    hide Digits, Unpacked, Shaped;
    TapeFront(Chunked(chunks, size, 0));
    assert tape + (Digits(chunks[0], 8) + Unpacked(rest, size)) == (tape + Digits(chunks[0], 8)) + Unpacked(rest, size);
  }

  lemma UnloadLast(tape: seq<Bit>, chunks: seq<Byte>, size: Byte, whole: seq<Bit>)
    requires Unloading(tape, chunks, size, whole) && |chunks| == 1
    ensures chunks[0] < Pow2(size) && size <= 8
    ensures tape + Digits(chunks[0], size) == whole
  {
    hide Digits, Pow2;
    SingleChunk(Chunked(chunks, size, 0));
  }

  method PushBitsFromChunk(tape: seq<Bit>, chunk: Byte, chunkSize: Byte) returns (result: seq<Bit>)
    requires chunkSize <= 8 && chunk < Pow2(chunkSize)
    ensures result == tape + Digits(chunk, chunkSize)
  {
    hide Digits, Shl, Low, BitAnd, Value;
    ghost var bits := Zeros(8 - chunkSize) + Digits(chunk, chunkSize);
    ghost var start := 8 - chunkSize;
    StartPushing(chunk, chunkSize);
    var word := ToByte(Shl(chunk, 8 - chunkSize));
    result := tape;
    var bitIndex := 0;
    while bitIndex < chunkSize
      invariant 0 <= bitIndex <= chunkSize
      invariant word == Shl(Value(bits[start + bitIndex..]), start + bitIndex)
      invariant result == tape + Digits(chunk, chunkSize)[..bitIndex]
    {
      TopBit(bits, start + bitIndex);
      result := result + [if BitAnd(word, Shl(1, 7)) != 0 then 1 else 0];
      PopBits(bits, start + bitIndex, 1, 8);
      word := ToByte(Shl(word, 1));
      bitIndex := bitIndex + 1;
    }
    assert Digits(chunk, chunkSize)[..chunkSize] == Digits(chunk, chunkSize);
  }

  lemma StartPushing(chunk: Byte, chunkSize: Byte)
    requires chunkSize <= 8 && chunk < Pow2(chunkSize)
    ensures var bits := Zeros(8 - chunkSize) + Digits(chunk, chunkSize);
            ToByte(Shl(chunk, 8 - chunkSize)) == Shl(Value(bits[8 - chunkSize..]), 8 - chunkSize)
  {
    var bits := Zeros(8 - chunkSize) + Digits(chunk, chunkSize);
    hide *;
    assert bits[8 - chunkSize..] == Digits(chunk, chunkSize);
    ValueOfDigits(chunk, chunkSize);
    LowSmall(chunk, chunkSize);
    ShlBound(chunk, chunkSize, 8 - chunkSize);
    Pow2Values();
    SmallByte(Shl(chunk, 8 - chunkSize));
  }

  // ---------- storing the output of a chunk ----------

  /** `static_cast<uint16_t>(tape >> skip << (16 - k)) >> (16 - k)` */
  function Cut(tape: nat, skip: nat, k: nat): nat
    requires k <= 16
  {
    Shr(Low(Shl(Shr(tape, skip), 16 - k), 16), 16 - k)
  }

  /** All but the last `remaining` output bits are behind the kept tape. */
  ghost predicate Storing(chunks: seq<Byte>, size: Byte, kept: seq<Bit>, out: seq<Bit>, remaining: nat) {
    && Shaped(chunks, size) && remaining <= |out| <= 16 && (size == 0 ==> remaining > 0)
    && Unpacked(chunks, size) == kept + out[..|out| - remaining]
  }

  lemma CutIsSlice(out: seq<Bit>, stored: nat, k: nat)
    requires stored + k <= |out| && k <= 16
    ensures Cut(Value(out), |out| - stored - k, k) == Value(out[stored..stored + k])
  {
    hide Shl, Shr, Low, Value;
    CutBits(out, stored, k, 16);
  }

  /** Pushing the next slice of the output behind what is already stored. */
  lemma StoreSlice(chunks: seq<Byte>, size: nat, kept: seq<Bit>, done: seq<Bit>, slice: seq<Bit>)
    requires chunks != [] && Shaped(chunks, size) && size + |slice| <= 8
    requires Unpacked(chunks, size) == kept + done
    ensures var pushed := WithBack(chunks, ToByte(Shl(Back(chunks), |slice|) + Value(slice)));
            && Shaped(pushed, size + |slice|)
            && Unpacked(pushed, size + |slice|) == kept + (done + slice)
  {
    hide *;
    PushBits(chunks, size, Value(slice), |slice|);
    DigitsOfValue(slice);
    SmallByte(Shl(Back(chunks), |slice|) + Value(slice));
    assert kept + (done + slice) == (kept + done) + slice;
  }

  lemma CutByte(out: seq<Bit>, stored: nat, k: nat)
    requires stored + k <= |out| && k <= 8
    ensures ToByte(Cut(Value(out), |out| - stored - k, k)) == Value(out[stored..stored + k])
    ensures out[..stored + k] == out[..stored] + out[stored..stored + k]
  {
    hide *;
    CutIsSlice(out, stored, k);
    ChunkBound(out[stored..stored + k]);
    SmallByte(Value(out[stored..stored + k]));
  }

  /** One round of the storing loop, with the fresh chunk it may push. */
  lemma StoreBits(chunks: seq<Byte>, size: Byte, kept: seq<Bit>, out: seq<Bit>, remaining: nat)
    requires chunks != [] && size <= 8 && Storing(chunks, size, kept, out, remaining) && remaining > 0
    ensures var k := if remaining < 8 - size then remaining else 8 - size;
            var back := ToByte(Shl(Back(chunks), k) + ToByte(Cut(Value(out), remaining - k, k)));
            var pushed := WithBack(chunks, back);
            if remaining - k > 0 then Storing(pushed + [0], 0, kept, out, remaining - k)
            else Storing(pushed, size + k, kept, out, 0)
  {
    hide Shaped, Unpacked, Shl, Cut, Value, Back, WithBack, ToByte;
    var k := if remaining < 8 - size then remaining else 8 - size;
    var stored := |out| - remaining;
    CutByte(out, stored, k);
    StoreSlice(chunks, size, kept, out[..stored], out[stored..stored + k]);
    if remaining > k {
      PushChunk(WithBack(chunks, ToByte(Shl(Back(chunks), k) + Value(out[stored..stored + k]))));
    }
  }

  lemma Queue(chunks: seq<Byte>, size: Byte, kept: seq<Bit>, out: seq<Bit>, remaining: nat)
    requires Storing(chunks, size, kept, out, remaining)
    ensures chunks != [] && size <= 8
  {}

  lemma Stored(c: Chunked, kept: seq<Bit>, out: seq<Bit>)
    requires Storing(c.chunks, c.lastChunkSize, kept, out, 0)
    ensures Canonical(c) && Tape(c) == kept + out && ToTagState(c) == TagState(kept + out, c.phase)
  {
    hide Unpacked, Pow2;
    assert out[..|out|] == out;
  }

  lemma Entry(rule: ChunkedRule, table: ChunkEvaluationTable, chunk: Byte, phase: Byte)
    requires IsTable(rule, table) && phase < rule.phaseCount
    ensures table.phaseCount * chunk + phase < |table.outputs|
    ensures IsChunkOutput(rule, chunk, phase, table.outputs[table.phaseCount * chunk + phase])
    ensures table.eventsAtOnce == if rule.inputLength == 1 then 8 else 4
  {
    hide IsChunkOutput;
    FlatIndex(table.phaseCount, chunk, phase);
  }

  lemma RestShaped(c: Chunked)
    requires Canonical(c) && |c.chunks| > 1
    ensures c.lastChunkSize <= 8 && Shaped(c.chunks[1..], c.lastChunkSize) && c.lastChunkSize > 0
  {
    hide Pow2;
  }

  /** The table row for the front chunk holds what the single-event machine would emit. */
  lemma LookUp(rule: ChunkedRule, table: ChunkEvaluationTable, c: Chunked) returns (kept: seq<Bit>, out: seq<Bit>)
    requires IsTable(rule, table) && Canonical(c) && |c.chunks| > 1 && c.phase < rule.phaseCount
    ensures c.lastChunkSize <= 8
    ensures var k := table.phaseCount * c.chunks[0] + c.phase;
            && k < |table.outputs|
            && table.outputs[k].newTape == Value(out) && table.outputs[k].newTapeSize == |out|
            && table.outputs[k].newPhase < rule.phaseCount
            && Storing(c.chunks[1..], c.lastChunkSize, kept, out, |out|)
            && Run(rule, ToTagState(c), table.eventsAtOnce) == TagState(kept + out, table.outputs[k].newPhase)
  {
    hide Digits, Value, FullChunks, Unpacked, Emit, Run, Shaped, IsTable, Canonical, ChunkedRule.Valid;
    var bits := Digits(c.chunks[0], 8);
    var rest := c.(chunks := c.chunks[1..]);
    Entry(rule, table, c.chunks[0], c.phase);
    RestShaped(c);
    TapeFront(c);
    kept, out := Tape(rest), Emit(rule, bits, c.phase).0;
    assert kept + out[..0] == kept;
    RunConsumesFront(rule, bits, kept, c.phase, table.eventsAtOnce);
  }
}
