/** The packed tape: a queue of 8-bit chunks whose last chunk holds lastChunkSize bits,
    right-aligned. */
module Chunks {
  import opened Bits
  import opened TagSystem

  datatype Chunked = Chunked(chunks: seq<Byte>, lastChunkSize: Byte, phase: Byte)

  // ---------- what a packed state means ----------

  function FullChunks(chunks: seq<Byte>): seq<Bit> {
    if chunks == [] then [] else Digits(chunks[0], 8) + FullChunks(chunks[1..])
  }

  /** A queue whose last chunk holds exactly `size` bits; size 0 occurs only while a chunk
      that was just pushed is waiting for its first bit. */
  predicate Shaped(chunks: seq<Byte>, size: nat) {
    chunks != [] && size <= 8 && Back(chunks) < Pow2(size)
  }

  /** `chunks.back()`, and the queue after assigning to it. */
  function Back(chunks: seq<Byte>): Byte
    requires chunks != []
  {
    chunks[|chunks| - 1]
  }

  function WithBack(chunks: seq<Byte>, back: Byte): (r: seq<Byte>)
    requires chunks != []
    ensures |r| == |chunks|
  {
    chunks[..|chunks| - 1] + [back]
  }

  function Unpacked(chunks: seq<Byte>, size: nat): seq<Bit>
    requires chunks != []
  {
    FullChunks(chunks[..|chunks| - 1]) + Digits(Back(chunks), size)
  }

  predicate Canonical(c: Chunked) {
    if c.chunks == [] then c.lastChunkSize == 0
    else Shaped(c.chunks, c.lastChunkSize) && c.lastChunkSize >= 1
  }

  function Tape(c: Chunked): seq<Bit> {
    if c.chunks == [] then [] else Unpacked(c.chunks, c.lastChunkSize)
  }

  function ToTagState(c: Chunked): TagState {
    TagState(Tape(c), c.phase)
  }

  /** std::max(0, size - 1) * 8 + lastChunkSize */
  function TapeLength(c: Chunked): nat {
    (if |c.chunks| == 0 then 0 else |c.chunks| - 1) * 8 + c.lastChunkSize
  }

  /** The canonical packing of a tape, chunk by chunk. */
  function PackTape(tape: seq<Bit>): (chunks: seq<Byte>) {
    if tape == [] then []
    else if |tape| <= 8 then ChunkBound(tape); [Value(tape)]
    else ChunkBound(tape[..8]); [Value(tape[..8])] + PackTape(tape[8..])
  }

  function ChunkedFrom(s: TagState): (c: Chunked) {
    Chunked(PackTape(s.tape), if s.tape == [] then 0 else (|s.tape| - 1) % 8 + 1, s.headState)
  }

  lemma ChunkBound(bits: seq<Bit>)
    requires |bits| <= 8
    ensures Value(bits) < 256
  {
    Pow2Monotone(|bits|, 8);
    Pow2Values();
  }

  // ---------- packing is a bijection onto canonical states ----------

  lemma {:induction false} FullChunksConcat(a: seq<Byte>, b: seq<Byte>)
    ensures FullChunks(a + b) == FullChunks(a) + FullChunks(b)
  {
    if a == [] {
      assert a + b == b;
    } else {
      assert (a + b)[1..] == a[1..] + b;
      FullChunksConcat(a[1..], b);
    }
  }

  lemma {:induction false} FullChunksLength(chunks: seq<Byte>)
    ensures |FullChunks(chunks)| == 8 * |chunks|
  {
    if chunks != [] { FullChunksLength(chunks[1..]); }
  }

  /** The tape length is computed without unpacking. */
  lemma TapeLengthIsLength(c: Chunked)
    requires Canonical(c)
    ensures TapeLength(c) == |Tape(c)|
    ensures |c.chunks| > 1 <==> |Tape(c)| > 8
  {
    if c.chunks != [] { FullChunksLength(c.chunks[..|c.chunks| - 1]); }
  }

  /** The front of the queue is the front of the tape. */
  lemma TapeFront(c: Chunked)
    requires |c.chunks| > 1
    ensures Tape(c) == Digits(c.chunks[0], 8) + Tape(c.(chunks := c.chunks[1..]))
  {
    var rest := c.chunks[1..];
    assert c.chunks[..|c.chunks| - 1][1..] == rest[..|rest| - 1];
  }

  lemma SingleChunk(c: Chunked)
    requires |c.chunks| == 1
    ensures Tape(c) == Digits(c.chunks[0], c.lastChunkSize)
  {
    assert c.chunks[..0] == [] && FullChunks([]) == [];
  }

  lemma PackShort(s: TagState)
    requires 0 < |s.tape| <= 8
    ensures Canonical(ChunkedFrom(s)) && ToTagState(ChunkedFrom(s)) == s
  {
    hide Digits, Value, FullChunks, Unpacked;
    ChunkBound(s.tape);
    DigitsOfValue(s.tape);
    SingleChunk(ChunkedFrom(s));
  }

  /** The packing of a long tape: the first eight cells, then the packing of the rest. */
  lemma PackLong(s: TagState)
    requires |s.tape| > 8
    ensures var c, rest := ChunkedFrom(s), ChunkedFrom(s.(tape := s.tape[8..]));
            && |c.chunks| > 1 && c.chunks[1..] == rest.chunks && c.(chunks := rest.chunks) == rest
            && Digits(c.chunks[0], 8) == s.tape[..8]
  {
    hide Digits, Value;
    ChunkBound(s.tape[..8]);
    DigitsOfValue(s.tape[..8]);
    assert PackTape(s.tape)[1..] == PackTape(s.tape[8..]);
  }

  lemma CanonicalFront(c: Chunked)
    requires |c.chunks| > 1 && Canonical(c.(chunks := c.chunks[1..]))
    ensures Canonical(c)
  {
    hide Pow2;
  }

  lemma {:induction false} PackTapeCorrect(s: TagState)
    ensures Canonical(ChunkedFrom(s)) && ToTagState(ChunkedFrom(s)) == s
    decreases |s.tape|
  {
    if s.tape == [] {
    } else if |s.tape| <= 8 {
      PackShort(s);
    } else {
      hide Digits, Canonical, Tape, ChunkedFrom;
      var c, rest := ChunkedFrom(s), s.(tape := s.tape[8..]);
      PackLong(s);
      PackTapeCorrect(rest);
      CanonicalFront(c);
      TapeFront(c);
    }
  }

  /** Canonical states are exactly the packings: no two of them unpack to the same state, so
      equality of packed states is equality of tapes and phases. */
  lemma {:induction false} CanonicalUnique(c: Chunked)
    requires Canonical(c)
    ensures ChunkedFrom(ToTagState(c)) == c
    decreases |c.chunks|
  {
    if |c.chunks| == 0 {
    } else if |c.chunks| == 1 {
      UniqueShort(c);
    } else {
      hide Digits, Canonical, Tape, ChunkedFrom, TapeLength;
      var rest := c.(chunks := c.chunks[1..]);
      TapeLengthIsLength(c);
      TapeFront(c);
      assert Tape(c)[..8] == Digits(c.chunks[0], 8) && Tape(c)[8..] == Tape(rest);
      RestCanonical(c);
      CanonicalUnique(rest);
      PackLong(ToTagState(c));
      ByteOfDigits(c.chunks[0]);
      ByteOfDigits(ChunkedFrom(ToTagState(c)).chunks[0]);
      SameQueue(c.chunks, ChunkedFrom(ToTagState(c)).chunks);
    }
  }

  lemma RestCanonical(c: Chunked)
    requires Canonical(c) && |c.chunks| > 1
    ensures Canonical(c.(chunks := c.chunks[1..]))
  {
    hide Pow2;
  }

  lemma UniqueShort(c: Chunked)
    requires Canonical(c) && |c.chunks| == 1
    ensures ChunkedFrom(ToTagState(c)) == c
  {
    hide Digits, Value, FullChunks, Unpacked, Pow2;
    var last := c.chunks[0];
    SingleChunk(c);
    ValueOfDigits(last, c.lastChunkSize);
    LowSmall(last, c.lastChunkSize);
    assert c.chunks == [last];
  }

  lemma SameQueue(a: seq<Byte>, b: seq<Byte>)
    requires a != [] && b != [] && a[0] == b[0] && a[1..] == b[1..]
    ensures a == b
  {
    assert a == [a[0]] + a[1..] && b == [b[0]] + b[1..];
  }

  lemma ChunkEqualIffStateEqual(a: Chunked, b: Chunked)
    requires Canonical(a) && Canonical(b)
    ensures a == b <==> ToTagState(a) == ToTagState(b)
  {
    CanonicalUnique(a);
    CanonicalUnique(b);
  }
}
