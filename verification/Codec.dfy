/** Bytes on the stream: little-endian integers and packed bit arrays, written and read by
    the loops of the file classes. */
module Codec {
  import opened Bits
  import opened Chunks

  // ---------- little-endian integers ----------

  function LittleEndian(n: nat, k: nat): (bytes: seq<Byte>)
    ensures |bytes| == k
    decreases k
  {
    if k == 0 then [] else [ToByte(n)] + LittleEndian(Shr(n, 8), k - 1)
  }

  function FromLittleEndian(bytes: seq<Byte>): nat {
    if bytes == [] then 0 else Shl(FromLittleEndian(bytes[1..]), 8) + bytes[0]
  }

  lemma {:induction false} LowSplit(n: nat, j: nat, k: nat)
    ensures Low(n, j + k) == Shl(Low(Shr(n, j), k), j) + Low(n, j)
    decreases j
  {
    if j > 0 { LowSplit(n / 2, j - 1, k); }
  }

  lemma {:induction false} ShrTwice(n: nat, j: nat, k: nat)
    ensures Shr(Shr(n, j), k) == Shr(n, j + k)
    decreases j
  {
    if j > 0 { ShrTwice(n / 2, j - 1, k); }
  }

  /** Byte i of an integer, the lowest byte first. */
  lemma {:induction false} LittleEndianByte(n: nat, k: nat, i: nat)
    requires i < k
    ensures LittleEndian(n, k)[i] == n / Pow2(8 * i) % 256
    decreases k
  {
    hide Pow2, Shr, Low;
    ShrIsQuotient(n, 8 * i);
    if i == 0 {
      ShrZero(n);
    } else {
      LittleEndianByte(Shr(n, 8), k - 1, i - 1);
      ShrIsQuotient(Shr(n, 8), 8 * (i - 1));
      ShrTwice(n, 8, 8 * (i - 1));
    }
  }

  /** Reading back what was written truncates to the width. */
  lemma {:induction false} LittleEndianValue(n: nat, k: nat)
    ensures FromLittleEndian(LittleEndian(n, k)) == Low(n, 8 * k)
    decreases k
  {
    if k > 0 {
      hide Low, Shr, Shl;
      LittleEndianValue(Shr(n, 8), k - 1);
      LowSplit(n, 8, 8 * (k - 1));
      assert LittleEndian(n, k)[1..] == LittleEndian(Shr(n, 8), k - 1);
    } else {
      assert Low(n, 0) == 0;
    }
  }

  /** A wide integer is its low half followed by its high half. */
  lemma {:induction false} LittleEndianConcat(n: nat, j: nat, k: nat)
    ensures LittleEndian(n, j + k) == LittleEndian(n, j) + LittleEndian(Shr(n, 8 * j), k)
    decreases j
  {
    hide Shr, ToByte;
    if j > 0 {
      LittleEndianConcat(Shr(n, 8), j - 1, k);
      ShrTwice(n, 8, 8 * (j - 1));
    } else {
      ShrZero(n);
    }
  }

  lemma ShrZero(n: nat)
    ensures Shr(n, 0) == n
  {}

  lemma LowAbove(n: nat, m: nat)
    ensures Low(Low(n, 8 + m), 8) == Low(n, 8) && Shr(Low(n, 8 + m), 8) == Low(Shr(n, 8), m)
  {
    hide *;
    LowSplit(n, 8, m);
    ShlSplit(Low(Shr(n, 8), m), Low(n, 8), 8);
  }

  lemma LittleEndianStep(n: nat, k: nat)
    requires k > 0
    ensures LittleEndian(n, k) == [ToByte(n)] + LittleEndian(Shr(n, 8), k - 1)
  {
    hide ToByte, Shr;
  }

  lemma ToByteIsLow(n: nat)
    ensures ToByte(n) == Low(n, 8)
  {
    hide Low;
  }

  /** Masking to the width first does not matter. */
  lemma {:induction false} LittleEndianLow(n: nat, k: nat)
    ensures LittleEndian(Low(n, 8 * k), k) == LittleEndian(n, k)
    decreases k
  {
    if k > 0 {
      hide *;
      LowAbove(n, 8 * (k - 1));
      LittleEndianLow(Shr(n, 8), k - 1);
      LittleEndianStep(n, k);
      LittleEndianStep(Low(n, 8 * k), k);
      ToByteIsLow(n);
      ToByteIsLow(Low(n, 8 * k));
    }
  }

  lemma {:induction false} FromLittleEndianConcat(a: seq<Byte>, b: seq<Byte>)
    ensures FromLittleEndian(a + b) == Shl(FromLittleEndian(b), 8 * |a|) + FromLittleEndian(a)
  {
    hide Shl;
    if a == [] {
      assert a + b == b;
      assert Shl(FromLittleEndian(b), 0) == FromLittleEndian(b) by { ShlZero(FromLittleEndian(b)); }
    } else {
      assert (a + b)[1..] == a[1..] + b;
      FromLittleEndianConcat(a[1..], b);
      ShlSum(Shl(FromLittleEndian(b), 8 * |a[1..]|), FromLittleEndian(a[1..]), 8);
      ShlTwice(FromLittleEndian(b), 8 * |a[1..]|, 8);
    }
  }

  lemma ShlZero(n: nat)
    ensures Shl(n, 0) == n
  {}

  lemma {:induction false} FromLittleEndianBound(bytes: seq<Byte>)
    ensures FromLittleEndian(bytes) < Pow2(8 * |bytes|)
  {
    hide Shl;
    if bytes != [] {
      FromLittleEndianBound(bytes[1..]);
      ShlBound(FromLittleEndian(bytes[1..]), 8 * |bytes[1..]|, 8);
      Pow2Values();
    }
  }

  // ---------- packed bits ----------

  /** Eight bits to a byte, first bit on top, the last byte padded with zeros. */
  function PackedBytes(bits: seq<Bit>): (bytes: seq<Byte>)
    ensures |bytes| == (|bits| + 7) / 8
  {
    if bits == [] then []
    else if |bits| < 8 then ChunkBound(bits + Zeros(8 - |bits|)); [Value(bits + Zeros(8 - |bits|))]
    else ChunkBound(bits[..8]); [Value(bits[..8])] + PackedBytes(bits[8..])
  }

  /** The first n bits of the bytes' binary digits. */
  function UnpackedBits(bytes: seq<Byte>, n: nat): (bits: seq<Bit>)
    requires n <= 8 * |bytes|
    ensures |bits| == n
  {
    FullChunksLength(bytes);
    FullChunks(bytes)[..n]
  }

  lemma {:induction false} UnpackPacked(bits: seq<Bit>)
    ensures UnpackedBits(PackedBytes(bits), |bits|) == bits
  {
    hide Value, Digits;
    FullChunksLength(PackedBytes(bits));
    if bits == [] {
    } else if |bits| < 8 {
      var padded := bits + Zeros(8 - |bits|);
      DigitsOfValue(padded);
      assert FullChunks(PackedBytes(bits)) == padded + FullChunks([]);
    } else {
      DigitsOfValue(bits[..8]);
      UnpackPacked(bits[8..]);
      FullChunksLength(PackedBytes(bits[8..]));
      assert PackedBytes(bits)[1..] == PackedBytes(bits[8..]);
      assert bits == bits[..8] + bits[8..];
    }
  }

  /** Bit i is in byte i / 8, the first bit on top; behind the last bit there are zeros. */
  lemma {:induction false} PackedBit(bits: seq<Bit>, i: nat)
    requires i < 8 * |PackedBytes(bits)|
    ensures PackedBytes(bits)[i / 8] / Pow2(7 - i % 8) % 2 == if i < |bits| then bits[i] else 0
    decreases |bits|
  {
    hide Value, Digits, Pow2;
    DigitIsQuotient(PackedBytes(bits)[i / 8], 8, i % 8);
    if |bits| < 8 {
      var padded := bits + Zeros(8 - |bits|);
      DigitsOfValue(padded);
    } else if i < 8 {
      DigitsOfValue(bits[..8]);
    } else {
      PackedBit(bits[8..], i - 8);
      DigitIsQuotient(PackedBytes(bits[8..])[(i - 8) / 8], 8, (i - 8) % 8);
      EightLess(i);
    }
  }

  lemma EightLess(i: nat)
    requires i >= 8
    ensures (i - 8) / 8 == i / 8 - 1 && (i - 8) % 8 == i % 8
  {}

  class FileWriter {
    var bytes: seq<Byte>

    constructor ()
      ensures bytes == []
    {
      bytes := [];
    }

    method WriteU8(n: Byte)
      modifies this
      ensures bytes == old(bytes) + [n]
    {
      bytes := bytes + [n];
    }

    method WriteU16(n: nat)
      requires n < Pow2(16)
      modifies this
      ensures bytes == old(bytes) + LittleEndian(n, 2)
    {
      hide Low, Shr, BitAnd, Pow2;
      TwoBytes(n);
      WriteU8(BitAnd(Shr(n, 0), 0xFF));
      WriteU8(BitAnd(Shr(n, 8), 0xFF));
    }

    method WriteU32(n: nat)
      requires n < Pow2(32)
      modifies this
      ensures bytes == old(bytes) + LittleEndian(n, 4)
    {
      hide Low, Shr, BitAnd, Pow2, LittleEndian;
      Halves(n, 2, 0xFFFF);
      WriteU16(BitAnd(Shr(n, 0), 0xFFFF));
      WriteU16(BitAnd(Shr(n, 16), 0xFFFF));
    }

    method WriteU64(n: nat)
      requires n < Pow2(64)
      modifies this
      ensures bytes == old(bytes) + LittleEndian(n, 8)
    {
      hide Low, Shr, BitAnd, Pow2, LittleEndian;
      Halves(n, 4, 0xFFFF_FFFF);
      WriteU32(BitAnd(Shr(n, 0), 0xFFFF_FFFF));
      WriteU32(BitAnd(Shr(n, 32), 0xFFFF_FFFF));
    }

    /** Full bytes first, then the partial byte at the end if there is one. */
    method WriteBits(bits: seq<Bit>)
      modifies this
      ensures bytes == old(bytes) + PackedBytes(bits)
    {
      hide PackedBytes, Value;
      var fullBytes := |bits| / 8;
      var remainderBits := |bits| % 8;
      assert bits[0..] == bits && bytes + PackedBytes(bits[0..]) == old(bytes) + PackedBytes(bits);
      var byteIndex := 0;
      while byteIndex < fullBytes
        invariant 0 <= byteIndex <= fullBytes
        invariant bytes + PackedBytes(bits[byteIndex * 8..]) == old(bytes) + PackedBytes(bits)
      {
        var byte := PackByte(bits, byteIndex * 8, 8);
        PackNext(bits, byteIndex * 8);
        BytesBefore(bytes, [byte], PackedBytes(bits[byteIndex * 8 + 8..]));
        WriteU8(byte);
        byteIndex := byteIndex + 1;
      }
      if remainderBits > 0 {
        var lastByte := PackByte(bits, fullBytes * 8, remainderBits);
        PackFirst(bits[fullBytes * 8..]);
        assert bits[fullBytes * 8..] == bits[fullBytes * 8..fullBytes * 8 + remainderBits];
        WriteU8(lastByte);
      } else {
        PackFirst(bits[fullBytes * 8..]);
      }
    }

    /** Up to 64 bits as one integer; more is an error, and nothing is written. */
    method WriteBitsU64(bits: seq<Bit>) returns (ok: bool)
      modifies this
      ensures ok <==> |bits| <= 64
      ensures bytes == if ok then old(bytes) + LittleEndian(Value(bits), 8) else old(bytes)
    {
      hide Value, LittleEndian, Low, Shl, BitOr, BitAnd, Pow2;
      if |bits| > 64 { return false; }
      var bitsDec := 0;
      ValueNothing();
      var bit := 0;
      while bit < |bits|
        invariant 0 <= bit <= |bits|
        invariant bitsDec == Value(bits[..bit]) && bytes == old(bytes)
      {
        OrLow(bits[..bit], bits[bit], 64);
        assert bits[..bit + 1] == bits[..bit] + [bits[bit]];
        bitsDec := Low(Shl(bitsDec, 1), 64);
        bitsDec := BitOr(bitsDec, BitAnd(bits[bit], 1));
        bit := bit + 1;
      }
      assert bits[..|bits|] == bits;
      Pow2Monotone(|bits|, 64);
      WriteU64(bitsDec);
      return true;
    }

    /** `byte |= bits[start + bit] << (7 - bit)` for the bits of one byte. */
    static method PackByte(bits: seq<Bit>, start: nat, count: nat) returns (byte: Byte)
      requires count <= 8 && start + count <= |bits|
      ensures byte == Value(bits[start..start + count] + Zeros(8 - count))
    {
      hide Value, Shl, BitOr;
      var acc := 0;
      var bit := 0;
      ValueNothing();
      while bit < count
        invariant 0 <= bit <= count
        invariant acc == Shl(Value(bits[start..start + bit]), 8 - bit)
      {
        OrBit(bits[start..start + bit], bits[start + bit]);
        assert bits[start..start + bit + 1] == bits[start..start + bit] + [bits[start + bit]];
        acc := BitOr(acc, Shl(bits[start + bit], 7 - bit));
        bit := bit + 1;
      }
      var slice := bits[start..start + count];
      ValueConcat(slice, Zeros(8 - count));
      ValueZeros(8 - count);
      ChunkBound(slice + Zeros(8 - count));
      byte := acc;
    }
  }

  lemma ValueNothing()
    ensures Value([]) == 0 && Shl(0, 8) == 0
  {
    assert Shl(0, 4) == 0;
  }

  lemma OrBit(done: seq<Bit>, b: Bit)
    requires |done| < 8
    ensures BitOr(Shl(Value(done), 8 - |done|), Shl(b, 7 - |done|)) == Shl(Value(done + [b]), 7 - |done|)
  {
    var k := 7 - |done|;
    hide Value, BitOr, Digits;
    ValueConcat(done, [b]);
    assert Value([b]) == b by { ValueSingle(b); }
    Pow2Values();
    ShlBound(b, 1, k);
    BitOrDisjoint(Value(done), Shl(b, k), k + 1);
    assert Shl(Value(done), 1) == 2 * Value(done) by { ShlOnce(Value(done)); }
    ShlTwice(Value(done), 1, k);
    ShlSum(Shl(Value(done), 1), b, k);
  }

  /** `bits_dec <<= 1; bits_dec |= bit & 1` in a w-bit register with room. */
  lemma OrLow(done: seq<Bit>, b: Bit, w: nat)
    requires |done| < w
    ensures BitOr(Low(Shl(Value(done), 1), w), BitAnd(b, 1)) == Value(done + [b])
  {
    hide Value, BitOr, Low, BitAnd;
    ValueConcat(done, [b]);
    ValueSingle(b);
    ShlBound(Value(done), |done|, 1);
    Pow2Monotone(|done| + 1, w);
    LowSmall(Shl(Value(done), 1), w);
    Pow2Values();
    BitAndMask(b, 1);
    LowSmall(b, 1);
    BitOrDisjoint(Value(done), b, 1);
  }

  lemma ShlOnce(n: nat)
    ensures Shl(n, 1) == 2 * n
  {}

  lemma ValueSingle(b: Bit)
    ensures Value([b]) == b
  {
    assert [b][..0] == [];
  }

  lemma PackFirst(bits: seq<Bit>)
    ensures bits == [] ==> PackedBytes(bits) == []
    ensures |bits| >= 8 ==> Value(bits[..8] + Zeros(0)) < 256 && PackedBytes(bits) == [Value(bits[..8] + Zeros(0))] + PackedBytes(bits[8..])
    ensures 0 < |bits| < 8 ==> Value(bits + Zeros(8 - |bits|)) < 256 && PackedBytes(bits) == [Value(bits + Zeros(8 - |bits|))]
  {
    if |bits| >= 8 {
      assert bits[..8] + Zeros(0) == bits[..8];
      ChunkBound(bits[..8]);
    } else if bits != [] {
      ChunkBound(bits + Zeros(8 - |bits|));
    }
  }

  lemma BytesBefore(a: seq<Byte>, b: seq<Byte>, c: seq<Byte>)
    ensures (a + b) + c == a + (b + c)
  {}

  lemma PackNext(bits: seq<Bit>, start: nat)
    requires start + 8 <= |bits|
    ensures Value(bits[start..start + 8] + Zeros(8 - 8)) < 256
    ensures PackedBytes(bits[start..]) == [Value(bits[start..start + 8] + Zeros(8 - 8))] + PackedBytes(bits[start + 8..])
  {
    hide Value, PackedBytes;
    PackFirst(bits[start..]);
    assert bits[start..][..8] == bits[start..start + 8] && bits[start..][8..] == bits[start + 8..];
  }

  lemma TwoBytes(n: nat)
    requires n < Pow2(16)
    ensures BitAnd(Shr(n, 0), 0xFF) < 256 && BitAnd(Shr(n, 8), 0xFF) < 256
    ensures LittleEndian(n, 2) == [BitAnd(Shr(n, 0), 0xFF), BitAnd(Shr(n, 8), 0xFF)]
  {
    ShrZero(n);
    ByteMask(n);
    ByteMask(Shr(n, 8));
    hide Low, Shr, BitAnd, Pow2, ToByte;
    assert LittleEndian(n, 2) == [ToByte(n)] + LittleEndian(Shr(n, 8), 1);
    assert LittleEndian(Shr(n, 8), 1) == [ToByte(Shr(n, 8))] + LittleEndian(Shr(Shr(n, 8), 8), 0);
    ByteMask(n);
    ByteMask(Shr(n, 8));
    ShrZero(n);
  }

  lemma ByteMask(n: nat)
    ensures BitAnd(n, 0xFF) == ToByte(n)
  {
    Pow2Values();
    BitAndMask(n, 8);
  }

  /** Writing both halves, each masked to half the width. */
  lemma Halves(n: nat, k: nat, mask: nat)
    requires (k == 2 && mask == 0xFFFF) || (k == 4 && mask == 0xFFFF_FFFF)
    ensures BitAnd(Shr(n, 0), mask) < Pow2(8 * k) && BitAnd(Shr(n, 8 * k), mask) < Pow2(8 * k)
    ensures LittleEndian(n, 2 * k) == LittleEndian(BitAnd(Shr(n, 0), mask), k) + LittleEndian(BitAnd(Shr(n, 8 * k), mask), k)
  {
    Masks();
    hide Low, Shr, BitAnd, Pow2, LittleEndian;
    Masks();
    ShrZero(n);
    BitAndMask(n, 8 * k);
    BitAndMask(Shr(n, 8 * k), 8 * k);
    LittleEndianLow(n, k);
    LittleEndianLow(Shr(n, 8 * k), k);
    LittleEndianConcat(n, k, k);
  }

  lemma Pow2Plus4(n: nat)
    ensures Pow2(n + 4) == 16 * Pow2(n)
  {
    assert Pow2(n + 4) == 2 * Pow2(n + 3) == 4 * Pow2(n + 2) == 8 * Pow2(n + 1);
  }

  lemma Pow2Plus16(n: nat)
    ensures Pow2(n + 16) == 0x1_0000 * Pow2(n)
  {
    hide *;
    Pow2Plus4(n);
    Pow2Plus4(n + 4);
    Pow2Plus4(n + 8);
    Pow2Plus4(n + 12);
  }

  lemma Masks()
    ensures Pow2(16) - 1 == 0xFFFF && Pow2(32) - 1 == 0xFFFF_FFFF && Pow2(64) == TWO_TO_THE_64
  {
    hide Pow2;
    Pow2Values();
    Pow2Plus16(16);
    Pow2Plus16(32);
    Pow2Plus16(48);
  }

  // ---------- reading ----------

  datatype Read<T> = Got(value: T) | UnexpectedEof

  /** A byte stream with a position; running past the end is an error. */
  class FileReader {
    const data: seq<Byte>
    var position: nat

    ghost predicate Valid()
      reads this
    {
      position <= |data|
    }

    ghost function Rest(): seq<Byte>
      reads this
      requires Valid()
    {
      data[position..]
    }

    constructor (data: seq<Byte>)
      ensures Valid() && Rest() == data
    {
      this.data := data;
      position := 0;
    }

    method ReadU8() returns (r: Read<Byte>)
      requires Valid()
      modifies `position
      ensures Valid()
      ensures r.Got? <==> |old(Rest())| >= 1
      ensures r.Got? ==> r.value == old(Rest())[0] && Rest() == old(Rest())[1..]
    {
      if position == |data| { return UnexpectedEof; }
      r := Got(data[position]);
      position := position + 1;
    }

    method ReadU16() returns (r: Read<nat>)
      requires Valid()
      modifies `position
      ensures Valid()
      ensures r.Got? <==> |old(Rest())| >= 2
      ensures r.Got? ==> r.value == FromLittleEndian(old(Rest())[..2]) && Rest() == old(Rest())[2..]
    {
      hide FromLittleEndian, BitOr, Shl;
      ghost var all := Rest();
      var low := ReadU8();
      if low.UnexpectedEof? { return UnexpectedEof; }
      var high := ReadU8();
      if high.UnexpectedEof? { return UnexpectedEof; }
      JoinBytes(low.value, high.value);
      assert all[..2] == [low.value, high.value];
      return Got(BitOr(Shl(high.value, 8), Shl(low.value, 0)));
    }

    method ReadU32() returns (r: Read<nat>)
      requires Valid()
      modifies `position
      ensures Valid()
      ensures r.Got? <==> |old(Rest())| >= 4
      ensures r.Got? ==> r.value == FromLittleEndian(old(Rest())[..4]) && Rest() == old(Rest())[4..]
    {
      hide FromLittleEndian, BitOr, Shl;
      ghost var all := Rest();
      var low := ReadU16();
      if low.UnexpectedEof? { return UnexpectedEof; }
      var high := ReadU16();
      if high.UnexpectedEof? { return UnexpectedEof; }
      JoinHalves(all[..2], all[2..][..2]);
      assert all[..4] == all[..2] + all[2..][..2];
      return Got(BitOr(Shl(high.value, 16), Shl(low.value, 0)));
    }

    method ReadU64() returns (r: Read<nat>)
      requires Valid()
      modifies `position
      ensures Valid()
      ensures r.Got? <==> |old(Rest())| >= 8
      ensures r.Got? ==> r.value == FromLittleEndian(old(Rest())[..8]) && Rest() == old(Rest())[8..]
    {
      hide FromLittleEndian, BitOr, Shl;
      ghost var all := Rest();
      var low := ReadU32();
      if low.UnexpectedEof? { return UnexpectedEof; }
      var high := ReadU32();
      if high.UnexpectedEof? { return UnexpectedEof; }
      JoinHalves(all[..4], all[4..][..4]);
      assert all[..8] == all[..4] + all[4..][..4];
      return Got(BitOr(Shl(high.value, 32), Shl(low.value, 0)));
    }

    /** read_bits: full bytes, then the partial byte at the end if there is one. */
    method ReadBits(bitCount: nat) returns (r: Read<seq<Bit>>)
      requires Valid()
      modifies `position
      ensures Valid()
      ensures r.Got? <==> |old(Rest())| >= (bitCount + 7) / 8
      ensures r.Got? ==> r.value == UnpackedBits(old(Rest())[..(bitCount + 7) / 8], bitCount)
      ensures r.Got? ==> Rest() == old(Rest())[(bitCount + 7) / 8..]
    {
      hide FullChunks, Digits;
      ghost var all := Rest();
      var bits: seq<Bit> := [];
      var fullBytes := bitCount / 8;
      var remainderBits := bitCount % 8;
      var byteIndex := 0;
      NoChunks(all);
      while byteIndex < fullBytes
        invariant 0 <= byteIndex <= fullBytes && byteIndex <= |all|
        invariant Valid() && Rest() == all[byteIndex..]
        invariant bits == FullChunks(all[..byteIndex])
      {
        var byte := ReadU8();
        if byte.UnexpectedEof? { return UnexpectedEof; }
        var cells := UnpackByte(byte.value, 8);
        OneMoreChunk(all, byteIndex);
        bits := bits + cells;
        byteIndex := byteIndex + 1;
      }
      if remainderBits > 0 {
        var lastByte := ReadU8();
        if lastByte.UnexpectedEof? { return UnexpectedEof; }
        var cells := UnpackByte(lastByte.value, remainderBits);
        OneMoreChunk(all, fullBytes);
        bits := bits + cells;
      }
      ReadAll(all, bits, bitCount);
      return Got(bits);
    }

    /** `bits[bit] = (byte >> (7 - bit)) & 1` for the bits of one byte. */
    static method UnpackByte(byte: Byte, count: nat) returns (bits: seq<Bit>)
      requires count <= 8
      ensures bits == Digits(byte, 8)[..count]
    {
      hide Digits, Shr, BitAnd;
      bits := [];
      var bit := 0;
      while bit < count
        invariant 0 <= bit <= count
        invariant bits == Digits(byte, 8)[..bit]
      {
        DigitAt(byte, 8, bit);
        bits := bits + [BitAnd(Shr(byte, 7 - bit), 1)];
        bit := bit + 1;
      }
    }

    /** An integer unpacked into bitCount cells, last cell first. The signed 8-bit loop counter
        starts below zero for more than 128 cells, which are then all left zero. */
    method ReadBitsU64(bitCount: Byte) returns (r: Read<seq<Bit>>)
      requires Valid()
      modifies `position
      ensures Valid()
      ensures r.Got? <==> |old(Rest())| >= 8
      ensures r.Got? ==> Rest() == old(Rest())[8..]
      ensures r.Got? ==> r.value == if bitCount <= 128 then Digits(FromLittleEndian(old(Rest())[..8]), bitCount) else Zeros(bitCount)
    {
      hide FromLittleEndian, BitAnd, Low, Digits, Filling;
      var n := ReadU64();
      if n.UnexpectedEof? { return UnexpectedEof; }
      var bits: seq<Bit> := Zeros(bitCount);
      var bitsDec := n.value;
      FillStart(bits, bitsDec);
      var bit: int := if bitCount - 1 < 128 then bitCount - 1 else bitCount - 1 - 256;
      while bit >= 0
        invariant bitCount <= 128 ==> -1 <= bit < bitCount
        invariant bitCount > 128 ==> bit < 0 && bits == Zeros(bitCount)
        invariant |bits| == bitCount
        invariant Valid() && |old(Rest())| >= 8 && Rest() == old(Rest())[8..]
        invariant bitCount <= 128 ==> Filling(bits, bit + 1, bitsDec, n.value)
      {
        LowBit(bitsDec);
        FillNext(bits, bit + 1, bitsDec, n.value);
        bits := bits[bit := BitAnd(bitsDec, 1)];
        bitsDec := bitsDec / 2;
        bit := bit - 1;
      }
      if bitCount <= 128 { FillEnd(bits, bitsDec, n.value); }
      return Got(bits);
    }
  }

  /** The cells from i on hold the low digits of v; the rest of its value is still in dec. */
  ghost predicate Filling(bits: seq<Bit>, i: int, dec: nat, v: nat) {
    0 <= i <= |bits| && Digits(dec, i) + bits[i..] == Digits(v, |bits|)
  }

  lemma FillStart(bits: seq<Bit>, v: nat)
    ensures Filling(bits, |bits|, v, v)
  {
    assert bits[|bits|..] == [];
  }

  lemma FillNext(bits: seq<Bit>, i: int, dec: nat, v: nat)
    requires Filling(bits, i, dec, v) && i > 0
    ensures Filling(bits[i - 1 := dec % 2], i - 1, dec / 2, v)
  {
    var next: seq<Bit> := bits[i - 1 := dec % 2];
    assert next[i - 1..] == [dec % 2] + bits[i..];
    assert (Digits(dec / 2, i - 1) + [dec % 2]) + bits[i..] == Digits(dec / 2, i - 1) + ([dec % 2] + bits[i..]);
  }

  lemma FillEnd(bits: seq<Bit>, dec: nat, v: nat)
    requires Filling(bits, 0, dec, v)
    ensures bits == Digits(v, |bits|)
  {
    assert bits[0..] == bits;
  }

  lemma LowBit(n: nat)
    ensures BitAnd(n, 1) == n % 2
  {}

  lemma JoinBytes(low: Byte, high: Byte)
    ensures BitOr(Shl(high, 8), Shl(low, 0)) == FromLittleEndian([low, high])
  {
    assert [low, high][1..] == [high] && [high][1..] == [];
    ShlZero(low);
    assert FromLittleEndian([high]) == high by { ShlNothing(8); }
    hide BitOr, Shl, Pow2;
    Pow2Values();
    BitOrDisjoint(high, low, 8);
  }

  lemma {:induction false} ShlNothing(k: nat)
    ensures Shl(0, k) == 0
  {
    if k > 0 { ShlNothing(k - 1); }
  }

  lemma JoinHalves(low: seq<Byte>, high: seq<Byte>)
    ensures BitOr(Shl(FromLittleEndian(high), 8 * |low|), Shl(FromLittleEndian(low), 0)) == FromLittleEndian(low + high)
  {
    hide BitOr, Shl, FromLittleEndian, Pow2;
    ShlZero(FromLittleEndian(low));
    FromLittleEndianBound(low);
    BitOrDisjoint(FromLittleEndian(high), FromLittleEndian(low), 8 * |low|);
    FromLittleEndianConcat(low, high);
  }

  lemma {:induction false} DigitAt(v: nat, n: nat, i: nat)
    requires i < n
    ensures BitAnd(Shr(v, n - 1 - i), 1) == Digits(v, n)[i]
    decreases n
  {
    hide BitAnd;
    LowBit(Shr(v, n - 1 - i));
    if i + 1 < n { DigitAt(v / 2, n - 1, i); LowBit(Shr(v / 2, n - 2 - i)); } else { ShrZero(v); }
  }

  lemma NoChunks(all: seq<Byte>)
    ensures FullChunks(all[..0]) == []
  {
    assert all[..0] == [];
  }

  lemma OneMoreChunk(all: seq<Byte>, i: nat)
    requires i < |all|
    ensures FullChunks(all[..i + 1]) == FullChunks(all[..i]) + Digits(all[i], 8)
  {
    hide Digits;
    assert all[..i + 1] == all[..i] + [all[i]];
    FullChunksConcat(all[..i], [all[i]]);
    assert FullChunks([all[i]]) == Digits(all[i], 8) + FullChunks([]);
  }

  /** The cells read are a prefix of the bytes' digits of the right length. */
  lemma ReadAll(all: seq<Byte>, bits: seq<Bit>, bitCount: nat)
    requires (bitCount + 7) / 8 <= |all|
    requires var i, k := bitCount / 8, bitCount % 8;
             bits == FullChunks(all[..i]) + (if k > 0 then Digits(all[i], 8)[..k] else [])
    ensures bits == UnpackedBits(all[..(bitCount + 7) / 8], bitCount)
  {
    hide FullChunks, Digits;
    var i, k := bitCount / 8, bitCount % 8;
    FullChunksLength(all[..i]);
    if k > 0 { OneMoreChunk(all, i); }
  }

  // ---------- round trips ----------

  lemma IntegerRoundTrip(n: nat, k: nat, rest: seq<Byte>)
    requires n < Pow2(8 * k)
    ensures FromLittleEndian((LittleEndian(n, k) + rest)[..k]) == n
    ensures (LittleEndian(n, k) + rest)[k..] == rest
  {
    hide Low, FromLittleEndian, LittleEndian;
    LittleEndianValue(n, k);
    LowSmall(n, 8 * k);
    assert (LittleEndian(n, k) + rest)[..k] == LittleEndian(n, k);
  }

  lemma BitsRoundTrip(bits: seq<Bit>, rest: seq<Byte>)
    ensures var nb := (|bits| + 7) / 8;
            && UnpackedBits((PackedBytes(bits) + rest)[..nb], |bits|) == bits
            && (PackedBytes(bits) + rest)[nb..] == rest
  {
    hide PackedBytes, UnpackedBits;
    UnpackPacked(bits);
    assert (PackedBytes(bits) + rest)[..(|bits| + 7) / 8] == PackedBytes(bits);
  }

  /** write_bits_u64 and read_bits_u64 with the right count. */
  lemma BitsU64RoundTrip(bits: seq<Bit>, rest: seq<Byte>)
    requires |bits| <= 64
    ensures Digits(FromLittleEndian((LittleEndian(Value(bits), 8) + rest)[..8]), |bits|) == bits
  {
    hide Value, Digits, LittleEndian, FromLittleEndian;
    Pow2Monotone(|bits|, 64);
    IntegerRoundTrip(Value(bits), 8, rest);
    DigitsOfValue(bits);
  }
}
