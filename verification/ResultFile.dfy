/** The result file: the writer of the command line tool and the parser that reads it back. */
module ResultFile {
  import opened Bits
  import opened TagSystem
  import opened Codec
  import S = Searcher
  import H = History
  import HistoryTheorems
  import PostLength

  const RESULT_FILE_MAGIC: Byte := 0x52  // 'R'
  const VERSION_1: Byte := 1

  /** The 5-bit codes of the conclusion reasons. */
  function Code(reason: S.ConclusionReason): (c: nat)
    ensures 1 <= c <= 9
  {
    match reason
    case InvalidInput => 1
    case Terminated => 2
    case ReachedCycle => 3
    case ReachedKnownCheckpoint => 4
    case MaxTapeLengthExceeded => 5
    case MaxEventCountExceeded => 6
    case TimeConstraintExceeded => 7
    case NotEvaluated => 8
    case MergedWithAnotherInit => 9
  }

  /** A record as the parser returns it; the final tape may have been left out. */
  datatype ParsedResult = ParsedResult(
    initialHead: nat, initialTape: seq<Bit>, eventCount: nat, maxTapeSize: nat,
    reason: ParsedReason, finalHead: nat, finalTapeSize: nat, finalTape: OptionalTape)

  datatype ParsedReason = FileFormatError | Known(reason: S.ConclusionReason) | Unknown(code: nat)

  /** The parser's own table of reasons. */
  function LookUpReason(code: nat): ParsedReason {
    if code == 0 then FileFormatError
    else if code == 1 then Known(S.InvalidInput)
    else if code == 2 then Known(S.Terminated)
    else if code == 3 then Known(S.ReachedCycle)
    else if code == 4 then Known(S.ReachedKnownCheckpoint)
    else if code == 5 then Known(S.MaxTapeLengthExceeded)
    else if code == 6 then Known(S.MaxEventCountExceeded)
    else if code == 7 then Known(S.TimeConstraintExceeded)
    else if code == 8 then Known(S.NotEvaluated)
    else if code == 9 then Known(S.MergedWithAnotherInit)
    else Unknown(code)
  }

  datatype OptionalTape = Absent | Tape(bits: seq<Bit>)

  /** The final state is written unless it is too big, empty or irrelevant. */
  predicate WritesFinalState(r: S.EvaluationResult, biggestTapeToWrite: nat) {
    && 0 < r.finalTapeLength <= biggestTapeToWrite
    && r.conclusionReason != S.InvalidInput && r.conclusionReason != S.NotEvaluated
  }

  /** What should be read back. */
  function Expected(r: S.EvaluationResult, final: bool): ParsedResult {
    ParsedResult(r.initialState.headState, r.initialState.tape, r.eventCount, r.maxTapeLength,
                 Known(r.conclusionReason), r.finalState.headState, r.finalTapeLength,
                 if final then Tape(r.finalState.tape) else Absent)
  }

  /** Every count is a uint64_t, as in the source. */
  predicate Fits(r: S.EvaluationResult) {
    && r.eventCount < TWO_TO_THE_64 && r.maxTapeLength < TWO_TO_THE_64
    && r.finalTapeLength < TWO_TO_THE_64 && |r.initialState.tape| < TWO_TO_THE_64
  }

  /** What the record format can hold. */
  predicate WellFormed(r: S.EvaluationResult, final: bool) {
    && 1 <= |r.initialState.tape| <= 64
    && r.initialState.headState < 4 && r.finalState.headState < 4
    && (final ==> r.finalTapeLength == |r.finalState.tape|)
  }

  // ---------- headers ----------

  /** Head state above six bits of tape length minus one, computed in size_t. */
  function InitialHeader(head: Byte, size: nat): nat {
    BitOr(BitOr(0, Shl(BitAnd(head, 3), 6)), BitAnd((size + TWO_TO_THE_64 - 1) % TWO_TO_THE_64, 63))
  }

  function ResultHeader(code: nat, head: Byte, final: bool): nat {
    BitOr(BitOr(BitOr(0, Shl(BitAnd(code, 31), 3)), Shl(BitAnd(head, 3), 1)), Shl(BitAnd(if final then 1 else 0, 1), 0))
  }

  lemma MaskConstants()
    ensures Pow2(1) - 1 == 1 && Pow2(2) - 1 == 3 && Pow2(5) - 1 == 31 && Pow2(6) - 1 == 63
    ensures Shl(3, 6) == 192 && Shl(31, 3) == 248 && Shl(3, 1) == 6
  {
    Pow2Values();
    assert Shl(3, 3) == 24;
  }

  lemma InitialHeaderFields(head: Byte, size: nat)
    requires size < TWO_TO_THE_64
    ensures var h := InitialHeader(head, size);
            && h < 256 && Shr(BitAnd(h, 192), 6) == Low(head, 2)
            && 1 + BitAnd(h, 63) == 1 + Low((size + TWO_TO_THE_64 - 1) % TWO_TO_THE_64, 6)
  {
    hide BitOr, BitAnd, Shl, Shr, Low, Pow2;
    var less := (size + TWO_TO_THE_64 - 1) % TWO_TO_THE_64;
    MaskConstants();
    BitAndMask(head, 2);
    BitAndMask(less, 6);
    var high, low := Low(head, 2), Low(less, 6);
    OrZero(Shl(high, 6));
    BitOrDisjoint(high, low, 6);
    var h := Shl(high, 6) + low;
    ShlBound(high, 2, 6);
    Pow2Values();
    ReadField(h, high, low, 2, 6, 3);
    BitAndMask(h, 6);
    ShlSplit(high, low, 6);
  }

  lemma OrZero(n: nat)
    ensures BitOr(0, n) == n
  {}

  /** Masking a field and shifting it down. */
  lemma ReadField(h: nat, high: nat, low: nat, width: nat, k: nat, mask: nat)
    requires low < Pow2(k) && high < Pow2(width) && h == Shl(high, k) + low && mask == Pow2(width) - 1
    ensures Shr(BitAnd(h, Shl(mask, k)), k) == high
  {
    hide BitAnd, Shl, Shr, Low, Pow2;
    BitAndShifted(h, mask, k);
    ShlSplit(high, low, k);
    BitAndMask(high, width);
    LowSmall(high, width);
    ShlSplit(high, 0, k);
  }

  lemma ResultHeaderFields(code: nat, head: Byte, final: bool)
    requires code < 32
    ensures var h := ResultHeader(code, head, final);
            && h < 256 && Shr(BitAnd(h, 248), 3) == code && Shr(BitAnd(h, 6), 1) == Low(head, 2)
            && (BitAnd(h, 1) == 1 <==> final)
  {
    hide BitOr, BitAnd, Shl, Shr, Low, Pow2;
    MaskConstants();
    Pow2Values();
    var flag := if final then 1 else 0;
    var mid := Low(head, 2);
    BitAndMask(code, 5);
    LowSmall(code, 5);
    BitAndMask(head, 2);
    BitAndMask(flag, 1);
    LowSmall(flag, 1);
    ShlZero(flag);
    OrZero(Shl(code, 3));
    ShlBound(mid, 2, 1);
    BitOrDisjoint(code, Shl(mid, 1), 3);
    var upper := Shl(code, 2) + mid;
    ShlTwice(code, 2, 1);
    ShlSum(Shl(code, 2), mid, 1);
    BitOrDisjoint(upper, flag, 1);
    var h := Shl(upper, 1) + flag;
    ShlBound(code, 5, 2);
    ShlBound(upper, 7, 1);
    ShlTwoBits(mid, flag);
    ReadField(h, code, Shl(mid, 1) + flag, 5, 3, 31);
    MiddleField(h, upper, flag, code, mid);
    BitAndMask(h, 1);
    ShlSplit(upper, flag, 1);
  }

  lemma ShlTwoBits(mid: nat, flag: nat)
    requires mid < 4 && flag < 2
    ensures Shl(mid, 1) + flag < 8
  {}

  lemma MiddleField(h: nat, upper: nat, flag: nat, code: nat, mid: nat)
    requires flag < 2 && mid < 4 && h == Shl(upper, 1) + flag && upper == Shl(code, 2) + mid
    ensures Shr(BitAnd(h, 6), 1) == mid
  {
    hide BitAnd, Shl, Shr, Low, Pow2;
    MaskConstants();
    Pow2Values();
    BitAndShifted(h, 3, 1);
    ShlSplit(upper, flag, 1);
    BitAndMask(upper, 2);
    ShlSplit(code, mid, 2);
    ShlSplit(mid, 0, 1);
  }

  // ---------- one record ----------

  function EncodedInitial(r: S.EvaluationResult): seq<Byte>
    requires Fits(r)
  {
    InitialHeaderFields(r.initialState.headState, |r.initialState.tape|);
    [InitialHeader(r.initialState.headState, |r.initialState.tape|)] + PackedBytes(r.initialState.tape)
  }

  function EncodedOutcome(r: S.EvaluationResult, final: bool): seq<Byte> {
    ResultHeaderFields(Code(r.conclusionReason), r.finalState.headState, final);
    [ResultHeader(Code(r.conclusionReason), r.finalState.headState, final)]
    + (LittleEndian(r.eventCount, 8) + (LittleEndian(r.maxTapeLength, 8) + (LittleEndian(r.finalTapeLength, 8)
    + (if final then PackedBytes(r.finalState.tape) else []))))
  }

  function Encoded(r: S.EvaluationResult, final: bool): seq<Byte>
    requires Fits(r)
  {
    EncodedInitial(r) + EncodedOutcome(r, final)
  }

  datatype Parse<T> = Parsed(value: T, rest: seq<Byte>) | EndOfFile

  /** Head state and tape of the initial state. */
  function ParsedInitial(data: seq<Byte>): Parse<(nat, seq<Bit>)> {
    if |data| < 1 then EndOfFile
    else
      var h := data[0];
      var size := 1 + BitAnd(h, 63);
      var nb := (size + 7) / 8;
      if |data| < 1 + nb then EndOfFile
      else Parsed((Shr(BitAnd(h, 192), 6), UnpackedBits(data[1..][..nb], size)), data[1..][nb..])
  }

  /** Everything after the initial state. */
  function ParsedOutcome(head: nat, tape: seq<Bit>, data: seq<Byte>): Parse<ParsedResult> {
    if |data| < 25 then EndOfFile
    else
      var h := data[0];
      var eventCount := FromLittleEndian(data[1..][..8]);
      var maxTapeSize := FromLittleEndian(data[1..][8..][..8]);
      var finalTapeSize := FromLittleEndian(data[1..][8..][8..][..8]);
      var partial := ParsedResult(head, tape, eventCount, maxTapeSize, LookUpReason(Shr(BitAnd(h, 248), 3)),
                                  Shr(BitAnd(h, 6), 1), finalTapeSize, Absent);
      ParsedFinal(partial, BitAnd(h, 1) == 1, data[1..][8..][8..][8..])
  }

  /** The final tape, if the flag says that there is one. */
  function ParsedFinal(partial: ParsedResult, present: bool, data: seq<Byte>): Parse<ParsedResult> {
    var nb := (partial.finalTapeSize + 7) / 8;
    if !present then Parsed(partial, data)
    else if |data| < nb then EndOfFile
    else Parsed(partial.(finalTape := Tape(UnpackedBits(data[..nb], partial.finalTapeSize))), data[nb..])
  }

  /** readResultFileResult */
  function ParsedRecord(data: seq<Byte>): Parse<ParsedResult> {
    match ParsedInitial(data)
    case EndOfFile => EndOfFile
    case Parsed(initial, rest) => ParsedOutcome(initial.0, initial.1, rest)
  }

  lemma SizeField(size: nat)
    requires size < TWO_TO_THE_64
    ensures 1 + Low((size + TWO_TO_THE_64 - 1) % TWO_TO_THE_64, 6) == size <==> 1 <= size <= 64
  {
    hide Low, Pow2;
    var less := (size + TWO_TO_THE_64 - 1) % TWO_TO_THE_64;
    Pow2Values();
    assert size >= 1 ==> less == size - 1;
    if 1 <= size <= 64 { LowSmall(less, 6); }
  }

  lemma HeadField(head: Byte)
    ensures Low(head, 2) == head <==> head < 4
  {
    hide Low, Pow2;
    Pow2Values();
    if head < 4 { LowSmall(head, 2); }
  }

  /** The initial part is read back exactly when the header can hold it. */
  lemma InitialRoundTrip(r: S.EvaluationResult, rest: seq<Byte>)
    requires Fits(r)
    ensures var p := ParsedInitial(EncodedInitial(r) + rest);
            var good := 1 <= |r.initialState.tape| <= 64 && r.initialState.headState < 4;
            && (good ==> p == Parsed((r.initialState.headState as nat, r.initialState.tape), rest))
            && (p.Parsed? && p.value == (r.initialState.headState as nat, r.initialState.tape) ==> good)
  {
    hide InitialHeader, BitAnd, Shr, Low, PackedBytes, UnpackedBits;
    var head, tape := r.initialState.headState, r.initialState.tape;
    InitialHeaderFields(head, |tape|);
    SizeField(|tape|);
    HeadField(head);
    var data := EncodedInitial(r) + rest;
    assert data[0] == InitialHeader(head, |tape|) && data[1..] == PackedBytes(tape) + rest;
    BitsRoundTrip(tape, rest);
  }

  /** The parser's table undoes the writer's codes. */
  lemma ReasonRoundTrip(reason: S.ConclusionReason)
    ensures LookUpReason(Code(reason)) == Known(reason)
  {}

  lemma OutcomeRoundTrip(r: S.EvaluationResult, final: bool, rest: seq<Byte>)
    requires Fits(r)
    ensures var p := ParsedOutcome(r.initialState.headState, r.initialState.tape, EncodedOutcome(r, final) + rest);
            var good := r.finalState.headState < 4 && (final ==> r.finalTapeLength == |r.finalState.tape|);
            && (good ==> p == Parsed(Expected(r, final), rest))
            && (p.Parsed? && p.value == Expected(r, final) ==> good)
  {
    hide ResultHeader, BitAnd, Shr, Low, PackedBytes, UnpackedBits, LittleEndian, FromLittleEndian, Pow2, Code, LookUpReason;
    var tail := (if final then PackedBytes(r.finalState.tape) else []) + rest;
    ReasonRoundTrip(r.conclusionReason);
    ResultHeaderFields(Code(r.conclusionReason), r.finalState.headState, final);
    HeadField(r.finalState.headState);
    Masks();
    IntegerRoundTrip(r.finalTapeLength, 8, tail);
    IntegerRoundTrip(r.maxTapeLength, 8, LittleEndian(r.finalTapeLength, 8) + tail);
    IntegerRoundTrip(r.eventCount, 8, LittleEndian(r.maxTapeLength, 8) + (LittleEndian(r.finalTapeLength, 8) + tail));
    var data := EncodedOutcome(r, final) + rest;
    OutcomeLayout(r, final, rest);
    BitsRoundTrip(r.finalState.tape, rest);
  }

  lemma OutcomeLayout(r: S.EvaluationResult, final: bool, rest: seq<Byte>)
    ensures var data := EncodedOutcome(r, final) + rest;
            && |data| >= 25
            && data[0] == ResultHeader(Code(r.conclusionReason), r.finalState.headState, final)
            && data[1..] == LittleEndian(r.eventCount, 8) + (LittleEndian(r.maxTapeLength, 8)
                 + (LittleEndian(r.finalTapeLength, 8) + ((if final then PackedBytes(r.finalState.tape) else []) + rest)))
  {
    hide ResultHeader, PackedBytes, LittleEndian, Code;
  }

  /** One record survives writing and parsing, apart from an omitted final tape, if and only
      if it is well-formed; then exactly its bytes are consumed. */
  lemma RecordRoundTrip(r: S.EvaluationResult, final: bool, rest: seq<Byte>)
    requires Fits(r)
    ensures WellFormed(r, final) ==> ParsedRecord(Encoded(r, final) + rest) == Parsed(Expected(r, final), rest)
    ensures var p := ParsedRecord(Encoded(r, final) + rest);
            p.Parsed? && p.value == Expected(r, final) ==> WellFormed(r, final)
  {
    hide EncodedInitial, EncodedOutcome, ParsedInitial, ParsedOutcome, Code;
    assert Encoded(r, final) + rest == EncodedInitial(r) + (EncodedOutcome(r, final) + rest);
    InitialRoundTrip(r, EncodedOutcome(r, final) + rest);
    OutcomeRoundTrip(r, final, rest);
    var p := ParsedInitial(EncodedInitial(r) + (EncodedOutcome(r, final) + rest));
    if p.Parsed? { OutcomeKeepsInitial(p.value.0, p.value.1, p.rest); }
  }

  lemma OutcomeKeepsInitial(head: nat, tape: seq<Bit>, data: seq<Byte>)
    ensures var p := ParsedOutcome(head, tape, data);
            p.Parsed? ==> p.value.initialHead == head && p.value.initialTape == tape
  {
    hide BitAnd, Shr, FromLittleEndian, UnpackedBits;
  }

  // ---------- the file ----------

  predicate AllFit(results: seq<S.EvaluationResult>) {
    forall i :: 0 <= i < |results| ==> Fits(results[i])
  }

  function EncodedRecords(results: seq<S.EvaluationResult>, biggest: nat): seq<Byte>
    requires AllFit(results)
  {
    if results == [] then []
    else Encoded(results[0], WritesFinalState(results[0], biggest)) + EncodedRecords(results[1..], biggest)
  }

  function EncodedFile(results: seq<S.EvaluationResult>, biggest: nat): seq<Byte>
    requires AllFit(results)
  {
    [RESULT_FILE_MAGIC, VERSION_1] + LittleEndian(|results|, 8) + EncodedRecords(results, biggest)
  }

  datatype FileResult =
    | Contents(records: seq<ParsedResult>, rest: seq<Byte>)
    | BadMagic
    | UnsupportedVersion
    | Truncated(records: seq<ParsedResult>)

  function ParsedRecords(data: seq<Byte>, count: nat): Parse<seq<ParsedResult>>
    decreases count
  {
    if count == 0 then Parsed([], data)
    else
      match ParsedRecord(data)
      case EndOfFile => EndOfFile
      case Parsed(first, rest) =>
        match ParsedRecords(rest, count - 1)
        case EndOfFile => EndOfFile
        case Parsed(others, end) => Parsed([first] + others, end)
  }

  /** The records in front of the one at which the stream ends, if it does. */
  function CompleteRecords(data: seq<Byte>, count: nat): seq<ParsedResult>
    decreases count
  {
    if count == 0 then []
    else
      match ParsedRecord(data)
      case EndOfFile => []
      case Parsed(first, rest) => [first] + CompleteRecords(rest, count - 1)
  }

  /** readResultFile; of a stream that ends early, the complete records. */
  function ParsedFile(data: seq<Byte>): FileResult {
    if |data| < 1 || data[0] != RESULT_FILE_MAGIC then BadMagic
    else if |data| < 2 || data[1] != VERSION_1 then UnsupportedVersion
    else if |data| < 10 then Truncated([])
    else
      var body, count := data[2..][8..], FromLittleEndian(data[2..][..8]);
      match ParsedRecords(body, count)
      case EndOfFile => Truncated(CompleteRecords(body, count))
      case Parsed(records, rest) => Contents(records, rest)
  }

  function AllExpected(results: seq<S.EvaluationResult>, biggest: nat): (e: seq<ParsedResult>)
    ensures |e| == |results|
  {
    seq(|results|, i requires 0 <= i < |results| => Expected(results[i], WritesFinalState(results[i], biggest)))
  }

  predicate AllWellFormed(results: seq<S.EvaluationResult>, biggest: nat) {
    forall i :: 0 <= i < |results| ==> WellFormed(results[i], WritesFinalState(results[i], biggest))
  }

  lemma {:induction false} RecordsRoundTrip(results: seq<S.EvaluationResult>, biggest: nat, rest: seq<Byte>)
    requires AllFit(results)
    ensures var p := ParsedRecords(EncodedRecords(results, biggest) + rest, |results|);
            && (AllWellFormed(results, biggest) ==> p == Parsed(AllExpected(results, biggest), rest))
            && (p.Parsed? && p.value == AllExpected(results, biggest) ==> AllWellFormed(results, biggest))
    decreases |results|
  {
    hide Encoded, ParsedRecord, Expected, WellFormed, Fits, WritesFinalState;
    if results != [] {
      var r, others := results[0], results[1..];
      var final := WritesFinalState(r, biggest);
      var tail := EncodedRecords(others, biggest) + rest;
      assert EncodedRecords(results, biggest) + rest == Encoded(r, final) + tail;
      RecordRoundTrip(r, final, tail);
      RecordsRoundTrip(others, biggest, rest);
      assert AllExpected(results, biggest) == [Expected(r, final)] + AllExpected(others, biggest);
      WellFormedCons(results, biggest);
      var p := ParsedRecords(EncodedRecords(results, biggest) + rest, |results|);
      if p.Parsed? && p.value == AllExpected(results, biggest) {
        assert p.value[0] == Expected(r, final);
        assert p.value[1..] == AllExpected(others, biggest);
      }
    }
  }

  lemma WellFormedCons(results: seq<S.EvaluationResult>, biggest: nat)
    requires results != []
    ensures AllWellFormed(results, biggest) <==>
              WellFormed(results[0], WritesFinalState(results[0], biggest)) && AllWellFormed(results[1..], biggest)
  {
    hide WellFormed, WritesFinalState;
    var others := results[1..];
    assert forall i :: 0 <= i < |others| ==> others[i] == results[i + 1];
    assert forall i :: 1 <= i < |results| ==> results[i] == others[i - 1];
  }

  /** Parsing a written file recovers every record, except final tapes left out on purpose,
      and consumes exactly the written bytes, if and only if every record is well-formed. */
  lemma FileRoundTrip(results: seq<S.EvaluationResult>, biggest: nat, rest: seq<Byte>)
    requires AllFit(results) && |results| < TWO_TO_THE_64
    ensures AllWellFormed(results, biggest) <==>
              ParsedFile(EncodedFile(results, biggest) + rest) == Contents(AllExpected(results, biggest), rest)
  {
    hide EncodedRecords, ParsedRecords, LittleEndian, FromLittleEndian, AllWellFormed, AllExpected, Pow2;
    var body := EncodedRecords(results, biggest) + rest;
    Masks();
    IntegerRoundTrip(|results|, 8, body);
    RecordsRoundTrip(results, biggest, rest);
    var data := EncodedFile(results, biggest) + rest;
    assert data[2..] == LittleEndian(|results|, 8) + body;
  }

  // ---------- the bytes ----------

  lemma ShlConstants(n: nat)
    ensures Shl(n, 1) == 2 * n && Shl(n, 3) == 8 * n && Shl(n, 6) == 64 * n
  {
    ShlIsProduct(n, 1);
    ShlIsProduct(n, 3);
    ShlIsProduct(n, 6);
    Pow2Values();
  }

  lemma InitialHeaderSum(head: Byte, size: nat)
    requires size < TWO_TO_THE_64
    ensures InitialHeader(head, size) == 64 * Low(head, 2) + Low((size + TWO_TO_THE_64 - 1) % TWO_TO_THE_64, 6)
  {
    hide BitOr, BitAnd, Shl, Low, Pow2;
    var less := (size + TWO_TO_THE_64 - 1) % TWO_TO_THE_64;
    MaskConstants();
    Pow2Values();
    BitAndMask(head, 2);
    BitAndMask(less, 6);
    OrZero(Shl(Low(head, 2), 6));
    BitOrDisjoint(Low(head, 2), Low(less, 6), 6);
    ShlConstants(Low(head, 2));
  }

  lemma ResultHeaderSum(code: nat, head: Byte, final: bool)
    requires code < 32
    ensures ResultHeader(code, head, final) == 8 * code + 2 * Low(head, 2) + if final then 1 else 0
  {
    hide BitOr, BitAnd, Shl, Low, Pow2;
    var flag, mid := if final then 1 else 0, Low(head, 2);
    MaskConstants();
    Pow2Values();
    BitAndMask(code, 5);
    LowSmall(code, 5);
    BitAndMask(head, 2);
    BitAndMask(flag, 1);
    LowSmall(flag, 1);
    ShlZero(flag);
    OrZero(Shl(code, 3));
    ShlBound(mid, 2, 1);
    BitOrDisjoint(code, Shl(mid, 1), 3);
    ShlConstants(code);
    ShlConstants(mid);
    ShlConstants(4 * code + mid);
    BitOrDisjoint(4 * code + mid, flag, 1);
  }

  lemma HeaderValues(r: S.EvaluationResult, final: bool)
    requires Fits(r) && WellFormed(r, final)
    ensures InitialHeader(r.initialState.headState, |r.initialState.tape|) == 64 * r.initialState.headState + |r.initialState.tape| - 1
    ensures ResultHeader(Code(r.conclusionReason), r.finalState.headState, final) ==
            8 * Code(r.conclusionReason) + 2 * r.finalState.headState + if final then 1 else 0
  {
    hide InitialHeader, ResultHeader, Low, Shl, Pow2, Code;
    var head, size := r.initialState.headState, |r.initialState.tape|;
    InitialHeaderFields(head, size);
    InitialHeaderSum(head, size);
    SizeField(size);
    HeadField(head);
    HeadField(r.finalState.headState);
    assert 1 + Low((size + TWO_TO_THE_64 - 1) % TWO_TO_THE_64, 6) == size;
    ResultHeaderSum(Code(r.conclusionReason), r.finalState.headState, final);
  }

  /** A record, byte by byte. */
  lemma RecordLayout(r: S.EvaluationResult, final: bool)
    requires Fits(r) && WellFormed(r, final)
    ensures var b, nb := Encoded(r, final), (|r.initialState.tape| + 7) / 8;
            var code := match r.conclusionReason
                        case InvalidInput => 1
                        case Terminated => 2
                        case ReachedCycle => 3
                        case ReachedKnownCheckpoint => 4
                        case MaxTapeLengthExceeded => 5
                        case MaxEventCountExceeded => 6
                        case TimeConstraintExceeded => 7
                        case NotEvaluated => 8
                        case MergedWithAnotherInit => 9;
            && |b| == nb + 26 + (if final then (|r.finalState.tape| + 7) / 8 else 0)
            && b[0] == 64 * r.initialState.headState + |r.initialState.tape| - 1
            && b[1..nb + 1] == PackedBytes(r.initialState.tape)
            && b[nb + 1] == 8 * code + 2 * r.finalState.headState + (if final then 1 else 0)
            && b[nb + 2..nb + 10] == LittleEndian(r.eventCount, 8)
            && b[nb + 10..nb + 18] == LittleEndian(r.maxTapeLength, 8)
            && b[nb + 18..nb + 26] == LittleEndian(r.finalTapeLength, 8)
            && b[nb + 26..] == if final then PackedBytes(r.finalState.tape) else []
  {
    hide InitialHeader, ResultHeader, PackedBytes, LittleEndian;
    HeaderValues(r, final);
  }

  /** A file: the letter R, version 1, the number of records, and the records. */
  lemma FileLayout(results: seq<S.EvaluationResult>, biggest: nat)
    requires AllFit(results)
    ensures var b := EncodedFile(results, biggest);
            && |b| >= 10 && b[0] == 82 && b[1] == 1 && b[2..10] == LittleEndian(|results|, 8)
            && b[10..] == EncodedRecords(results, biggest)
  {
    hide EncodedRecords, LittleEndian;
  }

  // ---------- what a parsed file tells ----------

  /** Only data that starts with the letter R and version 1 is read as a result file. */
  lemma OnlyResultFiles(data: seq<Byte>)
    ensures ParsedFile(data).Contents? || ParsedFile(data).Truncated? ==> |data| >= 2 && data[0] == 82 && data[1] == 1
    ensures ParsedFile(data) == BadMagic <==> |data| == 0 || data[0] != 82
    ensures ParsedFile(data) == UnsupportedVersion <==> |data| >= 1 && data[0] == 82 && (|data| == 1 || data[1] != 1)
  {
    hide ParsedRecords, CompleteRecords, FromLittleEndian;
  }

  /** What is read back of each result, field by field. Its final tape is there if and only if
      it has at least one cell, is not longer than the biggest tape to write, and the reason is
      neither InvalidInput nor NotEvaluated. */
  lemma ParsedFields(results: seq<S.EvaluationResult>, biggest: nat, rest: seq<Byte>, i: nat)
    requires AllFit(results) && |results| < TWO_TO_THE_64 && i < |results|
    requires forall k :: 0 <= k < |results| ==> 1 <= |results[k].initialState.tape| <= 64
    requires forall k :: 0 <= k < |results| ==> results[k].initialState.headState < 4 && results[k].finalState.headState < 4
    requires forall k :: 0 <= k < |results| ==> results[k].finalTapeLength == |results[k].finalState.tape|
    ensures var p := ParsedFile(EncodedFile(results, biggest) + rest);
            && p.Contents? && |p.records| == |results| && p.rest == rest
            && var x, r := p.records[i], results[i];
            && (x.finalTape.Tape? <==>
                  && 1 <= r.finalTapeLength <= biggest
                  && r.conclusionReason != S.InvalidInput && r.conclusionReason != S.NotEvaluated)
            && (x.finalTape.Tape? ==> x.finalTape.bits == r.finalState.tape)
            && x.initialHead == r.initialState.headState && x.initialTape == r.initialState.tape
            && x.eventCount == r.eventCount && x.maxTapeSize == r.maxTapeLength && x.reason == Known(r.conclusionReason)
            && x.finalHead == r.finalState.headState && x.finalTapeSize == r.finalTapeLength
  {
    assert AllWellFormed(results, biggest);
    hide ParsedFile, EncodedFile, AllWellFormed, AllFit;
    FileRoundTrip(results, biggest, rest);
  }

  // ---------- files cut short ----------

  /** Bytes behind what is parsed change nothing but the rest. */
  lemma InitialMonotone(data: seq<Byte>, more: seq<Byte>)
    requires ParsedInitial(data).Parsed?
    ensures ParsedInitial(data + more) == Parsed(ParsedInitial(data).value, ParsedInitial(data).rest + more)
  {
    hide BitAnd, Shr, UnpackedBits;
    var nb := (1 + BitAnd(data[0], 63) + 7) / 8;
    assert (data + more)[1..] == data[1..] + more;
    assert (data[1..] + more)[..nb] == data[1..][..nb] && (data[1..] + more)[nb..] == data[1..][nb..] + more;
  }

  lemma FinalMonotone(partial: ParsedResult, present: bool, data: seq<Byte>, more: seq<Byte>)
    requires ParsedFinal(partial, present, data).Parsed?
    ensures ParsedFinal(partial, present, data + more)
         == Parsed(ParsedFinal(partial, present, data).value, ParsedFinal(partial, present, data).rest + more)
  {
    hide UnpackedBits;
    if present {
      var nb := (partial.finalTapeSize + 7) / 8;
      assert (data + more)[..nb] == data[..nb] && (data + more)[nb..] == data[nb..] + more;
    }
  }

  lemma OutcomeMonotone(head: nat, tape: seq<Bit>, data: seq<Byte>, more: seq<Byte>)
    requires ParsedOutcome(head, tape, data).Parsed?
    ensures ParsedOutcome(head, tape, data + more)
         == Parsed(ParsedOutcome(head, tape, data).value, ParsedOutcome(head, tape, data).rest + more)
  {
    hide BitAnd, Shr, FromLittleEndian, ParsedFinal, LookUpReason;
    var d1, d2, d3 := data[1..], data[1..][8..], data[1..][8..][8..];
    assert (data + more)[1..] == d1 + more;
    assert (d1 + more)[..8] == d1[..8] && (d1 + more)[8..] == d2 + more;
    assert (d2 + more)[..8] == d2[..8] && (d2 + more)[8..] == d3 + more;
    assert (d3 + more)[..8] == d3[..8] && (d3 + more)[8..] == d3[8..] + more;
    var partial := ParsedResult(head, tape, FromLittleEndian(d1[..8]), FromLittleEndian(d2[..8]),
                                LookUpReason(Shr(BitAnd(data[0], 248), 3)), Shr(BitAnd(data[0], 6), 1),
                                FromLittleEndian(d3[..8]), Absent);
    FinalMonotone(partial, BitAnd(data[0], 1) == 1, d3[8..], more);
  }

  lemma RecordMonotone(data: seq<Byte>, more: seq<Byte>)
    requires ParsedRecord(data).Parsed?
    ensures ParsedRecord(data + more) == Parsed(ParsedRecord(data).value, ParsedRecord(data).rest + more)
  {
    hide ParsedInitial, ParsedOutcome;
    var initial := ParsedInitial(data);
    InitialMonotone(data, more);
    OutcomeMonotone(initial.value.0, initial.value.1, initial.rest, more);
  }

  /** A record is self-delimiting: none of its proper prefixes can be parsed. */
  lemma CutRecord(r: S.EvaluationResult, final: bool, n: nat)
    requires Fits(r) && WellFormed(r, final) && n < |Encoded(r, final)|
    ensures ParsedRecord(Encoded(r, final)[..n]) == EndOfFile
  {
    hide Encoded, ParsedRecord, Expected, WellFormed, Fits;
    var record := Encoded(r, final);
    RecordRoundTrip(r, final, []);
    assert record + [] == record == record[..n] + record[n..];
    if ParsedRecord(record[..n]).Parsed? { RecordMonotone(record[..n], record[n..]); }
  }

  /** How many of the records are still complete when only n of their bytes are left. */
  lemma {:induction false} CutRecords(results: seq<S.EvaluationResult>, biggest: nat, n: nat) returns (k: nat)
    requires AllFit(results) && AllWellFormed(results, biggest) && n < |EncodedRecords(results, biggest)|
    ensures k < |results| && |EncodedRecords(results[..k], biggest)| <= n < |EncodedRecords(results[..k + 1], biggest)|
    ensures ParsedRecords(EncodedRecords(results, biggest)[..n], |results|) == EndOfFile
    ensures CompleteRecords(EncodedRecords(results, biggest)[..n], |results|) == AllExpected(results, biggest)[..k]
    decreases |results|
  {
    hide Encoded, ParsedRecord, Expected, AllExpected, WellFormed, Fits, WritesFinalState;
    var r, others := results[0], results[1..];
    var final := WritesFinalState(r, biggest);
    var record, tail := Encoded(r, final), EncodedRecords(others, biggest);
    WellFormedCons(results, biggest);
    EncodedOne(results, biggest);
    if n < |record| {
      k := 0;
      assert (record + tail)[..n] == record[..n] && results[..0] == [];
      CutRecord(r, final, n);
    } else {
      var m := n - |record|;
      var j := CutRecords(others, biggest, m);
      k := j + 1;
      assert (record + tail)[..n] == record + tail[..m];
      RecordRoundTrip(r, final, tail[..m]);
      EncodedFront(results, biggest, k);
      EncodedFront(results, biggest, k + 1);
      ExpectedFront(results, biggest, k);
    }
  }

  lemma EncodedOne(results: seq<S.EvaluationResult>, biggest: nat)
    requires AllFit(results) && results != []
    ensures EncodedRecords(results[..1], biggest) == Encoded(results[0], WritesFinalState(results[0], biggest))
    ensures EncodedRecords([], biggest) == []
  {
    hide Encoded, WritesFinalState, Fits;
    assert results[..1][1..] == [];
    assert Encoded(results[0], WritesFinalState(results[0], biggest)) + [] == Encoded(results[0], WritesFinalState(results[0], biggest));
  }

  lemma EncodedFront(results: seq<S.EvaluationResult>, biggest: nat, k: nat)
    requires AllFit(results) && 0 < k <= |results|
    ensures EncodedRecords(results[..k], biggest)
         == Encoded(results[0], WritesFinalState(results[0], biggest)) + EncodedRecords(results[1..][..k - 1], biggest)
  {
    hide Encoded, WritesFinalState, Fits;
    assert results[..k][1..] == results[1..][..k - 1];
  }

  lemma ExpectedFront(results: seq<S.EvaluationResult>, biggest: nat, k: nat)
    requires 0 < k <= |results|
    ensures AllExpected(results, biggest)[..k]
         == [Expected(results[0], WritesFinalState(results[0], biggest))] + AllExpected(results[1..], biggest)[..k - 1]
  {
    hide Expected, WritesFinalState;
    var all, others := AllExpected(results, biggest), AllExpected(results[1..], biggest);
    assert forall i :: 1 <= i < k ==> all[i] == others[i - 1];
  }

  /** A written file that is cut short anywhere behind its count is recognised as such, and
      exactly the records that are still complete are recovered. */
  lemma CutFile(results: seq<S.EvaluationResult>, biggest: nat, n: nat) returns (k: nat)
    requires AllFit(results) && AllWellFormed(results, biggest) && |results| < TWO_TO_THE_64
    requires 10 <= n < |EncodedFile(results, biggest)|
    ensures k < |results| && 10 + |EncodedRecords(results[..k], biggest)| <= n < 10 + |EncodedRecords(results[..k + 1], biggest)|
    ensures ParsedFile(EncodedFile(results, biggest)[..n]) == Truncated(AllExpected(results, biggest)[..k])
  {
    hide EncodedRecords, ParsedRecords, CompleteRecords, LittleEndian, FromLittleEndian, AllWellFormed, AllExpected, AllFit, Pow2;
    var records := EncodedRecords(results, biggest);
    Masks();
    IntegerRoundTrip(|results|, 8, records[..n - 10]);
    k := CutRecords(results, biggest, n - 10);
    var data := EncodedFile(results, biggest)[..n];
    assert data[2..] == LittleEndian(|results|, 8) + records[..n - 10];
  }

  // ---------- writing ----------

  lemma HeaderBytes(r: S.EvaluationResult, final: bool)
    requires Fits(r)
    ensures InitialHeader(r.initialState.headState, |r.initialState.tape|) < 256
    ensures ResultHeader(Code(r.conclusionReason), r.finalState.headState, final) < 256
  {
    hide InitialHeader, ResultHeader, Code;
    InitialHeaderFields(r.initialState.headState, |r.initialState.tape|);
    ResultHeaderFields(Code(r.conclusionReason), r.finalState.headState, final);
  }

  /** write_result */
  method WriteResult(writer: FileWriter, result: S.EvaluationResult, writeFinalState: bool)
    requires Fits(result)
    modifies writer
    ensures writer.bytes == old(writer.bytes) + Encoded(result, writeFinalState)
  {
    hide BitOr, BitAnd, Shl, LittleEndian, PackedBytes, Pow2, Code;
    HeaderBytes(result, writeFinalState);
    Masks();
    var initial, final := result.initialState, result.finalState;
    ghost var start := writer.bytes;
    var initialStateHeader := 0;
    initialStateHeader := BitOr(initialStateHeader, Shl(BitAnd(initial.headState, 3), 6));
    initialStateHeader := BitOr(initialStateHeader, BitAnd((|initial.tape| + TWO_TO_THE_64 - 1) % TWO_TO_THE_64, 63));
    writer.WriteU8(initialStateHeader);
    writer.WriteBits(initial.tape);
    assert writer.bytes == start + EncodedInitial(result);
    var resultHeader := 0;
    resultHeader := BitOr(resultHeader, Shl(BitAnd(Code(result.conclusionReason), 31), 3));
    resultHeader := BitOr(resultHeader, Shl(BitAnd(final.headState, 3), 1));
    resultHeader := BitOr(resultHeader, Shl(BitAnd(if writeFinalState then 1 else 0, 1), 0));
    writer.WriteU8(resultHeader);
    writer.WriteU64(result.eventCount);
    writer.WriteU64(result.maxTapeLength);
    writer.WriteU64(result.finalTapeLength);
    if writeFinalState {
      writer.WriteBits(final.tape);
    }
    assert writer.bytes == (start + EncodedInitial(result)) + EncodedOutcome(result, writeFinalState);
  }

  /** write_file; an unsupported version is an error after two bytes. */
  method WriteFile(writer: FileWriter, version: Byte, results: seq<S.EvaluationResult>, biggestTapeToWrite: nat) returns (ok: bool)
    requires AllFit(results) && |results| < TWO_TO_THE_64
    modifies writer
    ensures ok <==> version == VERSION_1
    ensures writer.bytes == old(writer.bytes) + if ok then EncodedFile(results, biggestTapeToWrite) else [RESULT_FILE_MAGIC, version]
  {
    hide Encoded, LittleEndian, Pow2, Fits;
    Masks();
    ghost var start := writer.bytes;
    writer.WriteU8(RESULT_FILE_MAGIC);
    writer.WriteU8(version);
    if version != VERSION_1 { return false; }
    writer.WriteU64(|results|);
    ghost var header := writer.bytes;
    assert header == start + ([RESULT_FILE_MAGIC, VERSION_1] + LittleEndian(|results|, 8));
    assert results[0..] == results;
    var i := 0;
    while i < |results|
      invariant 0 <= i <= |results|
      invariant writer.bytes + EncodedRecords(results[i..], biggestTapeToWrite) == header + EncodedRecords(results, biggestTapeToWrite)
    {
      var result := results[i];
      var writeFinalState := result.finalTapeLength <= biggestTapeToWrite && result.finalTapeLength > 0;
      if result.conclusionReason == S.InvalidInput || result.conclusionReason == S.NotEvaluated {
        writeFinalState := false;
      }
      assert results[i..][1..] == results[i + 1..];
      WriteResult(writer, result, writeFinalState);
      i := i + 1;
    }
    assert results[|results|..] == [] && writer.bytes + EncodedRecords([], biggestTapeToWrite) == writer.bytes;
    assert start + EncodedFile(results, biggestTapeToWrite) == header + EncodedRecords(results, biggestTapeToWrite);
    return true;
  }

  // ---------- reading ----------

  /** readPackedBits: read whole bytes, take the first bitCount digits. */
  method ReadPackedBits(stream: FileReader, bitCount: nat) returns (r: Read<seq<Bit>>)
    requires stream.Valid()
    modifies stream`position
    ensures stream.Valid()
    ensures r.Got? <==> |old(stream.Rest())| >= (bitCount + 7) / 8
    ensures r.Got? ==> r.value == UnpackedBits(old(stream.Rest())[..(bitCount + 7) / 8], bitCount)
    ensures r.Got? ==> stream.Rest() == old(stream.Rest())[(bitCount + 7) / 8..]
  {
    ghost var all := stream.Rest();
    var bytes: seq<Byte> := [];
    while |bytes| < (bitCount + 7) / 8
      invariant stream.Valid() && |bytes| <= (bitCount + 7) / 8 && |bytes| <= |all|
      invariant bytes == all[..|bytes|] && stream.Rest() == all[|bytes|..]
    {
      var byte := stream.ReadU8();
      if byte.UnexpectedEof? { return UnexpectedEof; }
      bytes := bytes + [byte.value];
    }
    return Got(UnpackedBits(bytes, bitCount));
  }

  ghost predicate Matches<T>(r: Read<T>, p: Parse<T>, rest: seq<Byte>) {
    if p.Parsed? then r == Got(p.value) && rest == p.rest else r.UnexpectedEof?
  }

  /** readResultFileResult, on the stream. */
  method ReadResult(stream: FileReader) returns (r: Read<ParsedResult>)
    requires stream.Valid()
    modifies stream`position
    ensures stream.Valid()
    ensures Matches(r, ParsedRecord(old(stream.Rest())), stream.Rest())
  {
    hide BitAnd, Shr, UnpackedBits, FromLittleEndian, ParsedOutcome;
    var initialStateHeaderByte := stream.ReadU8();
    if initialStateHeaderByte.UnexpectedEof? { return UnexpectedEof; }
    var headState := Shr(BitAnd(initialStateHeaderByte.value, 192), 6);
    var tapeSize := 1 + BitAnd(initialStateHeaderByte.value, 63);
    var tape := ReadPackedBits(stream, tapeSize);
    if tape.UnexpectedEof? { return UnexpectedEof; }
    r := ReadOutcome(stream, headState, tape.value);
  }

  method ReadOutcome(stream: FileReader, headState: nat, tape: seq<Bit>) returns (r: Read<ParsedResult>)
    requires stream.Valid()
    modifies stream`position
    ensures stream.Valid()
    ensures Matches(r, ParsedOutcome(headState, tape, old(stream.Rest())), stream.Rest())
  {
    hide BitAnd, Shr, FromLittleEndian, LookUpReason, ParsedFinal;
    ghost var all := stream.Rest();
    var resultHeaderByte := stream.ReadU8();
    if resultHeaderByte.UnexpectedEof? { return UnexpectedEof; }
    var eventCount := stream.ReadU64();
    if eventCount.UnexpectedEof? { return UnexpectedEof; }
    var maxTapeSize := stream.ReadU64();
    if maxTapeSize.UnexpectedEof? { return UnexpectedEof; }
    var finalTapeSize := stream.ReadU64();
    if finalTapeSize.UnexpectedEof? { return UnexpectedEof; }
    var conclusionReasonNumber := Shr(BitAnd(resultHeaderByte.value, 248), 3);
    var finalHeadState := Shr(BitAnd(resultHeaderByte.value, 6), 1);
    var finalStateTapePresent := BitAnd(resultHeaderByte.value, 1) == 1;
    var result := ParsedResult(headState, tape, eventCount.value, maxTapeSize.value, LookUpReason(conclusionReasonNumber),
                               finalHeadState, finalTapeSize.value, Absent);
    r := ReadFinalTape(stream, result, finalStateTapePresent);
  }

  method ReadFinalTape(stream: FileReader, partial: ParsedResult, finalStateTapePresent: bool) returns (r: Read<ParsedResult>)
    requires stream.Valid()
    modifies stream`position
    ensures stream.Valid()
    ensures Matches(r, ParsedFinal(partial, finalStateTapePresent, old(stream.Rest())), stream.Rest())
  {
    hide UnpackedBits;
    var result := partial;
    if finalStateTapePresent {
      var finalTape := ReadPackedBits(stream, partial.finalTapeSize);
      if finalTape.UnexpectedEof? { return UnexpectedEof; }
      result := result.(finalTape := Tape(finalTape.value));
    }
    return Got(result);
  }

  /** readResultFile, from the first byte on. */
  method ReadFile(stream: FileReader) returns (r: FileResult)
    requires stream.Valid()
    modifies stream`position
    ensures stream.Valid()
    ensures r == ParsedFile(old(stream.Rest()))
  {
    hide ParsedRecord, FromLittleEndian;
    var magic := stream.ReadU8();
    if magic.UnexpectedEof? || magic.value != RESULT_FILE_MAGIC { return BadMagic; }
    var version := stream.ReadU8();
    if version.UnexpectedEof? || version.value != VERSION_1 { return UnsupportedVersion; }
    var resultCount := stream.ReadU64();
    if resultCount.UnexpectedEof? { return Truncated([]); }
    ghost var body := stream.Rest();
    var records: seq<ParsedResult> := [];
    AfterNothing(ParsedRecords(body, resultCount.value));
    while |records| < resultCount.value
      invariant stream.Valid() && |records| <= resultCount.value
      invariant After(records, ParsedRecords(stream.Rest(), resultCount.value - |records|)) == ParsedRecords(body, resultCount.value)
      invariant records + CompleteRecords(stream.Rest(), resultCount.value - |records|) == CompleteRecords(body, resultCount.value)
    {
      ghost var rest := stream.Rest();
      var record := ReadResult(stream);
      AfterNext(records, rest, resultCount.value - |records|);
      if record.UnexpectedEof? { return Truncated(records); }
      records := records + [record.value];
    }
    return Contents(records, stream.data[stream.position..]);
  }

  /** The records already read in front of those still to be parsed. */
  function After(records: seq<ParsedResult>, p: Parse<seq<ParsedResult>>): Parse<seq<ParsedResult>> {
    match p
    case EndOfFile => EndOfFile
    case Parsed(others, rest) => Parsed(records + others, rest)
  }

  lemma AfterNothing(p: Parse<seq<ParsedResult>>)
    ensures After([], p) == p
  {
    if p.Parsed? { assert [] + p.value == p.value; }
  }

  lemma AfterNext(records: seq<ParsedResult>, data: seq<Byte>, count: nat)
    requires count > 0
    ensures match ParsedRecord(data)
            case EndOfFile =>
              && After(records, ParsedRecords(data, count)) == EndOfFile
              && records + CompleteRecords(data, count) == records
            case Parsed(first, rest) =>
              && After(records, ParsedRecords(data, count)) == After(records + [first], ParsedRecords(rest, count - 1))
              && records + CompleteRecords(data, count) == (records + [first]) + CompleteRecords(rest, count - 1)
  {
    hide ParsedRecord;
    if ParsedRecord(data).Parsed? {
      var p := ParsedRecords(ParsedRecord(data).rest, count - 1);
      if p.Parsed? { assert (records + [ParsedRecord(data).value]) + p.value == records + ([ParsedRecord(data).value] + p.value); }
    }
  }

  // ---------- search results in a file ----------

  /** An init the init-file and range formats can express. */
  predicate ShortInit(s: TagState) {
    1 <= |s.tape| <= 64 && s.headState < 3
  }

  lemma ReportWellFormed(parameters: S.EvaluationParameters, states: seq<TagState>, history: seq<H.EvaluationResult>, i: nat, final: bool)
    requires H.Justified(S.ConfigOf(parameters), states, history) && i < |states| && ShortInit(states[i])
    ensures WellFormed(S.Report(states[i], history[i]), final)
  {
    hide Run, H.Peak, H.Continues, H.Stops;
    assert H.Outcome(S.ConfigOf(parameters), states, H.EventCounts(history[..i]), history[i]);
    RunKeepsPhase(PostTable(), states[i], history[i].eventCount);
  }

  /** The counts of such a report fit the file's integers. */
  lemma ReportFits(parameters: S.EvaluationParameters, states: seq<TagState>, history: seq<H.EvaluationResult>, i: nat)
    requires H.Justified(S.ConfigOf(parameters), states, history) && i < |states| && ShortInit(states[i])
    ensures Fits(S.Report(states[i], history[i]))
  {
    hide H.Outcome, S.Translated;
    var cfg, es := S.ConfigOf(parameters), H.EventCounts(history[..i]);
    assert H.Outcome(cfg, states, es, history[i]);
    HistoryTheorems.EventLimit(cfg, states, es, history[i]);
    PostLength.ReportedLengths(cfg, states, es, history[i]);
  }

  /** The whole path from a group search to the parsed file: the reports of short inits always
      fit the file, and are all read back if and only if the event limit was valid. An invalid
      limit yields results with head state 255, of which the header keeps two bits. */
  lemma ReportsRecordable(parameters: S.EvaluationParameters, states: seq<TagState>, history: seq<H.EvaluationResult>,
                          biggest: nat, rest: seq<Byte>)
    requires |history| == |states| > 0 && forall i :: 0 <= i < |states| ==> ShortInit(states[i])
    requires |states| < TWO_TO_THE_64
    requires parameters.maxEventCount % 8 == 0 ==> H.Justified(S.ConfigOf(parameters), states, history)
    requires parameters.maxEventCount % 8 != 0 ==>
               history == seq(|states|, _ => H.EvaluationResult(H.InvalidInput, TagState([], 255), 0, 0))
    ensures var reports := S.Reports(parameters, states, history);
            && AllFit(reports)
            && (parameters.maxEventCount % 8 == 0 <==>
                ParsedFile(EncodedFile(reports, biggest) + rest) == Contents(AllExpected(reports, biggest), rest))
  {
    hide S.Reports, H.Justified, ShortInit, AllFit, AllWellFormed, ParsedFile, EncodedFile, AllExpected;
    var reports := S.Reports(parameters, states, history);
    ReportsFit(parameters, states, history);
    S.ReportsCount(parameters, states, history);
    ReportsWellFormed(parameters, states, history, biggest);
    FileRoundTrip(reports, biggest, rest);
  }

  lemma ReportsFit(parameters: S.EvaluationParameters, states: seq<TagState>, history: seq<H.EvaluationResult>)
    requires |history| == |states| && forall i :: 0 <= i < |states| ==> ShortInit(states[i])
    requires parameters.maxEventCount % 8 == 0 ==> H.Justified(S.ConfigOf(parameters), states, history)
    requires parameters.maxEventCount % 8 != 0 ==>
               history == seq(|states|, _ => H.EvaluationResult(H.InvalidInput, TagState([], 255), 0, 0))
    ensures AllFit(S.Reports(parameters, states, history))
  {
    hide S.Reports, H.Justified, ShortInit, Fits;
    var reports := S.Reports(parameters, states, history);
    forall k | 0 <= k < |reports|
      ensures Fits(reports[k])
    {
      S.ReportedIffKept(parameters, states, history, reports[k]);
      var i :| 0 <= i < |states| && reports[k] == S.Report(states[i], history[i]);
      if parameters.maxEventCount % 8 == 0 {
        ReportFits(parameters, states, history, i);
      } else {
        InvalidFits(states[i]);
      }
    }
  }

  lemma InvalidFits(s: TagState)
    requires ShortInit(s)
    ensures Fits(S.Report(s, H.EvaluationResult(H.InvalidInput, TagState([], 255), 0, 0)))
  {}

  lemma ReportsWellFormed(parameters: S.EvaluationParameters, states: seq<TagState>, history: seq<H.EvaluationResult>, biggest: nat)
    requires |history| == |states| > 0 && forall i :: 0 <= i < |states| ==> ShortInit(states[i])
    requires parameters.maxEventCount % 8 == 0 ==> H.Justified(S.ConfigOf(parameters), states, history)
    requires parameters.maxEventCount % 8 != 0 ==>
               history == seq(|states|, _ => H.EvaluationResult(H.InvalidInput, TagState([], 255), 0, 0))
    ensures AllWellFormed(S.Reports(parameters, states, history), biggest) <==> parameters.maxEventCount % 8 == 0
  {
    var reports := S.Reports(parameters, states, history);
    hide S.Reports, H.Justified, ShortInit, WritesFinalState;
    if parameters.maxEventCount % 8 == 0 {
      forall k | 0 <= k < |reports|
        ensures WellFormed(reports[k], WritesFinalState(reports[k], biggest))
      {
        S.ReportedIffKept(parameters, states, history, reports[k]);
        var i :| 0 <= i < |states| && reports[k] == S.Report(states[i], history[i]);
        ReportWellFormed(parameters, states, history, i, WritesFinalState(reports[k], biggest));
      }
    } else {
      var x := S.Report(states[0], history[0]);
      S.ReportedIffKept(parameters, states, history, x);
      var k :| 0 <= k < |reports| && reports[k] == x;
      assert !WellFormed(reports[k], WritesFinalState(reports[k], biggest));
    }
  }
}
