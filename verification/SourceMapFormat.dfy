/** What a source map's mappings mean: the "Mappings" of Source Map Revision 3 (ECMA-426). */
module SourceMapFormat {
  import opened Bytes
  import opened Vlq
  import opened Options

  datatype Origin = Origin(source: int, line: int, col: int)

  /** A position of the generated text, and the position it came from, if the segment names one. */
  datatype Mapping = Mapping(line: nat, col: int, origin: Option<Origin>)

  /**
   * The state of a reader: the generated position and the last original position, to which the next
   * segment is relative, the fields of the segment being read, the number being read, and the result so far.
   */
  datatype Decoder = Decoder(
    line: nat,
    col: int,
    source: int,
    srcLine: int,
    srcCol: int,
    fields: seq<int>,
    acc: nat,
    scale: nat,
    mappings: seq<Mapping>)

  const START := Decoder(0, 0, 0, 0, 0, [], 0, 1, [])

  const LIMIT := 0x8000_0000

  function SignOf(unsigned: nat): int {
    if unsigned % 2 == 1 then -(unsigned / 2) else unsigned / 2
  }

  /** A segment has one, four or five fields, each relative to the one before; an empty one says nothing. */
  function Commit(d: Decoder): Option<Decoder> {
    if d.fields == [] then Some(d)
    else if |d.fields| == 1 then
      var col := d.col + d.fields[0];
      Some(d.(col := col, fields := [], mappings := d.mappings + [Mapping(d.line, col, None)]))
    else if |d.fields| == 4 || |d.fields| == 5 then
      var col := d.col + d.fields[0];
      var origin := Origin(d.source + d.fields[1], d.srcLine + d.fields[2], d.srcCol + d.fields[3]);
      Some(d.(col := col, source := origin.source, srcLine := origin.line, srcCol := origin.col, fields := [],
              mappings := d.mappings + [Mapping(d.line, col, Some(origin))]))
    else None
  }

  predicate BetweenNumbers(d: Decoder) {
    d.acc == 0 && d.scale == 1
  }

  function Step(d: Decoder, b: byte): Option<Decoder> {
    if b == SEMICOLON || b == COMMA then
      if !BetweenNumbers(d) then None
      else
        match Commit(d)
        case None => None
        case Some(e) => if b == SEMICOLON then Some(e.(line := e.line + 1, col := 0)) else Some(e)
    else
      var digit := CharToInteger(b);
      var sum := d.acc + digit % 32 * d.scale;
      if digit >= 64 || sum >= LIMIT then None
      else if digit >= 32 then Some(d.(acc := sum, scale := 32 * d.scale))
      else Some(d.(acc := 0, scale := 1, fields := d.fields + [SignOf(sum)]))
  }

  function Decode(d: Decoder, bytes: seq<byte>): Option<Decoder>
    decreases |bytes|
  {
    if bytes == [] then Some(d)
    else
      match Step(d, bytes[0])
      case None => None
      case Some(e) => Decode(e, bytes[1..])
  }

  /** The end of the text ends the last segment. */
  function Finish(d: Decoder): Option<Decoder> {
    if BetweenNumbers(d) then Commit(d) else None
  }

  lemma {:induction false} DecodeConcat(d: Decoder, a: seq<byte>, b: seq<byte>)
    ensures Decode(d, a + b) == if Decode(d, a).Some? then Decode(Decode(d, a).value, b) else None
    decreases |a|
  {
    if a == [] {
      assert a + b == b;
    } else {
      assert (a + b)[1..] == a[1..] + b;
      if Step(d, a[0]).Some? { DecodeConcat(Step(d, a[0]).value, a[1..], b); }
    }
  }

  lemma DecodeOne(d: Decoder, b: byte)
    ensures Decode(d, [b]) == Step(d, b)
  {
  }

  lemma DecodeNext(d: Decoder, bytes: seq<byte>, i: nat)
    requires i < |bytes| && Decode(d, bytes[..i]).Some?
    ensures Decode(d, bytes[..i + 1]) == Step(Decode(d, bytes[..i]).value, bytes[i])
  {
    assert bytes[..i + 1] == bytes[..i] + [bytes[i]];
    DecodeConcat(d, bytes[..i], [bytes[i]]);
    DecodeOne(Decode(d, bytes[..i]).value, bytes[i]);
  }

  /** What has been read stays read. */
  lemma {:induction false} MappingsGrow(d: Decoder, bytes: seq<byte>)
    requires Decode(d, bytes).Some?
    ensures d.mappings <= Decode(d, bytes).value.mappings && d.line <= Decode(d, bytes).value.line
    decreases |bytes|
  {
    if bytes != [] {
      StepGrows(d, bytes[0]);
      MappingsGrow(Step(d, bytes[0]).value, bytes[1..]);
    }
  }

  lemma StepGrows(d: Decoder, b: byte)
    requires Step(d, b).Some?
    ensures d.mappings <= Step(d, b).value.mappings && d.line <= Step(d, b).value.line
  {
  }

  lemma PrefixDecodes(d: Decoder, bytes: seq<byte>, i: nat)
    requires i <= |bytes| && Decode(d, bytes).Some?
    ensures Decode(d, bytes[..i]).Some?
    ensures Decode(Decode(d, bytes[..i]).value, bytes[i..]) == Decode(d, bytes)
  {
    assert bytes == bytes[..i] + bytes[i..];
    DecodeConcat(d, bytes[..i], bytes[i..]);
  }

  // ---------- numbers ----------

  lemma {:induction false} DigitsDecode(d: Decoder, num: nat)
    requires d.acc + num * d.scale < LIMIT
    ensures Decode(d, Digits(num)) == Some(d.(acc := 0, scale := 1,
            fields := d.fields + [SignOf(d.acc + num * d.scale)]))
    decreases num
  {
    DigitRoundTrip(num % 32);
    DigitRoundTrip(num % 32 + 32);
    SplitDigit(num, d.scale);
    hide CharToInteger, IntegerToChar;
    var bytes := Digits(num);
    if num / 32 > 0 {
      assert bytes[1..] == Digits(num / 32);
      DigitsDecode(Step(d, bytes[0]).value, num / 32);
    } else {
      assert num == num % 32;
      DecodeOne(d, bytes[0]);
    }
  }

  /** The bytes written for a number are read as that number. */
  lemma VlqDecodes(d: Decoder, num: int)
    requires BetweenNumbers(d) && -0x4000_0000 < num < 0x4000_0000
    ensures Decode(d, VlqBytes(num)) == Some(d.(fields := d.fields + [num]))
  {
    SignedFits(num);
    SignsAgree(SignedToVlq(num));
    DigitsDecode(d, SignedToVlq(num));
  }

  lemma SignsAgree(unsigned: nat)
    requires unsigned < LIMIT
    ensures VlqToSigned(unsigned) == SignOf(unsigned)
  {
  }

  /** Every number the reader accepts is below 2^30. */
  lemma SignIsBounded(unsigned: nat)
    requires unsigned < LIMIT
    ensures -0x4000_0000 < SignOf(unsigned) < 0x4000_0000
  {
  }
}
