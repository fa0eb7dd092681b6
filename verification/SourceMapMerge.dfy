/** How one source's mappings are rewritten to follow what was written before, and what that means. */
module SourceMapMerge {
  import opened Bytes
  import opened Vlq
  import opened Options
  import opened SourceMapFormat

  /** One input to the bundle: its text, its lines, and its source map. */
  datatype Source = Source(content: seq<byte>, sourceLines: nat, sources: seq<string>, mappings: seq<byte>)

  /** The original position last written; no index when it came from an index the map does not have. */
  datatype Last = Last(index: Option<int>, line: int, col: int)

  /** The local variables of the loop over the input mappings. */
  datatype Cursor = Cursor(
    lastOutputCol: int,
    outputLine: nat,
    inOutputCol: int,
    inSourceIndex: int,
    inSourceLine: int,
    inSourceCol: int,
    shift: nat,
    value: int,
    valpos: nat)

  const FIRST_CURSOR := Cursor(0, 0, 0, 0, 0, 0, 0, 0, 0)

  datatype Writer = Writer(cursor: Cursor, last: Last, out: seq<byte>)

  /** Arithmetic on an index that is not there gives nothing, which is written as zero. */
  function Difference(a: Option<int>, b: Option<int>): Option<int> {
    if a.Some? && b.Some? then Some(a.value - b.value) else None
  }

  function NumberBytes(num: Option<int>): seq<byte> {
    if num.Some? then VlqBytes(num.value) else VlqBytes(0)
  }

  function Remapped(remap: seq<nat>, index: int): Option<int> {
    if 0 <= index < |remap| then Some(remap[index]) else None
  }

  /** The fields written for the segment that is read: always relative to what was written last. */
  function SegmentText(w: Writer, remap: seq<nat>): seq<byte> {
    var c := w.cursor;
    if c.valpos == 0 then []
    else if c.valpos == 1 then VlqBytes(c.inOutputCol - c.lastOutputCol)
    else
      VlqBytes(c.inOutputCol - c.lastOutputCol)
      + OriginText(Last(Remapped(remap, c.inSourceIndex), c.inSourceLine, c.inSourceCol), w.last)
  }

  /** An original position, relative to the one written last. */
  function OriginText(origin: Last, last: Last): seq<byte> {
    NumberBytes(Difference(origin.index,
        last.index)) + VlqBytes(origin.line - last.line) + VlqBytes(origin.col - last.col)
  }

  function CommitSegment(w: Writer, remap: seq<nat>): Writer {
    var c := w.cursor;
    if c.valpos == 0 then w
    else
      Writer(c.(lastOutputCol := c.inOutputCol, valpos := 0),
             if c.valpos == 1 then w.last else Last(Remapped(remap, c.inSourceIndex), c.inSourceLine, c.inSourceCol),
             w.out + SegmentText(w, remap))
  }

  /**
   * An index that the map does not have is written as no step from the one before, and so is the next one, whatever
   * it is: only the segment after that is relative to a source again.
   */
  lemma MissingIndexIsNoStep(w: Writer, remap: seq<nat>)
    requires w.cursor.valpos >= 2
    ensures var c, next := w.cursor, CommitSegment(w, remap).last;
            && (!(0 <= c.inSourceIndex < |remap|) || w.last.index.None? ==>
                 SegmentText(w, remap) == VlqBytes(c.inOutputCol - c.lastOutputCol) + (VlqBytes(0)
                   + VlqBytes(c.inSourceLine - w.last.line) + VlqBytes(c.inSourceCol - w.last.col)))
            && (next.index.None? <==> !(0 <= c.inSourceIndex < |remap|))
  {
    hide VlqBytes;
  }

  function ReadDigit(c: Cursor, digit: int): Cursor {
    match TakeDigit(c.value, c.shift, digit)
    case More(value, shift) => c.(value := value, shift := shift)
    case Number(number) =>
      var d := c.(valpos := c.valpos + 1, value := 0, shift := 0);
      if c.valpos == 0 then d.(inOutputCol := c.inOutputCol + number)
      else if c.valpos == 1 then d.(inSourceIndex := c.inSourceIndex + number)
      else if c.valpos == 2 then d.(inSourceLine := c.inSourceLine + number)
      else if c.valpos == 3 then d.(inSourceCol := c.inSourceCol + number)
      else d
  }

  predicate Readable(b: byte) {
    b == SEMICOLON || b == COMMA || CharToInteger(b) != 255
  }

  /** The bytes that the table knows are read: the digits, `=`, and what stands between numbers. */
  lemma ReadableBytes(b: byte)
    ensures Readable(b) <==> b == ';' as int || b == ',' as int || b == '=' as int || b as char in ALPHABET
  {
    DigitIsRead(b);
    DigitIsWritten(0);
  }

  /** One byte of the input mappings. */
  function WriteByte(w: Writer, b: byte, remap: seq<nat>): Writer {
    if b == SEMICOLON then
      var v := CommitSegment(w, remap);
      v.(cursor := v.cursor.(inOutputCol := 0, lastOutputCol := 0, outputLine := v.cursor.outputLine + 1),
         out := v.out + [SEMICOLON])
    else if b == COMMA then
      var v := CommitSegment(w, remap);
      v.(out := v.out + [COMMA])
    else w.(cursor := ReadDigit(w.cursor, CharToInteger(b)))
  }

  function WriteBytes(w: Writer, bytes: seq<byte>, remap: seq<nat>): Writer {
    if bytes == [] then w
    else WriteByte(WriteBytes(w, bytes[..|bytes| - 1], remap), bytes[|bytes| - 1], remap)
  }

  function Semicolons(n: nat): seq<byte> {
    if n == 0 then [] else Semicolons(n - 1) + [SEMICOLON]
  }

  /** All that one source adds to the mappings. */
  function WriteSource(last: Last, source: Source, remap: seq<nat>): Writer {
    var w := CommitSegment(WriteBytes(Writer(FIRST_CURSOR, last, []), source.mappings, remap), remap);
    if w.cursor.outputLine < source.sourceLines
    then w.(out := w.out + Semicolons(source.sourceLines - w.cursor.outputLine))
    else w
  }

  // ---------- what the rewriting should mean ----------

  function MoveOne(m: Mapping, lines: nat, remap: seq<nat>): Mapping {
    if m.origin.Some? && 0 <= m.origin.value.source < |remap| then
      Mapping(m.line + lines, m.col, Some(m.origin.value.(source := remap[m.origin.value.source])))
    else m.(line := m.line + lines)
  }

  function Moved(ms: seq<Mapping>, lines: nat, remap: seq<nat>): seq<Mapping> {
    seq(|ms|, i requires 0 <= i < |ms| => MoveOne(ms[i], lines, remap))
  }

  predicate InRange(m: Mapping, sources: nat) {
    m.origin.Some? ==>
      && 0 <= m.origin.value.source < sources
      && 0 <= m.origin.value.line < 0x4000_0000
      && 0 <= m.origin.value.col < 0x4000_0000
  }

  ghost predicate AllInRange(ms: seq<Mapping>, sources: nat) {
    forall i :: 0 <= i < |ms| ==> InRange(ms[i], sources)
  }

  /** A map that reads, and names only sources it has. */
  ghost predicate Reads(source: Source) {
    && Decode(START, source.mappings).Some?
    && var e := Decode(START, source.mappings).value;
    && Finish(e).Some?
    && AllInRange(Finish(e).value.mappings, |source.sources|)
  }

  /** The mappings stop with the lines of the text: what follows the last line break says nothing. */
  ghost predicate EndsInTime(source: Source)
    requires Reads(source)
  {
    var e := Decode(START, source.mappings).value;
    e.line < source.sourceLines || (e.line == source.sourceLines && e.fields == [] && e.col == 0)
  }

  ghost function MappingsOf(source: Source): seq<Mapping>
    requires Reads(source)
  {
    Finish(Decode(START, source.mappings).value).value.mappings
  }

  // ---------- the writer follows the reader ----------

  function Field(fields: seq<int>, i: nat): int {
    if i < |fields| then fields[i] else 0
  }

  /** The cursor holds what a reader of the same bytes holds. */
  ghost predicate Follows(e: Decoder, c: Cursor) {
    && c.outputLine == e.line && c.valpos == |e.fields| && c.lastOutputCol == e.col
    && c.value == e.acc < LIMIT && e.scale == Pow2(c.shift)
    && c.inOutputCol == e.col + Field(e.fields, 0)
    && c.inSourceIndex == e.source + Field(e.fields, 1)
    && c.inSourceLine == e.srcLine + Field(e.fields, 2)
    && c.inSourceCol == e.srcCol + Field(e.fields, 3)
    && (forall i :: 0 <= i < |e.fields| ==> -0x4000_0000 < e.fields[i] < 0x4000_0000)
  }

  ghost predicate Small(x: int) {
    0 <= x < 0x4000_0000
  }

  /** A reader of what was written from `base` on is at `d`, which is where the reader `e` of the input is. */
  ghost predicate Mirrors(e: Decoder, d: Decoder, last: Last, base: Decoder, remap: seq<nat>) {
    && BetweenNumbers(d) && d.fields == [] && d.col == e.col && d.line == base.line + e.line
    && last == Last(Some(d.source), d.srcLine, d.srcCol)
    && Small(d.source) && Small(d.srcLine) && Small(d.srcCol)
    && d.mappings == base.mappings + Moved(e.mappings, base.line, remap)
  }

  ghost predicate SmallRemap(remap: seq<nat>) {
    forall i :: 0 <= i < |remap| ==> Small(remap[i])
  }

  lemma DigitFollows(e: Decoder, c: Cursor, b: byte)
    requires Follows(e, c) && b != SEMICOLON && b != COMMA && Step(e, b).Some?
    ensures Follows(Step(e, b).value, ReadDigit(c, CharToInteger(b)))
    ensures CharToInteger(b) != 255
  {
    var digit := CharToInteger(b);
    ShiftIsExact(digit % 32, c.shift);
    var sum := e.acc + digit % 32 * e.scale;
    hide CharToInteger, ShiftLeft, ToInt32;
    if digit >= 32 { DigitGoesOn(e, c, digit, sum); } else { DigitEnds(e, c, digit, sum); }
  }

  lemma DigitGoesOn(e: Decoder, c: Cursor, digit: int, sum: nat)
    requires Follows(e, c) && 32 <= digit < 64 && sum < LIMIT && c.value + ShiftLeft(digit % 32, c.shift) == sum
    ensures Follows(e.(acc := sum, scale := 32 * e.scale), ReadDigit(c, digit))
  {
    Pow2Five(c.shift);
    hide Pow2, ShiftLeft, ToInt32;
    assert digit / 32 % 2 == 1;
  }

  lemma DigitEnds(e: Decoder, c: Cursor, digit: int, sum: nat)
    requires Follows(e, c) && 0 <= digit < 32 && sum < LIMIT && c.value + ShiftLeft(digit % 32, c.shift) == sum
    ensures Follows(e.(acc := 0, scale := 1, fields := e.fields + [SignOf(sum)]), ReadDigit(c, digit))
  {
    assert Pow2(0) == 1;
    SignIsBounded(sum);
    SignsAgree(sum);
    hide Pow2, ShiftLeft, ToInt32, SignOf, VlqToSigned;
    assert digit / 32 % 2 == 0;
  }

  lemma TwoDecode(d: Decoder, a: int, b: seq<byte>)
    requires BetweenNumbers(d) && -0x4000_0000 < a < 0x4000_0000
    ensures Decode(d, VlqBytes(a) + b) == Decode(d.(fields := d.fields + [a]), b)
  {
    VlqDecodes(d, a);
    DecodeConcat(d, VlqBytes(a), b);
  }

  lemma FourDecode(d: Decoder, f0: int, f1: int, f2: int, f3: int)
    requires BetweenNumbers(d) && d.fields == []
    requires -0x4000_0000 < f0 < 0x4000_0000 && -0x4000_0000 < f1 < 0x4000_0000
    requires -0x4000_0000 < f2 < 0x4000_0000 && -0x4000_0000 < f3 < 0x4000_0000
    ensures Decode(d, VlqBytes(f0) + (VlqBytes(f1) + VlqBytes(f2) + VlqBytes(f3))) == Some(d.(fields := [f0, f1, f2,
            f3]))
  {
    hide Decode, VlqBytes;
    var tail := VlqBytes(f1) + (VlqBytes(f2) + VlqBytes(f3));
    assert VlqBytes(f1) + VlqBytes(f2) + VlqBytes(f3) == tail;
    TwoDecode(d, f0, tail);
    var d1 := d.(fields := [f0]);
    assert d.fields + [f0] == [f0] && [f0] + [f1] == [f0, f1];
    assert [f0, f1] + [f2] == [f0, f1, f2] && [f0, f1, f2] + [f3] == [f0, f1, f2, f3];
    TwoDecode(d1, f1, VlqBytes(f2) + VlqBytes(f3));
    var d2 := d1.(fields := [f0, f1]);
    TwoDecode(d2, f2, VlqBytes(f3));
    VlqDecodes(d2.(fields := [f0, f1, f2]), f3);
  }

  /** A reader of the segment just written, before it sees what ends it. */
  function Pending(d: Decoder, w: Writer, remap: seq<nat>): Decoder {
    var c := w.cursor;
    if c.valpos == 0 then d
    else if c.valpos == 1 then d.(fields := [c.inOutputCol - c.lastOutputCol])
    else if Remapped(remap, c.inSourceIndex).Some? then
      d.(fields := [c.inOutputCol - c.lastOutputCol, Remapped(remap, c.inSourceIndex).value - d.source,
                    c.inSourceLine - d.srcLine, c.inSourceCol - d.srcCol])
    else d
  }

  /** The segment to be committed names a source and a position that exist. */
  ghost predicate SegmentInRange(e: Decoder, remap: seq<nat>) {
    |e.fields| >= 4 ==>
      && 0 <= e.source + e.fields[1] < |remap|
      && Small(e.srcLine + e.fields[2]) && Small(e.srcCol + e.fields[3])
  }

  lemma SegmentDecodes(e: Decoder, d: Decoder, w: Writer, base: Decoder, remap: seq<nat>)
    requires Follows(e, w.cursor) && Mirrors(e, d, w.last, base, remap) && SmallRemap(remap)
    requires Commit(e).Some? && SegmentInRange(e, remap)
    ensures Decode(d, SegmentText(w, remap)) == Some(Pending(d, w, remap))
  {
    var c := w.cursor;
    if c.valpos == 1 {
      VlqDecodes(d, e.fields[0]);
      assert d.fields + [e.fields[0]] == [e.fields[0]];
    } else if c.valpos != 0 {
      var index := remap[c.inSourceIndex];
      FourDecode(d, e.fields[0], index - d.source, c.inSourceLine - d.srcLine, c.inSourceCol - d.srcCol);
    }
  }

  lemma CommitMirrors(e: Decoder, d: Decoder, w: Writer, base: Decoder, remap: seq<nat>)
    requires Follows(e, w.cursor) && Mirrors(e, d, w.last, base, remap) && SmallRemap(remap)
    requires BetweenNumbers(e) && Commit(e).Some? && SegmentInRange(e, remap)
    ensures var p := Commit(Pending(d, w, remap));
      p.Some? && Mirrors(Commit(e).value, p.value, CommitSegment(w, remap).last, base, remap)
    ensures Follows(Commit(e).value, CommitSegment(w, remap).cursor)
  {
    if |e.fields| != 0 {
      var e', p := Commit(e).value, Commit(Pending(d, w, remap)).value;
      var m := e'.mappings[|e.mappings|];
      assert e'.mappings == e.mappings + [m];
      assert Moved(e'.mappings, base.line, remap) == Moved(e.mappings, base.line,
             remap) + [MoveOne(m, base.line, remap)];
      assert p.mappings == d.mappings + [MoveOne(m, base.line, remap)];
      assert p.mappings == base.mappings + Moved(e'.mappings, base.line, remap);
    }
  }

  /** `base` reads what was written for earlier sources, and stands at the start of a line. */
  ghost predicate FreshLine(base: Decoder, last: Last) {
    && BetweenNumbers(base) && base.fields == [] && base.col == 0
    && last == Last(Some(base.source), base.srcLine, base.srcCol)
    && Small(base.source) && Small(base.srcLine) && Small(base.srcCol)
  }

  /** After every byte of the input the text written reads as the input read so far, moved and remapped. */
  ghost predicate InStep(e: Decoder, w: Writer, base: Decoder, remap: seq<nat>) {
    && Follows(e, w.cursor)
    && Decode(base, w.out).Some?
    && Mirrors(e, Decode(base, w.out).value, w.last, base, remap)
  }

  lemma CommitReads(e: Decoder, d: Decoder, w: Writer, base: Decoder, remap: seq<nat>)
    requires InStep(e, w, base, remap) && Decode(base, w.out) == Some(d) && SmallRemap(remap)
    requires BetweenNumbers(e) && Commit(e).Some? && SegmentInRange(e, remap)
    ensures Decode(base, CommitSegment(w, remap).out) == Some(Pending(d, w, remap)) &&
            BetweenNumbers(Pending(d, w, remap))
    ensures Follows(Commit(e).value, CommitSegment(w, remap).cursor)
    ensures if e.fields == [] then Pending(d, w, remap) == d else Pending(d, w, remap).fields != []
    ensures Pending(d, w, remap).line == d.line
    ensures CommitSegment(w, remap).cursor.outputLine == e.line
    ensures Commit(Pending(d, w, remap)).Some?
    ensures Mirrors(Commit(e).value, Commit(Pending(d, w, remap)).value, CommitSegment(w, remap).last, base, remap)
  {
    SegmentDecodes(e, d, w, base, remap);
    CommitMirrors(e, d, w, base, remap);
    PendingIsBetween(d, w, remap);
    DecodeConcat(base, w.out, SegmentText(w, remap));
    hide Decode, Mirrors, Commit, VlqBytes;
    assert w.out + SegmentText(w, remap) == CommitSegment(w, remap).out by {
      if w.cursor.valpos == 0 { assert w.out + [] == w.out; }
    }
  }

  lemma SeparatorInStep(e: Decoder, w: Writer, base: Decoder, remap: seq<nat>, b: byte)
    requires InStep(e, w, base, remap) && SmallRemap(remap) && (b == SEMICOLON || b == COMMA)
    requires Step(e, b).Some? && SegmentInRange(e, remap)
    ensures InStep(Step(e, b).value, WriteByte(w, b, remap), base, remap)
  {
    var d := Decode(base, w.out).value;
    CommitReads(e, d, w, base, remap);
    var p, v := Pending(d, w, remap), CommitSegment(w, remap);
    DecodeConcat(base, v.out, [b]);
    DecodeOne(p, b);
    hide Decode, Commit, CommitSegment, SegmentText, Pending, Moved, CharToInteger, Pow2;
    assert Decode(base, v.out + [b]) == Step(p, b);
    SeparatorKeeps(Commit(e).value, Commit(p).value, v, base, remap);
  }

  /** A new line starts both the reader and the writer at column 0. */
  lemma SeparatorKeeps(e: Decoder, d: Decoder, v: Writer, base: Decoder, remap: seq<nat>)
    requires Follows(e, v.cursor) && Mirrors(e, d, v.last, base, remap) && e.fields == []
    ensures var c := v.cursor.(inOutputCol := 0, lastOutputCol := 0, outputLine := v.cursor.outputLine + 1);
      Follows(e.(line := e.line + 1, col := 0), c)
    ensures Mirrors(e.(line := e.line + 1, col := 0), d.(line := d.line + 1, col := 0), v.last, base, remap)
  {
  }

  lemma PendingIsBetween(d: Decoder, w: Writer, remap: seq<nat>)
    requires BetweenNumbers(d)
    ensures BetweenNumbers(Pending(d, w, remap))
  {
  }

  lemma DigitInStep(e: Decoder, w: Writer, base: Decoder, remap: seq<nat>, b: byte)
    requires InStep(e, w, base, remap) && b != SEMICOLON && b != COMMA && Step(e, b).Some?
    ensures InStep(Step(e, b).value, WriteByte(w, b, remap), base, remap)
  {
    DigitFollows(e, w.cursor, b);
    hide Decode, ReadDigit, Follows, CharToInteger, Moved;
  }

  /** The segment that a separator or the end of the text ends is one of the map's mappings. */
  lemma SegmentIsMapping(e: Decoder, ms: seq<Mapping>, sources: nat, remap: seq<nat>)
    requires Commit(e).Some? && Commit(e).value.mappings <= ms && AllInRange(ms, sources) && |remap| == sources
    ensures SegmentInRange(e, remap)
  {
    if |e.fields| >= 4 {
      assert InRange(ms[|e.mappings|], sources);
    }
  }

  ghost predicate Fitting(source: Source, base: Decoder, last: Last, remap: seq<nat>) {
    Reads(source) && FreshLine(base, last) && |remap| == |source.sources| && SmallRemap(remap)
  }

  lemma FollowsFromStart()
    ensures Follows(START, FIRST_CURSOR)
  {
  }

  lemma MirrorsFromStart(base: Decoder, last: Last, remap: seq<nat>)
    requires FreshLine(base, last)
    ensures Mirrors(START, base, last, base, remap)
  {
  }

  lemma StartsInStep(base: Decoder, last: Last, remap: seq<nat>)
    requires FreshLine(base, last)
    ensures InStep(START, Writer(FIRST_CURSOR, last, []), base, remap)
  {
    hide Follows, Mirrors, FreshLine;
    FollowsFromStart();
    MirrorsFromStart(base, last, remap);
    assert Decode(base, []) == Some(base);
  }

  lemma WriteNext(w: Writer, bytes: seq<byte>, remap: seq<nat>, i: nat)
    requires i < |bytes|
    ensures WriteBytes(w, bytes[..i + 1], remap) == WriteByte(WriteBytes(w, bytes[..i], remap), bytes[i], remap)
  {
    hide WriteByte;
    assert bytes[..i + 1][..i] == bytes[..i];
  }

  lemma ByteInStep(source: Source, base: Decoder, w: Writer, remap: seq<nat>, i: nat)
    requires Reads(source) && |remap| == |source.sources| && SmallRemap(remap) && i < |source.mappings|
    requires Decode(START, source.mappings[..i]).Some? && Decode(START, source.mappings[..i + 1]).Some?
    requires InStep(Decode(START, source.mappings[..i]).value, w, base, remap)
    ensures InStep(Decode(START, source.mappings[..i + 1]).value, WriteByte(w, source.mappings[i], remap), base, remap)
  {
    hide Decode, InStep, Step, WriteByte, Reads, AllInRange, SmallRemap, SegmentInRange;
    var bytes := source.mappings;
    var e := Decode(START, bytes[..i]).value;
    DecodeNext(START, bytes, i);
    if bytes[i] == SEMICOLON || bytes[i] == COMMA {
      StaysInRange(source, i + 1, remap);
      SeparatorInStep(e, w, base, remap, bytes[i]);
    } else {
      DigitInStep(e, w, base, remap, bytes[i]);
    }
  }

  lemma {:induction false} PrefixInStep(source: Source, base: Decoder, last: Last, remap: seq<nat>, i: nat)
    requires Fitting(source, base, last, remap) && i <= |source.mappings|
    ensures Decode(START, source.mappings[..i]).Some?
    ensures InStep(Decode(START, source.mappings[..i]).value,
                   WriteBytes(Writer(FIRST_CURSOR, last, []), source.mappings[..i], remap), base, remap)
  {
    hide Decode, WriteBytes, InStep, Follows, Mirrors, Step, WriteByte, Reads, FreshLine, SmallRemap, START,
         FIRST_CURSOR;
    var bytes, w0 := source.mappings, Writer(FIRST_CURSOR, last, []);
    ReadsPrefix(source, i);
    if i == 0 {
      assert bytes[..0] == [];
      NothingDecodes(START);
      NothingWrites(w0, remap);
      StartsInStep(base, last, remap);
    } else {
      PrefixInStep(source, base, last, remap, i - 1);
      WriteNext(w0, bytes, remap, i - 1);
      ByteInStep(source, base, WriteBytes(w0, bytes[..i - 1], remap), remap, i - 1);
    }
  }

  lemma ReadsPrefix(source: Source, i: nat)
    requires Reads(source) && i <= |source.mappings|
    ensures Decode(START, source.mappings[..i]).Some?
  {
    PrefixDecodes(START, source.mappings, i);
  }

  lemma NothingDecodes(d: Decoder)
    ensures Decode(d, []) == Some(d)
  {
  }

  lemma NothingWrites(w: Writer, remap: seq<nat>)
    ensures WriteBytes(w, [], remap) == w
  {
  }

  lemma StaysInRange(source: Source, i: nat, remap: seq<nat>)
    requires Reads(source) && 0 < i <= |source.mappings| && |remap| == |source.sources|
    requires Decode(START, source.mappings[..i]).Some? && Decode(START, source.mappings[..i - 1]).Some?
    requires source.mappings[i - 1] == SEMICOLON || source.mappings[i - 1] == COMMA
    ensures SegmentInRange(Decode(START, source.mappings[..i - 1]).value, remap)
  {
    var bytes := source.mappings;
    var e := Decode(START, bytes[..i - 1]).value;
    DecodeNext(START, bytes, i - 1);
    PrefixDecodes(START, bytes, i);
    MappingsGrow(Decode(START, bytes[..i]).value, bytes[i..]);
    FinishGrows(Decode(START, bytes).value);
    hide Decode, Finish;
    SegmentIsMapping(e, MappingsOf(source), |source.sources|, remap);
  }

  lemma FinishGrows(e: Decoder)
    requires Finish(e).Some?
    ensures e.mappings <= Finish(e).value.mappings
  {
  }

  // ---------- the end of a source ----------

  lemma {:induction false} SemicolonsDecode(d: Decoder, n: nat)
    requires BetweenNumbers(d) && Commit(d).Some? && n > 0
    ensures Decode(d, Semicolons(n)) == Some(Commit(d).value.(line := d.line + n, col := 0))
    decreases n
  {
    if n == 1 {
      assert Semicolons(1) == [SEMICOLON];
      DecodeOne(d, SEMICOLON);
    } else {
      SemicolonsDecode(d, n - 1);
      DecodeConcat(d, Semicolons(n - 1), [SEMICOLON]);
      DecodeOne(Commit(d).value.(line := d.line + n - 1, col := 0), SEMICOLON);
    }
  }

  /**
   * The meaning of a merge: a reader of everything written finds what was there before, followed by
   * the mappings of the source, moved down by the lines before it and with its sources renumbered.
   * The reader stands at the start of the line after the source's last exactly if the mappings end in time.
   */
  lemma MergePreservesMeaning(source: Source, base: Decoder, last: Last, remap: seq<nat>)
    requires Fitting(source, base, last, remap)
    ensures MergedWith(source, base, last, remap, WriteSource(last, source, remap))
  {
    hide MergedWith, WriteSource;
    var bytes, w0 := source.mappings, Writer(FIRST_CURSOR, last, []);
    PrefixInStep(source, base, last, remap, |bytes|);
    assert bytes[..|bytes|] == bytes;
    MergeEnds(source, Decode(START, bytes).value, WriteBytes(w0, bytes, remap), base, last, remap);
  }

  /** What `w` has written for `source` behind `base` means what it should. */
  ghost predicate MergedWith(source: Source, base: Decoder, last: Last, remap: seq<nat>, w: Writer)
    requires Reads(source)
  {
    && Decode(base, w.out).Some?
    && var d := Decode(base, w.out).value;
    && Finish(d).Some?
    && Finish(d).value.mappings == base.mappings + Moved(MappingsOf(source), base.line, remap)
    && (FreshLine(d, w.last) && d.line == base.line + source.sourceLines <==> EndsInTime(source))
  }

  lemma MergeEnds(source: Source, e: Decoder, w: Writer, base: Decoder, last: Last, remap: seq<nat>)
    requires Fitting(source, base, last, remap) && Decode(START, source.mappings) == Some(e) &&
             InStep(e, w, base, remap)
    requires w == WriteBytes(Writer(FIRST_CURSOR, last, []), source.mappings, remap)
    ensures MergedWith(source, base, last, remap, WriteSource(last, source, remap))
  {
    hide Decode, Moved, Follows, Commit, Pending, CommitSegment, SegmentText, WriteBytes, Semicolons, SegmentInRange,
         AllInRange;
    var d := Decode(base, w.out).value;
    SegmentIsMapping(e, MappingsOf(source), |source.sources|, remap);
    CommitReads(e, d, w, base, remap);
    var p, v := Pending(d, w, remap), CommitSegment(w, remap);
    if e.line < source.sourceLines {
      PaddingReads(e, p, v, base, remap, source.sourceLines - e.line);
      var q := Decode(base, v.out + Semicolons(source.sourceLines - e.line)).value;
      NothingToCommit(q);
    } else if e.fields == [] {
      NothingToCommit(e);
      NothingToCommit(p);
    }
  }

  lemma NothingToCommit(d: Decoder)
    requires d.fields == []
    ensures Commit(d) == Some(d)
  {
  }

  lemma PaddingReads(e: Decoder, p: Decoder, v: Writer, base: Decoder, remap: seq<nat>, n: nat)
    requires Decode(base, v.out) == Some(p) && BetweenNumbers(p) && Commit(p).Some? && Commit(e).Some? && n > 0
    requires Mirrors(Commit(e).value, Commit(p).value, v.last, base, remap)
    ensures var d := Decode(base, v.out + Semicolons(n));
      && d.Some? && FreshLine(d.value, v.last) && d.value.line == base.line + e.line + n
      && d.value.mappings == base.mappings + Moved(Commit(e).value.mappings, base.line, remap)
  {
    SemicolonsDecode(p, n);
    DecodeConcat(base, v.out, Semicolons(n));
    hide Decode, Semicolons, Moved;
  }

  // ---------- the source after it ----------

  /** Behind `source`, the source `next` is read as what its own map says, below the lines of `source`. */
  ghost predicate KeepsNext(source: Source, base: Decoder, last: Last, remap: seq<nat>, next: Source,
      nextRemap: seq<nat>)
    requires Reads(source) && Reads(next)
  {
    var w := WriteSource(last, source, remap);
    var d := Decode(base, w.out + WriteSource(w.last, next, nextRemap).out);
    && d.Some? && Finish(d.value).Some?
    && Finish(d.value).value.mappings
       == base.mappings + Moved(MappingsOf(source), base.line, remap)
          + Moved(MappingsOf(next), base.line + source.sourceLines, nextRemap)
  }

  ghost predicate Mergeable(source: Source, remap: seq<nat>) {
    Reads(source) && |remap| == |source.sources| && SmallRemap(remap)
  }

  /** Whatever comes next keeps its meaning if and only if the mappings of this source end in time. */
  lemma NextKeepsMeaning(source: Source, base: Decoder, last: Last, remap: seq<nat>)
    requires Fitting(source, base, last, remap)
    ensures EndsInTime(source) <==>
              forall next, nextRemap :: Mergeable(next, nextRemap) ==>
                       KeepsNext(source, base, last, remap, next, nextRemap)
  {
    hide KeepsNext, EndsInTime, Reads, SmallRemap, FreshLine;
    if EndsInTime(source) {
      forall next, nextRemap | Mergeable(next, nextRemap)
        ensures KeepsNext(source, base, last, remap, next, nextRemap)
      {
        TimelyKeepsNext(source, base, last, remap, next, nextRemap);
      }
    } else {
      WitnessReads();
      LateLosesNext(source, base, last, remap);
    }
  }

  lemma TimelyKeepsNext(source: Source, base: Decoder, last: Last, remap: seq<nat>, next: Source, nextRemap: seq<nat>)
    requires Fitting(source, base, last, remap) && EndsInTime(source) && Mergeable(next, nextRemap)
    ensures KeepsNext(source, base, last, remap, next, nextRemap)
  {
    hide Decode, WriteSource, Moved, FreshLine, EndsInTime, Finish, Reads;
    var w := WriteSource(last, source, remap);
    MergePreservesMeaning(source, base, last, remap);
    var d := Decode(base, w.out).value;
    FreshIsFinished(d, w.last);
    MergePreservesMeaning(next, d, w.last, nextRemap);
    DecodeConcat(base, w.out, WriteSource(w.last, next, nextRemap).out);
  }

  lemma FreshIsFinished(d: Decoder, last: Last)
    ensures FreshLine(d, last) ==> Finish(d) == Some(d)
  {
  }

  /** One line, whose start is mapped: the mappings `A`. */
  const WITNESS := Source([NEWLINE], 1, [], [65])

  lemma ZeroBytes()
    ensures VlqBytes(0) == [65]
  {
  }

  /** After its one byte the segment has one field more, which is zero. */
  lemma WitnessField(d: Decoder)
    requires BetweenNumbers(d)
    ensures Decode(d, [65]) == Some(d.(fields := d.fields + [0]))
  {
    hide Decode, VlqBytes;
    ZeroBytes();
    VlqDecodes(d, 0);
  }

  lemma WitnessReads()
    ensures Mergeable(WITNESS, []) && MappingsOf(WITNESS) == [Mapping(0, 0, None)]
  {
    hide Decode;
    WitnessField(START);
    assert [] + [0] == [0];
  }

  lemma FirstNumber(w: Writer, b: byte, remap: seq<nat>, number: int)
    requires b != SEMICOLON && b != COMMA && w.cursor.valpos == 0
    requires TakeDigit(w.cursor.value, w.cursor.shift, CharToInteger(b)) == Number(number)
    ensures WriteByte(w, b, remap)
         == w.(cursor := w.cursor.(valpos := 1, value := 0, shift := 0, inOutputCol := w.cursor.inOutputCol + number))
  {
    hide TakeDigit, CharToInteger, CommitSegment;
  }

  lemma OneByte(w: Writer, b: byte, remap: seq<nat>)
    ensures WriteBytes(w, [b], remap) == WriteByte(w, b, remap)
  {
    hide WriteByte;
  }

  /** Its text is the same behind any other source. */
  lemma WitnessText(last: Last)
    ensures WriteSource(last, WITNESS, []).out == [65, SEMICOLON]
  {
    hide TakeDigit, CharToInteger, WriteByte, WriteBytes, VlqBytes, Semicolons, OriginText;
    var w := Writer(FIRST_CURSOR, last, []);
    ZeroDigit();
    FirstNumber(w, 65, [], 0);
    OneByte(w, 65, []);
    ZeroBytes();
    OneSemicolon();
    assert [] + [65] == [65];
  }

  lemma ZeroDigit()
    ensures CharToInteger(65) == 0 && TakeDigit(0, 0, 0) == Number(0)
  {
    hide TakeDigit;
    assert Pow2(0) == 1;
    DigitTaken(0, 0, 0);
  }

  lemma OneSemicolon()
    ensures Semicolons(1) == [SEMICOLON]
  {
    assert Semicolons(0) == [];
  }

  /** A segment that nothing ended runs into it; otherwise it lands on the wrong line, or in the wrong column. */
  lemma LateLosesNext(source: Source, base: Decoder, last: Last, remap: seq<nat>)
    requires Fitting(source, base, last, remap) && !EndsInTime(source) && Mergeable(WITNESS, [])
    ensures !KeepsNext(source, base, last, remap, WITNESS, [])
  {
    hide Decode, WriteSource, Moved, FreshLine, Reads, Mergeable, SmallRemap, Finish;
    var w := WriteSource(last, source, remap);
    WitnessReads();
    WitnessText(w.last);
    LateEnd(source, base, last, remap);
    var d := Decode(base, w.out).value;
    DecodeConcat(base, w.out, [65, SEMICOLON]);
    WitnessDecodes(d);
    var ms, own := MappingsOf(source), Moved([Mapping(0, 0, None)], base.line + source.sourceLines, []);
    MovedOne(base.line + source.sourceLines);
    MovedLength(ms, base.line, remap);
    if d.fields == [] {
      var all := d.mappings + [Mapping(d.line, d.col, None)];
      assert all[|all| - 1] != (base.mappings + Moved(ms, base.line, remap) + own)[|all| - 1];
    }
  }

  lemma MovedOne(lines: nat)
    ensures Moved([Mapping(0, 0, None)], lines, []) == [Mapping(lines, 0, None)]
  {
  }

  lemma MovedLength(ms: seq<Mapping>, lines: nat, remap: seq<nat>)
    ensures |Moved(ms, lines, remap)| == |ms|
  {
  }

  /** Where a reader stands after mappings that do not end in time. */
  lemma LateEnd(source: Source, base: Decoder, last: Last, remap: seq<nat>)
    requires Fitting(source, base, last, remap) && !EndsInTime(source)
    ensures Decode(base, WriteSource(last, source, remap).out).Some?
    ensures var d := Decode(base, WriteSource(last, source, remap).out).value;
      && BetweenNumbers(d) && |d.mappings| + (if d.fields == [] then 0 else 1) == |base.mappings| + |MappingsOf(source)|
      && |d.fields| in {0, 1, 4}
      && (d.fields == [] ==>
            d.line > base.line + source.sourceLines || (d.line == base.line + source.sourceLines && d.col != 0))
  {
    hide Decode, Follows, WriteBytes, Semicolons, SegmentInRange, AllInRange, SegmentText, Moved;
    var bytes, w0 := source.mappings, Writer(FIRST_CURSOR, last, []);
    PrefixInStep(source, base, last, remap, |bytes|);
    assert bytes[..|bytes|] == bytes;
    var e, w := Decode(START, bytes).value, WriteBytes(w0, bytes, remap);
    var d := Decode(base, w.out).value;
    SegmentIsMapping(e, MappingsOf(source), |source.sources|, remap);
    CommitReads(e, d, w, base, remap);
    MovedLength(e.mappings, base.line, remap);
    PendingFields(d, w, remap);
  }

  lemma PendingFields(d: Decoder, w: Writer, remap: seq<nat>)
    requires d.fields == []
    ensures |Pending(d, w, remap).fields| in {0, 1, 4} && Pending(d, w, remap).mappings == d.mappings
  {
  }

  lemma WitnessDecodes(d: Decoder)
    requires BetweenNumbers(d) && |d.fields| in {0, 1, 4}
    ensures |d.fields| == 1 ==> Decode(d, [65, SEMICOLON]).None?
    ensures |d.fields| != 1 ==>
      && Decode(d, [65, SEMICOLON]).Some?
      && var r := Finish(Decode(d, [65, SEMICOLON]).value);
      && r.Some? && |r.value.mappings| == |d.mappings| + 1
      && (d.fields == [] ==> r.value.mappings == d.mappings + [Mapping(d.line, d.col, None)])
  {
    hide Decode;
    var e := d.(fields := d.fields + [0]);
    WitnessField(d);
    DecodeConcat(d, [65], [SEMICOLON]);
    assert [65] + [SEMICOLON] == [65, SEMICOLON];
    DecodeOne(e, SEMICOLON);
  }
}
