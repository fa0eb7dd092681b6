/** Mappings by the names of their sources, and the table of sources the builder keeps. */
module SourceMapNames {
  import opened Bytes
  import opened Vlq
  import opened Options
  import opened SourceMapFormat
  import opened SourceMapMerge

  datatype NamedOrigin = NamedOrigin(source: string, line: int, col: int)

  datatype NamedMapping = NamedMapping(line: nat, col: int, origin: Option<NamedOrigin>)

  function NameOf(m: Mapping, sources: seq<string>): NamedMapping {
    if m.origin.Some? && 0 <= m.origin.value.source < |sources| then
      NamedMapping(m.line, m.col, Some(NamedOrigin(sources[m.origin.value.source], m.origin.value.line,
          m.origin.value.col)))
    else NamedMapping(m.line, m.col, None)
  }

  function Named(ms: seq<Mapping>, sources: seq<string>): seq<NamedMapping> {
    seq(|ms|, i requires 0 <= i < |ms| => NameOf(ms[i], sources))
  }

  function Below(ms: seq<NamedMapping>, lines: nat): seq<NamedMapping> {
    seq(|ms|, i requires 0 <= i < |ms| => ms[i].(line := ms[i].line + lines))
  }

  /** What a whole map says, by the names of its sources; nothing if it cannot be read. */
  function MapMeaning(bytes: seq<byte>, sources: seq<string>): Option<seq<NamedMapping>> {
    var d := Decode(START, bytes);
    if d.Some? && Finish(d.value).Some? then Some(Named(Finish(d.value).value.mappings, sources)) else None
  }

  // ---------- the table of sources ----------

  ghost predicate NoDuplicates(sources: seq<string>) {
    forall i, j :: 0 <= i < j < |sources| ==> sources[i] != sources[j]
  }

  /** `remap` gives each of a map's sources the place its name has in the table. */
  ghost predicate SameNames(remap: seq<nat>, names: seq<string>, sources: seq<string>) {
    |remap| == |names| && forall i :: 0 <= i < |remap| ==> remap[i] < |sources| && sources[remap[i]] == names[i]
  }

  /** The table is the old one followed by the new names, in the order they came. */
  function Interned(sources: seq<string>, names: seq<string>): seq<string> {
    if names == [] then sources
    else
      var before := Interned(sources, names[..|names| - 1]);
      if names[|names| - 1] in before then before else before + [names[|names| - 1]]
  }

  lemma {:induction false} InternedKeeps(sources: seq<string>, names: seq<string>)
    ensures sources <= Interned(sources, names)
    ensures NoDuplicates(sources) ==> NoDuplicates(Interned(sources, names))
    ensures |Interned(sources, names)| <= |sources| + |names|
  {
    if names != [] {
      InternedKeeps(sources, names[..|names| - 1]);
    }
  }

  /** Names come into the table one by one, each at its end, unless it is there. */
  lemma {:induction false} InternedInTurn(sources: seq<string>, a: seq<string>, b: seq<string>, name: string)
    ensures Interned(sources, a + b) == Interned(Interned(sources, a), b)
    ensures Interned(sources, [name]) == if name in sources then sources else sources + [name]
    decreases |b|
  {
    assert [name][..0] == [] && Interned(sources, []) == sources;
    if b == [] {
      assert a + b == a;
    } else {
      var n := |b| - 1;
      assert (a + b)[..|a + b| - 1] == a + b[..n];
      InternedInTurn(sources, a, b[..n], name);
    }
  }

  // ---------- moving a map keeps its names ----------

  ghost predicate AllIndexed(ms: seq<Mapping>, sources: nat) {
    forall i :: 0 <= i < |ms| && ms[i].origin.Some? ==> 0 <= ms[i].origin.value.source < sources
  }

  lemma MovedKeepsNames(ms: seq<Mapping>, lines: nat, remap: seq<nat>, names: seq<string>, sources: seq<string>)
    requires AllInRange(ms, |names|) && SameNames(remap, names, sources)
    ensures Named(Moved(ms, lines, remap), sources) == Below(Named(ms, names), lines)
    ensures AllIndexed(Moved(ms, lines, remap), |sources|)
  {
  }

  lemma LongerTableKeepsNames(ms: seq<Mapping>, sources: seq<string>, longer: seq<string>)
    requires AllIndexed(ms, |sources|) && sources <= longer
    ensures Named(ms, sources) == Named(ms, longer) && AllIndexed(ms, |longer|)
  {
  }

  lemma NamedConcat(a: seq<Mapping>, b: seq<Mapping>, sources: seq<string>)
    ensures Named(a + b, sources) == Named(a, sources) + Named(b, sources)
  {
  }

  // ---------- counting ----------

  function CountByte(b: byte, bytes: seq<byte>): nat {
    if bytes == [] then 0 else CountByte(b, bytes[..|bytes| - 1]) + if bytes[|bytes| - 1] == b then 1 else 0
  }

  lemma {:induction false} CountConcat(b: byte, x: seq<byte>, y: seq<byte>)
    ensures CountByte(b, x + y) == CountByte(b, x) + CountByte(b, y)
    decreases |y|
  {
    if y == [] {
      assert x + y == x;
    } else {
      assert (x + y)[..|x + y| - 1] == x + y[..|y| - 1];
      CountConcat(b, x, y[..|y| - 1]);
    }
  }

  lemma {:induction false} DigitsHaveNoSemicolon(num: int)
    ensures CountByte(SEMICOLON, Digits(num)) == 0
    decreases if num < 0 then 0 else num
  {
    DigitRoundTrip(num % 32);
    DigitRoundTrip(num % 32 + 32);
    hide IntegerToChar, CharToInteger;
    if num / 32 > 0 {
      DigitsHaveNoSemicolon(num / 32);
      CountConcat(SEMICOLON, [IntegerToChar(num % 32 + 32)], Digits(num / 32));
      CountOne(SEMICOLON, IntegerToChar(num % 32 + 32));
    } else {
      CountOne(SEMICOLON, IntegerToChar(num % 32));
    }
  }

  lemma CountOne(b: byte, c: byte)
    ensures CountByte(b, [c]) == if b == c then 1 else 0
  {
  }

  lemma SegmentHasNoSemicolon(w: Writer, remap: seq<nat>)
    ensures CountByte(SEMICOLON, SegmentText(w, remap)) == 0
  {
    hide Digits, SignedToVlq, CountByte;
    var c := w.cursor;
    assert CountByte(SEMICOLON, []) == 0 by { CountNone(); }
    if c.valpos != 0 {
      var a := c.inOutputCol - c.lastOutputCol;
      DigitsHaveNoSemicolon(SignedToVlq(a));
      var index := Difference(Remapped(remap, c.inSourceIndex), w.last.index);
      DigitsHaveNoSemicolon(SignedToVlq(if index.Some? then index.value else 0));
      DigitsHaveNoSemicolon(SignedToVlq(c.inSourceLine - w.last.line));
      DigitsHaveNoSemicolon(SignedToVlq(c.inSourceCol - w.last.col));
      var x, y, z := NumberBytes(index), VlqBytes(c.inSourceLine - w.last.line), VlqBytes(c.inSourceCol - w.last.col);
      CountConcat(SEMICOLON, x, y);
      CountConcat(SEMICOLON, x + y, z);
      CountConcat(SEMICOLON, VlqBytes(a), x + y + z);
    }
  }

  lemma CountNone()
    ensures CountByte(SEMICOLON, []) == 0
  {
  }

  lemma CommitCounts(w: Writer, remap: seq<nat>)
    ensures CountByte(SEMICOLON, CommitSegment(w, remap).out) == CountByte(SEMICOLON, w.out)
    ensures CommitSegment(w, remap).cursor.outputLine == w.cursor.outputLine
  {
    hide CountByte, SegmentText;
    SegmentHasNoSemicolon(w, remap);
    CountConcat(SEMICOLON, w.out, SegmentText(w, remap));
  }

  /** The writer ends exactly the lines the input ends, whatever else the input says. */
  lemma {:induction false} WriterCountsLines(w: Writer, bytes: seq<byte>, remap: seq<nat>)
    ensures var v := WriteBytes(w, bytes, remap);
      && v.cursor.outputLine == w.cursor.outputLine + CountByte(SEMICOLON, bytes)
      && CountByte(SEMICOLON, v.out) == CountByte(SEMICOLON, w.out) + CountByte(SEMICOLON, bytes)
    decreases |bytes|
  {
    if bytes != [] {
      var head, b := bytes[..|bytes| - 1], bytes[|bytes| - 1];
      WriterCountsLines(w, head, remap);
      ByteCountsLines(WriteBytes(w, head, remap), b, remap);
      hide WriteByte;
    }
  }

  lemma ByteCountsLines(w: Writer, b: byte, remap: seq<nat>)
    ensures var v := WriteByte(w, b, remap);
      && v.cursor.outputLine == w.cursor.outputLine + (if b == SEMICOLON then 1 else 0)
      && CountByte(SEMICOLON, v.out) == CountByte(SEMICOLON, w.out) + if b == SEMICOLON then 1 else 0
  {
    hide CountByte, CommitSegment, ShiftLeft, VlqToSigned;
    CommitCounts(w, remap);
    CountConcat(SEMICOLON, CommitSegment(w, remap).out, [b]);
    CountOne(SEMICOLON, b);
  }

  lemma {:induction false} SemicolonsCount(n: nat)
    ensures CountByte(SEMICOLON, Semicolons(n)) == n
  {
    if n > 0 {
      SemicolonsCount(n - 1);
      CountConcat(SEMICOLON, Semicolons(n - 1), [SEMICOLON]);
      CountOne(SEMICOLON, SEMICOLON);
    }
  }

  /** A source gets as many line ends in the mappings as it has lines, or as its own mappings have if those are more. */
  lemma SourceCountsLines(last: Last, source: Source, remap: seq<nat>)
    ensures var lines := CountByte(SEMICOLON, source.mappings);
      CountByte(SEMICOLON, WriteSource(last, source, remap).out)
      == if lines < source.sourceLines then source.sourceLines else lines
  {
    hide CountByte, CommitSegment, WriteBytes, Semicolons;
    var w := WriteBytes(Writer(FIRST_CURSOR, last, []), source.mappings, remap);
    WriterCountsLines(Writer(FIRST_CURSOR, last, []), source.mappings, remap);
    CommitCounts(w, remap);
    var v := CommitSegment(w, remap);
    CountNone();
    if v.cursor.outputLine < source.sourceLines {
      SemicolonsCount(source.sourceLines - v.cursor.outputLine);
      CountConcat(SEMICOLON, v.out, Semicolons(source.sourceLines - v.cursor.outputLine));
    }
  }
}
