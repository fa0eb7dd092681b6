/** The builder that joins sources and their source maps into one text and one map. */
module SourceMapBuilder {
  import opened Bytes
  import opened Vlq
  import opened Options
  import opened SourceMapFormat
  import opened SourceMapMerge
  import opened SourceMapNames

  /** A source's text ends with a line break, and its lines are counted by them. */
  function MakeSource(content: seq<byte>, sources: seq<string>, mappings: seq<byte>): (s: Source)
    ensures CountByte(NEWLINE, s.content) == s.sourceLines
    ensures s.content == content || s.content == content + [NEWLINE]
    ensures s.content == content <==> content == [] || content[|content| - 1] == NEWLINE
    ensures s.sources == sources && s.mappings == mappings
  {
    CountConcat(NEWLINE, content, [NEWLINE]);
    CountOne(NEWLINE, NEWLINE);
    if content != [] && content[|content| - 1] != NEWLINE then
      Source(content + [NEWLINE], CountByte(NEWLINE, content) + 1, sources, mappings)
    else Source(content, CountByte(NEWLINE, content), sources, mappings)
  }

  lemma Associative(a: seq<byte>, b: seq<byte>, c: seq<byte>)
    ensures a + b + c == a + (b + c)
  {
  }

  lemma FirstDigit(num: int)
    ensures Digits(num) == if num / 32 > 0
                           then [IntegerToChar(num % 32 + 32)] + Digits(num / 32)
                           else [IntegerToChar(num % 32)] + []
  {
  }

  lemma ZeroIsA()
    ensures VlqBytes(0) == ['A' as int]
  {
    DigitIsWritten(0);
  }

  class DynamicBuffer {
    var buffer: array<byte>
    var size: nat

    ghost predicate Valid()
      reads this
    {
      size <= buffer.Length
    }

    ghost function Contents(): seq<byte>
      requires Valid()
      reads this, buffer
    {
      buffer[..size]
    }

    constructor ()
      ensures Valid() && fresh(buffer) && Contents() == []
    {
      buffer := new byte[512](i => 0);
      size := 0;
    }

    method EnsureCapacity(capacity: nat)
      requires Valid()
      modifies this`buffer
      ensures Valid() && Contents() == old(Contents()) && buffer.Length >= capacity
      ensures if old(buffer.Length) >= capacity then buffer == old(buffer)
              else fresh(buffer) && buffer.Length >= 2 * old(buffer.Length)
    {
      if buffer.Length >= capacity {
        return;
      }
      var oldBuffer := buffer;
      var larger := new byte[if oldBuffer.Length * 2 > capacity then oldBuffer.Length * 2 else capacity](i => 0);
      forall i | 0 <= i < oldBuffer.Length {
        larger[i] := oldBuffer[i];
      }
      buffer := larger;
    }

    method AddByte(b: byte)
      requires Valid()
      modifies this, buffer
      ensures Valid() && Contents() == old(Contents()) + [b]
      ensures buffer == old(buffer) || fresh(buffer)
    {
      EnsureCapacity(size + 1);
      buffer[size] := b;
      size := size + 1;
    }

    method AddBuffer(bytes: seq<byte>)
      requires Valid()
      modifies this, buffer
      ensures Valid() && Contents() == old(Contents()) + bytes
      ensures buffer == old(buffer) || fresh(buffer)
    {
      EnsureCapacity(size + |bytes|);
      forall i | 0 <= i < |bytes| {
        buffer[size + i] := bytes[i];
      }
      size := size + |bytes|;
    }

    method ToBuffer() returns (bytes: seq<byte>)
      requires Valid()
      ensures bytes == Contents()
    {
      bytes := buffer[..size];
    }

    /** Nothing stands for a number that is not one: its shifts and comparisons act as those of zero. */
    method AddVLQ(number: Option<int>)
      requires Valid()
      modifies this, buffer
      ensures Valid() && Contents() == old(Contents()) + NumberBytes(number)
      ensures number.None? ==> Contents() == old(Contents()) + ['A' as int]
      ensures buffer == old(buffer) || fresh(buffer)
    {
      hide IntegerToChar, SignedToVlq, Digits, Contents;
      ZeroIsA();
      var num := SignedToVlq(if number.Some? then number.value else 0);
      ghost var all, done := Digits(num), [];
      var more := true;
      while more
        invariant Valid() && (buffer == old(buffer) || fresh(buffer)) && Contents() == old(Contents()) + done
        invariant all == done + if more then Digits(num) else []
        decreases more, num
      {
        FirstDigit(num);
        var clamped := num % 32;
        num := num / 32;
        if num > 0 {
          clamped := clamped + 32;
        }
        AddByte(IntegerToChar(clamped));
        more := num > 0;
        Associative(done, [IntegerToChar(clamped)], if more then Digits(num) else []);
        Associative(old(Contents()), done, [IntegerToChar(clamped)]);
        done := done + [IntegerToChar(clamped)];
      }
    }
  }

  class SourceMapBuilder {
    const outputBuffer: DynamicBuffer
    const mappings: DynamicBuffer
    var sources: seq<string>
    var lastSourceIndex: Option<int>
    var lastSourceLine: int
    var lastSourceCol: int
    /** Each text added was one line, and no map added had more line ends than its source. */
    ghost var level: bool

    ghost predicate Shaped()
      reads this, outputBuffer, mappings
    {
      && outputBuffer.Valid() && mappings.Valid()
      && outputBuffer != mappings && outputBuffer.buffer != mappings.buffer
    }

    ghost function Output(): seq<byte>
      requires Shaped()
      reads this, outputBuffer, mappings, outputBuffer.buffer
    {
      outputBuffer.Contents()
    }

    ghost function Map(): seq<byte>
      requires Shaped()
      reads this, outputBuffer, mappings, mappings.buffer
    {
      mappings.Contents()
    }

    /** The table has each name once; text and map have as many lines, as long as all that was added has. */
    ghost predicate Valid()
      reads this, outputBuffer, mappings, outputBuffer.buffer, mappings.buffer
    {
      && Shaped()
      && NoDuplicates(sources)
      && (level ==> CountByte(SEMICOLON, Map()) == CountByte(NEWLINE, Output()))
    }

    function LastPosition(): Last
      reads this
    {
      Last(lastSourceIndex, lastSourceLine, lastSourceCol)
    }

    /** The map reads, its reader is at the start of the line the text has come to, and the builder knows where. */
    ghost predicate Aligned()
      requires Shaped()
      reads this, outputBuffer, mappings, outputBuffer.buffer, mappings.buffer
    {
      && Decode(START, Map()).Some?
      && var d := Decode(START, Map()).value;
      && FreshLine(d, LastPosition())
      && d.line == CountByte(NEWLINE, Output())
      && AllIndexed(d.mappings, |sources|)
    }

    /** What the map built so far says, by the names of the sources. */
    ghost function Meaning(): Option<seq<NamedMapping>>
      requires Shaped()
      reads this, outputBuffer, mappings, mappings.buffer
    {
      MapMeaning(Map(), sources)
    }

    constructor ()
      ensures Valid() && Output() == [] && Map() == [] && sources == []
      ensures Aligned() && Meaning() == Some([]) && level
      ensures fresh(outputBuffer) && fresh(outputBuffer.buffer) && fresh(mappings) && fresh(mappings.buffer)
    {
      outputBuffer := new DynamicBuffer();
      mappings := new DynamicBuffer();
      sources := [];
      lastSourceIndex, lastSourceLine, lastSourceCol := Some(0), 0, 0;
      level := true;
      new;
      NothingMeans();
    }

    method AddLine(text: seq<byte>)
      requires Valid()
      modifies this, outputBuffer, mappings, outputBuffer.buffer, mappings.buffer
      ensures Valid() && sources == old(sources)
      ensures outputBuffer.buffer == old(outputBuffer.buffer) || fresh(outputBuffer.buffer)
      ensures mappings.buffer == old(mappings.buffer) || fresh(mappings.buffer)
      ensures Output() == old(Output()) + text + [NEWLINE] && Map() == old(Map()) + [SEMICOLON]
      ensures level == (old(level) && CountByte(NEWLINE, text) == 0)
      ensures old(Aligned()) && CountByte(NEWLINE, text) == 0 ==> Aligned() && Meaning() == old(Meaning())
    {
      hide CountByte, Decode, Named;
      outputBuffer.AddBuffer(text);
      outputBuffer.AddByte(NEWLINE);
      mappings.AddByte(SEMICOLON);
      level := level && CountByte(NEWLINE, text) == 0;
      LineCounts(old(Output()), old(Map()), text);
      if old(Aligned()) && CountByte(NEWLINE, text) == 0 {
        LineReads(old(Map()));
      }
    }

    /**
     * The map goes on saying what it said, and then what the source's own map says, below the lines there were.
     * It is ready for the next source exactly if the source's mappings end in time.
     */
    method AddSource(source: Source) returns (ok: bool)
      requires Valid()
      modifies this, outputBuffer, mappings, outputBuffer.buffer, mappings.buffer
      ensures Valid() && Output() == old(Output()) + source.content
      ensures outputBuffer.buffer == old(outputBuffer.buffer) || fresh(outputBuffer.buffer)
      ensures mappings.buffer == old(mappings.buffer) || fresh(mappings.buffer)
      ensures sources == Interned(old(sources), source.sources)
      ensures ok <==> forall i :: 0 <= i < |source.mappings| ==> Readable(source.mappings[i])
      ensures ok ==> CountByte(SEMICOLON, Map()) == CountByte(SEMICOLON, old(Map())) + MapLines(source)
      ensures level == (old(level) && ok && MapLines(source) == CountByte(NEWLINE, source.content))
      ensures old(Aligned()) && Fits(source, sources) ==>
        && ok && old(Meaning()).Some? && (Aligned() <==> EndsInTime(source))
        && Meaning() == Some(old(Meaning()).value + Below(Named(MappingsOf(source), source.sources),
           CountByte(NEWLINE, old(Output()))))
    {
      hide Interned, WriteSource, CountByte, Decode, Reads, EndsInTime, FreshLine, Named, Below, NoDuplicates,
           MapMeaning, Readable, SameNames;
      ghost var output, bytes, last, table := Output(), Map(), LastPosition(), sources;
      ghost var sourceRemap;
      ok, sourceRemap := AddParts(source);
      level := level && ok && MapLines(source) == CountByte(NEWLINE, source.content);
      InternedKeeps(table, source.sources);
      CountConcat(NEWLINE, output, source.content);
      if ok {
        SourceCountsLines(last, source, sourceRemap);
        CountConcat(SEMICOLON, bytes, WriteSource(last, source, sourceRemap).out);
      }
      if old(Aligned()) && Fits(source, sources) {
        ReadableIfReads(source);
        SourceReads(output, bytes, last, table, source, sourceRemap, sources);
      }
    }

    /** Text, table of sources, and map, of which the first two are added whether or not the map can be read. */
    method AddParts(source: Source) returns (ok: bool, ghost remap: seq<nat>)
      requires Shaped()
      modifies this, outputBuffer, mappings, outputBuffer.buffer, mappings.buffer
      ensures Shaped() && Output() == old(Output()) + source.content && level == old(level)
      ensures outputBuffer.buffer == old(outputBuffer.buffer) || fresh(outputBuffer.buffer)
      ensures mappings.buffer == old(mappings.buffer) || fresh(mappings.buffer)
      ensures sources == Interned(old(sources), source.sources) && SameNames(remap, source.sources, sources)
      ensures ok <==> forall i :: 0 <= i < |source.mappings| ==> Readable(source.mappings[i])
      ensures ok ==> Writes(old(Map()), old(LastPosition()), source, remap)
    {
      hide Interned, WriteSource, Readable, SameNames;
      outputBuffer.AddBuffer(source.content);
      var sourceRemap := InternSources(source.sources);
      ok := AddMappings(source, sourceRemap);
      remap := sourceRemap;
    }

    /** The map is the old one followed by what the writer makes of the source. */
    ghost predicate Writes(before: seq<byte>, last: Last, source: Source, remap: seq<nat>)
      requires Shaped()
      reads this, outputBuffer, mappings, mappings.buffer
    {
      var w := WriteSource(last, source, remap);
      Map() == before + w.out && LastPosition() == w.last
    }

    method InternSources(names: seq<string>) returns (sourceRemap: seq<nat>)
      modifies this`sources
      ensures sources == Interned(old(sources), names)
      ensures SameNames(sourceRemap, names, sources)
    {
      sourceRemap := [];
      assert names[..0] == [];
      for i := 0 to |names|
        invariant sources == Interned(old(sources), names[..i]) && SameNames(sourceRemap, names[..i], sources)
      {
        var pos := 0;
        while pos < |sources| && sources[pos] != names[i]
          invariant 0 <= pos <= |sources| && names[i] !in sources[..pos]
        {
          pos := pos + 1;
        }
        assert names[..i + 1][..i] == names[..i];
        if pos == |sources| {
          assert sources[..pos] == sources;
          sources := sources + [names[i]];
        }
        sourceRemap := sourceRemap + [pos];
      }
      assert names[..|names|] == names;
    }

    method AddMappings(source: Source, sourceRemap: seq<nat>) returns (ok: bool)
      requires Shaped()
      modifies this`lastSourceIndex, this`lastSourceLine, this`lastSourceCol, mappings, mappings.buffer
      ensures Shaped() && (mappings.buffer == old(mappings.buffer) || fresh(mappings.buffer))
      ensures ok <==> forall i :: 0 <= i < |source.mappings| ==> Readable(source.mappings[i])
      ensures ok ==> Writes(old(Map()), old(LastPosition()), source, sourceRemap)
    {
      hide WriteBytes, CommitSegment, Semicolons, Readable;
      ghost var before, w := Map(), Writer(FIRST_CURSOR, LastPosition(), []);
      var cursor;
      ok, cursor := AddMappingBytes(source.mappings, sourceRemap);
      if ok {
        w := WriteBytes(w, source.mappings, sourceRemap);
        cursor := Commit(cursor, sourceRemap, before, w);
        AddLineEnds(if cursor.outputLine < source.sourceLines then source.sourceLines - cursor.outputLine else 0);
      }
    }

    /** Ends the lines of the source that its mappings did not end. */
    method AddLineEnds(n: nat)
      requires Shaped()
      modifies mappings, mappings.buffer
      ensures Shaped() && (mappings.buffer == old(mappings.buffer) || fresh(mappings.buffer))
      ensures Map() == old(Map()) + if n > 0 then Semicolons(n) else []
    {
      var i := 0;
      while i < n
        invariant Shaped() && (mappings.buffer == old(mappings.buffer) || fresh(mappings.buffer))
        invariant i <= n && Map() == old(Map()) + Semicolons(i)
      {
        mappings.AddByte(SEMICOLON);
        i := i + 1;
      }
    }

    method AddMappingBytes(inputMappings: seq<byte>, sourceRemap: seq<nat>) returns (ok: bool, cursor: Cursor)
      requires Shaped()
      modifies this`lastSourceIndex, this`lastSourceLine, this`lastSourceCol, mappings, mappings.buffer
      ensures Shaped() && (mappings.buffer == old(mappings.buffer) || fresh(mappings.buffer))
      ensures ok <==> forall i :: 0 <= i < |inputMappings| ==> Readable(inputMappings[i])
      ensures ok ==> Holds(old(Map()), cursor, WriteBytes(Writer(FIRST_CURSOR, old(LastPosition()), []),
              inputMappings, sourceRemap))
    {
      hide WriteByte, Readable, WriteBytes;
      cursor := FIRST_CURSOR;
      ghost var before, w := Map(), Writer(FIRST_CURSOR, LastPosition(), []);
      assert inputMappings[..0] == [];
      NothingWrites(w, sourceRemap);
      for ip := 0 to |inputMappings|
        invariant Shaped() && (mappings.buffer == old(mappings.buffer) || fresh(mappings.buffer))
        invariant forall i :: 0 <= i < ip ==> Readable(inputMappings[i])
        invariant Holds(before, cursor, WriteBytes(w, inputMappings[..ip], sourceRemap))
      {
        WriteNext(w, inputMappings, sourceRemap, ip);
        if !Readable(inputMappings[ip]) {
          ok := false;
          return;
        }
        cursor := AddMappingByte(inputMappings[ip], cursor, sourceRemap, before,
            WriteBytes(w, inputMappings[..ip], sourceRemap));
      }
      assert inputMappings[..|inputMappings|] == inputMappings;
      ok := true;
    }

    /** The fields and the map hold what the writer `w` holds, after `before`. */
    ghost predicate Holds(before: seq<byte>, cursor: Cursor, w: Writer)
      requires Shaped()
      reads this, outputBuffer, mappings, mappings.buffer
    {
      cursor == w.cursor && LastPosition() == w.last && Map() == before + w.out
    }

    method AddMappingByte(b: byte, cursor: Cursor, sourceRemap: seq<nat>, ghost before: seq<byte>, ghost w: Writer)
        returns (c: Cursor)
      requires Shaped() && Holds(before, cursor, w)
      modifies this`lastSourceIndex, this`lastSourceLine, this`lastSourceCol, mappings, mappings.buffer
      ensures Shaped() && (mappings.buffer == old(mappings.buffer) || fresh(mappings.buffer))
      ensures Holds(before, c, WriteByte(w, b, sourceRemap))
    {
      hide CommitSegment, ReadDigit;
      c := cursor;
      if b == SEMICOLON {
        c := Commit(c, sourceRemap, before, w);
        mappings.AddByte(SEMICOLON);
        c := c.(inOutputCol := 0, lastOutputCol := 0, outputLine := c.outputLine + 1);
      } else if b == COMMA {
        c := Commit(c, sourceRemap, before, w);
        mappings.AddByte(COMMA);
      } else {
        c := ReadDigit(c, CharToInteger(b));
      }
    }

    method Commit(cursor: Cursor, sourceRemap: seq<nat>, ghost before: seq<byte>, ghost w: Writer) returns (c: Cursor)
      requires Shaped() && Holds(before, cursor, w)
      modifies this`lastSourceIndex, this`lastSourceLine, this`lastSourceCol, mappings, mappings.buffer
      ensures Shaped() && (mappings.buffer == old(mappings.buffer) || fresh(mappings.buffer))
      ensures Holds(before, c, CommitSegment(w, sourceRemap))
    {
      hide SegmentText;
      c := CommitFields(cursor, sourceRemap, w);
      if w.cursor.valpos == 0 { NoSegmentNoText(w, sourceRemap); }
    }

    method CommitFields(cursor: Cursor, sourceRemap: seq<nat>, ghost w: Writer) returns (c: Cursor)
      requires Shaped() && cursor == w.cursor && LastPosition() == w.last
      modifies this`lastSourceIndex, this`lastSourceLine, this`lastSourceCol, mappings, mappings.buffer
      ensures Shaped() && (mappings.buffer == old(mappings.buffer) || fresh(mappings.buffer))
      ensures c == CommitSegment(w, sourceRemap).cursor && LastPosition() == CommitSegment(w, sourceRemap).last
      ensures Map() == old(Map()) + SegmentText(w, sourceRemap)
    {
      hide VlqBytes, NumberBytes, OriginText;
      c := cursor;
      if c.valpos == 0 {
        return;
      }
      AddNumber(c.inOutputCol - c.lastOutputCol);
      var single := c.valpos == 1;
      c := c.(lastOutputCol := c.inOutputCol, valpos := 0);
      if !single {
        CommitOrigin(Remapped(sourceRemap, c.inSourceIndex), c.inSourceLine, c.inSourceCol);
      }
    }

    method AddNumber(number: int)
      requires Shaped()
      modifies mappings, mappings.buffer
      ensures Shaped() && (mappings.buffer == old(mappings.buffer) || fresh(mappings.buffer))
      ensures Map() == old(Map()) + VlqBytes(number)
    {
      mappings.AddVLQ(Some(number));
    }

    method AddDifference(outSourceIndex: Option<int>)
      requires Shaped()
      modifies this`lastSourceIndex, mappings, mappings.buffer
      ensures Shaped() && (mappings.buffer == old(mappings.buffer) || fresh(mappings.buffer))
      ensures Map() == old(Map()) + NumberBytes(Difference(outSourceIndex, old(lastSourceIndex)))
      ensures lastSourceIndex == outSourceIndex
    {
      mappings.AddVLQ(Difference(outSourceIndex, lastSourceIndex));
      lastSourceIndex := outSourceIndex;
    }

    /** The original position, relative to the one written last. */
    method CommitOrigin(outSourceIndex: Option<int>, line: int, col: int)
      requires Shaped()
      modifies this`lastSourceIndex, this`lastSourceLine, this`lastSourceCol, mappings, mappings.buffer
      ensures Shaped() && (mappings.buffer == old(mappings.buffer) || fresh(mappings.buffer))
      ensures LastPosition() == Last(outSourceIndex, line, col)
      ensures Map() == old(Map()) + OriginText(Last(outSourceIndex, line, col), old(LastPosition()))
    {
      hide VlqBytes, NumberBytes;
      ghost var before := Map();
      ghost var x, y := NumberBytes(Difference(outSourceIndex, lastSourceIndex)), VlqBytes(line - lastSourceLine);
      Associative(before, x, y);
      Associative(before, x + y, VlqBytes(col - lastSourceCol));
      AddDifference(outSourceIndex);
      AddNumber(line - lastSourceLine);
      lastSourceLine := line;
      AddNumber(col - lastSourceCol);
      lastSourceCol := col;
    }
  }

  lemma NothingMeans()
    ensures MapMeaning([], []) == Some([])
  {
    assert Decode(START, []) == Some(START) && Finish(START) == Some(START);
    assert Named([], []) == [];
  }

  lemma NoSegmentNoText(w: Writer, remap: seq<nat>)
    requires w.cursor.valpos == 0
    ensures SegmentText(w, remap) == []
  {
  }

  /** The line ends that a source gets in the map. */
  function MapLines(source: Source): nat {
    var lines := CountByte(SEMICOLON, source.mappings);
    if lines < source.sourceLines then source.sourceLines else lines
  }

  /** A source as `MakeSource` makes it, with a map that reads, and a table of sources that 30 bits can number. */
  ghost predicate Fits(source: Source, sources: seq<string>) {
    Reads(source) && CountByte(NEWLINE, source.content) == source.sourceLines && |sources| <= 0x4000_0000
  }

  lemma LineCounts(output: seq<byte>, bytes: seq<byte>, text: seq<byte>)
    ensures CountByte(NEWLINE, output + text + [NEWLINE]) == CountByte(NEWLINE, output) + CountByte(NEWLINE, text) + 1
    ensures CountByte(SEMICOLON, bytes + [SEMICOLON]) == CountByte(SEMICOLON, bytes) + 1
  {
    hide CountByte;
    CountConcat(NEWLINE, output, text);
    CountConcat(NEWLINE, output + text, [NEWLINE]);
    CountOne(NEWLINE, NEWLINE);
    CountConcat(SEMICOLON, bytes, [SEMICOLON]);
    CountOne(SEMICOLON, SEMICOLON);
  }

  lemma LineReads(bytes: seq<byte>)
    requires Decode(START, bytes).Some? && BetweenNumbers(Decode(START, bytes).value) &&
             Decode(START, bytes).value.fields == []
    ensures var d := Decode(START, bytes).value;
      Decode(START, bytes + [SEMICOLON]) == Some(d.(line := d.line + 1, col := 0))
  {
    hide Decode;
    DecodeConcat(START, bytes, [SEMICOLON]);
    DecodeOne(Decode(START, bytes).value, SEMICOLON);
  }

  lemma {:induction false} ReadableDecodes(d: Decoder, bytes: seq<byte>)
    requires Decode(d, bytes).Some?
    ensures forall i :: 0 <= i < |bytes| ==> Readable(bytes[i])
    decreases |bytes|
  {
    if bytes != [] {
      ReadableDecodes(Step(d, bytes[0]).value, bytes[1..]);
      forall i | 0 <= i < |bytes| ensures Readable(bytes[i]) {
        if i > 0 { assert bytes[i] == bytes[1..][i - 1]; }
      }
    }
  }

  lemma ReadableIfReads(source: Source)
    requires Reads(source)
    ensures forall i :: 0 <= i < |source.mappings| ==> Readable(source.mappings[i])
  {
    ReadableDecodes(START, source.mappings);
  }

  /** What `Aligned` and `Meaning` become when a source is added. */
  lemma SourceReads(output: seq<byte>, bytes: seq<byte>, last: Last, table: seq<string>,
                    source: Source, remap: seq<nat>, sources: seq<string>)
    requires Decode(START, bytes).Some? && Fits(source, sources) && table <= sources
    requires FreshLine(Decode(START, bytes).value, last) && AllIndexed(Decode(START, bytes).value.mappings, |table|)
    requires Decode(START, bytes).value.line == CountByte(NEWLINE, output) && SameNames(remap, source.sources, sources)
    ensures var w := WriteSource(last, source, remap);
      && Decode(START, bytes + w.out).Some?
      && var d := Decode(START, bytes + w.out).value;
      && (FreshLine(d, w.last) && d.line == CountByte(NEWLINE, output + source.content) <==> EndsInTime(source))
      && (FreshLine(d, w.last) ==> AllIndexed(d.mappings, |sources|))
      && MapMeaning(bytes, table).Some?
      && MapMeaning(bytes + w.out, sources)
         == Some(MapMeaning(bytes, table).value + Below(Named(MappingsOf(source), source.sources),
             CountByte(NEWLINE, output)))
  {
    hide CountByte, Decode, EndsInTime, FreshLine, Named, Below, Moved, WriteSource, AllInRange, Finish, AllIndexed;
    var base, w := Decode(START, bytes).value, WriteSource(last, source, remap);
    FreshIsFinished(base, last);
    MergePreservesMeaning(source, base, last, remap);
    DecodeConcat(START, bytes, w.out);
    FreshIsFinished(Decode(base, w.out).value, w.last);
    CountConcat(NEWLINE, output, source.content);
    LongerTableKeepsNames(base.mappings, table, sources);
    var ms := MappingsOf(source);
    MovedKeepsNames(ms, base.line, remap, source.sources, sources);
    NamedConcat(base.mappings, Moved(ms, base.line, remap), sources);
    IndexedConcat(base.mappings, Moved(ms, base.line, remap), |sources|);
  }

  lemma IndexedConcat(a: seq<Mapping>, b: seq<Mapping>, sources: nat)
    requires AllIndexed(a, sources) && AllIndexed(b, sources)
    ensures AllIndexed(a + b, sources)
  {
  }
}
