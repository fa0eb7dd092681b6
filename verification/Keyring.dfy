/**
 * A secret kept in a keyring whose entries are bounded in length (auth.rs,
 * `KeyringStorage`): it is stored in chunks that name a successor with a
 * marker, and read back by following the markers.
 */
module Keyring {
  import opened Bytes
  import opened Options

  type Password = seq<byte>

  /** `<MORE>` */
  const CONTINUE_MARKER: Password := [60, 77, 79, 82, 69, 62]

  lemma MarkerText()
    ensures CONTINUE_MARKER == seq(|"<MORE>"|, i requires 0 <= i < |"<MORE>"| => "<MORE>"[i] as int)
  {
  }

  predicate Continues(chunk: Password) {
    |chunk| >= |CONTINUE_MARKER| && chunk[|chunk| - |CONTINUE_MARKER|..] == CONTINUE_MARKER
  }

  lemma ContinuesMeansMarked(chunk: Password)
    ensures Continues(chunk) <==> exists part: Password :: chunk == part + CONTINUE_MARKER
    ensures forall part: Password :: chunk == part + CONTINUE_MARKER ==> WithoutMarker(chunk) == part
  {
    var marker := CONTINUE_MARKER;
    if Continues(chunk) {
      assert chunk == chunk[..|chunk| - |marker|] + marker;
    }
    forall part: Password | chunk == part + CONTINUE_MARKER
      ensures Continues(chunk) && WithoutMarker(chunk) == part
    {
      assert chunk[|part|..] == marker && chunk[..|part|] == part;
    }
  }

  function WithoutMarker(chunk: Password): Password
    requires Continues(chunk)
  {
    chunk[..|chunk| - |CONTINUE_MARKER|]
  }

  /** No character of the UTF-8 text `s` is cut in two at `i`. */
  predicate IsCharBoundary(s: Password, i: nat)
    requires i <= |s|
  {
    i == 0 || i == |s| || !(0x80 <= s[i] < 0xC0)
  }

  // ----- Characters, as RFC 3629 encodes them -----

  type Character = c: int | 0 <= c < 0xD800 || 0xE000 <= c < 0x11_0000

  function Utf8Character(c: Character): (bytes: Password)
    ensures bytes != [] && !(0x80 <= bytes[0] < 0xC0)
    ensures forall i :: 0 < i < |bytes| ==> 0x80 <= bytes[i] < 0xC0
  {
    if c < 0x80 then [c]
    else if c < 0x800 then [0xC0 + c / 0x40, 0x80 + c % 0x40]
    else if c < 0x1_0000 then [0xE0 + c / 0x1000, 0x80 + c / 0x40 % 0x40, 0x80 + c % 0x40]
    else [0xF0 + c / 0x4_0000, 0x80 + c / 0x1000 % 0x40, 0x80 + c / 0x40 % 0x40, 0x80 + c % 0x40]
  }

  function Utf8(text: seq<Character>): Password {
    if text == [] then [] else Utf8Character(text[0]) + Utf8(text[1..])
  }

  /** A boundary is where a text could end: some of its first characters take up just so many bytes. */
  lemma {:induction false} BoundaryEndsPrefix(text: seq<Character>, i: nat)
    requires i <= |Utf8(text)|
    ensures IsCharBoundary(Utf8(text), i) <==> exists k: nat :: k <= |text| && |Utf8(text[..k])| == i
    decreases |text|
  {
    hide Utf8Character;
    if i == 0 {
      assert |Utf8(text[..0])| == 0;
    } else {
      var first, rest := Utf8Character(text[0]), Utf8(text[1..]);
      forall k: nat | 0 < k <= |text| ensures |Utf8(text[..k])| == |first| + |Utf8(text[1..][..k - 1])| {
        assert text[..k][0] == text[0] && text[..k][1..] == text[1..][..k - 1];
      }
      if i < |first| {
        assert !IsCharBoundary(Utf8(text), i);
        assert |Utf8(text[..0])| == 0;
      } else {
        var j := i - |first|;
        BoundaryEndsPrefix(text[1..], j);
        assert j < |rest| ==> Utf8(text)[i] == rest[j];
        if j == 0 && rest != [] { FirstIsNoContinuation(text[1..]); }
        if k: nat :| k <= |text[1..]| && |Utf8(text[1..][..k])| == j {
          assert |Utf8(text[..k + 1])| == i;
        }
        if k: nat :| k <= |text| && |Utf8(text[..k])| == i {
          assert k > 0 && |Utf8(text[1..][..k - 1])| == j;
        }
      }
    }
  }

  lemma FirstIsNoContinuation(text: seq<Character>)
    requires Utf8(text) != []
    ensures !(0x80 <= Utf8(text)[0] < 0xC0)
  {
  }

  // ----- What storing writes, and what reading finds -----

  /** The entries written for `s`; the first chunk that would cut a character ends them. */
  function Chunks(s: Password, step: nat): seq<Password>
    requires step > 0
    decreases |s|
  {
    if s == [] then []
    else if step > |s| then [s]
    else if !IsCharBoundary(s, step) then []
    else [s[..step] + CONTINUE_MARKER] + Chunks(s[step..], step)
  }

  function Written(chunks: seq<Password>): map<nat, Password> {
    map i: nat | i < |chunks| :: chunks[i]
  }

  function KeysFrom(keyring: map<nat, Password>, i: nat): set<nat> {
    set k | k in keyring && k >= i
  }

  function ReadFrom(keyring: map<nat, Password>, i: nat): Option<Password>
    decreases |KeysFrom(keyring, i)|
  {
    if i !in keyring then None
    else if !Continues(keyring[i]) then Some(keyring[i])
    else
      KeysShrink(keyring, i);
      Behind(WithoutMarker(keyring[i]), ReadFrom(keyring, i + 1))
  }

  lemma ReadNext(keyring: map<nat, Password>, i: nat)
    ensures i !in keyring ==> ReadFrom(keyring, i) == None
    ensures i in keyring && !Continues(keyring[i]) ==> ReadFrom(keyring, i) == Some(keyring[i])
    ensures i in keyring && Continues(keyring[i]) ==>
              ReadFrom(keyring, i) == Behind(WithoutMarker(keyring[i]), ReadFrom(keyring, i + 1))
  {
  }

  function Behind(str: Password, read: Option<Password>): Option<Password> {
    match read
    case None => None
    case Some(rest) => Some(str + rest)
  }

  lemma KeysShrink(keyring: map<nat, Password>, i: nat)
    requires i in keyring
    ensures |KeysFrom(keyring, i + 1)| < |KeysFrom(keyring, i)|
  {
    assert KeysFrom(keyring, i) == KeysFrom(keyring, i + 1) + {i};
  }

  /** Entry `k` is part of what is read: each one before it continues. */
  ghost predicate Chained(keyring: map<nat, Password>, k: nat) {
    forall i: nat :: i < k ==> i in keyring && Continues(keyring[i])
  }

  ghost predicate IsFirstMissing(keyring: map<nat, Password>, missing: nat) {
    missing !in keyring && forall k: nat :: k < missing ==> k in keyring
  }

  // ----- The round trip -----

  predicate CutsNoCharacter(s: Password, step: nat)
    requires step > 0
  {
    forall i: nat :: i <= |s| && i % step == 0 ==> IsCharBoundary(s, i)
  }

  /** The secrets that survive: nothing cut in two, a last chunk that is there and does not look continued. */
  predicate Survives(s: Password, step: nat)
    requires step > 0
  {
    && CutsNoCharacter(s, step)
    && |s| % step != 0
    && !Continues(s[|s| - |s| % step..])
  }

  lemma MultiplesGrow(a: int, b: int, step: nat)
    requires a < b
    ensures a * step + step <= b * step
    decreases b - a
  {
    if a + 1 < b {
      MultiplesGrow(a, b - 1, step);
    }
    assert b * step == (b - 1) * step + step;
  }

  lemma Division(x: int, q: int, r: int, step: nat)
    requires step > 0 && x == q * step + r && 0 <= r < step
    ensures x / step == q && x % step == r
  {
    var p := x / step;
    assert x == p * step + x % step;
    if p < q {
      MultiplesGrow(p, q, step);
    } else if q < p {
      MultiplesGrow(q, p, step);
    }
  }

  lemma StepsBehind(i: nat, step: nat)
    requires step > 0
    ensures (i + step) % step == i % step
  {
    var q := i / step;
    assert i == q * step + i % step;
    assert (q + 1) * step == q * step + step;
    Division(i + step, q + 1, i % step, step);
  }

  lemma SmallRemainder(i: nat, step: nat)
    requires i < step
    ensures i % step == i
  {
  }

  /** Surviving, chunk by chunk. */
  lemma SurvivesStep(s: Password, step: nat)
    requires step > 0
    ensures |s| < step ==> (Survives(s, step) <==> s != [] && !Continues(s))
    ensures |s| >= step ==> (Survives(s, step) <==> IsCharBoundary(s, step) && Survives(s[step..], step))
  {
    if |s| < step {
      SmallRemainder(|s|, step);
      ShortIsUncut(s, step);
      assert |s| - |s| % step == 0 && s[0..] == s;
    } else {
      var rest := s[step..];
      StepsBehind(|rest|, step);
      assert rest[|rest| - |rest| % step..] == s[|s| - |s| % step..];
      CutsStep(s, step);
    }
  }

  lemma ShortIsUncut(s: Password, step: nat)
    requires |s| < step
    ensures CutsNoCharacter(s, step)
  {
  }

  lemma CutsStep(s: Password, step: nat)
    requires 0 < step <= |s|
    ensures CutsNoCharacter(s, step) <==> IsCharBoundary(s, step) && CutsNoCharacter(s[step..], step)
  {
    var rest := s[step..];
    StepsBehind(0, step);
    SmallRemainder(0, step);
    if CutsNoCharacter(s, step) {
      forall i: nat | i <= |rest| && i % step == 0 ensures IsCharBoundary(rest, i) {
        StepsBehind(i, step);
        assert IsCharBoundary(s, i + step);
      }
    }
    if IsCharBoundary(s, step) && CutsNoCharacter(rest, step) {
      forall i: nat | i <= |s| && i % step == 0 ensures IsCharBoundary(s, i) {
        if i < step {
          SmallRemainder(i, step);
        } else {
          StepsBehind(i - step, step);
          assert IsCharBoundary(rest, i - step);
        }
      }
    }
  }

  /** The entries from `i` on hold these chunks. */
  ghost predicate Holds(keyring: map<nat, Password>, i: nat, chunks: seq<Password>) {
    forall k: nat :: i <= k < i + |chunks| ==> k in keyring && keyring[k] == chunks[k - i]
  }

  lemma HoldsRest(keyring: map<nat, Password>, i: nat, chunk: Password, chunks: seq<Password>)
    requires Holds(keyring, i, [chunk] + chunks)
    ensures i in keyring && keyring[i] == chunk && Holds(keyring, i + 1, chunks)
  {
  }

  lemma {:induction false} ReadChunks(keyring: map<nat, Password>, i: nat, s: Password, step: nat)
    requires step > 0
    requires Holds(keyring, i, Chunks(s, step))
    ensures Survives(s, step) ==> ReadFrom(keyring, i) == Some(s)
    ensures !Survives(s, step) && i + |Chunks(s, step)| !in keyring ==> ReadFrom(keyring, i) == None
    decreases |s|
  {
    hide Survives;
    SurvivesStep(s, step);
    if s == [] {
    } else if |s| < step {
      assert Chunks(s, step) == [s] + [];
      HoldsRest(keyring, i, s, []);
    } else if IsCharBoundary(s, step) {
      var chunk, rest := s[..step] + CONTINUE_MARKER, s[step..];
      HoldsRest(keyring, i, chunk, Chunks(rest, step));
      assert chunk[|chunk| - |CONTINUE_MARKER|..] == CONTINUE_MARKER;
      assert WithoutMarker(chunk) == s[..step];
      ReadChunks(keyring, i + 1, rest, step);
      assert s[..step] + rest == s;
    }
  }

  /** A secret reads back whatever was in the keyring before, exactly when it survives. */
  lemma ReadAfterStore(s: Password, step: nat)
    requires step > 0
    ensures Survives(s, step) <==>
            (forall stale: map<nat, Password> :: ReadFrom(stale + Written(Chunks(s, step)), 0) == Some(s))
  {
    forall stale: map<nat, Password> | Survives(s, step)
      ensures ReadFrom(stale + Written(Chunks(s, step)), 0) == Some(s)
    {
      ReadChunks(stale + Written(Chunks(s, step)), 0, s, step);
    }
    if !Survives(s, step) {
      var stale: map<nat, Password> := map[];
      ReadChunks(stale + Written(Chunks(s, step)), 0, s, step);
    }
  }

  /** Every entry fits, and all but the last are full. */
  lemma {:induction false} ChunksFit(s: Password, step: nat)
    requires step > 0
    ensures forall k: nat :: k < |Chunks(s, step)| ==> |Chunks(s, step)[k]| <= step + |CONTINUE_MARKER|
    ensures forall k: nat :: k + 1 < |Chunks(s, step)| ==> |Chunks(s, step)[k]| == step + |CONTINUE_MARKER|
    decreases |s|
  {
    if step <= |s| && IsCharBoundary(s, step) {
      ChunksFit(s[step..], step);
    }
  }

  lemma BehindNothing(read: Option<Password>)
    ensures Behind([], read) == read
  {
    assert read.Some? ==> [] + read.value == read.value;
  }

  lemma BehindTwo(a: Password, b: Password, read: Option<Password>)
    ensures Behind(a, Behind(b, read)) == Behind(a + b, read)
  {
    assert read.Some? ==> a + (b + read.value) == a + b + read.value;
  }

  /** What of `s` is left to store at `i`. */
  function Left(s: Password, i: nat): Password {
    if i < |s| then s[i..] else []
  }

  /** One turn of the storing loop, in terms of the chunks to write. */
  lemma NextChunk(s: Password, i: nat, step: nat, all: seq<Password>, n: nat)
    requires step > 0 && i < |s| && n <= |all| && all[n..] == Chunks(Left(s, i), step)
    ensures i + step > |s| ==> n < |all| && all[n] == s[i..]
    ensures i + step <= |s| && IsCharBoundary(s, i + step) ==> n < |all| && all[n] == s[i..i + step] + CONTINUE_MARKER
    ensures i + step <= |s| && !IsCharBoundary(s, i + step) ==> n == |all| && !CutsNoCharacter(Left(s, i), step)
    ensures n < |all| ==> all[n + 1..] == Chunks(Left(s, i + step), step)
    ensures n < |all| ==> (CutsNoCharacter(Left(s, i), step) <==> CutsNoCharacter(Left(s, i + step), step))
  {
    hide CutsNoCharacter;
    var rest := s[i..];
    if step <= |rest| {
      CutsStep(rest, step);
    } else {
      ShortIsUncut(rest, step);
      ShortIsUncut([], step);
    }
    assert n < |all| ==> all[n] == all[n..][0] && all[n + 1..] == all[n..][1..];
    if i + step <= |s| {
      assert IsCharBoundary(rest, step) == IsCharBoundary(s, i + step);
      assert rest[..step] == s[i..i + step] && rest[step..] == Left(s, i + step);
    }
  }

  lemma WrittenNext(before: map<nat, Password>, all: seq<Password>, n: nat)
    requires n < |all|
    ensures (before + Written(all[..n]))[n := all[n]] == before + Written(all[..n + 1])
  {
  }

  // ----- The storage -----

  class KeyringStorage {
    const limit: nat
    /** The entries opened so far: each is the number in its name. */
    var entries: seq<nat>
    /** The passwords that the system keyring holds. */
    var keyring: map<nat, Password>

    ghost predicate Valid()
      reads this
    {
      limit > |CONTINUE_MARKER| && forall i: nat :: i < |entries| ==> entries[i] == i
    }

    function StepSize(): nat
      requires limit > |CONTINUE_MARKER|
    {
      limit - |CONTINUE_MARKER|
    }

    constructor (limit: nat, keyring: map<nat, Password>)
      requires limit > |CONTINUE_MARKER|
      ensures Valid() && this.limit == limit && this.keyring == keyring && entries == []
    {
      this.limit := limit;
      this.keyring := keyring;
      entries := [];
    }

    method GetNextEntry(i: nat) returns (entry: nat)
      requires Valid() && i <= |entries|
      modifies this`entries
      ensures Valid() && entry == i
      ensures |entries| == if i < |old(entries)| then |old(entries)| else i + 1
    {
      if i >= |entries| {
        entries := entries + [i];
      }
      entry := entries[i];
    }

    /** What is read, and that just the entries it took are opened. */
    method Read() returns (read: Option<Password>)
      requires Valid()
      modifies this`entries
      ensures Valid() && read == ReadFrom(keyring, 0)
      ensures |entries| > 0 && |entries| >= |old(entries)|
      ensures forall k: nat :: k < |entries| <==> k < |old(entries)| || Chained(keyring, k)
      ensures read.None? ==> exists k: nat :: k < |entries| && k !in keyring
    {
      hide ReadFrom, Continues;
      var str := [];
      var i := 0;
      BehindNothing(ReadFrom(keyring, 0));
      while true
        invariant Valid() && i <= |entries| && |entries| >= |old(entries)|
        invariant Chained(keyring, i)
        invariant forall k: nat :: k < |entries| ==> k < |old(entries)| || Chained(keyring, k)
        invariant ReadFrom(keyring, 0) == Behind(str, ReadFrom(keyring, i))
        decreases |KeysFrom(keyring, i)|
      {
        var entry := GetNextEntry(i);
        ReadNext(keyring, i);
        if entry !in keyring {
          return None;
        }
        var nextChunk := keyring[entry];
        if Continues(nextChunk) {
          BehindTwo(str, WithoutMarker(nextChunk), ReadFrom(keyring, i + 1));
          KeysShrink(keyring, i);
          str := str + WithoutMarker(nextChunk);
        } else {
          str := str + nextChunk;
          break;
        }
        i := i + 1;
      }
      return Some(str);
    }

    /** False when a chunk would end inside a character, where the source stops with a panic. */
    method Store(sealed: Password) returns (ok: bool)
      requires Valid()
      modifies this
      ensures Valid()
      ensures keyring == old(keyring) + Written(Chunks(sealed, StepSize()))
      ensures forall e: nat :: e < |Chunks(sealed, StepSize())| ==> e in keyring && |keyring[e]| <= limit
      ensures forall e: nat :: e + 1 < |Chunks(sealed, StepSize())| ==> |keyring[e]| == limit
      ensures ok <==> CutsNoCharacter(sealed, StepSize())
      ensures Survives(sealed, StepSize()) ==> ReadFrom(keyring, 0) == Some(sealed)
    {
      hide Survives, Chunks, ReadFrom, IsCharBoundary, Left, CutsNoCharacter;
      var stepSize := StepSize();
      var i := 0;
      ghost var n := 0;
      ghost var all := Chunks(sealed, stepSize);
      StoringStarts(sealed, stepSize, keyring, all);
      while i < |sealed|
        invariant Valid() && i == n * stepSize && n <= |entries| && n <= |all|
        invariant all[n..] == Chunks(Left(sealed, i), stepSize)
        invariant CutsNoCharacter(sealed, stepSize) <==> CutsNoCharacter(Left(sealed, i), stepSize)
        invariant keyring == old(keyring) + Written(all[..n])
        decreases |sealed| - i
      {
        Quotient(n, stepSize);
        NextChunk(sealed, i, stepSize, all, n);
        var entry := GetNextEntry(i / stepSize);
        var cutoff := i + stepSize;
        if cutoff <= |sealed| {
          if !IsCharBoundary(sealed, cutoff) {
            StoringEnds(sealed, stepSize, old(keyring), all, n);
            return false;
          }
          var part := sealed[i..cutoff] + CONTINUE_MARKER;
          keyring := keyring[entry := part];
        } else {
          keyring := keyring[entry := sealed[i..]];
        }
        WrittenNext(old(keyring), all, n);
        NextMultiple(n, stepSize);
        i := cutoff;
        n := n + 1;
      }
      NothingLeft(sealed, i, stepSize);
      StoringEnds(sealed, stepSize, old(keyring), all, n);
      return true;
    }

    /**
     * Whether or not it gets to the end, nothing can be read afterwards; it does when every entry
     * that was open, or that reading opened, is there.
     */
    method Clear() returns (ok: bool)
      requires Valid()
      modifies this
      ensures Valid() && ReadFrom(keyring, 0) == None
      ensures forall k :: k in keyring ==> k in old(keyring) && keyring[k] == old(keyring[k])
      ensures old(ReadFrom(keyring, 0)).None? ==> !ok
      ensures ok <==> forall k: nat :: k < |old(entries)| || Chained(old(keyring), k) ==> k in old(keyring)
      ensures ok ==> entries == [] && forall k: nat ::
                       k in keyring <==> k in old(keyring) && k >= |old(entries)| && !Chained(old(keyring), k)
      ensures !ok ==> exists missing: nat :: IsFirstMissing(old(keyring), missing) &&
                                             forall k :: k in keyring <==> k in old(keyring) && k > missing
    {
      hide Chained;
      var _ := Read();
      ghost var all := entries;
      assert forall k: nat :: k < |all| <==> k < |old(entries)| || Chained(old(keyring), k);
      var i := 0;
      while i < |entries|
        invariant Valid() && i <= |entries| && |entries| > 0
        invariant forall k :: k in keyring <==> k in old(keyring) && k >= i
        invariant forall k :: k in keyring ==> keyring[k] == old(keyring[k])
        invariant forall k: nat :: k < i ==> k in old(keyring)
        invariant entries == all
      {
        if entries[i] !in keyring {
          assert Chained(old(keyring), i) || i < |old(entries)|;
          assert IsFirstMissing(old(keyring), i);
          return false;
        }
        keyring := keyring - {entries[i]};
        i := i + 1;
      }
      entries := [];
      return true;
    }
  }

  lemma StoringStarts(s: Password, step: nat, keyring: map<nat, Password>, all: seq<Password>)
    requires step > 0
    ensures Left(s, 0) == s && all[0..] == all && keyring == keyring + Written(all[..0])
  {
  }

  lemma NothingLeft(s: Password, i: nat, step: nat)
    requires i >= |s| && step > 0
    ensures Chunks(Left(s, i), step) == [] && CutsNoCharacter(Left(s, i), step)
  {
  }

  lemma StoringEnds(s: Password, step: nat, stale: map<nat, Password>, all: seq<Password>, n: nat)
    requires step > 0 && all == Chunks(s, step) && n == |all|
    ensures all[..n] == all
    ensures Survives(s, step) ==> ReadFrom(stale + Written(all), 0) == Some(s)
    ensures forall e: nat :: e < |all| ==>
              e in stale + Written(all) && |(stale + Written(all))[e]| <= step + |CONTINUE_MARKER|
    ensures forall e: nat :: e + 1 < |all| ==> |(stale + Written(all))[e]| == step + |CONTINUE_MARKER|
  {
    hide Survives, Chunks;
    ReadAfterStore(s, step);
    ChunksFit(s, step);
  }

  lemma NextMultiple(n: nat, step: nat)
    ensures (n + 1) * step == n * step + step
  {
  }

  lemma Quotient(n: nat, step: nat)
    requires step > 0
    ensures n * step / step == n
  {
    Division(n * step, n, 0, step);
  }
}
