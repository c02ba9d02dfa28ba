/** Compact framing of a credential: three base64url segments joined by dots (section 7.1 of RFC 7515). */
module CompactCredential {
  import opened Wrappers
  import opened Base64Url

  /** The byte bounds of one credential profile. */
  datatype Bounds = Bounds(total: nat, header: nat, payload: nat, signature: nat)

  /** The bounds of command credentials and of surface-read credentials. */
  const COMMAND_BOUNDS := Bounds(12_288, 1_024, 8_192, 1_024)
  const SURFACE_BOUNDS := Bounds(4_096, 512, 3_840, 128)

  datatype Parts = Parts(header: seq<Byte>, payload: seq<Byte>, signature: seq<Byte>)

  // ---------------------------------------------------------------- splitting at dots

  function Split(s: seq<Byte>): (parts: seq<seq<Byte>>)
    ensures |parts| >= 1
  {
    if s == [] then [[]]
    else
      var rest := Split(s[1..]);
      if s[0] == DOT then [[]] + rest else [[s[0]] + rest[0]] + rest[1..]
  }

  lemma {:induction false} SplitPiece(a: seq<Byte>, rest: seq<Byte>)
    requires DOT !in a
    ensures Split(a + [DOT] + rest) == [a] + Split(rest)
    decreases |a|
  {
    var s := a + [DOT] + rest;
    if a == [] {
      assert s[1..] == rest;
    } else {
      SplitPiece(a[1..], rest);
      assert s[1..] == a[1..] + [DOT] + rest;
      assert [a[0]] + a[1..] == a;
    }
  }

  lemma {:induction false} SplitLast(a: seq<Byte>)
    requires DOT !in a
    ensures Split(a) == [a]
    decreases |a|
  {
    if a != [] {
      SplitLast(a[1..]);
      assert [a[0]] + a[1..] == a;
    }
  }

  /** The first piece, the dot after it, and the rest. */
  lemma {:induction false} SplitFirst(s: seq<Byte>)
    ensures DOT !in Split(s)[0]
    ensures |Split(s)| == 1 ==> s == Split(s)[0]
    ensures |Split(s)| > 1 ==>
              var n := |Split(s)[0]|;
              n < |s| && s == Split(s)[0] + [DOT] + s[n + 1..] && Split(s)[1..] == Split(s[n + 1..])
    decreases |s|
  {
    if s != [] {
      SplitFirst(s[1..]);
      var rest := Split(s[1..]);
      if s[0] == DOT {
        assert s == [] + [DOT] + s[1..];
      } else if |rest| == 1 {
        assert s == [s[0]] + rest[0];
      } else {
        var m := |rest[0]|;
        assert s[1..][m + 1..] == s[m + 2..];
        assert s == [s[0]] + (rest[0] + [DOT] + s[m + 2..]);
        assert Split(s)[0] == [s[0]] + rest[0];
      }
    }
  }

  /** Three pieces with dots between them. */
  function Joined(a: seq<Byte>, b: seq<Byte>, c: seq<Byte>): seq<Byte> {
    a + ['.' as int] + (b + ['.' as int] + c)
  }

  lemma SplitInThree(s: seq<Byte>, a: seq<Byte>, b: seq<Byte>, c: seq<Byte>)
    ensures Split(s) == [a, b, c] <==> s == Joined(a, b, c) && DOT !in a && DOT !in b && DOT !in c
  {
    if s == Joined(a, b, c) && DOT !in a && DOT !in b && DOT !in c {
      SplitPiece(a, b + [DOT] + c);
      SplitPiece(b, c);
      SplitLast(c);
    }
    if Split(s) == [a, b, c] {
      SplitFirst(s);
      var t := s[|a| + 1..];
      assert Split(t) == [b, c];
      SplitFirst(t);
      var u := t[|b| + 1..];
      assert Split(u) == [c];
      SplitFirst(u);
    }
  }

  // ---------------------------------------------------------------- decoding a credential

  function Maximum(bounds: Bounds, i: nat): nat {
    if i == 0 then bounds.header else if i == 1 then bounds.payload else bounds.signature
  }

  predicate IsAscii(s: seq<Byte>) { forall i | 0 <= i < |s| :: s[i] < 128 }

  /** The segments are decoded in order; the first that is refused ends the loop. */
  method DecodeCompact(credential: seq<Byte>, bounds: Bounds) returns (r: Option<Parts>)
    ensures r == Compact(credential, bounds)
  {
    if !(1 <= |credential| <= bounds.total) || !IsAscii(credential) {
      return None;
    }
    var segments := Split(credential);
    if |segments| != 3 {
      return None;
    }
    var decoded: seq<seq<Byte>> := [];
    for i := 0 to 3
      invariant |decoded| == i
      invariant forall j | 0 <= j < i :: DecodeSegment(segments[j], Maximum(bounds, j)) == Some(decoded[j])
    {
      var value := DecodeSegment(segments[i], Maximum(bounds, i));
      if value.None? {
        return None;
      }
      decoded := decoded + [value.value];
    }
    r := Some(Parts(decoded[0], decoded[1], decoded[2]));
  }

  function Compact(credential: seq<Byte>, bounds: Bounds): Option<Parts> {
    if !(1 <= |credential| <= bounds.total) || !IsAscii(credential) then None else
    var segments := Split(credential);
    if |segments| != 3 then None else
    var h := DecodeSegment(segments[0], bounds.header);
    var p := DecodeSegment(segments[1], bounds.payload);
    var g := DecodeSegment(segments[2], bounds.signature);
    if h.Some? && p.Some? && g.Some? then Some(Parts(h.value, p.value, g.value)) else None
  }

  /** The one spelling of a triple of byte strings. */
  function Spell(parts: Parts): seq<Byte> {
    Joined(Encode(parts.header), Encode(parts.payload), Encode(parts.signature))
  }

  /** Each part is there and its spelling is within its own bound. */
  predicate SegmentsFit(parts: Parts, bounds: Bounds) {
    && parts.header != [] && parts.payload != [] && parts.signature != []
    && |Encode(parts.header)| <= bounds.header
    && |Encode(parts.payload)| <= bounds.payload
    && |Encode(parts.signature)| <= bounds.signature
  }

  predicate Fits(parts: Parts, bounds: Bounds) {
    SegmentsFit(parts, bounds) && |Spell(parts)| <= bounds.total
  }

  lemma EncodeHasNoDot(v: seq<Byte>)
    ensures DOT !in Encode(v) && IsAscii(Encode(v))
  {
    var s := Encode(v);
    forall i | 0 <= i < |s|
      ensures s[i] != DOT && s[i] < 128
    {
      assert InAlphabet(s[i]);
    }
  }

  lemma SpellingDecodes(bounds: Bounds, parts: Parts)
    requires Fits(parts, bounds)
    ensures Compact(Spell(parts), bounds) == Some(parts)
  {
    var a, b, c := Encode(parts.header), Encode(parts.payload), Encode(parts.signature);
    EncodeHasNoDot(parts.header);
    EncodeHasNoDot(parts.payload);
    EncodeHasNoDot(parts.signature);
    SplitInThree(Spell(parts), a, b, c);
    SegmentIsEncoding(a, bounds.header, parts.header);
    SegmentIsEncoding(b, bounds.payload, parts.payload);
    SegmentIsEncoding(c, bounds.signature, parts.signature);
    hide Encode, DecodeSegment, Split;
  }

  lemma DecodedIsSpelling(credential: seq<Byte>, bounds: Bounds, parts: Parts)
    requires Compact(credential, bounds) == Some(parts)
    ensures credential == Spell(parts) && Fits(parts, bounds)
  {
    hide Encode, DecodeSegment, Split;
    var segments := Split(credential);
    SegmentIsEncoding(segments[0], bounds.header, parts.header);
    SegmentIsEncoding(segments[1], bounds.payload, parts.payload);
    SegmentIsEncoding(segments[2], bounds.signature, parts.signature);
    SplitInThree(credential, segments[0], segments[1], segments[2]);
    assert segments == [segments[0], segments[1], segments[2]];
  }

  /** A credential decodes to a triple exactly if it is the spelling of that triple and the triple fits the bounds.  So
      decoding is a bijection between the accepted credentials and the triples that fit. */
  lemma CompactDecodesExactly(credential: seq<Byte>, bounds: Bounds, parts: Parts)
    ensures Compact(credential, bounds) == Some(parts) <==> credential == Spell(parts) && Fits(parts, bounds)
  {
    if Compact(credential, bounds) == Some(parts) {
      DecodedIsSpelling(credential, bounds, parts);
    }
    if credential == Spell(parts) && Fits(parts, bounds) {
      SpellingDecodes(bounds, parts);
    }
  }

  /** Changing any byte of an accepted credential changes what it decodes to, or gets it refused. */
  lemma DecodingIsInjective(c: seq<Byte>, d: seq<Byte>, bounds: Bounds)
    requires Compact(c, bounds).Some?
    ensures Compact(c, bounds) == Compact(d, bounds) <==> c == d
  {
    hide Compact, Spell, Fits;
    CompactDecodesExactly(c, bounds, Compact(c, bounds).value);
    if Compact(c, bounds) == Compact(d, bounds) {
      CompactDecodesExactly(d, bounds, Compact(c, bounds).value);
    }
  }

  // ---------------------------------------------------------------- the bound on the whole

  /** The length of the longest spelling of at most `m` characters: no spelling has length 1 modulo 4. */
  function Longest(m: nat): nat {
    if m % 4 == 1 then m - 1 else m
  }

  /** No spelling within `m` characters is longer than that, and byte strings of the right length reach it. */
  lemma LongestSpelling(m: nat, v: seq<Byte>)
    ensures |Encode(v)| <= m ==> |Encode(v)| <= Longest(m)
    ensures |v| == 3 * m / 4 ==> |Encode(v)| == Longest(m)
  {
    hide Encode;
  }

  function Zeros(n: nat): seq<Byte> { seq(n, _ => 0) }

  /** Whether the bound on the whole credential refuses one whose segments are all within theirs. */
  ghost predicate TotalBinds(bounds: Bounds) {
    exists parts: Parts :: SegmentsFit(parts, bounds) && Compact(Spell(parts), bounds).None?
  }

  /** That depends on the bounds alone: three segments of the longest spellings and two dots must pass the total. */
  lemma TotalBindsExactly(bounds: Bounds)
    ensures TotalBinds(bounds) <==>
            && bounds.header >= 2 && bounds.payload >= 2 && bounds.signature >= 2
            && Longest(bounds.header) + Longest(bounds.payload) + Longest(bounds.signature) + 2 > bounds.total
  {
    hide Encode, Compact;
    if TotalBinds(bounds) {
      var parts: Parts :| SegmentsFit(parts, bounds) && Compact(Spell(parts), bounds).None?;
      CompactDecodesExactly(Spell(parts), bounds, parts);
      LongestSpelling(bounds.header, parts.header);
      LongestSpelling(bounds.payload, parts.payload);
      LongestSpelling(bounds.signature, parts.signature);
    }
    if && bounds.header >= 2 && bounds.payload >= 2 && bounds.signature >= 2
       && Longest(bounds.header) + Longest(bounds.payload) + Longest(bounds.signature) + 2 > bounds.total
    {
      var parts := Parts(Zeros(3 * bounds.header / 4), Zeros(3 * bounds.payload / 4), Zeros(3 * bounds.signature / 4));
      LongestSpelling(bounds.header, parts.header);
      LongestSpelling(bounds.payload, parts.payload);
      LongestSpelling(bounds.signature, parts.signature);
      if Compact(Spell(parts), bounds).Some? {
        CompactDecodesExactly(Spell(parts), bounds, Compact(Spell(parts), bounds).value);
      }
    }
  }

  /** The total of a command credential never decides anything that its segments do not; that of a surface-read
      credential does. */
  lemma OnlySurfaceTotalBinds()
    ensures !TotalBinds(COMMAND_BOUNDS) && TotalBinds(SURFACE_BOUNDS)
  {
    hide TotalBinds;
    TotalBindsExactly(COMMAND_BOUNDS);
    TotalBindsExactly(SURFACE_BOUNDS);
  }
}
