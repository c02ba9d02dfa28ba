/** Base64url segments as the credential decoder reads them: a lenient decoder followed by the demand that encoding the
    result again gives back the segment (sections 3.5 and 5 of RFC 4648). */
module Base64Url {
  import opened Wrappers

  type Byte = n: int | 0 <= n < 256
  type Sextet = n: int | 0 <= n < 64

  const DOT: Byte := 46
  const PAD: Byte := 61

  function CharOf(v: Sextet): (b: Byte)
    ensures InAlphabet(b) && SextetOf(b) == v
  {
    if v < 26 then 65 + v
    else if v < 52 then 97 + (v - 26)
    else if v < 62 then 48 + (v - 52)
    else if v == 62 then 45 else 95
  }

  predicate InAlphabet(b: Byte) {
    65 <= b <= 90 || 97 <= b <= 122 || 48 <= b <= 57 || b == 45 || b == 95
  }

  function SextetOf(b: Byte): (v: Sextet)
    requires InAlphabet(b)
  {
    if 65 <= b <= 90 then b - 65
    else if 97 <= b <= 122 then 26 + (b - 97)
    else if 48 <= b <= 57 then 52 + (b - 48)
    else if b == 45 then 62 else 63
  }

  /** The URL alphabet of section 5 of RFC 4648: each digit is written by the character at its place. */
  const ALPHABET := "ABCDEFGHIJKLMNOPQRSTUVWXYZ" + "abcdefghijklmnopqrstuvwxyz" + "0123456789" + "-_"

  lemma CharAtPlace(v: Sextet)
    ensures |ALPHABET| == 64 && ALPHABET[v] as int == CharOf(v)
  {
    var upper, lower, tens := "ABCDEFGHIJKLMNOPQRSTUVWXYZ", "abcdefghijklmnopqrstuvwxyz", "0123456789";
    if v < 26 {
      assert ALPHABET[v] == upper[v];
    } else if v < 52 {
      assert ALPHABET[v] == lower[v - 26];
    } else if v < 62 {
      assert ALPHABET[v] == tens[v - 52];
    }
  }

  lemma CharOfSextet(b: Byte)
    requires InAlphabet(b)
    ensures CharOf(SextetOf(b)) == b
  {
  }

  predicate AllInAlphabet(s: seq<Byte>) { forall i | 0 <= i < |s| :: InAlphabet(s[i]) }

  // ---------------------------------------------------------------- encoding

  function Group(a: Byte, b: Byte, c: Byte): (g: seq<Byte>)
    ensures |g| == 4 && AllInAlphabet(g)
  {
    [CharOf(a / 4), CharOf(a % 4 * 16 + b / 16), CharOf(b % 16 * 4 + c / 64), CharOf(c % 64)]
  }

  /** `urlsafe_b64encode`, with its padding. */
  function EncodePadded(v: seq<Byte>): seq<Byte> {
    if |v| == 0 then []
    else if |v| == 1 then [CharOf(v[0] / 4), CharOf(v[0] % 4 * 16), PAD, PAD]
    else if |v| == 2 then [CharOf(v[0] / 4), CharOf(v[0] % 4 * 16 + v[1] / 16), CharOf(v[1] % 16 * 4), PAD]
    else Group(v[0], v[1], v[2]) + EncodePadded(v[3..])
  }

  function StripPadding(s: seq<Byte>): seq<Byte> {
    if |s| > 0 && s[|s| - 1] == PAD then StripPadding(s[..|s| - 1]) else s
  }

  /** The canonical spelling of a byte string. */
  function Encode(v: seq<Byte>): (s: seq<Byte>)
    ensures AllInAlphabet(s) && |s| == (4 * |v| + 2) / 3
  {
    if |v| == 0 then []
    else if |v| == 1 then [CharOf(v[0] / 4), CharOf(v[0] % 4 * 16)]
    else if |v| == 2 then [CharOf(v[0] / 4), CharOf(v[0] % 4 * 16 + v[1] / 16), CharOf(v[1] % 16 * 4)]
    else Group(v[0], v[1], v[2]) + Encode(v[3..])
  }

  function Padding(n: nat): seq<Byte> {
    if n % 3 == 1 then [PAD, PAD] else if n % 3 == 2 then [PAD] else []
  }

  lemma OneIsPadded(a: Byte)
    ensures EncodePadded([a]) == Encode([a]) + [PAD, PAD]
  {
    hide CharOf;
  }

  lemma TwoIsPadded(a: Byte, b: Byte)
    ensures EncodePadded([a, b]) == Encode([a, b]) + [PAD]
  {
    hide CharOf;
  }

  lemma ShortIsPadded(v: seq<Byte>)
    requires |v| < 3
    ensures EncodePadded(v) == Encode(v) + Padding(|v|)
  {
    if |v| == 0 {
    } else if |v| == 1 {
      hide EncodePadded, Encode;
      OneIsPadded(v[0]);
      assert v == [v[0]];
    } else {
      hide EncodePadded, Encode;
      TwoIsPadded(v[0], v[1]);
      assert v == [v[0], v[1]];
    }
  }

  lemma EncodePaddedFirst(v: seq<Byte>)
    requires |v| >= 3
    ensures EncodePadded(v) == Group(v[0], v[1], v[2]) + EncodePadded(v[3..])
  {
    hide CharOf, Group, InAlphabet;
  }

  lemma EncodeFirst(v: seq<Byte>)
    requires |v| >= 3
    ensures Encode(v) == Group(v[0], v[1], v[2]) + Encode(v[3..])
  {
    hide CharOf, Group, InAlphabet;
  }

  lemma PaddingOfRest(n: nat)
    requires n >= 3
    ensures Padding(n) == Padding(n - 3)
  {
    assert n % 3 == (n - 3) % 3;
  }

  lemma {:induction false} EncodeIsPadded(v: seq<Byte>)
    ensures EncodePadded(v) == Encode(v) + Padding(|v|)
    decreases |v|
  {
    hide *;
    if |v| < 3 {
      ShortIsPadded(v);
    } else {
      EncodePaddedFirst(v);
      EncodeFirst(v);
      PaddingOfRest(|v|);
      EncodeIsPadded(v[3..]);
      Associative(Group(v[0], v[1], v[2]), Encode(v[3..]), Padding(|v|));
    }
  }

  lemma Associative(a: seq<Byte>, b: seq<Byte>, c: seq<Byte>)
    ensures a + (b + c) == a + b + c
  {
  }

  lemma {:induction false} StripPads(s: seq<Byte>, n: nat)
    requires AllInAlphabet(s)
    ensures StripPadding(s + Padding(n)) == s
  {
    assert |s| > 0 ==> InAlphabet(s[|s| - 1]);
    assert StripPadding(s) == s;
    assert (s + [PAD])[..|s|] == s;
    assert StripPadding(s + [PAD]) == s;
    assert (s + [PAD, PAD])[..|s| + 1] == s + [PAD];
    assert s + [] == s;
  }

  lemma StrippedIsEncode(v: seq<Byte>)
    ensures StripPadding(EncodePadded(v)) == Encode(v)
  {
    EncodeIsPadded(v);
    StripPads(Encode(v), |v|);
  }

  // ---------------------------------------------------------------- decoding

  function Ungroup(a: Sextet, b: Sextet, c: Sextet, d: Sextet): (g: seq<Byte>)
    ensures |g| == 3
  {
    [a * 4 + b / 16, b % 16 * 16 + c / 4, c % 4 * 64 + d]
  }

  /** `b64decode` of the segment padded to a multiple of four: the bits left over at the end are dropped. */
  function LenientDecode(s: seq<Byte>): (v: Option<seq<Byte>>)
    requires AllInAlphabet(s)
    ensures v.Some? <==> |s| % 4 != 1
    decreases |s|
  {
    if |s| == 0 then Some([])
    else if |s| == 1 then None
    else if |s| == 2 then Some([SextetOf(s[0]) * 4 + SextetOf(s[1]) / 16])
    else if |s| == 3 then
      Some([SextetOf(s[0]) * 4 + SextetOf(s[1]) / 16, SextetOf(s[1]) % 16 * 16 + SextetOf(s[2]) / 4])
    else
      match LenientDecode(s[4..])
      case None => None
      case Some(rest) => Some(Ungroup(SextetOf(s[0]), SextetOf(s[1]), SextetOf(s[2]), SextetOf(s[3])) + rest)
  }

  /** One segment of a credential: bounds, alphabet, lenient decoding, and the re-encoding check. */
  function DecodeSegment(s: seq<Byte>, maximum: nat): Option<seq<Byte>> {
    if !(1 <= |s| <= maximum) || !AllInAlphabet(s) then None
    else
      match LenientDecode(s)
      case None => None
      case Some(v) => if StripPadding(EncodePadded(v)) == s then Some(v) else None
  }

  /** Splitting a byte over two sextets and joining it again. */
  lemma TwoToOne(a: Byte, low: Sextet)
    requires low < 16
    ensures 0 <= a / 4 < 64 && 0 <= a % 4 * 16 + low < 64
    ensures a / 4 * 4 + (a % 4 * 16 + low) / 16 == a && (a % 4 * 16 + low) % 16 == low
  {
  }

  lemma ThreeToTwo(b: Byte, low: Sextet)
    requires low < 4
    ensures 0 <= b % 16 * 4 + low < 64
    ensures b / 16 * 16 + (b % 16 * 4 + low) / 4 == b && (b % 16 * 4 + low) % 4 == low
  {
  }

  lemma GroupRoundTrip(a: Byte, b: Byte, c: Byte)
    ensures var g := Group(a, b, c);
            Ungroup(SextetOf(g[0]), SextetOf(g[1]), SextetOf(g[2]), SextetOf(g[3])) == [a, b, c]
  {
    TwoToOne(a, b / 16);
    ThreeToTwo(b, c / 64);
    hide CharOf, SextetOf, InAlphabet;
    assert c / 64 * 64 + c % 64 == c;
  }

  lemma DecodeOne(a: Byte)
    ensures LenientDecode(Encode([a])) == Some([a])
  {
    TwoToOne(a, 0);
    hide CharOf, SextetOf;
    assert Encode([a]) == [CharOf(a / 4), CharOf(a % 4 * 16)];
  }

  lemma DecodeTwo(a: Byte, b: Byte)
    ensures LenientDecode(Encode([a, b])) == Some([a, b])
  {
    TwoToOne(a, b / 16);
    ThreeToTwo(b, 0);
    hide CharOf, SextetOf;
    assert Encode([a, b]) == [CharOf(a / 4), CharOf(a % 4 * 16 + b / 16), CharOf(b % 16 * 4)];
  }

  lemma DecodeGroup(g: seq<Byte>, s: seq<Byte>)
    requires |g| == 4 && AllInAlphabet(g) && AllInAlphabet(s) && |s| % 4 != 1
    ensures AllInAlphabet(g + s)
    ensures LenientDecode(g + s) ==
            Some(Ungroup(SextetOf(g[0]), SextetOf(g[1]), SextetOf(g[2]), SextetOf(g[3])) + LenientDecode(s).value)
  {
    hide SextetOf, InAlphabet, Ungroup;
    assert (g + s)[4..] == s;
  }

  lemma {:induction false} DecodeUndoesEncode(v: seq<Byte>)
    ensures LenientDecode(Encode(v)) == Some(v)
    decreases |v|
  {
    hide CharOf, SextetOf, InAlphabet, Group, Ungroup;
    if |v| == 1 {
      DecodeOne(v[0]);
      assert v == [v[0]];
    } else if |v| == 2 {
      DecodeTwo(v[0], v[1]);
      assert v == [v[0], v[1]];
    } else if |v| >= 3 {
      DecodeUndoesEncode(v[3..]);
      GroupRoundTrip(v[0], v[1], v[2]);
      DecodeGroup(Group(v[0], v[1], v[2]), Encode(v[3..]));
      assert v == [v[0], v[1], v[2]] + v[3..];
    }
  }

  /** The decoder accepts exactly what encoding gives for the non-empty byte strings that fit the bound, and decodes it
      to them. */
  lemma SegmentIsEncoding(s: seq<Byte>, maximum: nat, v: seq<Byte>)
    ensures DecodeSegment(s, maximum) == Some(v) <==> v != [] && s == Encode(v) && |s| <= maximum
  {
    StrippedIsEncode(v);
    if v != [] && s == Encode(v) && |s| <= maximum {
      DecodeUndoesEncode(v);
    }
  }

  predicate NoStrayBits(s: seq<Byte>)
    requires AllInAlphabet(s)
  {
    && (|s| % 4 == 2 ==> SextetOf(s[|s| - 1]) % 16 == 0)
    && (|s| % 4 == 3 ==> SextetOf(s[|s| - 1]) % 4 == 0)
  }

  /** Splitting two sextets over a byte and the next byte's high bits, and joining them again. */
  lemma OneToTwo(w: Sextet, x: Sextet)
    ensures 0 <= w * 4 + x / 16 < 256 && (w * 4 + x / 16) / 4 == w && (w * 4 + x / 16) % 4 == x / 16
  {
  }

  lemma TwoToThree(x: Sextet, y: Sextet)
    ensures 0 <= x % 16 * 16 + y / 4 < 256
    ensures (x % 16 * 16 + y / 4) / 16 == x % 16 && (x % 16 * 16 + y / 4) % 16 == y / 4
  {
  }

  lemma ThreeToFour(y: Sextet, z: Sextet)
    ensures 0 <= y % 4 * 64 + z < 256
    ensures y / 4 * 4 + (y % 4 * 64 + z) / 64 == y && (y % 4 * 64 + z) % 64 == z
  {
  }

  lemma UngroupRoundTrip(w: Sextet, x: Sextet, y: Sextet, z: Sextet)
    ensures var u := Ungroup(w, x, y, z); Group(u[0], u[1], u[2]) == [CharOf(w), CharOf(x), CharOf(y), CharOf(z)]
  {
    var a, b, c := w * 4 + x / 16, x % 16 * 16 + y / 4, y % 4 * 64 + z;
    OneToTwo(w, x);
    TwoToThree(x, y);
    ThreeToFour(y, z);
    assert a % 4 * 16 + b / 16 == x && b % 16 * 4 + c / 64 == y;
    assert Ungroup(w, x, y, z) == [a, b, c];
    hide CharOf, Ungroup;
  }

  lemma CharsOfGroup(g: seq<Byte>)
    requires |g| == 4 && AllInAlphabet(g)
    ensures var u := Ungroup(SextetOf(g[0]), SextetOf(g[1]), SextetOf(g[2]), SextetOf(g[3]));
            Group(u[0], u[1], u[2]) == g
  {
    UngroupRoundTrip(SextetOf(g[0]), SextetOf(g[1]), SextetOf(g[2]), SextetOf(g[3]));
    CharOfSextet(g[0]);
    CharOfSextet(g[1]);
    CharOfSextet(g[2]);
    CharOfSextet(g[3]);
    hide CharOf, SextetOf, InAlphabet, Group, Ungroup;
  }

  lemma ReencodeTwo(p: Byte, q: Byte)
    requires InAlphabet(p) && InAlphabet(q)
    ensures Encode([SextetOf(p) * 4 + SextetOf(q) / 16]) == [p, q] <==> SextetOf(q) % 16 == 0
  {
    CharOfSextet(p);
    CharOfSextet(q);
    OneToTwo(SextetOf(p), SextetOf(q));
    hide CharOf, SextetOf, InAlphabet;
    var kept: Sextet := SextetOf(q) / 16 * 16;
    assert SextetOf(CharOf(kept)) == kept;
    assert Encode([SextetOf(p) * 4 + SextetOf(q) / 16]) == [p, CharOf(kept)];
    assert [p, CharOf(kept)][1] == CharOf(kept) && [p, q][1] == q;
  }

  lemma EncodeTwo(a: Byte, b: Byte)
    ensures Encode([a, b]) == [CharOf(a / 4), CharOf(a % 4 * 16 + b / 16), CharOf(b % 16 * 4)]
  {
    hide CharOf;
  }

  lemma CharsOfTwo(x: Sextet, y: Sextet, z: Sextet)
    ensures Encode([x * 4 + y / 16, y % 16 * 16 + z / 4]) == [CharOf(x), CharOf(y), CharOf(z / 4 * 4)]
  {
    hide CharOf, Encode;
    var a, b := x * 4 + y / 16, y % 16 * 16 + z / 4;
    OneToTwo(x, y);
    TwoToThree(y, z);
    EncodeTwo(a, b);
    assert a % 4 * 16 + b / 16 == y;
  }

  lemma ReencodeThree(p: Byte, q: Byte, r: Byte)
    requires InAlphabet(p) && InAlphabet(q) && InAlphabet(r)
    ensures Encode([SextetOf(p) * 4 + SextetOf(q) / 16, SextetOf(q) % 16 * 16 + SextetOf(r) / 4]) == [p, q, r] <==>
            SextetOf(r) % 4 == 0
  {
    CharOfSextet(p);
    CharOfSextet(q);
    CharOfSextet(r);
    CharsOfTwo(SextetOf(p), SextetOf(q), SextetOf(r));
    hide CharOf, SextetOf, InAlphabet, Encode;
    var kept: Sextet := SextetOf(r) / 4 * 4;
    assert SextetOf(CharOf(kept)) == kept;
    assert [p, q, CharOf(kept)][2] == CharOf(kept) && [p, q, r][2] == r;
  }

  lemma EncodeGroup(u: seq<Byte>, rest: seq<Byte>)
    requires |u| == 3
    ensures Encode(u + rest) == Group(u[0], u[1], u[2]) + Encode(rest)
  {
    hide CharOf, Group;
    assert (u + rest)[3..] == rest;
  }

  lemma ReencodeGroup(g: seq<Byte>, t: seq<Byte>)
    requires |g| == 4 && AllInAlphabet(g) && AllInAlphabet(t) && |t| % 4 != 1
    ensures AllInAlphabet(g + t)
    ensures Encode(LenientDecode(g + t).value) == g + t <==> Encode(LenientDecode(t).value) == t
  {
    hide CharOf, SextetOf, InAlphabet, Group, Ungroup, Encode, LenientDecode;
    DecodeGroup(g, t);
    CharsOfGroup(g);
    var rest := LenientDecode(t).value;
    EncodeGroup(Ungroup(SextetOf(g[0]), SextetOf(g[1]), SextetOf(g[2]), SextetOf(g[3])), rest);
    assert (g + Encode(rest))[4..] == Encode(rest) && (g + t)[4..] == t;
  }

  lemma DecodeShort(s: seq<Byte>)
    requires AllInAlphabet(s) && 2 <= |s| < 4
    ensures LenientDecode(s).value ==
            [SextetOf(s[0]) * 4 + SextetOf(s[1]) / 16]
            + (if |s| == 2 then [] else [SextetOf(s[1]) % 16 * 16 + SextetOf(s[2]) / 4])
  {
    hide SextetOf, InAlphabet;
  }

  lemma ReencodeShort(s: seq<Byte>)
    requires AllInAlphabet(s) && |s| < 4 && |s| != 1
    ensures Encode(LenientDecode(s).value) == s <==> NoStrayBits(s)
  {
    hide CharOf, SextetOf, InAlphabet, LenientDecode, Encode;
    if |s| == 0 {
      EncodeEmpty();
      assert s == [];
    } else if |s| == 2 {
      DecodeShort(s);
      ReencodeTwo(s[0], s[1]);
      assert s == [s[0], s[1]];
      assert LenientDecode(s).value == [SextetOf(s[0]) * 4 + SextetOf(s[1]) / 16];
    } else {
      DecodeShort(s);
      ReencodeThree(s[0], s[1], s[2]);
      assert s == [s[0], s[1], s[2]];
      assert LenientDecode(s).value ==
             [SextetOf(s[0]) * 4 + SextetOf(s[1]) / 16, SextetOf(s[1]) % 16 * 16 + SextetOf(s[2]) / 4];
    }
  }

  lemma EncodeEmpty()
    ensures LenientDecode([]) == Some([]) && Encode([]) == []
  {
  }

  lemma StrayBitsOfTail(s: seq<Byte>)
    requires AllInAlphabet(s) && |s| >= 4 && |s| % 4 != 1
    ensures NoStrayBits(s) <==> NoStrayBits(s[4..])
  {
    hide SextetOf, InAlphabet;
    assert |s[4..]| % 4 == |s| % 4;
  }

  lemma {:induction false} ReencodesIffNoStrayBits(s: seq<Byte>)
    requires AllInAlphabet(s) && |s| % 4 != 1
    ensures Encode(LenientDecode(s).value) == s <==> NoStrayBits(s)
    decreases |s|
  {
    hide CharOf, SextetOf, InAlphabet, Group, Ungroup, Encode, LenientDecode, NoStrayBits;
    if |s| < 4 {
      ReencodeShort(s);
    } else {
      ReencodesIffNoStrayBits(s[4..]);
      ReencodeGroup(s[..4], s[4..]);
      StrayBitsOfTail(s);
      assert s == s[..4] + s[4..];
    }
  }

  /** The number that digits write in a base, the most significant first, after the number `acc`. */
  function Number(base: nat, acc: nat, digits: seq<nat>): nat
    decreases |digits|
  {
    if digits == [] then acc else Number(base, acc * base + digits[0], digits[1..])
  }

  /** The number that a spelling writes, by the sextets of its characters. */
  function NumberSpelt(acc: nat, s: seq<Byte>): nat
    requires AllInAlphabet(s)
    decreases |s|
  {
    if s == [] then acc else NumberSpelt(acc * 64 + SextetOf(s[0]), s[1..])
  }

  lemma NumberCons(acc: nat, a: Byte, v: seq<Byte>)
    ensures Number(256, acc, [a] + v) == Number(256, acc * 256 + a, v)
  {
    assert ([a] + v)[1..] == v;
  }

  lemma SpeltCons(acc: nat, a: Byte, s: seq<Byte>)
    requires InAlphabet(a) && AllInAlphabet(s)
    ensures AllInAlphabet([a] + s) && NumberSpelt(acc, [a] + s) == NumberSpelt(acc * 64 + SextetOf(a), s)
  {
    hide SextetOf, InAlphabet;
    assert ([a] + s)[1..] == s;
  }

  /** What the zero bits at the end of a spelling multiply its number by. */
  function Padded(n: nat): nat {
    if n % 3 == 1 then 16 else if n % 3 == 2 then 4 else 1
  }

  /** Four characters write the same 24 bits as the three bytes they stand for. */
  lemma GroupNumber(acc: nat, a: Byte, b: Byte, c: Byte)
    ensures var g := Group(a, b, c);
            (((acc * 64 + SextetOf(g[0])) * 64 + SextetOf(g[1])) * 64 + SextetOf(g[2])) * 64 + SextetOf(g[3]) ==
            ((acc * 256 + a) * 256 + b) * 256 + c
  {
    hide CharOf, SextetOf, InAlphabet;
    assert a == a / 4 * 4 + a % 4 && b == b / 16 * 16 + b % 16 && c == c / 64 * 64 + c % 64;
  }

  lemma SpeltGroup(acc: nat, g: seq<Byte>, s: seq<Byte>)
    requires |g| == 4 && AllInAlphabet(g) && AllInAlphabet(s)
    ensures AllInAlphabet(g + s)
    ensures var n := (((acc * 64 + SextetOf(g[0])) * 64 + SextetOf(g[1])) * 64 + SextetOf(g[2])) * 64 + SextetOf(g[3]);
            NumberSpelt(acc, g + s) == NumberSpelt(n, s)
  {
    hide NumberSpelt, SextetOf, InAlphabet;
    var n1 := acc * 64 + SextetOf(g[0]);
    var n2 := n1 * 64 + SextetOf(g[1]);
    var n3 := n2 * 64 + SextetOf(g[2]);
    SpeltCons(n3, g[3], s);
    SpeltCons(n2, g[2], [g[3]] + s);
    SpeltCons(n1, g[1], [g[2]] + ([g[3]] + s));
    SpeltCons(acc, g[0], [g[1]] + ([g[2]] + ([g[3]] + s)));
    assert g + s == [g[0]] + ([g[1]] + ([g[2]] + ([g[3]] + s)));
  }

  lemma NumberGroup(acc: nat, a: Byte, b: Byte, c: Byte, v: seq<Byte>)
    ensures Number(256, acc, [a, b, c] + v) == Number(256, ((acc * 256 + a) * 256 + b) * 256 + c, v)
  {
    hide Number;
    var n1 := acc * 256 + a;
    var n2 := n1 * 256 + b;
    NumberCons(n2, c, v);
    NumberCons(n1, b, [c] + v);
    NumberCons(acc, a, [b] + ([c] + v));
    assert [a, b, c] + v == [a] + ([b] + ([c] + v));
  }

  lemma SpellsOne(acc: nat, a: Byte)
    ensures NumberSpelt(acc, Encode([a])) == Number(256, acc, [a]) * 16
  {
    var x, y := CharOf(a / 4), CharOf(a % 4 * 16);
    assert Encode([a]) == [x] + ([y] + []);
    assert SextetOf(x) == a / 4 && SextetOf(y) == a % 4 * 16;
    assert [a] + [] == [a];
    hide CharOf, SextetOf, InAlphabet, Encode;
    SpeltCons(acc * 64 + SextetOf(x), y, []);
    SpeltCons(acc, x, [y] + []);
    NumberCons(acc, a, []);
    assert a / 4 * 4 + a % 4 == a;
  }

  lemma SpellsTwo(acc: nat, a: Byte, b: Byte)
    ensures NumberSpelt(acc, Encode([a, b])) == Number(256, acc, [a, b]) * 4
  {
    var x, y, z := CharOf(a / 4), CharOf(a % 4 * 16 + b / 16), CharOf(b % 16 * 4);
    EncodeTwo(a, b);
    assert Encode([a, b]) == [x] + ([y] + ([z] + []));
    assert [a, b] == [a] + ([b] + []);
    hide CharOf, SextetOf, InAlphabet, Encode;
    var n1 := acc * 64 + SextetOf(x);
    var n2 := n1 * 64 + SextetOf(y);
    SpeltCons(n2, z, []);
    SpeltCons(n1, y, [z] + []);
    SpeltCons(acc, x, [y] + ([z] + []));
    NumberCons(acc * 256 + a, b, []);
    NumberCons(acc, a, [b] + []);
    hide NumberSpelt, Number;
    NumberOfNone(n2 * 64 + SextetOf(z));
    NumberOfNone((acc * 256 + a) * 256 + b);
    assert a / 4 * 4 + a % 4 == a && b / 16 * 16 + b % 16 == b;
  }

  lemma NumberOfNone(acc: nat)
    ensures Number(256, acc, []) == acc && NumberSpelt(acc, []) == acc
  {
  }

  lemma {:induction false} EncodeKeepsBits(acc: nat, v: seq<Byte>)
    ensures NumberSpelt(acc, Encode(v)) == Number(256, acc, v) * Padded(|v|)
    decreases |v|
  {
    hide CharOf, SextetOf, InAlphabet, Group, NumberSpelt, Number, Encode;
    if |v| == 0 {
      EncodeEmpty();
      NumberOfNone(acc);
      assert v == [];
    } else if |v| == 1 {
      SpellsOne(acc, v[0]);
      assert v == [v[0]];
    } else if |v| == 2 {
      SpellsTwo(acc, v[0], v[1]);
      assert v == [v[0], v[1]];
    } else {
      var g := Group(v[0], v[1], v[2]);
      EncodeGroup([v[0], v[1], v[2]], v[3..]);
      assert v == [v[0], v[1], v[2]] + v[3..];
      SpeltGroup(acc, g, Encode(v[3..]));
      NumberGroup(acc, v[0], v[1], v[2], v[3..]);
      GroupNumber(acc, v[0], v[1], v[2]);
      EncodeKeepsBits(((acc * 256 + v[0]) * 256 + v[1]) * 256 + v[2], v[3..]);
      assert Padded(|v[3..]|) == Padded(|v|);
    }
  }

  // ---------------------------------------------------------------- places in the alphabet

  /** `digits` are the places in the alphabet of the characters of `s`. */
  ghost predicate Places(digits: seq<nat>, s: seq<Byte>) {
    && |digits| == |s|
    && forall i | 0 <= i < |s| :: digits[i] < |ALPHABET| && s[i] == ALPHABET[digits[i]] as int
  }

  /** They are the sextets the decoder reads. */
  lemma PlacesAreSextets(digits: seq<nat>, s: seq<Byte>)
    requires Places(digits, s)
    ensures AllInAlphabet(s) && forall i | 0 <= i < |s| :: digits[i] == SextetOf(s[i])
  {
    CharAtPlace(0);
    hide CharOf, SextetOf, InAlphabet, ALPHABET;
    forall i | 0 <= i < |s|
      ensures InAlphabet(s[i]) && digits[i] == SextetOf(s[i])
    {
      CharAtPlace(digits[i]);
      assert s[i] == CharOf(digits[i]);
    }
  }

  function Sextets(s: seq<Byte>): (d: seq<nat>)
    requires AllInAlphabet(s)
    ensures |d| == |s| && forall i | 0 <= i < |s| :: d[i] == SextetOf(s[i])
  {
    seq(|s|, i requires 0 <= i < |s| => SextetOf(s[i]))
  }

  lemma SextetsArePlaces(s: seq<Byte>)
    requires AllInAlphabet(s)
    ensures Places(Sextets(s), s)
  {
    var digits := Sextets(s);
    hide CharOf, SextetOf, InAlphabet, ALPHABET, Sextets;
    forall i | 0 <= i < |s|
      ensures digits[i] < |ALPHABET| && s[i] == ALPHABET[digits[i]] as int
    {
      CharAtPlace(digits[i]);
      CharOfSextet(s[i]);
    }
  }

  lemma {:induction false} NumberOfPlaces(acc: nat, digits: seq<nat>, s: seq<Byte>)
    requires AllInAlphabet(s) && |digits| == |s| && forall i | 0 <= i < |s| :: digits[i] == SextetOf(s[i])
    ensures Number(64, acc, digits) == NumberSpelt(acc, s)
    decreases |s|
  {
    hide SextetOf, InAlphabet;
    if s != [] {
      NumberOfPlaces(acc * 64 + digits[0], digits[1..], s[1..]);
    }
  }

  /** Digits of one length that write one number are the same digits. */
  lemma {:induction false} NumberIsInjective(a: nat, d: seq<nat>, b: nat, e: seq<nat>)
    requires |d| == |e| && (forall i | 0 <= i < |d| :: d[i] < 64 && e[i] < 64)
    requires Number(64, a, d) == Number(64, b, e)
    ensures a == b && d == e
    decreases |d|
  {
    if d != [] {
      NumberIsInjective(a * 64 + d[0], d[1..], b * 64 + e[0], e[1..]);
      assert d == [d[0]] + d[1..] && e == [e[0]] + e[1..];
    }
  }

  /** `s` writes the bits of `v`: by their places in the alphabet its characters write, in base 64, the number that the
      bytes are in base 256, with four or two zero bits after it where the length leaves one or two over a multiple of
      three. */
  ghost predicate WritesBits(s: seq<Byte>, v: seq<Byte>) {
    && |s| == (4 * |v| + 2) / 3
    && exists digits :: Places(digits, s) && Number(64, 0, digits) == Number(256, 0, v) * Padded(|v|)
  }

  /** The canonical spelling of a byte string is the one string of characters that writes its bits. */
  lemma SpellsTheSameBits(s: seq<Byte>, v: seq<Byte>)
    ensures s == Encode(v) <==> WritesBits(s, v)
  {
    var c := Encode(v);
    var d := Sextets(c);
    EncodeKeepsBits(0, v);
    hide CharOf, SextetOf, InAlphabet, ALPHABET, Encode, Number, NumberSpelt, Sextets, Padded;
    SextetsArePlaces(c);
    NumberOfPlaces(0, d, c);
    if WritesBits(s, v) {
      var digits :| Places(digits, s) && Number(64, 0, digits) == Number(256, 0, v) * Padded(|v|);
      PlacesAreSextets(digits, s);
      NumberIsInjective(0, digits, 0, d);
      SamePlacesSameText(digits, s, c);
    }
  }

  lemma SamePlacesSameText(digits: seq<nat>, s: seq<Byte>, t: seq<Byte>)
    requires Places(digits, s) && Places(digits, t)
    ensures s == t
  {
    hide ALPHABET;
  }

  /** A segment decodes to a byte string exactly if that is not empty and the segment fits the bound and writes its
      bits. */
  lemma SegmentDecodesExactly(s: seq<Byte>, maximum: nat, v: seq<Byte>)
    ensures DecodeSegment(s, maximum) == Some(v) <==> v != [] && |s| <= maximum && WritesBits(s, v)
  {
    SegmentIsEncoding(s, maximum, v);
    SpellsTheSameBits(s, v);
    hide *;
  }

  /** Which segments are accepted, read off the segment alone: its characters are in the alphabet, its length is not one
      over a multiple of four, and the bits of the last character that no byte uses are zero. */
  lemma SegmentAccepted(s: seq<Byte>, maximum: nat)
    ensures DecodeSegment(s, maximum).Some? <==>
              1 <= |s| <= maximum && |s| % 4 != 1 &&
              exists digits :: Places(digits, s)
                               && (|s| % 4 == 2 ==> digits[|s| - 1] % 16 == 0)
                               && (|s| % 4 == 3 ==> digits[|s| - 1] % 4 == 0)
  {
    AcceptedBySextets(s, maximum);
    hide DecodeSegment, SextetOf, InAlphabet, ALPHABET, Sextets;
    if AllInAlphabet(s) {
      SextetsArePlaces(s);
    }
    if digits :| Places(digits, s) {
      PlacesAreSextets(digits, s);
      assert forall other | Places(other, s) :: other == digits by {
        forall other | Places(other, s)
          ensures other == digits
        {
          PlacesAreSextets(other, s);
        }
      }
    }
  }

  lemma AcceptedBySextets(s: seq<Byte>, maximum: nat)
    ensures DecodeSegment(s, maximum).Some? <==>
              1 <= |s| <= maximum && AllInAlphabet(s) && |s| % 4 != 1 && NoStrayBits(s)
  {
    if 1 <= |s| <= maximum && AllInAlphabet(s) && |s| % 4 != 1 {
      StrippedIsEncode(LenientDecode(s).value);
      ReencodesIffNoStrayBits(s);
    }
  }
}
