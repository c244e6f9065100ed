/** Unpadded base64url (app/src/b64url.c): the one-pass bit-carry encoder against the
    24-bit groups of section 4 of RFC 4648 with the alphabet of section 5. */
module Base64Url {
  import opened Bytes
  import ByteBits

  // The alphabet of RFC 4648 section 5, sixteen characters a row.
  function Row(r: nat): (row: string)
    requires r < 4
    ensures |row| == 16
  {
    if r == 0 then "ABCDEFGHIJKLMNOP"
    else if r == 1 then "QRSTUVWXYZabcdef"
    else if r == 2 then "ghijklmnopqrstuv"
    else "wxyz0123456789-_"
  }

  /** b64url_charset[i] */
  function Charset(i: nat): char
    requires i < 64
  {
    Row(i / 16)[i % 16]
  }

  type sextet = bv6

  // ----- specification: section 4 of RFC 4648 ------------------------------

  /** A 24-bit input group, seen as four 6-bit groups. */
  function Group(a: bv8, b: bv8, c: bv8): (s: seq<sextet>)
    ensures |s| == 4
  {
    var g: bv24 := (a as bv24 << 16) | (b as bv24 << 8) | (c as bv24);
    [((g >> 18) & 0x3F) as sextet, ((g >> 12) & 0x3F) as sextet,
     ((g >> 6) & 0x3F) as sextet, (g & 0x3F) as sextet]
  }

  /** Groups from left to right; a final short group is completed with zero bits and
      only the 6-bit groups that hold input bits are kept (no padding, section 3.2). */
  function Sextets(s: seq<bv8>): seq<sextet> {
    if |s| == 0 then []
    else if |s| == 1 then Group(s[0], 0, 0)[..2]
    else if |s| == 2 then Group(s[0], s[1], 0)[..3]
    else Group(s[0], s[1], s[2]) + Sextets(s[3..])
  }

  function Bits(s: seq<byte>): (v: seq<bv8>)
    ensures |v| == |s|
    ensures forall i :: 0 <= i < |s| ==> v[i] == s[i] as bv8
  {
    seq(|s|, i requires 0 <= i < |s| => s[i] as bv8)
  }

  function Chars(s: seq<sextet>): (t: string)
    ensures |t| == |s|
    ensures forall i :: 0 <= i < |s| ==> t[i] == Charset(s[i] as int)
  {
    seq(|s|, i requires 0 <= i < |s| => Charset(s[i] as int))
  }

  /** The encoding of a byte string. */
  function Encode(s: seq<byte>): string {
    Chars(Sextets(Bits(s)))
  }

  // ----- decoding ----------------------------------------------------------

  /** The index of a character of the alphabet. */
  function IndexOf(c: char): (i: Option<nat>)
    ensures i.Some? ==> i.value < 64
  {
    if 'A' <= c <= 'Z' then Some(c as int - 65)
    else if 'a' <= c <= 'z' then Some(c as int - 71)
    else if '0' <= c <= '9' then Some(c as int + 4)
    else if c == '-' then Some(62)
    else if c == '_' then Some(63)
    else None
  }

  predicate InAlphabet(t: string) {
    forall i :: 0 <= i < |t| ==> IndexOf(t[i]).Some?
  }

  function Indices(t: string): (x: seq<sextet>)
    requires InAlphabet(t)
    ensures |x| == |t|
  {
    seq(|t|, i requires 0 <= i < |t| => IndexOf(t[i]).value as sextet)
  }

  function Ungroup(s: seq<sextet>): seq<bv8>
    requires |s| == 4
  {
    var g: bv24 := (s[0] as bv24 << 18) | (s[1] as bv24 << 12) | (s[2] as bv24 << 6) | (s[3] as bv24);
    [((g >> 16) & 0xFF) as bv8, ((g >> 8) & 0xFF) as bv8, (g & 0xFF) as bv8]
  }

  function Unsextets(s: seq<sextet>): seq<bv8> {
    if |s| < 2 then []
    else if |s| == 2 then Ungroup(s + [0, 0])[..1]
    else if |s| == 3 then Ungroup(s + [0])[..2]
    else Ungroup(s[..4]) + Unsextets(s[4..])
  }

  /** No result: a character outside the alphabet. */
  function Decode(t: string): Option<seq<byte>> {
    if !InAlphabet(t) then None
    else
      var v := Unsextets(Indices(t));
      Some(seq(|v|, i requires 0 <= i < |v| => v[i] as byte))
  }

  lemma IndexInRow0(i: nat)
    requires i < 16
    ensures IndexOf(Row(0)[i]) == Some(i)
  {
  }

  lemma IndexInRow1(i: nat)
    requires i < 16
    ensures IndexOf(Row(1)[i]) == Some(16 + i)
  {
  }

  lemma IndexInRow2(i: nat)
    requires i < 16
    ensures IndexOf(Row(2)[i]) == Some(32 + i)
  {
  }

  lemma IndexInRow3(i: nat)
    requires i < 16
    ensures IndexOf(Row(3)[i]) == Some(48 + i)
  {
  }

  /** Every table entry is found again at its own index. */
  lemma IndexOfChar(i: nat)
    requires i < 64
    ensures IndexOf(Charset(i)) == Some(i)
  {
    hide IndexOf, Row;
    match i / 16 {
      case 0 => IndexInRow0(i % 16);
      case 1 => IndexInRow1(i % 16);
      case 2 => IndexInRow2(i % 16);
      case _ => IndexInRow3(i % 16);
    }
  }

  // ----- round trip and length ----------------------------------------------

  lemma UngroupGroup(a: bv8, b: bv8, c: bv8)
    ensures Ungroup(Group(a, b, c)) == [a, b, c]
  {
  }

  lemma ShortGroups(a: bv8, b: bv8)
    ensures Group(a, 0, 0)[..2] + [0, 0] == Group(a, 0, 0)
    ensures Group(a, b, 0)[..3] + [0] == Group(a, b, 0)
  {
  }

  lemma {:induction false} UnsextetsSextets(v: seq<bv8>)
    ensures Unsextets(Sextets(v)) == v
  {
    if |v| == 1 {
      ShortGroups(v[0], 0);
      UngroupGroup(v[0], 0, 0);
    } else if |v| == 2 {
      ShortGroups(v[0], v[1]);
      UngroupGroup(v[0], v[1], 0);
    } else if |v| > 2 {
      UngroupGroup(v[0], v[1], v[2]);
      UnsextetsSextets(v[3..]);
      var g := Group(v[0], v[1], v[2]);
      assert (g + Sextets(v[3..]))[..4] == g && (g + Sextets(v[3..]))[4..] == Sextets(v[3..]);
    }
  }

  /** Every character of an encoding is in the alphabet, and its index is its 6-bit group. */
  lemma EncodingIndices(s: seq<byte>)
    ensures InAlphabet(Encode(s)) && Indices(Encode(s)) == Sextets(Bits(s))
  {
    hide Sextets, IndexOf, Charset;
    var x := Sextets(Bits(s));
    forall i | 0 <= i < |x| ensures IndexOf(Encode(s)[i]) == Some(x[i] as int) {
      IndexOfChar(x[i] as int);
    }
    assert Indices(Encode(s)) == x;
  }

  /** That is: a letter, a digit, '-' or '_'. */
  lemma EncodingCharacters(s: seq<byte>, i: nat)
    requires i < |Encode(s)|
    ensures var c := Encode(s)[i];
            'A' <= c <= 'Z' || 'a' <= c <= 'z' || '0' <= c <= '9' || c == '-' || c == '_'
  {
    hide Encode;
    EncodingIndices(s);
  }

  /** Decoding recovers every byte string exactly. */
  lemma RoundTrip(s: seq<byte>)
    ensures Decode(Encode(s)) == Some(s)
  {
    hide Encode, Sextets;
    EncodingIndices(s);
    UnsextetsSextets(Bits(s));
    var v := Bits(s);
    forall i | 0 <= i < |s| ensures v[i] as byte == s[i] {
      ByteBits.ByteOfBits(s[i]);
    }
    assert seq(|v|, i requires 0 <= i < |v| => v[i] as byte) == s;
  }

  lemma Injective(s: seq<byte>, t: seq<byte>)
    requires Encode(s) == Encode(t)
    ensures s == t
  {
    RoundTrip(s);
    RoundTrip(t);
  }

  lemma RowIsAscii(r: nat, i: nat)
    requires r < 4 && i < 16
    ensures 0 < Row(r)[i] as int < 128
  {
  }

  lemma EncodingIsAscii(s: seq<byte>)
    ensures forall i :: 0 <= i < |Encode(s)| ==> 0 < Encode(s)[i] as int < 128
  {
    hide Row, Sextets;
    forall i | 0 <= i < |Encode(s)| ensures 0 < Encode(s)[i] as int < 128 {
      var x := Sextets(Bits(s))[i] as int;
      RowIsAscii(x / 16, x % 16);
    }
  }

  // ----- the encoding as a number -------------------------------------------

  function Val8(b: bv8): nat {
    b as int
  }

  function Val6(x: sextet): nat {
    x as int
  }

  /** Byte strings and index strings read as numbers behind `acc`, first digit first. */
  function Bytes256(acc: nat, v: seq<bv8>): nat
    decreases |v|
  {
    if v == [] then acc else Bytes256(acc * 256 + Val8(v[0]), v[1..])
  }

  function Digits64(acc: nat, x: seq<sextet>): nat
    decreases |x|
  {
    if x == [] then acc else Digits64(acc * 64 + Val6(x[0]), x[1..])
  }

  // The bits of a byte on both sides of a cut, and of a 6-bit group that spans two bytes.
  lemma CutAt2(a: bv8)
    ensures Val8(a) == 4 * Val8(a >> 2) + Val8(a & 0x3)
  {
  }

  lemma CutAt4(a: bv8)
    ensures Val8(a) == 16 * Val8(a >> 4) + Val8(a & 0xF)
  {
  }

  lemma CutAt6(a: bv8)
    ensures Val8(a) == 64 * Val8(a >> 6) + Val8(a & 0x3F)
  {
  }

  lemma Spanning(a: bv8, b: bv8)
    ensures Val8(((a & 0x3) << 4) | (b >> 4)) == 16 * Val8(a & 0x3) + Val8(b >> 4)
    ensures Val8(((a & 0xF) << 2) | (b >> 6)) == 4 * Val8(a & 0xF) + Val8(b >> 6)
  {
  }

  lemma GroupParts(a: bv8, b: bv8, c: bv8)
    ensures var g := Group(a, b, c);
            && g[0] as bv8 == a >> 2 && g[1] as bv8 == ((a & 0x3) << 4) | (b >> 4)
            && g[2] as bv8 == ((b & 0xF) << 2) | (c >> 6) && g[3] as bv8 == c & 0x3F
  {
  }

  lemma Widened(x: sextet)
    ensures Val8(x as bv8) == Val6(x)
  {
  }

  lemma GroupNumber(a: bv8, b: bv8, c: bv8)
    ensures var g := Group(a, b, c);
            Val6(g[0]) * 0x4_0000 + Val6(g[1]) * 0x1000 + Val6(g[2]) * 64 + Val6(g[3])
            == Val8(a) * 0x1_0000 + Val8(b) * 256 + Val8(c)
  {
    hide Group, Val8, Val6;
    var g := Group(a, b, c);
    GroupParts(a, b, c);
    Widened(g[0]);
    Widened(g[1]);
    Widened(g[2]);
    Widened(g[3]);
    Spanning(a, b);
    Spanning(b, c);
    CutAt2(a);
    CutAt4(b);
    CutAt6(c);
  }

  lemma DigitStep(acc: nat, d: sextet, x: seq<sextet>)
    ensures Digits64(acc, [d] + x) == Digits64(acc * 64 + Val6(d), x)
  {
    assert ([d] + x)[1..] == x;
  }

  lemma ByteStep(acc: nat, b: bv8, v: seq<bv8>)
    ensures Bytes256(acc, [b] + v) == Bytes256(acc * 256 + Val8(b), v)
  {
    assert ([b] + v)[1..] == v;
  }

  lemma FourDigits(acc: nat, g: seq<sextet>, rest: seq<sextet>)
    requires |g| == 4
    ensures Digits64(acc, g + rest)
         == Digits64(acc * 0x100_0000 + Val6(g[0]) * 0x4_0000 + Val6(g[1]) * 0x1000 + Val6(g[2]) * 64 + Val6(g[3]),
                     rest)
  {
    hide Digits64, Val6;
    var x3 := [g[3]] + rest;
    var x2 := [g[2]] + x3;
    var x1 := [g[1]] + x2;
    assert g + rest == [g[0]] + x1;
    var a1 := acc * 64 + Val6(g[0]);
    var a2 := a1 * 64 + Val6(g[1]);
    var a3 := a2 * 64 + Val6(g[2]);
    DigitStep(acc, g[0], x1);
    DigitStep(a1, g[1], x2);
    DigitStep(a2, g[2], x3);
    DigitStep(a3, g[3], rest);
  }

  lemma ThreeBytes(acc: nat, v: seq<bv8>)
    requires |v| >= 3
    ensures Bytes256(acc, v)
         == Bytes256(acc * 0x100_0000 + Val8(v[0]) * 0x1_0000 + Val8(v[1]) * 256 + Val8(v[2]), v[3..])
  {
    hide Bytes256, Val8;
    var v2 := [v[2]] + v[3..];
    var v1 := [v[1]] + v2;
    assert v == [v[0]] + v1;
    var a1 := acc * 256 + Val8(v[0]);
    var a2 := a1 * 256 + Val8(v[1]);
    ByteStep(acc, v[0], v1);
    ByteStep(a1, v[1], v2);
    ByteStep(a2, v[2], v[3..]);
  }

  /** The unused bits of the last group, as a factor. */
  function Unused(n: nat): nat {
    if n % 3 == 0 then 1 else if n % 3 == 1 then 16 else 4
  }

  lemma {:induction false} SextetsNumber(acc: nat, v: seq<bv8>)
    ensures Digits64(acc, Sextets(v)) == Bytes256(acc, v) * Unused(|v|)
    decreases |v|
  {
    hide Group, Val8, Val6, Bytes256, Digits64;
    if |v| == 0 {
      Nothing(acc);
    } else if |v| == 1 {
      OneByte(acc, v);
    } else if |v| == 2 {
      TwoBytes(acc, v);
    } else {
      GroupNumber(v[0], v[1], v[2]);
      FourDigits(acc, Group(v[0], v[1], v[2]), Sextets(v[3..]));
      ThreeBytes(acc, v);
      SextetsNumber(acc * 0x100_0000 + Val8(v[0]) * 0x1_0000 + Val8(v[1]) * 256 + Val8(v[2]), v[3..]);
      assert Unused(|v|) == Unused(|v[3..]|);
    }
  }

  lemma Nothing(acc: nat)
    ensures Digits64(acc, []) == Bytes256(acc, []) == acc
  {
  }

  // A short last group is a whole one whose missing digits are zero.
  lemma OneByte(acc: nat, v: seq<bv8>)
    requires |v| == 1
    ensures Digits64(acc, Sextets(v)) == Bytes256(acc, v) * 16
  {
    hide Group, Val8, Val6;
    var g := Group(v[0], 0, 0);
    GroupNumber(v[0], 0, 0);
    LastGroup(v[0], 0);
    assert v == [v[0]] + [] && Sextets(v) == [g[0]] + ([g[1]] + []);
    ByteStep(acc, v[0], []);
    DigitStep(acc, g[0], [g[1]] + []);
    DigitStep(acc * 64 + Val6(g[0]), g[1], []);
  }

  lemma TwoBytes(acc: nat, v: seq<bv8>)
    requires |v| == 2
    ensures Digits64(acc, Sextets(v)) == Bytes256(acc, v) * 4
  {
    hide Group, Val8, Val6;
    var g := Group(v[0], v[1], 0);
    GroupNumber(v[0], v[1], 0);
    LastGroup(v[0], v[1]);
    assert v == [v[0]] + ([v[1]] + []) && Sextets(v) == [g[0]] + ([g[1]] + ([g[2]] + []));
    ByteStep(acc, v[0], [v[1]] + []);
    ByteStep(acc * 256 + Val8(v[0]), v[1], []);
    var a1 := acc * 64 + Val6(g[0]);
    DigitStep(acc, g[0], [g[1]] + ([g[2]] + []));
    DigitStep(a1, g[1], [g[2]] + []);
    DigitStep(a1 * 64 + Val6(g[1]), g[2], []);
  }

  lemma LastGroup(a: bv8, b: bv8)
    ensures Group(a, b, 0)[3] == 0 && Group(a, 0, 0)[2] == 0 && Group(a, 0, 0)[3] == 0 && Val6(0) == Val8(0) == 0
  {
  }

  lemma {:induction false} BytesSnoc(acc: nat, v: seq<bv8>, b: bv8)
    ensures Bytes256(acc, v + [b]) == Bytes256(acc, v) * 256 + Val8(b)
    decreases |v|
  {
    if v == [] {
      assert (v + [b])[1..] == [];
    } else {
      assert (v + [b])[1..] == v[1..] + [b];
      BytesSnoc(acc * 256 + Val8(v[0]), v[1..], b);
    }
  }

  lemma ByteValue(b: byte)
    ensures Val8(b as bv8) == b
  {
    ByteBits.ByteOfBits(b);
  }

  lemma BitsSnoc(s: seq<byte>, b: byte)
    ensures Bits(s + [b]) == Bits(s) + [b as bv8]
  {
  }

  lemma {:induction false} BytesNumber(s: seq<byte>)
    ensures Bytes256(0, Bits(s)) == FromBigEndian(s)
  {
    hide Val8, Bits, Bytes256;
    if s == [] {
      NoBits();
    } else {
      var front, b := s[..|s| - 1], s[|s| - 1];
      BytesNumber(front);
      assert s == front + [b];
      BitsSnoc(front, b);
      BytesSnoc(0, Bits(front), b as bv8);
      ByteValue(b);
    }
  }

  lemma NoBits()
    ensures Bytes256(0, Bits([])) == 0
  {
  }

  /** The text read as a number in base 64 is the input read as a number in base 256, with the
      unused bits of the last group behind it. */
  lemma EncodedNumber(s: seq<byte>)
    ensures InAlphabet(Encode(s))
    ensures Digits64(0, Indices(Encode(s))) == FromBigEndian(s) * Unused(|s|)
  {
    hide Encode;
    EncodingIndices(s);
    SextetsNumber(0, Bits(s));
    BytesNumber(s);
  }

  /** Number of characters of the encoding of n bytes. */
  function EncodedLength(n: nat): nat {
    n + n / 3 + if n % 3 != 0 then 1 else 0
  }

  lemma {:induction false} SextetsLength(v: seq<bv8>)
    ensures |Sextets(v)| == EncodedLength(|v|)
  {
    if |v| > 2 { SextetsLength(v[3..]); }
  }

  /** The encoding has as many characters as six-bit groups are needed for its bits. */
  lemma LengthIsExact(s: seq<byte>)
    ensures |Encode(s)| == EncodedLength(|s|)
    ensures 6 * (|Encode(s)| - 1) < 8 * |s| <= 6 * |Encode(s)| || s == []
  {
    SextetsLength(Bits(s));
  }

  // ----- the bit-carry loop ---------------------------------------------------

  lemma {:induction false} SextetsAppend(v: seq<bv8>, w: seq<bv8>)
    requires |v| % 3 == 0
    ensures Sextets(v + w) == Sextets(v) + Sextets(w)
  {
    if v == [] {
      assert v + w == w;
    } else {
      assert (v + w)[3..] == v[3..] + w;
      SextetsAppend(v[3..], w);
    }
  }

  /** The groups of v that are already determined whatever follows v. */
  function Settled(v: seq<bv8>): seq<sextet> {
    var x := Sextets(v);
    SextetsLength(v);
    if |v| % 3 == 0 then x else x[..|x| - 1]
  }

  /** The loop variables carry exactly the bits of v that are not in a settled group. */
  predicate Carries(v: seq<bv8>, count: nat, value: bv8) {
    && count == 2 * (|v| % 3)
    && (count == 0 ==> value == 0)
    && (count == 2 ==> value == v[|v| - 1] & 3)
    && (count == 4 ==> value == v[|v| - 1] & 15)
  }

  lemma SettledFacts(v: seq<bv8>)
    ensures |Sextets(v)| == EncodedLength(|v|)
    ensures |Settled(v)| == |v| + |v| / 3
    ensures |v| % 3 == 0 ==> Settled(v) == Sextets(v) && Carries(v, 0, 0)
    ensures Settled([]) == [] && Carries([], 0, 0)
  {
    SextetsLength(v);
  }

  // Where the bits of each byte end up, group by group.
  lemma GroupBits(a: bv8, b: bv8, c: bv8)
    ensures Group(a, b, c)[0] == (a >> 2) as sextet
    ensures Group(a, b, c)[1] == (((a & 3) << 4) | (b >> 4)) as sextet
    ensures Group(a, b, c)[2] == (((b & 15) << 2) | (c >> 6)) as sextet
    ensures Group(a, b, c)[3] == (c & 63) as sextet
  {
  }

  /** The last, possibly incomplete, group of v. */
  lemma SextetsTail(v: seq<bv8>, n: nat)
    requires n < |v| <= n + 3 && n % 3 == 0
    ensures |v| == n + 1 ==> Sextets(v) == Sextets(v[..n]) + Group(v[n], 0, 0)[..2]
    ensures |v| == n + 2 ==> Sextets(v) == Sextets(v[..n]) + Group(v[n], v[n + 1], 0)[..3]
    ensures |v| == n + 3 ==> Sextets(v) == Sextets(v[..n]) + Group(v[n], v[n + 1], v[n + 2])
  {
    hide Group;
    assert v == v[..n] + v[n..];
    SextetsAppend(v[..n], v[n..]);
    if |v| == n + 3 {
      assert v[n..][3..] == [];
    }
  }

  // The index and the new carry that one turn of the loop computes from a byte.
  function NextIndex(c: bv8, count: nat, value: bv8): bv8
    requires count <= 6
  {
    (value << (6 - count)) | (c >> (count + 2))
  }

  function NextCarry(c: bv8, count: nat): bv8
    requires count <= 6
  {
    c & (0xFF >> (6 - count))
  }

  // The index of the character written after the loop.
  function LastIndex(count: nat, value: bv8): bv8
    requires count <= 6
  {
    value << (6 - count)
  }

  // The shifts of the loop body, in each of the three carry states.
  lemma TurnBits0(c: bv8)
    ensures NextIndex(c, 0, 0) == c >> 2 < 64
    ensures NextCarry(c, 0) == c & 3 < 64
  {
  }

  lemma TurnBits2(last: bv8, c: bv8)
    ensures NextIndex(c, 2, last & 3) == ((last & 3) << 4) | (c >> 4) < 64
    ensures NextCarry(c, 2) == c & 15 < 64
  {
  }

  lemma TurnBits4(last: bv8, c: bv8)
    ensures NextIndex(c, 4, last & 15) == ((last & 15) << 2) | (c >> 6) < 64
    ensures NextCarry(c, 4) == c & 63 < 64
  {
  }

  // What one more byte settles, when it is the first, second or third of its group.
  lemma FirstOfGroup(v: seq<bv8>, c: bv8)
    requires |v| % 3 == 0
    ensures Settled(v + [c]) == Settled(v) + [(c >> 2) as sextet]
  {
    hide Group, Sextets;
    SextetsTail(v + [c], |v|);
    assert (v + [c])[..|v|] == v;
    GroupBits(c, 0, 0);
  }

  lemma SecondOfGroup(v: seq<bv8>, c: bv8)
    requires |v| % 3 == 1
    ensures Settled(v + [c]) == Settled(v) + [(((v[|v| - 1] & 3) << 4) | (c >> 4)) as sextet]
  {
    hide Group, Sextets;
    var n := |v| - 1;
    SextetsTail(v, n);
    SextetsTail(v + [c], n);
    assert (v + [c])[..n] == v[..n];
    GroupBits(v[n], 0, 0);
    GroupBits(v[n], c, 0);
  }

  lemma ThirdOfGroup(v: seq<bv8>, c: bv8)
    requires |v| % 3 == 2
    ensures Settled(v + [c])
         == Settled(v) + [(((v[|v| - 1] & 15) << 2) | (c >> 6)) as sextet, (c & 63) as sextet]
  {
    hide Group, Sextets;
    var n := |v| - 2;
    SextetsTail(v, n);
    SextetsTail(v + [c], n);
    assert (v + [c])[..n] == v[..n];
    GroupBits(v[n], v[n + 1], 0);
    GroupBits(v[n], v[n + 1], c);
  }

  /** One turn of the loop: the first character written, the new carry, and the second
      character when three bytes are complete. */
  lemma Turn(v: seq<bv8>, c: bv8, count: nat, value: bv8, idx: bv8, carry: bv8)
    requires Carries(v, count, value)
    requires idx == NextIndex(c, count, value) && carry == NextCarry(c, count)
    ensures idx < 64 && carry < 64
    ensures count < 4 ==> Settled(v + [c]) == Settled(v) + [idx as sextet]
    ensures count == 4 ==> Settled(v + [c]) == Settled(v) + [idx as sextet, carry as sextet]
    ensures count < 4 ==> Carries(v + [c], count + 2, carry)
  {
    hide Settled, NextIndex, NextCarry;
    if count == 0 {
      TurnBits0(c);
      FirstOfGroup(v, c);
    } else if count == 2 {
      TurnBits2(v[|v| - 1], c);
      SecondOfGroup(v, c);
    } else {
      TurnBits4(v[|v| - 1], c);
      ThirdOfGroup(v, c);
    }
  }

  /** The character written at the end is the last, incomplete group. */
  lemma LastTurn(v: seq<bv8>, count: nat, value: bv8)
    requires Carries(v, count, value) && count > 0
    ensures LastIndex(count, value) < 64
    ensures Sextets(v) == Settled(v) + [LastIndex(count, value) as sextet]
  {
    hide Group, Sextets;
    SextetsLength(v);
    var n := |v| - |v| % 3;
    SextetsTail(v, n);
    GroupBits(v[n], if count == 2 then 0 else v[n + 1], 0);
  }

  // The character of a table index computed in eight bits.
  lemma CharOfIndex(x: sextet, idx: bv8)
    requires idx < 64 && x == idx as sextet
    ensures idx as int < 64 && Chars([x]) == [Charset(idx as int)]
  {
    assert x as int == idx as int;
  }

  lemma CharsAppend(a: seq<sextet>, b: seq<sextet>)
    ensures Chars(a + b) == Chars(a) + Chars(b)
  {
  }

  /** What holds of the loop variables after i bytes, with `text` written so far. */
  ghost predicate Progress(v: seq<bv8>, i: nat, count: nat, value: bv8, text: string) {
    && i <= |v|
    && count == 2 * (i % 3)
    && Carries(v[..i], count, value)
    && |text| == i + i / 3
    && text == Chars(Settled(v[..i]))
  }

  lemma ProgressStart(v: seq<bv8>)
    ensures Progress(v, 0, 0, 0, "")
  {
    SettledFacts([]);
    assert v[..0] == [];
  }

  lemma ProgressStep(v: seq<bv8>, i: nat, count: nat, value: bv8, text: string)
    requires i < |v| && Progress(v, i, count, value, text)
    ensures count <= 4
    ensures var idx, carry := NextIndex(v[i], count, value), NextCarry(v[i], count);
            && idx as int < 64 && carry as int < 64
            && (count < 4 ==> Progress(v, i + 1, count + 2, carry, text + [Charset(idx as int)]))
            && (count == 4 ==>
                  Progress(v, i + 1, 0, 0, text + [Charset(idx as int)] + [Charset(carry as int)]))
  {
    hide Settled, Carries, NextIndex, NextCarry;
    var idx, carry := NextIndex(v[i], count, value), NextCarry(v[i], count);
    Turn(v[..i], v[i], count, value, idx, carry);
    assert v[..i + 1] == v[..i] + [v[i]];
    SettledFacts(v[..i + 1]);
    CharOfIndex(idx as sextet, idx);
    CharOfIndex(carry as sextet, carry);
    CharsAppend(Settled(v[..i]), [idx as sextet]);
    CharsAppend(Settled(v[..i]) + [idx as sextet], [carry as sextet]);
    assert Settled(v[..i]) + [idx as sextet] + [carry as sextet]
        == Settled(v[..i]) + [idx as sextet, carry as sextet];
  }

  lemma ProgressEnd(v: seq<bv8>, count: nat, value: bv8, text: string)
    requires Progress(v, |v|, count, value, text)
    ensures count <= 4
    ensures count == 0 ==> text == Chars(Sextets(v))
    ensures count > 0 ==>
              var idx := LastIndex(count, value);
              idx as int < 64 && text + [Charset(idx as int)] == Chars(Sextets(v))
  {
    hide Settled, Carries, Sextets, LastIndex;
    assert v[..|v|] == v;
    SettledFacts(v);
    if count > 0 {
      LastTurn(v, count, value);
      var idx := LastIndex(count, value);
      CharOfIndex(idx as sextet, idx);
      CharsAppend(Settled(v), [idx as sextet]);
    }
  }

  /** b64url_encode. Null pointers and a buffer that is too small give 0; otherwise the
      characters of the encoding are at the front of the buffer, the rest is cleared, and
      the result is their number (which is 0 exactly for the empty input). */
  method EncodeInto(output: array?<char>, input: Option<seq<byte>>) returns (written: u16)
    requires output != null ==> output.Length < 0x1_0000
    requires input.Some? ==> |input.value| < 0x1_0000
    modifies output
    ensures output == null || input.None? ==> written == 0
    ensures output != null && input.None? ==> output[..] == old(output[..])
    ensures output != null && input.Some? ==>
              var text := Encode(input.value);
              if EncodedLength(|input.value|) <= output.Length then
                && written == |text| == EncodedLength(|input.value|)
                && output[..written] == text
                && forall i :: written <= i < output.Length ==> output[i] == '\0'
              else
                && written == 0
                && forall i :: 0 <= i < output.Length ==> output[i] == '\0'
  {
    if output == null || input.None? {
      return 0;
    }
    var data := input.value;
    LengthIsExact(data);
    forall i | 0 <= i < output.Length {
      output[i] := '\0';
    }
    var minspace := |data| / 3;
    if |data| % 3 != 0 { minspace := minspace + 1; }
    var minimumBufferSize := |data| + minspace;
    if minimumBufferSize > output.Length {
      return 0;
    }
    written := CarryLoop(output, data);
  }

  /** The encoding loop, once the output is known to fit. */
  method CarryLoop(output: array<char>, data: seq<byte>) returns (outIdx: nat)
    requires EncodedLength(|data|) <= output.Length
    modifies output
    ensures outIdx == EncodedLength(|data|) && output[..outIdx] == Encode(data)
    ensures forall i :: outIdx <= i < output.Length ==> output[i] == old(output[i])
  {
    hide Sextets, Progress, NextIndex, NextCarry, LastIndex, Charset;
    ghost var v := Bits(data);
    ghost var text := "";
    SextetsLength(v);
    ProgressStart(v);
    var carryCount: nat := 0;
    var carryValue: bv8 := 0;
    outIdx := 0;
    for i := 0 to |data|
      invariant Progress(v, i, carryCount, carryValue, text)
      invariant carryCount == 2 * (i % 3) && outIdx == i + i / 3
      invariant output[..outIdx] == text
      invariant forall k :: outIdx <= k < output.Length ==> output[k] == old(output[k])
    {
      var c := data[i] as bv8;
      ProgressStep(v, i, carryCount, carryValue, text);
      var idx := NextIndex(c, carryCount, carryValue);
      carryValue := NextCarry(c, carryCount);
      carryCount := carryCount + 2;

      outIdx, text := Put(output, outIdx, idx, text);

      // after three bytes the carried bits are a character of their own
      if carryCount == 6 {
        outIdx, text := Put(output, outIdx, carryValue, text);
        carryValue := 0;
        carryCount := 0;
      }
    }

    ProgressEnd(v, carryCount, carryValue, text);
    if carryCount > 0 {
      outIdx, text := Put(output, outIdx, LastIndex(carryCount, carryValue), text);
    }
  }

  /** out[out_idx++] = b64url_charset[idx] */
  method Put(output: array<char>, outIdx: nat, idx: bv8, ghost text: string) returns (next: nat, ghost text': string)
    requires outIdx < output.Length && idx as int < 64
    requires output[..outIdx] == text
    modifies output
    ensures next == outIdx + 1 && text' == text + [Charset(idx as int)]
    ensures output[..next] == text'
    ensures forall k :: next <= k < output.Length ==> output[k] == old(output[k])
  {
    output[outIdx] := Charset(idx as int);
    next, text' := outIdx + 1, text + [Charset(idx as int)];
  }
}
