/** Bytes as numbers and as bit vectors. */
module ByteBits {

  lemma ByteOfBits(b: int)
    requires 0 <= b < 256
    ensures (b as bv8) as int == b
  {
    if b < 128 {
    } else {
    }
  }

  lemma BitsOfByte(b: bv8)
    ensures (b as int) as bv8 == b
  {
  }

  lemma OrTopBit(b: bv8)
    ensures (b | 0x80) as int == if b as int < 128 then b as int + 128 else b as int
  {
  }
}

/** Fixed-width integers, byte strings and the few byte-string operations that
    several components of the app share. */
module Bytes {

  type byte = x: int | 0 <= x < 0x100
  type u16 = x: int | 0 <= x < 0x1_0000
  type u64 = x: int | 0 <= x < 0x1_0000_0000_0000_0000

  datatype Option<+T> = None | Some(value: T)

  function Zeros(n: nat): (z: seq<byte>)
    ensures |z| == n
    ensures forall i :: 0 <= i < n ==> z[i] == 0
  {
    seq(n, _ => 0)
  }

  /** Concatenation of a list of byte strings. */
  function Flatten(parts: seq<seq<byte>>): seq<byte> {
    if parts == [] then [] else parts[0] + Flatten(parts[1..])
  }

  lemma {:induction false} FlattenAppend(a: seq<seq<byte>>, b: seq<seq<byte>>)
    ensures Flatten(a + b) == Flatten(a) + Flatten(b)
  {
    if a == [] {
      assert a + b == b;
    } else {
      assert (a + b)[1..] == a[1..] + b;
      FlattenAppend(a[1..], b);
    }
  }

  lemma FlattenSnoc(a: seq<seq<byte>>, x: seq<byte>)
    ensures Flatten(a + [x]) == Flatten(a) + x
  {
    FlattenAppend(a, [x]);
    assert Flatten([x]) == x + Flatten([]);
  }

  // ----- text ----------------------------------------------------------------

  /** The bytes of a text in ASCII. */
  function Ascii(s: string): (t: seq<byte>)
    ensures |t| == |s|
    ensures forall i :: 0 <= i < |s| && s[i] as int < 256 ==> t[i] == s[i] as int
  {
    seq(|s|, i requires 0 <= i < |s| => s[i] as int % 256)
  }

  // ----- big-endian numbers ------------------------------------------------

  function Pow256(k: nat): (p: nat)
    ensures p >= 1
  {
    if k == 0 then 1 else 256 * Pow256(k - 1)
  }

  /** The k low-order base-256 digits of n, most significant first. */
  function BigEndian(n: nat, k: nat): (s: seq<byte>)
    ensures |s| == k
  {
    seq(k, i requires 0 <= i < k => n / Pow256(k - 1 - i) % 256)
  }

  function FromBigEndian(s: seq<byte>): nat {
    if s == [] then 0 else FromBigEndian(s[..|s| - 1]) * 256 + s[|s| - 1]
  }

  lemma PowerStep(k: nat)
    ensures Pow256(0) == 1 && Pow256(k + 1) == 256 * Pow256(k)
  {
  }

  /** The first byte is the most significant one. */
  lemma {:induction false} FirstByteCountsMost(s: seq<byte>)
    requires s != []
    ensures FromBigEndian(s) == s[0] * Pow256(|s| - 1) + FromBigEndian(s[1..])
    decreases |s|
  {
    hide Pow256;
    if |s| == 1 {
      assert s[..0] == [] && s[1..] == [];
      PowerStep(0);
    } else {
      var front, n := s[..|s| - 1], |s| - 2;
      FirstByteCountsMost(front);
      assert s[1..][..n] == front[1..];
      assert FromBigEndian(s[1..]) == FromBigEndian(front[1..]) * 256 + s[|s| - 1];
      PowerStep(n);
      Shifted(s[0], Pow256(n), FromBigEndian(front[1..]));
    }
  }

  lemma Shifted(a: nat, p: nat, r: nat)
    ensures (a * p + r) * 256 == a * (256 * p) + r * 256
  {
  }

  lemma DivideTwice(n: nat, p: nat)
    requires p >= 1
    ensures n / 256 / p == n / (256 * p)
  {
    var q := n / 256 / p;
    var r: int := n - 256 * p * q;
    assert n / 256 == p * q + n / 256 % p;
    assert r == 256 * (n / 256 % p) + n % 256 && 0 <= r < 256 * p;
    DivideUnique(n, 256 * p, q, r);
  }

  lemma SmallMultiple(d: int, x: int)
    requires -d < d * x < d
    ensures x == 0
  {
  }

  lemma DivideUnique(n: nat, d: nat, q: nat, r: nat)
    requires n == d * q + r && r < d
    ensures n / d == q
  {
    assert n == d * (n / d) + n % d;
    assert d * (n / d - q) == d * (n / d) - d * q;
    SmallMultiple(d, n / d - q);
  }

  lemma BigEndianSnoc(n: nat, k: nat)
    requires k > 0
    ensures BigEndian(n, k) == BigEndian(n / 256, k - 1) + [n % 256]
  {
    assert Pow256(0) == 1;
    forall i | 0 <= i < k - 1 ensures BigEndian(n, k)[i] == BigEndian(n / 256, k - 1)[i] {
      assert Pow256(k - 1 - i) == 256 * Pow256(k - 2 - i);
      DivideTwice(n, Pow256(k - 2 - i));
    }
  }

  /** Reading back k digits of n gives n, as long as n has at most k digits. */
  lemma {:induction false} BigEndianRoundTrip(n: nat, k: nat)
    requires n < Pow256(k)
    ensures FromBigEndian(BigEndian(n, k)) == n
  {
    if k > 0 {
      BigEndianRoundTrip(n / 256, k - 1);
      BigEndianSnoc(n, k);
    }
  }

  lemma {:induction false} BigEndianSplit(n: nat, a: nat, b: nat, high: nat)
    requires high == n / Pow256(b)
    ensures BigEndian(n, a + b) == BigEndian(high, a) + BigEndian(n, b)
    decreases b
  {
    if b == 0 {
      assert n / 1 == n && BigEndian(n, 0) == [];
    } else {
      DivideTwice(n, Pow256(b - 1));
      BigEndianSnoc(n, a + b);
      BigEndianSplit(n / 256, a, b - 1, high);
      BigEndianSnoc(n, b);
    }
  }

  lemma RemainderAndQuotient(n: nat, p: nat)
    requires p >= 1
    ensures n % (256 * p) / 256 == n / 256 % p
    ensures n % (256 * p) % 256 == n % 256
  {
    var q := n / 256 / p;
    var r := n / 256 % p;
    assert n / 256 == p * q + r;
    assert n == (256 * p) * q + (256 * r + n % 256) by {
      assert 256 * (p * q + r) == (256 * p) * q + 256 * r;
    }
    RemainderUnique(n, 256 * p, q, 256 * r + n % 256);
  }

  lemma RemainderUnique(n: nat, d: nat, q: nat, r: nat)
    requires n == d * q + r && r < d
    ensures n % d == r
  {
    DivideUnique(n, d, q, r);
    assert n == d * (n / d) + n % d;
  }

  /** Only the k low-order digits matter. */
  lemma {:induction false} BigEndianLow(n: nat, k: nat)
    ensures BigEndian(n % Pow256(k), k) == BigEndian(n, k)
  {
    if k > 0 {
      RemainderAndQuotient(n, Pow256(k - 1));
      BigEndianSnoc(n, k);
      BigEndianSnoc(n % Pow256(k), k);
      BigEndianLow(n / 256, k - 1);
    }
  }

  // ----- decimal numerals --------------------------------------------------

  /** What "%d" prints for a non-negative number (ASCII). */
  function Decimal(n: nat): (s: seq<byte>)
    ensures |s| >= 1
    ensures forall i :: 0 <= i < |s| ==> 48 <= s[i] <= 57
  {
    if n < 10 then [48 + n] else Decimal(n / 10) + [48 + n % 10]
  }

  /** The number that a numeral denotes, its first digit being the most significant. */
  function FromDecimal(s: seq<byte>): int {
    if s == [] then 0 else FromDecimal(s[..|s| - 1]) * 10 + (s[|s| - 1] as int - 48)
  }

  lemma {:induction false} DecimalRoundTrip(n: nat)
    ensures FromDecimal(Decimal(n)) == n
    ensures n > 0 ==> Decimal(n)[0] != 48
  {
    var s := Decimal(n);
    if n < 10 {
      assert s[..0] == [];
    } else {
      assert s[..|s| - 1] == Decimal(n / 10);
      DecimalRoundTrip(n / 10);
    }
  }

  lemma DecimalInjective(m: nat, n: nat)
    requires Decimal(m) == Decimal(n)
    ensures m == n
  {
    DecimalRoundTrip(m);
    DecimalRoundTrip(n);
  }

  lemma DecimalStep(n: nat)
    requires n >= 10
    ensures |Decimal(n)| == |Decimal(n / 10)| + 1
  {
  }

  /** A 16-bit number prints in at most five digits. */
  lemma DecimalOfU16IsShort(n: u16)
    ensures |Decimal(n)| <= 5
  {
    if n >= 10 {
      DecimalStep(n);
      if n / 10 >= 10 {
        DecimalStep(n / 10);
        if n / 100 >= 10 {
          assert n / 10 / 10 == n / 100;
          DecimalStep(n / 100);
          if n / 1000 >= 10 {
            assert n / 100 / 10 == n / 1000;
            DecimalStep(n / 1000);
            assert n / 1000 / 10 == n / 10000 < 10;
          }
        }
      }
    }
  }
}
