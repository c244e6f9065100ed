/** What FIPS 180-4 and the engine promise about whole runs of the hash: the constants are
    the ones the standard defines, padding is injective, feeding a message in pieces makes
    no difference, and equal final states lead back to equal outputs of one compression. */
module Sha384Theorems {
  import opened Bytes
  import opened Fips180
  import opened Sha384Engine
  import opened Sha384Stream
  import opened PrimeTable

  // ----- the constants, sections 4.2.3 and 5.3.4 -------------------------------

  /** k holds the first 64 bits of the fractional part of the cube root of p: with the whole
      part n in front it is the cube root of p * 2^192 rounded down. */
  predicate CubeRootFraction(p: nat, n: nat, k: u64) {
    var r := n * TWO64 + k;
    r * r * r <= p * TWO64 * TWO64 * TWO64 < (r + 1) * (r + 1) * (r + 1)
  }

  predicate SquareRootFraction(p: nat, n: nat, k: u64) {
    var r := n * TWO64 + k;
    r * r <= p * TWO64 * TWO64 < (r + 1) * (r + 1)
  }

  /** The whole part of the cube root of a number below 512. */
  function CubeRootFloor(p: nat): nat {
    if p < 8 then 1 else if p < 27 then 2 else if p < 64 then 3 else if p < 125 then 4
    else if p < 216 then 5 else if p < 343 then 6 else 7
  }

  predicate ConstantsBetween(t: nat, end: nat)
    requires end <= ROUNDS
    decreases end - t
  {
    t >= end || (CubeRootFraction(Prime(t), CubeRootFloor(Prime(t)), K(t)) && ConstantsBetween(t + 1, end))
  }

  lemma {:induction false} ConstantAt(t: nat, end: nat, i: nat)
    requires t <= i < end <= ROUNDS && ConstantsBetween(t, end)
    ensures CubeRootFraction(Prime(i), CubeRootFloor(Prime(i)), K(i))
    decreases i - t
  {
    hide CubeRootFraction, CubeRootFloor, Prime, K;
    if t < i { ConstantAt(t + 1, end, i); }
  }

  // Four constants at a time.
  lemma Constants0()
    ensures ConstantsBetween(0, 4)
  {
  }

  lemma Constants4()
    ensures ConstantsBetween(4, 8)
  {
  }

  lemma Constants8()
    ensures ConstantsBetween(8, 12)
  {
  }

  lemma Constants12()
    ensures ConstantsBetween(12, 16)
  {
  }

  lemma Constants16()
    ensures ConstantsBetween(16, 20)
  {
  }

  lemma Constants20()
    ensures ConstantsBetween(20, 24)
  {
  }

  lemma Constants24()
    ensures ConstantsBetween(24, 28)
  {
  }

  lemma Constants28()
    ensures ConstantsBetween(28, 32)
  {
  }

  lemma Constants32()
    ensures ConstantsBetween(32, 36)
  {
  }

  lemma Constants36()
    ensures ConstantsBetween(36, 40)
  {
  }

  lemma Constants40()
    ensures ConstantsBetween(40, 44)
  {
  }

  lemma Constants44()
    ensures ConstantsBetween(44, 48)
  {
  }

  lemma Constants48()
    ensures ConstantsBetween(48, 52)
  {
  }

  lemma Constants52()
    ensures ConstantsBetween(52, 56)
  {
  }

  lemma Constants56()
    ensures ConstantsBetween(56, 60)
  {
  }

  lemma Constants60()
    ensures ConstantsBetween(60, 64)
  {
  }

  lemma Constants64()
    ensures ConstantsBetween(64, 68)
  {
  }

  lemma Constants68()
    ensures ConstantsBetween(68, 72)
  {
  }

  lemma Constants72()
    ensures ConstantsBetween(72, 76)
  {
  }

  lemma Constants76()
    ensures ConstantsBetween(76, 80)
  {
  }

  /** Section 4.2.3: the round constants are the first 64 bits of the fractional parts of
      the cube roots of the first eighty primes. */
  lemma RoundConstants(i: nat)
    requires i < ROUNDS
    ensures CubeRootFraction(Prime(i), CubeRootFloor(Prime(i)), K(i))
  {
    hide CubeRootFraction, CubeRootFloor, Prime, K, ConstantsBetween;
    match i / 4 {
      case 0 => Constants0(); ConstantAt(0, 4, i);
      case 1 => Constants4(); ConstantAt(4, 8, i);
      case 2 => Constants8(); ConstantAt(8, 12, i);
      case 3 => Constants12(); ConstantAt(12, 16, i);
      case 4 => Constants16(); ConstantAt(16, 20, i);
      case 5 => Constants20(); ConstantAt(20, 24, i);
      case 6 => Constants24(); ConstantAt(24, 28, i);
      case 7 => Constants28(); ConstantAt(28, 32, i);
      case 8 => Constants32(); ConstantAt(32, 36, i);
      case 9 => Constants36(); ConstantAt(36, 40, i);
      case 10 => Constants40(); ConstantAt(40, 44, i);
      case 11 => Constants44(); ConstantAt(44, 48, i);
      case 12 => Constants48(); ConstantAt(48, 52, i);
      case 13 => Constants52(); ConstantAt(52, 56, i);
      case 14 => Constants56(); ConstantAt(56, 60, i);
      case 15 => Constants60(); ConstantAt(60, 64, i);
      case 16 => Constants64(); ConstantAt(64, 68, i);
      case 17 => Constants68(); ConstantAt(68, 72, i);
      case 18 => Constants72(); ConstantAt(72, 76, i);
      case _ => Constants76(); ConstantAt(76, 80, i);
    }
  }

  /** Section 5.3.4: the initial hash value comes from the square roots of the ninth to the
      sixteenth prime. */
  lemma InitialValue()
    ensures IV == State(
              0xcbbb9d5dc1059ed8, 0x629a292a367cd507, 0x9159015a3070dd17, 0x152fecd8f70e5939,
              0x67332667ffc00b31, 0x8eb44a8768581511, 0xdb0c2e0d64f98fa7, 0x47b5481dbefa4fa4)
    ensures SquareRootFraction(Prime(8), 4, 0xcbbb9d5dc1059ed8)
    ensures SquareRootFraction(Prime(9), 5, 0x629a292a367cd507)
    ensures SquareRootFraction(Prime(10), 5, 0x9159015a3070dd17)
    ensures SquareRootFraction(Prime(11), 6, 0x152fecd8f70e5939)
    ensures SquareRootFraction(Prime(12), 6, 0x67332667ffc00b31)
    ensures SquareRootFraction(Prime(13), 6, 0x8eb44a8768581511)
    ensures SquareRootFraction(Prime(14), 6, 0xdb0c2e0d64f98fa7)
    ensures SquareRootFraction(Prime(15), 7, 0x47b5481dbefa4fa4)
  {
  }

  // ----- padding ---------------------------------------------------------------

  lemma PaddingEndsWithLength(msg: seq<byte>)
    requires |msg| < 0x2000_0000_0000_0000_0000_0000_0000_0000
    ensures |Pad(msg)| >= 16
    ensures FromBigEndian(Pad(msg)[|Pad(msg)| - 16..]) == 8 * |msg|
  {
    Powers();
    assert Pow256(16) == TWO128 by {
      PowerSum(8, 8);
    }
    BigEndianRoundTrip(8 * |msg|, 16);
    assert Pad(msg)[|Pad(msg)| - 16..] == BigEndian(8 * |msg|, 16);
  }

  lemma {:induction false} PowerSum(a: nat, b: nat)
    ensures Pow256(a + b) == Pow256(a) * Pow256(b)
  {
    if a > 0 {
      PowerSum(a - 1, b);
      assert 256 * (Pow256(a - 1) * Pow256(b)) == (256 * Pow256(a - 1)) * Pow256(b);
    }
  }

  /** Messages below 2^125 bytes are recovered from their padding. */
  lemma PadIsInjective(m1: seq<byte>, m2: seq<byte>)
    requires |m1| < 0x2000_0000_0000_0000_0000_0000_0000_0000
    requires |m2| < 0x2000_0000_0000_0000_0000_0000_0000_0000
    requires Pad(m1) == Pad(m2)
    ensures m1 == m2
  {
    PaddingEndsWithLength(m1);
    PaddingEndsWithLength(m2);
    assert Pad(m1)[..|m1|] == m1 && Pad(m2)[..|m2|] == m2;
  }

  // ----- streaming -------------------------------------------------------------

  lemma WordsAreDigits(lo1: u64, hi1: u64, lo2: u64, hi2: u64, n: nat)
    requires Counts(lo1, hi1, n) && Counts(lo2, hi2, n)
    ensures lo1 == lo2 && hi1 == hi2
  {
  }

  lemma WordsOfState(s: seq<Word>, t: seq<Word>)
    requires |s| == |t| == 8 && StateOf(s) == StateOf(t)
    ensures s == t
  {
  }

  /** The counter, the state and the valid part of the buffer are functions of the bytes
      fed so far, however they were cut into updates. */
  lemma SplitInvariance(lo1: u64, hi1: u64, state1: seq<Word>, buffer1: seq<byte>,
                        lo2: u64, hi2: u64, state2: seq<Word>, buffer2: seq<byte>,
                        parts1: seq<seq<byte>>, parts2: seq<seq<byte>>)
    requires Flatten(parts1) == Flatten(parts2)
    requires Represents(lo1, hi1, state1, buffer1, Flatten(parts1))
    requires Represents(lo2, hi2, state2, buffer2, Flatten(parts2))
    ensures lo1 == lo2 && hi1 == hi2 && state1 == state2
    ensures buffer1[..lo1 % 128] == buffer2[..lo1 % 128]
  {
    hide Absorb, Whole, Tail, Counts, StateOf;
    var msg := Flatten(parts1);
    WordsAreDigits(lo1, hi1, lo2, hi2, |msg|);
    CountIsPosition(lo1, hi1, |msg|);
    WordsOfState(state1, state2);
  }

  /** Any client that feeds `parts` one after the other ends in the context of their
      concatenation. */
  method UpdateAll(ctx: Context, parts: seq<seq<byte>>)
    requires ctx.Valid()
    requires forall i :: 0 <= i < |parts| ==> |parts[i]| < TWO64
    modifies ctx, ctx.state, ctx.buffer
    ensures ctx.Valid() && ctx.absorbed == old(ctx.absorbed) + Flatten(parts)
  {
    hide Represents;
    ghost var start := ctx.absorbed;
    assert parts[..0] == [] && start + Flatten([]) == start;
    for i := 0 to |parts|
      invariant ctx.Valid() && ctx.absorbed == start + Flatten(parts[..i])
    {
      ctx.Update(parts[i]);
      FlattenSnoc(parts[..i], parts[i]);
      assert parts[..i + 1] == parts[..i] + [parts[i]];
    }
    assert parts[..|parts|] == parts;
  }

  // ----- collisions of the iterated hash ---------------------------------------

  /** Hashing `data` from h applies the compression function to state s and this block. */
  ghost predicate Visits(h: State, data: seq<byte>, s: State, block: Block) {
    exists k: nat :: VisitsAt(h, data, s, block, k)
  }

  predicate VisitsAt(h: State, data: seq<byte>, s: State, block: Block, k: nat) {
    && |data| % 128 == 0 && 128 * k + 128 <= |data|
    && block == data[128 * k..128 * k + 128]
    && s == Absorb(h, data[..128 * k])
  }

  lemma LastVisit(h: State, data: seq<byte>) returns (s: State, block: Block)
    requires |data| % 128 == 0 && data != []
    ensures |data[..|data| - 128]| % 128 == 0
    ensures s == Absorb(h, data[..|data| - 128]) && block == data[|data| - 128..]
    ensures Absorb(h, data) == Compress(s, block)
    ensures Visits(h, data, s, block)
  {
    hide Absorb, Compress;
    var front := data[..|data| - 128];
    assert |front| % 128 == 0;
    s, block := Absorb(h, front), data[|data| - 128..];
    AbsorbBlock(h, front, block);
    assert front + block == data;
    assert VisitsAt(h, data, s, block, |front| / 128);
  }

  lemma VisitsLonger(h: State, data: seq<byte>, n: nat, s: State, block: Block)
    requires |data| % 128 == 0 && n <= |data| && n % 128 == 0
    requires Visits(h, data[..n], s, block)
    ensures Visits(h, data, s, block)
  {
    hide Absorb;
    var k: nat :| VisitsAt(h, data[..n], s, block, k);
    assert data[..n][..128 * k] == data[..128 * k];
    assert VisitsAt(h, data, s, block, k);
  }

  /** Two different block strings of the same length with the same result. */
  lemma {:induction false} SameLengthCollision(h: State, d1: seq<byte>, d2: seq<byte>)
    returns (s1: State, b1: Block, s2: State, b2: Block)
    requires |d1| == |d2| && |d1| % 128 == 0 && d1 != d2
    requires Absorb(h, d1) == Absorb(h, d2)
    ensures (s1, b1) != (s2, b2) && Compress(s1, b1) == Compress(s2, b2)
    ensures Visits(h, d1, s1, b1) && Visits(h, d2, s2, b2)
    decreases |d1|
  {
    hide Absorb, Compress, Visits;
    s1, b1 := LastVisit(h, d1);
    s2, b2 := LastVisit(h, d2);
    if (s1, b1) == (s2, b2) {
      var n := |d1| - 128;
      assert d1 == d1[..n] + b1 && d2 == d2[..n] + b2;
      s1, b1, s2, b2 := SameLengthCollision(h, d1[..n], d2[..n]);
      VisitsLonger(h, d1, n, s1, b1);
      VisitsLonger(h, d2, n, s2, b2);
    }
  }

  /** Two different messages with the same final state contain two different inputs of the
      compression function with the same output. */
  lemma CollisionOfHashIsCollisionOfCompression(m1: seq<byte>, m2: seq<byte>)
    returns (s1: State, b1: Block, s2: State, b2: Block)
    requires |m1| < 0x2000_0000_0000_0000_0000_0000_0000_0000
    requires |m2| < 0x2000_0000_0000_0000_0000_0000_0000_0000
    requires m1 != m2 && Sha384Words(m1) == Sha384Words(m2)
    ensures (s1, b1) != (s2, b2) && Compress(s1, b1) == Compress(s2, b2)
    ensures Visits(IV, Pad(m1), s1, b1) && Visits(IV, Pad(m2), s2, b2)
  {
    hide Absorb, Compress, Visits;
    var p1, p2 := Pad(m1), Pad(m2);
    PaddingEndsWithLength(m1);
    PaddingEndsWithLength(m2);
    if |m1| == |m2| {
      if p1 == p2 { PadIsInjective(m1, m2); }
      s1, b1, s2, b2 := SameLengthCollision(IV, p1, p2);
    } else {
      s1, b1 := LastVisit(IV, p1);
      s2, b2 := LastVisit(IV, p2);
      assert b1[112..] == p1[|p1| - 16..] && b2[112..] == p2[|p2| - 16..];
    }
  }
}
