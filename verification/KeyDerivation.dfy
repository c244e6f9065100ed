/** What the primes of a key depend on (app/src/crypto_store.c:173-286): the two starting points
    of a seed, byte by byte and as numbers, and what it would take for two of them to agree. */
module KeyDerivation {
  import opened Bytes
  import opened KeyStore
  import ByteBits

  /** Where the search for a prime starts. */
  function StartingPoint(sdk: Sdk, seed: Bytes32, index: byte): Bytes256 {
    SetTopBit(PrimeBytes(sdk, seed, index, 8))
  }

  lemma {:induction false} BlockAt(sdk: Sdk, seed: Bytes32, index: byte, n: nat, i: nat)
    requires i < n <= 8
    ensures PrimeBytes(sdk, seed, index, n)[32 * i..32 * i + 32] == sdk.sha256([0, index] + seed + [i])
    decreases n
  {
    var p := PrimeBytes(sdk, seed, index, n - 1);
    assert PrimeBytes(sdk, seed, index, n)[..32 * (n - 1)] == p;
    if i < n - 1 {
      BlockAt(sdk, seed, index, n - 1, i);
      assert p[32 * i..32 * i + 32] == PrimeBytes(sdk, seed, index, n)[32 * i..32 * i + 32];
    }
  }

  /** The starting point is eight hashes side by side, each of (0, index, seed, number), but for
      the top bit. */
  lemma StartingPointBlocks(sdk: Sdk, seed: Bytes32, index: byte, i: nat)
    requires i < 8
    ensures var block := StartingPoint(sdk, seed, index)[32 * i..32 * i + 32];
            var hash := sdk.sha256([0, index] + seed + [i]);
            && (i > 0 ==> block == hash)
            && block[1..] == hash[1..]
  {
    hide PrimeBytes;
    BlockAt(sdk, seed, index, 8, i);
    var p: Bytes256 := PrimeBytes(sdk, seed, index, 8);
    var block, hash := StartingPoint(sdk, seed, index)[32 * i..32 * i + 32], p[32 * i..32 * i + 32];
    assert forall k :: 0 <= k < 32 ==> block[k] == StartingPoint(sdk, seed, index)[32 * i + k];
    assert forall k :: 0 <= k < 32 ==> hash[k] == p[32 * i + k];
  }

  /** The two halves start from the indices 0 and 1. */
  lemma PrimesAreSearched(sdk: Sdk, seed: Bytes32)
    ensures Primes(sdk, seed)[..256] == sdk.nextPrime(StartingPoint(sdk, seed, 0))
    ensures Primes(sdk, seed)[256..] == sdk.nextPrime(StartingPoint(sdk, seed, 1))
  {
    hide PrimeBytes, SetTopBit;
  }

  lemma TopBit(b: byte)
    ensures ((b as bv8) | 0x80) as int == if b < 128 then b as int + 128 else b
  {
    ByteBits.ByteOfBits(b);
    ByteBits.OrTopBit(b as bv8);
  }

  /** As a number a starting point has its full length: at least 128 * 256^255, which is
      2^2047. Nothing but the top bit is changed. */
  lemma FullLength(p: Bytes256)
    ensures FromBigEndian(SetTopBit(p)) == FromBigEndian(p) + if p[0] < 128 then 128 * Pow256(255) else 0
    ensures FromBigEndian(SetTopBit(p)) >= 128 * Pow256(255)
  {
    hide Pow256, FromBigEndian;
    TopBit(p[0]);
    FirstByteCountsMost(p);
    FirstByteCountsMost(SetTopBit(p));
    assert SetTopBit(p)[1..] == p[1..];
    Product(p[0], Pow256(255), FromBigEndian(p[1..]));
  }

  lemma Product(b: nat, p: nat, r: nat)
    ensures (b + 128) * p + r == b * p + r + 128 * p
    ensures b >= 128 ==> b * p + r >= 128 * p
  {
    if b >= 128 {
      assert b * p == 128 * p + (b - 128) * p;
    }
  }

  /** Either two strings with one SHA-256, or two starting points from which the search finds
      the same prime. */
  predicate Coincide(sdk: Sdk, x: seq<byte>, y: seq<byte>, p: Bytes256, q: Bytes256) {
    || (x != y && sdk.sha256(x) == sdk.sha256(y))
    || (p != q && sdk.nextPrime(p) == sdk.nextPrime(q))
  }

  /** The two primes of a seed are only equal by coincidence. */
  lemma EqualPrimesCoincide(sdk: Sdk, seed: Bytes32) returns (x: seq<byte>, y: seq<byte>)
    requires Primes(sdk, seed)[..256] == Primes(sdk, seed)[256..]
    ensures x == [0, 0] + seed + [1] && y == [0, 1] + seed + [1]
    ensures Coincide(sdk, x, y, StartingPoint(sdk, seed, 0), StartingPoint(sdk, seed, 1))
  {
    hide StartingPoint, Primes;
    x, y := [0, 0] + seed + [1], [0, 1] + seed + [1];
    assert x[1] != y[1];
    PrimesAreSearched(sdk, seed);
    StartingPointBlocks(sdk, seed, 0, 1);
    StartingPointBlocks(sdk, seed, 1, 1);
  }

  /** Two seeds only have the same primes by coincidence. */
  lemma EqualSeedPrimesCoincide(sdk: Sdk, s: Bytes32, t: Bytes32) returns (x: seq<byte>, y: seq<byte>)
    requires s != t && Primes(sdk, s) == Primes(sdk, t)
    ensures x == [0, 0] + s + [1] && y == [0, 0] + t + [1]
    ensures Coincide(sdk, x, y, StartingPoint(sdk, s, 0), StartingPoint(sdk, t, 0))
  {
    hide StartingPoint, Primes;
    x, y := [0, 0] + s + [1], [0, 0] + t + [1];
    assert x[2..34] == s && y[2..34] == t;
    PrimesAreSearched(sdk, s);
    PrimesAreSearched(sdk, t);
    StartingPointBlocks(sdk, s, 0, 1);
    StartingPointBlocks(sdk, t, 0, 1);
  }
}
