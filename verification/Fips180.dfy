/** SHA-384 as FIPS 180-4 defines it: functions (section 4.1.3), constants (4.2.3), padding
    (5.1.2), initial value (5.3.4), the hash computation (6.4.2) and the truncation (6.5). */
module Fips180 {
  import opened Bytes

  type Word = bv64

  datatype State = State(a: Word, b: Word, c: Word, d: Word, e: Word, f: Word, g: Word, h: Word)

  // ----- functions, section 4.1.3 -------------------------------------------

  /** Addition modulo 2^64. */
  function Plus(x: Word, y: Word): Word {
    x + y
  }

  function Ch(x: Word, y: Word, z: Word): Word {
    (x & y) ^ (!x & z)
  }

  function Maj(x: Word, y: Word, z: Word): Word {
    (x & y) ^ (x & z) ^ (y & z)
  }

  function BigSigma0(x: Word): Word {
    x.RotateRight(28) ^ x.RotateRight(34) ^ x.RotateRight(39)
  }

  function BigSigma1(x: Word): Word {
    x.RotateRight(14) ^ x.RotateRight(18) ^ x.RotateRight(41)
  }

  function SmallSigma0(x: Word): Word {
    x.RotateRight(1) ^ x.RotateRight(8) ^ (x >> 7)
  }

  function SmallSigma1(x: Word): Word {
    x.RotateRight(19) ^ x.RotateRight(61) ^ (x >> 6)
  }

  // ----- constants, sections 4.2.3 and 5.3.4 ---------------------------------

  const ROUNDS: nat := 80

  /** The round constant K[t]. */
  function KWord(t: nat): Word
    requires t < ROUNDS
  {
    if t < 8 then [0x428A2F98D728AE22, 0x7137449123EF65CD, 0xB5C0FBCFEC4D3B2F, 0xE9B5DBA58189DBBC,
       0x3956C25BF348B538, 0x59F111F1B605D019, 0x923F82A4AF194F9B, 0xAB1C5ED5DA6D8118][t]
    else if t < 16 then [0xD807AA98A3030242, 0x12835B0145706FBE, 0x243185BE4EE4B28C, 0x550C7DC3D5FFB4E2,
       0x72BE5D74F27B896F, 0x80DEB1FE3B1696B1, 0x9BDC06A725C71235, 0xC19BF174CF692694][t - 8]
    else if t < 24 then [0xE49B69C19EF14AD2, 0xEFBE4786384F25E3, 0x0FC19DC68B8CD5B5, 0x240CA1CC77AC9C65,
       0x2DE92C6F592B0275, 0x4A7484AA6EA6E483, 0x5CB0A9DCBD41FBD4, 0x76F988DA831153B5][t - 16]
    else if t < 32 then [0x983E5152EE66DFAB, 0xA831C66D2DB43210, 0xB00327C898FB213F, 0xBF597FC7BEEF0EE4,
       0xC6E00BF33DA88FC2, 0xD5A79147930AA725, 0x06CA6351E003826F, 0x142929670A0E6E70][t - 24]
    else if t < 40 then [0x27B70A8546D22FFC, 0x2E1B21385C26C926, 0x4D2C6DFC5AC42AED, 0x53380D139D95B3DF,
       0x650A73548BAF63DE, 0x766A0ABB3C77B2A8, 0x81C2C92E47EDAEE6, 0x92722C851482353B][t - 32]
    else if t < 48 then [0xA2BFE8A14CF10364, 0xA81A664BBC423001, 0xC24B8B70D0F89791, 0xC76C51A30654BE30,
       0xD192E819D6EF5218, 0xD69906245565A910, 0xF40E35855771202A, 0x106AA07032BBD1B8][t - 40]
    else if t < 56 then [0x19A4C116B8D2D0C8, 0x1E376C085141AB53, 0x2748774CDF8EEB99, 0x34B0BCB5E19B48A8,
       0x391C0CB3C5C95A63, 0x4ED8AA4AE3418ACB, 0x5B9CCA4F7763E373, 0x682E6FF3D6B2B8A3][t - 48]
    else if t < 64 then [0x748F82EE5DEFB2FC, 0x78A5636F43172F60, 0x84C87814A1F0AB72, 0x8CC702081A6439EC,
       0x90BEFFFA23631E28, 0xA4506CEBDE82BDE9, 0xBEF9A3F7B2C67915, 0xC67178F2E372532B][t - 56]
    else if t < 72 then [0xCA273ECEEA26619C, 0xD186B8C721C0C207, 0xEADA7DD6CDE0EB1E, 0xF57D4F7FEE6ED178,
       0x06F067AA72176FBA, 0x0A637DC5A2C898A6, 0x113F9804BEF90DAE, 0x1B710B35131C471B][t - 64]
    else [0x28DB77F523047D84, 0x32CAAB7B40C72493, 0x3C9EBE0A15C9BEBC, 0x431D67C49C100D4C,
       0x4CC5D4BECB3E42B6, 0x597F299CFC657E2A, 0x5FCB6FAB3AD6FAEC, 0x6C44198C4A475817][t - 72]
  }

  /** Its value. */
  function K(t: nat): u64
    requires t < ROUNDS
  {
    KWord(t) as int
  }

  const IV: State :=
    State(0xcbbb9d5dc1059ed8, 0x629a292a367cd507, 0x9159015a3070dd17, 0x152fecd8f70e5939,
          0x67332667ffc00b31, 0x8eb44a8768581511, 0xdb0c2e0d64f98fa7, 0x47b5481dbefa4fa4)

  // ----- words and blocks ----------------------------------------------------

  function ToWord(b: byte): Word {
    (b as bv8) as Word
  }

  /** A byte string read as one big-endian word. */
  function WordOf(s: seq<byte>): Word {
    if s == [] then 0 else (WordOf(s[..|s| - 1]) << 8) | ToWord(s[|s| - 1])
  }

  function LowByte(w: Word): byte {
    (w & 0xFF) as bv8 as byte
  }

  /** The bytes of a word, most significant first. */
  function WordBytes(w: Word): (s: seq<byte>)
    ensures |s| == 8
  {
    [LowByte(w >> 56), LowByte(w >> 48), LowByte(w >> 40), LowByte(w >> 32),
     LowByte(w >> 24), LowByte(w >> 16), LowByte(w >> 8), LowByte(w)]
  }

  function StateBytes(s: State): (r: seq<byte>)
    ensures |r| == 64
  {
    WordBytes(s.a) + WordBytes(s.b) + WordBytes(s.c) + WordBytes(s.d) +
    WordBytes(s.e) + WordBytes(s.f) + WordBytes(s.g) + WordBytes(s.h)
  }

  type Block = s: seq<byte> | |s| == 128 witness Zeros(128)

  // ----- hash computation, section 6.4.2 -------------------------------------

  /** The word that follows in the message schedule, from the words 2, 7, 15 and 16 back. */
  function Extend(w2: Word, w7: Word, w15: Word, w16: Word): Word {
    Plus(Plus(Plus(SmallSigma1(w2), w7), SmallSigma0(w15)), w16)
  }

  /** Step 1: the message schedule. */
  function W(block: Block, t: nat): Word {
    if t < 16 then WordOf(block[8 * t..8 * t + 8])
    else Extend(W(block, t - 2), W(block, t - 7), W(block, t - 15), W(block, t - 16))
  }

  function Schedule(block: Block): (w: seq<Word>)
    ensures |w| == ROUNDS
  {
    seq(ROUNDS, t requires 0 <= t < ROUNDS => W(block, t))
  }

  function T1(s: State, k: Word, w: Word): Word {
    Plus(Plus(Plus(Plus(s.h, BigSigma1(s.e)), Ch(s.e, s.f, s.g)), k), w)
  }

  function T2(s: State): Word {
    Plus(BigSigma0(s.a), Maj(s.a, s.b, s.c))
  }

  /** Step 3: one round on the working variables. */
  function Round(s: State, k: Word, w: Word): State {
    State(Plus(T1(s, k, w), T2(s)), s.a, s.b, s.c, Plus(s.d, T1(s, k, w)), s.e, s.f, s.g)
  }

  /** The working variables after one round for each word of w, starting from h. */
  function Rounds(h: State, w: seq<Word>): State
    requires |w| <= ROUNDS
  {
    if w == [] then h
    else Round(Rounds(h, w[..|w| - 1]), KWord(|w| - 1), w[|w| - 1])
  }

  function Add(s: State, t: State): State {
    State(Plus(s.a, t.a), Plus(s.b, t.b), Plus(s.c, t.c), Plus(s.d, t.d),
          Plus(s.e, t.e), Plus(s.f, t.f), Plus(s.g, t.g), Plus(s.h, t.h))
  }

  /** Steps 1 to 4 for one block. */
  function Compress(h: State, block: Block): State {
    Add(h, Rounds(h, Schedule(block)))
  }

  /** The intermediate hash value after all the blocks of `data`. */
  function Absorb(h: State, data: seq<byte>): State
    requires |data| % 128 == 0
    decreases |data|
  {
    if data == [] then h
    else
      assert |data[128..]| % 128 == 0;
      Absorb(Compress(h, data[..128]), data[128..])
  }

  // ----- padding, section 5.1.2, and the digest, section 6.5 -----------------

  /** Number of zero bytes after a message of n bytes. */
  function ZeroCount(n: nat): (z: nat)
    ensures (n + 1 + z) % 128 == 112
  {
    (239 - n % 128) % 128
  }

  /** It is the smallest number that leaves exactly 16 bytes of the last block. */
  lemma ZeroCountIsLeast(n: nat, y: nat)
    requires (n + 1 + y) % 128 == 112
    ensures ZeroCount(n) <= y
  {
  }

  function Pad(msg: seq<byte>): (p: seq<byte>)
    ensures |p| % 128 == 0
  {
    msg + [0x80] + Zeros(ZeroCount(|msg|)) + BigEndian(8 * |msg|, 16)
  }

  /** The eight words of the final hash value. */
  function Sha384Words(msg: seq<byte>): State {
    Absorb(IV, Pad(msg))
  }

  /** The digest: the left-most 384 bits. */
  function Sha384(msg: seq<byte>): (d: seq<byte>)
    ensures |d| == 48
  {
    StateBytes(Sha384Words(msg))[..48]
  }
}
