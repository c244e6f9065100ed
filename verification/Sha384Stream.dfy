/** The values of words that are shifted and put together. */
module WordValues {
  import opened Bytes

  function Value(w: bv64): u64 {
    w as int
  }

  /** The top three bits, and the others. */
  function Top(w: bv64): bv64 {
    w >> 61
  }

  function Rest(w: bv64): bv64 {
    w & 0x1FFF_FFFF_FFFF_FFFF
  }

  /** Three bits more, out of the top of the word below; what is shifted out is lost. */
  function ShiftIn(w: bv64, below: bv64): bv64 {
    (below >> 61) | (w << 3)
  }

  function ShiftOut(w: bv64): bv64 {
    w << 3
  }

  /** The word with the value n. */
  function AsWord(n: u64): (w: bv64)
    ensures Value(w) == n
  {
    hide Value;
    if n == 0 then ZeroValue(); 0
    else
      var half := AsWord(n / 2);
      AppendBit(half);
      if n % 2 == 0 then half << 1 else (half << 1) | 1
  }

  lemma ZeroValue()
    ensures Value(0) == 0
  {
  }

  lemma AppendBit(w: bv64)
    requires Value(w) < 0x8000_0000_0000_0000
    ensures Value(w << 1) == 2 * Value(w) && Value((w << 1) | 1) == 2 * Value(w) + 1
  {
    hide Value;
    CutAt63(w);
    BitBelow(w);
  }

  lemma CutAt63(w: bv64)
    ensures Value(w) == Value(w >> 63) * 0x8000_0000_0000_0000 + Value(w & 0x7FFF_FFFF_FFFF_FFFF)
  {
  }

  lemma BitBelow(w: bv64)
    ensures Value(w << 1) == 2 * Value(w & 0x7FFF_FFFF_FFFF_FFFF)
    ensures Value((w << 1) | 1) == 2 * Value(w & 0x7FFF_FFFF_FFFF_FFFF) + 1
  {
  }

  /** A word is its top three bits and the others. */
  lemma TopAndRest(w: bv64)
    ensures Value(w) == Value(Top(w)) * 0x2000_0000_0000_0000 + Value(Rest(w))
  {
  }

  lemma ShiftLeft(w: bv64)
    ensures Value(ShiftOut(w)) == 8 * Value(Rest(w))
  {
  }

  /** The operands of the "or" have no bit in common. */
  lemma OrIsSum(w: bv64, below: bv64)
    ensures Value(ShiftIn(w, below)) == Value(Top(below)) + Value(ShiftOut(w))
  {
  }

  /** Shifting by three bits is multiplying by 8, modulo 2^64, and adding the three bits that
      the word below loses by it. */
  lemma ShiftedValues(w: bv64, below: bv64)
    ensures Value(ShiftOut(w)) == Value(w) * 8 % 0x1_0000_0000_0000_0000
    ensures Value(ShiftIn(w, below))
         == Value(below) / 0x2000_0000_0000_0000 + Value(w) * 8 % 0x1_0000_0000_0000_0000
  {
    hide Value, Top, Rest, ShiftIn, ShiftOut;
    ShiftLeft(w);
    ShiftLeft(below);
    OrIsSum(w, below);
    TopAndRest(w);
    TopAndRest(below);
    Quotient(Value(w), Value(Top(w)), Value(Rest(w)));
    Quotient(Value(below), Value(Top(below)), Value(Rest(below)));
  }

  lemma Quotient(n: nat, top: nat, rest: nat)
    requires n == top * 0x2000_0000_0000_0000 + rest && rest < 0x2000_0000_0000_0000
    ensures n / 0x2000_0000_0000_0000 == top && n * 8 % 0x1_0000_0000_0000_0000 == 8 * rest
  {
    assert n * 8 == top * 0x1_0000_0000_0000_0000 + 8 * rest;
  }
}

/** The hash context and its streaming interface (deps/sha512/sha512.c:70-133, 256-337). */
module Sha384Stream {
  import opened Bytes
  import opened Fips180
  import opened Sha384Engine
  import opened WordValues

  const TWO64: nat := 0x1_0000_0000_0000_0000
  const TWO128: nat := 0x1_0000_0000_0000_0000_0000_0000_0000_0000

  // ----- the abstraction -----------------------------------------------------

  /** The whole blocks at the front of a message, and what is left after them. */
  function Whole(msg: seq<byte>): (w: seq<byte>)
    ensures |w| % 128 == 0
  {
    msg[..|msg| - |msg| % 128]
  }

  function Tail(msg: seq<byte>): (t: seq<byte>)
    ensures |t| == |msg| % 128
  {
    msg[|msg| - |msg| % 128..]
  }

  /** The 128-bit byte counter, low word first. */
  predicate Counts(lo: u64, hi: u64, n: nat) {
    lo + TWO64 * hi == n % TWO128
  }

  // ----- lemmas --------------------------------------------------------------

  lemma {:induction false} AbsorbAppend(h: State, a: seq<byte>, b: seq<byte>)
    requires |a| % 128 == 0 && |b| % 128 == 0
    ensures |a + b| % 128 == 0
    ensures Absorb(h, a + b) == Absorb(Absorb(h, a), b)
    decreases |a|
  {
    hide Compress;
    if a == [] {
      assert a + b == b;
    } else {
      assert (a + b)[..128] == a[..128] && (a + b)[128..] == a[128..] + b;
      assert |a[128..]| % 128 == 0;
      AbsorbAppend(Compress(h, a[..128]), a[128..], b);
    }
  }

  lemma AbsorbBlock(h: State, a: seq<byte>, block: Block)
    requires |a| % 128 == 0
    ensures |a + block| % 128 == 0
    ensures Absorb(h, a + block) == Compress(Absorb(h, a), block)
  {
    hide Compress;
    AbsorbAppend(h, a, block);
    var s := Absorb(h, a);
    assert block[..128] == block && block[128..] == [];
    assert Absorb(s, block) == Absorb(Compress(s, block[..128]), block[128..]);
  }

  lemma CountIsPosition(lo: u64, hi: u64, n: nat)
    requires Counts(lo, hi, n)
    ensures lo % 128 == n % 128
  {
  }

  /** The two-word counter is advanced with its carry. */
  lemma CountAdvances(lo: u64, hi: u64, n: nat, ilen: u64)
    requires Counts(lo, hi, n)
    ensures var lo' := (lo + ilen) % TWO64;
            Counts(lo', if lo' < ilen then (hi + 1) % TWO64 else hi, n + ilen)
  {
    var q := n / TWO128;
    assert n == TWO128 * q + lo + TWO64 * hi;
    if lo + ilen < TWO64 {
      assert (lo + ilen) % TWO64 == lo + ilen;
      Remainder(n + ilen, q, lo + ilen + TWO64 * hi);
    } else {
      assert (lo + ilen) % TWO64 == lo + ilen - TWO64 < ilen;
      if hi + 1 < TWO64 {
        Remainder(n + ilen, q, lo + ilen - TWO64 + TWO64 * (hi + 1));
      } else {
        Remainder(n + ilen, q + 1, lo + ilen - TWO64);
      }
    }
  }

  lemma Remainder(n: nat, q: nat, r: nat)
    requires n == TWO128 * q + r && r < TWO128
    ensures n % TWO128 == r
  {
  }

  /** A message whose whole blocks are `whole` and whose rest is shorter than a block. */
  lemma WholeAndTail(whole: seq<byte>, rest: seq<byte>)
    requires |whole| % 128 == 0 && |rest| < 128
    ensures Whole(whole + rest) == whole && Tail(whole + rest) == rest
  {
    assert |whole + rest| % 128 == |rest|;
  }

  // ----- the length field ------------------------------------------------------

  /** PUT_UINT64_BE */
  function PutU64(n: u64): seq<byte> {
    [n / 0x100_0000_0000_0000 % 256, n / 0x1_0000_0000_0000 % 256,
     n / 0x100_0000_0000 % 256, n / 0x1_0000_0000 % 256,
     n / 0x100_0000 % 256, n / 0x1_0000 % 256, n / 0x100 % 256, n % 256]
  }

  lemma PutU64IsBigEndian(n: u64)
    ensures PutU64(n) == BigEndian(n, 8)
  {
    Powers();
  }

  lemma Powers()
    ensures Pow256(0) == 1 && Pow256(1) == 0x100 && Pow256(2) == 0x1_0000 && Pow256(3) == 0x100_0000
    ensures Pow256(4) == 0x1_0000_0000 && Pow256(5) == 0x100_0000_0000
    ensures Pow256(6) == 0x1_0000_0000_0000 && Pow256(7) == 0x100_0000_0000_0000 && Pow256(8) == TWO64
  {
  }

  /** The value of the word high, (total[0] >> 61) | (total[1] << 3). */
  function BitsHigh(lo: u64, hi: u64): (h: u64) {
    lo / 0x2000_0000_0000_0000 + hi * 8 % TWO64
  }

  /** The value of the word low, total[0] << 3. */
  function BitsLow(lo: u64): u64 {
    lo * 8 % TWO64
  }

  /** The shifted words have the values that the length field needs. */
  lemma ShiftedCount(lo: u64, hi: u64)
    ensures Value(ShiftIn(AsWord(hi), AsWord(lo))) == BitsHigh(lo, hi)
    ensures Value(ShiftOut(AsWord(lo))) == BitsLow(lo)
  {
    hide AsWord, Value, ShiftIn, ShiftOut;
    ShiftedValues(AsWord(hi), AsWord(lo));
    ShiftedValues(AsWord(lo), 0);
  }

  lemma BitCount(lo: u64, hi: u64, n: nat)
    requires Counts(lo, hi, n)
    ensures 8 * n / TWO64 % TWO64 == BitsHigh(lo, hi)
    ensures 8 * n % TWO64 == BitsLow(lo)
  {
    var q := n / TWO128;
    assert n == TWO128 * q + lo + TWO64 * hi;
    var m := 8 * TWO64 * q + 8 * hi + lo / 0x2000_0000_0000_0000;
    assert 8 * lo == TWO64 * (lo / 0x2000_0000_0000_0000) + BitsLow(lo);
    Quotient64(8 * n, m, BitsLow(lo));
    assert 8 * hi == TWO64 * (hi / 0x2000_0000_0000_0000) + hi * 8 % TWO64;
    Quotient64(m, 8 * q + hi / 0x2000_0000_0000_0000, BitsHigh(lo, hi));
  }

  lemma Quotient64(n: nat, q: nat, r: nat)
    requires n == TWO64 * q + r && r < TWO64
    ensures n / TWO64 == q && n % TWO64 == r
  {
  }

  /** The sixteen bytes of the length field, for every message length. */
  lemma LengthField(lo: u64, hi: u64, n: nat)
    requires Counts(lo, hi, n)
    ensures PutU64(BitsHigh(lo, hi)) + PutU64(BitsLow(lo)) == BigEndian(8 * n, 16)
  {
    hide BigEndian;
    BitCount(lo, hi, n);
    PutU64IsBigEndian(BitsHigh(lo, hi));
    PutU64IsBigEndian(BitsLow(lo));
    Powers();
    BigEndianSplit(8 * n, 8, 8, 8 * n / TWO64);
    BigEndianLow(8 * n / TWO64, 8);
    BigEndianLow(8 * n, 8);
  }

  // ----- the context -------------------------------------------------------------

  /** The fields of a context that has been fed `msg`: the counter, the state after the
      whole blocks, and the rest at the front of the buffer. */
  predicate Represents(lo: u64, hi: u64, state: seq<Word>, buffer: seq<byte>, msg: seq<byte>) {
    && |state| == 8 && |buffer| == 128
    && Counts(lo, hi, |msg|)
    && StateOf(state) == Absorb(IV, Whole(msg))
    && buffer[..|msg| % 128] == Tail(msg)
  }

  /** What is still to be hashed of msg: bytes in the buffer, then bytes of the input. */
  ghost predicate Pending(whole: seq<byte>, front: seq<byte>, input: seq<byte>, msg: seq<byte>) {
    |whole| % 128 == 0 && whole + front + input == msg
  }

  lemma PendingStart(msg: seq<byte>, data: seq<byte>)
    ensures Pending(Whole(msg), Tail(msg), data, msg + data)
  {
  }

  lemma PendingFill(whole: seq<byte>, front: seq<byte>, input: seq<byte>, fill: nat, msg: seq<byte>)
    requires Pending(whole, front, input, msg)
    requires fill <= |input| && |front| + fill == 128
    ensures |whole| % 128 == |whole + (front + input[..fill])| % 128 == 0
    ensures Pending(whole + (front + input[..fill]), [], input[fill..], msg)
  {
    assert |whole + (front + input[..fill])| % 128 == 0;
  }

  lemma PendingEnd(whole: seq<byte>, front: seq<byte>, input: seq<byte>, msg: seq<byte>)
    requires Pending(whole, front, input, msg)
    requires |front| + |input| < 128
    ensures whole == Whole(msg) && front + input == Tail(msg)
    ensures |msg| % 128 == |front| + |input|
  {
    WholeAndTail(whole, front + input);
    assert whole + (front + input) == msg;
  }

  class Context {
    var totalLo: u64
    var totalHi: u64
    const state: array<Word>
    const buffer: array<byte>
    ghost var absorbed: seq<byte>

    ghost predicate Valid()
      reads this, state, buffer
    {
      Represents(totalLo, totalHi, state[..], buffer[..], absorbed)
    }

    /** mbedtls_sha512_init and mbedtls_sha512_starts */
    constructor ()
      ensures Valid() && absorbed == []
      ensures fresh(state) && fresh(buffer)
    {
      totalLo, totalHi := 0, 0;
      state := new Word[8];
      buffer := new byte[128];
      absorbed := [];
      new;
      forall i | 0 <= i < 128 { buffer[i] := 0; }
      state[0], state[1], state[2], state[3] := IV.a, IV.b, IV.c, IV.d;
      state[4], state[5], state[6], state[7] := IV.e, IV.f, IV.g, IV.h;
    }

    /** mbedtls_sha512_update: the counter first, then the data. */
    method Update(data: seq<byte>)
      requires Valid() && |data| < TWO64
      modifies this, state, buffer
      ensures Valid() && absorbed == old(absorbed) + data
    {
      hide Absorb, Counts, Pending, Whole, Tail, StateOf;
      if |data| == 0 {
        assert absorbed + data == absorbed;
        return;
      }
      CountIsPosition(totalLo, totalHi, |absorbed|);
      var left := totalLo % 128;
      CountAdvances(totalLo, totalHi, |absorbed|, |data|);
      PendingStart(absorbed, data);

      totalLo := (totalLo + |data|) % TWO64;
      if totalLo < |data| { totalHi := (totalHi + 1) % TWO64; }

      AbsorbInput(data, left, Whole(absorbed), absorbed + data);
      absorbed := absorbed + data;
    }

    /** The rest of mbedtls_sha512_update: complete the buffered block, hash whole blocks
        straight from the input, keep what is left. */
    method AbsorbInput(data: seq<byte>, left0: nat, ghost whole0: seq<byte>, ghost msg: seq<byte>)
      requires state.Length == 8 && buffer.Length == 128
      requires left0 < 128 && |whole0| % 128 == 0
      requires Pending(whole0, buffer[..left0], data, msg)
      requires StateOf(state[..]) == Absorb(IV, whole0)
      modifies state, buffer
      ensures StateOf(state[..]) == Absorb(IV, Whole(msg))
      ensures buffer[..|msg| % 128] == Tail(msg)
    {
      hide Compress, Absorb, Pending, Whole, Tail, StateOf;
      var input, left := data, left0;
      var fill := 128 - left;
      ghost var whole := whole0;

      if left != 0 && |input| >= fill {
        PendingFill(whole, buffer[..left], input, fill, msg);
        CopyInto(buffer, left, input[..fill]);
        assert buffer[..128] == buffer[..];
        Process(state, buffer[..]);
        AbsorbBlock(IV, whole, buffer[..]);
        whole := whole + buffer[..];
        input := input[fill..];
        left := 0;
        assert buffer[..0] == [];
      }

      while |input| >= 128
        invariant left == 0 || left + |input| < 128
        invariant left < 128 && |whole| % 128 == 0
        invariant StateOf(state[..]) == Absorb(IV, whole)
        invariant Pending(whole, buffer[..left], input, msg)
      {
        assert buffer[..0] == [] && [] + input[..128] == input[..128];
        PendingFill(whole, [], input, 128, msg);
        Process(state, input[..128]);
        AbsorbBlock(IV, whole, input[..128]);
        whole := whole + input[..128];
        input := input[128..];
      }

      PendingEnd(whole, buffer[..left], input, msg);
      ghost var rest := buffer[..left] + input;
      if |input| > 0 { CopyInto(buffer, left, input); }
      assert buffer[..left + |input|] == rest;
    }

    /** mbedtls_sha512_finish */
    method Finish(output: array<byte>)
      requires Valid() && output.Length == 64 && output != buffer
      modifies this, state, buffer, output
      ensures output[..] == StateBytes(Absorb(IV, Pad(old(absorbed))))
    {
      hide AsWord, Value, ShiftIn, ShiftOut;
      ShiftedCount(totalLo, totalHi);
      var high := Value(ShiftIn(AsWord(totalHi), AsWord(totalLo)));
      var low := Value(ShiftOut(AsWord(totalLo)));
      var msglen := PutU64(high) + PutU64(low);
      LengthField(totalLo, totalHi, |absorbed|);
      CountIsPosition(totalLo, totalHi, |absorbed|);
      var last := totalLo % 128;
      var padn := if last < 112 then 112 - last else 240 - last;
      Update(PaddingBlock()[..padn]);
      Update(msglen);
      PaddedInTwoUpdates(old(absorbed), padn);
      WholeAndTail(absorbed, []);
      assert absorbed + [] == absorbed;
      PutState(output);
    }

    method PutState(output: array<byte>)
      requires state.Length == 8 && output.Length == 64
      modifies output
      ensures output[..] == StateBytes(StateOf(state[..]))
    {
      hide WordBytes;
      PutFour(output, 0, state[0], state[1], state[2], state[3]);
      ghost var half := output[..32];
      PutFour(output, 32, state[4], state[5], state[6], state[7]);
      assert output[..] == output[..64] == half
          + (WordBytes(state[4]) + WordBytes(state[5]) + WordBytes(state[6]) + WordBytes(state[7]));
    }

    method PutFour(output: array<byte>, at: nat, w0: Word, w1: Word, w2: Word, w3: Word)
      requires at + 32 <= output.Length
      modifies output
      ensures output[..at + 32]
           == old(output[..at]) + (WordBytes(w0) + WordBytes(w1) + WordBytes(w2) + WordBytes(w3))
    {
      hide WordBytes;
      CopyInto(output, at, WordBytes(w0));
      CopyInto(output, at + 8, WordBytes(w1));
      CopyInto(output, at + 16, WordBytes(w2));
      CopyInto(output, at + 24, WordBytes(w3));
    }
  }

  /** sha512_padding */
  function PaddingBlock(): (p: seq<byte>)
    ensures |p| == 128
  {
    [0x80] + Zeros(127)
  }

  /** The two updates of the final step complete the message to its padding. */
  lemma PaddedInTwoUpdates(msg: seq<byte>, padn: nat)
    requires padn == if |msg| % 128 < 112 then 112 - |msg| % 128 else 240 - |msg| % 128
    ensures padn <= 128
    ensures msg + PaddingBlock()[..padn] + BigEndian(8 * |msg|, 16) == Pad(msg)
  {
    assert padn == 1 + ZeroCount(|msg|);
    assert PaddingBlock()[..padn] == [0x80] + Zeros(ZeroCount(|msg|));
  }

  /** memcpy(dst + at, src, |src|) */
  method CopyInto(dst: array<byte>, at: nat, src: seq<byte>)
    requires at + |src| <= dst.Length
    modifies dst
    ensures dst[..at + |src|] == old(dst[..at]) + src
    ensures dst[at + |src|..] == old(dst[at + |src|..])
  {
    forall i | 0 <= i < |src| {
      dst[at + i] := src[i];
    }
  }

  /** SHA384: the whole function, and the 48 bytes its callers keep (crypto_helper.c). */
  method Sha384Into(input: seq<byte>, output: array<byte>)
    requires |input| < TWO64 && output.Length == 64
    modifies output
    ensures output[..] == StateBytes(Sha384Words(input))
    ensures output[..48] == Sha384(input)
  {
    var ctx := new Context();
    ctx.Update(input);
    assert [] + input == input;
    ctx.Finish(output);
  }
}
