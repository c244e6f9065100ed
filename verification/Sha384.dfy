/** The streaming SHA-384 engine (deps/sha512/sha512.c), proved against FIPS 180-4. */
module Sha384Engine {
  import opened Bytes
  import opened Fips180
  import ByteBits

  // ----- the compression function (mbedtls_sha512_process) ------------------

  function F0(x: Word, y: Word, z: Word): Word {
    (x & y) | (z & (x | y))
  }

  function F1(x: Word, y: Word, z: Word): Word {
    z ^ (x & (y ^ z))
  }

  lemma MajorityBits(x: Word, y: Word, z: Word)
    ensures (x & y) | (z & (x | y)) == (x & y) ^ (x & z) ^ (y & z)
  {
  }

  lemma ChoiceBits(x: Word, y: Word, z: Word)
    ensures z ^ (x & (y ^ z)) == (x & y) ^ (!x & z)
  {
  }

  /** The optimised forms are the majority and choice functions of section 4.1.3. */
  lemma F0IsMaj(x: Word, y: Word, z: Word)
    ensures F0(x, y, z) == Maj(x, y, z)
  {
    MajorityBits(x, y, z);
  }

  lemma F1IsCh(x: Word, y: Word, z: Word)
    ensures F1(x, y, z) == Ch(x, y, z)
  {
    ChoiceBits(x, y, z);
  }

  // The macros S0 to S3, with their shifts written out.
  function S0(x: Word): Word {
    ((x >> 1) | (x << 63)) ^ ((x >> 8) | (x << 56)) ^ (x >> 7)
  }

  function S1(x: Word): Word {
    ((x >> 19) | (x << 45)) ^ ((x >> 61) | (x << 3)) ^ (x >> 6)
  }

  function S2(x: Word): Word {
    ((x >> 28) | (x << 36)) ^ ((x >> 34) | (x << 30)) ^ ((x >> 39) | (x << 25))
  }

  function S3(x: Word): Word {
    ((x >> 14) | (x << 50)) ^ ((x >> 18) | (x << 46)) ^ ((x >> 41) | (x << 23))
  }

  lemma SigmasAreShifts(x: Word)
    ensures S0(x) == SmallSigma0(x) && S1(x) == SmallSigma1(x)
    ensures S2(x) == BigSigma0(x) && S3(x) == BigSigma1(x)
  {
  }

  /** The macro P: d and h are updated in place, nothing is moved. Read with the registers
      renamed by one position, that is a round of section 6.4.2. */
  method P(a: Word, b: Word, c: Word, d: Word, e: Word, f: Word, g: Word, h: Word, x: Word, k: Word)
    returns (d': Word, h': Word)
    ensures State(h', a, b, c, d', e, f, g) == Round(State(a, b, c, d, e, f, g, h), k, x)
  {
    hide Plus, BigSigma0, BigSigma1, Maj, Ch, F0, F1, S2, S3;
    F0IsMaj(a, b, c);
    F1IsCh(e, f, g);
    SigmasAreShifts(a);
    SigmasAreShifts(e);
    var temp1 := Plus(Plus(Plus(Plus(h, S3(e)), F1(e, f, g)), k), x);
    var temp2 := Plus(S2(a), F0(a, b, c));
    d' := Plus(d, temp1);
    h' := Plus(temp1, temp2);
  }

  /** GET_UINT64_BE */
  function GetWord(b: seq<byte>, i: nat): Word
    requires i + 8 <= |b|
  {
    (ToWord(b[i]) << 56) | (ToWord(b[i + 1]) << 48) | (ToWord(b[i + 2]) << 40) | (ToWord(b[i + 3]) << 32) |
    (ToWord(b[i + 4]) << 24) | (ToWord(b[i + 5]) << 16) | (ToWord(b[i + 6]) << 8) | ToWord(b[i + 7])
  }

  lemma HornerWord(x0: Word, x1: Word, x2: Word, x3: Word, x4: Word, x5: Word, x6: Word, x7: Word)
    ensures ((((((((((((((x0 << 8) | x1) << 8) | x2) << 8) | x3) << 8) | x4) << 8) | x5) << 8) | x6) << 8) | x7)
         == (x0 << 56) | (x1 << 48) | (x2 << 40) | (x3 << 32) | (x4 << 24) | (x5 << 16) | (x6 << 8) | x7
  {
  }

  lemma WordOfPrefix(s: seq<byte>, k: nat)
    requires k < |s|
    ensures WordOf(s[..k + 1]) == (WordOf(s[..k]) << 8) | ToWord(s[k])
  {
    assert s[..k + 1][..k] == s[..k];
  }

  lemma GetWordIsBigEndian(b: seq<byte>, i: nat)
    requires i + 8 <= |b|
    ensures GetWord(b, i) == WordOf(b[i..i + 8])
  {
    hide WordOf, ToWord;
    var s := b[i..i + 8];
    WordOfStart(s);
    WordOfPrefix(s, 1);
    WordOfPrefix(s, 2);
    WordOfPrefix(s, 3);
    WordOfPrefix(s, 4);
    WordOfPrefix(s, 5);
    WordOfPrefix(s, 6);
    WordOfPrefix(s, 7);
    assert s[..8] == s;
    HornerWord(ToWord(s[0]), ToWord(s[1]), ToWord(s[2]), ToWord(s[3]),
               ToWord(s[4]), ToWord(s[5]), ToWord(s[6]), ToWord(s[7]));
  }

  lemma ByteOfWord(w: Word)
    ensures ToWord(LowByte(w)) == w & 0xFF
  {
    var b := (w & 0xFF) as bv8;
    ByteBits.BitsOfByte(b);
    WidenLow(w);
  }

  lemma WidenLow(w: Word)
    ensures ((w & 0xFF) as bv8) as Word == w & 0xFF
  {
  }

  lemma BytesTogether(w: Word)
    ensures (((w >> 56) & 0xFF) << 56) | (((w >> 48) & 0xFF) << 48) | (((w >> 40) & 0xFF) << 40) |
            (((w >> 32) & 0xFF) << 32) | (((w >> 24) & 0xFF) << 24) | (((w >> 16) & 0xFF) << 16) |
            (((w >> 8) & 0xFF) << 8) | (w & 0xFF)
         == w
  {
  }

  /** PUT_UINT64_BE writes the most significant byte first: reading the bytes as a big-endian
      word gives the word back. */
  lemma WordOfWordBytes(w: Word)
    ensures WordOf(WordBytes(w)) == w
  {
    hide WordOf, ToWord, LowByte;
    var b := WordBytes(w);
    ByteOfWord(w >> 56);
    ByteOfWord(w >> 48);
    ByteOfWord(w >> 40);
    ByteOfWord(w >> 32);
    ByteOfWord(w >> 24);
    ByteOfWord(w >> 16);
    ByteOfWord(w >> 8);
    ByteOfWord(w);
    BytesTogether(w);
    GetWordIsBigEndian(b, 0);
    assert b[0..8] == b;
  }

  /** The digest, read in pieces of eight bytes, gives the first six words of the final hash
      value back, in order. */
  lemma DigestWords(msg: seq<byte>)
    ensures var d, s := Sha384(msg), Sha384Words(msg);
            && WordOf(d[0..8]) == s.a && WordOf(d[8..16]) == s.b && WordOf(d[16..24]) == s.c
            && WordOf(d[24..32]) == s.d && WordOf(d[32..40]) == s.e && WordOf(d[40..48]) == s.f
  {
    hide WordOf, WordBytes, Sha384Words;
    var d, s := Sha384(msg), Sha384Words(msg);
    WordOfWordBytes(s.a);
    WordOfWordBytes(s.b);
    WordOfWordBytes(s.c);
    WordOfWordBytes(s.d);
    WordOfWordBytes(s.e);
    WordOfWordBytes(s.f);
    EightPieces(WordBytes(s.a), WordBytes(s.b), WordBytes(s.c), WordBytes(s.d),
                WordBytes(s.e), WordBytes(s.f), WordBytes(s.g), WordBytes(s.h));
  }

  lemma EightPieces(a: seq<byte>, b: seq<byte>, c: seq<byte>, d: seq<byte>,
                    e: seq<byte>, f: seq<byte>, g: seq<byte>, h: seq<byte>)
    requires |a| == |b| == |c| == |d| == |e| == |f| == |g| == |h| == 8
    ensures var s := (a + b + c + d + e + f + g + h)[..48];
            && s[0..8] == a && s[8..16] == b && s[16..24] == c && s[24..32] == d
            && s[32..40] == e && s[40..48] == f
  {
    var t := a + b + c + d + e + f + g + h;
    assert t[0..8] == a && t[8..16] == b && t[16..24] == c && t[24..32] == d && t[32..40] == e && t[40..48] == f;
    var s := t[..48];
    assert s[0..8] == t[0..8] && s[8..16] == t[8..16] && s[16..24] == t[16..24];
    assert s[24..32] == t[24..32] && s[32..40] == t[32..40] && s[40..48] == t[40..48];
  }

  lemma WordOfStart(s: seq<byte>)
    requires |s| >= 1
    ensures WordOf(s[..1]) == ToWord(s[0])
  {
    WordOfPrefix(s, 0);
    assert s[..0] == [];
  }

  lemma RoundsSnoc(h: State, w: seq<Word>, i: nat)
    requires i < |w| <= ROUNDS
    ensures Rounds(h, w[..i + 1]) == Round(Rounds(h, w[..i]), KWord(i), w[i])
  {
    hide Round, KWord;
    assert w[..i + 1][..i] == w[..i];
  }

  /** The words A..H as the shift register they stand for after i rounds: the register that
      was written last is in front. */
  ghost predicate Registers(s: State, h: State, w: seq<Word>, i: nat) {
    i <= |w| <= ROUNDS && s == Rounds(h, w[..i])
  }

  lemma Advance(s: State, start: State, w: seq<Word>, i: nat)
    requires i < |w| <= ROUNDS && Registers(s, start, w, i)
    ensures Registers(Round(s, KWord(i), w[i]), start, w, i + 1)
  {
    hide Round, KWord;
    RoundsSnoc(start, w, i);
  }

  /** The two loops that fill W[80]. */
  method FillSchedule(data: Block) returns (w: array<Word>)
    ensures fresh(w) && w[..] == Schedule(data)
  {
    hide W, Plus, SmallSigma0, SmallSigma1, S0, S1, GetWord, WordOf;
    w := new Word[80];
    var i := 0;
    while i < 16
      invariant 0 <= i <= 16
      invariant forall t :: 0 <= t < i ==> w[t] == W(data, t)
    {
      GetWordIsBigEndian(data, 8 * i);
      ScheduleStart(data, i);
      w[i] := GetWord(data, 8 * i);
      i := i + 1;
    }
    while i < 80
      invariant 16 <= i <= 80
      invariant forall t :: 0 <= t < i ==> w[t] == W(data, t)
    {
      ScheduleStep(data, i);
      SigmasAreShifts(w[i - 2]);
      SigmasAreShifts(w[i - 15]);
      w[i] := Plus(Plus(Plus(S1(w[i - 2]), w[i - 7]), S0(w[i - 15])), w[i - 16]);
      i := i + 1;
    }
  }

  /** mbedtls_sha512_process: steps 1 to 4 of section 6.4.2 on one block, in place. */
  method Process(state: array<Word>, data: Block)
    requires state.Length == 8
    modifies state
    ensures StateOf(state[..]) == Compress(old(StateOf(state[..])), data)
  {
    hide Schedule, Registers, Compress;
    var w := FillSchedule(data);
    ghost var ws := Schedule(data);

    var a, b, c, d := state[0], state[1], state[2], state[3];
    var e, f, g, h := state[4], state[5], state[6], state[7];
    ghost var start := State(a, b, c, d, e, f, g, h);
    RegistersStart(start, ws);
    var i := 0;
    while i < 80
      invariant 0 <= i <= 80 && i % 8 == 0
      invariant Registers(State(a, b, c, d, e, f, g, h), start, ws, i)
      invariant w[..] == ws && state[..] == old(state[..])
    {
      a, b, c, d, e, f, g, h := EightRounds(a, b, c, d, e, f, g, h, w, i, ws, start);
      i := i + 8;
    }
    RegistersEnd(State(a, b, c, d, e, f, g, h), start, data);
    AddRegisters(state, a, b, c, d, e, f, g, h);
  }

  lemma RegistersStart(start: State, ws: seq<Word>)
    requires |ws| <= ROUNDS
    ensures Registers(start, start, ws, 0)
  {
    assert ws[..0] == [];
  }

  lemma RegistersEnd(s: State, start: State, data: Block)
    requires Registers(s, start, Schedule(data), 80)
    ensures Add(start, s) == Compress(start, data)
  {
    hide Add, W, Rounds;
    assert Schedule(data)[..80] == Schedule(data);
  }

  /** Step 4: the intermediate hash value is updated in place. */
  method AddRegisters(state: array<Word>, a: Word, b: Word, c: Word, d: Word, e: Word, f: Word, g: Word, h: Word)
    requires state.Length == 8
    modifies state
    ensures StateOf(state[..]) == Add(old(StateOf(state[..])), State(a, b, c, d, e, f, g, h))
  {
    hide Plus;
    AddFour(state, 0, a, b, c, d);
    AddFour(state, 4, e, f, g, h);
  }

  method AddFour(state: array<Word>, at: nat, a: Word, b: Word, c: Word, d: Word)
    requires state.Length == 8 && at <= 4
    modifies state
    ensures state[at] == Plus(old(state[at]), a) && state[at + 1] == Plus(old(state[at + 1]), b)
    ensures state[at + 2] == Plus(old(state[at + 2]), c) && state[at + 3] == Plus(old(state[at + 3]), d)
    ensures forall i :: 0 <= i < at || at + 4 <= i < 8 ==> state[i] == old(state[i])
  {
    hide Plus;
    state[at] := Plus(state[at], a);
    state[at + 1] := Plus(state[at + 1], b);
    state[at + 2] := Plus(state[at + 2], c);
    state[at + 3] := Plus(state[at + 3], d);
  }

  /** One turn of the unrolled loop. */
  method EightRounds(a0: Word, b0: Word, c0: Word, d0: Word, e0: Word, f0: Word, g0: Word, h0: Word,
                     w: array<Word>, i0: nat, ghost ws: seq<Word>, ghost start: State)
    returns (a: Word, b: Word, c: Word, d: Word, e: Word, f: Word, g: Word, h: Word)
    requires i0 + 8 <= w.Length == 80 && w[..] == ws
    requires Registers(State(a0, b0, c0, d0, e0, f0, g0, h0), start, ws, i0)
    ensures Registers(State(a, b, c, d, e, f, g, h), start, ws, i0 + 8)
  {
    hide Round, KWord, Registers;
    a, b, c, d, e, f, g, h := a0, b0, c0, d0, e0, f0, g0, h0;
    var i := i0;
    Advance(State(a, b, c, d, e, f, g, h), start, ws, i);
    d, h := P(a, b, c, d, e, f, g, h, w[i], KWord(i));
    i := i + 1;
    Advance(State(h, a, b, c, d, e, f, g), start, ws, i);
    c, g := P(h, a, b, c, d, e, f, g, w[i], KWord(i));
    i := i + 1;
    Advance(State(g, h, a, b, c, d, e, f), start, ws, i);
    b, f := P(g, h, a, b, c, d, e, f, w[i], KWord(i));
    i := i + 1;
    Advance(State(f, g, h, a, b, c, d, e), start, ws, i);
    a, e := P(f, g, h, a, b, c, d, e, w[i], KWord(i));
    i := i + 1;
    Advance(State(e, f, g, h, a, b, c, d), start, ws, i);
    h, d := P(e, f, g, h, a, b, c, d, w[i], KWord(i));
    i := i + 1;
    Advance(State(d, e, f, g, h, a, b, c), start, ws, i);
    g, c := P(d, e, f, g, h, a, b, c, w[i], KWord(i));
    i := i + 1;
    Advance(State(c, d, e, f, g, h, a, b), start, ws, i);
    f, b := P(c, d, e, f, g, h, a, b, w[i], KWord(i));
    i := i + 1;
    Advance(State(b, c, d, e, f, g, h, a), start, ws, i);
    e, a := P(b, c, d, e, f, g, h, a, w[i], KWord(i));
    i := i + 1;
  }

  function StateOf(s: seq<Word>): State
    requires |s| == 8
  {
    State(s[0], s[1], s[2], s[3], s[4], s[5], s[6], s[7])
  }

  lemma ScheduleStart(data: Block, t: nat)
    requires t < 16
    ensures W(data, t) == WordOf(data[8 * t..8 * t + 8])
  {
    hide WordOf;
  }

  lemma ScheduleStep(data: Block, t: nat)
    requires 16 <= t
    ensures W(data, t)
         == Plus(Plus(Plus(SmallSigma1(W(data, t - 2)), W(data, t - 7)), SmallSigma0(W(data, t - 15))), W(data, t - 16))
  {
    hide Plus, SmallSigma0, SmallSigma1;
  }
}
