/** The two-slot store of RSA keys (app/src/crypto_store.c). */
module KeyStore {
  import opened Bytes

  const RSA_PRIME_LEN: nat := 256

  // ----- the SDK ---------------------------------------------------------------

  type Bytes32 = s: seq<byte> | |s| == 32 witness Zeros(32)
  type Bytes256 = s: seq<byte> | |s| == 256 witness Zeros(256)
  type Bytes512 = s: seq<byte> | |s| == 512 witness Zeros(512)

  /** What the SDK computes: SHA-256, the next prime, the key pair of two primes, and the
      RSA-PSS signature with a private key of a SHA-256 hash, for the salt that was drawn. */
  datatype Sdk = Sdk(
    sha256: seq<byte> -> Bytes32,
    nextPrime: Bytes256 -> Bytes256,
    publicKey: Bytes512 -> Bytes512,
    privateKey: Bytes512 -> Bytes512,
    rsaSign: (Bytes512, Bytes32, Bytes32) -> Bytes512)

  /** Which SDK calls of one operation report an error: the two seed comparisons, the seed
      derivation, the first failing hash for p and for q (8 and more: none), the two prime
      searches and the key generation. */
  datatype Faults = Faults(compare1: bool, compare2: bool, derive: bool, hashP: nat, hashQ: nat,
                           primeP: bool, primeQ: bool, keygen: bool)

  // ----- deriving a key from a seed ----------------------------------------------

  /** The first n blocks of 32 bytes of a prime's starting point. */
  function PrimeBytes(sdk: Sdk, seed: Bytes32, index: byte, n: nat): (p: seq<byte>)
    requires n <= 8
    ensures |p| == 32 * n
  {
    if n == 0 then []
    else PrimeBytes(sdk, seed, index, n - 1) + sdk.sha256([0, index] + seed + [n - 1])
  }

  /** The top bit is set so that the number has its full length. */
  function SetTopBit(p: Bytes256): Bytes256 {
    p[0 := ((p[0] as bv8) | 0x80) as byte]
  }

  function Prime(sdk: Sdk, seed: Bytes32, index: byte): Bytes256 {
    sdk.nextPrime(SetTopBit(PrimeBytes(sdk, seed, index, 8)))
  }

  /** The two primes of a seed, side by side. */
  function Primes(sdk: Sdk, seed: Bytes32): Bytes512 {
    Prime(sdk, seed, 0) + Prime(sdk, seed, 1)
  }

  function PublicKey(sdk: Sdk, seed: Bytes32): Bytes512 {
    sdk.publicKey(Primes(sdk, seed))
  }

  function PrivateKey(sdk: Sdk, seed: Bytes32): Bytes512 {
    sdk.privateKey(Primes(sdk, seed))
  }

  // ----- the state ---------------------------------------------------------------

  /** One entry of N_crypto_store. */
  datatype Slot = Slot(masterSeed: Bytes32, pq: Bytes512, rsaPub: Bytes512, rsaPriv: Bytes512, initialized: bool)

  const EMPTY_SLOT: Slot := Slot(Zeros(32), Zeros(512), Zeros(512), Zeros(512), false)

  type Slots = s: seq<Slot> | |s| == 2 witness [EMPTY_SLOT, EMPTY_SLOT]

  /** The slots in flash, and the RAM variables slot_in_use and device_initialized. */
  datatype State = State(slots: Slots, inUse: nat, ready: bool)

  predicate PrimesFound(f: Faults) {
    f.hashP >= 8 && f.hashQ >= 8 && !f.primeP && !f.primeQ
  }

  /** same_masterseed: an SDK error counts as "different". */
  predicate SameSeed(s: State, k: nat, seed: Bytes32, fault: bool) {
    k < 2 && !fault && s.slots[k].masterSeed == seed
  }

  /** crypto_initialize_slot: what a failure at each stage leaves behind. */
  function InitializeSlot(sdk: Sdk, s: State, seed: Bytes32, f: Faults): (State, bool)
    requires s.inUse < 2
  {
    var k := s.inUse;
    var seeded := s.slots[k].(masterSeed := seed);
    var primed := seeded.(pq := Primes(sdk, seed));
    var keyed := primed.(rsaPub := sdk.publicKey(primed.pq), rsaPriv := sdk.privateKey(primed.pq), initialized := true);
    if f.derive then (s, false)
    else if !PrimesFound(f) then (s.(slots := s.slots[k := seeded]), false)
    else if f.keygen then (s.(slots := s.slots[k := primed]), false)
    else (s.(slots := s.slots[k := keyed], ready := true), true)
  }

  /** crypto_uninitialized_slot */
  function EraseSlot(s: State, k: nat): State
    requires k < 2
  {
    s.(slots := s.slots[k := s.slots[k].(masterSeed := Zeros(32), pq := Zeros(512), rsaPriv := Zeros(512),
                                         initialized := false)])
  }

  datatype Branch = First | Same1 | Second | Same2 | Flush

  /** The decision that crypto_store_init and crypto_store_init_test share. */
  function Choose(s: State, seed: Bytes32, f: Faults): Branch {
    if !s.slots[0].initialized then First
    else if SameSeed(s, 0, seed, f.compare1) then Same1
    else if !s.slots[1].initialized then Second
    else if SameSeed(s, 1, seed, f.compare2) then Same2
    else Flush
  }

  /** crypto_store_init */
  function Init(sdk: Sdk, s: State, seed: Bytes32, f: Faults): (State, bool) {
    match Choose(s, seed, f)
    case First => InitializeSlot(sdk, s.(inUse := 0), seed, f)
    case Same1 => (s.(inUse := 0), true)
    case Second => InitializeSlot(sdk, s.(inUse := 1), seed, f)
    case Same2 => (s.(inUse := 1), true)
    case Flush => InitializeSlot(sdk, EraseSlot(EraseSlot(s, 0), 1).(inUse := 0), seed, f)
  }

  /** crypto_store_init_test */
  function InitTest(s: State, seed: Bytes32, f: Faults): (State, bool) {
    match Choose(s, seed, f)
    case Same1 => (s.(inUse := 0), true)
    case Same2 => (s.(inUse := 1), true)
    case _ => (s, false)
  }

  /** crypto_store_get_pubkey */
  function GetPublicKey(s: State): Option<Bytes512>
    requires s.inUse < 2
  {
    if !s.slots[s.inUse].initialized then None else Some(s.slots[s.inUse].rsaPub)
  }

  /** crypto_store_get_privkey */
  function GetPrivateKey(s: State): Option<Bytes512>
    requires s.inUse < 2
  {
    if !s.slots[s.inUse].initialized then None else Some(s.slots[s.inUse].rsaPriv)
  }

  // ----- the program ---------------------------------------------------------------

  /** The module's variables: the flash arrays N_crypto_store and N_crypto_sig, and the RAM
      variables slot_in_use, device_initialized and signature_set. `seed` is what the
      device's BIP32 derivation gives in this boot. */
  class Store {
    const sdk: Sdk
    const slots: array<Slot>
    const sigs: array<Bytes512>
    var slotInUse: nat
    var deviceInitialized: bool
    var signatureSet: bool
    var seed: Bytes32

    predicate Valid()
      reads this
    {
      slots.Length == 2 && sigs.Length == 2 && slotInUse < 2
    }

    function View(): State
      requires Valid()
      reads this, slots
    {
      State(slots[..], slotInUse, deviceInitialized)
    }

    /** A boot: flash is what it was, RAM starts from its initial values. */
    constructor Boot(sdk: Sdk, flash: Slots, flashSigs: seq<Bytes512>, seed: Bytes32)
      requires |flashSigs| == 2
      ensures Valid() && View() == State(flash, 0, false)
      ensures this.sdk == sdk && this.seed == seed && !signatureSet && sigs[..] == flashSigs
      ensures fresh(slots) && fresh(sigs)
    {
      this.sdk := sdk;
      this.seed := seed;
      slots := new Slot[2](i requires 0 <= i < 2 => flash[i]);
      sigs := new Bytes512[2](i requires 0 <= i < 2 => flashSigs[i]);
      slotInUse, deviceInitialized, signatureSet := 0, false, false;
    }

    /** crypto_store_slot_is_initialized */
    function SlotIsInitialized(slot: nat): bool
      requires Valid() && slot < 2
      reads this, slots
    {
      slots[slot].initialized
    }

    /** same_masterseed */
    method SameMasterSeed(slot: nat, fault: bool) returns (same: bool)
      requires Valid()
      ensures same == SameSeed(View(), slot, seed, fault)
    {
      if slot > 1 {
        return false;
      }
      same := false;
      if !fault {
        same := slots[slot].masterSeed == seed;
      }
    }

    /** crypto_deriveMasterSeed */
    method DeriveMasterSeed(fault: bool) returns (ok: bool)
      requires Valid()
      modifies slots
      ensures ok == !fault
      ensures slots[..] == if fault then old(slots[..])
                           else old(slots[..])[slotInUse := old(slots[slotInUse]).(masterSeed := seed)]
    {
      ok := false;
      if !fault {
        slots[slotInUse] := slots[slotInUse].(masterSeed := seed);
        ok := true;
      }
    }

    /** crypto_derivePrime: eight hashes, written one after the other from `at` on. */
    method DerivePrime(prime: array<byte>, at: nat, index: byte, failing: nat) returns (ok: bool)
      requires Valid() && at + RSA_PRIME_LEN <= prime.Length
      modifies prime
      ensures ok <==> failing >= 8
      ensures prime[..at] == old(prime[..at])
      ensures prime[at + RSA_PRIME_LEN..] == old(prime[at + RSA_PRIME_LEN..])
      ensures ok ==> prime[at..at + RSA_PRIME_LEN] == PrimeBytes(sdk, slots[slotInUse].masterSeed, index, 8)
    {
      ghost var masterSeed := slots[slotInUse].masterSeed;
      ghost var before := prime[..];
      var data := [0, index] + slots[slotInUse].masterSeed + [0];
      var hashIndex: nat := 0;
      while hashIndex < 8
        invariant hashIndex <= 8 && hashIndex <= failing
        invariant |data| == 35 && data[..34] == [0, index] + masterSeed
        invariant prime[..at] == before[..at] && prime[at + 256..] == before[at + 256..]
        invariant prime[at..at + 32 * hashIndex] == PrimeBytes(sdk, masterSeed, index, hashIndex)
      {
        data := data[34 := hashIndex];
        assert data == [0, index] + masterSeed + [hashIndex];
        if hashIndex == failing {
          return false;
        }
        var block := sdk.sha256(data);
        ghost var done := prime[at..at + 32 * hashIndex];
        forall i | 0 <= i < 32 {
          prime[at + 32 * hashIndex + i] := block[i];
        }
        assert prime[at..at + 32 * (hashIndex + 1)] == done + block;
        hashIndex := hashIndex + 1;
      }
      ok := true;
    }

    /** crypto_init_primes: both primes are found in a local buffer before the slot is
        written. */
    method InitPrimes(f: Faults) returns (ok: bool)
      requires Valid()
      modifies slots
      ensures ok == PrimesFound(f)
      ensures slots[..] == if !ok then old(slots[..])
                           else old(slots[..])[slotInUse := old(slots[slotInUse]).(
                                  pq := Primes(sdk, old(slots[slotInUse].masterSeed)))]
    {
      hide PrimeBytes, SetTopBit;
      ghost var masterSeed := slots[slotInUse].masterSeed;
      var pq := new byte[512](_ => 0);
      ok := DerivePrime(pq, 0, 0, f.hashP);
      if !ok { return; }
      ghost var p := pq[0..256];
      ok := DerivePrime(pq, 256, 1, f.hashQ);
      if !ok { return; }
      ghost var q := pq[256..512];
      assert pq[..256] == p && pq[256..] == q;

      SetTopBitInPlace(pq, 0);
      SetTopBitInPlace(pq, 256);

      // each search starts from the hashed bytes and replaces them
      if f.primeP { return false; }
      NextPrimeInPlace(pq, 0);
      if f.primeQ { return false; }
      NextPrimeInPlace(pq, 256);
      assert pq[..] == pq[..256] + pq[256..];
      slots[slotInUse] := slots[slotInUse].(pq := pq[..]);
    }

    method SetTopBitInPlace(pq: array<byte>, at: nat)
      requires pq.Length == 512 && (at == 0 || at == 256)
      modifies pq
      ensures at == 0 ==> pq[..256] == SetTopBit(old(pq[..256])) && pq[256..] == old(pq[256..])
      ensures at == 256 ==> pq[256..] == SetTopBit(old(pq[256..])) && pq[..256] == old(pq[..256])
    {
      pq[at] := ((pq[at] as bv8) | 0x80) as byte;
    }

    method NextPrimeInPlace(pq: array<byte>, at: nat)
      requires pq.Length == 512 && (at == 0 || at == 256)
      modifies pq
      ensures at == 0 ==> pq[..256] == sdk.nextPrime(old(pq[..256])) && pq[256..] == old(pq[256..])
      ensures at == 256 ==> pq[256..] == sdk.nextPrime(old(pq[256..])) && pq[..256] == old(pq[..256])
    {
      var r := sdk.nextPrime(pq[at..at + 256]);
      assert at == 0 ==> pq[0..256] == pq[..256];
      assert at == 256 ==> pq[256..512] == pq[256..];
      forall i | 0 <= i < 256 {
        pq[at + i] := r[i];
      }
    }

    /** crypto_init_keys: the pair is generated from the stored primes; the slot is marked
        initialised before the two keys are written. */
    method InitKeys(f: Faults) returns (ok: bool)
      requires Valid()
      modifies slots
      ensures ok == !f.keygen
      ensures slots[..] == if !ok then old(slots[..])
                           else old(slots[..])[slotInUse := old(slots[slotInUse]).(
                                  rsaPub := sdk.publicKey(old(slots[slotInUse].pq)),
                                  rsaPriv := sdk.privateKey(old(slots[slotInUse].pq)), initialized := true)]
    {
      if f.keygen {
        return false;
      }
      var rsaPub := sdk.publicKey(slots[slotInUse].pq);
      var rsaPriv := sdk.privateKey(slots[slotInUse].pq);
      ghost var after := slots[..][slotInUse := slots[slotInUse].(
                           rsaPub := rsaPub, rsaPriv := rsaPriv, initialized := true)];
      slots[slotInUse] := slots[slotInUse].(initialized := true);
      slots[slotInUse] := slots[slotInUse].(rsaPub := rsaPub);
      slots[slotInUse] := slots[slotInUse].(rsaPriv := rsaPriv);
      assert slots[..] == after;
      ok := true;
    }

    /** crypto_initialize_slot */
    method InitializeSlotInUse(f: Faults) returns (ok: bool)
      requires Valid()
      modifies slots, this`deviceInitialized
      ensures Valid() && (View(), ok) == InitializeSlot(sdk, old(View()), seed, f)
    {
      hide Primes;
      ghost var before, slot := slots[..], slots[slotInUse];
      ok := DeriveMasterSeed(f.derive);
      if !ok { return; }
      slot := slot.(masterSeed := seed);
      ok := InitPrimes(f);
      assert !ok ==> slots[..] == before[slotInUse := slot];
      if !ok { return; }
      slot := slot.(pq := Primes(sdk, seed));
      assert slots[..] == before[slotInUse := slot];
      ok := InitKeys(f);
      if !ok { return; }
      assert slots[..] == before[slotInUse := slots[slotInUse]];
      deviceInitialized := true;
    }

    /** crypto_uninitialized_slot */
    method UninitializeSlot(slot: nat) returns (ok: bool)
      requires Valid()
      modifies slots
      ensures ok == (slot < 2)
      ensures View() == if ok then EraseSlot(old(View()), slot) else old(View())
    {
      if slot > 1 {
        return false;
      }
      slots[slot] := slots[slot].(pq := Zeros(512));
      slots[slot] := slots[slot].(rsaPriv := Zeros(512));
      slots[slot] := slots[slot].(masterSeed := Zeros(32));
      slots[slot] := slots[slot].(initialized := false);
      ok := true;
    }

    /** crypto_store_init */
    method InitStore(f: Faults) returns (ok: bool)
      requires Valid()
      modifies slots, this`slotInUse, this`deviceInitialized
      ensures Valid() && (View(), ok) == Init(sdk, old(View()), seed, f)
    {
      hide InitializeSlot;
      if !SlotIsInitialized(0) {
        slotInUse := 0;
        ok := InitializeSlotInUse(f);
        return;
      }
      var same := SameMasterSeed(0, f.compare1);
      if same {
        slotInUse := 0;
        return true;
      }
      if !SlotIsInitialized(1) {
        slotInUse := 1;
        ok := InitializeSlotInUse(f);
        return;
      }
      same := SameMasterSeed(1, f.compare2);
      if same {
        slotInUse := 1;
        return true;
      }
      ok := UninitializeSlot(0);
      ok := UninitializeSlot(1);
      slotInUse := 0;
      ok := InitializeSlotInUse(f);
    }

    /** crypto_store_init_test */
    method TestStore(f: Faults) returns (ok: bool)
      requires Valid()
      modifies this`slotInUse
      ensures Valid() && (View(), ok) == InitTest(old(View()), seed, f)
    {
      if !SlotIsInitialized(0) {
        return false;
      }
      var same := SameMasterSeed(0, f.compare1);
      if same {
        slotInUse := 0;
        return true;
      }
      if !SlotIsInitialized(1) {
        return false;
      }
      same := SameMasterSeed(1, f.compare2);
      if same {
        slotInUse := 1;
        return true;
      }
      ok := false;
    }

    /** crypto_pubkey_part: one half of the modulus, from an initialised slot only. */
    method PublicKeyPart(index: nat) returns (part: Option<seq<byte>>)
      requires Valid()
      ensures part == if GetPublicKey(View()).None? || index > 1 then None
                      else Some(GetPublicKey(View()).value[256 * index..256 * index + 256])
    {
      if !SlotIsInitialized(slotInUse) || index > 1 {
        return None;
      }
      part := Some(slots[slotInUse].rsaPub[256 * index..256 * index + 256]);
    }

    // ----- the stored signature ------------------------------------------------------

    /** crypto_store_signature */
    method StoreSignature(sig: Bytes512)
      requires Valid()
      modifies sigs, this`signatureSet
      ensures sigs[..] == old(sigs[..])[slotInUse := sig] && signatureSet
    {
      sigs[slotInUse] := sig;
      signatureSet := true;
    }

    /** crypto_signature_part: one half of the stored signature; reading the second half
        erases it. */
    method SignaturePart(index: nat) returns (part: Option<seq<byte>>)
      requires Valid()
      modifies sigs, this`signatureSet
      ensures var (after, r) := SignatureRead(SigState(old(sigs[slotInUse]), old(signatureSet)), index);
              part == r && signatureSet == after.stored && sigs[..] == old(sigs[..])[slotInUse := after.sig]
    {
      if !signatureSet {
        return None;
      }
      if index > 1 {
        return None;
      }
      part := Some(sigs[slotInUse][256 * index..256 * index + 256]);
      if index == 1 {
        sigs[slotInUse] := Zeros(512);
        signatureSet := false;
      }
    }
  }

  /** The signature slot of the key in use, and signature_set. */
  datatype SigState = SigState(sig: Bytes512, stored: bool)

  /** Serving a part of the signature. */
  function SignatureRead(s: SigState, index: nat): (SigState, Option<seq<byte>>) {
    if !s.stored || index > 1 then (s, None)
    else
      (if index == 1 then SigState(Zeros(512), false) else s,
       Some(s.sig[256 * index..256 * index + 256]))
  }
}
