/** What the key store keeps over whole lives of the device: any number of boots, with any
    seeds, and any failures of the SDK (app/src/crypto_store.c, app/src/common/main.c:37-48). */
module KeyStoreRuns {
  import opened Bytes
  import opened KeyStore

  // ----- boots and initialisation attempts ---------------------------------------

  /** The device: its state, and the seed of the current boot. */
  datatype Device = Device(s: State, seed: Bytes32)

  /** A boot clears the RAM and checks the store; while the device is not initialised, the
      user may run the initialisation, as often as it takes. */
  datatype Event = Boot(seed: Bytes32, faults: Faults) | Initialise(faults: Faults)

  function Step(sdk: Sdk, d: Device, e: Event): Device {
    match e
    case Boot(seed, f) =>
      var (s, ok) := InitTest(State(d.s.slots, 0, false), seed, f);
      Device(s.(ready := ok), seed)
    case Initialise(f) =>
      if d.s.ready then d else d.(s := Init(sdk, d.s, d.seed, f).0)
  }

  function Run(sdk: Sdk, d: Device, events: seq<Event>): Device {
    if events == [] then d
    else Step(sdk, Run(sdk, d, events[..|events| - 1]), events[|events| - 1])
  }

  /** The start of main: the store is looked at once in every boot. */
  method BootAndTest(sdk: Sdk, ghost d: Device, flash: Slots, flashSigs: seq<Bytes512>, seed: Bytes32, f: Faults)
    returns (store: Store)
    requires flash == d.s.slots && |flashSigs| == 2
    ensures fresh(store) && fresh(store.slots) && fresh(store.sigs)
    ensures store.Valid() && !store.signatureSet && store.sdk == sdk && store.seed == seed
    ensures store.sigs[..] == flashSigs
    ensures Device(store.View(), store.seed) == Step(sdk, d, Boot(seed, f))
  {
    store := new Store.Boot(sdk, flash, flashSigs, seed);
    var ok := store.TestStore(f);
    store.deviceInitialized := ok;
  }

  /** The initialisation screen, shown only while the device is not initialised. */
  method OfferInitialise(store: Store, f: Faults)
    requires store.Valid()
    modifies store.slots, store`slotInUse, store`deviceInitialized
    ensures store.Valid()
    ensures Device(store.View(), store.seed) == Step(store.sdk, Device(old(store.View()), store.seed), Initialise(f))
  {
    if !store.deviceInitialized {
      var ok := store.InitStore(f);
    }
  }

  // ----- every initialised slot holds derived keys ---------------------------------

  /** The cached values are the ones that recomputing them from the stored seed gives. */
  predicate Derived(sdk: Sdk, slot: Slot) {
    slot.initialized ==>
      && slot.pq == Primes(sdk, slot.masterSeed)
      && slot.rsaPub == sdk.publicKey(slot.pq)
      && slot.rsaPriv == sdk.privateKey(slot.pq)
  }

  predicate Consistent(sdk: Sdk, d: Device) {
    && d.s.inUse < 2
    && Derived(sdk, d.s.slots[0]) && Derived(sdk, d.s.slots[1])
    && (d.s.ready ==> Holds(d.s, d.s.inUse, d.seed))
  }

  predicate Holds(s: State, k: nat, seed: Bytes32) {
    k < 2 && s.slots[k].initialized && s.slots[k].masterSeed == seed
  }

  lemma StepKeepsConsistent(sdk: Sdk, d: Device, e: Event)
    requires Consistent(sdk, d)
    ensures Consistent(sdk, Step(sdk, d, e))
  {
    hide Primes;
  }

  /** Over every sequence of boots and attempts, with any seeds and any failures. */
  lemma {:induction false} RunKeepsConsistent(sdk: Sdk, d: Device, events: seq<Event>)
    requires Consistent(sdk, d)
    ensures Consistent(sdk, Run(sdk, d, events))
    decreases |events|
  {
    hide Consistent, Step;
    if events != [] {
      RunKeepsConsistent(sdk, d, events[..|events| - 1]);
      StepKeepsConsistent(sdk, Run(sdk, d, events[..|events| - 1]), events[|events| - 1]);
    }
  }

  /** A device as it is installed: no slot initialised. */
  predicate Blank(d: Device) {
    d.s.inUse < 2 && !d.s.ready && !d.s.slots[0].initialized && !d.s.slots[1].initialized
  }

  /** Whenever device_initialized is set, the key that is served is the key derived afresh
      from the seed of the current boot. */
  lemma ServedKeyIsFresh(sdk: Sdk, d: Device, events: seq<Event>)
    requires Blank(d) && Run(sdk, d, events).s.ready
    ensures Run(sdk, d, events).s.inUse < 2
    ensures GetPublicKey(Run(sdk, d, events).s) == Some(PublicKey(sdk, Run(sdk, d, events).seed))
  {
    hide Primes, Run;
    RunKeepsConsistent(sdk, d, events);
  }

  /** A ready device: both halves of the key pair in use are derived from the current seed. */
  lemma KeysInUse(sdk: Sdk, d: Device)
    requires Consistent(sdk, d) && d.s.ready
    ensures GetPublicKey(d.s) == Some(PublicKey(sdk, d.seed))
    ensures GetPrivateKey(d.s) == Some(PrivateKey(sdk, d.seed))
  {
    hide Primes;
  }

  // ----- runs in which the seed comparison never reports an error -------------------

  predicate CompareOk(f: Faults) {
    !f.compare1 && !f.compare2
  }

  predicate AllCompareOk(events: seq<Event>) {
    forall i :: 0 <= i < |events| ==> CompareOk(events[i].faults)
  }

  /** Slot 2 is only used when slot 1 is, and then for another seed. */
  predicate Ordered(s: State) {
    s.slots[1].initialized ==>
      s.slots[0].initialized && s.slots[0].masterSeed != s.slots[1].masterSeed
  }

  lemma StepKeepsOrdered(sdk: Sdk, d: Device, e: Event)
    requires d.s.inUse < 2 && Ordered(d.s) && CompareOk(e.faults)
    ensures Ordered(Step(sdk, d, e).s) && Step(sdk, d, e).s.inUse < 2
  {
    hide Primes;
  }

  lemma {:induction false} RunKeepsOrdered(sdk: Sdk, d: Device, events: seq<Event>)
    requires d.s.inUse < 2 && Ordered(d.s) && AllCompareOk(events)
    ensures Ordered(Run(sdk, d, events).s) && Run(sdk, d, events).s.inUse < 2
    decreases |events|
  {
    hide Ordered, Step;
    if events != [] {
      var front := events[..|events| - 1];
      assert AllCompareOk(front);
      RunKeepsOrdered(sdk, d, front);
      StepKeepsOrdered(sdk, Run(sdk, d, front), events[|events| - 1]);
    }
  }

  /** That slot 2 is only used when slot 1 is holds without any condition. */
  predicate SecondNeedsFirst(s: State) {
    s.slots[1].initialized ==> s.slots[0].initialized
  }

  lemma StepKeepsSecondNeedsFirst(sdk: Sdk, d: Device, e: Event)
    requires d.s.inUse < 2 && SecondNeedsFirst(d.s)
    ensures SecondNeedsFirst(Step(sdk, d, e).s) && Step(sdk, d, e).s.inUse < 2
  {
    hide Primes;
  }

  lemma {:induction false} RunKeepsSecondNeedsFirst(sdk: Sdk, d: Device, events: seq<Event>)
    requires d.s.inUse < 2 && SecondNeedsFirst(d.s)
    ensures SecondNeedsFirst(Run(sdk, d, events).s) && Run(sdk, d, events).s.inUse < 2
    decreases |events|
  {
    hide SecondNeedsFirst, Step;
    if events != [] {
      var front := events[..|events| - 1];
      RunKeepsSecondNeedsFirst(sdk, d, front);
      StepKeepsSecondNeedsFirst(sdk, Run(sdk, d, front), events[|events| - 1]);
    }
  }

  /** The seed of slot 1 is given to slot 2 as well: its comparison fails although it holds the
      seed, and the initialisation of slot 2 then succeeds. */
  predicate Duplicates(d: Device, e: Event) {
    && e.Initialise? && !d.s.ready && Choose(d.s, d.seed, e.faults) == Second
    && e.faults.compare1 && d.s.slots[0].masterSeed == d.seed
    && !e.faults.derive && PrimesFound(e.faults) && !e.faults.keygen
  }

  lemma StepOrderedExactly(sdk: Sdk, d: Device, e: Event)
    requires d.s.inUse < 2 && Ordered(d.s)
    ensures Ordered(Step(sdk, d, e).s) <==> !Duplicates(d, e)
  {
    hide Primes;
  }

  /** After every step of a run. */
  predicate OrderedThroughout(sdk: Sdk, d: Device, events: seq<Event>) {
    && Ordered(Run(sdk, d, events).s)
    && (events != [] ==> OrderedThroughout(sdk, d, events[..|events| - 1]))
  }

  predicate DuplicatesAnywhere(sdk: Sdk, d: Device, events: seq<Event>) {
    events != [] &&
    var front := events[..|events| - 1];
    DuplicatesAnywhere(sdk, d, front) || Duplicates(Run(sdk, d, front), events[|events| - 1])
  }

  /** Two initialised slots hold different seeds throughout a run exactly if no step of it puts
      one seed into both. */
  lemma {:induction false} RunOrderedExactly(sdk: Sdk, d: Device, events: seq<Event>)
    requires d.s.inUse < 2 && Ordered(d.s)
    ensures OrderedThroughout(sdk, d, events) <==> !DuplicatesAnywhere(sdk, d, events)
    decreases |events|
  {
    hide Ordered, Step, Duplicates;
    if events != [] {
      var front := events[..|events| - 1];
      RunOrderedExactly(sdk, d, front);
      RunKeepsInUse(sdk, d, front);
      if OrderedThroughout(sdk, d, front) {
        StepOrderedExactly(sdk, Run(sdk, d, front), events[|events| - 1]);
      }
    }
  }

  lemma {:induction false} RunKeepsInUse(sdk: Sdk, d: Device, events: seq<Event>)
    requires d.s.inUse < 2
    ensures Run(sdk, d, events).s.inUse < 2
    decreases |events|
  {
    hide Step;
    if events != [] {
      RunKeepsInUse(sdk, d, events[..|events| - 1]);
      StepKeepsInUse(sdk, Run(sdk, d, events[..|events| - 1]), events[|events| - 1]);
    }
  }

  lemma StepKeepsInUse(sdk: Sdk, d: Device, e: Event)
    requires d.s.inUse < 2
    ensures Step(sdk, d, e).s.inUse < 2
  {
    hide Primes;
  }

  /** An initialised slot is changed by this step. */
  predicate Erases(sdk: Sdk, d: Device, e: Event) {
    exists k :: 0 <= k < 2 && d.s.slots[k].initialized && Step(sdk, d, e).s.slots[k] != d.s.slots[k]
  }

  /** An initialised slot changes exactly when an uninitialised device is initialised while
      both slots are, and neither is found to hold the seed. */
  lemma ErasesExactly(sdk: Sdk, d: Device, e: Event)
    requires d.s.inUse < 2
    ensures Erases(sdk, d, e) <==>
            && e.Initialise? && !d.s.ready
            && d.s.slots[0].initialized && (d.s.slots[0].masterSeed != d.seed || e.faults.compare1)
            && d.s.slots[1].initialized && (d.s.slots[1].masterSeed != d.seed || e.faults.compare2)
  {
    hide Primes;
    if e.Initialise? && !d.s.ready {
      if Choose(d.s, d.seed, e.faults) == Flush {
        var s := EraseSlot(EraseSlot(d.s, 0), 1).(inUse := 0);
        assert !Init(sdk, d.s, d.seed, e.faults).0.slots[1].initialized;
      }
    }
  }

  /** So with two seeds a slot is erased exactly if the comparison with the one slot that holds
      the current seed reports an error: that slot is erased too. */
  lemma TwoSeedsEraseExactly(sdk: Sdk, d: Device, e: Event, a: Bytes32, b: Bytes32)
    requires Knows(d, a, b)
    ensures Erases(sdk, d, e) <==>
            && e.Initialise? && !d.s.ready && d.s.slots[0].initialized && d.s.slots[1].initialized
            && (if d.s.slots[0].masterSeed == d.seed then e.faults.compare1 else e.faults.compare2)
  {
    hide Primes;
    ErasesExactly(sdk, d, e);
  }

  /** The failing case: slot 1 holds the current seed, the comparison with it fails, and when
      the derivation fails as well no key is left, neither for this seed nor for the other. */
  lemma CurrentSeedErased(sdk: Sdk, d: Device, f: Faults)
    requires d.s.inUse < 2 && Ordered(d.s) && !d.s.ready && d.s.slots[1].initialized
    requires d.s.slots[0].masterSeed == d.seed && f.compare1 && f.derive
    ensures Erases(sdk, d, Initialise(f))
    ensures InitialisedSlots(d.s) == 2 && InitialisedSlots(Step(sdk, d, Initialise(f)).s) == 0
  {
    hide Primes;
    ErasesExactly(sdk, d, Initialise(f));
  }

  /** No private data of an earlier seed: what the slot holds is zero or belongs to this one. */
  predicate NothingPrivateBut(sdk: Sdk, slot: Slot, seed: Bytes32) {
    && slot.masterSeed in {Zeros(32), seed}
    && slot.pq in {Zeros(512), Primes(sdk, seed)}
    && slot.rsaPriv in {Zeros(512), sdk.privateKey(Primes(sdk, seed))}
  }

  /** After an initialisation for a third seed, successful or not, nothing private of the two
      earlier seeds is left in flash. */
  lemma ThirdSeedClears(sdk: Sdk, s: State, seed: Bytes32, f: Faults)
    requires s.inUse < 2 && Choose(s, seed, f) == Flush
    ensures var after := Init(sdk, s, seed, f).0;
            && NothingPrivateBut(sdk, after.slots[0], seed)
            && NothingPrivateBut(sdk, after.slots[1], seed) && !after.slots[1].initialized
            && (after.slots[0].initialized <==> Init(sdk, s, seed, f).1)
  {
    hide Primes;
  }

  /** The step generates a key pair and stores it. */
  predicate Generates(sdk: Sdk, d: Device, e: Event) {
    e.Initialise? && !d.s.ready && Step(sdk, d, e).s.ready
  }

  function Generations(sdk: Sdk, d: Device, events: seq<Event>): nat {
    if events == [] then 0
    else
      var front := events[..|events| - 1];
      Generations(sdk, d, front) +
      if Generates(sdk, Run(sdk, d, front), events[|events| - 1]) then 1 else 0
  }

  predicate ErasesAnywhere(sdk: Sdk, d: Device, events: seq<Event>) {
    exists i :: 0 <= i < |events| && Erases(sdk, Run(sdk, d, events[..i]), events[i])
  }

  function InitialisedSlots(s: State): nat {
    (if s.slots[0].initialized then 1 else 0) + (if s.slots[1].initialized then 1 else 0)
  }

  predicate SeedIn(seed: Bytes32, a: Bytes32, b: Bytes32) {
    seed == a || seed == b
  }

  predicate SeedsIn(events: seq<Event>, a: Bytes32, b: Bytes32) {
    forall i :: 0 <= i < |events| && events[i].Boot? ==> SeedIn(events[i].seed, a, b)
  }

  /** Every seed the device knows is one of two. */
  predicate Knows(d: Device, a: Bytes32, b: Bytes32) {
    && d.s.inUse < 2 && Ordered(d.s) && SeedIn(d.seed, a, b)
    && (d.s.slots[0].initialized ==> SeedIn(d.s.slots[0].masterSeed, a, b))
    && (d.s.slots[1].initialized ==> SeedIn(d.s.slots[1].masterSeed, a, b))
  }

  lemma StepWithTwoSeeds(sdk: Sdk, d: Device, e: Event, a: Bytes32, b: Bytes32)
    requires Knows(d, a, b) && CompareOk(e.faults)
    requires e.Boot? ==> SeedIn(e.seed, a, b)
    ensures Knows(Step(sdk, d, e), a, b) && !Erases(sdk, d, e)
    ensures InitialisedSlots(Step(sdk, d, e).s)
         == InitialisedSlots(d.s) + if Generates(sdk, d, e) then 1 else 0
  {
    hide Primes;
    ErasesExactly(sdk, d, e);
  }

  /** With at most two seeds nothing is ever erased, and the number of key generations is
      the number of slots that became initialised: at most two. */
  lemma {:induction false} TwoSeedsNeverErase(sdk: Sdk, d: Device, events: seq<Event>, a: Bytes32, b: Bytes32)
    requires Knows(d, a, b) && AllCompareOk(events) && SeedsIn(events, a, b)
    ensures Knows(Run(sdk, d, events), a, b) && !ErasesAnywhere(sdk, d, events)
    ensures Generations(sdk, d, events) + InitialisedSlots(d.s) == InitialisedSlots(Run(sdk, d, events).s)
    ensures Generations(sdk, d, events) <= 2
    decreases |events|
  {
    hide Knows, Step, Erases, Generates;
    if events != [] {
      var n := |events| - 1;
      var front := events[..n];
      assert AllCompareOk(front) && SeedsIn(front, a, b);
      TwoSeedsNeverErase(sdk, d, front, a, b);
      StepWithTwoSeeds(sdk, Run(sdk, d, front), events[n], a, b);
      forall i | 0 <= i < |events| ensures !Erases(sdk, Run(sdk, d, events[..i]), events[i]) {
        if i < n {
          assert front[..i] == events[..i] && front[i] == events[i];
        }
      }
    }
  }

  // ----- the check at boot and the initialisation agree ------------------------------

  predicate Initialises(b: Branch) {
    b == First || b == Second || b == Flush
  }

  /** A positive check means that the initialisation would pick the same slot and write nothing;
      a negative one means that it would initialise a slot. */
  lemma TestAndInitAgree(sdk: Sdk, s: State, seed: Bytes32, f: Faults, g: Faults)
    requires CompareOk(f) && CompareOk(g)
    ensures InitTest(s, seed, f).0.slots == s.slots
    ensures InitTest(s, seed, f).1 ==>
              && Init(sdk, s, seed, g) == InitTest(s, seed, f)
              && Init(sdk, InitTest(s, seed, f).0, seed, g) == InitTest(s, seed, f)
              && Holds(InitTest(s, seed, f).0, InitTest(s, seed, f).0.inUse, seed)
    ensures !InitTest(s, seed, f).1 ==> Initialises(Choose(InitTest(s, seed, f).0, seed, g))
  {
  }

  /** A failed attempt leaves the next one on an initialising branch too; slots are erased at
      most once on the way to success. */
  lemma FailedAttempt(sdk: Sdk, s: State, seed: Bytes32, f: Faults, g: Faults)
    requires CompareOk(f) && CompareOk(g) && Initialises(Choose(s, seed, f))
    requires !Init(sdk, s, seed, f).1
    ensures Initialises(Choose(Init(sdk, s, seed, f).0, seed, g))
    ensures Choose(s, seed, f) == Flush ==> Choose(Init(sdk, s, seed, f).0, seed, g) == First
    ensures Choose(s, seed, f) != Flush ==> Choose(Init(sdk, s, seed, f).0, seed, g) == Choose(s, seed, f)
  {
    hide Primes;
  }

  predicate OnlyAttempts(events: seq<Event>) {
    forall i :: 0 <= i < |events| ==> events[i].Initialise?
  }

  /** Retrying after a negative check: every attempt tries to initialise until one succeeds. */
  lemma {:induction false} AttemptsUntilSuccess(sdk: Sdk, d: Device, events: seq<Event>, g: Faults)
    requires !d.s.ready && Initialises(Choose(d.s, d.seed, g)) && CompareOk(g)
    requires OnlyAttempts(events) && AllCompareOk(events)
    ensures Run(sdk, d, events).seed == d.seed
    ensures Run(sdk, d, events).s.ready || Initialises(Choose(Run(sdk, d, events).s, d.seed, g))
    decreases |events|
  {
    hide Choose, Init;
    if events != [] {
      var front := events[..|events| - 1];
      var f := events[|events| - 1].faults;
      assert OnlyAttempts(front) && AllCompareOk(front);
      AttemptsUntilSuccess(sdk, d, front, g);
      var m := Run(sdk, d, front);
      if !m.s.ready {
        SameChoice(m.s, m.seed, f, g);
        AttemptResult(sdk, m.s, m.seed, f);
        if !Init(sdk, m.s, m.seed, f).1 {
          FailedAttempt(sdk, m.s, m.seed, f, g);
        }
      }
    }
  }

  lemma SameChoice(s: State, seed: Bytes32, f: Faults, g: Faults)
    requires CompareOk(f) && CompareOk(g)
    ensures Choose(s, seed, f) == Choose(s, seed, g)
  {
  }

  /** After a successful attempt every later boot with that seed, and no other seed in
      between, finds the same key in the same slot, and nothing is written. */
  lemma {:induction false} LaterBoots(sdk: Sdk, d: Device, events: seq<Event>)
    requires d.s.ready && Ordered(d.s) && Holds(d.s, d.s.inUse, d.seed)
    requires AllCompareOk(events) && SeedsIn(events, d.seed, d.seed)
    ensures Run(sdk, d, events) == d
    decreases |events|
  {
    hide Primes, Init;
    if events != [] {
      var front := events[..|events| - 1];
      assert AllCompareOk(front) && SeedsIn(front, d.seed, d.seed);
      LaterBoots(sdk, d, front);
    }
  }

  /** What an initialisation of the slot in use leaves, field by field: each stage writes its
      field only if it and the stages before it succeed, and the other slot is not touched. */
  lemma Stages(sdk: Sdk, s: State, seed: Bytes32, f: Faults)
    requires s.inUse < 2
    ensures var (t, ok) := InitializeSlot(sdk, s, seed, f);
            var was, now := s.slots[s.inUse], t.slots[s.inUse];
            var seeded := !f.derive;
            var primed := seeded && f.hashP >= 8 && f.hashQ >= 8 && !f.primeP && !f.primeQ;
            && ok == (primed && !f.keygen)
            && now.masterSeed == (if seeded then seed else was.masterSeed)
            && now.pq == (if primed then Prime(sdk, seed, 0) + Prime(sdk, seed, 1) else was.pq)
            && now.rsaPub == (if ok then PublicKey(sdk, seed) else was.rsaPub)
            && now.rsaPriv == (if ok then PrivateKey(sdk, seed) else was.rsaPriv)
            && now.initialized == (ok || was.initialized)
            && t.slots[1 - s.inUse] == s.slots[1 - s.inUse]
            && t.inUse == s.inUse && t.ready == (ok || s.ready)
  {
    hide Prime;
  }

  /** What erasing leaves: the public key, and zeros. */
  lemma Erased(s: State, k: nat)
    requires k < 2
    ensures var t := EraseSlot(s, k);
            && t.slots[k] == EMPTY_SLOT.(rsaPub := s.slots[k].rsaPub) && t.slots[1 - k] == s.slots[1 - k]
            && t.inUse == s.inUse && t.ready == s.ready
  {
  }

  // ----- what the status of an attempt means ----------------------------------------

  /** crypto_store_init can report success without setting device_initialized: exactly when
      it finds the seed in a slot instead of initialising one. */
  lemma AttemptResult(sdk: Sdk, s: State, seed: Bytes32, f: Faults)
    requires !s.ready
    ensures Init(sdk, s, seed, f).0.ready <==>
            Init(sdk, s, seed, f).1 && Initialises(Choose(s, seed, f))
  {
    hide Primes;
  }

  /** So a passing comparison error at boot leaves a device whose key is cached, whose
      initialisation then reports success, and which stays unusable until the next boot. */
  lemma SuccessWithoutKey(sdk: Sdk, d: Device, f: Faults, g: Faults)
    requires d.s.slots[0].initialized && !d.s.slots[1].initialized
    requires f.compare1 && !g.compare1
    ensures var booted := Step(sdk, d, Boot(d.s.slots[0].masterSeed, f));
            && !booted.s.ready
            && Init(sdk, booted.s, booted.seed, g) == (booted.s, true)
            && !Step(sdk, booted, Initialise(g)).s.ready
  {
  }

  /** The attempts are only offered while device_initialized is not set. Without comparison
      errors one more attempt would do no harm ... */
  lemma AttemptWhileReady(sdk: Sdk, d: Device, f: Faults)
    requires Consistent(sdk, d) && Ordered(d.s) && d.s.ready && CompareOk(f)
    ensures Init(sdk, d.s, d.seed, f).0.slots == d.s.slots
    ensures Consistent(sdk, d.(s := Init(sdk, d.s, d.seed, f).0))
  {
    hide Primes;
  }

  /** ... with one it can: the flag stays set while the slot in use holds no key. */
  lemma AttemptWhileReadyNeedsComparison(sdk: Sdk, d: Device, f: Faults)
    requires Consistent(sdk, d) && d.s.ready && !d.s.slots[1].initialized
    requires f.compare1 && f.derive
    ensures !Consistent(sdk, d.(s := Init(sdk, d.s, d.seed, f).0))
  {
    hide Primes;
  }

  /** Exactly: an attempt on a ready device is harmless if it finds the seed in a slot, or if
      it initialises one and nothing fails. */
  lemma AttemptWhileReadyExactly(sdk: Sdk, d: Device, f: Faults)
    requires Consistent(sdk, d) && d.s.ready
    ensures Consistent(sdk, d.(s := Init(sdk, d.s, d.seed, f).0)) <==>
            !Initialises(Choose(d.s, d.seed, f)) || (!f.derive && PrimesFound(f) && !f.keygen)
  {
    hide Primes;
  }
}
