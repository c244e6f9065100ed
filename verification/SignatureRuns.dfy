/** Retrieval of the signature over one session: which requests are served, and with what
    (app/src/crypto_store.c:69-95, js/src/index.js:347-375). */
module SignatureRuns {
  import opened Bytes
  import opened KeyStore

  /** A signing that was approved and stored a signature, or a request for a part; the commands
      of the device are mapped to these in DeviceRuns. */
  datatype Event = Stored(sig: Bytes512) | ReadPart(index: nat)

  function Step(s: SigState, e: Event): (SigState, Option<seq<byte>>) {
    match e
    case Stored(sig) => (SigState(sig, true), None)
    case ReadPart(index) => SignatureRead(s, index)
  }

  function Run(s: SigState, events: seq<Event>): SigState {
    if events == [] then s
    else Step(Run(s, events[..|events| - 1]), events[|events| - 1]).0
  }

  lemma {:induction false} RunAppend(s: SigState, a: seq<Event>, b: seq<Event>)
    ensures Run(s, a + b) == Run(Run(s, a), b)
    decreases |b|
  {
    if b == [] {
      assert a + b == a;
    } else {
      var n := |b| - 1;
      assert (a + b)[..|a| + n] == a + b[..n];
      RunAppend(s, a, b[..n]);
    }
  }

  /** The latest signature, not read to its end since. */
  predicate Live(events: seq<Event>, k: nat) {
    && k < |events| && events[k].Stored?
    && forall j :: k < j < |events| ==> events[j].ReadPart? && events[j].index != 1
  }

  predicate EverStored(events: seq<Event>) {
    exists k :: 0 <= k < |events| && events[k].Stored?
  }

  /** In every session: a signature can be read exactly from when it is stored until the
      first request for its second half; what is served is the latest one; once it has been
      read to its end, zeros are stored until the next one. */
  lemma {:induction false} SessionState(s: SigState, events: seq<Event>)
    requires !s.stored
    ensures Run(s, events).stored <==> exists k: nat :: Live(events, k)
    ensures forall k: nat :: Live(events, k) ==> Run(s, events).sig == events[k].sig
    ensures !Run(s, events).stored && EverStored(events) ==> Run(s, events).sig == Zeros(512)
    ensures !EverStored(events) ==> Run(s, events).sig == s.sig
    decreases |events|
  {
    if events != [] {
      var n := |events| - 1;
      var front, last := events[..n], events[n];
      SessionState(s, front);
      assert forall k :: 0 <= k < n ==> front[k] == events[k];
      if last.Stored? {
        assert Live(events, n);
      } else {
        EverStoredFront(events);
        forall k: nat ensures Live(events, k) <==> Live(front, k) && last.index != 1 {
          if Live(front, k) && last.index != 1 {
            assert Live(events, k);
          }
        }
      }
    }
  }

  lemma EverStoredFront(events: seq<Event>)
    requires events != [] && events[|events| - 1].ReadPart?
    ensures EverStored(events) <==> EverStored(events[..|events| - 1])
  {
    var front := events[..|events| - 1];
    if EverStored(events) {
      var k :| 0 <= k < |events| && events[k].Stored?;
      assert front[k].Stored?;
    }
  }

  /** Requests that leave the signature in place: everything but a part beyond the first. */
  predicate Harmless(events: seq<Event>) {
    forall j :: 0 <= j < |events| ==> events[j].ReadPart? && events[j].index != 1
  }

  lemma {:induction false} HarmlessRun(s: SigState, events: seq<Event>)
    requires Harmless(events)
    ensures Run(s, events) == s
    decreases |events|
  {
    if events != [] { HarmlessRun(s, events[..|events| - 1]); }
  }

  /** The two requests of the host after a signing, with any harmless requests around them:
      the parts put together are the signature; afterwards nothing is left to read. */
  lemma Retrieval(s: SigState, before: seq<Event>, sig: Bytes512, mid1: seq<Event>, mid2: seq<Event>)
    requires Harmless(mid1) && Harmless(mid2)
    ensures var s1 := Run(s, before + [Stored(sig)] + mid1);
            var (s2, part0) := Step(s1, ReadPart(0));
            var (s3, part1) := Step(Run(s2, mid2), ReadPart(1));
            && part0.Some? && part1.Some? && part0.value + part1.value == sig
            && s3 == SigState(Zeros(512), false)
  {
    var s0 := Run(s, before);
    RunAppend(s, before + [Stored(sig)], mid1);
    RunAppend(s, before, [Stored(sig)]);
    assert Run(s0, [Stored(sig)]) == Step(Run(s0, [Stored(sig)][..0]), Stored(sig)).0;
    HarmlessRun(SigState(sig, true), mid1);
    HarmlessRun(SigState(sig, true), mid2);
    assert sig[0..256] + sig[256..512] == sig;
  }

  predicate NoStore(events: seq<Event>) {
    forall j :: 0 <= j < |events| ==> events[j].ReadPart?
  }

  /** After the second half has been read, no request is served until the next signing. */
  lemma {:induction false} NothingAfterSecondHalf(events: seq<Event>, index: nat)
    requires NoStore(events)
    ensures Run(SigState(Zeros(512), false), events) == SigState(Zeros(512), false)
    ensures Step(Run(SigState(Zeros(512), false), events), ReadPart(index)).1 == None
    decreases |events|
  {
    if events != [] { NothingAfterSecondHalf(events[..|events| - 1], index); }
  }
}
