/** The host drives a signing (js/src/index.js:313-409) against the device: what the host
    encodes is what the device parses, reviews, hashes and signs, with the key of its seed. */
module EndToEnd {
  import opened Bytes
  import opened WireFormat
  import opened SignProtocol
  import opened KeyStore
  import opened SigningDevice
  import opened HostClient
  import opened DeepHashSpec
  import opened HashUnits
  import opened TxParser
  import Display
  import Fips180
  import KeyStoreRuns

  /** The packet that signSendChunk sends. */
  function PacketOf(t: PayloadType, chunk: seq<byte>): Packet {
    Packet(match t case PayloadInit => P1_INIT case PayloadAdd => P1_ADD case PayloadLast => P1_LAST, 0, chunk)
  }

  /** The buffer after the first k pieces. */
  function Sent(message: Tx, k: nat): seq<byte>
    requires k <= |Pieces(Encode(message))|
  {
    Flatten(Pieces(Encode(message))[..k])
  }

  lemma SentSnoc(message: Tx, k: nat)
    requires k < |Pieces(Encode(message))|
    ensures Sent(message, k + 1) == Sent(message, k) + Pieces(Encode(message))[k]
  {
    hide Pieces, Encode;
    var p := Pieces(Encode(message));
    assert p[..k + 1] == p[..k] + [p[k]];
    FlattenSnoc(p[..k], p[k]);
  }

  lemma SentAll(message: Tx)
    ensures Pieces(Encode(message)) != []
    ensures Sent(message, |Pieces(Encode(message))|) == Encode(message)
    ensures Sent(message, 0) == []
  {
    hide Pieces;
    var p := Pieces(Encode(message));
    PiecesFacts(Encode(message));
    assert p[..|p|] == p && p[..0] == [];
  }

  /** What the device makes of a message. */
  ghost function Verdict(device: Device, key: Option<seq<byte>>, message: Tx): Display.Verdict {
    Display.Judge(device.lib, key, message, device.expert)
  }

  lemma UploadIsJudged(device: Device, key: Option<seq<byte>>, message: Tx)
    requires Valid(message)
    ensures device.Verdict(key, Encode(message)) == Verdict(device, key, message)
  {
    hide ParseTx, Encode, Valid, Display.Judge;
    ReadsEncoding(Encode(message), message);
    Display.EmptyIsNoTransaction();
  }

  // ----- what the host takes from an answer ----------------------------------------

  /** The status words (js/src/common.js:36-50). */
  function CodeBytes(sw: StatusWord): (b: seq<byte>)
    ensures |b| == 2
  {
    match sw
    case CodeOk => [0x90, 0x00]
    case WrongLength => [0x67, 0x00]
    case OutputBufferTooSmall => [0x69, 0x83]
    case DataInvalid => [0x69, 0x84]
    case CommandNotAllowed => [0x69, 0x86]
    case TxNotInitialized => [0x69, 0x87]
    case InvalidP1P2 => [0x6B, 0x00]
    case SignVerifyError => [0x6F, 0x01]
  }

  lemma CodesAsNumbers()
    ensures FromBigEndian(CodeBytes(CodeOk)) == 0x9000 && FromBigEndian(CodeBytes(WrongLength)) == 0x6700
    ensures FromBigEndian(CodeBytes(OutputBufferTooSmall)) == 0x6983
    ensures FromBigEndian(CodeBytes(DataInvalid)) == 0x6984
    ensures FromBigEndian(CodeBytes(CommandNotAllowed)) == 0x6986
    ensures FromBigEndian(CodeBytes(TxNotInitialized)) == 0x6987
    ensures FromBigEndian(CodeBytes(InvalidP1P2)) == 0x6B00
    ensures FromBigEndian(CodeBytes(SignVerifyError)) == 0x6F01
  {
    hide FromBigEndian;
    TwoBytes(CodeBytes(CodeOk));
    TwoBytes(CodeBytes(WrongLength));
    TwoBytes(CodeBytes(OutputBufferTooSmall));
    TwoBytes(CodeBytes(DataInvalid));
    TwoBytes(CodeBytes(CommandNotAllowed));
    TwoBytes(CodeBytes(TxNotInitialized));
    TwoBytes(CodeBytes(InvalidP1P2));
    TwoBytes(CodeBytes(SignVerifyError));
  }

  /** The output that signSendChunk takes from a response, if any: its first 48 bytes, among
      which is the status word when the reply in front of it is shorter. Other status words
      than these two are errors of the transport, without output. */
  function Output(sw: StatusWord, reply: seq<byte>): Option<seq<byte>> {
    var response := reply + CodeBytes(sw);
    if sw != CodeOk && sw != DataInvalid then None
    else if |response| > 2 then Some(if |response| <= 48 then response else response[..48])
    else None
  }

  /** So the host gets a digest as it is, and the text of an error with the status word
      behind it. */
  lemma OutputOfReply(sw: StatusWord, reply: seq<byte>)
    ensures sw == CodeOk && |reply| == 48 ==> Output(sw, reply) == Some(reply)
    ensures sw == DataInvalid && 1 <= |reply| <= 46 ==> Output(sw, reply) == Some(reply + [0x69, 0x84])
    ensures sw != CodeOk && sw != DataInvalid ==> Output(sw, reply) == None
  {
  }

  /** Nothing has been parsed, reviewed or signed. */
  ghost predicate Untouched(device: Device, parsed0: seq<seq<byte>>, reviewed0: seq<Tx>,
                            sigs0: seq<Bytes512>, set0: bool)
    reads device, device.store, device.store.sigs
  {
    device.parsed == parsed0 && device.reviewed == reviewed0 && device.store.sigs[..] == sigs0
    && device.store.signatureSet == set0
  }

  lemma SentIsShorter(message: Tx, k: nat)
    requires k <= |Pieces(Encode(message))|
    ensures |Sent(message, k)| <= |Encode(message)|
  {
    hide Pieces, Encode;
    var p := Pieces(Encode(message));
    SentAll(message);
    FlattenAppend(p[..k], p[k..]);
    assert p[..k] + p[k..] == p[..|p|] == p;
  }

  /** One packet of the loop of signGetDigest, with piece number k of the message. */
  method SendPiece(device: Device, message: Tx, k: nat, decision: Decision, answers: Answers)
    returns (sw: StatusWord, output: Option<seq<byte>>, ghost reply: seq<byte>)
    requires device.Valid() && device.store.deviceInitialized && Valid(message)
    requires k < |Pieces(Encode(message))|
    requires device.handler.View() == Upload(true, Sent(message, k))
    modifies device, device.handler`txInitialized, device.handler.buffer`data, device.ctx, device.txObj,
             device.txObj.tags, device.store.sigs, device.store`signatureSet
    ensures device.Valid() && output == Output(sw, reply)
    ensures |Sent(message, k + 1)| > device.handler.buffer.capacity ==>
              && sw == OutputBufferTooSmall
              && Untouched(device, old(device.parsed), old(device.reviewed),
                           old(device.store.sigs[..]), old(device.store.signatureSet))
    ensures |Sent(message, k + 1)| <= device.handler.buffer.capacity && k + 1 < |Pieces(Encode(message))| ==>
              && sw == CodeOk && device.handler.View() == Upload(true, Sent(message, k + 1))
              && Untouched(device, old(device.parsed), old(device.reviewed),
                           old(device.store.sigs[..]), old(device.store.signatureSet))
    ensures |Sent(message, k + 1)| <= device.handler.buffer.capacity && k + 1 == |Pieces(Encode(message))| ==>
              && device.parsed == old(device.parsed) + [Encode(message)]
              && device.ReviewOutcome(Verdict(device, old(device.Key()), message), decision, answers, sw, reply,
                                      old(device.reviewed), old(device.store.sigs[..]), old(device.store.signatureSet))
  {
    hide Encode, Valid, Pieces, Sent, Verdict, Output;
    var chunks := Chunks(Encode(message));
    SentSnoc(message, k);
    SentAll(message);
    UploadIsJudged(device, device.Key(), message);
    var r;
    sw, r := device.HandleSign(PacketOf(TypeOf(k + 2, |chunks|), chunks[k + 1]), decision, answers);
    output := Output(sw, r);
    reply := r;
  }

  /** The packets of signGetDigest, sent in order until one is not answered with "ok"; the
      answer to the first one is not looked at. If the message fits the device's buffer, the
      device parses exactly the message, and reviews and signs it; otherwise nothing reaches
      parsing. */
  method SendMessage(device: Device, message: Tx, decision: Decision, answers: Answers)
    returns (sw: StatusWord, output: Option<seq<byte>>, ghost reply: seq<byte>)
    requires device.Valid() && device.store.deviceInitialized && Valid(message)
    modifies device, device.handler`txInitialized, device.handler.buffer`data, device.ctx, device.txObj,
             device.txObj.tags, device.store.sigs, device.store`signatureSet
    ensures device.Valid() && output == Output(sw, reply)
    ensures |Encode(message)| <= device.handler.buffer.capacity ==>
              && device.parsed == old(device.parsed) + [Encode(message)]
              && device.ReviewOutcome(Verdict(device, old(device.Key()), message), decision, answers, sw, reply,
                                      old(device.reviewed), old(device.store.sigs[..]), old(device.store.signatureSet))
    ensures |Encode(message)| > device.handler.buffer.capacity ==>
              && sw == OutputBufferTooSmall
              && Untouched(device, old(device.parsed), old(device.reviewed),
                           old(device.store.sigs[..]), old(device.store.signatureSet))
  {
    hide Encode, Valid, Sent, Verdict, Pieces, Output;
    var chunks := PrepareChunks(message);
    ghost var n := |Pieces(Encode(message))|;
    SentAll(message);

    var r;
    sw, r := device.HandleSign(PacketOf(TypeOf(1, |chunks|), chunks[0]), decision, answers);
    output, reply := Output(sw, r), r;
    var i := 1;
    while i < |chunks|
      invariant 1 <= i <= |chunks| == n + 1 && device.Valid() && device.Key() == old(device.Key())
      invariant output == Output(sw, reply)
      invariant i < |chunks| ==>
                  && device.handler.View() == Upload(true, Sent(message, i - 1))
                  && Untouched(device, old(device.parsed), old(device.reviewed),
                               old(device.store.sigs[..]), old(device.store.signatureSet))
      invariant i == |chunks| ==>
                  if |Encode(message)| <= device.handler.buffer.capacity then
                    && device.parsed == old(device.parsed) + [Encode(message)]
                    && device.ReviewOutcome(Verdict(device, old(device.Key()), message), decision, answers, sw, reply,
                                            old(device.reviewed), old(device.store.sigs[..]),
                                            old(device.store.signatureSet))
                  else
                    && sw == OutputBufferTooSmall
                    && Untouched(device, old(device.parsed), old(device.reviewed),
                                 old(device.store.sigs[..]), old(device.store.signatureSet))
    {
      SentIsShorter(message, i);
      sw, output, reply := SendPiece(device, message, i - 1, decision, answers);
      i := i + 1;
      if sw != CodeOk { break; }
    }
  }

  /** The message fits, the user sees and approves it, and the SDK reports no error. */
  ghost predicate CanSucceed(device: Device, key: Option<seq<byte>>, message: Tx, decision: Decision,
                             answers: Answers)
  {
    && |Encode(message)| <= device.handler.buffer.capacity
    && Display.Reviewable(device.lib, key, message, device.expert)
    && decision == Approve && !answers.hashFaulty && answers.salt.Some?
  }

  /** signGetDigest, in the host's terms: the host gets the deep hash of exactly its message,
      or the description of the error for which the device refused it, or no output. */
  method SignGetDigest(device: Device, message: Tx, decision: Decision, answers: Answers)
    returns (sw: StatusWord, digest: Option<seq<byte>>)
    requires device.Valid() && device.store.deviceInitialized && Valid(message)
    modifies device, device.handler`txInitialized, device.handler.buffer`data, device.ctx, device.txObj,
             device.txObj.tags, device.store.sigs, device.store`signatureSet
    ensures device.Valid()
    ensures |Encode(message)| > device.handler.buffer.capacity ==>
              && sw == OutputBufferTooSmall && digest == None
              && Untouched(device, old(device.parsed), old(device.reviewed),
                           old(device.store.sigs[..]), old(device.store.signatureSet))
    ensures |Encode(message)| <= device.handler.buffer.capacity ==>
              && device.parsed == old(device.parsed) + [Encode(message)]
              && match Verdict(device, old(device.Key()), message)
                 case Refused(e) =>
                   && sw == DataInvalid && digest == Some(Display.ErrorText(e) + [0x69, 0x84])
                   && device.reviewed == old(device.reviewed)
                   && device.store.sigs[..] == old(device.store.sigs[..])
                   && device.store.signatureSet == old(device.store.signatureSet)
                 case ForReview(tx) =>
                   && tx == message && device.reviewed == old(device.reviewed) + [message]
                   && (sw == CommandNotAllowed <==> decision == Reject)
                   && (sw == CodeOk ==> digest == Some(Digest(device.hash, message)))
                   && (sw != CodeOk ==> digest == None && sw in {CommandNotAllowed, SignVerifyError})
                   && device.SignedOrNot(message, decision, answers, sw, if digest.Some? then digest.value else [],
                                         old(device.store.sigs[..]), old(device.store.signatureSet))
    ensures GetPrivateKey(device.store.View()).Some? ==>
              CanSucceed(device, old(device.Key()), message, decision, answers) ==> sw == CodeOk
    ensures sw == CodeOk ==>
              && answers.salt.Some? && device.store.signatureSet
              && device.store.sigs[device.store.slotInUse] == device.Signature(message, answers)
  {
    hide Encode, Valid, Verdict, Output, Digest, Display.ErrorText, Display.Reviewable;
    hide Device.Signature, Device.EngineHash, MadeSignature, GetPrivateKey;
    ghost var reply;
    sw, digest, reply := SendMessage(device, message, decision, answers);
    OutputOfReply(sw, reply);
    ForReviewIsMessage(device, old(device.Key()), message);
    DigestLength(device.hash, message);
    assert sw == CodeOk ==>
        device.store.sigs[..][device.store.slotInUse] == device.Signature(message, answers);
  }

  lemma ForReviewIsMessage(device: Device, key: Option<seq<byte>>, message: Tx)
    ensures Verdict(device, key, message).ForReview? <==> Display.Reviewable(device.lib, key, message, device.expert)
    ensures Verdict(device, key, message).ForReview? ==> Verdict(device, key, message).tx == message
  {
    hide Display.Judge, Display.Reviewable;
    Display.JudgeExactly(device.lib, key, message, device.expert);
  }

  lemma DigestLength(h: Hash, tx: Tx)
    ensures |Digest(h, tx)| == 48
  {
    hide TxTree;
  }

  /** The signature of a transaction that belongs to a seed, for a salt. */
  ghost function SeedSignature(sdk: Sdk, seed: Bytes32, h: Hash, tx: Tx, salt: Bytes32): Bytes512 {
    DigestSignature(sdk, PrivateKey(sdk, seed), Digest(h, tx), salt)
  }

  /** What the key store keeps in every run (KeyStoreRuns.RunKeepsConsistent). */
  ghost predicate ConsistentStore(store: Store)
    requires store.Valid()
    reads store, store.slots
  {
    KeyStoreRuns.Consistent(store.sdk, KeyStoreRuns.Device(store.View(), store.seed))
  }

  /** On a ready device the key in use is the one of the seed of the current boot, and so is
      the owner of what can be reviewed. */
  lemma SeedOfSignature(device: Device, message: Tx, answers: Answers)
    requires device.Valid() && device.store.deviceInitialized && ConsistentStore(device.store)
    requires answers.salt.Some?
    ensures GetPrivateKey(device.store.View()).Some?
    ensures device.Signature(message, answers)
         == MadeSignature(device.store.sdk, PrivateKey(device.store.sdk, device.store.seed),
                          Digest(device.hash, message), answers)
    ensures Display.Reviewable(device.lib, device.Key(), message, device.expert) ==>
              message.owner == PublicKey(device.store.sdk, device.store.seed)
  {
    hide Digest, KeyStoreRuns.Consistent, PrivateKey, PublicKey, MadeSignature;
    KeyStoreRuns.KeysInUse(device.store.sdk, KeyStoreRuns.Device(device.store.View(), device.store.seed));
  }

  /** What an answer with "ok" means for the host: the digest is that of its message, the owner
      belongs to the seed, and the signature was made with the private key of the seed ... */
  ghost predicate AnsweredBySeed(sdk: Sdk, seed: Bytes32, h: Hash, message: Tx, answers: Answers,
                                 deepHash: Option<seq<byte>>, signature: seq<byte>)
  {
    && message.owner == PublicKey(sdk, seed)
    && deepHash == Some(Digest(h, message))
    && answers.salt.Some?
    && signature == MadeSignature(sdk, PrivateKey(sdk, seed), Digest(h, message), answers)
  }

  /** ... and, if the SHA-256 call reported no error, it is the signature of that digest. */
  ghost predicate SignedBySeed(sdk: Sdk, seed: Bytes32, h: Hash, message: Tx, answers: Answers,
                               deepHash: Option<seq<byte>>, signature: seq<byte>)
  {
    && message.owner == PublicKey(sdk, seed)
    && deepHash == Some(Digest(h, message))
    && answers.salt.Some?
    && signature == SeedSignature(sdk, seed, h, message, answers.salt.value)
  }

  lemma AnsweredIsSigned(sdk: Sdk, seed: Bytes32, h: Hash, message: Tx, answers: Answers,
                         deepHash: Option<seq<byte>>, signature: seq<byte>)
    requires AnsweredBySeed(sdk, seed, h, message, answers, deepHash, signature) && answers.left.None?
    ensures SignedBySeed(sdk, seed, h, message, answers, deepHash, signature)
  {
    hide Digest, PrivateKey, PublicKey;
  }

  /** Whatever the SDK computes, an answer with "ok" comes with the signature of the digest
      exactly when the SHA-256 call reported no error. */
  lemma SignedExactly(seed: Bytes32, h: Hash, message: Tx, answers: Answers)
    requires Valid(message) && answers.salt.Some?
    ensures answers.left.None? <==>
            forall sdk: Sdk, signature: seq<byte> ::
              AnsweredBySeed(sdk, seed, h, message, answers, Some(Digest(h, message)), signature) ==>
              SignedBySeed(sdk, seed, h, message, answers, Some(Digest(h, message)), signature)
  {
    hide Digest, Primes;
    if answers.left.Some? {
      var sdk := ContrarySdk(message.owner, answers.left.value);
      var privateKey := PrivateKey(sdk, seed);
      LeftOversAreSigned(message.owner, privateKey, Digest(h, message), answers);
      var made := MadeSignature(sdk, privateKey, Digest(h, message), answers);
      assert AnsweredBySeed(sdk, seed, h, message, answers, Some(Digest(h, message)), made);
      assert !SignedBySeed(sdk, seed, h, message, answers, Some(Digest(h, message)), made);
    }
  }

  /** The first request of sign; afterwards the signature waits in the store. */
  method SignFirst(device: Device, message: Tx, decision: Decision, answers: Answers)
    returns (sw: StatusWord, deepHash: Option<seq<byte>>, ghost stored: Bytes512)
    requires device.Valid() && device.store.deviceInitialized && Valid(message)
    requires ConsistentStore(device.store)
    modifies device, device.handler`txInitialized, device.handler.buffer`data, device.ctx, device.txObj,
             device.txObj.tags, device.store.sigs, device.store`signatureSet
    ensures device.Valid()
    ensures CanSucceed(device, old(device.Key()), message, decision, answers) ==> sw == CodeOk
    ensures sw == CodeOk ==>
              && |Encode(message)| <= device.handler.buffer.capacity && decision == Approve
              && Display.Reviewable(device.lib, old(device.Key()), message, device.expert)
              && device.reviewed == old(device.reviewed) + [message]
              && device.store.signatureSet && device.store.sigs[device.store.slotInUse] == stored
              && AnsweredBySeed(device.store.sdk, device.store.seed, device.hash, message, answers, deepHash, stored)
  {
    hide Encode, Valid, Digest, Verdict, Display.Reviewable, Display.ErrorText, KeyStoreRuns.Consistent;
    hide MadeSignature, PublicKey, PrivateKey, Device.SignedOrNot, Device.Signature, Untouched;
    ForReviewIsMessage(device, device.Key(), message);
    ghost var keys := device.store.View();
    sw, deepHash := SignGetDigest(device, message, decision, answers);
    stored := Zeros(512);
    assert device.store.View() == keys;
    if answers.salt.Some? {
      SeedOfSignature(device, message, answers);
      stored := device.Signature(message, answers);
    }
  }

  /** sign: the digest, then the two halves of the signature. When it succeeds, the host has
      the deep hash of exactly its message, and a signature made with the key derived from the
      seed of the current boot, to which the message's owner belongs: the signature of that
      deep hash, unless the SHA-256 call failed. The device keeps no copy. */
  method Sign(device: Device, message: Tx, decision: Decision, answers: Answers)
    returns (sw: StatusWord, deepHash: Option<seq<byte>>, signature: Option<seq<byte>>)
    requires device.Valid() && device.store.deviceInitialized && Valid(message)
    requires ConsistentStore(device.store)
    modifies device, device.handler`txInitialized, device.handler.buffer`data, device.ctx, device.txObj,
             device.txObj.tags, device.store.sigs, device.store`signatureSet
    ensures device.Valid() && device.store.View() == old(device.store.View()) && ConsistentStore(device.store)
    ensures sw == CodeOk <==> signature.Some?
    ensures CanSucceed(device, old(device.Key()), message, decision, answers) ==> sw == CodeOk
    ensures signature.Some? ==>
              && |Encode(message)| <= device.handler.buffer.capacity && decision == Approve
              && Display.Reviewable(device.lib, old(device.Key()), message, device.expert)
              && device.reviewed == old(device.reviewed) + [message]
              && AnsweredBySeed(device.store.sdk, device.store.seed, device.hash, message, answers, deepHash,
                                signature.value)
              && (answers.left.None? ==>
                    SignedBySeed(device.store.sdk, device.store.seed, device.hash, message, answers, deepHash,
                                 signature.value))
              && !device.store.signatureSet && device.store.sigs[device.store.slotInUse] == Zeros(512)
  {
    hide Encode, Valid, Display.Reviewable, KeyStoreRuns.Consistent, AnsweredBySeed, SignedBySeed;
    signature := None;
    ghost var stored;
    sw, deepHash, stored := SignFirst(device, message, decision, answers);
    if sw != CodeOk {
      return;
    }
    var bytes := FetchSignature(device, stored);
    signature := Some(bytes);
    if answers.left.None? {
      AnsweredIsSigned(device.store.sdk, device.store.seed, device.hash, message, answers, deepHash, bytes);
    }
  }

  /** The two getSignaturePart requests of sign. */
  method FetchSignature(device: Device, ghost stored: Bytes512) returns (signature: seq<byte>)
    requires device.Valid() && device.store.deviceInitialized
    requires device.store.signatureSet && device.store.sigs[device.store.slotInUse] == stored
    modifies device.store.sigs, device.store`signatureSet
    ensures device.Valid() && signature == stored
    ensures !device.store.signatureSet && device.store.sigs[device.store.slotInUse] == Zeros(512)
  {
    var part0 := device.HandleGetSigPart(0, 0);
    assert device.store.sigs[..][device.store.slotInUse] == stored;
    var part1 := device.HandleGetSigPart(0, 1);
    assert device.store.sigs[..][device.store.slotInUse] == Zeros(512);
    assert part0 == Some(stored[0..256]) && part1 == Some(stored[256..512]);
    signature := part0.value + part1.value;
  }

  // ----- the deep hash over SHA-384 ------------------------------------------------

  const SHA384: Hash := s => Fips180.Sha384(s)

  lemma EngineComputesSha384()
    ensures Engine.Computes(SHA384)
  {
  }

  /** The digest computed with the engine of this repository is the deep hash over SHA-384. */
  method EngineDigest(h: Hash, data: seq<byte>, tx: TxObject) returns (digest: Option<seq<byte>>)
    requires Engine.Computes(h) && tx.InBounds(data)
    ensures digest == Some(Digest(h, tx.View(data)))
  {
    hide Digest, HashUnit.Computes;
    digest := ComputeDigest(h, Engine, data, tx);
  }

  /** With SHA-384 as the hash function of the device: two different transactions with the
      same digest give two different strings with the same SHA-384, both of them hashed on
      the way to the digests. */
  lemma DigestCollision(a: Tx, b: Tx) returns (x: seq<byte>, y: seq<byte>)
    requires Valid(a) && Valid(b) && a != b && Digest(SHA384, a) == Digest(SHA384, b)
    ensures x != y && Fips180.Sha384(x) == Fips180.Sha384(y)
    ensures x in Preimages(SHA384, TxTree(a)) && y in Preimages(SHA384, TxTree(b))
  {
    hide DeepHash, Preimages, TxTree, Valid, Fips180.Sha384;
    x, y := TxCollision(SHA384, a, b);
    assert SHA384(x) == Fips180.Sha384(x) && SHA384(y) == Fips180.Sha384(y);
  }
}
