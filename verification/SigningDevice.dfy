/** The signing command end to end: the device's handlers over its parts
    (app/src/apdu_handler.c, app/src/crypto.c, app/src/common/actions.h) and the host that
    drives them (js/src/index.js:347-409). */
module SigningDevice {
  import opened Bytes
  import opened WireFormat
  import opened TxParser
  import opened DeepHashSpec
  import opened SignProtocol
  import opened KeyStore
  import opened CStrings
  import TxDigest
  import opened HashUnits
  import Display
  import Base64Url

  /** The deep hash that is signed for a transaction. */
  function Digest(h: Hash, tx: Tx): seq<byte> {
    DeepHash(h, TxTree(tx))
  }

  /** parser_getDigest into a buffer of its own. */
  method ComputeDigest(h: Hash, unit: HashUnit, data: seq<byte>, v: TxObject) returns (digest: Option<seq<byte>>)
    requires unit.Computes(h) && v.InBounds(data)
    ensures digest.Some? ==> digest.value == Digest(h, v.View(data))
    ensures digest.Some? || unit.Faulty()
  {
    hide DeepHash, TxTree, HashUnit.Computes;
    var buffer := new byte[48](_ => 0);
    var rc := TxDigest.GetDigest(h, unit, buffer, data, v);
    digest := if rc == Accepted then Some(buffer[..48]) else None;
  }

  /** How the SDK answers during one signing: whether its SHA-384 calls may report errors; the
      bytes that its SHA-256 call leaves, if it reports an error; and the salt that it draws
      for the signature, if its RSA call succeeds. */
  datatype Answers = Answers(hashFaulty: bool, left: Option<Bytes32>, salt: Option<Bytes32>)

  /** What is signed for a digest. The result of the SHA-256 call is not looked at, so after an
      error it is whatever the call left in its buffer. */
  function SmallDigest(sdk: Sdk, digest: seq<byte>, answers: Answers): Bytes32 {
    match answers.left
    case None => sdk.sha256(digest)
    case Some(left) => left
  }

  /** The signature that is made with a private key ... */
  function MadeSignature(sdk: Sdk, privateKey: Bytes512, digest: seq<byte>, answers: Answers): Bytes512
    requires answers.salt.Some?
  {
    sdk.rsaSign(privateKey, SmallDigest(sdk, digest, answers), answers.salt.value)
  }

  /** ... and the one that ought to be made. */
  function DigestSignature(sdk: Sdk, privateKey: Bytes512, digest: seq<byte>, salt: Bytes32): Bytes512 {
    sdk.rsaSign(privateKey, sdk.sha256(digest), salt)
  }

  /** An SDK whose SHA-256 never gives these bytes, and whose signatures show what was signed. */
  function ContrarySdk(owner: Bytes512, left: Bytes32): Sdk {
    var other: Bytes32 := left[0 := 255 - left[0]];
    Sdk(_ => other, p => p, _ => owner, pq => pq, (key, hash, salt) => hash + Zeros(480))
  }

  /** The failing input: with this SDK the signature that is made is not that of the digest,
      for every key, digest, salt and left-over bytes. */
  lemma LeftOversAreSigned(owner: Bytes512, privateKey: Bytes512, digest: seq<byte>, answers: Answers)
    requires answers.salt.Some? && answers.left.Some?
    ensures var sdk := ContrarySdk(owner, answers.left.value);
            MadeSignature(sdk, privateKey, digest, answers)
            != DigestSignature(sdk, privateKey, digest, answers.salt.value)
  {
    var left := answers.left.value;
    var sdk := ContrarySdk(owner, left);
    assert MadeSignature(sdk, privateKey, digest, answers)[0] == left[0];
    assert DigestSignature(sdk, privateKey, digest, answers.salt.value)[0] == 255 - left[0];
  }

  /** The signature that is made is that of the digest. */
  predicate SignsDigest(sdk: Sdk, privateKey: Bytes512, digest: seq<byte>, answers: Answers)
    requires answers.salt.Some?
  {
    MadeSignature(sdk, privateKey, digest, answers) == DigestSignature(sdk, privateKey, digest, answers.salt.value)
  }

  /** That holds whatever the SDK computes exactly when its SHA-256 call reports no error. */
  lemma SignsDigestExactly(privateKey: Bytes512, digest: seq<byte>, answers: Answers)
    requires answers.salt.Some?
    ensures (forall sdk: Sdk :: SignsDigest(sdk, privateKey, digest, answers)) <==> answers.left.None?
  {
    if answers.left.Some? {
      LeftOversAreSigned(privateKey, privateKey, digest, answers);
      assert !SignsDigest(ContrarySdk(privateKey, answers.left.value), privateKey, digest, answers);
    }
  }

  /** The user's decision at the review screen. */
  datatype Decision = Approve | Reject

  class Device {
    const handler: PacketHandler
    const ctx: ParserContext
    const txObj: TxObject
    const store: Store
    const lib: Display.Library
    const hash: Hash
    const expert: bool
    /** SHA-384 is computed by the engine and not by the SDK. */
    const engine: bool
    /** The buffers handed to the parser, and the transactions that were put on the review
        screen, since the start. */
    ghost var parsed: seq<seq<byte>>
    ghost var reviewed: seq<Tx>

    ghost predicate Valid()
      reads this, handler, handler.buffer, txObj, store
    {
      && handler.buffer.capacity < 0x1_0000
      && |handler.buffer.data| <= handler.buffer.capacity
      && txObj.tags.Length == MAX_NUMBER_TAGS
      && store.Valid() && EngineHash()
    }

    ghost predicate EngineHash() {
      engine ==> Engine.Computes(hash)
    }

    /** What computes SHA-384 during one signing. */
    function Unit(answers: Answers): HashUnit {
      if engine then Engine else SdkHash(answers.hashFaulty)
    }

    constructor (capacity: nat, store: Store, lib: Display.Library, hash: Hash, engine: bool, expert: bool)
      requires capacity < 0x1_0000 && store.Valid() && (engine ==> Engine.Computes(hash))
      ensures Valid() && handler.buffer.capacity == capacity && handler.View() == Upload(false, [])
      ensures this.store == store && this.lib == lib && this.hash == hash && this.engine == engine
      ensures this.expert == expert
      ensures fresh(handler) && fresh(handler.buffer) && fresh(ctx) && fresh(txObj) && fresh(txObj.tags)
      ensures parsed == [] && reviewed == []
    {
      handler := new PacketHandler(capacity);
      ctx := new ParserContext();
      txObj := new TxObject();
      this.store, this.lib, this.hash, this.engine, this.expert := store, lib, hash, engine, expert;
      parsed, reviewed := [], [];
    }

    /** The key that crypto_getpubkey_part serves. */
    function Key(): Option<seq<byte>>
      requires store.Valid()
      reads this, store, store.slots
    {
      GetPublicKey(store.View())
    }

    /** What comes of an upload at parsing and validation. */
    ghost function Verdict(key: Option<seq<byte>>, data: seq<byte>): Display.Verdict {
      Display.JudgeBytes(lib, key, data, expert)
    }

    /** The signature that is made for a transaction with the private key in use. */
    ghost function Signature(tx: Tx, answers: Answers): Bytes512
      requires store.Valid() && answers.salt.Some?
      reads this, store, store.slots
    {
      MadeSignature(store.sdk, store.slots[store.slotInUse].rsaPriv, Digest(hash, tx), answers)
    }

    /** tx_parse: parsing and validation of the uploaded buffer. */
    method ParseUpload(data: seq<byte>) returns (status: Status)
      requires txObj.tags.Length == MAX_NUMBER_TAGS && store.Valid() && |data| < 0x1_0000
      modifies ctx, txObj, txObj.tags
      ensures match Verdict(old(Key()), data)
              case ForReview(tx) => status == Accepted && txObj.InBounds(data) && txObj.View(data) == tx
              case Refused(e) => status == Rejected(e)
    {
      hide Display.JudgeBytes;
      status := Display.ParseAndValidate(lib, Key(), ctx, data, txObj, expert);
    }

    /** crypto_sign: the deep hash of the transaction is hashed with SHA-256, without a look at
        the result of that call, and signed with the private key in use. */
    method CryptoSign(data: seq<byte>, answers: Answers) returns (digest: Option<seq<byte>>)
      requires store.Valid() && EngineHash() && txObj.InBounds(data)
      modifies store.sigs, store`signatureSet
      ensures digest.Some? ==>
                && digest.value == Digest(hash, txObj.View(data)) && answers.salt.Some?
                && GetPrivateKey(store.View()).Some?
                && store.sigs[..] == old(store.sigs[..])[
                     store.slotInUse := Signature(txObj.View(data), answers)]
                && store.signatureSet
      ensures digest.None? ==>
                && (GetPrivateKey(store.View()).None? || answers.hashFaulty || answers.salt.None?)
                && store.sigs[..] == old(store.sigs[..]) && store.signatureSet == old(store.signatureSet)
    {
      hide Digest;
      if !store.SlotIsInitialized(store.slotInUse) {
        return None;
      }
      digest := ComputeDigest(hash, Unit(answers), data, txObj);
      if digest.None? {
        return None;
      }
      var privateKey := GetPrivateKey(store.View());
      if privateKey.None? {
        return None;
      }
      var digestSmall := SmallDigest(store.sdk, digest.value, answers);
      if answers.salt.None? {
        return None;
      }
      var sig := store.sdk.rsaSign(privateKey.value, digestSmall, answers.salt.value);
      store.StoreSignature(sig);
    }

    /** The sign command of handleApdu, with the review that follows the last packet. */
    method HandleSign(p: Packet, decision: Decision, answers: Answers)
      returns (sw: StatusWord, reply: seq<byte>)
      requires Valid()
      modifies this, handler`txInitialized, handler.buffer`data, ctx, txObj, txObj.tags,
               store.sigs, store`signatureSet
      ensures Valid()
      ensures SignOutcome(old(handler.View()), p, decision, answers, sw, reply,
                          old(parsed), old(reviewed), old(store.sigs[..]), old(store.signatureSet))
    {
      hide ProcessChunk, ReviewOutcome, Verdict;
      if !store.deviceInitialized {
        return TxNotInitialized, [];
      }
      ghost var before := handler.View();
      var r := handler.HandleChunk(p);
      if r.Reply? {
        assert PacketOutcome(before, p, handler.buffer.data, decision, answers, r.sw, [], old(parsed),
                             old(reviewed), old(store.sigs[..]), old(store.signatureSet));
        return r.sw, [];
      }
      parsed := parsed + [handler.buffer.data];
      sw, reply := ReviewUpload(handler.buffer.data, decision, answers);
      assert PacketOutcome(before, p, handler.buffer.data, decision, answers, sw, reply, old(parsed),
                           old(reviewed), old(store.sigs[..]), old(store.signatureSet));
    }

    /** The rest of handleSign, once the upload is complete: parsing, review, signing. An
        upload that is refused is answered with the description of the error. */
    method ReviewUpload(data: seq<byte>, decision: Decision, answers: Answers)
      returns (sw: StatusWord, reply: seq<byte>)
      requires Valid() && |data| < 0x1_0000
      modifies this`reviewed, ctx, txObj, txObj.tags, store.sigs, store`signatureSet
      ensures ReviewOutcome(old(Verdict(Key(), data)), decision, answers, sw, reply,
                            old(reviewed), old(store.sigs[..]), old(store.signatureSet))
    {
      hide Verdict, Display.ErrorText, SignedOrNot;
      var status := ParseUpload(data);
      if status != Accepted {
        return DataInvalid, Display.ErrorText(status.error);
      }
      reviewed := reviewed + [txObj.View(data)];
      sw, reply := AfterReview(data, decision, answers);
    }

    /** app_reject and app_sign */
    method AfterReview(data: seq<byte>, decision: Decision, answers: Answers)
      returns (sw: StatusWord, reply: seq<byte>)
      requires store.Valid() && EngineHash() && txObj.InBounds(data)
      modifies store.sigs, store`signatureSet
      ensures SignedOrNot(txObj.View(data), decision, answers, sw, reply, old(store.sigs[..]), old(store.signatureSet))
    {
      hide Digest;
      if decision == Reject {
        return CommandNotAllowed, [];
      }
      var digest := CryptoSign(data, answers);
      if digest.None? {
        return SignVerifyError, [];
      }
      return CodeOk, digest.value;
    }

    /** What the user's decision leads to. */
    ghost predicate SignedOrNot(tx: Tx, decision: Decision, answers: Answers, sw: StatusWord,
                                reply: seq<byte>, sigs0: seq<Bytes512>, set0: bool)
      requires store.Valid()
      reads this, store, store.slots, store.sigs
    {
      && sw in {CommandNotAllowed, SignVerifyError, CodeOk}
      && (sw == CommandNotAllowed <==> decision == Reject)
      && (sw == CodeOk ==>
            && reply == Digest(hash, tx) && answers.salt.Some? && store.signatureSet
            && GetPrivateKey(store.View()).Some? && |sigs0| == 2
            && store.sigs[..] == sigs0[store.slotInUse := Signature(tx, answers)])
      && (sw == SignVerifyError ==>
            GetPrivateKey(store.View()).None? || answers.hashFaulty || answers.salt.None?)
      && (sw != CodeOk ==> reply == [] && store.sigs[..] == sigs0 && store.signatureSet == set0)
    }

    /** What a sign command does, in terms of the packet handler, the parser, the review, the
        deep hash and the key store. */
    ghost predicate SignOutcome(before: Upload, p: Packet, decision: Decision, answers: Answers,
                                sw: StatusWord, reply: seq<byte>, parsed0: seq<seq<byte>>, reviewed0: seq<Tx>,
                                sigs0: seq<Bytes512>, set0: bool)
      requires Valid()
      reads this, handler, handler.buffer, txObj, store, store.slots, store.sigs
    {
      if !store.deviceInitialized then
        && sw == TxNotInitialized && reply == [] && handler.View() == before
        && parsed == parsed0 && reviewed == reviewed0 && store.sigs[..] == sigs0 && store.signatureSet == set0
      else
        exists left ::
          PacketOutcome(before, p, left, decision, answers, sw, reply, parsed0, reviewed0, sigs0, set0)
    }

    /** The same for an initialised device; `left` is what a failed append leaves. */
    ghost predicate PacketOutcome(before: Upload, p: Packet, left: seq<byte>, decision: Decision, answers: Answers,
                                  sw: StatusWord, reply: seq<byte>, parsed0: seq<seq<byte>>, reviewed0: seq<Tx>,
                                  sigs0: seq<Bytes512>, set0: bool)
      requires Valid()
      reads this, handler, handler.buffer, txObj, store, store.slots, store.sigs
    {
      var (after, r) := ProcessChunk(handler.buffer.capacity, before, p, left);
      && handler.View() == after
      && (r.Reply? ==>
            && sw == r.sw && reply == []
            && parsed == parsed0 && reviewed == reviewed0 && store.sigs[..] == sigs0 && store.signatureSet == set0)
      && (r.Complete? ==>
            && parsed == parsed0 + [after.buffer]
            && ReviewOutcome(Verdict(Key(), after.buffer), decision, answers, sw, reply,
                             reviewed0, sigs0, set0))
    }

    /** What happens to a complete upload. */
    ghost predicate ReviewOutcome(verdict: Display.Verdict, decision: Decision, answers: Answers,
                                  sw: StatusWord, reply: seq<byte>, reviewed0: seq<Tx>,
                                  sigs0: seq<Bytes512>, set0: bool)
      requires store.Valid()
      reads this, store, store.slots, store.sigs
    {
      match verdict
      case Refused(e) =>
        && sw == DataInvalid && reply == Display.ErrorText(e) && reviewed == reviewed0
        && store.sigs[..] == sigs0 && store.signatureSet == set0
      case ForReview(tx) =>
        && reviewed == reviewed0 + [tx]
        && SignedOrNot(tx, decision, answers, sw, reply, sigs0, set0)
    }

    /** handleGetSigPart, with crypto_getsignature_part behind it. */
    method HandleGetSigPart(dataLen: byte, index: byte) returns (part: Option<seq<byte>>)
      requires Valid()
      modifies store.sigs, store`signatureSet
      ensures Valid()
      ensures !store.deviceInitialized || dataLen != 0 ==>
                part == None && store.sigs[..] == old(store.sigs[..]) && store.signatureSet == old(store.signatureSet)
      ensures store.deviceInitialized && dataLen == 0 ==>
                var (after, r) := SignatureRead(
                                    SigState(old(store.sigs[store.slotInUse]), old(store.signatureSet)), index);
                && part == r && store.signatureSet == after.stored
                && store.sigs[..] == old(store.sigs[..])[store.slotInUse := after.sig]
    {
      if !store.deviceInitialized {
        return None;
      }
      if dataLen != 0 {
        return None;
      }
      if !store.signatureSet {
        assert store.sigs[..] == store.sigs[..][store.slotInUse := store.sigs[store.slotInUse]];
        return None;
      }
      part := store.SignaturePart(index);
    }

    /** crypto_fillAddress: the SHA-256 of the modulus in base64url, always 43 characters, at
        the front of a cleared buffer, which must have room for four bytes more. */
    method FillAddress(buffer: array<byte>, hashFails: bool) returns (addrLen: Option<nat>)
      requires Valid()
      modifies buffer
      ensures addrLen.Some? <==> old(Key()).Some? && buffer.Length >= ANSWER_LEN && !hashFails
      ensures addrLen.None? ==> buffer[..] == Zeros(buffer.Length)
      ensures addrLen.Some? ==>
                && |Base64Url.Encode(store.sdk.sha256(old(Key()).value))| == addrLen.value == ADDRESS_LEN
                && buffer[..] == Ascii(Base64Url.Encode(store.sdk.sha256(old(Key()).value)))
                               + Zeros(buffer.Length - ADDRESS_LEN)
    {
      hide Base64Url.Encode;
      MemZero(buffer);
      var key := Key();
      if key.None? || buffer.Length < ANSWER_LEN || hashFails {
        return None;
      }
      var hashPubkey := store.sdk.sha256(key.value);
      var addrStr := new char[ADDRESS_LEN](_ => '\0');
      Base64Url.LengthIsExact(hashPubkey);
      var written := Base64Url.EncodeInto(addrStr, Some(hashPubkey));
      assert addrStr[..] == addrStr[..written];
      MemCopy(buffer, 0, Ascii(addrStr[..]));
      assert Zeros(buffer.Length)[ADDRESS_LEN..] == Zeros(buffer.Length - ADDRESS_LEN);
      addrLen := Some(ADDRESS_LEN);
    }
  }

  /** The address in answer_t, and answer_t with its padding. */
  const ADDRESS_LEN: nat := 43
  const ANSWER_LEN: nat := 47

  // ----- earlier contents of the transaction object --------------------------------

  /** What can be observed of a parsed transaction: the outcome of parsing, the number of
      items, one item on one page, and the digest. */
  datatype Observed = Observed(parsed: Status, items: nat, shown: Status, pageCount: nat,
                               key: seq<byte>, val: seq<byte>, digest: Option<seq<byte>>)

  /** Two observations that can differ only in a failure of the hash, and in what the buffers
      hold for an item that could not be shown. */
  predicate SameObserved(x: Observed, y: Observed) {
    && x.parsed == y.parsed && x.items == y.items && x.shown == y.shown
    && (x.shown == Accepted ==> x.key == y.key && x.val == y.val && x.pageCount == y.pageCount)
    && (x.digest.Some? && y.digest.Some? ==> x.digest == y.digest)
  }

  /** Parsing into this object, and then each way the app has of looking at it. */
  method Observe(lib: Display.Library, h: Hash, unit: HashUnit, data: seq<byte>, v: TxObject, expert: bool, idx: u16,
                 keySize: nat, valSize: nat, pageIdx: nat) returns (o: Observed)
    requires unit.Computes(h)
    requires v.tags.Length == MAX_NUMBER_TAGS && |data| < 0x1_0000
    modifies v, v.tags
    ensures o.parsed == Accepted <==> ParseTx(data).Ok?
    ensures o.parsed == if data == [] then Rejected(NoData)
                        else if ParseTx(data).Ok? then Accepted else Rejected(ParseTx(data).error)
    ensures ParseTx(data).Ok? ==>
              Observes(lib, h, unit, ParseTx(data).value, expert, idx, keySize, valSize, pageIdx, o)
    ensures !ParseTx(data).Ok? ==> o == Observed(o.parsed, 0, o.parsed, 0, [], [], None)
  {
    hide ParseTx, Observes, HashUnit.Computes;
    var ctx := new ParserContext();
    Display.EmptyIsNoTransaction();
    assert data[..|data|] == data && |data| % 0x1_0000 == |data|;
    var parsed := Parse(ctx, data, v);
    if parsed != Accepted {
      return Observed(parsed, 0, parsed, 0, [], [], None);
    }
    ReadIsEncoding(data);
    o := Look(lib, h, unit, data, v, expert, idx, keySize, valSize, pageIdx);
  }

  method Look(lib: Display.Library, h: Hash, unit: HashUnit, data: seq<byte>, v: TxObject, expert: bool, idx: u16,
              keySize: nat, valSize: nat, pageIdx: nat) returns (o: Observed)
    requires unit.Computes(h) && v.InBounds(data) && Valid(v.View(data))
    ensures o.parsed == Accepted
    ensures Observes(lib, h, unit, v.View(data), expert, idx, keySize, valSize, pageIdx, o)
  {
    hide Digest, Valid, HashUnit.Computes, HashUnit.Faulty, Display.ShownInWords, Display.ItemAt;
    hide Display.NumItems, Display.Presents;
    var outKey, outVal := new byte[keySize](_ => 0), new byte[valSize](_ => 0);
    var items := Display.GetNumItems(data, v, expert);
    var shown, pageCount := Display.GetItem(lib, data, v, expert, idx, outKey, outVal, pageIdx);
    var digest := ComputeDigest(h, unit, data, v);
    o := Observed(Accepted, items, shown, pageCount, outKey[..], outVal[..], digest);
  }

  /** Everything observed is said in terms of the transaction. */
  ghost predicate Observes(lib: Display.Library, h: Hash, unit: HashUnit, tx: Tx, expert: bool, idx: u16,
                           keySize: nat, valSize: nat, pageIdx: nat, o: Observed) {
    && o.items == Display.NumItems(tx, expert) && |o.key| == keySize && |o.val| == valSize
    && (if idx >= Display.NumItems(tx, expert) then o.shown == Rejected(NoData) && o.pageCount == 0
        else
          && Display.ItemAt(tx, idx).Some?
          && Display.Presents(lib, tx, Display.ItemAt(tx, idx).value, o.key, o.val, pageIdx, o.shown, o.pageCount))
    && (o.digest.Some? ==> o.digest.value == Digest(h, tx)) && (o.digest.Some? || unit.Faulty())
  }

  /** Two transaction objects, whatever they held before: after parsing the same bytes, the
      outcome, the number of items, every item on every page and the digest are the same. */
  method ObserveTwice(lib: Display.Library, h: Hash, unit: HashUnit, data: seq<byte>, v: TxObject, w: TxObject,
                      expert: bool, idx: u16, keySize: nat, valSize: nat, pageIdx: nat)
    returns (x: Observed, y: Observed)
    requires unit.Computes(h)
    requires v.tags.Length == w.tags.Length == MAX_NUMBER_TAGS && |data| < 0x1_0000
    modifies v, v.tags, w, w.tags
    ensures SameObserved(x, y)
  {
    hide ParseTx, Digest, Display.ItemAt, Display.ItemText, Display.NumItems, Display.KeyBytes, Display.Fill;
    x := Observe(lib, h, unit, data, v, expert, idx, keySize, valSize, pageIdx);
    y := Observe(lib, h, unit, data, w, expert, idx, keySize, valSize, pageIdx);
  }
}
