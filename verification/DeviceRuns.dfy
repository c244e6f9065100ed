/** Sessions of commands to the device, and its whole life: any number of boots with any seeds
    and any failures, each with any commands. What is served is the signature of the
    transaction that was approved last. */
module DeviceRuns {
  import opened Bytes
  import opened WireFormat
  import opened DeepHashSpec
  import opened HashUnits
  import opened KeyStore
  import opened SignProtocol
  import opened SigningDevice
  import Display
  import SignatureRuns
  import KeyStoreRuns

  // ----- what is recorded of a session ----------------------------------------------

  /** A SIGN packet, with the user's decision and the answers of the SDK should it complete an
      upload, or a request for a part of the signature. Other commands touch neither the
      upload nor the signature. */
  datatype Command =
    | SignPacket(packet: Packet, decision: Decision, answers: Answers)
    | PartRequest(dataLen: byte, index: byte)

  /** What does not change during a session. */
  datatype Setting = Setting(capacity: nat, lib: Display.Library, hash: Hash, expert: bool, sdk: Sdk,
                             ready: bool, key: Option<seq<byte>>, privateKey: Bytes512)

  /** A command, what a failed append would leave, and the signature that was stored and the
      part that was served, if any. */
  datatype Record = Record(command: Command, left: seq<byte>, stored: Option<Bytes512>, part: Option<seq<byte>>)

  predicate Reads(c: Setting, r: Record) {
    c.ready && r.command.PartRequest? && r.command.dataLen == 0
  }

  /** The record as the upload protocol sees it; a packet without header changes nothing. */
  function UploadEvent(c: Setting, r: Record): SignProtocol.Event {
    if c.ready && r.command.SignPacket? then SignProtocol.Event(r.command.packet, r.left)
    else SignProtocol.Event(Short, [])
  }

  function UploadEvents(c: Setting, records: seq<Record>): (events: seq<SignProtocol.Event>)
    ensures |events| == |records|
  {
    seq(|records|, i requires 0 <= i < |records| => UploadEvent(c, records[i]))
  }

  /** The record as the stored signature sees it; a request for part 2 changes nothing. */
  function SignatureEvent(c: Setting, r: Record): SignatureRuns.Event {
    if r.stored.Some? then SignatureRuns.Stored(r.stored.value)
    else SignatureRuns.ReadPart(if Reads(c, r) then r.command.index else 2)
  }

  function SignatureEvents(c: Setting, records: seq<Record>): (events: seq<SignatureRuns.Event>)
    ensures |events| == |records|
  {
    seq(|records|, i requires 0 <= i < |records| => SignatureEvent(c, records[i]))
  }

  function UploadAfter(c: Setting, u: Upload, records: seq<Record>): Upload {
    SignProtocol.Run(c.capacity, u, UploadEvents(c, records))
  }

  function SignatureAfter(c: Setting, s: SigState, records: seq<Record>): SigState {
    SignatureRuns.Run(s, SignatureEvents(c, records))
  }

  /** One command is right, from these states: a signature is stored only for a transaction
      that was uploaded completely, can be reviewed and was approved, and a part is served
      as the store serves it. */
  ghost predicate Right(c: Setting, u: Upload, s: SigState, r: Record) {
    && (r.stored.Some? ==>
          && c.ready && r.command.SignPacket?
          && Signs(c, ProcessChunk(c.capacity, u, r.command.packet, r.left), r.command, r.stored.value))
    && r.part == if Reads(c, r) then SignatureRead(s, r.command.index).1 else None
  }

  ghost predicate Signs(c: Setting, result: (Upload, ChunkResult), command: Command, sig: Bytes512)
    requires command.SignPacket?
  {
    var verdict := Display.JudgeBytes(c.lib, c.key, result.0.buffer, c.expert);
    && result.1.Complete? && verdict.ForReview?
    && command.decision == Approve && command.answers.salt.Some?
    && sig == MadeSignature(c.sdk, c.privateKey, Digest(c.hash, verdict.tx), command.answers)
  }

  /** Every command of the session is right. */
  ghost predicate AllRight(c: Setting, u: Upload, s: SigState, records: seq<Record>) {
    records != [] ==>
      var front := records[..|records| - 1];
      && AllRight(c, u, s, front)
      && Right(c, UploadAfter(c, u, front), SignatureAfter(c, s, front), records[|records| - 1])
  }

  lemma Nothing(c: Setting, u: Upload, s: SigState)
    ensures UploadAfter(c, u, []) == u && SignatureAfter(c, s, []) == s && AllRight(c, u, s, [])
  {
  }

  lemma Snoc(c: Setting, u: Upload, s: SigState, front: seq<Record>, r: Record)
    ensures UploadAfter(c, u, front + [r])
         == ProcessChunk(c.capacity, UploadAfter(c, u, front), UploadEvent(c, r).packet, UploadEvent(c, r).left).0
    ensures SignatureAfter(c, s, front + [r])
         == SignatureRuns.Step(SignatureAfter(c, s, front), SignatureEvent(c, r)).0
    ensures AllRight(c, u, s, front + [r]) <==>
            AllRight(c, u, s, front) && Right(c, UploadAfter(c, u, front), SignatureAfter(c, s, front), r)
  {
    hide ProcessChunk, SignatureRuns.Step, UploadEvent, SignatureEvent, Right;
    var records := front + [r];
    assert records[..|records| - 1] == front;
    assert UploadEvents(c, records)[..|front|] == UploadEvents(c, front);
    assert SignatureEvents(c, records)[..|front|] == SignatureEvents(c, front);
  }

  lemma {:induction false} RightAt(c: Setting, u: Upload, s: SigState, records: seq<Record>, i: nat)
    requires AllRight(c, u, s, records) && i < |records|
    ensures Right(c, UploadAfter(c, u, records[..i]), SignatureAfter(c, s, records[..i]), records[i])
    decreases |records|
  {
    hide Right, UploadAfter, SignatureAfter;
    var n := |records| - 1;
    if i < n {
      RightAt(c, u, s, records[..n], i);
      assert records[..n][..i] == records[..i];
    }
  }

  // ----- the device runs a session ----------------------------------------------------

  function SettingOf(device: Device): Setting
    requires device.store.Valid()
    reads device, device.handler, device.handler.buffer, device.store, device.store.slots
  {
    Setting(device.handler.buffer.capacity, device.lib, device.hash, device.expert, device.store.sdk,
            device.store.deviceInitialized, device.Key(), device.store.slots[device.store.slotInUse].rsaPriv)
  }

  function SignatureView(device: Device): SigState
    requires device.store.Valid()
    reads device, device.store, device.store.sigs
  {
    SigState(device.store.sigs[device.store.slotInUse], device.store.signatureSet)
  }

  /** One command. */
  method Handle(device: Device, command: Command) returns (part: Option<seq<byte>>, ghost r: Record)
    requires device.Valid()
    modifies device, device.handler`txInitialized, device.handler.buffer`data, device.ctx, device.txObj,
             device.txObj.tags, device.store.sigs, device.store`signatureSet
    ensures device.Valid() && SettingOf(device) == old(SettingOf(device))
    ensures r.command == command && r.part == part
    ensures var c := SettingOf(device);
            && Right(c, old(device.handler.View()), old(SignatureView(device)), r)
            && device.handler.View()
            == ProcessChunk(c.capacity, old(device.handler.View()), UploadEvent(c, r).packet, UploadEvent(c, r).left).0
            && SignatureView(device) == SignatureRuns.Step(old(SignatureView(device)), SignatureEvent(c, r)).0
  {
    match command
    case SignPacket(packet, decision, answers) =>
      part := None;
      r := HandlePacket(device, packet, decision, answers);
    case PartRequest(dataLen, index) =>
      part := device.HandleGetSigPart(dataLen, index);
      r := Record(command, [], None, part);
      assert device.store.sigs[..][device.store.slotInUse] == device.store.sigs[device.store.slotInUse];
  }

  method HandlePacket(device: Device, packet: Packet, decision: Decision, answers: Answers) returns (ghost r: Record)
    requires device.Valid()
    modifies device, device.handler`txInitialized, device.handler.buffer`data, device.ctx, device.txObj,
             device.txObj.tags, device.store.sigs, device.store`signatureSet
    ensures device.Valid() && SettingOf(device) == old(SettingOf(device))
    ensures r.command == SignPacket(packet, decision, answers) && r.part == None
    ensures var c := SettingOf(device);
            && Right(c, old(device.handler.View()), old(SignatureView(device)), r)
            && device.handler.View()
            == ProcessChunk(c.capacity, old(device.handler.View()), UploadEvent(c, r).packet, UploadEvent(c, r).left).0
            && SignatureView(device) == SignatureRuns.Step(old(SignatureView(device)), SignatureEvent(c, r)).0
  {
    hide ProcessChunk, Device.PacketOutcome, Right, UploadEvent, SignatureEvent;
    ghost var before := device.handler.View();
    ghost var sigs0, set0 := device.store.sigs[..], device.store.signatureSet;
    ghost var parsed0, reviewed0 := device.parsed, device.reviewed;
    assert device.store.sigs[..][device.store.slotInUse] == device.store.sigs[device.store.slotInUse];
    var sw, reply := device.HandleSign(packet, decision, answers);
    if device.store.deviceInitialized {
      ghost var left :|
        device.PacketOutcome(before, packet, left, decision, answers, sw, reply, parsed0, reviewed0, sigs0, set0);
      r := RecordOfPacket(device, before, packet, left, decision, answers, sw, reply, parsed0, reviewed0, sigs0, set0);
    } else {
      r := Record(SignPacket(packet, decision, answers), [], None, None);
      NothingRecorded(device, packet, decision, answers);
    }
  }

  /** A packet on an initialised device: a signature is stored if it completes an upload and is
      answered with "ok". */
  lemma RecordOfPacket(device: Device, before: Upload, packet: Packet, left: seq<byte>, decision: Decision,
                       answers: Answers, sw: StatusWord, reply: seq<byte>, parsed0: seq<seq<byte>>,
                       reviewed0: seq<Tx>, sigs0: seq<Bytes512>, set0: bool) returns (r: Record)
    requires device.Valid() && device.store.deviceInitialized && |sigs0| == 2
    requires device.PacketOutcome(before, packet, left, decision, answers, sw, reply, parsed0, reviewed0, sigs0, set0)
    ensures r.command == SignPacket(packet, decision, answers) && r.part == None
    ensures var c := SettingOf(device);
            var s := SigState(sigs0[device.store.slotInUse], set0);
            && Right(c, before, s, r)
            && device.handler.View()
            == ProcessChunk(c.capacity, before, UploadEvent(c, r).packet, UploadEvent(c, r).left).0
            && SignatureView(device) == SignatureRuns.Step(s, SignatureEvent(c, r)).0
  {
    hide ProcessChunk, Display.JudgeBytes, Digest, MadeSignature, Display.ErrorText, Device.ReviewOutcome;
    var (after, result) := ProcessChunk(device.handler.buffer.capacity, before, packet, left);
    var command := SignPacket(packet, decision, answers);
    r := Record(command, left, None, None);
    if result.Complete? {
      var verdict := device.Verdict(device.Key(), after.buffer);
      StoredOnlyIfOk(device, verdict, decision, answers, sw, reply, reviewed0, sigs0, set0);
      if sw == CodeOk {
        r := r.(stored := Some(device.store.sigs[..][device.store.slotInUse]));
      }
    }
  }

  lemma StoredOnlyIfOk(device: Device, verdict: Display.Verdict, decision: Decision, answers: Answers,
                       sw: StatusWord, reply: seq<byte>, reviewed0: seq<Tx>, sigs0: seq<Bytes512>, set0: bool)
    requires device.Valid() && |sigs0| == 2
    requires device.ReviewOutcome(verdict, decision, answers, sw, reply, reviewed0, sigs0, set0)
    ensures sw == CodeOk ==>
              && verdict.ForReview? && decision == Approve && answers.salt.Some? && device.store.signatureSet
              && device.store.sigs[..][device.store.slotInUse] == device.Signature(verdict.tx, answers)
    ensures sw != CodeOk ==> device.store.sigs[..] == sigs0 && device.store.signatureSet == set0
  {
    hide Digest, MadeSignature, Display.ErrorText;
  }

  lemma NothingRecorded(device: Device, packet: Packet, decision: Decision, answers: Answers)
    requires device.Valid() && !device.store.deviceInitialized
    ensures var c := SettingOf(device);
            var r := Record(SignPacket(packet, decision, answers), [], None, None);
            && Right(c, device.handler.View(), SignatureView(device), r)
            && ProcessChunk(c.capacity, device.handler.View(), UploadEvent(c, r).packet, UploadEvent(c, r).left).0
            == device.handler.View()
            && SignatureRuns.Step(SignatureView(device), SignatureEvent(c, r)).0 == SignatureView(device)
  {
  }

  /** The next command of a session. */
  method HandleNext(device: Device, command: Command, ghost c: Setting, ghost u: Upload, ghost s: SigState,
                    ghost front: seq<Record>) returns (part: Option<seq<byte>>, ghost r: Record)
    requires device.Valid() && SettingOf(device) == c && AllRight(c, u, s, front)
    requires device.handler.View() == UploadAfter(c, u, front)
    requires SignatureView(device) == SignatureAfter(c, s, front)
    modifies device, device.handler`txInitialized, device.handler.buffer`data, device.ctx, device.txObj,
             device.txObj.tags, device.store.sigs, device.store`signatureSet
    ensures device.Valid() && SettingOf(device) == c && AllRight(c, u, s, front + [r])
    ensures device.handler.View() == UploadAfter(c, u, front + [r])
    ensures SignatureView(device) == SignatureAfter(c, s, front + [r])
    ensures r.command == command && r.part == part
  {
    hide Right, ProcessChunk, SignatureRuns.Step, UploadEvent, SignatureEvent, UploadAfter, SignatureAfter, AllRight;
    part, r := Handle(device, command);
    Snoc(c, u, s, front, r);
  }

  /** A session: the commands are handled in order. */
  method HandleAll(device: Device, commands: seq<Command>)
    returns (parts: seq<Option<seq<byte>>>, ghost records: seq<Record>)
    requires device.Valid()
    modifies device, device.handler`txInitialized, device.handler.buffer`data, device.ctx, device.txObj,
             device.txObj.tags, device.store.sigs, device.store`signatureSet
    ensures device.Valid() && SettingOf(device) == old(SettingOf(device))
    ensures Records(records, commands, parts)
    ensures AllRight(SettingOf(device), old(device.handler.View()), old(SignatureView(device)), records)
    ensures device.handler.View() == UploadAfter(SettingOf(device), old(device.handler.View()), records)
    ensures SignatureView(device) == SignatureAfter(SettingOf(device), old(SignatureView(device)), records)
  {
    hide UploadAfter, SignatureAfter, AllRight;
    parts, records := [], [];
    ghost var c, u, s := SettingOf(device), device.handler.View(), SignatureView(device);
    Nothing(c, u, s);
    for i := 0 to |commands|
      invariant device.Valid() && SettingOf(device) == c
      invariant Records(records, commands[..i], parts)
      invariant AllRight(c, u, s, records)
      invariant device.handler.View() == UploadAfter(c, u, records)
      invariant SignatureView(device) == SignatureAfter(c, s, records)
    {
      var part;
      ghost var r;
      part, r := HandleNext(device, commands[i], c, u, s, records);
      parts, records := parts + [part], records + [r];
    }
    assert commands[..|commands|] == commands;
  }

  /** The records of these commands, with the parts that were served. */
  predicate Records(records: seq<Record>, commands: seq<Command>, parts: seq<Option<seq<byte>>>) {
    && |records| == |commands| == |parts|
    && forall i :: 0 <= i < |records| ==> records[i].command == commands[i] && records[i].part == parts[i]
  }

  // ----- what is served ----------------------------------------------------------------

  /** The packet of record i, as the upload protocol sees it. */
  function PacketAt(c: Setting, records: seq<Record>, i: nat): Packet
    requires i < |records|
  {
    UploadEvent(c, records[i]).packet
  }

  /** Packet m is the latest INIT up to packet k. */
  predicate LatestInit(c: Setting, records: seq<Record>, m: nat, k: nat)
    requires k < |records|
  {
    m < k && IsInit(PacketAt(c, records, m)) && forall j :: m < j <= k ==> !IsInit(PacketAt(c, records, j))
  }

  /** What was sent from packet m to packet k begins with this transaction, which can be
      reviewed; in particular its owner is the key. */
  ghost predicate Uploaded(c: Setting, records: seq<Record>, m: nat, k: nat, tx: Tx)
    requires m < k < |records|
  {
    var sent := Payloads(UploadEvents(c, records)[m + 1..k + 1]);
    && ParseTx(sent).Ok? && ParseTx(sent).value == tx
    && Display.Reviewable(c.lib, c.key, tx, c.expert)
  }

  /** The signature that is made for it after approval. */
  predicate SignedAt(c: Setting, tx: Tx, command: Command, sig: Bytes512) {
    && command.SignPacket? && command.decision == Approve && command.answers.salt.Some?
    && sig == MadeSignature(c.sdk, c.privateKey, Digest(c.hash, tx), command.answers)
  }

  /** Record k is the latest one before i that stored a signature, and the second half has not
      been asked for since. */
  predicate LatestStored(c: Setting, records: seq<Record>, k: nat, i: nat)
    requires i < |records|
  {
    && k < i && records[k].stored.Some?
    && forall j :: k < j < i ==>
         records[j].stored.None? && (Reads(c, records[j]) ==> records[j].command.index != 1)
  }

  /** In every session that starts without an upload and without a signature: a part that is
      served is half of the signature for the transaction that was approved last, and that
      transaction is the one that was sent since the latest INIT before. */
  lemma ServedHalf(c: Setting, u: Upload, s: SigState, records: seq<Record>, i: nat)
    returns (m: nat, k: nat, tx: Tx)
    requires AllRight(c, u, s, records) && !u.initialized && !s.stored
    requires i < |records| && records[i].part.Some?
    ensures LatestStored(c, records, k, i) && LatestInit(c, records, m, k)
    ensures Uploaded(c, records, m, k, tx) && SignedAt(c, tx, records[k].command, records[k].stored.value)
    ensures Reads(c, records[i]) && records[i].command.index <= 1
    ensures var from := 256 * records[i].command.index;
            records[i].part.value == records[k].stored.value[from..from + 256]
  {
    hide UploadAfter, UploadEvent, Uploaded, LatestInit, SignedAt, Signs, AllRight;
    k := StoredBefore(c, u, s, records, i);
    RightAt(c, u, s, records, k);
    m, tx := SignedUpload(c, u, s, records, k);
  }

  lemma StoredBefore(c: Setting, u: Upload, s: SigState, records: seq<Record>, i: nat) returns (k: nat)
    requires AllRight(c, u, s, records) && !s.stored && i < |records| && records[i].part.Some?
    ensures LatestStored(c, records, k, i)
    ensures Reads(c, records[i]) && records[i].command.index <= 1
    ensures var from := 256 * records[i].command.index;
            records[i].part.value == records[k].stored.value[from..from + 256]
  {
    hide UploadAfter, UploadEvent, Signs, AllRight, SignatureRuns.Run;
    var events := SignatureEvents(c, records[..i]);
    RightAt(c, u, s, records, i);
    SignatureRuns.SessionState(s, events);
    k :| SignatureRuns.Live(events, k);
    assert forall j :: 0 <= j < i ==> events[j] == SignatureEvent(c, records[j]);
  }

  lemma SignedUpload(c: Setting, u: Upload, s: SigState, records: seq<Record>, k: nat) returns (m: nat, tx: Tx)
    requires !u.initialized && k < |records| && records[k].stored.Some?
    requires Right(c, UploadAfter(c, u, records[..k]), SignatureAfter(c, s, records[..k]), records[k])
    ensures LatestInit(c, records, m, k) && Uploaded(c, records, m, k, tx)
    ensures SignedAt(c, tx, records[k].command, records[k].stored.value)
  {
    hide SignatureAfter, ProcessChunk, Digest, MadeSignature, Payloads, ParseTx, Display.Reviewable, Display.JudgeBytes;
    hide OnlySession, SignProtocol.Run, IsInit, IsUnknown, Completes, Right, UploadAfter, UploadEvent, SignedAt;
    var events := UploadEvents(c, records);
    var data := UploadAt(c, u, s, records, k);
    m := CompleteBuffer(c.capacity, u, events, k);
    Display.JudgeBytesExactly(c.lib, c.key, data, c.expert);
    tx := Display.JudgeBytes(c.lib, c.key, data, c.expert).tx;
    forall j | m <= j <= k ensures PacketAt(c, records, j) == events[j].packet {
    }
  }

  lemma UploadAt(c: Setting, u: Upload, s: SigState, records: seq<Record>, k: nat) returns (data: seq<byte>)
    requires k < |records| && records[k].stored.Some?
    requires Right(c, UploadAfter(c, u, records[..k]), SignatureAfter(c, s, records[..k]), records[k])
    ensures Completes(c.capacity, u, UploadEvents(c, records), k)
    ensures data == SignProtocol.Run(c.capacity, u, UploadEvents(c, records)[..k + 1]).buffer
    ensures Display.JudgeBytes(c.lib, c.key, data, c.expert).ForReview?
    ensures SignedAt(c, Display.JudgeBytes(c.lib, c.key, data, c.expert).tx, records[k].command, records[k].stored.value)
  {
    hide SignatureAfter, ProcessChunk, Digest, MadeSignature, Display.JudgeBytes;
    var events := UploadEvents(c, records);
    assert events[..k] == UploadEvents(c, records[..k]);
    assert events[k] == UploadEvent(c, records[k]);
    assert events[..k + 1][..k] == events[..k];
    data := SignProtocol.Run(c.capacity, u, events[..k + 1]).buffer;
  }

  // ----- the life of a device --------------------------------------------------------------

  /** One boot: the seed, the failures of the check, the initialisation attempts, and then the
      commands. */
  datatype Plan = Plan(seed: Bytes32, faults: Faults, attempts: seq<Faults>, commands: seq<Command>)

  /** What is recorded of a boot, and the signature that was in the slot before the commands. */
  datatype History = History(setting: Setting, sig: Bytes512, records: seq<Record>)

  /** In this boot every command is right, and if the device is ready its keys are those of the
      seed of the boot. */
  ghost predicate BootRight(plan: Plan, h: History, parts: seq<Option<seq<byte>>>) {
    && Records(h.records, plan.commands, parts)
    && AllRight(h.setting, Upload(false, []), SigState(h.sig, false), h.records)
    && (h.setting.ready ==>
          && h.setting.key == Some(PublicKey(h.setting.sdk, plan.seed))
          && h.setting.privateKey == PrivateKey(h.setting.sdk, plan.seed))
  }

  /** One boot, with what is in flash before and after it. */
  method LiveBoot(sdk: Sdk, lib: Display.Library, hash: Hash, engine: bool, expert: bool, capacity: nat,
                  flash: Slots, flashSigs: seq<Bytes512>, plan: Plan, ghost d: KeyStoreRuns.Device)
    returns (flash': Slots, flashSigs': seq<Bytes512>, parts: seq<Option<seq<byte>>>, ghost h: History,
             ghost d': KeyStoreRuns.Device)
    requires capacity < 0x1_0000 && (engine ==> Engine.Computes(hash)) && |flashSigs| == 2
    requires flash == d.s.slots && KeyStoreRuns.Consistent(sdk, d)
    ensures flash' == d'.s.slots && KeyStoreRuns.Consistent(sdk, d') && |flashSigs'| == 2
    ensures h.setting.sdk == sdk && h.setting.hash == hash && h.setting.lib == lib
    ensures h.setting.expert == expert && h.setting.capacity == capacity
    ensures BootRight(plan, h, parts)
  {
    hide KeyStoreRuns.Consistent, KeyStoreRuns.Step, HashUnit.Computes, BootRight;
    KeyStoreRuns.StepKeepsConsistent(sdk, d, KeyStoreRuns.Boot(plan.seed, plan.faults));
    var store := KeyStoreRuns.BootAndTest(sdk, d, flash, flashSigs, plan.seed, plan.faults);
    Attempt(store, plan.attempts);
    d' := KeyStoreRuns.Device(store.View(), store.seed);
    parts, h := Serve(store, lib, hash, engine, expert, capacity, plan);
    flash', flashSigs' := store.slots[..], store.sigs[..];
  }

  /** The commands of a boot, after the initialisation attempts. */
  method Serve(store: Store, lib: Display.Library, hash: Hash, engine: bool, expert: bool, capacity: nat, plan: Plan)
    returns (parts: seq<Option<seq<byte>>>, ghost h: History)
    requires capacity < 0x1_0000 && (engine ==> Engine.Computes(hash))
    requires store.Valid() && store.seed == plan.seed && !store.signatureSet
    requires KeyStoreRuns.Consistent(store.sdk, KeyStoreRuns.Device(store.View(), store.seed))
    modifies store.sigs, store`signatureSet
    ensures store.Valid() && h.setting.sdk == store.sdk && h.setting.hash == hash && h.setting.lib == lib
    ensures h.setting.expert == expert && h.setting.capacity == capacity
    ensures BootRight(plan, h, parts)
  {
    hide KeyStoreRuns.Consistent, HashUnit.Computes, AllRight, Records, PublicKey, PrivateKey;
    if store.deviceInitialized {
      KeyStoreRuns.KeysInUse(store.sdk, KeyStoreRuns.Device(store.View(), store.seed));
    }
    var device := new Device(capacity, store, lib, hash, engine, expert);
    ghost var setting, sig := SettingOf(device), SignatureView(device).sig;
    ghost var records;
    parts, records := HandleAll(device, plan.commands);
    h := History(setting, sig, records);
  }

  /** The initialisation screen, as often as the user likes. */
  method Attempt(store: Store, attempts: seq<Faults>)
    requires store.Valid() && KeyStoreRuns.Consistent(store.sdk, KeyStoreRuns.Device(store.View(), store.seed))
    modifies store.slots, store`slotInUse, store`deviceInitialized
    ensures store.Valid() && KeyStoreRuns.Consistent(store.sdk, KeyStoreRuns.Device(store.View(), store.seed))
  {
    hide KeyStoreRuns.Consistent, KeyStoreRuns.Step;
    for i := 0 to |attempts|
      invariant store.Valid() && KeyStoreRuns.Consistent(store.sdk, KeyStoreRuns.Device(store.View(), store.seed))
    {
      KeyStoreRuns.StepKeepsConsistent(store.sdk, KeyStoreRuns.Device(store.View(), store.seed),
                                       KeyStoreRuns.Initialise(attempts[i]));
      KeyStoreRuns.OfferInitialise(store, attempts[i]);
    }
  }

  /** A whole life, from an empty key store on. */
  method Live(sdk: Sdk, lib: Display.Library, hash: Hash, engine: bool, expert: bool, capacity: nat,
              flash: Slots, flashSigs: seq<Bytes512>, plans: seq<Plan>)
    returns (served: seq<seq<Option<seq<byte>>>>, ghost histories: seq<History>)
    requires capacity < 0x1_0000 && (engine ==> Engine.Computes(hash)) && |flashSigs| == 2
    requires !flash[0].initialized && !flash[1].initialized
    ensures |served| == |histories| == |plans|
    ensures forall b :: 0 <= b < |plans| ==>
              && BootRight(plans[b], histories[b], served[b])
              && histories[b].setting.sdk == sdk && histories[b].setting.hash == hash
  {
    hide BootRight, HashUnit.Computes;
    served, histories := [], [];
    var slots, sigs := flash, flashSigs;
    ghost var d := KeyStoreRuns.Device(State(flash, 0, false), Zeros(32));
    for b := 0 to |plans|
      invariant |served| == |histories| == b && |sigs| == 2
      invariant slots == d.s.slots && KeyStoreRuns.Consistent(sdk, d)
      invariant forall k :: 0 <= k < b ==>
                  && BootRight(plans[k], histories[k], served[k])
                  && histories[k].setting.sdk == sdk && histories[k].setting.hash == hash
    {
      var parts;
      ghost var h;
      slots, sigs, parts, h, d := LiveBoot(sdk, lib, hash, engine, expert, capacity, slots, sigs, plans[b], d);
      served, histories := served + [parts], histories + [h];
    }
  }

  /** In every boot of a life: a part that is served is half of a signature that was made with
      the private key of the boot's seed for the transaction that was approved last, which was
      sent since the latest INIT before and belongs to that seed. If the SHA-256 call reported
      no error it is the signature of the deep hash of that transaction. */
  lemma ServedInBoot(plan: Plan, h: History, parts: seq<Option<seq<byte>>>, i: nat)
    returns (m: nat, k: nat, tx: Tx, sig: Bytes512)
    requires BootRight(plan, h, parts) && i < |parts| && parts[i].Some?
    ensures LatestStored(h.setting, h.records, k, i) && LatestInit(h.setting, h.records, m, k)
    ensures m < k < |plan.commands| == |h.records|
    ensures Uploaded(h.setting, h.records, m, k, tx) && tx.owner == PublicKey(h.setting.sdk, plan.seed)
    ensures plan.commands[i].PartRequest? && plan.commands[i].index <= 1
    ensures parts[i].value == sig[256 * plan.commands[i].index..256 * plan.commands[i].index + 256]
    ensures SignedForSeed(h.setting.sdk, plan.seed, h.setting.hash, tx, plan.commands[k], sig)
  {
    hide AllRight, LatestStored, LatestInit, SignedAt, SignedForSeed, PublicKey, PrivateKey, Payloads, ParseTx;
    m, k, tx := ServedHalf(h.setting, Upload(false, []), SigState(h.sig, false), h.records, i);
    StoredEarlier(h.setting, h.records, k, i);
    sig := h.records[k].stored.value;
    SignedWithSeed(h.setting, plan.seed, tx, plan.commands[k], sig);
  }

  /** Made with the private key of the seed, and if the SHA-256 call reported no error, the
      signature of the deep hash of the transaction. */
  predicate SignedForSeed(sdk: Sdk, seed: Bytes32, hash: Hash, tx: Tx, command: Command, sig: Bytes512) {
    && command.SignPacket? && command.decision == Approve && command.answers.salt.Some?
    && sig == MadeSignature(sdk, PrivateKey(sdk, seed), Digest(hash, tx), command.answers)
    && (command.answers.left.None? ==>
          sig == DigestSignature(sdk, PrivateKey(sdk, seed), Digest(hash, tx), command.answers.salt.value))
  }

  lemma SignedWithSeed(c: Setting, seed: Bytes32, tx: Tx, command: Command, sig: Bytes512)
    requires SignedAt(c, tx, command, sig) && c.privateKey == PrivateKey(c.sdk, seed)
    ensures SignedForSeed(c.sdk, seed, c.hash, tx, command, sig)
  {
    hide Digest, PrivateKey;
  }

  lemma StoredEarlier(c: Setting, records: seq<Record>, k: nat, i: nat)
    requires i < |records| && LatestStored(c, records, k, i)
    ensures k < i && records[k].stored.Some?
    ensures forall m: nat :: LatestInit(c, records, m, k) ==> m < k
  {
  }
}
