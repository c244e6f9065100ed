/** The upload of a transaction in packets: the device's packet handler
    (app/src/apdu_handler.c:39-79) and what it keeps over whole runs. */
module SignProtocol {
  import opened Bytes
  import opened WireFormat

  /** A SIGN packet as far as the handler looks at it: too short to have a header, or with
      its two parameters and its payload. */
  datatype Packet = Short | Packet(p1: byte, p2: byte, payload: seq<byte>)

  const P1_INIT: byte := 0
  const P1_ADD: byte := 1
  const P1_LAST: byte := 2

  datatype StatusWord =
    | CodeOk
    | WrongLength
    | InvalidP1P2
    | TxNotInitialized
    | OutputBufferTooSmall
    | DataInvalid
    | CommandNotAllowed
    | SignVerifyError

  /** The answer to a packet: a status word, or nothing yet because the last packet is in. */
  datatype ChunkResult = Reply(sw: StatusWord) | Complete

  /** tx_initialized and the transaction buffer. */
  datatype Upload = Upload(initialized: bool, buffer: seq<byte>)

  /** Appending to the buffer: a payload that fits is appended; of one that does not fit
      only a part is taken, and what the buffer then holds (`left`) is not specified. */
  function Append(capacity: nat, u: Upload, payload: seq<byte>, left: seq<byte>): Upload {
    if |u.buffer| + |payload| <= capacity then u.(buffer := u.buffer + payload)
    else Upload(false, left)
  }

  /** process_chunk */
  function ProcessChunk(capacity: nat, u: Upload, p: Packet, left: seq<byte>): (Upload, ChunkResult) {
    if p.Short? then (u, Reply(WrongLength))
    else if p.p2 != 0 then (u, Reply(InvalidP1P2))
    else if p.p1 == P1_INIT then (Upload(true, []), Reply(CodeOk))
    else if p.p1 == P1_ADD then
      var after := Append(capacity, u, p.payload, left);
      (after, if |u.buffer| + |p.payload| <= capacity then Reply(CodeOk) else Reply(OutputBufferTooSmall))
    else if p.p1 == P1_LAST then
      if !u.initialized then (u, Reply(TxNotInitialized))
      else
        var after := Append(capacity, u, p.payload, left);
        (after, if |u.buffer| + |p.payload| <= capacity then Complete else Reply(OutputBufferTooSmall))
    else (u.(initialized := false), Reply(InvalidP1P2))
  }

  // ----- the program -----------------------------------------------------------------

  /** The transaction buffer behind tx_append. */
  class TxBuffer {
    const capacity: nat
    var data: seq<byte>

    constructor (capacity: nat)
      ensures this.capacity == capacity && data == []
    {
      this.capacity := capacity;
      data := [];
    }

    method Reset()
      modifies this`data
      ensures data == []
    {
      data := [];
    }

    /** The number of bytes taken; less than the payload if it does not fit. */
    method AppendBytes(payload: seq<byte>) returns (added: nat)
      requires |data| <= capacity
      modifies this`data
      ensures |data| <= capacity
      ensures if |old(data)| + |payload| <= capacity then added == |payload| && data == old(data) + payload
              else added < |payload|
    {
      if |data| + |payload| <= capacity {
        data := data + payload;
        return |payload|;
      }
      added :| 0 <= added < |payload|;
      assert data[..0] == [];
      var left: seq<byte> :| |left| <= capacity;
      data := left;
    }
  }

  class PacketHandler {
    var txInitialized: bool
    const buffer: TxBuffer

    constructor (capacity: nat)
      ensures buffer.capacity == capacity && !txInitialized && fresh(buffer) && buffer.data == []
    {
      txInitialized := false;
      buffer := new TxBuffer(capacity);
    }

    function View(): Upload
      reads this, buffer
    {
      Upload(txInitialized, buffer.data)
    }

    /** process_chunk, with the exceptions it throws as results. */
    method HandleChunk(p: Packet) returns (r: ChunkResult)
      requires |buffer.data| <= buffer.capacity
      modifies this`txInitialized, buffer`data
      ensures |buffer.data| <= buffer.capacity
      ensures (View(), r) == ProcessChunk(buffer.capacity, old(View()), p, buffer.data)
    {
      if p.Short? {
        return Reply(WrongLength);
      }
      if p.p2 != 0 {
        return Reply(InvalidP1P2);
      }
      var added;
      if p.p1 == P1_INIT {
        buffer.Reset();
        txInitialized := true;
        return Reply(CodeOk);
      } else if p.p1 == P1_ADD {
        added := buffer.AppendBytes(p.payload);
        if added != |p.payload| {
          txInitialized := false;
          return Reply(OutputBufferTooSmall);
        }
        return Reply(CodeOk);
      } else if p.p1 == P1_LAST {
        if !txInitialized {
          return Reply(TxNotInitialized);
        }
        added := buffer.AppendBytes(p.payload);
        if added != |p.payload| {
          txInitialized := false;
          return Reply(OutputBufferTooSmall);
        }
        return Complete;
      }
      txInitialized := false;
      r := Reply(InvalidP1P2);
    }
  }

  // ----- whole runs --------------------------------------------------------------------

  /** A packet, and what a failed append would leave in the buffer. */
  datatype Event = Event(packet: Packet, left: seq<byte>)

  function Run(capacity: nat, u: Upload, events: seq<Event>): Upload {
    if events == [] then u
    else
      var n := |events| - 1;
      ProcessChunk(capacity, Run(capacity, u, events[..n]), events[n].packet, events[n].left).0
  }

  predicate IsInit(p: Packet) {
    p.Packet? && p.p2 == 0 && p.p1 == P1_INIT
  }

  predicate HasPayload(p: Packet) {
    p.Packet? && p.p2 == 0 && (p.p1 == P1_ADD || p.p1 == P1_LAST)
  }

  predicate IsUnknown(p: Packet) {
    p.Packet? && p.p2 == 0 && p.p1 > P1_LAST
  }

  /** The payloads of the ADD and LAST packets, in order; malformed packets carry none. */
  function Payloads(events: seq<Event>): seq<byte> {
    if events == [] then []
    else
      var n := |events| - 1;
      Payloads(events[..n]) + if HasPayload(events[n].packet) then events[n].packet.payload else []
  }

  /** The upload that started with the packet at k is still whole: no later INIT, no unknown
      packet type, and everything sent since fits the buffer. */
  predicate Session(capacity: nat, events: seq<Event>, k: nat) {
    && k < |events| && IsInit(events[k].packet)
    && (forall j :: k < j < |events| ==> !IsInit(events[j].packet) && !IsUnknown(events[j].packet))
    && |Payloads(events[k + 1..])| <= capacity
  }

  lemma PayloadsSnoc(events: seq<Event>, k: nat)
    requires k + 1 < |events|
    ensures Payloads(events[k + 1..])
         == Payloads(events[..|events| - 1][k + 1..])
          + (if HasPayload(events[|events| - 1].packet) then events[|events| - 1].packet.payload else [])
  {
    var n := |events| - 1;
    assert events[k + 1..][..n - k - 1] == events[..n][k + 1..];
  }

  /** How one more packet changes which upload is whole. */
  lemma SessionSnoc(capacity: nat, events: seq<Event>, k: nat)
    requires events != []
    ensures var n := |events| - 1;
            Session(capacity, events, k) <==>
            if k == n then IsInit(events[n].packet)
            else
              && Session(capacity, events[..n], k)
              && !IsInit(events[n].packet) && !IsUnknown(events[n].packet)
              && |Payloads(events[k + 1..])| <= capacity
  {
    var n := |events| - 1;
    if k == n {
      assert events[k + 1..] == [];
    } else if k < n {
      PayloadsSnoc(events, k);
      assert forall j :: 0 <= j < n ==> events[..n][j] == events[j];
    }
  }

  ghost predicate OnlySession(capacity: nat, events: seq<Event>, k: nat) {
    Session(capacity, events, k) && forall j: nat :: Session(capacity, events, j) ==> j == k
  }

  lemma AtMostOneSession(capacity: nat, events: seq<Event>, j: nat, k: nat)
    requires Session(capacity, events, j) && Session(capacity, events, k)
    ensures j == k
  {
  }

  /** After every sequence of packets: tx_initialized says that there is a whole upload, and
      then the buffer is the concatenation of its payloads. */
  lemma {:induction false} UploadState(capacity: nat, u: Upload, events: seq<Event>)
    requires !u.initialized
    ensures Run(capacity, u, events).initialized <==> exists k: nat :: Session(capacity, events, k)
    ensures forall k: nat :: Session(capacity, events, k) ==>
              Run(capacity, u, events).buffer == Payloads(events[k + 1..])
    decreases |events|
  {
    if events != [] {
      hide Session;
      var n := |events| - 1;
      var front := events[..n];
      UploadState(capacity, u, front);
      forall k: nat
        ensures Session(capacity, events, k) ==>
                  Run(capacity, u, events).initialized && Run(capacity, u, events).buffer == Payloads(events[k + 1..])
      {
        SessionSnoc(capacity, events, k);
        SessionBounds(capacity, events, k);
        if k < n { PayloadsSnoc(events, k); }
        if k == n { assert events[k + 1..] == []; }
      }
      if Run(capacity, u, events).initialized {
        SessionSnoc(capacity, events, n);
        if !IsInit(events[n].packet) {
          var k: nat :| Session(capacity, front, k);
          SessionBounds(capacity, front, k);
          SessionSnoc(capacity, events, k);
          PayloadsSnoc(events, k);
          assert Session(capacity, events, k);
        }
      }
    }
  }

  lemma SessionBounds(capacity: nat, events: seq<Event>, k: nat)
    ensures Session(capacity, events, k) ==> k < |events| && |Payloads(events[k + 1..])| <= capacity
  {
  }

  /** The packet at n completes an upload. */
  predicate Completes(capacity: nat, u: Upload, events: seq<Event>, n: nat)
    requires n < |events|
  {
    ProcessChunk(capacity, Run(capacity, u, events[..n]), events[n].packet, events[n].left).1 == Complete
  }

  ghost predicate HasWholeUpload(capacity: nat, events: seq<Event>) {
    exists k: nat :: Session(capacity, events, k)
  }

  /** A packet reaches parsing exactly if it is a LAST packet of a whole upload that fits. */
  lemma CompleteExactly(capacity: nat, u: Upload, events: seq<Event>, n: nat)
    requires !u.initialized && n < |events|
    ensures Completes(capacity, u, events, n) <==>
            && HasPayload(events[n].packet) && events[n].packet.p1 == P1_LAST
            && HasWholeUpload(capacity, events[..n + 1])
  {
    hide Session, Payloads;
    var upTo := events[..n + 1];
    assert upTo[..n] == events[..n];
    UploadState(capacity, u, upTo);
  }

  /** What is then parsed is all that was sent since the latest INIT, in order; there is only
      one upload that it can be. */
  lemma CompleteBuffer(capacity: nat, u: Upload, events: seq<Event>, n: nat) returns (k: nat)
    requires !u.initialized && n < |events| && Completes(capacity, u, events, n)
    ensures k < n && IsInit(events[k].packet)
    ensures forall j :: k < j <= n ==> !IsInit(events[j].packet) && !IsUnknown(events[j].packet)
    ensures Run(capacity, u, events[..n + 1]).buffer == Payloads(events[k + 1..n + 1])
    ensures OnlySession(capacity, events[..n + 1], k)
  {
    var upTo := events[..n + 1];
    CompleteExactly(capacity, u, events, n);
    UploadState(capacity, u, upTo);
    k :| Session(capacity, upTo, k);
    assert upTo[k + 1..] == events[k + 1..n + 1];
    assert forall j :: 0 <= j <= n ==> upTo[j] == events[j];
    forall j: nat | Session(capacity, upTo, j) ensures j == k {
      AtMostOneSession(capacity, upTo, j, k);
    }
  }

  /** The answer to packet n of a run. */
  function AnswerTo(capacity: nat, u: Upload, events: seq<Event>, n: nat): ChunkResult
    requires n < |events|
  {
    ProcessChunk(capacity, Run(capacity, u, events[..n]), events[n].packet, events[n].left).1
  }

  /** The answers of every run, by the numbers of the packet types: 0 starts an upload, 1 and 2
      continue it, and a packet of type 2 is told apart by whether there is a whole upload
      before it and after it. */
  lemma AnswersExactly(capacity: nat, u: Upload, events: seq<Event>, n: nat)
    requires !u.initialized && n < |events|
    ensures events[n].packet.Short? ==> AnswerTo(capacity, u, events, n) == Reply(WrongLength)
    ensures events[n].packet.Packet? && (events[n].packet.p2 != 0 || events[n].packet.p1 > 2) ==>
              AnswerTo(capacity, u, events, n) == Reply(InvalidP1P2)
    ensures events[n].packet.Packet? && events[n].packet.p2 == 0 && events[n].packet.p1 == 0 ==>
              AnswerTo(capacity, u, events, n) == Reply(CodeOk)
    ensures events[n].packet.Packet? && events[n].packet.p2 == 0 && events[n].packet.p1 == 1
            && HasWholeUpload(capacity, events[..n]) ==>
              AnswerTo(capacity, u, events, n)
              == Reply(if HasWholeUpload(capacity, events[..n + 1]) then CodeOk else OutputBufferTooSmall)
    ensures events[n].packet.Packet? && events[n].packet.p2 == 0 && events[n].packet.p1 == 2 ==>
              AnswerTo(capacity, u, events, n)
              == if !HasWholeUpload(capacity, events[..n]) then Reply(TxNotInitialized)
                 else if HasWholeUpload(capacity, events[..n + 1]) then Complete
                 else Reply(OutputBufferTooSmall)
  {
    hide Session, Payloads;
    var upTo := events[..n + 1];
    assert upTo[..n] == events[..n];
    UploadState(capacity, u, events[..n]);
    UploadState(capacity, u, upTo);
  }

  /** While tx_initialized is not set nothing reaches parsing until a new INIT. */
  lemma NothingUntilInit(capacity: nat, u: Upload, events: seq<Event>, b: nat, n: nat)
    requires !u.initialized && b < n < |events|
    requires !Run(capacity, u, events[..b + 1]).initialized
    requires forall j :: b < j < n ==> !IsInit(events[j].packet)
    ensures !Run(capacity, u, events[..n]).initialized
    ensures !Completes(capacity, u, events, n)
    decreases n
  {
    if b + 1 < n {
      assert events[..n][..n - 1] == events[..n - 1];
      NothingUntilInit(capacity, u, events, b, n - 1);
    }
  }

  /** The two causes: an unknown packet type, and a payload that does not fit. */
  predicate Breaks(capacity: nat, u: Upload, p: Packet) {
    IsUnknown(p) || (HasPayload(p) && |u.buffer| + |p.payload| > capacity)
  }

  /** From such a packet on nothing reaches parsing until a new INIT. */
  lemma NothingAfterBreak(capacity: nat, u: Upload, events: seq<Event>, b: nat, n: nat)
    requires !u.initialized && b < n < |events|
    requires Breaks(capacity, Run(capacity, u, events[..b]), events[b].packet)
    requires forall j :: b < j < n ==> !IsInit(events[j].packet)
    ensures !Completes(capacity, u, events, n)
  {
    assert events[..b + 1][..b] == events[..b];
    NothingUntilInit(capacity, u, events, b, n);
  }

  /** tx_initialized is not cleared when an upload completes: one more LAST packet completes
      again, and the bytes it adds come after the transaction and are not looked at. */
  lemma ExtraLastReadsSameTransaction(capacity: nat, u: Upload, p: Packet, left: seq<byte>, q: Packet, left': seq<byte>)
    requires ProcessChunk(capacity, u, p, left).1 == Complete
    requires HasPayload(q) && q.p1 == P1_LAST && |u.buffer| + |p.payload| + |q.payload| <= capacity
    requires ParseTx(u.buffer + p.payload).Ok?
    ensures var after := ProcessChunk(capacity, u, p, left).0;
            var (again, r) := ProcessChunk(capacity, after, q, left');
            r == Complete && ParseTx(again.buffer) == ParseTx(after.buffer)
  {
    hide ParseTx, Encode, Valid;
    var b := u.buffer + p.payload;
    ReadIsEncoding(b);
    var next := ParseTx(b).next;
    TrailingBytesAreIgnored(b, b[next..] + q.payload);
    assert b[..next] + (b[next..] + q.payload) == b + q.payload;
  }
}
