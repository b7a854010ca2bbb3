// A sender and a receiver over a network that loses, duplicates and reorders packets.

module DtlsSession {
  import opened Basics
  import opened SslConstants
  import opened DtlsFragment
  import opened DtlsDelivery
  import opened DtlsReplay
  import opened DtlsSchedule
  import DtlsSender
  import DtlsSending
  import DtlsReceiver
  import DtlsWriter

  // What can happen, in any order and number. Deliver brings record j of packet k, counting
  // every packet the sender's transport ever took; what is never delivered is lost. AwaitCcs
  // does the same for a receiver that waits for a ChangeCipherSpec. Look shows the next
  // message, Read takes it.
  datatype Action =
    | Sends(op: Op)
    | NewReadCipher(version: nat)
    | Deliver(k: nat, j: nat, version: nat)
    | AwaitCcs(k: nat, j: nat, version: nat)
    | Look
    | Read

  // The session at one moment. ccsRead counts the waits for a ChangeCipherSpec that are over.
  datatype Snapshot = Snapshot(sender: DtlsSending.SenderView, reader: ReaderState, inbox: DtlsReceiver.Inbox, ccsRead: nat,
                               delivered: seq<Message>, alive: bool)

  // A session that begins with this sender.
  function Begin(sender: DtlsSending.SenderView, version: nat, maxLen: nat): Snapshot {
    var view := DtlsReceiver.View(0, 0, maxLen, seq(FLIGHT, _ => None));
    Snapshot(sender, Fresh(version), DtlsReceiver.Inbox(view, false, false), 0, [], true)
  }

  // --- What each action does ---

  // Record j of packet k, if the transport has taken that many.
  function OnWire(a: Snapshot, k: nat, j: nat): Option<DtlsWriter.WireRecord> {
    if k < |a.sender.wire| && j < |a.sender.wire[k]| then Some(a.sender.wire[k][j]) else None
  }

  function Arriving(r: Option<DtlsWriter.WireRecord>, version: nat): Incoming {
    if r.None? then Empty
    else if r.value.epoch >= EPOCHS || r.value.seqNum >= TWO48 then Malformed
    else Incoming.Record(r.value.typ, version, r.value.epoch, r.value.seqNum, Some(r.value.plaintext))
  }

  // dtls1_open_handshake on what arrives: the record layer, then the receiver. An error or the
  // peer's closing ends the session.
  ghost function Received(a: Snapshot, r: Option<DtlsWriter.WireRecord>, version: nat): (b: (Snapshot, bool))
    requires DtlsReceiver.RingOk(a.inbox.view)
    ensures DtlsReceiver.RingOk(b.0.inbox.view)
  {
    var x := Arriving(r, version);
    var out, reader := OutcomeOf(a.reader, x), AfterRecord(a.reader, x);
    if out.Success? then
      var o := DtlsReceiver.Opens(a.inbox, out.typ, out.plaintext, a.reader.nullCipher);
      (a.(reader := reader, inbox := o.0, alive := !o.1.Error?), o.1.Success?)
    else (a.(reader := reader, alive := out.Partial? || out.Discard?), false)
  }

  // dtls1_open_change_cipher_spec: one that waits is taken, or the next record is read and may
  // be one.
  ghost function AfterAwait(a: Snapshot, r: Option<DtlsWriter.WireRecord>, version: nat): Snapshot
    requires DtlsReceiver.RingOk(a.inbox.view)
  {
    var b := if a.inbox.hasCcs then (a, true) else Received(a, r, version);
    if b.1 && b.0.inbox.hasCcs then b.0.(inbox := b.0.inbox.(hasCcs := false), ccsRead := b.0.ccsRead + 1) else b.0
  }

  // The cipher changes exactly when nothing is left over; otherwise the session ends.
  ghost function AfterChange(a: Snapshot, version: nat): Snapshot
    requires DtlsReceiver.RingOk(a.inbox.view)
  {
    if DtlsReceiver.Unprocessed(a.inbox) then a.(alive := false)
    else
      var view := a.inbox.view.(epoch := (a.inbox.view.epoch + 1) % SEQUENCES);
      a.(reader := AfterCipher(a.reader, version), inbox := a.inbox.(view := view))
  }

  // A ChangeCipherSpec that has arrived is no obstacle once it has been waited for: with
  // nothing else left over the cipher changes and the session goes on.
  lemma ChangeAfterCcs(a: Snapshot, version: nat)
    requires DtlsReceiver.RingOk(a.inbox.view) && a.alive && a.inbox.hasCcs
    ensures var b := AfterAwait(a, None, version);
            && AfterChange(a, version) == a.(alive := false)
            && b.alive && b.ccsRead == a.ccsRead + 1 && !b.inbox.hasCcs
            && var c := AfterChange(b, version);
               (!DtlsReceiver.Unprocessed(b.inbox) ==>
                  && c.alive && c.reader.generation == a.reader.generation + 1
                  && c.inbox.view.epoch == (a.inbox.view.epoch + 1) % SEQUENCES)
  {
  }

  // The message a receiver can hand out, if it is complete.
  ghost function NextMessage(v: DtlsReceiver.View): seq<Message>
    requires DtlsReceiver.RingOk(v)
  {
    if DtlsReceiver.CurrentComplete(v) then
      var p := DtlsReceiver.Slot(v, v.readSeq).value;
      [Message(p.typ, p.bytes)]
    else []
  }

  ghost function AfterLook(a: Snapshot): Snapshot
    requires DtlsReceiver.RingOk(a.inbox.view)
  {
    a.(inbox := a.inbox.(hasMessage := a.inbox.hasMessage || DtlsReceiver.CurrentComplete(a.inbox.view)))
  }

  ghost function AfterRead(a: Snapshot): Snapshot
    requires DtlsReceiver.RingOk(a.inbox.view)
  {
    if DtlsReceiver.CurrentComplete(a.inbox.view) then
      a.(delivered := a.delivered + NextMessage(a.inbox.view),
         inbox := a.inbox.(view := DtlsReceiver.Advance(a.inbox.view), hasMessage := false))
    else a
  }

  // Every action has one outcome.
  ghost predicate Steps(a: Snapshot, act: Action, b: Snapshot) {
    DtlsReceiver.RingOk(a.inbox.view) && DtlsSending.Ready(a.sender) &&
    match act
    case Sends(op) => b == a.(sender := AfterOp(a.sender, op).0)
    case NewReadCipher(version) => b == if a.alive then AfterChange(a, version) else a
    case Deliver(k, j, version) => b == if a.alive then Received(a, OnWire(a, k, j), version).0 else a
    case AwaitCcs(k, j, version) => b == if a.alive then AfterAwait(a, OnWire(a, k, j), version) else a
    case Look => b == if a.alive then AfterLook(a) else a
    case Read => b == if a.alive then AfterRead(a) else a
  }

  // The record is for the reader as it stands, and new to it.
  predicate Expected(s: ReaderState, r: DtlsWriter.WireRecord, version: nat) {
    && r.epoch == s.generation % 65536
    && (if s.nullCipher then version / 256 == 254 else version == s.recordVersion)
    && (s.generation, r.seqNum) !in s.accepted && r.epoch * TWO48 + r.seqNum + 64 > s.maxSeq
  }

  // What a record that comes through the network does while the peer has not closed. One that
  // is not expected, late or a copy leaves everything as it is, and so does none at all. One
  // that is expected and no alert gets to the receiver, and ends the session only if it is
  // refused there or is too long.
  lemma {:induction false} ReceivedExact(a: Snapshot, r: DtlsWriter.WireRecord, version: nat)
    requires DtlsReceiver.RingOk(a.inbox.view) && a.alive && !a.reader.closed && r.epoch < 65536 && r.seqNum < TWO48
    ensures Received(a, None, version) == (a, false)
    ensures !Expected(a.reader, r, version) ==> Received(a, Some(r), version) == (a, false)
    ensures Expected(a.reader, r, version) && |r.plaintext| <= 16384 && r.typ != 21 ==>
              var b, o := Received(a, Some(r), version).0, DtlsReceiver.Opens(a.inbox, r.typ, r.plaintext, a.reader.nullCipher);
              b.inbox == o.0 && (b.alive <==> !o.1.Error?) && !b.reader.closed && b.reader.generation == a.reader.generation
    ensures Expected(a.reader, r, version) && |r.plaintext| > 16384 ==> Received(a, Some(r), version).0 == a.(alive := false)
  {
  }

  // Nothing but the current message, complete, is held.
  ghost predicate OnlyCurrent(a: Snapshot)
    requires DtlsReceiver.RingOk(a.inbox.view)
  {
    && !a.inbox.hasCcs && DtlsReceiver.CurrentComplete(a.inbox.view)
    && forall i :: 0 <= i < FLIGHT && i != a.inbox.view.readSeq % FLIGHT ==> a.inbox.view.slots[i] == None
  }

  // The current message is in the way of a cipher change until it has been looked at or taken;
  // the one behind it is always.
  lemma {:induction false} ChangeAfterLook(a: Snapshot, version: nat)
    requires DtlsReceiver.RingOk(a.inbox.view) && a.alive && DtlsReceiver.CurrentComplete(a.inbox.view)
    ensures DtlsReceiver.RingOk(AfterLook(a).inbox.view) && DtlsReceiver.RingOk(AfterRead(a).inbox.view)
    ensures OnlyCurrent(a) ==>
              && (AfterChange(a, version).alive <==> a.inbox.hasMessage)
              && AfterChange(AfterLook(a), version).alive && AfterChange(AfterRead(a), version).alive
    ensures DtlsReceiver.Slot(a.inbox.view, a.inbox.view.readSeq + 1).Some? ==>
              !AfterChange(AfterLook(a), version).alive && !AfterChange(AfterRead(a), version).alive
  {
    var v := a.inbox.view;
    DtlsReceiver.AdvanceKeepsRing(v);
    if DtlsReceiver.Slot(v, v.readSeq + 1).Some? {
      var i := (v.readSeq + 1) % FLIGHT;
      assert v.slots[i].Some? && i != v.readSeq % FLIGHT;
      assert DtlsReceiver.Advance(v).slots[i].Some?;
    }
  }

  // --- The messages handed out ---

  // Every message queued and every handshake record on the wire comes from a message sent, the
  // pass over the flight is on track, and what has been handed out at this moment is the first
  // of what has been sent.
  ghost predicate Delivers(s: Snapshot) {
    && DtlsSending.Steady(s.sender)
    && (|s.sender.sent| < SEQUENCES ==>
          |s.delivered| <= |s.sender.sent| && s.delivered == s.sender.sent[..|s.delivered|])
  }

  // The messages handed out are the first of those sent, exactly.
  ghost predicate InOrder(sent: seq<Message>, v: DtlsReceiver.View, delivered: seq<Message>) {
    && DtlsReceiver.RingOk(v)
    && (|sent| < SEQUENCES ==>
          Follows(v, sent) && delivered == sent[..v.readSeq])
  }

  lemma {:induction false} RecordInOrder(sent: seq<Message>, v: DtlsReceiver.View, delivered: seq<Message>,
                                        r: DtlsWriter.WireRecord)
    requires InOrder(sent, v, delivered) && DtlsSending.HonestRecord(sent, r)
    ensures r.typ == SSL3_RT_HANDSHAKE ==> InOrder(sent, DtlsReceiver.AbsorbAll(v, r.plaintext).0, delivered)
  {
    if |sent| < SEQUENCES && r.typ == SSL3_RT_HANDSHAKE {
      var p := ParseFragment(r.plaintext);
      OneFragment(v, r.plaintext);
      AbsorbFollows(v, sent, p.value.0, p.value.1);
    }
  }

  lemma {:induction false} MessageInOrder(sent: seq<Message>, v: DtlsReceiver.View, delivered: seq<Message>)
    requires InOrder(sent, v, delivered) && DtlsReceiver.CurrentComplete(v)
    ensures InOrder(sent, DtlsReceiver.Advance(v), delivered + NextMessage(v))
  {
    DtlsReceiver.AdvanceKeepsRing(v);
    if |sent| < SEQUENCES {
      NextDelivered(v, sent);
      assert sent[..v.readSeq + 1] == sent[..v.readSeq] + [sent[v.readSeq]];
    }
  }

  lemma {:induction false} MoreInOrder(sent: seq<Message>, v: DtlsReceiver.View, delivered: seq<Message>, more: seq<Message>)
    requires InOrder(sent, v, delivered) && |more| <= 1
    ensures InOrder(sent + more, v, delivered)
  {
    if more == [] {
      assert sent + more == sent;
    } else if |sent + more| < SEQUENCES {
      assert more == [more[0]];
      FollowsMore(v, sent, more[0]);
    }
  }

  // Whatever a record holds, the receiver stays on track.
  lemma {:induction false} OpensInOrder(sent: seq<Message>, b: DtlsReceiver.Inbox, delivered: seq<Message>,
                                        r: DtlsWriter.WireRecord, nullCipher: bool)
    requires InOrder(sent, b.view, delivered) && DtlsSending.HonestRecord(sent, r)
    ensures InOrder(sent, DtlsReceiver.Opens(b, r.typ, r.plaintext, nullCipher).0.view, delivered)
  {
    RecordInOrder(sent, b.view, delivered, r);
  }

  lemma {:induction false} ReceivedInOrder(a: Snapshot, r: Option<DtlsWriter.WireRecord>, version: nat)
    requires InOrder(a.sender.sent, a.inbox.view, a.delivered)
    requires r.Some? ==> DtlsSending.HonestRecord(a.sender.sent, r.value)
    ensures InOrder(a.sender.sent, Received(a, r, version).0.inbox.view, a.delivered)
  {
    if r.Some? {
      OpensInOrder(a.sender.sent, a.inbox, a.delivered, r.value, a.reader.nullCipher);
    }
  }

  lemma {:induction false} WireRecordHonest(a: Snapshot, k: nat, j: nat)
    requires DtlsSending.WireHonest(a.sender.sent, a.sender.wire)
    ensures OnWire(a, k, j).Some? ==> DtlsSending.HonestRecord(a.sender.sent, OnWire(a, k, j).value)
  {
    if OnWire(a, k, j).Some? {
      assert a.sender.wire[k] in a.sender.wire && DtlsSending.PacketHonest(a.sender.sent, a.sender.wire[k]);
      assert a.sender.wire[k][j] in a.sender.wire[k];
    }
  }

  // Whatever the operation, at most one message is added.
  lemma {:induction false} AddsOne(v: DtlsSending.SenderView, op: Op) returns (more: seq<Message>)
    requires DtlsSending.Steady(v)
    ensures AfterOp(v, op).0.sent == v.sent + more && |more| <= 1
  {
    OpKeeps(v, op);
    more := Rest(v.sent, AfterOp(v, op).0.sent);
  }

  lemma {:induction false} Rest(a: seq<Message>, b: seq<Message>) returns (more: seq<Message>)
    requires a <= b && |b| <= |a| + 1
    ensures b == a + more && |more| <= 1
  {
    more := b[|a|..];
  }

  class Session {
    const sender: DtlsSender.Sender
    const reader: RecordReader
    const receiver: DtlsReceiver.Receiver
    var ccsRead: nat
    var delivered: seq<Message>
    var alive: bool

    ghost function Now(): Snapshot
      reads this, sender, sender.writer, reader, reader.window, receiver
    {
      Snapshot(sender.Now(), reader.Now(), receiver.Now(), ccsRead, delivered, alive)
    }

    ghost predicate Valid()
      reads this, sender, sender.writer, reader, reader.window, receiver, receiver.Repr
    {
      && sender.Valid() && reader.Valid() && receiver.Valid()
      && {this, sender, sender.writer, reader, reader.window} !! receiver.Repr
      && InOrder(sender.sent, receiver.view, delivered)
    }

    constructor (cipher: DtlsWriter.Cipher, transport: DtlsSending.Transport, version: nat, maxLen: nat, mtu: nat)
      ensures Valid() && fresh(sender) && fresh(sender.writer) && fresh(reader) && fresh(reader.window) && fresh(receiver.Repr)
      ensures Now() == Begin(DtlsSending.NewSender(cipher, transport, mtu), version, maxLen) && Delivers(Now())
    {
      var writer := new DtlsWriter.RecordWriter(cipher);
      sender := new DtlsSender.Sender(writer, transport, mtu);
      reader := new RecordReader(version);
      receiver := new DtlsReceiver.Receiver(maxLen);
      ccsRead, delivered, alive := 0, [], true;
    }

    // dtls1_open_handshake on what arrives, and what ssl_handle_open_record makes of it.
    method Receive(r: Option<DtlsWriter.WireRecord>, version: nat) returns (ok: bool)
      requires Valid() && alive && (r.Some? ==> DtlsSending.HonestRecord(sender.sent, r.value))
      modifies this`alive, reader, reader.window, receiver.Repr
      ensures Valid() && fresh(receiver.Repr - old(receiver.Repr))
      ensures (Now(), ok) == Received(old(Now()), r, version)
    {
      ReceivedInOrder(Now(), r, version);
      var nullCipher := reader.nullCipher;
      var out := ReadRecord(r, version);
      ok := false;
      if out.Success? {
        ok := TakeIn(out.typ, out.plaintext, nullCipher);
      } else {
        alive := out.Partial? || out.Discard?;
      }
    }

    // The record layer.
    method ReadRecord(r: Option<DtlsWriter.WireRecord>, version: nat) returns (out: Outcome)
      requires Valid()
      modifies reader, reader.window
      ensures Valid() && out == OutcomeOf(old(reader.Now()), Arriving(r, version))
      ensures Now() == old(Now()).(reader := AfterRecord(old(reader.Now()), Arriving(r, version)))
    {
      var taken;
      out, taken := reader.OpenRecord(Arriving(r, version));
    }

    // The receiver, on what the record holds.
    method TakeIn(typ: byte, record: seq<byte>, nullCipher: bool) returns (ok: bool)
      requires Valid() && InOrder(sender.sent, DtlsReceiver.Opens(receiver.Now(), typ, record, nullCipher).0.view, delivered)
      modifies this`alive, receiver.Repr
      ensures Valid() && fresh(receiver.Repr - old(receiver.Repr))
      ensures var o := DtlsReceiver.Opens(old(receiver.Now()), typ, record, nullCipher);
              Now() == old(Now()).(inbox := o.0, alive := !o.1.Error?) && ok == o.1.Success?
    {
      var o := receiver.OpenHandshake(typ, record, nullCipher);
      ok, alive := o.Success?, !o.Error?;
    }

    // dtls1_open_change_cipher_spec.
    method OpenChangeCipherSpec(r: Option<DtlsWriter.WireRecord>, version: nat)
      requires Valid() && alive && (r.Some? ==> DtlsSending.HonestRecord(sender.sent, r.value))
      modifies this`alive, this`ccsRead, reader, reader.window, receiver.Repr
      ensures Valid() && fresh(receiver.Repr - old(receiver.Repr))
      ensures Now() == AfterAwait(old(Now()), r, version)
    {
      var ok := true;
      if !receiver.hasCcs {
        ok := Receive(r, version);
      }
      if ok {
        TakeChangeCipherSpec();
      }
    }

    // One that waits is taken.
    method TakeChangeCipherSpec()
      requires Valid()
      modifies this`ccsRead, receiver`hasCcs
      ensures Valid() && receiver.Repr == old(receiver.Repr)
      ensures var a := old(Now());
              Now() == if a.inbox.hasCcs then a.(inbox := a.inbox.(hasCcs := false), ccsRead := a.ccsRead + 1) else a
    {
      var ok := receiver.OpenChangeCipherSpec();
      if ok {
        ccsRead := ccsRead + 1;
      }
    }

    method Look()
      requires Valid()
      modifies receiver`hasMessage
      ensures Valid() && receiver.Repr == old(receiver.Repr) && Now() == AfterLook(old(Now()))
    {
      var ok, typ, body, raw := receiver.GetMessage();
    }

    method Read()
      requires Valid()
      modifies this`delivered, receiver.Repr
      ensures Valid() && fresh(receiver.Repr - old(receiver.Repr))
      ensures Now() == AfterRead(old(Now()))
    {
      var ok, typ, body, raw := receiver.GetMessage();
      if ok {
        Take(Message(typ, body));
      }
    }

    // dtls1_next_message.
    method Take(m: Message)
      requires Valid() && receiver.hasMessage && [m] == NextMessage(receiver.view)
      modifies this`delivered, receiver.Repr
      ensures Valid() && fresh(receiver.Repr - old(receiver.Repr)) && Now() == AfterRead(old(Now()))
    {
      MessageInOrder(sender.sent, receiver.view, delivered);
      receiver.NextMessage();
      delivered := delivered + [m];
    }

    // The sender's own operations.
    method Send(op: Op)
      requires Valid()
      modifies sender, sender.writer
      ensures Valid() && Now() == old(Now()).(sender := AfterOp(old(sender.Now()), op).0)
    {
      ghost var v := sender.Now();
      ghost var more := AddsOne(v, op);
      var done := Apply(sender, op);
      MoreInOrder(v.sent, receiver.view, delivered, more);
    }

    method ChangeCipher(version: nat)
      requires Valid() && alive
      modifies this`alive, reader, reader.window, receiver`epoch, receiver`view
      ensures Valid() && Now() == AfterChange(old(Now()), version) && receiver.Repr == old(receiver.Repr)
    {
      var ok := ChangeReceiver();
      if ok {
        ChangeReader(version);
      } else {
        alive := false;
      }
    }

    method ChangeReader(version: nat)
      requires Valid()
      modifies reader, reader.window
      ensures Valid() && Now() == old(Now()).(reader := AfterCipher(old(reader.Now()), version))
    {
      reader.SetReadState(version);
    }

    method ChangeReceiver() returns (ok: bool)
      requires Valid()
      modifies receiver`epoch, receiver`view
      ensures Valid() && receiver.Repr == old(receiver.Repr) && (ok <==> !DtlsReceiver.Unprocessed(old(receiver.Now())))
      ensures var a := old(Now());
              Now() == if ok then a.(inbox := a.inbox.(view := a.inbox.view.(epoch := (a.inbox.view.epoch + 1) % SEQUENCES))) else a
    {
      ok := receiver.SetReadState();
    }

    method Act(a: Action)
      requires Valid()
      modifies this`ccsRead, this`delivered, this`alive, sender, sender.writer, reader, reader.window, receiver.Repr
      ensures Valid() && fresh(receiver.Repr - old(receiver.Repr))
      ensures Steps(old(Now()), a, Now()) && Delivers(Now())
    {
      if a.Sends? {
        Send(a.op);
      } else if alive {
        Hear(a);
      }
    }

    // What the receiver does while the session lasts.
    method Hear(a: Action)
      requires Valid() && alive && !a.Sends?
      modifies this`ccsRead, this`delivered, this`alive, reader, reader.window, receiver.Repr
      ensures Valid() && fresh(receiver.Repr - old(receiver.Repr))
      ensures Steps(old(Now()), a, Now())
    {
      match a {
        case NewReadCipher(version) => ChangeCipher(version);
        case Deliver(k, j, version) =>
          WireRecordHonest(Now(), k, j);
          var ok := Receive(Packet(k, j), version);
        case AwaitCcs(k, j, version) =>
          WireRecordHonest(Now(), k, j);
          OpenChangeCipherSpec(Packet(k, j), version);
        case Look => Look();
        case Read => Read();
      }
    }

    function Packet(k: nat, j: nat): (r: Option<DtlsWriter.WireRecord>)
      reads this, sender, sender.writer, reader, reader.window, receiver
      ensures r == OnWire(Now(), k, j)
    {
      if k < |sender.wire| && j < |sender.wire[k]| then Some(sender.wire[k][j]) else None
    }
  }

  // --- Whole runs ---

  // The sender's operations in a schedule.
  function Ops(schedule: seq<Action>): seq<Op> {
    if schedule == [] then []
    else
      var a := schedule[|schedule| - 1];
      Ops(schedule[..|schedule| - 1]) + if a.Sends? then [a.op] else []
  }

  // The messages a schedule sends: those for which there is room when they are added.
  function SentBy(schedule: seq<Action>): seq<Message> { PlanOf(Ops(schedule)).sent }

  // The session before each action of a run, and at its end.
  ghost predicate Traces(schedule: seq<Action>, trace: seq<Snapshot>, begin: Snapshot) {
    && |trace| == |schedule| + 1 && trace[0] == begin
    && forall i :: 0 <= i < |schedule| ==> Steps(trace[i], schedule[i], trace[i + 1])
  }

  ghost predicate AllDeliver(trace: seq<Snapshot>) { forall s :: s in trace ==> Delivers(s) }

  // Only its own operations move the sender.
  lemma SenderStep(s: Snapshot, a: Action, t: Snapshot)
    requires Steps(s, a, t)
    ensures t.sender == if a.Sends? then AfterOp(s.sender, a.op).0 else s.sender
  {
  }

  lemma {:induction false} PlanStep(schedule: seq<Action>, v: DtlsSending.SenderView, a: Action)
    requires Matches(PlanOf(Ops(schedule)), v) && DtlsSending.Steady(v)
    ensures Matches(PlanOf(Ops(schedule + [a])), if a.Sends? then AfterOp(v, a.op).0 else v)
  {
    OpsMore(schedule, a);
    if a.Sends? { PlanMore(Ops(schedule), v, a.op); }
  }

  lemma {:induction false} OpsMore(schedule: seq<Action>, a: Action)
    ensures Ops(schedule + [a]) == if a.Sends? then Ops(schedule) + [a.op] else Ops(schedule)
  {
    assert (schedule + [a])[..|schedule|] == schedule;
  }

  ghost predicate Ran(schedule: seq<Action>, trace: seq<Snapshot>, begin: Snapshot) {
    && Traces(schedule, trace, begin) && AllDeliver(trace)
    && Matches(PlanOf(Ops(schedule)), trace[|schedule|].sender)
  }

  // The sender in a run is where its own operations lead.
  lemma {:induction false} SenderRuns(schedule: seq<Action>, trace: seq<Snapshot>, begin: Snapshot)
    requires Traces(schedule, trace, begin) && DtlsSending.Ready(begin.sender)
    ensures trace[|schedule|].sender == After(begin.sender, Ops(schedule)).0
  {
    if schedule != [] {
      var n := |schedule| - 1;
      var ops, a := Ops(schedule[..n]), schedule[n];
      SenderRuns(schedule[..n], trace[..n + 1], begin);
      assert Steps(trace[n], a, trace[n + 1]);
      SenderStep(trace[n], a, trace[n + 1]);
      if a.Sends? { assert (ops + [a.op])[..|ops|] == ops; } else { assert ops + [] == ops; }
    }
  }

  // --- ChangeCipherSpecs ---

  // The action brings a record of the type of a ChangeCipherSpec.
  predicate BringsCcs(a: Snapshot, act: Action) {
    && (act.Deliver? || act.AwaitCcs?)
    && var r := OnWire(a, act.k, act.j);
       r.Some? && r.value.typ == 20
  }

  // How many of them have come.
  ghost function CcsBrought(schedule: seq<Action>, trace: seq<Snapshot>): nat
    requires |trace| == |schedule| + 1
  {
    if schedule == [] then 0
    else
      var n := |schedule| - 1;
      CcsBrought(schedule[..n], trace[..n + 1]) + if BringsCcs(trace[n], schedule[n]) then 1 else 0
  }

  // Those that have been waited for and the one that is kept.
  function CcsTaken(s: Snapshot): nat { s.ccsRead + if s.inbox.hasCcs then 1 else 0 }

  lemma ReceivedCcs(a: Snapshot, r: Option<DtlsWriter.WireRecord>, version: nat)
    requires DtlsReceiver.RingOk(a.inbox.view)
    ensures var b := Received(a, r, version).0;
            b.ccsRead == a.ccsRead && (b.inbox.hasCcs ==> a.inbox.hasCcs || (r.Some? && r.value.typ == 20))
  {
  }

  lemma {:induction false} StepCcs(a: Snapshot, act: Action, b: Snapshot)
    requires Steps(a, act, b)
    ensures a.ccsRead <= b.ccsRead && CcsTaken(b) <= CcsTaken(a) + if BringsCcs(a, act) then 1 else 0
  {
    if act.Deliver? || act.AwaitCcs? { ReceivedCcs(a, OnWire(a, act.k, act.j), act.version); }
  }

  // No ChangeCipherSpec is made up: over any run those that have been waited for, and the one
  // that is kept, are no more than the records of that type that have come.
  lemma {:induction false} CcsCounted(schedule: seq<Action>, trace: seq<Snapshot>, begin: Snapshot)
    requires Traces(schedule, trace, begin)
    ensures CcsTaken(trace[|schedule|]) <= CcsTaken(begin) + CcsBrought(schedule, trace)
  {
    if schedule != [] {
      var n := |schedule| - 1;
      CcsCounted(schedule[..n], trace[..n + 1], begin);
      assert Steps(trace[n], schedule[n], trace[n + 1]);
      StepCcs(trace[n], schedule[n], trace[n + 1]);
    }
  }

  lemma {:induction false} TracesMore(schedule: seq<Action>, trace: seq<Snapshot>, begin: Snapshot, a: Action, s: Snapshot)
    requires Traces(schedule, trace, begin) && Steps(trace[|schedule|], a, s)
    ensures Traces(schedule + [a], trace + [s], begin)
  {
    forall i | 0 <= i < |schedule + [a]|
      ensures Steps((trace + [s])[i], (schedule + [a])[i], (trace + [s])[i + 1])
    {
      if i < |schedule| { assert Steps(trace[i], schedule[i], trace[i + 1]); }
    }
  }

  lemma {:induction false} RanMore(schedule: seq<Action>, trace: seq<Snapshot>, begin: Snapshot, a: Action, s: Snapshot)
    requires Ran(schedule, trace, begin) && Steps(trace[|schedule|], a, s) && Delivers(s)
    ensures Ran(schedule + [a], trace + [s], begin)
  {
    TracesMore(schedule, trace, begin, a, s);
    var last := trace[|schedule|];
    assert last in trace && Delivers(last);
    SenderStep(last, a, s);
    PlanStep(schedule, last.sender, a);
  }

  method Round(session: Session, schedule: seq<Action>, n: nat, ghost had: seq<Snapshot>, ghost begin: Snapshot)
    returns (ghost trace: seq<Snapshot>)
    requires n < |schedule| && session.Valid() && Ran(schedule[..n], had, begin) && had[n] == session.Now()
    modifies session`ccsRead, session`delivered, session`alive, session.sender, session.sender.writer
    modifies session.reader, session.reader.window, session.receiver.Repr
    ensures session.Valid() && fresh(session.receiver.Repr - old(session.receiver.Repr))
    ensures Ran(schedule[..n + 1], trace, begin) && trace[n + 1] == session.Now()
  {
    session.Act(schedule[n]);
    RanMore(schedule[..n], had, begin, schedule[n], session.Now());
    assert schedule[..n] + [schedule[n]] == schedule[..n + 1];
    trace := had + [session.Now()];
  }

  // Whatever happens and however often, the messages handed out are at every point the first
  // of the messages sent so far, in order, once each, with their exact types and bodies; and
  // the messages sent are those the schedule adds.
  method Run(schedule: seq<Action>, cipher: DtlsWriter.Cipher, transport: DtlsSending.Transport, version: nat,
             maxLen: nat, mtu: nat)
    returns (delivered: seq<Message>, ghost trace: seq<Snapshot>)
    ensures Traces(schedule, trace, Begin(DtlsSending.NewSender(cipher, transport, mtu), version, maxLen)) && AllDeliver(trace)
    ensures delivered == trace[|schedule|].delivered && trace[|schedule|].sender.sent == SentBy(schedule)
    ensures var sent := SentBy(schedule);
            |sent| < SEQUENCES ==> |delivered| <= |sent| && delivered == sent[..|delivered|]
  {
    var session := new Session(cipher, transport, version, maxLen, mtu);
    ghost var begin := session.Now();
    trace := Play(session, schedule);
    assert Ran(schedule, trace, begin);
    delivered := session.delivered;
    assert trace[|schedule|] in trace && Delivers(trace[|schedule|]);
  }

  // The loop over the schedule.
  method Play(session: Session, schedule: seq<Action>) returns (ghost trace: seq<Snapshot>)
    requires session.Valid() && Delivers(session.Now()) && Matches(NO_PLAN, session.sender.Now())
    modifies session`ccsRead, session`delivered, session`alive, session.sender, session.sender.writer
    modifies session.reader, session.reader.window, session.receiver.Repr
    ensures Ran(schedule, trace, old(session.Now())) && session.delivered == trace[|schedule|].delivered
  {
    ghost var begin := session.Now();
    trace := [begin];
    var n := 0;
    while n < |schedule|
      invariant n <= |schedule| && session.Valid() && fresh(session.receiver.Repr - old(session.receiver.Repr))
      invariant Ran(schedule[..n], trace, begin) && trace[n] == session.Now()
    {
      trace := Round(session, schedule, n, trace, begin);
      n := n + 1;
    }
    assert schedule[..n] == schedule;
  }
}
