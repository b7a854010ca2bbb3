// What reaches the receiver stays there until it is read: once every record of a pass over a
// flight has arrived at some point of a run, reading hands out every message of the flight.

module DtlsCompletion {
  import opened Basics
  import opened SslConstants
  import opened DtlsFragment
  import opened DtlsFlight
  import opened DtlsReassembly
  import opened DtlsReceiver
  import opened DtlsDelivery
  import opened DtlsArrival
  import opened DtlsSession
  import DtlsBitmap
  import DtlsReplay
  import DtlsSchedule
  import DtlsSending
  import DtlsWriter

  // --- One message in one state of the ring ---

  // Message k has been handed out, or its slot is filled and has this byte if it has so many.
  ghost predicate Has(v: View, k: nat, b: nat)
    requires RingOk(v)
  {
    k < v.readSeq
    || (k < v.readSeq + FLIGHT && Slot(v, k).Some? && (b < |Slot(v, k).value.bytes| ==> b in Slot(v, k).value.marked))
  }

  ghost predicate Done(v: View, k: nat)
    requires RingOk(v)
  {
    k < v.readSeq || (k < v.readSeq + FLIGHT && Slot(v, k).Some? && Whole(Slot(v, k).value))
  }

  // The slot of a message holds that message.
  lemma {:induction false} SlotOf(v: View, sent: seq<Message>, k: nat)
    requires Follows(v, sent) && v.readSeq <= k < v.readSeq + FLIGHT && Slot(v, k).Some?
    ensures Slot(v, k).value.seqNum == k < |sent| && Agrees(Slot(v, k).value, sent[k])
  {
    assert InPlace(v, k % FLIGHT, Slot(v, k).value.seqNum) && SlotFollows(Slot(v, k).value, sent);
    SameSlot(v.readSeq, Slot(v, k).value.seqNum, k);
  }

  // A fragment takes nothing away, and brings its own bytes unless it is refused or comes too
  // early.
  lemma {:induction false} AbsorbHas(v: View, sent: seq<Message>, h: Header, body: seq<byte>, k: nat, b: nat)
    requires Follows(v, sent) && Slice(sent, h, body) && |body| == h.len
    ensures var w := Absorb(v, h, body);
            && Follows(w, sent) && w.readSeq == v.readSeq
            && (Has(v, k, b) ==> Has(w, k, b))
            && (!Judge(v, h).Failed? && h.seqNum == k < v.readSeq + FLIGHT && Covers(h, b) ==> Has(w, k, b))
  {
    AbsorbFollows(v, sent, h, body);
    var w := Absorb(v, h, body);
    if v.readSeq <= k < v.readSeq + FLIGHT {
      if Slot(v, k).Some? { SlotOf(v, sent, k); }
      if Slot(w, k).Some? { SlotOf(w, sent, k); }
    }
  }

  // Taking the next message out takes away no other.
  lemma {:induction false} AdvanceHas(v: View, sent: seq<Message>, k: nat, b: nat)
    requires Follows(v, sent) && CurrentComplete(v) && Has(v, k, b)
    ensures RingOk(Advance(v)) && Has(Advance(v), k, b)
  {
    NextDelivered(v, sent);
    if k > v.readSeq {
      OtherSlot(v.readSeq, k);
    }
  }

  lemma {:induction false} OtherSlot(base: nat, k: nat)
    requires base < k < base + FLIGHT
    ensures k % FLIGHT != base % FLIGHT
  {
  }

  // A message with every byte is complete, with the body that was sent.
  lemma {:induction false} AllBytes(v: View, sent: seq<Message>, k: nat)
    requires Follows(v, sent) && k < |sent| && forall b :: 0 <= b <= |sent[k].body| ==> Has(v, k, b)
    ensures Done(v, k)
  {
    assert Has(v, k, |sent[k].body|);
    if k >= v.readSeq {
      SlotOf(v, sent, k);
      var p := Slot(v, k).value;
      forall b | 0 <= b < |p.bytes| ensures b in p.marked { assert Has(v, k, b); }
      assert p.marked == DtlsBitmap.Span(0, |p.bytes|);
    }
  }

  // --- One step of the session ---

  // What the session keeps, while message numbers have not come round.
  ghost predicate Kept(s: Snapshot) {
    && Delivers(s) && InOrder(s.sender.sent, s.inbox.view, s.delivered) && |s.sender.sent| < SEQUENCES
  }

  // The record layer takes the record, and a fragment in it is not beyond the window.
  ghost predicate Arrived(a: Snapshot, r: DtlsWriter.WireRecord, version: nat) {
    && DtlsReplay.Takes(a.reader, Arriving(Some(r), version))
    && (r.typ == SSL3_RT_HANDSHAKE && ParseFragment(r.plaintext).Done? ==>
          ParseFragment(r.plaintext).value.0.seqNum < a.inbox.view.readSeq + FLIGHT)
  }

  // The record arrives at this step, which does not end the session.
  ghost predicate Arrives(a: Snapshot, act: Action, b: Snapshot, r: DtlsWriter.WireRecord) {
    && a.alive && b.alive && (act.Deliver? || (act.AwaitCcs? && !a.inbox.hasCcs))
    && OnWire(a, act.k, act.j) == Some(r) && Arrived(a, r, act.version)
  }

  lemma {:induction false} ReceivedHas(a: Snapshot, r: DtlsWriter.WireRecord, version: nat, k: nat, b: nat)
    requires Kept(a) && DtlsSending.HonestRecord(a.sender.sent, r)
    ensures var c := Received(a, Some(r), version).0;
            && (Has(a.inbox.view, k, b) ==> Has(c.inbox.view, k, b))
            && (Arrived(a, r, version) && c.alive && Brings(r, k, b) ==> Has(c.inbox.view, k, b))
  {
    if r.typ == SSL3_RT_HANDSHAKE {
      var v, p := a.inbox.view, ParseFragment(r.plaintext);
      OneFragment(v, r.plaintext);
      AbsorbHas(v, a.sender.sent, p.value.0, p.value.1, k, b);
    }
  }

  lemma {:induction false} StepHas(a: Snapshot, act: Action, c: Snapshot, k: nat, b: nat)
    requires Kept(a) && Steps(a, act, c)
    ensures DtlsReceiver.RingOk(c.inbox.view)
    ensures Has(a.inbox.view, k, b) ==> Has(c.inbox.view, k, b)
  {
    match act
    case Sends(op) =>
    case NewReadCipher(version) =>
    case Deliver(i, j, version) => ArrivalHas(a, i, j, version, k, b);
    case AwaitCcs(i, j, version) => ArrivalHas(a, i, j, version, k, b);
    case Look =>
    case Read =>
      if CurrentComplete(a.inbox.view) {
        AdvanceKeepsRing(a.inbox.view);
        if Has(a.inbox.view, k, b) { AdvanceHas(a.inbox.view, a.sender.sent, k, b); }
      }
  }

  lemma {:induction false} ArrivalHas(a: Snapshot, i: nat, j: nat, version: nat, k: nat, b: nat)
    requires Kept(a)
    ensures Has(a.inbox.view, k, b) ==> Has(Received(a, OnWire(a, i, j), version).0.inbox.view, k, b)
  {
    WireRecordHonest(a, i, j);
    if OnWire(a, i, j).Some? { ReceivedHas(a, OnWire(a, i, j).value, version, k, b); }
  }

  lemma {:induction false} ArrivesHas(a: Snapshot, act: Action, c: Snapshot, r: DtlsWriter.WireRecord, k: nat, b: nat)
    requires Kept(a) && Steps(a, act, c) && Arrives(a, act, c, r) && Brings(r, k, b)
    ensures DtlsReceiver.RingOk(c.inbox.view) && Has(c.inbox.view, k, b)
  {
    WireRecordHonest(a, act.k, act.j);
    ReceivedHas(a, r, act.version, k, b);
  }

  // --- Whole runs ---

  lemma {:induction false} StepKept(a: Snapshot, act: Action, c: Snapshot)
    requires Kept(a) && Steps(a, act, c) && Delivers(c) && |c.sender.sent| < SEQUENCES
    ensures Kept(c)
  {
    match act
    case Sends(op) =>
      var more := AddsOne(a.sender, op);
      MoreInOrder(a.sender.sent, a.inbox.view, a.delivered, more);
    case NewReadCipher(version) =>
    case Deliver(i, j, version) =>
      WireRecordHonest(a, i, j);
      ReceivedInOrder(a, OnWire(a, i, j), version);
    case AwaitCcs(i, j, version) =>
      WireRecordHonest(a, i, j);
      ReceivedInOrder(a, OnWire(a, i, j), version);
    case Look =>
    case Read => if a.alive && CurrentComplete(a.inbox.view) { MessageInOrder(a.sender.sent, a.inbox.view, a.delivered); }
  }

  ghost predicate Stepwise(schedule: seq<Action>, trace: seq<Snapshot>) {
    && |trace| == |schedule| + 1
    && forall i :: 0 <= i < |schedule| ==> Steps(trace[i], schedule[i], trace[i + 1])
  }

  // A run of the session, before message numbers come round.
  ghost predicate Good(schedule: seq<Action>, trace: seq<Snapshot>) {
    && Stepwise(schedule, trace) && Kept(trace[0]) && AllDeliver(trace)
    && (forall s :: s in trace ==> |s.sender.sent| < SEQUENCES)
  }

  lemma {:induction false} TraceKept(schedule: seq<Action>, trace: seq<Snapshot>, i: nat)
    requires Good(schedule, trace) && i < |trace|
    ensures Kept(trace[i])
    decreases i
  {
    if i > 0 {
      TraceKept(schedule, trace, i - 1);
      assert trace[i] in trace && Steps(trace[i - 1], schedule[i - 1], trace[i]);
      StepKept(trace[i - 1], schedule[i - 1], trace[i]);
    }
  }

  // What is there stays there.
  lemma {:induction false} TraceHas(schedule: seq<Action>, trace: seq<Snapshot>, i: nat, j: nat, k: nat, b: nat)
    requires Good(schedule, trace) && i <= j < |trace| && Kept(trace[i]) && Has(trace[i].inbox.view, k, b)
    ensures Kept(trace[j]) && Has(trace[j].inbox.view, k, b)
    decreases j
  {
    TraceKept(schedule, trace, j);
    if i < j {
      TraceHas(schedule, trace, i, j - 1, k, b);
      assert Steps(trace[j - 1], schedule[j - 1], trace[j]);
      StepHas(trace[j - 1], schedule[j - 1], trace[j], k, b);
    }
  }

  // Messages sent stay sent.
  lemma {:induction false} SentStays(schedule: seq<Action>, trace: seq<Snapshot>, i: nat, j: nat)
    requires Stepwise(schedule, trace) && AllDeliver(trace) && i <= j < |trace|
    ensures trace[i].sender.sent <= trace[j].sender.sent
    decreases j
  {
    if i < j {
      SentStays(schedule, trace, i, j - 1);
      var a, act := trace[j - 1], schedule[j - 1];
      assert a in trace && Steps(a, act, trace[j]);
      SentGrows(a, act, trace[j]);
    }
  }

  lemma {:induction false} SentGrows(a: Snapshot, act: Action, c: Snapshot)
    requires Steps(a, act, c) && Delivers(a)
    ensures a.sender.sent <= c.sender.sent
  {
    SenderStep(a, act, c);
    if act.Sends? { DtlsSchedule.OpKeeps(a.sender, act.op); }
  }

  // What DtlsSession.Run gives is such a run, unless message numbers have come round.
  lemma {:induction false} RunIsGood(schedule: seq<Action>, trace: seq<Snapshot>, sender: DtlsSending.SenderView,
                                     version: nat, maxLen: nat)
    requires Traces(schedule, trace, Begin(sender, version, maxLen)) && AllDeliver(trace)
    requires |trace[|schedule|].sender.sent| < SEQUENCES
    ensures Good(schedule, trace)
  {
    forall s | s in trace ensures |s.sender.sent| < SEQUENCES {
      var i :| 0 <= i < |trace| && trace[i] == s;
      SentStays(schedule, trace, i, |schedule|);
    }
    assert trace[0] in trace && Delivers(trace[0]);
    assert trace[0].sender.sent[..0] == [];
  }

  // Every handshake record of these has arrived at some point of the run.
  ghost predicate AllArrived(schedule: seq<Action>, trace: seq<Snapshot>, records: seq<DtlsWriter.WireRecord>)
    requires |trace| == |schedule| + 1
  {
    forall r :: r in records && r.typ == SSL3_RT_HANDSHAKE ==>
      exists i :: 0 <= i < |schedule| && Arrives(trace[i], schedule[i], trace[i + 1], r)
  }

  // At this moment of the run the whole flight has been written, no seal having cost a piece of
  // it, and every record of the pass arrives at some point of the run.
  ghost predicate PassArrived(schedule: seq<Action>, trace: seq<Snapshot>, m: nat)
    requires |trace| == |schedule| + 1 && m < |trace|
  {
    var v := trace[m].sender;
    && v.at == Position(|v.messages|, 0) && v.lost == 0
    && v.start <= |v.wire| && AllArrived(schedule, trace, DtlsSending.Accepted(v))
  }

  // Nothing is lost, and the flight is the one the schedule asks for, where no seal can fail.
  lemma {:induction false} PassFromSchedule(schedule: seq<Action>, trace: seq<Snapshot>,
                                        sender: DtlsSending.SenderView, version: nat, maxLen: nat, m: nat)
    requires Traces(schedule, trace, Begin(sender, version, maxLen)) && m <= |schedule|
    requires DtlsSending.Steady(sender) && DtlsSchedule.Matches(DtlsSchedule.NO_PLAN, sender)
    requires sender.wire == [] && sender.start == 0 && sender.lost == 0
    ensures var ops, v := Ops(schedule[..m]), trace[m].sender;
            && DtlsSchedule.Matches(DtlsSchedule.PlanOf(ops), v)
            && (DtlsSchedule.SoundPass(sender, ops, DtlsSchedule.PlanOf(ops).since) ==> v.lost == 0)
            && (DtlsSchedule.After(sender, ops).1 ==> v.at == Position(|v.messages|, 0))
  {
    var ops := Ops(schedule[..m]);
    assert Traces(schedule[..m], trace[..m + 1], Begin(sender, version, maxLen)) by {
      forall i | 0 <= i < m ensures Steps(trace[..m + 1][i], schedule[..m][i], trace[..m + 1][i + 1]) {
        assert Steps(trace[i], schedule[i], trace[i + 1]);
      }
    }
    SenderRuns(schedule[..m], trace[..m + 1], Begin(sender, version, maxLen));
    DtlsSchedule.RunEnds(sender, ops);
    DtlsSchedule.SameLength(trace[m].sender.messages);
  }

  // Once every record of a finished pass has arrived, each message of the flight has been
  // handed out or waits complete in its slot.
  lemma {:induction false} MessageDone(schedule: seq<Action>, trace: seq<Snapshot>, m: nat, i: nat)
    requires Good(schedule, trace) && m < |trace| && PassArrived(schedule, trace, m)
    requires i < |trace[m].sender.messages| && trace[m].sender.messages[i].Handshake?
    ensures var v, s := trace[m].sender, trace[|schedule|];
            && Kept(s) && WellFormed(v.messages[i])
            && Done(s.inbox.view, HeaderOf(v.messages[i]).seqNum)
  {
    var v, s := trace[m].sender, trace[|schedule|];
    TraceKept(schedule, trace, m);
    DtlsSending.TrackTiles(v);
    assert v.messages[i] in v.messages;
    var k := HeaderOf(v.messages[i]).seqNum;
    TraceKept(schedule, trace, |schedule|);
    forall b | 0 <= b <= Len(v.messages[i]) ensures Has(s.inbox.view, k, b) {
      var r := RecordOf(v.messages, v.pass, DtlsSending.Accepted(v), i, b);
      ArrivedHas(schedule, trace, r, k, b);
    }
    SentStays(schedule, trace, m, |schedule|);
    assert DtlsSending.Added(v.sent, v.messages[i]) && s.sender.sent[k] == v.sent[k];
    AllBytes(s.inbox.view, s.sender.sent, k);
  }

  // What a record brings that has arrived is there at the end.
  lemma {:induction false} ArrivedHas(schedule: seq<Action>, trace: seq<Snapshot>, r: DtlsWriter.WireRecord, k: nat, b: nat)
    requires Good(schedule, trace) && Brings(r, k, b)
    requires exists i :: 0 <= i < |schedule| && Arrives(trace[i], schedule[i], trace[i + 1], r)
    ensures Kept(trace[|schedule|]) && Has(trace[|schedule|].inbox.view, k, b)
  {
    var n :| 0 <= n < |schedule| && Arrives(trace[n], schedule[n], trace[n + 1], r);
    TraceKept(schedule, trace, n);
    TraceKept(schedule, trace, n + 1);
    assert Steps(trace[n], schedule[n], trace[n + 1]);
    ArrivesHas(trace[n], schedule[n], trace[n + 1], r, k, b);
    TraceHas(schedule, trace, n + 1, |schedule|, k, b);
  }

  // --- Reading ---

  // A message is read n times.
  ghost function AfterReads(s: Snapshot, n: nat): (t: Snapshot)
    requires RingOk(s.inbox.view)
    ensures RingOk(t.inbox.view)
    decreases n
  {
    if n == 0 then s
    else
      AdvanceKeepsRing(s.inbox.view);
      AfterReads(AfterRead(s), n - 1)
  }

  lemma {:induction false} ReadKeeps(s: Snapshot, k: nat)
    requires Kept(s) && s.alive && Done(s.inbox.view, s.inbox.view.readSeq)
    ensures var t := AfterRead(s);
            && Steps(s, Read, t) && Kept(t) && t.alive && t.sender == s.sender && t.inbox.view.readSeq == s.inbox.view.readSeq + 1
            && (Done(s.inbox.view, k) ==> Done(t.inbox.view, k))
  {
    var v := s.inbox.view;
    MessageInOrder(s.sender.sent, v, s.delivered);
    NextDelivered(v, s.sender.sent);
    if k > v.readSeq && k < v.readSeq + FLIGHT { OtherSlot(v.readSeq, k); }
  }

  // The next n messages are complete.
  ghost predicate Ready(v: View, n: nat)
    requires RingOk(v)
  {
    forall k: nat :: v.readSeq <= k < v.readSeq + n ==> Done(v, k)
  }

  // Complete messages are handed out one after the other, each with its exact type and body.
  lemma {:induction false} ReadOut(s: Snapshot, n: nat)
    requires Kept(s) && s.alive && Ready(s.inbox.view, n)
    ensures var to := s.inbox.view.readSeq + n;
            to <= |s.sender.sent| && AfterReads(s, n).delivered == s.sender.sent[..to]
    decreases n
  {
    if n > 0 {
      var v, t := s.inbox.view, AfterRead(s);
      assert Done(v, v.readSeq);
      ReadKeeps(s, v.readSeq);
      forall k: nat | t.inbox.view.readSeq <= k < t.inbox.view.readSeq + (n - 1) ensures Done(t.inbox.view, k) {
        assert Done(v, k);
        ReadKeeps(s, k);
      }
      ReadOut(t, n - 1);
    }
  }

  ghost predicate IsNumber(m: OutMessage, k: nat) { WellFormed(m) && m.Handshake? && HeaderOf(m).seqNum == k }

  // Message k is in the flight.
  ghost predicate InFlight(v: DtlsSending.SenderView, k: nat) {
    exists i :: 0 <= i < |v.messages| && IsNumber(v.messages[i], k)
  }

  // At some moment of the run message k was in a flight of which everything has arrived.
  ghost predicate Covered(schedule: seq<Action>, trace: seq<Snapshot>, k: nat)
    requires |trace| == |schedule| + 1
  {
    exists m :: 0 <= m < |trace| && PassArrived(schedule, trace, m) && InFlight(trace[m].sender, k)
  }

  // From any moment of a run at which the session lasts: if each of the next n messages is in
  // some flight of which a finished pass has arrived, reading hands out all of them, and so
  // everything sent up to there.
  lemma {:induction false} FlightRead(schedule: seq<Action>, trace: seq<Snapshot>, n: nat)
    requires Good(schedule, trace) && trace[|schedule|].alive
    requires var at := trace[|schedule|].inbox.view.readSeq;
             forall k: nat :: at <= k < at + n ==> Covered(schedule, trace, k)
    ensures var s := trace[|schedule|];
            && RingOk(s.inbox.view) && s.inbox.view.readSeq + n <= |s.sender.sent|
            && AfterReads(s, n).delivered == s.sender.sent[..s.inbox.view.readSeq + n]
  {
    var s := trace[|schedule|];
    TraceKept(schedule, trace, |schedule|);
    forall k: nat | s.inbox.view.readSeq <= k < s.inbox.view.readSeq + n ensures Done(s.inbox.view, k) {
      assert Covered(schedule, trace, k);
      var m :| 0 <= m < |trace| && PassArrived(schedule, trace, m) && InFlight(trace[m].sender, k);
      var i :| 0 <= i < |trace[m].sender.messages| && IsNumber(trace[m].sender.messages[i], k);
      MessageDone(schedule, trace, m, i);
    }
    ReadOut(s, n);
  }
}
