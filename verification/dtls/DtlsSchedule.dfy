// Whole runs of the sender: messages added, flights written, retransmitted and cut anew.

module DtlsSchedule {
  import opened Basics
  import opened SslConstants
  import opened DtlsFragment
  import opened DtlsFlight
  import opened DtlsDelivery
  import opened DtlsSealing
  import opened DtlsSending
  import opened DtlsCiphers
  import DtlsSender
  import DtlsWriter

  datatype Op =
    | Add(typ: byte, body: seq<byte>)
    | AddCcs
    | Flush(shutdown: bool)
    | Again(shutdown: bool)
    | SetMtu(mtu: nat)
    | SetCipher(cipher: DtlsWriter.Cipher)
    | Answer
    | Complete

  // --- What a schedule asks for ---

  datatype Item = CcsItem(epoch: nat) | MessageItem(epoch: nat, seqNum: nat, typ: nat, body: seq<byte>)

  // The current flight, whether it is finished and answered, every message accepted, the epoch
  // of the next, and the place in the schedule where the current pass began.
  datatype Plan = Plan(items: seq<Item>, complete: bool, replied: bool, sent: seq<Message>, epoch: nat, since: nat)

  const NO_PLAN := Plan([], false, false, [], 0, 0)

  function Dropped(p: Plan, n: nat): Plan { p.(items := [], complete := false, replied := false, since := n) }

  function Put(p: Plan, item: Item, added: seq<Message>, n: nat): Plan {
    var q := if p.complete then Dropped(p, n) else p;
    q.(items := q.items + [item], sent := q.sent + added)
  }

  predicate Room(p: Plan) { p.complete || |p.items| < FLIGHT }

  function PlanAfter(p: Plan, op: Op, n: nat): Plan {
    match op
    case Add(typ, body) =>
      if |body| < 0x100_0000 && Room(p) then
        Put(p, MessageItem(p.epoch, |p.sent| % SEQUENCES, typ, body), [Message(typ, body)], n)
      else p
    case AddCcs => if Room(p) then Put(p, CcsItem(p.epoch), [], n) else p
    case Flush(_) => p.(complete := true)
    case Again(_) => p.(since := n)
    case SetMtu(_) => p
    case SetCipher(_) => p.(epoch := (p.epoch + 1) % SEQUENCES)
    case Answer => p.(replied := p.replied || p.complete)
    case Complete => if p.replied then Dropped(p, n) else p
  }

  function PlanOf(ops: seq<Op>): Plan {
    if ops == [] then NO_PLAN
    else PlanAfter(PlanOf(ops[..|ops| - 1]), ops[|ops| - 1], |ops| - 1)
  }

  // --- One step of the sender ---

  ghost function ItemOf(m: OutMessage): Item
    requires WellFormed(m)
  {
    if m.Ccs? then CcsItem(m.epoch) else MessageItem(m.epoch, HeaderOf(m).seqNum, HeaderOf(m).typ, BodyOf(m))
  }

  ghost function Items(f: seq<OutMessage>): seq<Item>
    requires WellFormedFlight(f)
  {
    if f == [] then [] else
      assert f[|f| - 1] in f && WellFormedFlight(f[..|f| - 1]);
      Items(f[..|f| - 1]) + [ItemOf(f[|f| - 1])]
  }

  ghost predicate Matches(p: Plan, v: SenderView) {
    && WellFormedFlight(v.messages) && Items(v.messages) == p.items
    && v.complete == p.complete && v.replied == p.replied && v.sent == p.sent && EpochOf(v) == p.epoch
  }

  // What an operation makes of the sender, and whether it reports that the whole flight has
  // been written.
  ghost function AfterOp(v: SenderView, op: Op): (r: (SenderView, bool))
    requires Ready(v)
    ensures Ready(r.0)
  {
    match op
    case Add(typ, body) =>
      if |body| < 0x100_0000 && HasRoom(v) then
        SerializedAdded(v, typ, body);
        QueuedReady(v, Serialized(v, typ, body), [Message(typ, body)]);
        (Queued(v, Serialized(v, typ, body), [Message(typ, body)]), false)
      else (v, false)
    case AddCcs =>
      if HasRoom(v) then
        QueuedReady(v, OutMessage.Ccs(EpochOf(v)), []);
        (Queued(v, OutMessage.Ccs(EpochOf(v)), []), false)
      else (v, false)
    case Flush(shutdown) => var r := AfterFlush(v, shutdown); (r.0, r.1 == 1)
    case Again(shutdown) => var r := AfterRetransmit(v, shutdown); (r.0, r.1 == 1)
    case SetMtu(mtu) => (v.(mtu := mtu), false)
    case SetCipher(cipher) => (Recrypted(v, cipher), false)
    case Answer => (Answered(v), false)
    case Complete => (Completed(v), false)
  }

  lemma QueuedReady(v: SenderView, m: OutMessage, added: seq<Message>)
    requires Ready(v) && WellFormed(m)
    ensures Ready(Queued(v, m, added))
  {
  }

  method Apply(sender: DtlsSender.Sender, op: Op) returns (done: bool)
    requires sender.Valid()
    modifies sender, sender.writer
    ensures sender.Valid() && (sender.Now(), done) == AfterOp(old(sender.Now()), op)
  {
    done := false;
    match op {
      case Add(typ, body) => var ok := sender.AddMessage(typ, body);
      case AddCcs => var ok := sender.AddChangeCipherSpec();
      case Flush(shutdown) => var ret := sender.FlushFlight(shutdown); done := ret == 1;
      case Again(shutdown) => var ret := sender.Retransmit(shutdown); done := ret == 1;
      case SetMtu(mtu) => sender.mtu := mtu;
      case SetCipher(cipher) => sender.writer.SetWriteState(cipher);
      case Answer => sender.MessageRead();
      case Complete => sender.OnHandshakeComplete();
    }
  }

  // What every operation keeps: the pass is on track, and messages and packets stay; done
  // means that the whole flight has been written.
  lemma {:induction false} OpKeeps(v: SenderView, op: Op)
    requires Steady(v)
    ensures var r := AfterOp(v, op);
            && Steady(r.0) && v.wire <= r.0.wire && v.sent <= r.0.sent && |r.0.sent| <= |v.sent| + 1
            && (r.1 ==> (op.Flush? || op.Again?) && r.0.at == Position(|r.0.messages|, 0))
  {
    match op {
      case Add(typ, body) =>
        if |body| < 0x100_0000 && HasRoom(v) {
          SerializedAdded(v, typ, body);
          QueuedSteady(v, Serialized(v, typ, body), [Message(typ, body)]);
        }
      case AddCcs =>
        if HasRoom(v) {
          assert v.sent + [] == v.sent;
          QueuedSteady(v, OutMessage.Ccs(EpochOf(v)), []);
        }
      case Flush(shutdown) => SendKeeps(v.(complete := true), shutdown);
      case Again(shutdown) =>
        RewoundSteady(v);
        SendKeeps(Rewound(v), shutdown);
      case Complete => EmptiedSteady(v);
      case _ =>
    }
  }

  // The sender does what the plan says.
  lemma {:induction false} PlanKept(p: Plan, v: SenderView, op: Op, n: nat)
    requires Matches(p, v) && Steady(v)
    ensures Matches(PlanAfter(p, op, n), AfterOp(v, op).0)
  {
    SameLength(v.messages);
    match op {
      case Add(typ, body) =>
        if |body| < 0x100_0000 && HasRoom(v) { AddKept(p, v, typ, body, n); }
      case AddCcs => if HasRoom(v) { QueuedItem(p, v, OutMessage.Ccs(EpochOf(v)), [], n); }
      case Flush(shutdown) => FlushKept(p, v, shutdown);
      case Again(shutdown) => AgainKept(p, v, shutdown, n);
      case SetCipher(cipher) => NextEpoch(v.sealer.counters.generation);
      case _ =>
    }
  }

  lemma {:induction false} AddKept(p: Plan, v: SenderView, typ: byte, body: seq<byte>, n: nat)
    requires Matches(p, v) && |body| < 0x100_0000
    ensures var item := MessageItem(p.epoch, |p.sent| % SEQUENCES, typ, body);
            Matches(Put(p, item, [Message(typ, body)], n), Queued(v, Serialized(v, typ, body), [Message(typ, body)]))
  {
    SerializedAdded(v, typ, body);
    QueuedItem(p, v, Serialized(v, typ, body), [Message(typ, body)], n);
  }

  lemma FlushKept(p: Plan, v: SenderView, shutdown: bool)
    requires Matches(p, v) && Steady(v)
    ensures Matches(p.(complete := true), AfterFlush(v, shutdown).0)
  {
    SendKeeps(v.(complete := true), shutdown);
    GrownMatches(p.(complete := true), v.(complete := true), AfterFlush(v, shutdown).0);
  }

  lemma AgainKept(p: Plan, v: SenderView, shutdown: bool, n: nat)
    requires Matches(p, v) && Steady(v)
    ensures Matches(p.(since := n), AfterRetransmit(v, shutdown).0)
  {
    RewoundSteady(v);
    SendKeeps(Rewound(v), shutdown);
    GrownMatches(p.(since := n), Rewound(v), AfterRetransmit(v, shutdown).0);
  }

  // Writing leaves the queue as it is.
  lemma {:induction false} GrownMatches(p: Plan, v: SenderView, w: SenderView)
    requires Matches(p, v) && Grown(v, w)
    ensures Matches(p, w)
  {
  }

  lemma NextEpoch(n: nat)
    ensures (n + 1) % SEQUENCES == (n % SEQUENCES + 1) % SEQUENCES
  {
  }

  lemma {:induction false} SameLength(f: seq<OutMessage>)
    requires WellFormedFlight(f)
    ensures |Items(f)| == |f|
  {
    if f != [] {
      assert WellFormedFlight(f[..|f| - 1]);
      SameLength(f[..|f| - 1]);
    }
  }

  lemma {:induction false} QueuedItem(p: Plan, v: SenderView, m: OutMessage, added: seq<Message>, n: nat)
    requires Matches(p, v) && WellFormed(m)
    ensures Matches(Put(p, ItemOf(m), added, n), Queued(v, m, added))
  {
    var f := if v.complete then [] else v.messages;
    assert (f + [m])[..|f|] == f && (f + [m])[|f|] == m;
    assert WellFormedFlight(f + [m]);
  }

  lemma {:induction false} PlanMore(ops: seq<Op>, v: SenderView, op: Op)
    requires Matches(PlanOf(ops), v) && Steady(v)
    ensures Matches(PlanOf(ops + [op]), AfterOp(v, op).0)
  {
    PlanKept(PlanOf(ops), v, op, |ops|);
    assert (ops + [op])[..|ops|] == ops;
  }

  // --- Whole runs ---

  // Where a run leads, and what its last operation reports.
  ghost function After(begin: SenderView, ops: seq<Op>): (r: (SenderView, bool))
    requires Ready(begin)
    ensures Ready(r.0)
  {
    if ops == [] then (begin, false) else AfterOp(After(begin, ops[..|ops| - 1]).0, ops[|ops| - 1])
  }

  lemma NewSteady(c: DtlsWriter.Cipher, t: Transport, mtu: nat)
    ensures Steady(NewSender(c, t, mtu)) && Matches(NO_PLAN, NewSender(c, t, mtu))
  {
  }

  lemma {:induction false} RunSteady(begin: SenderView, ops: seq<Op>)
    requires Steady(begin)
    ensures Steady(After(begin, ops).0)
  {
    if ops != [] {
      var n := |ops| - 1;
      RunSteady(begin, ops[..n]);
      OpKeeps(After(begin, ops[..n]).0, ops[n]);
    }
  }

  // Where a run leads: the queue is the one the schedule asks for, and the pass began at the
  // place it says, with what was on the wire there.
  lemma {:induction false} Leads(begin: SenderView, ops: seq<Op>)
    requires Steady(begin) && Matches(NO_PLAN, begin) && begin.wire == [] && begin.start == 0
    ensures var p, v := PlanOf(ops), After(begin, ops).0;
            && Matches(p, v) && p.since <= |ops|
            && var was := After(begin, ops[..p.since]).0.wire;
               was <= v.wire && v.start == |was|
  {
    if ops != [] {
      var n := |ops| - 1;
      var p, v, w := PlanOf(ops[..n]), After(begin, ops[..n]).0, After(begin, ops).0;
      Leads(begin, ops[..n]);
      RunSteady(begin, ops[..n]);
      OpKeeps(v, ops[n]);
      PlanKept(p, v, ops[n], n);
      StartKept(p, v, ops[n], n);
      assert ops[..n][..p.since] == ops[..p.since];
    }
  }

  // An operation begins a new pass exactly when the plan says so.
  lemma {:induction false} StartKept(p: Plan, v: SenderView, op: Op, n: nat)
    requires Matches(p, v) && Steady(v)
    ensures var q, w := PlanAfter(p, op, n), AfterOp(v, op).0;
            || (q.since == p.since && w.start == v.start)
            || (q.since == n && w.start == |v.wire|)
  {
    SameLength(v.messages);
    if op.Flush? { SendKeeps(v.(complete := true), op.shutdown); }
    else if op.Again? {
      RewoundSteady(v);
      SendKeeps(Rewound(v), op.shutdown);
    }
  }

  // --- The cipher of every record ---

  // The cipher of each epoch: the one to begin with, and then each new one.
  function Installed(first: DtlsWriter.Cipher, ops: seq<Op>): seq<DtlsWriter.Cipher> {
    if ops == [] then [first]
    else
      var op := ops[|ops| - 1];
      Installed(first, ops[..|ops| - 1]) + if op.SetCipher? then [op.cipher] else []
  }

  lemma {:induction false} OpProper(ciphers: seq<DtlsWriter.Cipher>, v: SenderView, op: Op)
    requires Ready(v) && WireProper(ciphers, v)
    ensures WireProper(ciphers + if op.SetCipher? then [op.cipher] else [], AfterOp(v, op).0)
  {
    assert ciphers + [] == ciphers;
    match op {
      case Flush(shutdown) => SendProper(ciphers, v.(complete := true), shutdown);
      case Again(shutdown) => SendProper(ciphers, Rewound(v), shutdown);
      case SetCipher(cipher) => RecryptedProper(ciphers, v, cipher);
      case _ =>
    }
  }

  // Over any run every record on the wire was sealed by the cipher that its own epoch was
  // given, however often it is sent again after the cipher has changed. No two records that
  // the transport has taken share epoch and sequence number until the 16-bit epoch comes round
  // or ciphers have been used 2^48 times.
  lemma {:induction false} RunProper(cipher: DtlsWriter.Cipher, transport: Transport, mtu: nat, ops: seq<Op>)
    ensures WireProper(Installed(cipher, ops), After(NewSender(cipher, transport, mtu), ops).0)
  {
    if ops != [] {
      var n := |ops| - 1;
      RunProper(cipher, transport, mtu, ops[..n]);
      OpProper(Installed(cipher, ops[..n]), After(NewSender(cipher, transport, mtu), ops[..n]).0, ops[n]);
    }
  }

  // --- No seal fails ---

  // A condition under which no seal of the operation can fail.
  ghost predicate SoundOp(v: SenderView, op: Op) {
    match op
    case Flush(shutdown) => shutdown || SoundAt(AfterMtu(v))
    case Again(shutdown) => shutdown || SoundAt(AfterMtu(Rewound(v)))
    case _ => true
  }

  ghost predicate SoundPass(begin: SenderView, ops: seq<Op>, since: nat)
    requires Ready(begin)
  {
    forall i :: since <= i < |ops| ==> SoundOp(After(begin, ops[..i]).0, ops[i])
  }

  lemma {:induction false} SoundKeeps(p: Plan, v: SenderView, op: Op, n: nat)
    requires Matches(p, v) && Ready(v) && SoundOp(v, op)
    ensures var w := AfterOp(v, op).0;
            && (v.lost == 0 ==> w.lost == 0)
            && (PlanAfter(p, op, n).since == p.since || w.lost == 0)
  {
    SameLength(v.messages);
    if op.Flush? && !op.shutdown { SendSound(v.(complete := true)); }
    if op.Again? && !op.shutdown { SendSound(Rewound(v)); }
  }

  lemma {:induction false} SoundBefore(begin: SenderView, ops: seq<Op>, since: nat)
    requires Ready(begin) && ops != [] && since <= |ops| - 1 && SoundPass(begin, ops, since)
    ensures SoundPass(begin, ops[..|ops| - 1], since) && SoundOp(After(begin, ops[..|ops| - 1]).0, ops[|ops| - 1])
  {
    var n := |ops| - 1;
    forall i | since <= i < n ensures SoundOp(After(begin, ops[..n][..i]).0, ops[..n][i]) {
      assert ops[..n][..i] == ops[..i];
      assert SoundOp(After(begin, ops[..i]).0, ops[i]);
    }
  }

  // In such a pass nothing is lost.
  lemma {:induction false} NothingLost(begin: SenderView, ops: seq<Op>)
    requires Steady(begin) && Matches(NO_PLAN, begin) && begin.wire == [] && begin.start == 0 && begin.lost == 0
    requires SoundPass(begin, ops, PlanOf(ops).since)
    ensures After(begin, ops).0.lost == 0
  {
    if ops != [] {
      var n := |ops| - 1;
      var p, v := PlanOf(ops[..n]), After(begin, ops[..n]).0;
      Leads(begin, ops[..n]);
      Leads(begin, ops);
      StartKept(p, v, ops[n], n) by { RunSteady(begin, ops[..n]); }
      SoundBefore(begin, ops, PlanOf(ops).since);
      SoundKeeps(p, v, ops[n], n);
      if PlanOf(ops).since == p.since {
        NothingLost(begin, ops[..n]);
      }
    }
  }

  // However messages are added, flights written, taken back by the transport and sent again,
  // with whatever MTU and ciphers: the sender comes to where its operations lead on values, and
  // the queue is what the schedule asks for. The packets taken since the pass began carry
  // every byte of the flight up to the position reached exactly once and in order, if and only
  // if no failing seal has cost a piece, as it cannot where every write of the pass is sound.
  // The position is the end of the flight once the last operation has reported so.
  method SendAll(ops: seq<Op>, cipher: DtlsWriter.Cipher, transport: Transport, mtu: nat)
    returns (sender: DtlsSender.Sender, done: bool)
    ensures fresh(sender) && fresh(sender.writer) && sender.Valid()
    ensures (sender.Now(), done) == After(NewSender(cipher, transport, mtu), ops)
    ensures var begin, p, v := NewSender(cipher, transport, mtu), PlanOf(ops), sender.Now();
            && Matches(p, v) && p.since <= |ops|
            && var was := After(begin, ops[..p.since]).0.wire;
               && was <= v.wire
               && (Tiles(v.messages, v.at, v.pass, Records(v.wire[|was|..])) <==> v.lost == 0)
               && (SoundPass(begin, ops, p.since) ==> v.lost == 0)
               && (done ==> v.at == Position(|p.items|, 0) && (p.items != [] ==> was != v.wire))
    ensures WireProper(Installed(cipher, ops), sender.Now())
  {
    var writer := new DtlsWriter.RecordWriter(cipher);
    sender := new DtlsSender.Sender(writer, transport, mtu);
    ghost var begin := sender.Now();
    NewSteady(cipher, transport, mtu);
    done := false;
    var n := 0;
    while n < |ops|
      invariant n <= |ops| && fresh(sender) && fresh(sender.writer) && sender.Valid()
      invariant (sender.Now(), done) == After(begin, ops[..n])
    {
      assert ops[..n + 1][..n] == ops[..n];
      done := Apply(sender, ops[n]);
      n := n + 1;
    }
    assert ops[..n] == ops;
    RunEnds(begin, ops);
    RunProper(cipher, transport, mtu, ops);
  }

  lemma {:induction false} RunEnds(begin: SenderView, ops: seq<Op>)
    requires Steady(begin) && Matches(NO_PLAN, begin) && begin.wire == [] && begin.start == 0 && begin.lost == 0
    ensures var p, r := PlanOf(ops), After(begin, ops);
            var v := r.0;
            && Matches(p, v) && p.since <= |ops|
            && var was := After(begin, ops[..p.since]).0.wire;
               && was <= v.wire
               && (Tiles(v.messages, v.at, v.pass, Records(v.wire[|was|..])) <==> v.lost == 0)
               && (SoundPass(begin, ops, p.since) ==> v.lost == 0)
               && (r.1 ==> v.at == Position(|p.items|, 0) && (p.items != [] ==> was != v.wire))
  {
    Leads(begin, ops);
    RunSteady(begin, ops);
    TrackTiles(After(begin, ops).0);
    if SoundPass(begin, ops, PlanOf(ops).since) { NothingLost(begin, ops); }
    if ops != [] {
      RunSteady(begin, ops[..|ops| - 1]);
      OpKeeps(After(begin, ops[..|ops| - 1]).0, ops[|ops| - 1]);
      SameLength(After(begin, ops).0.messages);
    }
  }

  // --- A flight of which a part is lost ---

  // A cipher that fails once, a transport that takes everything, and a flight that is written
  // again after the failure.
  ghost function FailsOnce(): DtlsWriter.Cipher { DtlsWriter.Cipher(0, 0, (n: nat) => if n == 1 then None else Some(0)) }

  ghost function TakesAll(): Transport { Transport((n: nat) => 1, (n: nat) => 1, (n: nat) => None) }

  ghost function LastFlight(): SenderView {
    var v := NewSender(FailsOnce(), TakesAll(), DEFAULT_MTU);
    var w := Queued(v, OutMessage.Ccs(0), []);
    Queued(w, Serialized(w, 20, []), [Message(20, [])])
  }

  lemma LastFlightQueued()
    ensures var v := LastFlight();
            && Steady(v) && v.at == Position(0, 0) && v.lost == 0 && v.wire == [] && v.mtu == DEFAULT_MTU && v.asked == 0
            && v.sealer == NewSender(FailsOnce(), TakesAll(), DEFAULT_MTU).sealer && v.transport == TakesAll()
            && |v.messages| == 2 && v.messages[0] == OutMessage.Ccs(0)
            && v.messages[1].Handshake? && v.messages[1].epoch == 0 && Len(v.messages[1]) == 0
  {
    var u := NewSender(FailsOnce(), TakesAll(), DEFAULT_MTU);
    NewSteady(FailsOnce(), TakesAll(), DEFAULT_MTU);
    QueuedSteady(u, OutMessage.Ccs(0), []);
    var w := Queued(u, OutMessage.Ccs(0), []);
    SerializedAdded(w, 20, []);
    QueuedSteady(w, Serialized(w, 20, []), [Message(20, [])]);
  }

  lemma FirstPacket(v: SenderView)
    requires Ready(v) && v.at == Position(0, 0) && v.mtu == DEFAULT_MTU && |v.messages| == 2
    requires v.messages[0] == OutMessage.Ccs(0) && v.messages[1].Handshake? && v.messages[1].epoch == 0 && Len(v.messages[1]) == 0
    requires v.sealer == Sealer(DtlsWriter.ZERO, FailsOnce(), FailsOnce(), 0)
    ensures var p := Fill(v.sealer, v.messages, v.at, v.mtu, [], []);
            && p.error && p.at == Position(1, 0) && |p.pieces| == 1
            && p.sealer == v.sealer.(calls := 2, counters := p.sealer.counters)
            && p.sealer.counters.generation == 0 && p.sealer.counters.sequence == 1
  {
    var t := SealNext(v.sealer, v.messages, v.at, v.mtu);
    assert t.ret.SealSuccess? && t.at == Position(1, 0) && t.sealer.calls == 1 && |t.pieces| == 1 && t.left > 100;
    assert t.sealer.counters.sequence == 1 && t.sealer.counters.generation == 0;
    FillStep(v.sealer, v.messages, v.at, v.mtu, [], []);
    SecondFails(t.sealer, v.messages, t.left);
    FillStep(t.sealer, v.messages, t.at, t.left, [] + t.records, [] + t.pieces);
  }

  lemma SecondFails(s: Sealer, f: seq<OutMessage>, room: nat)
    requires Sane(f, Position(1, 0)) && |f| == 2 && room > 100
    requires f[1].Handshake? && f[1].epoch == 0 && Len(f[1]) == 0
    requires s.cipher == FailsOnce() && s.calls == 1 && s.counters.generation == 0
    ensures var e := SealNext(s, f, Position(1, 0), room);
            e == Try(SealError, Position(1, 0), s.(calls := 2), [], [], room)
  {
  }

  lemma FirstCall()
    ensures var v := LastFlight();
            && Ready(v)
            && var r := AfterFlush(v, false);
               && r.1 == -1 && r.0 == v.(complete := true, sealer := r.0.sealer, at := Position(1, 0), pass := r.0.pass, lost := 1)
               && r.0.sealer == v.sealer.(calls := 2, counters := r.0.sealer.counters)
               && r.0.sealer.counters.generation == 0 && r.0.sealer.counters.sequence == 1
  {
    LastFlightQueued();
    var v := LastFlight().(complete := true);
    FirstPacket(v);
    PacketsStep(v);
  }

  lemma SecondCall(v: SenderView)
    requires Ready(v) && v.at == Position(1, 0) && v.mtu == DEFAULT_MTU && v.transport == TakesAll() && v.wire == []
    requires |v.messages| == 2 && v.messages[1].Handshake? && v.messages[1].epoch == 0 && Len(v.messages[1]) == 0
    requires v.sealer.cipher == FailsOnce() && v.sealer.calls == 2
    requires v.sealer.counters.generation == 0 && v.sealer.counters.sequence == 1
    ensures var r := AfterFlush(v, false);
            r.1 == 1 && |r.0.wire| == 1 && |r.0.wire[0]| == 1 && r.0.wire[0][0].typ == SSL3_RT_HANDSHAKE
  {
    var w := v.(complete := true);
    var t := SealNext(w.sealer, w.messages, w.at, w.mtu);
    assert t.ret.SealSuccess? && t.at == Position(2, 0) && |t.records| == 1 && t.records[0].typ == SSL3_RT_HANDSHAKE;
    FillStep(w.sealer, w.messages, w.at, w.mtu, [], []);
    assert Fill(t.sealer, w.messages, t.at, t.left, [] + t.records, [] + t.pieces).packet == t.records;
    PacketsStep(w);
    assert AfterPackets(AfterPacket(w).0).1 == 1;
  }

  // The ChangeCipherSpec is sealed into the first packet, the seal of the message behind it
  // fails, and the position has moved on all the same: the second call reports success, and
  // only the message is on the wire.
  lemma FailureLoses()
    ensures var v := LastFlight();
            && Steady(v) && v.lost == 0 && |v.messages| == 2 && v.messages[0].Ccs?
            && var r := AfterFlush(v, false);
               && r.1 == -1 && r.0.at == Position(1, 0) && r.0.lost == 1 && r.0.wire == []
               && var s := AfterFlush(r.0, false);
                  && s.1 == 1 && |s.0.wire| == 1 && |s.0.wire[0]| == 1
                  && s.0.wire[0][0].typ == SSL3_RT_HANDSHAKE
  {
    LastFlightQueued();
    FirstCall();
    SecondCall(AfterFlush(LastFlight(), false).0);
  }
}
