// The sending half of the DTLS handshake transport on values: what each operation makes of a
// flight, of the packets on the wire and of the MTU, whatever ciphers and transport answer.

module DtlsSending {
  import opened Basics
  import opened SslConstants
  import opened DtlsFragment
  import opened DtlsFlight
  import opened DtlsDelivery
  import opened DtlsSealing
  import DtlsWriter

  const MIN_MTU := 256 - 28
  const DEFAULT_MTU := 1500 - 28

  // What the transport answers when it is asked for the n-th time: to a packet and to a flush,
  // positive if it takes them, and its MTU, if it may be asked.
  datatype Transport = Transport(write: nat -> int, flush: nat -> int, mtu: nat -> Option<int>)

  // The sender as it stands: the messages added so far, what seals records, the transport and
  // how often it has been asked, the MTU, the queue, how much of it this pass has sealed,
  // whether it is finished and whether the peer has replied to it, the packets the transport
  // has taken, how many of them before this pass, the pieces sealed in this pass, and how many
  // of them a failing seal has ruined.
  datatype SenderView = SenderView(sent: seq<Message>, sealer: Sealer, transport: Transport, asked: nat, mtu: nat,
                                   messages: seq<OutMessage>, at: Position, complete: bool, replied: bool,
                                   wire: seq<seq<DtlsWriter.WireRecord>>, start: nat, pass: seq<Piece>, lost: nat)

  function NewSender(c: DtlsWriter.Cipher, t: Transport, mtu: nat): SenderView {
    SenderView([], Sealer(DtlsWriter.ZERO, c, c, 0), t, 0, mtu, [], Position(0, 0), false, false, [], 0, [], 0)
  }

  function EpochOf(v: SenderView): nat { DtlsWriter.Epoch(v.sealer.counters) }

  // --- The queue ---

  function Emptied(v: SenderView): SenderView {
    v.(messages := [], at := Position(0, 0), complete := false, replied := false, start := |v.wire|, pass := [], lost := 0)
  }

  // A flight that is finished has a reply once a message is read.
  function Answered(v: SenderView): SenderView { v.(replied := v.replied || v.complete) }

  // The last flight is kept to be sent again, unless the peer has replied to it.
  function Completed(v: SenderView): SenderView { if v.replied then Emptied(v) else v }

  predicate HasRoom(v: SenderView) { v.complete || |v.messages| < FLIGHT }

  // The first message after a finished flight starts a new one.
  function Queued(v: SenderView, m: OutMessage, added: seq<Message>): SenderView {
    var w := if v.complete then Emptied(v) else v;
    w.(messages := w.messages + [m], sent := w.sent + added)
  }

  // A message as it is queued: numbered, and serialized as one fragment.
  function Serialized(v: SenderView, typ: nat, body: seq<byte>): OutMessage {
    Handshake(EpochOf(v), FragmentBytes(Header(typ, |body|, |v.sent| % SEQUENCES, 0, |body|), body))
  }

  function Recrypted(v: SenderView, c: DtlsWriter.Cipher): SenderView {
    v.(sealer := Sealer(DtlsWriter.AfterCipher(v.sealer.counters), c, v.sealer.cipher, v.sealer.calls))
  }

  // --- Writing the flight ---

  ghost predicate Ready(v: SenderView) { Sane(v.messages, v.at) }

  // One packet: sealed and written, or taken back if the transport does not take it. A packet
  // that a failing seal has ruined is not taken back.
  ghost function AfterPacket(v: SenderView): (r: (SenderView, int))
    requires Ready(v)
    ensures r.0.messages == v.messages && Ready(r.0) && (r.1 > 0 ==> Earlier(v.at, r.0.at))
  {
    Outcome(v, Fill(v.sealer, v.messages, v.at, v.mtu, [], []))
  }

  function Outcome(v: SenderView, p: Filled): (SenderView, int) {
    if p.error || p.packet == [] then (Ruined(v, p), -1)
    else
      var ret := v.transport.write(v.asked);
      (if ret <= 0 then Refused(v, p) else Taken(v, p), ret)
  }

  function Ruined(v: SenderView, p: Filled): SenderView {
    v.(sealer := p.sealer, at := p.at, pass := v.pass + p.pieces, lost := v.lost + |p.pieces|)
  }

  function Refused(v: SenderView, p: Filled): SenderView { v.(sealer := p.sealer, asked := v.asked + 1) }

  function Taken(v: SenderView, p: Filled): SenderView {
    v.(sealer := p.sealer, asked := v.asked + 1, at := p.at, pass := v.pass + p.pieces, wire := v.wire + [p.packet])
  }

  // Packets until the flight is written or one of them is not; 1 if it is written.
  ghost function AfterPackets(v: SenderView): (r: (SenderView, int))
    requires Ready(v)
    ensures r.0.messages == v.messages && Ready(r.0)
    decreases |v.messages| - v.at.written, if v.at.written < |v.messages| then Len(v.messages[v.at.written]) - v.at.offset else 0
  {
    if v.at.written == |v.messages| then (v, 1)
    else
      var r := AfterPacket(v);
      if r.1 <= 0 then r else AfterPackets(r.0)
  }

  lemma {:induction false} PacketsStep(v: SenderView)
    requires Ready(v) && v.at.written < |v.messages|
    ensures var r := AfterPacket(v); AfterPackets(v) == if r.1 <= 0 then r else AfterPackets(r.0)
  {
  }

  // An MTU below the minimum is asked for, if it may be.
  function AfterMtu(v: SenderView): SenderView {
    if v.mtu >= MIN_MTU then v
    else
      var answer := v.transport.mtu(v.asked);
      v.(asked := v.asked + 1,
         mtu := if answer.None? then v.mtu else if MIN_MTU <= answer.value <= 0x4000_0000 then answer.value else DEFAULT_MTU)
  }

  // Exactly what the MTU becomes: 228 or more is kept, and so is anything if the transport may
  // not be asked. What it answers is used within bounds, and 1472 otherwise.
  lemma MtuExact(v: SenderView)
    ensures var w, answer := AfterMtu(v), v.transport.mtu(v.asked);
            && (v.mtu >= 228 || answer == None ==> w.mtu == v.mtu)
            && (v.mtu < 228 && answer.Some? ==> w.mtu == if 228 <= answer.value <= 0x4000_0000 then answer.value else 1472)
            && (w.asked == v.asked <==> v.mtu >= 228)
  {
  }

  // send_flight: the flight from where it stands, then a flush.
  ghost function AfterSend(v: SenderView, shutdown: bool): (r: (SenderView, int))
    requires Ready(v)
    ensures r.0.messages == v.messages && Ready(r.0)
  {
    if shutdown then (v, -1)
    else
      var r := AfterPackets(AfterMtu(v));
      Flushed(r.0, r.1)
  }

  // A flight that has been written is flushed.
  function Flushed(v: SenderView, ret: int): (SenderView, int) {
    if ret <= 0 then (v, ret)
    else (v.(asked := v.asked + 1), if v.transport.flush(v.asked) <= 0 then -1 else 1)
  }

  ghost function AfterFlush(v: SenderView, shutdown: bool): (SenderView, int)
    requires Ready(v)
  {
    AfterSend(v.(complete := true), shutdown)
  }

  function Rewound(v: SenderView): SenderView { v.(at := Position(0, 0), start := |v.wire|, pass := [], lost := 0) }

  ghost function AfterRetransmit(v: SenderView, shutdown: bool): (SenderView, int)
    requires Ready(v)
  {
    AfterSend(Rewound(v), shutdown)
  }

  // --- What is on the wire ---

  function Records(packets: seq<seq<DtlsWriter.WireRecord>>): seq<DtlsWriter.WireRecord> {
    if packets == [] then [] else Records(packets[..|packets| - 1]) + packets[|packets| - 1]
  }

  // The records of the packets taken in this pass.
  function Accepted(v: SenderView): seq<DtlsWriter.WireRecord>
    requires v.start <= |v.wire|
  {
    Records(v.wire[v.start..])
  }

  lemma {:induction false} PassMore(wire: seq<seq<DtlsWriter.WireRecord>>, start: nat, packet: seq<DtlsWriter.WireRecord>)
    requires start <= |wire|
    ensures Records((wire + [packet])[start..]) == Records(wire[start..]) + packet
  {
    assert (wire + [packet])[start..] == wire[start..] + [packet];
    assert (wire[start..] + [packet])[..|wire[start..]|] == wire[start..];
  }

  // Where a pass over a flight stands, and what it has put on the wire: a record for each
  // piece, except for those that a failing seal has ruined. A pass that has written anything
  // to its end has put something there.
  ghost predicate OnTrack(f: seq<OutMessage>, pass: seq<Piece>, at: Position, accepted: seq<DtlsWriter.WireRecord>,
                          lost: nat) {
    && Sane(f, at) && Walk(f, Position(0, 0), pass) == Some(at) && |pass| == |accepted| + lost
    && (lost == 0 ==> AllCarry(f, pass, accepted)) && (f != [] && at.written == |f| ==> accepted != [])
  }

  ghost predicate Tracked(v: SenderView) {
    && |v.messages| <= FLIGHT && v.start <= |v.wire| && (v.replied ==> v.complete)
    && OnTrack(v.messages, v.pass, v.at, Accepted(v), v.lost)
  }

  // The records carry every byte before the position once and in order: the pieces they carry
  // cover just those bytes, none of them twice, and a finished pass covers the whole flight.
  ghost predicate Tiles(f: seq<OutMessage>, at: Position, pass: seq<Piece>, records: seq<DtlsWriter.WireRecord>) {
    && Sane(f, at) && AllCarry(f, pass, records)
    && (forall p :: p in pass ==> p.index < |f|)
    && Carried(f, pass) == Before(f, at.written, at.offset) && Distinct(Carried(f, pass))
    && (at.written == |f| ==> forall i: nat, k: nat :: i < |f| && k <= Len(f[i]) ==> Cell(i, k) in Carried(f, pass))
  }

  // The packets of a pass carry every byte before the current position exactly once and in
  // order, if and only if no piece was sealed into a packet that a failing seal has ruined.
  lemma {:induction false} TrackTiles(v: SenderView)
    requires Tracked(v)
    ensures Tiles(v.messages, v.at, v.pass, Accepted(v)) <==> v.lost == 0
  {
    var f, at := v.messages, v.at;
    if v.lost == 0 {
      Tiling(f, v.pass);
      BeforeOnce(f, at.written, at.offset);
      if at.written == |f| {
        forall i: nat, k: nat | i < |f| && k <= Len(f[i]) ensures Cell(i, k) in Carried(f, v.pass) { BeforeCells(f, |f|, 0, i, k); }
      }
    }
  }

  lemma {:induction false} TrackMore(f: seq<OutMessage>, pass: seq<Piece>, at: Position,
                                     accepted: seq<DtlsWriter.WireRecord>, lost: nat,
                  pieces: seq<Piece>, to: Position, packet: seq<DtlsWriter.WireRecord>)
    requires OnTrack(f, pass, at, accepted, lost) && Packed(f, at, to, pieces, packet) && Sane(f, to)
    ensures OnTrack(f, pass + pieces, to, accepted + packet, lost)
    ensures to.written < |f| || pieces == [] ==> OnTrack(f, pass + pieces, to, accepted, lost + |pieces|)
  {
    WalkOn(f, Position(0, 0), pass, pieces);
    AllCarryOn(f, pass, accepted, pieces, packet);
    if pieces == [] { assert pass + pieces == pass; }
  }

  // --- What every operation keeps ---

  // The queued message is the one added under its number, while numbers have not come round.
  ghost predicate Added(sent: seq<Message>, m: OutMessage) {
    m.Handshake? && |sent| < SEQUENCES ==>
      && WellFormed(m) && HeaderOf(m).seqNum < |sent|
      && sent[HeaderOf(m).seqNum] == Message(HeaderOf(m).typ, BodyOf(m))
  }

  ghost predicate HonestRecord(sent: seq<Message>, r: DtlsWriter.WireRecord) {
    r.typ == SSL3_RT_HANDSHAKE && |sent| < SEQUENCES ==>
      && ParseFragment(r.plaintext).Done? && ParseFragment(r.plaintext).rest == []
      && Slice(sent, ParseFragment(r.plaintext).value.0, ParseFragment(r.plaintext).value.1)
  }

  ghost predicate FlightAdded(sent: seq<Message>, f: seq<OutMessage>) {
    forall m :: m in f ==> Added(sent, m)
  }

  ghost predicate PacketHonest(sent: seq<Message>, packet: seq<DtlsWriter.WireRecord>) {
    forall r :: r in packet ==> HonestRecord(sent, r)
  }

  ghost predicate WireHonest(sent: seq<Message>, wire: seq<seq<DtlsWriter.WireRecord>>) {
    forall packet :: packet in wire ==> PacketHonest(sent, packet)
  }

  // What was sent comes from the messages that were added.
  ghost predicate Honest(v: SenderView) { FlightAdded(v.sent, v.messages) && WireHonest(v.sent, v.wire) }

  ghost predicate Steady(v: SenderView) { Tracked(v) && Honest(v) }

  // Packets filled from the flight are honest.
  lemma {:induction false} PacketFromFlight(sent: seq<Message>, f: seq<OutMessage>, pieces: seq<Piece>,
                                        packet: seq<DtlsWriter.WireRecord>)
    requires FlightAdded(sent, f) && AllCarry(f, pieces, packet)
    ensures PacketHonest(sent, packet)
  {
    forall r | r in packet
      ensures HonestRecord(sent, r)
    {
      var k :| 0 <= k < |packet| && packet[k] == r;
      RecordFromFlight(sent, f, pieces[k], r);
    }
  }

  lemma {:induction false} RecordFromFlight(sent: seq<Message>, f: seq<OutMessage>, p: Piece, r: DtlsWriter.WireRecord)
    requires FlightAdded(sent, f) && Carries(f, p, r)
    ensures HonestRecord(sent, r)
  {
    var m := f[p.index];
    assert m in f && Added(sent, m);
    if m.Handshake? {
      ParsedHeader(m.data);
      var h, body := HeaderOf(m).(off := p.off, len := p.len), BodyOf(m)[p.off..p.off + p.len];
      FragmentRoundTrip(h, body, []);
      assert FragmentBytes(h, body) + [] == r.plaintext;
    }
  }

  // The wire has grown by packets with records, each within the MTU; the position never goes
  // back, and nothing else has changed but the numbers of records and what has been asked.
  ghost predicate Grown(v: SenderView, w: SenderView) {
    && w == v.(sealer := w.sealer, asked := w.asked, mtu := w.mtu, at := w.at, wire := w.wire, pass := w.pass, lost := w.lost)
    && SameKeys(v.sealer, w.sealer) && v.wire <= w.wire && v.pass <= w.pass && v.lost <= w.lost && !Earlier(w.at, v.at)
    && (forall k :: |v.wire| <= k < |w.wire| ==> w.wire[k] != [] && Total(w.wire[k]) <= w.mtu)
  }

  lemma {:induction false} GrownTwice(u: SenderView, v: SenderView, w: SenderView)
    requires Grown(u, v) && Grown(v, w) && w.mtu == v.mtu
    ensures Grown(u, w)
  {
  }

  // The packet comes from the flight, from where it stands.
  ghost predicate FromHere(v: SenderView, p: Filled) {
    && Sane(v.messages, p.at) && !Earlier(p.at, v.at) && (p.error ==> p.at.written < |v.messages|) && SameKeys(v.sealer, p.sealer)
    && Packed(v.messages, v.at, p.at, p.pieces, p.packet) && Total(p.packet) <= v.mtu
  }

  lemma {:induction false} FilledHere(v: SenderView)
    requires Ready(v)
    ensures FromHere(v, Fill(v.sealer, v.messages, v.at, v.mtu, [], []))
  {
    FillPacked(v.sealer, v.messages, v.at, v.at, v.mtu, [], []);
    FillKeys(v.sealer, v.messages, v.at, v.mtu, [], []);
  }

  lemma {:induction false} RuinedKeeps(v: SenderView, p: Filled)
    requires Steady(v) && FromHere(v, p) && (p.error || p.packet == [])
    ensures var w := Ruined(v, p); Steady(w) && Grown(v, w) && (w.lost == v.lost ==> w.at == v.at)
  {
    TrackMore(v.messages, v.pass, v.at, Accepted(v), v.lost, p.pieces, p.at, p.packet);
  }

  lemma {:induction false} TakenKeeps(v: SenderView, p: Filled)
    requires Steady(v) && FromHere(v, p) && p.packet != []
    ensures Steady(Taken(v, p)) && Grown(v, Taken(v, p))
  {
    PassMore(v.wire, v.start, p.packet);
    TrackMore(v.messages, v.pass, v.at, Accepted(v), v.lost, p.pieces, p.at, p.packet);
    PacketFromFlight(v.sent, v.messages, p.pieces, p.packet);
  }

  lemma {:induction false} RefusedKeeps(v: SenderView, p: Filled)
    requires Steady(v) && SameKeys(v.sealer, p.sealer)
    ensures Steady(Refused(v, p)) && Grown(v, Refused(v, p))
  {
  }

  // A packet that is not written leaves the wire as it is, and the position too unless a
  // failing seal has cost some of its pieces.
  lemma {:induction false} PacketKeeps(v: SenderView)
    requires Steady(v)
    ensures PacketDone(v, AfterPacket(v))
  {
    FilledHere(v);
    OutcomeKeeps(v, Fill(v.sealer, v.messages, v.at, v.mtu, [], []));
  }

  ghost predicate PacketDone(v: SenderView, r: (SenderView, int)) {
    && Steady(r.0) && Grown(v, r.0) && r.0.mtu == v.mtu
    && (r.1 <= 0 ==> r.0.wire == v.wire && (r.0.lost == v.lost ==> r.0.at == v.at))
  }

  lemma {:induction false} OutcomeKeeps(v: SenderView, p: Filled)
    requires Steady(v) && FromHere(v, p)
    ensures PacketDone(v, Outcome(v, p))
  {
    if p.error || p.packet == [] { RuinedKeeps(v, p); }
    RefusedKeeps(v, p);
    if p.packet != [] { TakenKeeps(v, p); }
  }

  lemma {:induction false} PacketsKeep(v: SenderView)
    requires Steady(v)
    ensures var r := AfterPackets(v);
            Steady(r.0) && Grown(v, r.0) && r.0.mtu == v.mtu && (r.1 > 0 ==> r.0.at == Position(|v.messages|, 0))
    decreases |v.messages| - v.at.written, if v.at.written < |v.messages| then Len(v.messages[v.at.written]) - v.at.offset else 0
  {
    if v.at.written < |v.messages| {
      var r := AfterPacket(v);
      PacketKeeps(v);
      if r.1 > 0 {
        PacketsKeep(r.0);
        GrownTwice(v, r.0, AfterPackets(v).0);
      }
    }
  }

  // A call of send_flight returns 1 exactly when it gets to the end of the flight and the
  // flush that follows is taken, and otherwise no positive number. Shut down it does nothing.
  lemma {:induction false} SendReturns(v: SenderView)
    requires Steady(v)
    ensures AfterSend(v, true) == (v, -1) && SentWhole(AfterSend(v, false))
  {
    var w := AfterMtu(v);
    assert Steady(w);
    PacketsReturn(w);
    FlushReturns(AfterPackets(w).0, AfterPackets(w).1);
  }

  // It is 1 for the whole flight, flushed at the end, and not positive otherwise.
  ghost predicate SentWhole(r: (SenderView, int)) {
    && (r.1 == 1 || r.1 <= 0)
    && (r.1 == 1 <==> r.0.at.written == |r.0.messages| && 0 < r.0.asked && r.0.transport.flush(r.0.asked - 1) > 0)
  }

  lemma FlushReturns(v: SenderView, ret: int)
    requires (ret == 1 || ret <= 0) && (ret == 1 <==> v.at.written == |v.messages|)
    ensures SentWhole(Flushed(v, ret))
  {
  }

  lemma {:induction false} PacketsReturn(v: SenderView)
    requires Steady(v)
    ensures var r := AfterPackets(v);
            (r.1 == 1 || r.1 <= 0) && (r.1 == 1 <==> r.0.at.written == |r.0.messages|)
    decreases |v.messages| - v.at.written, if v.at.written < |v.messages| then Len(v.messages[v.at.written]) - v.at.offset else 0
  {
    if v.at.written < |v.messages| {
      var r := AfterPacket(v);
      PacketKeeps(v);
      FilledHere(v);
      PacketsStep(v);
      if r.1 > 0 { PacketsReturn(r.0); }
    }
  }

  // However the flight is written: what comes onto the wire keeps to the MTU, the position
  // never goes back, and 1 means that the whole flight has been written.
  lemma {:induction false} SendKeeps(v: SenderView, shutdown: bool)
    requires Steady(v)
    ensures var r := AfterSend(v, shutdown);
            && Steady(r.0) && Grown(v, r.0)
            && (r.1 > 0 ==> r.1 == 1 && !shutdown && r.0.at == Position(|v.messages|, 0))
  {
    if !shutdown { PacketsKeep(AfterMtu(v)); }
  }

  lemma {:induction false} RewoundSteady(v: SenderView)
    requires Steady(v)
    ensures Steady(Rewound(v))
  {
  }

  lemma {:induction false} EmptiedSteady(v: SenderView)
    requires Steady(v)
    ensures Steady(Emptied(v))
  {
  }

  lemma {:induction false} WalkGrows(f: seq<OutMessage>, pieces: seq<Piece>, m: OutMessage)
    requires Walk(f, Position(0, 0), pieces).Some?
    ensures Walk(f + [m], Position(0, 0), pieces) == Walk(f, Position(0, 0), pieces)
  {
    if pieces != [] { WalkGrows(f, pieces[..|pieces| - 1], m); }
  }

  lemma {:induction false} CarryGrows(f: seq<OutMessage>, pieces: seq<Piece>, records: seq<DtlsWriter.WireRecord>,
                                      m: OutMessage)
    ensures AllCarry(f, pieces, records) ==> AllCarry(f + [m], pieces, records)
  {
    if AllCarry(f, pieces, records) {
      forall k | 0 <= k < |pieces| ensures Carries(f + [m], pieces[k], records[k]) { assert Carries(f, pieces[k], records[k]); }
    }
  }

  // Adding a message keeps what is known of the earlier ones.
  lemma {:induction false} HonestMore(sent: seq<Message>, added: seq<Message>, f: seq<OutMessage>,
                                      wire: seq<seq<DtlsWriter.WireRecord>>)
    requires FlightAdded(sent, f) && WireHonest(sent, wire)
    ensures FlightAdded(sent + added, f) && WireHonest(sent + added, wire)
  {
    forall packet | packet in wire
      ensures PacketHonest(sent + added, packet)
    {
      forall r | r in packet ensures HonestRecord(sent + added, r) { assert HonestRecord(sent, r); }
    }
    forall x | x in f ensures Added(sent + added, x) { assert Added(sent, x); }
  }

  // Queueing keeps the pass as it is, or begins a new one.
  lemma {:induction false} QueuedSteady(v: SenderView, m: OutMessage, added: seq<Message>)
    requires Steady(v) && HasRoom(v) && WellFormed(m) && Added(v.sent + added, m)
    ensures Steady(Queued(v, m, added))
  {
    var w := if v.complete then Emptied(v) else v;
    if v.complete { EmptiedSteady(v); }
    WalkGrows(w.messages, w.pass, m);
    CarryGrows(w.messages, w.pass, Accepted(w), m);
    HonestMore(w.sent, added, w.messages, w.wire);
  }

  lemma {:induction false} SerializedAdded(v: SenderView, typ: nat, body: seq<byte>)
    requires typ < 0x100 && |body| < 0x100_0000
    ensures var m := Serialized(v, typ, body); WellFormed(m) && Added(v.sent + [Message(typ, body)], m)
    ensures HeaderOf(Serialized(v, typ, body)) == Header(typ, |body|, |v.sent| % SEQUENCES, 0, |body|)
    ensures BodyOf(Serialized(v, typ, body)) == body
  {
    var h := Header(typ, |body|, |v.sent| % SEQUENCES, 0, |body|);
    FragmentRoundTrip(h, body, []);
    assert FragmentBytes(h, body) + [] == FragmentBytes(h, body);
  }

  // --- When the flight does get written ---

  // No seal of a write from here on can fail.
  ghost predicate SoundAt(v: SenderView) { Sound(v.sealer, v.messages, v.at, v.mtu) }

  // Every message has room in a packet, and the transport takes whatever it is given.
  ghost predicate Roomy(v: SenderView) { forall m :: m in v.messages ==> !TooSmall(m, CipherFor(v.sealer, m), v.mtu) }

  ghost predicate Taking(t: Transport) { forall n: nat :: t.write(n) > 0 && t.flush(n) > 0 }

  lemma {:induction false} PacketSound(v: SenderView)
    requires Ready(v) && v.at.written < |v.messages| && SoundAt(v)
    ensures var r := AfterPacket(v);
            && r.0.lost == v.lost && r.0.transport == v.transport && (r.1 > 0 ==> SoundAt(r.0)) && SameKeys(v.sealer, r.0.sealer)
            && (Roomy(v) && Taking(v.transport) ==> r.1 > 0 && Roomy(r.0))
  {
    var p := Fill(v.sealer, v.messages, v.at, v.mtu, [], []);
    SoundFill(v.sealer, v.messages, v.at, v.mtu, [], []);
    FillPacked(v.sealer, v.messages, v.at, v.at, v.mtu, [], []);
    SoundKept(p.sealer, p.sealer, v.messages, p.at, p.at, v.mtu, 0, 0);
    assert v.messages[v.at.written] in v.messages;
  }

  lemma {:induction false} PacketsSound(v: SenderView)
    requires Ready(v) && SoundAt(v)
    ensures var r := AfterPackets(v);
            r.0.lost == v.lost && r.0.transport == v.transport && (Roomy(v) && Taking(v.transport) ==> r.1 > 0)
    decreases |v.messages| - v.at.written, if v.at.written < |v.messages| then Len(v.messages[v.at.written]) - v.at.offset else 0
  {
    if v.at.written < |v.messages| {
      PacketSound(v);
      var r := AfterPacket(v);
      if r.1 > 0 { PacketsSound(r.0); }
    }
  }

  // With good ciphers no piece is lost, whatever the transport does; and if it takes what it is
  // given and its MTU has room, the whole flight gets written.
  lemma {:induction false} SendSound(v: SenderView)
    requires Ready(v) && SoundAt(AfterMtu(v))
    ensures var r := AfterSend(v, false);
            r.0.lost == v.lost && (Roomy(AfterMtu(v)) && Taking(v.transport) ==> r.1 == 1)
  {
    PacketsSound(AfterMtu(v));
  }

  // The whole flight is then on the wire, every byte of it once and in order.
  lemma {:induction false} FlightGetsWritten(v: SenderView)
    requires Steady(v) && v.lost == 0 && SoundAt(AfterMtu(v)) && Roomy(AfterMtu(v)) && Taking(v.transport)
    ensures var r := AfterFlush(v, false);
            r.1 == 1 && Tracked(r.0) && Tiles(v.messages, Position(|v.messages|, 0), r.0.pass, Accepted(r.0))
  {
    var w := v.(complete := true);
    SendSound(w);
    SendKeeps(w, false);
    TrackTiles(AfterFlush(v, false).0);
  }

  // A condition on numbers alone: the MTU is at least the minimum of 228 and has 26 bytes more
  // than either cipher may add, no message is older than the epoch before this one, and the
  // sequences have numbers for all that is left.
  ghost predicate Writable(v: SenderView) {
    && GoodCipher(v.sealer.cipher) && GoodCipher(v.sealer.lastCipher)
    && 228 <= v.mtu < 0x1_0000 && 26 + v.sealer.cipher.maxOverhead <= v.mtu && 26 + v.sealer.lastCipher.maxOverhead <= v.mtu
    && (forall m :: m in v.messages ==> m.epoch == EpochOf(v) || m.epoch + 1 == EpochOf(v))
    && v.sealer.counters.sequence + Left(v.messages, v.at) < TWO48
    && v.sealer.counters.lastSequence + Left(v.messages, v.at) < TWO48
  }

  // With a transport that takes everything such a flight gets written whole by one call.
  lemma WritableGetsWritten(v: SenderView)
    requires Steady(v) && v.lost == 0 && Writable(v) && Taking(v.transport)
    ensures var r := AfterFlush(v, false);
            r.1 == 1 && Tracked(r.0) && Tiles(v.messages, Position(|v.messages|, 0), r.0.pass, Accepted(r.0))
  {
    FlightGetsWritten(v);
  }
}
