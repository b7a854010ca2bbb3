// The ciphers and numbers of the records on the wire: each is sealed by the cipher its epoch
// was given, and no two records have the same number.

module DtlsCiphers {
  import opened Basics
  import opened SslConstants
  import opened DtlsFlight
  import opened DtlsSealing
  import opened DtlsSending
  import opened DtlsWriter

  // The sealer has the ciphers of this epoch and the one before. Its counters are ahead of the
  // numbers used, and have moved at most once each time a cipher was used.
  ghost predicate Keyed(ciphers: seq<Cipher>, s: Sealer) {
    && |ciphers| == s.counters.generation + 1 && s.cipher == ciphers[s.counters.generation]
    && (s.counters.generation > 0 ==> s.lastCipher == ciphers[s.counters.generation - 1])
    && Behind(s.counters) && s.counters.sequence <= s.calls && s.counters.lastSequence <= s.calls
    && (s.counters.exhausted ==> s.calls >= TWO48)
  }

  // One of the first answers of the cipher made the record what it is.
  ghost predicate SealedBy(c: Cipher, r: WireRecord, calls: nat) {
    exists n: nat :: n < calls && c.seal(n).Some? && r.length == RECORD_HEADER + |r.plaintext| + c.seal(n).value
  }

  // The cipher is the one the record's epoch was given.
  ghost predicate InItsEpoch(ciphers: seq<Cipher>, r: WireRecord, calls: nat) {
    exists g: nat :: g < |ciphers| && r.epoch == g % SEQUENCES && SealedBy(ciphers[g], r, calls)
  }

  function NumberOf(r: WireRecord): (nat, nat) { (r.epoch, r.seqNum) }

  // The numbers are used, and no two are the same before a sequence runs out.
  ghost predicate Numbered(s: Sealer, records: seq<WireRecord>) {
    && (forall k :: 0 <= k < |records| ==> NumberOf(records[k]) in s.counters.used)
    && (!s.counters.exhausted ==> forall j, k :: 0 <= j < k < |records| ==> NumberOf(records[j]) != NumberOf(records[k]))
  }

  // Every record was sealed by the cipher of its epoch, and while the 16-bit epoch has not come
  // round they are numbered apart.
  ghost predicate Proper(ciphers: seq<Cipher>, s: Sealer, records: seq<WireRecord>) {
    && Keyed(ciphers, s) && (forall k :: 0 <= k < |records| ==> InItsEpoch(ciphers, records[k], s.calls))
    && (s.counters.generation < SEQUENCES ==> Numbered(s, records))
  }

  // More use of the ciphers, and more ciphers, leave a record as it is.
  lemma {:induction false} StillInItsEpoch(ciphers: seq<Cipher>, more: seq<Cipher>, r: WireRecord, calls: nat, to: nat)
    requires InItsEpoch(ciphers, r, calls) && ciphers <= more && calls <= to
    ensures InItsEpoch(more, r, to)
  {
    var g: nat :| g < |ciphers| && r.epoch == g % SEQUENCES && SealedBy(ciphers[g], r, calls);
    assert more[g] == ciphers[g] && SealedBy(more[g], r, to);
  }

  // --- One record ---

  // What sealing keeps of the counters.
  lemma {:induction false} CountersMove(s: Sealer, size: nat, previous: bool, maxOut: nat, answer: Option<nat>)
    requires Behind(s.counters) && (previous ==> s.counters.generation >= 1)
    requires s.counters.sequence <= s.calls && s.counters.lastSequence <= s.calls && (s.counters.exhausted ==> s.calls >= TWO48)
    ensures var c, d := s.counters, AfterSeal(s.counters, size, previous, maxOut, answer);
            && Behind(d) && d.generation == c.generation && c.used <= d.used && (c.exhausted ==> d.exhausted)
            && d.sequence <= s.calls + 1 && d.lastSequence <= s.calls + 1 && (d.exhausted ==> s.calls + 1 >= TWO48)
            && (Makes(c, size, previous, maxOut, answer) ==>
                  && (Generation(c, previous), Counter(c, previous)) in d.used
                  && (!c.exhausted ==> (Generation(c, previous), Counter(c, previous)) !in c.used))
  {
    NewNumber(s.counters, size, previous, maxOut, answer);
    NextSequence(s.counters.sequence);
    NextSequence(s.counters.lastSequence);
  }

  // A cipher is used: by itself it changes neither keys nor what was sealed.
  lemma {:induction false} MoreUse(ciphers: seq<Cipher>, s: Sealer, t: Sealer, records: seq<WireRecord>)
    requires Proper(ciphers, s, records) && Keyed(ciphers, t) && s.calls <= t.calls
    requires s.counters.used <= t.counters.used && (s.counters.exhausted ==> t.counters.exhausted)
    ensures Proper(ciphers, t, records)
  {
    forall k | 0 <= k < |records| ensures InItsEpoch(ciphers, records[k], t.calls) {
      StillInItsEpoch(ciphers, ciphers, records[k], s.calls, t.calls);
    }
  }

  // The cipher used for a message is that of its epoch, as is the generation of its counter.
  lemma {:induction false} CipherOfEpoch(ciphers: seq<Cipher>, s: Sealer, m: OutMessage)
    requires Keyed(ciphers, s) && AtHand(s, m)
    ensures var g := Generation(s.counters, InLast(s, m));
            && 0 <= g < |ciphers| && CipherFor(s, m) == ciphers[g] && m.epoch == g % SEQUENCES
            && (s.counters.generation < SEQUENCES ==> g == m.epoch)
  {
    EpochBefore(s.counters, InLast(s, m));
  }

  lemma {:induction false} TryProper(ciphers: seq<Cipher>, s: Sealer, f: seq<OutMessage>, at: Position, room: nat,
                                     records: seq<WireRecord>)
    requires Sane(f, at) && at.written < |f| && Proper(ciphers, s, records)
    ensures var t := SealNext(s, f, at, room); Proper(ciphers, t.sealer, records + t.records)
  {
    var m, c := f[at.written], CipherFor(s, f[at.written]);
    var t := SealNext(s, f, at, room);
    if AtHand(s, m) && !TooSmall(m, c, room) && !NoPrefix(m, Longest(f, at, c, room), c, room) {
      TriedProper(ciphers, s, f, Longest(f, at, c, room), room, records);
    } else {
      assert records + [] == records;
    }
  }

  lemma {:induction false} TriedProper(ciphers: seq<Cipher>, s: Sealer, f: seq<OutMessage>, p: Piece, room: nat,
                                       records: seq<WireRecord>)
    requires WellFormedFlight(f) && p.index < |f| && p.off + p.len <= Len(f[p.index])
    requires p.len == 0 ==> p.off == Len(f[p.index])
    requires AtHand(s, f[p.index]) && Proper(ciphers, s, records)
    ensures var t := Tried(s, f, p, CipherFor(s, f[p.index]), room); Proper(ciphers, t.sealer, records + t.records)
  {
    var m, c := f[p.index], CipherFor(s, f[p.index]);
    assert m in f;
    var previous, t := InLast(s, m), Used(s, m, p.len, c, room);
    CipherOfEpoch(ciphers, s, m);
    CountersMove(s, Size(m, p.len), previous, room, c.seal(s.calls));
    MoreUse(ciphers, s, t, records);
    if Makeable(s, m, p.len, c, room) {
      var r := RecordMade(s, m, p, c);
      assert SealedBy(c, r, t.calls) by { assert c.seal(s.calls).Some?; }
      OneMoreProper(ciphers, s, t, records, r);
    } else {
      assert records + [] == records;
    }
  }

  // A record with a number that was not used before.
  lemma {:induction false} OneMoreProper(ciphers: seq<Cipher>, s: Sealer, t: Sealer, records: seq<WireRecord>, r: WireRecord)
    requires Proper(ciphers, s, records) && Proper(ciphers, t, records) && InItsEpoch(ciphers, r, t.calls)
    requires s.counters.generation == t.counters.generation && (s.counters.exhausted ==> t.counters.exhausted)
    requires s.counters.generation < SEQUENCES ==>
               NumberOf(r) in t.counters.used && (!s.counters.exhausted ==> NumberOf(r) !in s.counters.used)
    ensures Proper(ciphers, t, records + [r])
  {
  }

  // --- Packets ---

  lemma {:induction false} FillProper(ciphers: seq<Cipher>, s: Sealer, f: seq<OutMessage>, at: Position, room: nat,
                                      packet: seq<WireRecord>, pieces: seq<Piece>, before: seq<WireRecord>)
    requires Sane(f, at) && Proper(ciphers, s, before + packet)
    ensures var r := Fill(s, f, at, room, packet, pieces); Proper(ciphers, r.sealer, before + r.packet)
    decreases |f| - at.written
  {
    if at.written < |f| {
      var t := SealNext(s, f, at, room);
      TryProper(ciphers, s, f, at, room, before + packet);
      assert before + packet + t.records == before + (packet + t.records);
      FillStep(s, f, at, room, packet, pieces);
      if t.ret.SealSuccess? {
        FillProper(ciphers, t.sealer, f, t.at, t.left, packet + t.records, pieces + t.pieces, before);
      }
    }
  }

  // --- The sender ---

  // Everything on the wire.
  ghost predicate WireProper(ciphers: seq<Cipher>, v: SenderView) { Proper(ciphers, v.sealer, Records(v.wire)) }

  lemma {:induction false} OutcomeProper(ciphers: seq<Cipher>, v: SenderView, p: Filled)
    requires Proper(ciphers, p.sealer, Records(v.wire) + p.packet)
    ensures WireProper(ciphers, Outcome(v, p).0)
  {
    var all, had := Records(v.wire) + p.packet, Records(v.wire);
    forall k | 0 <= k < |had| ensures had[k] == all[k] {}
    assert (v.wire + [p.packet])[..|v.wire|] == v.wire;
  }

  lemma {:induction false} PacketProper(ciphers: seq<Cipher>, v: SenderView)
    requires Ready(v) && WireProper(ciphers, v)
    ensures WireProper(ciphers, AfterPacket(v).0)
  {
    var had := Records(v.wire);
    assert had + [] == had;
    FillProper(ciphers, v.sealer, v.messages, v.at, v.mtu, [], [], had);
    OutcomeProper(ciphers, v, Fill(v.sealer, v.messages, v.at, v.mtu, [], []));
  }

  lemma {:induction false} PacketsProper(ciphers: seq<Cipher>, v: SenderView)
    requires Ready(v) && WireProper(ciphers, v)
    ensures WireProper(ciphers, AfterPackets(v).0)
    decreases |v.messages| - v.at.written, if v.at.written < |v.messages| then Len(v.messages[v.at.written]) - v.at.offset else 0
  {
    if v.at.written < |v.messages| {
      var r := AfterPacket(v);
      PacketProper(ciphers, v);
      PacketsStep(v);
      if r.1 > 0 { PacketsProper(ciphers, r.0); }
    }
  }

  lemma {:induction false} SendProper(ciphers: seq<Cipher>, v: SenderView, shutdown: bool)
    requires Ready(v) && WireProper(ciphers, v)
    ensures WireProper(ciphers, AfterSend(v, shutdown).0)
  {
    if !shutdown { PacketsProper(ciphers, AfterMtu(v)); }
  }

  // A new cipher begins a new epoch.
  lemma {:induction false} RecryptedProper(ciphers: seq<Cipher>, v: SenderView, c: Cipher)
    requires WireProper(ciphers, v)
    ensures WireProper(ciphers + [c], Recrypted(v, c))
  {
    var records := Records(v.wire);
    forall k | 0 <= k < |records| ensures InItsEpoch(ciphers + [c], records[k], v.sealer.calls) {
      StillInItsEpoch(ciphers, ciphers + [c], records[k], v.sealer.calls, v.sealer.calls);
    }
  }
}
