// Packets filled with records of a flight: what seal_next_message and seal_next_packet make of
// a flight at a position, whatever the ciphers do.

module DtlsSealing {
  import opened Basics
  import opened SslConstants
  import opened DtlsFragment
  import opened DtlsFlight
  import opened DtlsWriter

  datatype SealResult = SealError | NoProgress | SealPartial | SealSuccess

  function Total(packet: seq<WireRecord>): nat {
    if packet == [] then 0 else Total(packet[..|packet| - 1]) + packet[|packet| - 1].length
  }

  // What seals records: the counters, the ciphers of this epoch and the one before, and the
  // number of times a cipher has been used.
  datatype Sealer = Sealer(counters: Counters, cipher: Cipher, lastCipher: Cipher, calls: nat)

  // --- The record of a piece ---

  function TypeOf(m: OutMessage): byte { if m.Ccs? then SSL3_RT_CHANGE_CIPHER_SPEC else SSL3_RT_HANDSHAKE }

  function Plaintext(m: OutMessage, p: Piece): (r: seq<byte>)
    requires WellFormed(m) && p.off + p.len <= Len(m)
    ensures |r| == Size(m, p.len)
  {
    if m.Ccs? then [SSL3_MT_CCS]
    else FragmentBytes(HeaderOf(m).(off := p.off, len := p.len), BodyOf(m)[p.off..p.off + p.len])
  }

  function Size(m: OutMessage, len: nat): nat { if m.Ccs? then 1 else HEADER_LENGTH + len }

  // The record carries the piece, in the epoch of its message.
  ghost predicate Carries(f: seq<OutMessage>, p: Piece, r: WireRecord) {
    && p.index < |f| && WellFormed(f[p.index]) && p.off + p.len <= Len(f[p.index])
    && r.typ == TypeOf(f[p.index]) && r.epoch == f[p.index].epoch && r.plaintext == Plaintext(f[p.index], p)
  }

  ghost predicate AllCarry(f: seq<OutMessage>, pieces: seq<Piece>, records: seq<WireRecord>) {
    |pieces| == |records| && forall k :: 0 <= k < |pieces| ==> Carries(f, pieces[k], records[k])
  }

  // --- One record ---

  ghost predicate PositionOk(f: seq<OutMessage>, at: Position) {
    && at.written <= |f|
    && if at.written == |f| then at.offset == 0 else at.offset <= Len(f[at.written])
  }

  ghost predicate Sane(f: seq<OutMessage>, at: Position) { WellFormedFlight(f) && PositionOk(f, at) }

  // The message was added in the epoch before this one.
  predicate InLast(s: Sealer, m: OutMessage) { Epoch(s.counters) >= 1 && m.epoch == Epoch(s.counters) - 1 }

  // The cipher of the epoch the message was added in is still there.
  predicate AtHand(s: Sealer, m: OutMessage) { InLast(s, m) || m.epoch == Epoch(s.counters) }

  function CipherFor(s: Sealer, m: OutMessage): Cipher { if InLast(s, m) then s.lastCipher else s.cipher }

  // There is no room for the record of a ChangeCipherSpec or of one byte of a message.
  predicate TooSmall(m: OutMessage, c: Cipher, room: int) {
    if m.Ccs? then room < 1 + RECORD_HEADER + c.maxOverhead
    else room < HEADER_LENGTH + 1 + RECORD_HEADER + c.maxOverhead || room < RECORD_HEADER + c.nonceLen
  }

  // The longest piece that fits.
  function Longest(f: seq<OutMessage>, at: Position, c: Cipher, room: nat): (p: Piece)
    requires at.written < |f| && at.offset <= Len(f[at.written]) && !TooSmall(f[at.written], c, room)
    ensures p.index == at.written && p.off + p.len <= Len(f[p.index])
  {
    var m := f[at.written];
    Piece(at.written, at.offset,
          if m.Ccs? then 0 else Smaller(Len(m) - at.offset, room - HEADER_LENGTH - RECORD_HEADER - c.maxOverhead))
  }

  // A ChangeCipherSpec is one byte in a record.
  lemma CcsIsWhole(f: seq<OutMessage>, at: Position, c: Cipher, room: nat)
    requires at.written < |f| && at.offset == 0 && f[at.written].Ccs?
    ensures TooSmall(f[at.written], c, room) <==> room < 1 + 13 + c.maxOverhead
    ensures !TooSmall(f[at.written], c, room) ==> Longest(f, at, c, room) == Piece(at.written, 0, 0)
  {
  }

  // The fragment cannot be put together behind the prefix of its record.
  predicate NoPrefix(m: OutMessage, p: Piece, c: Cipher, room: nat) {
    m.Handshake? && HEADER_LENGTH + p.len > room - RECORD_HEADER - c.nonceLen
  }

  // With its header of 12 bytes, that of the record of 13 and what the cipher may add, the
  // piece is within the space, and reaches the end of the message or fills the space. There is
  // no progress only where not even one byte of a message would fit, or the cipher's prefix. A
  // prefix longer than the overhead may leave no room for the piece.
  lemma PieceIsLongest(f: seq<OutMessage>, at: Position, c: Cipher, room: nat)
    requires at.written < |f| && at.offset <= Len(f[at.written]) && f[at.written].Handshake?
    ensures TooSmall(f[at.written], c, room) <==> room < 12 + 1 + 13 + c.maxOverhead || room < 13 + c.nonceLen
    ensures !TooSmall(f[at.written], c, room) ==>
              var p := Longest(f, at, c, room);
              && p.off == at.offset && 12 + p.len + 13 + c.maxOverhead <= room
              && (p.off + p.len == Len(f[at.written]) || 12 + p.len + 13 + c.maxOverhead == room)
              && (NoPrefix(f[at.written], p, c, room) <==> 12 + p.len + 13 + c.nonceLen > room)
  {
  }

  // What came of one call of seal_next_message: where the flight stands once its caller has
  // moved on from a finished message, the piece and its record if they were made, and the
  // space that is left.
  datatype Try = Try(ret: SealResult, at: Position, sealer: Sealer, pieces: seq<Piece>, records: seq<WireRecord>, left: nat)

  ghost function SealNext(s: Sealer, f: seq<OutMessage>, at: Position, room: nat): (t: Try)
    requires Sane(f, at) && at.written < |f|
    ensures Sane(f, t.at) && t.left <= room
    ensures if t.records == [] then t.at == at && t.pieces == [] else Earlier(at, t.at)
    ensures t.ret.SealSuccess? ==> t.at.written == at.written + 1
  {
    var m, c := f[at.written], CipherFor(s, f[at.written]);
    assert m in f;
    if !AtHand(s, m) then Try(SealError, at, s, [], [], room)
    else if TooSmall(m, c, room) then Try(NoProgress, at, s, [], [], room)
    else
      var p := Longest(f, at, c, room);
      if NoPrefix(m, p, c, room) then Try(SealError, at, s, [], [], room)
      else Tried(s, f, p, c, room)
  }

  // The cipher is used.
  ghost function Tried(s: Sealer, f: seq<OutMessage>, p: Piece, c: Cipher, room: nat): (t: Try)
    requires WellFormedFlight(f) && p.index < |f| && p.off + p.len <= Len(f[p.index])
    requires p.len == 0 ==> p.off == Len(f[p.index])
    ensures Sane(f, t.at) && t.left <= room
    ensures if t.records == [] then t.at == Position(p.index, p.off) && t.pieces == [] else Earlier(Position(p.index, p.off), t.at)
    ensures t.ret.SealSuccess? ==> t.at.written == p.index + 1
  {
    var m := f[p.index];
    assert m in f;
    if !Makeable(s, m, p.len, c, room) then Try(SealError, Position(p.index, p.off), Used(s, m, p.len, c, room), [], [], room)
    else
      var r := RecordMade(s, m, p, c);
      Try(if p.off + p.len == Len(m) then SealSuccess else SealPartial, After(f, p), Used(s, m, p.len, c, room), [p], [r], room - r.length)
  }

  predicate Makeable(s: Sealer, m: OutMessage, len: nat, c: Cipher, room: nat) {
    Makes(s.counters, Size(m, len), InLast(s, m), room, c.seal(s.calls))
  }

  // The cipher has been used once more.
  function Used(s: Sealer, m: OutMessage, len: nat, c: Cipher, room: nat): Sealer {
    s.(counters := AfterSeal(s.counters, Size(m, len), InLast(s, m), room, c.seal(s.calls)), calls := s.calls + 1)
  }

  function RecordMade(s: Sealer, m: OutMessage, p: Piece, c: Cipher): WireRecord
    requires WellFormed(m) && p.off + p.len <= Len(m) && c.seal(s.calls).Some?
  {
    WireRecord(TypeOf(m), m.epoch, Counter(s.counters, InLast(s, m)), Plaintext(m, p), RECORD_HEADER + Size(m, p.len) + c.seal(s.calls).value)
  }

  lemma {:induction false} OneTotal(r: WireRecord)
    ensures Total([r]) == r.length
  {
    assert [r][..0] == [];
  }

  // Exactly when a call fails: the epoch is gone, the prefix leaves no room, or no record is made.
  predicate SealFails(s: Sealer, f: seq<OutMessage>, at: Position, room: nat)
    requires at.written < |f| && at.offset <= Len(f[at.written])
  {
    var m, c := f[at.written], CipherFor(s, f[at.written]);
    || !AtHand(s, m)
    || (!TooSmall(m, c, room) &&
          var p := Longest(f, at, c, room);
          NoPrefix(m, p, c, room) || !Makeable(s, m, p.len, c, room))
  }

  // What one call does, in every case: the piece is the longest that fits from this position
  // on, its record carries it, and the flight goes on behind it.
  lemma {:induction false} SealNextExact(s: Sealer, f: seq<OutMessage>, at: Position, room: nat)
    requires Sane(f, at) && at.written < |f|
    ensures var t, m := SealNext(s, f, at, room), f[at.written];
            && (t.ret.SealError? <==> SealFails(s, f, at, room))
            && (t.ret.NoProgress? <==> AtHand(s, m) && TooSmall(m, CipherFor(s, m), room))
            && (t.records != [] <==> t.ret.SealPartial? || t.ret.SealSuccess?)
            && (t.records != [] ==>
                  && t.pieces == [Longest(f, at, CipherFor(s, m), room)] && Fits(f, at, t.pieces[0])
                  && |t.records| == 1 && t.records[0].length == room - t.left
                  && AllCarry(f, t.pieces, t.records) && t.at == After(f, t.pieces[0])
                  && (t.ret.SealSuccess? <==> t.at == Position(at.written + 1, 0)))
  {
    assert f[at.written] in f;
  }

  // --- One packet ---

  // What came of filling a packet: error says that a seal failed.
  datatype Filled = Filled(packet: seq<WireRecord>, pieces: seq<Piece>, at: Position, sealer: Sealer, error: bool)

  // The loop of seal_next_packet, with what has been sealed so far.
  ghost function Fill(s: Sealer, f: seq<OutMessage>, at: Position, room: nat, packet: seq<WireRecord>,
                      pieces: seq<Piece>): (r: Filled)
    requires Sane(f, at)
    ensures Sane(f, r.at) && !Earlier(r.at, at)
    ensures |packet| <= |r.packet| && (|packet| < |r.packet| ==> Earlier(at, r.at)) && (r.error ==> r.at.written < |f|)
    decreases |f| - at.written
  {
    if at.written == |f| then Filled(packet, pieces, at, s, false)
    else
      var t := SealNext(s, f, at, room);
      if t.ret.SealSuccess? then
        Fill(t.sealer, f, t.at, t.left, packet + t.records, pieces + t.pieces)
      else Filled(packet + t.records, pieces + t.pieces, t.at, t.sealer, t.ret.SealError?)
  }

  // A packet filled from one position to another.
  ghost predicate Packed(f: seq<OutMessage>, from: Position, to: Position, pieces: seq<Piece>, packet: seq<WireRecord>) {
    Walk(f, from, pieces) == Some(to) && AllCarry(f, pieces, packet)
  }

  lemma {:induction false} AllCarryOn(f: seq<OutMessage>, a: seq<Piece>, x: seq<WireRecord>, b: seq<Piece>,
                                      y: seq<WireRecord>)
    requires AllCarry(f, b, y)
    ensures AllCarry(f, a, x) ==> AllCarry(f, a + b, x + y)
  {
    if AllCarry(f, a, x) {
      forall k | 0 <= k < |a + b|
        ensures Carries(f, (a + b)[k], (x + y)[k])
      {
        if k < |a| { assert Carries(f, a[k], x[k]); } else { assert Carries(f, b[k - |a|], y[k - |a|]); }
      }
    }
  }

  lemma {:induction false} PackedOn(f: seq<OutMessage>, from: Position, at: Position, to: Position,
                 had: seq<Piece>, was: seq<WireRecord>, pieces: seq<Piece>, records: seq<WireRecord>)
    requires Packed(f, from, at, had, was) && Packed(f, at, to, pieces, records)
    ensures Packed(f, from, to, had + pieces, was + records)
  {
    WalkOn(f, from, had, pieces);
    AllCarryOn(f, had, was, pieces, records);
  }

  lemma {:induction false} TryPacked(s: Sealer, f: seq<OutMessage>, at: Position, room: nat)
    requires Sane(f, at) && at.written < |f|
    ensures var t := SealNext(s, f, at, room); Packed(f, at, t.at, t.pieces, t.records)
  {
    SealNextExact(s, f, at, room);
    var t := SealNext(s, f, at, room);
    if t.records != [] {
      WalkStep(f, at, [], t.pieces[0]);
      assert [] + [t.pieces[0]] == t.pieces;
    }
  }

  lemma {:induction false} TotalBoth(a: seq<WireRecord>, b: seq<WireRecord>)
    ensures Total(a + b) == Total(a) + Total(b)
  {
    if b == [] {
      assert a + b == a;
    } else {
      var n := |b| - 1;
      TotalBoth(a, b[..n]);
      assert (a + b)[..|a| + n] == a + b[..n];
    }
  }

  lemma {:induction false} TryOnto(s: Sealer, f: seq<OutMessage>, from: Position, at: Position, room: nat,
                                   packet: seq<WireRecord>, pieces: seq<Piece>)
    requires Sane(f, at) && at.written < |f| && Packed(f, from, at, pieces, packet)
    ensures var t := SealNext(s, f, at, room);
            && Packed(f, from, t.at, pieces + t.pieces, packet + t.records)
            && Total(packet + t.records) + t.left <= Total(packet) + room
  {
    var t := SealNext(s, f, at, room);
    TryPacked(s, f, at, room);
    PackedOn(f, from, at, t.at, pieces, packet, t.pieces, t.records);
    SealNextExact(s, f, at, room);
    TotalBoth(packet, t.records);
    if t.records != [] { OneTotal(t.records[0]); }
  }

  lemma {:induction false} FillStep(s: Sealer, f: seq<OutMessage>, at: Position, room: nat, packet: seq<WireRecord>,
                                    pieces: seq<Piece>)
    requires Sane(f, at) && at.written < |f|
    ensures var t := SealNext(s, f, at, room);
            Fill(s, f, at, room, packet, pieces) ==
            if t.ret.SealSuccess? then Fill(t.sealer, f, t.at, t.left, packet + t.records, pieces + t.pieces)
            else Filled(packet + t.records, pieces + t.pieces, t.at, t.sealer, t.ret.SealError?)
  {
  }

  ghost predicate FilledFrom(f: seq<OutMessage>, from: Position, r: Filled, limit: nat) {
    Packed(f, from, r.at, r.pieces, r.packet) && Total(r.packet) <= limit
  }

  // A packet holds the next pieces of the flight, in the space it has.
  lemma {:induction false} FillPacked(s: Sealer, f: seq<OutMessage>, from: Position, at: Position, room: nat,
                                      packet: seq<WireRecord>, pieces: seq<Piece>)
    requires Sane(f, at) && Packed(f, from, at, pieces, packet)
    ensures FilledFrom(f, from, Fill(s, f, at, room, packet, pieces), Total(packet) + room)
    decreases |f| - at.written
  {
    if at.written < |f| {
      var t := SealNext(s, f, at, room);
      TryOnto(s, f, from, at, room, packet, pieces);
      FillStep(s, f, at, room, packet, pieces);
      if t.ret.SealSuccess? {
        FillPacked(t.sealer, f, from, t.at, t.left, packet + t.records, pieces + t.pieces);
      }
    }
  }

  // --- When no seal fails ---

  // A cipher that never fails and keeps to its bounds.
  ghost predicate GoodCipher(c: Cipher) {
    c.nonceLen <= c.maxOverhead && forall n: nat :: c.seal(n).Some? && c.seal(n).value <= c.maxOverhead
  }

  // The bytes from a position on, and the ends of messages: no more records can be needed.
  function Left(f: seq<OutMessage>, at: Position): nat
    decreases |f| - at.written
  {
    if at.written >= |f| then 0
    else (if at.offset <= Len(f[at.written]) then Len(f[at.written]) - at.offset else 0) + 1 + Left(f, Position(at.written + 1, 0))
  }

  // The ciphers are good, those of all messages are at hand, no sequence can run out and the
  // length of a record has 16 bits.
  ghost predicate Sound(s: Sealer, f: seq<OutMessage>, at: Position, room: nat) {
    && GoodCipher(s.cipher) && GoodCipher(s.lastCipher) && (forall m :: m in f ==> AtHand(s, m))
    && s.counters.sequence + Left(f, at) < TWO48 && s.counters.lastSequence + Left(f, at) < TWO48
    && room < 0x1_0000
  }

  lemma {:induction false} SoundSeal(s: Sealer, f: seq<OutMessage>, at: Position, room: nat)
    requires Sane(f, at) && at.written < |f| && Sound(s, f, at, room)
    ensures !SealFails(s, f, at, room)
  {
    assert f[at.written] in f;
    var c := CipherFor(s, f[at.written]);
    assert c.seal(s.calls).Some?;
  }

  // Sealing keeps the epoch and the ciphers, and moves a sequence by at most one.
  lemma {:induction false} SealerKept(s: Sealer, f: seq<OutMessage>, at: Position, room: nat)
    requires Sane(f, at) && at.written < |f|
    ensures var t := SealNext(s, f, at, room);
            && SameKeys(s, t.sealer)
            && (!t.ret.SealError? ==> var n := if t.records == [] then 0 else 1;
                  && t.sealer.counters.sequence <= s.counters.sequence + n
                  && t.sealer.counters.lastSequence <= s.counters.lastSequence + n)
  {
    var m := f[at.written];
    var c := CipherFor(s, m);
    if AtHand(s, m) && !TooSmall(m, c, room) {
      CountersKept(s.counters, Size(m, Longest(f, at, c, room).len), InLast(s, m), room, c.seal(s.calls));
    }
  }

  // So does filling a packet.
  lemma {:induction false} FillKeys(s: Sealer, f: seq<OutMessage>, at: Position, room: nat, packet: seq<WireRecord>,
                                    pieces: seq<Piece>)
    requires Sane(f, at)
    ensures SameKeys(s, Fill(s, f, at, room, packet, pieces).sealer)
    decreases |f| - at.written
  {
    if at.written < |f| {
      var t := SealNext(s, f, at, room);
      SealerKept(s, f, at, room);
      FillStep(s, f, at, room, packet, pieces);
      if t.ret.SealSuccess? { FillKeys(t.sealer, f, t.at, t.left, packet + t.records, pieces + t.pieces); }
    }
  }

  lemma {:induction false} CountersKept(c: Counters, size: nat, previous: bool, maxOut: nat, answer: Option<nat>)
    requires previous ==> c.generation >= 1
    ensures var d := AfterSeal(c, size, previous, maxOut, answer);
            d.generation == c.generation && d.sequence <= c.sequence + 1 && d.lastSequence <= c.lastSequence + 1
  {
    NextSequence(c.sequence);
    NextSequence(c.lastSequence);
  }

  ghost predicate SameKeys(s: Sealer, t: Sealer) {
    t.counters.generation == s.counters.generation && t.cipher == s.cipher && t.lastCipher == s.lastCipher
  }

  lemma {:induction false} SoundOn(s: Sealer, f: seq<OutMessage>, at: Position, room: nat)
    requires Sane(f, at) && at.written < |f| && Sound(s, f, at, room)
    ensures var t := SealNext(s, f, at, room);
            && !t.ret.SealError? && SameKeys(s, t.sealer) && Sound(t.sealer, f, t.at, t.left)
  {
    SoundSeal(s, f, at, room);
    SealNextExact(s, f, at, room);
    SealerKept(s, f, at, room);
    var t := SealNext(s, f, at, room);
    if t.records != [] { LeftOn(f, at, t.pieces[0]); }
    SoundKept(s, t.sealer, f, at, t.at, room, t.left, if t.records == [] then 0 else 1);
  }

  lemma {:induction false} SoundKept(s: Sealer, t: Sealer, f: seq<OutMessage>, at: Position, to: Position, room: nat,
                                     left: nat, n: nat)
    requires Sound(s, f, at, room) && SameKeys(s, t) && left <= room && Left(f, to) + n <= Left(f, at)
    requires t.counters.sequence <= s.counters.sequence + n && t.counters.lastSequence <= s.counters.lastSequence + n
    ensures Sound(t, f, to, left)
  {
    forall m | m in f ensures AtHand(t, m) { assert AtHand(s, m); }
  }

  lemma {:induction false} LeftOn(f: seq<OutMessage>, at: Position, p: Piece)
    requires Sane(f, at) && Fits(f, at, p)
    ensures Left(f, After(f, p)) < Left(f, at)
  {
  }

  ghost predicate SoundlyFilled(s: Sealer, f: seq<OutMessage>, r: Filled) {
    !r.error && SameKeys(s, r.sealer) && Sound(r.sealer, f, r.at, 0)
  }

  // No seal fails in a packet, which gets a record if there is room for one, and the same
  // holds of the next packet.
  lemma {:induction false} SoundFill(s: Sealer, f: seq<OutMessage>, at: Position, room: nat, packet: seq<WireRecord>,
                                     pieces: seq<Piece>)
    requires Sane(f, at) && Sound(s, f, at, room)
    ensures SoundlyFilled(s, f, Fill(s, f, at, room, packet, pieces))
    ensures at.written < |f| && !TooSmall(f[at.written], CipherFor(s, f[at.written]), room) ==>
              |packet| < |Fill(s, f, at, room, packet, pieces).packet|
    decreases |f| - at.written
  {
    if at.written == |f| {
      SoundKept(s, s, f, at, at, room, 0, 0);
    } else {
      var t := SealNext(s, f, at, room);
      SoundOn(s, f, at, room);
      SealNextExact(s, f, at, room);
      FillStep(s, f, at, room, packet, pieces);
      if t.ret.SealSuccess? {
        SoundFill(t.sealer, f, t.at, t.left, packet + t.records, pieces + t.pieces);
      } else {
        SoundKept(t.sealer, t.sealer, f, t.at, t.at, t.left, 0, 0);
      }
    }
  }
}
