// The sending half of the DTLS handshake transport: the current flight and its packets.

module DtlsSender {
  import opened Basics
  import opened SslConstants
  import opened DtlsFragment
  import opened DtlsFlight
  import opened DtlsDelivery
  import opened DtlsWriter
  import opened DtlsSealing
  import opened DtlsSending

  class Sender {
    const writer: RecordWriter
    const transport: Transport
    var messages: seq<OutMessage>
    var written: nat
    var offset: nat
    var complete: bool
    var flightHasReply: bool
    var writeSeq: nat
    var mtu: nat
    // How often a cipher has been used, and how often the transport has been asked.
    var calls: nat
    var asked: nat
    // The transport: every packet it has taken.
    var wire: seq<seq<WireRecord>>
    // Every handshake message added so far.
    ghost var sent: seq<Message>
    // The number of packets taken before this pass over the flight, the pieces sealed in this
    // pass, less those of packets to be retried, and how many of them a failing seal has ruined.
    ghost var start: nat
    ghost var pass: seq<Piece>
    ghost var lost: nat

    ghost function At(): Position
      reads this
    {
      Position(written, offset)
    }

    ghost function Seals(): Sealer
      reads this, writer
    {
      Sealer(writer.Now(), writer.cipher, writer.lastCipher, calls)
    }

    ghost function Now(): SenderView
      reads this, writer
    {
      SenderView(sent, Seals(), transport, asked, mtu, messages, At(), complete, flightHasReply, wire, start, pass, lost)
    }

    ghost predicate Valid()
      reads this, writer
    {
      writer.Valid() && Steady(Now()) && writeSeq == |sent| % SEQUENCES
    }

    constructor (w: RecordWriter, t: Transport, initialMtu: nat)
      requires w.Valid() && w.Now() == ZERO && w.lastCipher == w.cipher
      ensures Valid() && writer == w && Now() == NewSender(w.cipher, t, initialMtu)
    {
      writer, transport, mtu, calls, asked := w, t, initialMtu, 0, 0;
      messages, written, offset, complete, flightHasReply, writeSeq := [], 0, 0, false, false, 0;
      sent, wire, start, pass, lost := [], [], 0, [], 0;
    }

    // --- The queue ---

    // dtls_clear_outgoing_messages.
    method ClearOutgoing()
      modifies this`messages, this`written, this`offset, this`complete, this`flightHasReply
      modifies this`start, this`pass, this`lost
      ensures Now() == Emptied(old(Now()))
    {
      messages, complete, flightHasReply := [], false, false;
      Rewind();
    }

    // The end of dtls1_next_message, which takes a message from the peer.
    method MessageRead()
      requires Valid()
      modifies this`flightHasReply
      ensures Valid() && Now() == Answered(old(Now()))
    {
      if complete {
        flightHasReply := true;
      }
    }

    // dtls1_on_handshake_complete.
    method OnHandshakeComplete()
      requires Valid()
      modifies this`messages, this`written, this`offset, this`complete, this`flightHasReply
      modifies this`start, this`pass, this`lost
      ensures Valid() && Now() == Completed(old(Now()))
    {
      EmptiedSteady(Now());
      if flightHasReply {
        ClearOutgoing();
      }
    }

    // dtls1_init_message, dtls1_finish_message and dtls1_add_message: the message is numbered,
    // serialized as one fragment and added to the flight.
    method AddMessage(typ: nat, body: seq<byte>) returns (ok: bool)
      requires Valid() && typ < 0x100
      modifies this
      ensures Valid()
      ensures ok <==> |body| < 0x100_0000 && HasRoom(old(Now()))
      ensures Now() == if ok then Queued(old(Now()), Serialized(old(Now()), typ, body), [Message(typ, body)])
                       else old(Now())
    {
      if |body| >= 0x100_0000 {
        return false;
      }
      SerializedAdded(Now(), typ, body);
      var msg := Handshake(writer.wEpoch, FragmentBytes(Header(typ, |body|, writeSeq, 0, |body|), body));
      ok := AddOutgoing(msg, [Message(typ, body)]);
    }

    // dtls1_add_change_cipher_spec.
    method AddChangeCipherSpec() returns (ok: bool)
      requires Valid()
      modifies this
      ensures Valid()
      ensures ok <==> HasRoom(old(Now()))
      ensures Now() == if ok then Queued(old(Now()), OutMessage.Ccs(EpochOf(old(Now()))), []) else old(Now())
    {
      ok := AddOutgoing(OutMessage.Ccs(writer.wEpoch), []);
    }

    // add_outgoing. added is what msg adds to the messages sent.
    method AddOutgoing(msg: OutMessage, ghost added: seq<Message>) returns (ok: bool)
      requires Valid()
      requires WellFormed(msg) && Added(sent + added, msg) && |added| == if msg.Handshake? then 1 else 0
      modifies this
      ensures Valid()
      ensures ok <==> HasRoom(old(Now()))
      ensures Now() == if ok then Queued(old(Now()), msg, added) else old(Now())
    {
      if HasRoom(Now()) { QueuedSteady(Now(), msg, added); }
      if complete {
        EmptiedSteady(Now());
        ClearOutgoing();
      }
      ok := |messages| < FLIGHT;
      if ok {
        Put(msg, added);
      }
    }

    // The message is numbered and put in the queue.
    method Put(msg: OutMessage, ghost added: seq<Message>)
      requires writeSeq == |sent| % SEQUENCES && |added| == if msg.Handshake? then 1 else 0
      modifies this`writeSeq, this`sent, this`messages
      ensures writeSeq == |sent| % SEQUENCES
      ensures Now() == old(Now()).(messages := old(messages) + [msg], sent := old(sent) + added)
    {
      if msg.Handshake? {
        writeSeq := (writeSeq + 1) % SEQUENCES;
      }
      sent, messages := sent + added, messages + [msg];
    }

    // --- Sealing ---

    // seal_next_message: seals as much of the next message as fits. Only a partly sealed
    // message moves the offset; its caller moves on from a finished one.
    method SealNextMessage(maxOut: nat) returns (ret: SealResult, out: seq<WireRecord>, left: nat, ghost pieces: seq<Piece>)
      requires writer.Valid() && Sane(messages, At()) && written < |messages|
      modifies this`offset, this`calls
      modifies writer`sequence, writer`lastSequence, writer`used, writer`exhausted
      ensures writer.Valid()
      ensures Try(ret, Stands(ret, written, offset), Seals(), pieces, out, left) == SealNext(old(Seals()), messages, old(At()), maxOut)
    {
      var msg := messages[written];
      if writer.wEpoch >= 1 && msg.epoch == writer.wEpoch - 1 {
        ret, out, left, pieces := SealWith(true, writer.lastCipher, maxOut);
      } else if msg.epoch == writer.wEpoch {
        ret, out, left, pieces := SealWith(false, writer.cipher, maxOut);
      } else {
        return SealError, [], maxOut, [];
      }
    }

    // The rest of seal_next_message, with the epoch chosen.
    method SealWith(previous: bool, cipher: Cipher, maxOut: nat)
      returns (ret: SealResult, out: seq<WireRecord>, left: nat, ghost pieces: seq<Piece>)
      requires writer.Valid() && Sane(messages, At()) && written < |messages|
      requires previous == InLast(Seals(), messages[written]) && cipher == CipherFor(Seals(), messages[written])
      requires AtHand(Seals(), messages[written])
      modifies this`offset, this`calls
      modifies writer`sequence, writer`lastSequence, writer`used, writer`exhausted
      ensures writer.Valid()
      ensures Try(ret, Stands(ret, written, offset), Seals(), pieces, out, left) == SealNext(old(Seals()), messages, old(At()), maxOut)
    {
      var todo, plaintext;
      ret, todo, plaintext := Cut(cipher, maxOut);
      if !ret.SealPartial? {
        return ret, [], maxOut, [];
      }
      ret, out, left, pieces := SealPiece(previous, cipher, maxOut, todo, plaintext);
    }

    // How much progress can be made, and the fragment.
    method Cut(cipher: Cipher, maxOut: nat) returns (ret: SealResult, todo: nat, plaintext: seq<byte>)
      requires Sane(messages, At()) && written < |messages|
      ensures var m := messages[written];
              if TooSmall(m, cipher, maxOut) then ret == NoProgress
              else
                var p := Longest(messages, At(), cipher, maxOut);
                if NoPrefix(m, p, cipher, maxOut) then ret == SealError
                else ret == SealPartial && todo == p.len && WellFormed(m) && plaintext == Plaintext(m, p)
    {
      var msg := messages[written];
      assert msg in messages;
      var overhead, prefix := RECORD_HEADER + cipher.maxOverhead, RECORD_HEADER + cipher.nonceLen;
      if msg.Ccs? {
        return if maxOut < 1 + overhead then NoProgress else SealPartial, 0, [SSL3_MT_CCS];
      }
      if maxOut < HEADER_LENGTH + 1 + overhead || maxOut < prefix {
        return NoProgress, 0, [];
      }
      var hdr, body := HeaderOf(msg), BodyOf(msg);
      todo := |body| - offset;
      if todo > maxOut - HEADER_LENGTH - overhead {
        todo := maxOut - HEADER_LENGTH - overhead;
      }
      if HEADER_LENGTH + todo > maxOut - prefix {
        return SealError, 0, [];
      }
      return SealPartial, todo, FragmentBytes(hdr.(off := offset, len := todo), body[offset..offset + todo]);
    }

    // The record of a piece, and where the flight goes on.
    method SealPiece(previous: bool, cipher: Cipher, maxOut: nat, todo: nat, plaintext: seq<byte>)
      returns (ret: SealResult, out: seq<WireRecord>, left: nat, ghost pieces: seq<Piece>)
      requires writer.Valid() && Sane(messages, At()) && written < |messages|
      requires previous == InLast(Seals(), messages[written]) && AtHand(Seals(), messages[written])
      requires offset + todo <= Len(messages[written]) && (todo == 0 ==> offset == Len(messages[written]))
      requires WellFormed(messages[written]) && plaintext == Plaintext(messages[written], Piece(written, offset, todo))
      modifies this`offset, this`calls
      modifies writer`sequence, writer`lastSequence, writer`used, writer`exhausted
      ensures writer.Valid()
      ensures Try(ret, Stands(ret, written, offset), Seals(), pieces, out, left)
              == Tried(old(Seals()), messages, Piece(written, old(offset), todo), cipher, maxOut)
    {
      var msg := messages[written];
      ghost var s, p := Seals(), Piece(written, offset, todo);
      var ok, r := writer.SealRecord(TypeOf(msg), plaintext, previous, maxOut, cipher.seal(calls));
      calls := calls + 1;
      assert Seals() == Used(s, msg, todo, cipher, maxOut) && (ok <==> Makeable(s, msg, todo, cipher, maxOut));
      if !ok {
        return SealError, [], maxOut, [];
      }
      assert r == RecordMade(s, msg, p, cipher);
      out, left, pieces := [r], maxOut - r.length, [p];
      ret := MoveOn(todo);
    }

    // The end of seal_next_message.
    method MoveOn(todo: nat) returns (ret: SealResult)
      requires written < |messages| && offset + todo <= Len(messages[written])
      modifies this`offset
      ensures ret == if old(offset) + todo == Len(messages[written]) then SealSuccess else SealPartial
      ensures Stands(ret, written, offset) == After(messages, Piece(written, old(offset), todo))
    {
      if offset + todo == Len(messages[written]) {
        offset := 0;
        return SealSuccess;
      }
      offset := offset + todo;
      return SealPartial;
    }

    // seal_next_packet: fills one packet from the flight. It fails if a seal fails, or if the
    // MTU has no room for the first piece.
    method SealNextPacket(maxOut: nat) returns (ok: bool, packet: seq<WireRecord>, ghost r: Filled)
      requires writer.Valid() && Sane(messages, At()) && written < |messages|
      modifies this`written, this`offset, this`calls
      modifies writer`sequence, writer`lastSequence, writer`used, writer`exhausted
      ensures writer.Valid() && r == Fill(old(Seals()), messages, old(At()), maxOut, [], [])
      ensures r == Filled(packet, r.pieces, At(), Seals(), r.error)
      ensures ok <==> packet != [] && !r.error
    {
      var left, full, error := maxOut, false, false;
      ghost var pieces := [];
      packet := [];
      while written < |messages| && !full
        invariant writer.Valid() && Sane(messages, At()) && (error ==> full)
        invariant Fill(old(Seals()), messages, old(At()), maxOut, [], [])
               == if full then Filled(packet, pieces, At(), Seals(), error)
                  else Fill(Seals(), messages, At(), left, packet, pieces)
        decreases |messages| - written, !full
      {
        left, packet, pieces, full, error := SealInto(left, packet, pieces);
      }
      r := Filled(packet, pieces, At(), Seals(), error);
      ok := packet != [] && !error;
    }

    // One round of seal_next_packet, which moves on from a message once it is finished.
    method SealInto(room: nat, was: seq<WireRecord>, ghost had: seq<Piece>)
      returns (left: nat, packet: seq<WireRecord>, ghost pieces: seq<Piece>, full: bool, error: bool)
      requires writer.Valid() && Sane(messages, At()) && written < |messages|
      modifies this`written, this`offset, this`calls
      modifies writer`sequence, writer`lastSequence, writer`used, writer`exhausted
      ensures writer.Valid() && Sane(messages, At()) && (error ==> full) && (!full ==> written == old(written) + 1)
      ensures Fill(old(Seals()), messages, old(At()), room, was, had)
           == if full then Filled(packet, pieces, At(), Seals(), error) else Fill(Seals(), messages, At(), left, packet, pieces)
    {
      FillStep(Seals(), messages, At(), room, was, had);
      var ret, out;
      ghost var more;
      ret, out, left, more := SealNextMessage(room);
      ghost var to := Stands(ret, written, offset);
      packet, pieces := was + out, had + more;
      if ret.SealSuccess? {
        written := written + 1;
      }
      assert At() == to;
      full, error := !ret.SealSuccess?, ret.SealError?;
    }

    // --- Writing ---

    // dtls1_update_mtu.
    method UpdateMtu()
      modifies this`mtu, this`asked
      ensures Now() == AfterMtu(old(Now()))
      ensures mtu == if old(mtu) >= MIN_MTU || transport.mtu(old(asked)).None? then old(mtu)
                     else if MIN_MTU <= transport.mtu(old(asked)).value <= 0x4000_0000 then transport.mtu(old(asked)).value
                     else DEFAULT_MTU
    {
      if mtu < MIN_MTU {
        var answer := transport.mtu(asked);
        asked := asked + 1;
        if answer.Some? {
          if 0 <= answer.value <= 0x4000_0000 && answer.value >= MIN_MTU {
            mtu := answer.value;
          } else {
            mtu := DEFAULT_MTU;
          }
        }
      }
    }

    // One round of the loop of send_flight: a packet is sealed and written, or taken back to
    // be sealed again if the transport does not take it.
    method SendPacket() returns (ret: int)
      requires writer.Valid() && Ready(Now()) && written < |messages|
      modifies this`written, this`offset, this`calls, this`asked, this`wire, this`pass, this`lost
      modifies writer`sequence, writer`lastSequence, writer`used, writer`exhausted
      ensures writer.Valid() && (Now(), ret) == AfterPacket(old(Now()))
    {
      ghost var v := Now();
      var oldWritten, oldOffset := written, offset;
      var ok, packet;
      ghost var p;
      ok, packet, p := SealNextPacket(mtu);
      ret := WritePacket(ok, packet, oldWritten, oldOffset, v, p);
    }

    // What becomes of the packet.
    method WritePacket(ok: bool, packet: seq<WireRecord>, oldWritten: nat, oldOffset: nat, ghost v: SenderView,
                       ghost p: Filled)
      returns (ret: int)
      requires Now() == v.(sealer := p.sealer, at := p.at) && v.at == Position(oldWritten, oldOffset)
      requires (ok <==> packet != [] && !p.error) && p.packet == packet
      modifies this`written, this`offset, this`asked, this`wire, this`pass, this`lost
      ensures (Now(), ret) == Outcome(v, p)
    {
      if !ok {
        pass, lost := pass + p.pieces, lost + |p.pieces|;
        return -1;
      }
      ret := transport.write(asked);
      asked := asked + 1;
      if ret <= 0 {
        written, offset := oldWritten, oldOffset;
        return;
      }
      wire, pass := wire + [packet], pass + p.pieces;
    }

    // The loop of send_flight.
    method SendPackets() returns (ret: int)
      requires writer.Valid() && Ready(Now())
      modifies this`written, this`offset, this`calls, this`asked, this`wire, this`pass, this`lost
      modifies writer`sequence, writer`lastSequence, writer`used, writer`exhausted
      ensures writer.Valid() && (Now(), ret) == AfterPackets(old(Now()))
    {
      ret := 1;
      while written < |messages|
        invariant writer.Valid() && Ready(Now()) && ret == 1
        invariant AfterPackets(old(Now())) == AfterPackets(Now())
        decreases |messages| - written, if written < |messages| then Len(messages[written]) - offset else 0
      {
        PacketsStep(Now());
        ret := SendPacket();
        if ret <= 0 {
          return;
        }
        ret := 1;
      }
    }

    // send_flight.
    method SendFlight(shutdown: bool) returns (ret: int)
      requires Valid()
      modifies this`written, this`offset, this`calls, this`asked, this`wire, this`pass, this`lost, this`mtu
      modifies writer`sequence, writer`lastSequence, writer`used, writer`exhausted
      ensures Valid() && (Now(), ret) == AfterSend(old(Now()), shutdown)
      ensures ret > 0 ==> ret == 1 && written == |messages|
    {
      SendKeeps(Now(), shutdown);
      ret := Send(shutdown);
    }

    method Send(shutdown: bool) returns (ret: int)
      requires writer.Valid() && Ready(Now())
      modifies this`written, this`offset, this`calls, this`asked, this`wire, this`pass, this`lost, this`mtu
      modifies writer`sequence, writer`lastSequence, writer`used, writer`exhausted
      ensures writer.Valid() && (Now(), ret) == AfterSend(old(Now()), shutdown)
    {
      if shutdown {
        return -1;
      }
      UpdateMtu();
      ret := SendPackets();
      ret := Flush(ret);
    }

    // BIO_flush, if all packets have been written.
    method Flush(sent: int) returns (ret: int)
      modifies this`asked
      ensures (Now(), ret) == Flushed(old(Now()), sent)
    {
      if sent <= 0 {
        return sent;
      }
      ret := if transport.flush(asked) <= 0 then -1 else 1;
      asked := asked + 1;
    }

    // dtls1_flush_flight, called again until the whole flight has been written.
    method FlushFlight(shutdown: bool) returns (ret: int)
      requires Valid()
      modifies this`complete
      modifies this`written, this`offset, this`calls, this`asked, this`wire, this`pass, this`lost, this`mtu
      modifies writer`sequence, writer`lastSequence, writer`used, writer`exhausted
      ensures Valid() && (Now(), ret) == AfterFlush(old(Now()), shutdown)
      ensures ret > 0 ==> ret == 1 && written == |messages|
    {
      complete := true;
      ret := SendFlight(shutdown);
    }

    // dtls1_retransmit_outgoing_messages: a new pass over the flight.
    method Retransmit(shutdown: bool) returns (ret: int)
      requires Valid()
      modifies this`start
      modifies this`written, this`offset, this`calls, this`asked, this`wire, this`pass, this`lost, this`mtu
      modifies writer`sequence, writer`lastSequence, writer`used, writer`exhausted
      ensures Valid() && (Now(), ret) == AfterRetransmit(old(Now()), shutdown)
      ensures ret > 0 ==> ret == 1 && written == |messages|
    {
      RewoundSteady(Now());
      Rewind();
      ret := SendFlight(shutdown);
    }

    method Rewind()
      modifies this`written, this`offset, this`start, this`pass, this`lost
      ensures Now() == Rewound(old(Now()))
    {
      written, offset := 0, 0;
      start, pass, lost := |wire|, [], 0;
    }
  }

  // Where the flight stands once its caller has moved on from a finished message.
  function Stands(ret: SealResult, written: nat, offset: nat): Position {
    Position(if ret.SealSuccess? then written + 1 else written, offset)
  }
}
