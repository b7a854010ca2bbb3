// A whole pass over a flight, received in any order.

module DtlsArrival {
  import opened Basics
  import opened SslConstants
  import opened DtlsFragment
  import opened DtlsFlight
  import opened DtlsReassembly
  import opened DtlsReceiver
  import opened DtlsDelivery
  import opened DtlsSealing
  import opened DtlsSending
  import DtlsWriter

  // The piece holds the byte, or ends the message there.
  ghost predicate HasCell(f: seq<OutMessage>, p: Piece, i: nat, k: nat) {
    p.index == i < |f| && p.off <= k && (k < p.off + p.len || k == p.off + p.len == Len(f[i]))
  }

  lemma {:induction false} RangeCells(i: nat, off: nat, len: nat, c: Cell)
    ensures c in Range(i, off, len) ==> c.index == i && off <= c.byteAt < off + len
  {
    if len > 0 { RangeCells(i, off, len - 1, c); }
  }

  // What is carried is carried by some piece.
  lemma {:induction false} CarriedBy(f: seq<OutMessage>, pieces: seq<Piece>, i: nat, k: nat) returns (n: nat)
    requires (forall p :: p in pieces ==> p.index < |f|) && Cell(i, k) in Carried(f, pieces)
    ensures n < |pieces| && HasCell(f, pieces[n], i, k)
  {
    n := |pieces| - 1;
    var before := Carried(f, pieces[..n]);
    assert pieces[n] in pieces;
    if Cell(i, k) in before {
      n := CarriedBy(f, pieces[..n], i, k);
    } else {
      assert Cell(i, k) in Cells(f, pieces[n]);
      var p := pieces[n];
      RangeCells(p.index, p.off, if p.off + p.len == Len(f[p.index]) then p.len + 1 else p.len, Cell(i, k));
    }
  }

  // The byte of its message is in the fragment, or is the end of the message.
  predicate Covers(h: Header, b: nat) { h.off <= b < h.off + h.len || b == h.msgLen }

  // The record holds byte b of message k.
  ghost predicate Brings(r: DtlsWriter.WireRecord, k: nat, b: nat) {
    && r.typ == SSL3_RT_HANDSHAKE && ParseFragment(r.plaintext).Done?
    && var h := ParseFragment(r.plaintext).value.0;
       h.seqNum == k && Covers(h, b)
  }

  // The record of a pass that holds a byte of a message, or its end.
  lemma RecordOf(f: seq<OutMessage>, pass: seq<Piece>, records: seq<DtlsWriter.WireRecord>, i: nat, b: nat)
    returns (r: DtlsWriter.WireRecord)
    requires Tiles(f, Position(|f|, 0), pass, records)
    requires i < |f| && f[i].Handshake? && b <= Len(f[i])
    ensures WellFormed(f[i]) && r in records && Brings(r, HeaderOf(f[i]).seqNum, b)
    ensures ParseFragment(r.plaintext).value.0.msgLen == Len(f[i])
  {
    assert f[i] in f;
    var n := CarriedBy(f, pass, i, b);
    var p := pass[n];
    r := records[n];
    assert Carries(f, p, r);
    PieceParsed(f[i], p, r);
  }

  lemma PieceParsed(m: OutMessage, p: Piece, r: DtlsWriter.WireRecord)
    requires WellFormed(m) && m.Handshake? && p.off + p.len <= Len(m)
    requires r.plaintext == FragmentBytes(HeaderOf(m).(off := p.off, len := p.len), BodyOf(m)[p.off..p.off + p.len])
    ensures ParseFragment(r.plaintext).Done?
    ensures ParseFragment(r.plaintext).value.0 == HeaderOf(m).(off := p.off, len := p.len)
  {
    var h, body := HeaderOf(m).(off := p.off, len := p.len), BodyOf(m)[p.off..p.off + p.len];
    ParsedHeader(m.data);
    FragmentRoundTrip(h, body, []);
    assert FragmentBytes(h, body) + [] == r.plaintext;
  }

  // Every handshake record has arrived.
  ghost predicate AllArrive(records: seq<DtlsWriter.WireRecord>, fragments: seq<(Header, seq<byte>)>) {
    forall r :: r in records && r.typ == SSL3_RT_HANDSHAKE && ParseFragment(r.plaintext).Done? ==>
      ParseFragment(r.plaintext).value in fragments
  }

  // The fragment of the piece that holds a byte.
  lemma CellArrives(f: seq<OutMessage>, pass: seq<Piece>, records: seq<DtlsWriter.WireRecord>,
                    fragments: seq<(Header, seq<byte>)>, i: nat, k: nat) returns (x: (Header, seq<byte>))
    requires Tiles(f, Position(|f|, 0), pass, records) && AllArrive(records, fragments)
    requires i < |f| && f[i].Handshake? && k <= Len(f[i])
    ensures x in fragments && WellFormed(f[i]) && x.0.seqNum == HeaderOf(f[i]).seqNum
    ensures k < Len(f[i]) ==> x.0.off <= k < x.0.off + x.0.len
  {
    var r := RecordOf(f, pass, records, i, k);
    x := ParseFragment(r.plaintext).value;
  }

  // Once every record of a finished pass has arrived, in any order, among whatever other
  // fragments of the messages sent, each message of the flight that the receiver may take is
  // complete in its slot with the body that was sent.
  lemma WholePassCompletes(v: View, sent: seq<Message>, f: seq<OutMessage>, pass: seq<Piece>,
                           records: seq<DtlsWriter.WireRecord>, fragments: seq<(Header, seq<byte>)>, i: nat)
    requires Follows(v, sent) && AllSlices(sent, fragments) && FlightAdded(sent, f)
    requires Tiles(f, Position(|f|, 0), pass, records) && AllArrive(records, fragments)
    requires i < |f| && f[i].Handshake? && WellFormed(f[i]) && Receivable(v, sent, HeaderOf(f[i]).seqNum)
    ensures var w, k := AbsorbList(v, fragments), HeaderOf(f[i]).seqNum;
            && Slot(w, k).Some? && Whole(Slot(w, k).value)
            && Message(Slot(w, k).value.typ, Slot(w, k).value.bytes) == sent[k]
  {
    assert f[i] in f && Added(sent, f[i]);
    var k := HeaderOf(f[i]).seqNum;
    var last := CellArrives(f, pass, records, fragments, i, Len(f[i]));
    assert Begins(fragments, k);
    forall b: nat | b < |sent[k].body| ensures Arrived(fragments, k, b) {
      var x := CellArrives(f, pass, records, fragments, i, b);
    }
    CompleteInAnyOrder(v, sent, fragments, k);
  }

  // --- An honest fragment that ends the connection ---

  // Eight empty messages, and a receiver that has seen none of them.
  function EightMessages(): seq<Message> { seq(8, _ => Message(1, [])) }

  ghost function NewReceiver(): View { View(0, 0, 16384, seq(FLIGHT, _ => None)) }

  // The fragment of the eighth message is part of what was sent, and yet it is refused, with
  // everything after it, while one of a ninth would be ignored.
  lemma SevenAhead()
    ensures var h := Header(1, 0, FLIGHT, 0, 0);
            && Follows(NewReceiver(), EightMessages()) && Slice(EightMessages(), h, [])
            && Judge(NewReceiver(), h) == Failed(InternalError)
            && AbsorbAll(NewReceiver(), FragmentBytes(h, [])) == (NewReceiver(), Some(InternalError))
            && Judge(NewReceiver(), h.(seqNum := FLIGHT + 1)) == Ignored
  {
    var h := Header(1, 0, FLIGHT, 0, 0);
    FragmentRoundTrip(h, [], []);
    assert FragmentBytes(h, []) + [] == FragmentBytes(h, []);
  }

  // The record of a ChangeCipherSpec of the flight is read as one.
  lemma CcsArrives(b: Inbox, f: seq<OutMessage>, p: Piece, r: DtlsWriter.WireRecord)
    requires RingOk(b.view) && Carries(f, p, r) && f[p.index].Ccs?
    ensures Opens(b, r.typ, r.plaintext, true) == (b.(hasCcs := true), Success)
  {
  }
}
