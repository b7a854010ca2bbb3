// In-order delivery: fragments that are slices of the sender's messages, in any order and any
// number of copies, only ever make the receiver hand out a prefix of those messages.

module DtlsDelivery {
  import opened Basics
  import opened SslConstants
  import opened DtlsFragment
  import opened DtlsBitmap
  import opened DtlsReassembly
  import opened DtlsReceiver

  datatype Message = Message(typ: nat, body: seq<byte>)

  // The fragment is part of one of these messages.
  ghost predicate Slice(sent: seq<Message>, h: Header, body: seq<byte>) {
    && h.seqNum < |sent| && h.typ == sent[h.seqNum].typ && h.msgLen == |sent[h.seqNum].body|
    && h.off + h.len <= h.msgLen && body == sent[h.seqNum].body[h.off..h.off + h.len]
  }

  // A message in part agrees with the whole one on every byte received.
  ghost predicate Agrees(p: Partial, m: Message) {
    && p.typ == m.typ && |p.bytes| == |m.body|
    && forall b :: b in p.marked ==> b < |m.body| && p.bytes[b] == m.body[b]
  }

  // The receiver has handed out the messages before readSeq and holds parts of later ones.
  ghost predicate Follows(v: View, sent: seq<Message>) {
    && RingOk(v) && v.readSeq <= |sent| < SEQUENCES
    && forall i :: 0 <= i < FLIGHT && v.slots[i].Some? ==> SlotFollows(v.slots[i].value, sent)
  }

  ghost predicate SlotFollows(p: Partial, sent: seq<Message>) {
    p.seqNum < |sent| && Agrees(p, sent[p.seqNum])
  }

  lemma AddAgrees(p: Partial, m: Message, off: nat, len: nat)
    requires Agrees(p, m) && off + len <= |m.body|
    ensures Agrees(Add(p, off, m.body[off..off + len]), m)
  {
  }

  // A slice of a message keeps the receiver on track, whatever it already has.
  lemma AbsorbFollows(v: View, sent: seq<Message>, h: Header, body: seq<byte>)
    requires Follows(v, sent) && Slice(sent, h, body) && |body| == h.len
    ensures Follows(Absorb(v, h, body), sent)
  {
    if Judge(v, h) == Taken {
      AbsorbKeepsRing(v, h, body);
      var s := Slot(v, h.seqNum);
      assert s.Some? ==> InPlace(v, h.seqNum % FLIGHT, s.value.seqNum);
      if s.Some? { SameSlot(v.readSeq, s.value.seqNum, h.seqNum); }
      var p := Begun(s, h);
      AddAgrees(p, sent[h.seqNum], h.off, h.len);
    }
  }

  // Slices never contradict each other: the only fragments refused are those of a message
  // longer than allowed, one exactly seven ahead, or one out of turn in epoch 1.
  lemma SlicesAgree(v: View, sent: seq<Message>, h: Header, body: seq<byte>)
    requires Follows(v, sent) && Slice(sent, h, body)
    ensures Judge(v, h) == Failed(IllegalParameter) <==> h.msgLen > v.maxLen
    ensures Judge(v, h) == Failed(InternalError) <==> h.msgLen <= v.maxLen && h.seqNum == v.readSeq + FLIGHT && v.epoch != 1
    ensures Judge(v, h) == Failed(UnexpectedMessage) <==> h.msgLen <= v.maxLen && v.epoch == 1 && h.seqNum != v.readSeq
  {
    if v.readSeq <= h.seqNum < v.readSeq + FLIGHT {
      var s := Slot(v, h.seqNum);
      if s.Some? {
        assert InPlace(v, h.seqNum % FLIGHT, s.value.seqNum) && SlotFollows(s.value, sent);
        SameSlot(v.readSeq, s.value.seqNum, h.seqNum);
      }
    }
  }

  // The message handed out is the next one sent, with its exact type and body.
  lemma NextDelivered(v: View, sent: seq<Message>)
    requires Follows(v, sent) && CurrentComplete(v)
    ensures v.readSeq < |sent|
    ensures var p := Slot(v, v.readSeq).value; Message(p.typ, p.bytes) == sent[v.readSeq]
    ensures Follows(Advance(v), sent)
  {
    var p := Slot(v, v.readSeq).value;
    assert InPlace(v, v.readSeq % FLIGHT, p.seqNum) && SlotFollows(p, sent);
    SameSlot(v.readSeq, p.seqNum, v.readSeq);
    assert p.bytes == sent[v.readSeq].body;
    AdvanceKeepsRing(v);
    var w := Advance(v);
    forall i | 0 <= i < FLIGHT && w.slots[i].Some?
      ensures SlotFollows(w.slots[i].value, sent)
    {
      assert SlotFollows(v.slots[i].value, sent);
    }
  }

  lemma FollowsMore(v: View, sent: seq<Message>, m: Message)
    requires Follows(v, sent) && |sent| + 1 < SEQUENCES
    ensures Follows(v, sent + [m])
  {
    forall i | 0 <= i < FLIGHT && v.slots[i].Some?
      ensures SlotFollows(v.slots[i].value, sent + [m])
    {
      assert SlotFollows(v.slots[i].value, sent);
    }
  }

  // A record with one fragment in it.
  lemma OneFragment(v: View, s: seq<byte>)
    requires RingOk(v) && ParseFragment(s).Done? && ParseFragment(s).rest == []
    ensures AbsorbAll(v, s).0 == Absorb(v, ParseFragment(s).value.0, ParseFragment(s).value.1)
    ensures AbsorbAll(v, s).1.Some? <==> Judge(v, ParseFragment(s).value.0).Failed?
  {
    var h, body := ParseFragment(s).value.0, ParseFragment(s).value.1;
    ParsedHeader(s);
    AbsorbKeepsRing(v, h, body);
  }

  // --- Completeness ---

  ghost function AbsorbList(v: View, fragments: seq<(Header, seq<byte>)>): View
    requires RingOk(v) && forall f :: f in fragments ==> ValidHeader(f.0) && |f.1| == f.0.len
    ensures RingOk(AbsorbList(v, fragments))
    decreases |fragments|
  {
    if fragments == [] then v
    else
      var n := |fragments| - 1;
      var w := AbsorbList(v, fragments[..n]);
      assert fragments[n] in fragments && ValidHeader(fragments[n].0);
      AbsorbKeepsRing(w, fragments[n].0, fragments[n].1);
      Absorb(w, fragments[n].0, fragments[n].1)
  }

  ghost predicate AllSlices(sent: seq<Message>, fragments: seq<(Header, seq<byte>)>) {
    forall f :: f in fragments ==> ValidHeader(f.0) && |f.1| == f.0.len && Slice(sent, f.0, f.1)
  }

  lemma {:induction false} ListFollows(v: View, sent: seq<Message>, fragments: seq<(Header, seq<byte>)>)
    requires Follows(v, sent) && AllSlices(sent, fragments)
    ensures Follows(AbsorbList(v, fragments), sent)
    ensures var w := AbsorbList(v, fragments); w.readSeq == v.readSeq && w.maxLen == v.maxLen && w.epoch == v.epoch
  {
    if fragments != [] {
      var n := |fragments| - 1;
      ListFollows(v, sent, fragments[..n]);
      var f := fragments[n];
      assert f in fragments;
      AbsorbFollows(AbsorbList(v, fragments[..n]), sent, f.0, f.1);
    }
  }

  // Message k is within the window and may be received.
  ghost predicate Receivable(v: View, sent: seq<Message>, k: nat) {
    && k < |sent| && v.readSeq <= k < v.readSeq + FLIGHT && |sent[k].body| <= v.maxLen
    && (v.epoch == 1 ==> k == v.readSeq)
  }

  // A byte of message k has arrived in some fragment.
  ghost predicate Arrived(fragments: seq<(Header, seq<byte>)>, k: nat, b: nat) {
    exists f :: f in fragments && f.0.seqNum == k && f.0.off <= b < f.0.off + f.0.len
  }

  ghost predicate Begins(fragments: seq<(Header, seq<byte>)>, k: nat) {
    exists f :: f in fragments && f.0.seqNum == k
  }

  // What the slot of message k holds once these fragments have arrived, in whatever order.
  ghost predicate HasArrived(w: View, fragments: seq<(Header, seq<byte>)>, k: nat)
    requires RingOk(w)
  {
    && (Begins(fragments, k) ==> Slot(w, k).Some?)
    && (Slot(w, k).Some? ==> forall b :: Arrived(fragments, k, b) ==> b in Slot(w, k).value.marked)
  }

  lemma OneMore(w: View, sent: seq<Message>, h: Header, body: seq<byte>, k: nat)
    requires Follows(w, sent) && Receivable(w, sent, k) && Slice(sent, h, body) && |body| == h.len && h.seqNum < SEQUENCES
    ensures var x := Absorb(w, h, body);
            && (Slot(w, k).Some? ==> Slot(x, k).Some? && Slot(w, k).value.marked <= Slot(x, k).value.marked)
            && (h.seqNum == k ==> Slot(x, k).Some? && forall b :: h.off <= b < h.off + h.len ==> b in Slot(x, k).value.marked)
  {
    SlicesAgree(w, sent, h, body);
    AbsorbFollows(w, sent, h, body);
  }

  lemma {:induction false} ListArrives(v: View, sent: seq<Message>, fragments: seq<(Header, seq<byte>)>, k: nat)
    requires Follows(v, sent) && AllSlices(sent, fragments) && Receivable(v, sent, k)
    ensures HasArrived(AbsorbList(v, fragments), fragments, k)
  {
    if fragments != [] {
      var n := |fragments| - 1;
      var f, before := fragments[n], fragments[..n];
      var w, x := AbsorbList(v, before), AbsorbList(v, fragments);
      assert f in fragments && fragments == before + [f];
      ListArrives(v, sent, before, k);
      ListFollows(v, sent, before);
      OneMore(w, sent, f.0, f.1, k);
      if Begins(before, k) || f.0.seqNum == k { assert Slot(x, k).Some?; }
      forall b: nat | Arrived(fragments, k, b) && Slot(x, k).Some?
        ensures b in Slot(x, k).value.marked
      {
        var g :| g in fragments && g.0.seqNum == k && g.0.off <= b < g.0.off + g.0.len;
        if g in before { assert Arrived(before, k, b) && Begins(before, k); }
      }
    }
  }

  // Once every byte of a message has arrived, in any order and with any overlaps, the message
  // is complete in its slot with the body that was sent.
  lemma CompleteInAnyOrder(v: View, sent: seq<Message>, fragments: seq<(Header, seq<byte>)>, k: nat)
    requires Follows(v, sent) && AllSlices(sent, fragments) && Receivable(v, sent, k)
    requires Begins(fragments, k) && forall b :: 0 <= b < |sent[k].body| ==> Arrived(fragments, k, b)
    ensures var w := AbsorbList(v, fragments);
            && Slot(w, k).Some? && Whole(Slot(w, k).value)
            && Message(Slot(w, k).value.typ, Slot(w, k).value.bytes) == sent[k]
  {
    ListArrives(v, sent, fragments, k);
    ListFollows(v, sent, fragments);
    var w := AbsorbList(v, fragments);
    var p := Slot(w, k).value;
    assert InPlace(w, k % FLIGHT, p.seqNum) && SlotFollows(p, sent);
    SameSlot(w.readSeq, p.seqNum, k);
    assert p.marked == Span(0, |p.bytes|);
    assert p.bytes == sent[k].body;
  }
}
