// The receiving half of the DTLS handshake transport: the ring of messages being put
// together, and the delivery of complete messages in order.

module DtlsReceiver {
  import opened Basics
  import opened SslConstants
  import opened DtlsFragment
  import opened DtlsReassembly

  datatype AlertCode = InternalError | IllegalParameter | UnexpectedMessage | DecodeError

  datatype Opened = Success | Discard | Error(alert: AlertCode)

  datatype Verdict = Ignored | Taken | Failed(alert: AlertCode)

  // --- What the receiver does, on values ---

  datatype View = View(readSeq: nat, epoch: nat, maxLen: nat, slots: seq<Option<Partial>>)

  // A filled slot holds one of the next seven messages, in the place its number says.
  ghost predicate RingOk(v: View) {
    && |v.slots| == FLIGHT && v.readSeq < SEQUENCES
    && forall i :: 0 <= i < FLIGHT && v.slots[i].Some? ==> InPlace(v, i, v.slots[i].value.seqNum)
  }

  ghost predicate InPlace(v: View, i: nat, seqNum: nat) {
    seqNum % FLIGHT == i && v.readSeq <= seqNum < v.readSeq + FLIGHT && seqNum < SEQUENCES
  }

  ghost function Slot(v: View, seqNum: nat): Option<Partial>
    requires RingOk(v)
  {
    v.slots[seqNum % FLIGHT]
  }

  // The checks of dtls1_open_handshake on one fragment. A number exactly seven ahead is not
  // ignored like the ones beyond it: dtls1_get_incoming_message refuses it.
  ghost function Judge(v: View, h: Header): Verdict
    requires RingOk(v)
  {
    if h.off > h.msgLen || h.off + h.len > h.msgLen || h.msgLen > v.maxLen then Failed(IllegalParameter)
    else if v.epoch == 1 && h.seqNum != v.readSeq then Failed(UnexpectedMessage)
    else if h.seqNum < v.readSeq || h.seqNum > v.readSeq + FLIGHT then Ignored
    else if h.seqNum == v.readSeq + FLIGHT then Failed(InternalError)
    else if Mismatch(Slot(v, h.seqNum), h) then Failed(IllegalParameter)
    else Taken
  }

  ghost predicate InWindow(v: View, h: Header) { v.readSeq <= h.seqNum < v.readSeq + FLIGHT }

  ghost predicate Mismatch(s: Option<Partial>, h: Header) {
    s.Some? && (s.value.typ != h.typ || |s.value.bytes| != h.msgLen)
  }

  ghost function Begun(s: Option<Partial>, h: Header): Partial {
    if s.Some? then s.value else Blank(h)
  }

  ghost function Absorb(v: View, h: Header, body: seq<byte>): View
    requires RingOk(v) && |body| == h.len
  {
    if Judge(v, h) != Taken then v
    else v.(slots := v.slots[h.seqNum % FLIGHT := Some(Add(Begun(Slot(v, h.seqNum), h), h.off, body))])
  }

  lemma PutKeepsRing(v: View, p: Partial)
    requires RingOk(v) && v.readSeq <= p.seqNum < v.readSeq + FLIGHT && p.seqNum < SEQUENCES
    ensures RingOk(v.(slots := v.slots[p.seqNum % FLIGHT := Some(p)]))
  {
    var w := v.(slots := v.slots[p.seqNum % FLIGHT := Some(p)]);
    forall i | 0 <= i < FLIGHT && w.slots[i].Some?
      ensures InPlace(w, i, w.slots[i].value.seqNum)
    {
      if i != p.seqNum % FLIGHT { assert InPlace(v, i, v.slots[i].value.seqNum); }
    }
  }

  lemma AbsorbKeepsRing(v: View, h: Header, body: seq<byte>)
    requires RingOk(v) && |body| == h.len && h.seqNum < SEQUENCES
    ensures RingOk(Absorb(v, h, body))
  {
  }

  // dtls1_open_handshake on the contents of a handshake record: its fragments in order, up to
  // the first that is refused.
  ghost function AbsorbAll(v: View, s: seq<byte>): (r: (View, Option<AlertCode>))
    requires RingOk(v)
    ensures RingOk(r.0)
    decreases |s|
  {
    if s == [] then (v, None)
    else
      var p := ParseFragment(s);
      if p.Fail? then (v, Some(DecodeError))
      else
        var h, body := p.value.0, p.value.1;
        if Judge(v, h).Failed? then (v, Some(Judge(v, h).alert))
        else
          ParsedHeader(s);
          AbsorbKeepsRing(v, h, body);
          AbsorbAll(Absorb(v, h, body), p.rest)
  }

  ghost predicate CurrentComplete(v: View)
    requires RingOk(v)
  {
    Slot(v, v.readSeq).Some? && Whole(Slot(v, v.readSeq).value)
  }

  // dtls1_next_message.
  ghost function Advance(v: View): View
    requires RingOk(v)
  {
    v.(readSeq := (v.readSeq + 1) % SEQUENCES, slots := v.slots[v.readSeq % FLIGHT := None])
  }

  lemma AdvanceKeepsRing(v: View)
    requires RingOk(v)
    ensures RingOk(Advance(v))
  {
    var w := Advance(v);
    forall i | 0 <= i < FLIGHT && w.slots[i].Some?
      ensures InPlace(w, i, w.slots[i].value.seqNum)
    {
      assert InPlace(v, i, v.slots[i].value.seqNum);
    }
  }

  // The ring, whether its current message has been seen, and whether a ChangeCipherSpec waits.
  datatype Inbox = Inbox(view: View, hasMessage: bool, hasCcs: bool)

  // dtls1_open_handshake on the contents of a record of any type.
  ghost function Opens(b: Inbox, typ: byte, record: seq<byte>, nullCipher: bool): (r: (Inbox, Opened))
    requires RingOk(b.view)
    ensures RingOk(r.0.view)
  {
    if typ == SSL3_RT_APPLICATION_DATA then (b, if nullCipher then Error(UnexpectedMessage) else Discard)
    else if typ == SSL3_RT_CHANGE_CIPHER_SPEC then
      if !nullCipher then (b, Error(UnexpectedMessage))
      else if record != [SSL3_MT_CCS] then (b, Error(IllegalParameter))
      else (b.(hasCcs := true), Success)
    else if typ != SSL3_RT_HANDSHAKE then (b, Error(UnexpectedMessage))
    else
      var a := AbsorbAll(b.view, record);
      (b.(view := a.0), if a.1 == None then Success else Error(a.1.value))
  }

  // dtls_has_unprocessed_handshake_data: anything but the current message is pending.
  ghost predicate Unprocessed(b: Inbox)
    requires RingOk(b.view)
  {
    b.hasCcs || exists i :: 0 <= i < FLIGHT && !(b.hasMessage && i == b.view.readSeq % FLIGHT) && b.view.slots[i].Some?
  }

  // What comes of a record of each type. A ChangeCipherSpec is a record of type 20 with just
  // the byte 1, and only counts before anything is encrypted; application data, of type 23,
  // is dropped once something is. Only type 22 reaches the ring.
  lemma OpensByType(b: Inbox, typ: byte, record: seq<byte>, nullCipher: bool)
    requires RingOk(b.view)
    ensures var c, o := Opens(b, typ, record, nullCipher).0, Opens(b, typ, record, nullCipher).1;
            && (o == Discard <==> typ == 23 && !nullCipher)
            && (c.hasCcs <==> b.hasCcs || (typ == 20 && nullCipher && record == [1]))
            && (typ == 20 ==> o == if !nullCipher then Error(UnexpectedMessage) else if record == [1] then Success else Error(IllegalParameter))
            && (typ != 20 && typ != 22 ==> o == Discard || o == Error(UnexpectedMessage))
            && c.hasMessage == b.hasMessage && (typ != 22 ==> c.view == b.view)
  {
  }

  // The slots that hold anything but the current message, by the numbers of the messages.
  lemma UnprocessedNumbers(b: Inbox)
    requires RingOk(b.view)
    ensures Unprocessed(b) <==>
              || b.hasCcs
              || exists n: nat :: b.view.readSeq <= n < b.view.readSeq + 7 && Slot(b.view, n).Some? && (b.hasMessage ==> n != b.view.readSeq)
  {
    var v := b.view;
    if !b.hasCcs && Unprocessed(b) {
      var i :| 0 <= i < FLIGHT && !(b.hasMessage && i == v.readSeq % FLIGHT) && v.slots[i].Some?;
      var n := v.slots[i].value.seqNum;
      assert InPlace(v, i, n);
      assert Slot(v, n).Some?;
    }
    forall n: nat | v.readSeq <= n < v.readSeq + 7 && Slot(v, n).Some? && (b.hasMessage ==> n != v.readSeq)
      ensures Unprocessed(b)
    {
      if n % FLIGHT == v.readSeq % FLIGHT { SamePlace(n, v.readSeq); }
      assert v.slots[n % FLIGHT].Some?;
    }
  }

  lemma SamePlace(n: nat, m: nat)
    requires m <= n < m + FLIGHT && n % FLIGHT == m % FLIGHT
    ensures n == m
  {
  }

  // --- The ring ---

  // The heap objects of one slot and the value they stand for.
  ghost predicate Holds(frag: HmFragment?, foot: set<object>, slot: Option<Partial>)
    reads foot
  {
    && (frag == null <==> slot == None)
    && (frag != null ==> frag in foot && frag.Footprint() <= foot && frag.Valid() && slot == Some(frag.View()))
  }

  class Receiver {
    const incoming: array<HmFragment?>
    const maxLen: nat
    var readSeq: nat
    var epoch: nat
    var hasMessage: bool
    var hasCcs: bool
    // What all of this stands for, and which objects make up each slot.
    ghost var view: View
    ghost var feet: seq<set<object>>
    ghost var Repr: set<object>

    ghost predicate Valid()
      reads this, Repr
    {
      && this in Repr && incoming in Repr && incoming.Length == FLIGHT == |feet|
      && RingOk(view) && view.readSeq == readSeq && view.epoch == epoch && view.maxLen == maxLen
      && (forall i :: 0 <= i < FLIGHT ==> feet[i] <= Repr && this !in feet[i] && incoming !in feet[i])
      && (forall i :: 0 <= i < FLIGHT ==> Holds(incoming[i], feet[i], view.slots[i]))
      && (forall i, j :: 0 <= i < j < FLIGHT ==> feet[i] !! feet[j])
      && (hasMessage ==> Slot(view, readSeq).Some? && Whole(Slot(view, readSeq).value))
    }

    ghost function Now(): Inbox
      reads this
    {
      Inbox(view, hasMessage, hasCcs)
    }

    constructor (maximum: nat)
      ensures Valid() && fresh(Repr)
      ensures Now() == Inbox(View(0, 0, maximum, seq(FLIGHT, _ => None)), false, false)
    {
      incoming := new HmFragment?[FLIGHT](_ => null);
      maxLen, readSeq, epoch, hasMessage, hasCcs := maximum, 0, 0, false, false;
      view := View(0, 0, maximum, seq(FLIGHT, _ => None));
      feet := seq(FLIGHT, _ => {});
      new;
      Repr := {this, incoming};
    }

    // dtls1_get_incoming_message: the message h belongs to, begun if this is its first
    // fragment, or null if its number is outside the window or h does not match it.
    method GetIncomingMessage(h: Header) returns (frag: HmFragment?, alert: AlertCode)
      requires Valid() && ValidHeader(h)
      modifies this`view, this`feet, this`Repr, incoming
      ensures Valid() && fresh(Repr - old(Repr))
      ensures frag == null <==> !InWindow(old(view), h) || Mismatch(Slot(old(view), h.seqNum), h)
      ensures frag == null ==> view == old(view) && alert == if InWindow(old(view), h) then IllegalParameter else InternalError
      ensures frag != null ==>
                && frag == incoming[h.seqNum % FLIGHT] && frag.msgLen == h.msgLen
                && view == old(view).(slots := old(view).slots[h.seqNum % FLIGHT := Some(Begun(Slot(old(view), h.seqNum), h))])
    {
      if h.seqNum < readSeq || h.seqNum - readSeq >= FLIGHT {
        return null, InternalError;
      }
      alert := IllegalParameter;
      var idx := h.seqNum % FLIGHT;
      assert Holds(incoming[idx], feet[idx], view.slots[idx]);
      frag := incoming[idx];
      if frag != null {
        assert InPlace(view, idx, frag.seqNum);
        SameSlot(readSeq, frag.seqNum, h.seqNum);
        // The assertion at line 276 of d1_both.cc.
        assert frag.seqNum == h.seqNum;
        if frag.typ != h.typ || frag.msgLen != h.msgLen {
          frag := null;
          return;
        }
        assert view.slots == view.slots[idx := Some(Begun(Slot(view, h.seqNum), h))];
        return;
      }
      frag := NewMessage(h);
    }

    // The first fragment of a message.
    method NewMessage(h: Header) returns (frag: HmFragment)
      requires Valid() && ValidHeader(h) && readSeq <= h.seqNum < readSeq + FLIGHT && Slot(view, h.seqNum) == None
      modifies this`view, this`feet, this`Repr, incoming
      ensures Valid() && fresh(Repr - old(Repr)) && frag == incoming[h.seqNum % FLIGHT] && frag.msgLen == h.msgLen
      ensures view == old(view).(slots := old(view).slots[h.seqNum % FLIGHT := Some(Blank(h))])
    {
      PutKeepsRing(view, Blank(h));
      frag := new HmFragment(h);
      Put(h.seqNum % FLIGHT, frag, Blank(h));
    }

    // A new message goes into an empty slot.
    method Put(idx: nat, frag: HmFragment, ghost p: Partial)
      requires Valid() && idx < FLIGHT && view.slots[idx] == None && RingOk(view.(slots := view.slots[idx := Some(p)]))
      requires frag.Valid() && frag.View() == p && frag.Footprint() !! Repr && frag in frag.Footprint()
      requires hasMessage ==> readSeq % FLIGHT != idx
      modifies this`view, this`feet, this`Repr, incoming
      ensures Valid() && Repr == old(Repr) + frag.Footprint() && incoming[idx] == frag
      ensures view == old(view).(slots := old(view).slots[idx := Some(p)])
    {
      incoming[idx] := frag;
      view := view.(slots := view.slots[idx := Some(p)]);
      feet := feet[idx := frag.Footprint()];
      Repr := Repr + frag.Footprint();
    }

    // One fragment of a handshake record.
    method OpenFragment(h: Header, body: seq<byte>) returns (out: Verdict)
      requires Valid() && ValidHeader(h) && |body| == h.len
      modifies Repr
      ensures Valid() && fresh(Repr - old(Repr))
      ensures out == Judge(old(view), h) && view == Absorb(old(view), h, body)
      ensures hasMessage == old(hasMessage) && readSeq == old(readSeq) && epoch == old(epoch) && hasCcs == old(hasCcs)
    {
      if h.off > h.msgLen || h.off + h.len > h.msgLen || h.msgLen > maxLen {
        return Failed(IllegalParameter);
      }
      if epoch == 1 && h.seqNum != readSeq {
        return Failed(UnexpectedMessage);
      }
      if h.seqNum < readSeq || h.seqNum > readSeq + FLIGHT {
        return Ignored;
      }
      var frag, alert := GetIncomingMessage(h);
      if frag == null {
        return Failed(alert);
      }
      Fill(frag, h, body);
      return Taken;
    }

    // Copies the body of a fragment into its message.
    method Fill(frag: HmFragment, h: Header, body: seq<byte>)
      requires Valid() && readSeq <= h.seqNum < readSeq + FLIGHT && frag == incoming[h.seqNum % FLIGHT]
      requires h.off + |body| <= frag.msgLen
      modifies this`view, feet[h.seqNum % FLIGHT]
      ensures Valid() && Slot(old(view), h.seqNum).Some? && |Slot(old(view), h.seqNum).value.bytes| == frag.msgLen
      ensures view == old(view).(slots := old(view).slots[h.seqNum % FLIGHT := Some(Add(Slot(old(view), h.seqNum).value, h.off, body))])
    {
      var idx := h.seqNum % FLIGHT;
      assert Holds(incoming[idx], feet[idx], view.slots[idx]) && InPlace(view, idx, frag.seqNum);
      SameSlot(readSeq, frag.seqNum, h.seqNum);
      PutKeepsRing(view, Add(frag.View(), h.off, body));
      frag.Receive(h.off, body);
      view := view.(slots := view.slots[idx := Some(frag.View())]);
    }

    // dtls1_open_handshake on the contents of a record of any type.
    method OpenHandshake(typ: byte, record: seq<byte>, nullCipher: bool) returns (out: Opened)
      requires Valid()
      modifies Repr
      ensures Valid() && fresh(Repr - old(Repr))
      ensures (Now(), out) == Opens(old(Now()), typ, record, nullCipher)
    {
      if typ == SSL3_RT_APPLICATION_DATA {
        return if nullCipher then Error(UnexpectedMessage) else Discard;
      }
      if typ == SSL3_RT_CHANGE_CIPHER_SPEC {
        if !nullCipher {
          return Error(UnexpectedMessage);
        }
        if |record| != 1 || record[0] != SSL3_MT_CCS {
          return Error(IllegalParameter);
        }
        hasCcs := true;
        return Success;
      }
      if typ != SSL3_RT_HANDSHAKE {
        return Error(UnexpectedMessage);
      }
      out := OpenFragments(record);
    }

    // The loop of dtls1_open_handshake.
    method OpenFragments(record: seq<byte>) returns (out: Opened)
      requires Valid()
      modifies Repr
      ensures Valid() && fresh(Repr - old(Repr))
      ensures readSeq == old(readSeq) && epoch == old(epoch) && hasMessage == old(hasMessage) && hasCcs == old(hasCcs)
      ensures view == AbsorbAll(old(view), record).0
      ensures out == (if AbsorbAll(old(view), record).1 == None then Success else Error(AbsorbAll(old(view), record).1.value))
    {
      var rest := record;
      while rest != []
        invariant Valid() && fresh(Repr - old(Repr))
        invariant readSeq == old(readSeq) && epoch == old(epoch) && hasMessage == old(hasMessage) && hasCcs == old(hasCcs)
        invariant AbsorbAll(old(view), record) == AbsorbAll(view, rest)
        decreases |rest|
      {
        ParsedHeader(rest);
        var p := ParseFragment(rest);
        if p.Fail? {
          return Error(DecodeError);
        }
        var v := OpenFragment(p.value.0, p.value.1);
        if v.Failed? {
          return Error(v.alert);
        }
        rest := p.rest;
      }
      return Success;
    }

    // dtls1_get_message.
    method GetMessage() returns (ok: bool, typ: nat, body: seq<byte>, raw: seq<byte>)
      requires Valid()
      modifies this`hasMessage
      ensures Valid() && ok == CurrentComplete(view) && Now() == old(Now()).(hasMessage := old(hasMessage) || ok)
      ensures ok ==> var p := Slot(view, readSeq).value; typ == p.typ && body == p.bytes
      ensures ok ==> raw == FragmentBytes(Header(typ, |body|, readSeq, 0, |body|), body)
    {
      var idx := readSeq % FLIGHT;
      assert Holds(incoming[idx], feet[idx], view.slots[idx]);
      var frag := incoming[idx];
      if frag == null || frag.reassembly != null {
        return false, 0, [], [];
      }
      assert InPlace(view, idx, frag.seqNum);
      SameSlot(readSeq, frag.seqNum, readSeq);
      hasMessage := true;
      ok, typ, body, raw := true, frag.typ, frag.data[HEADER_LENGTH..], frag.data[..];
      assert raw == raw[..HEADER_LENGTH] + body;
    }

    // dtls1_next_message.
    method NextMessage()
      requires Valid() && hasMessage
      modifies this, incoming
      ensures Valid() && fresh(Repr - old(Repr))
      ensures Now() == old(Now()).(view := Advance(old(view)), hasMessage := false)
    {
      AdvanceKeepsRing(view);
      var index := readSeq % FLIGHT;
      view := Advance(view);
      feet := feet[index := {}];
      incoming[index] := null;
      readSeq := (readSeq + 1) % SEQUENCES;
      hasMessage := false;
    }

    // The end of dtls1_open_change_cipher_spec: a ChangeCipherSpec that waits is taken.
    method OpenChangeCipherSpec() returns (ok: bool)
      requires Valid()
      modifies this`hasCcs
      ensures Valid() && ok == old(hasCcs) && Now() == old(Now()).(hasCcs := false)
    {
      if hasCcs {
        hasCcs := false;
        return true;
      }
      return false;
    }

    // dtls_has_unprocessed_handshake_data.
    method HasUnprocessed() returns (r: bool)
      requires Valid()
      ensures r <==> Unprocessed(Now())
    {
      if hasCcs {
        return true;
      }
      var current := readSeq % FLIGHT;
      var i := 0;
      while i < FLIGHT
        invariant i <= FLIGHT
        invariant forall k :: 0 <= k < i && !(hasMessage && k == current) ==> view.slots[k] == None
      {
        assert Holds(incoming[i], feet[i], view.slots[i]);
        if !(hasMessage && i == current) && incoming[i] != null {
          return true;
        }
        i := i + 1;
      }
      return false;
    }

    // dtls1_set_read_state; the new cipher and the replay window are those of RecordReader.
    method SetReadState() returns (ok: bool)
      requires Valid()
      modifies this`epoch, this`view
      ensures Valid() && (ok <==> !Unprocessed(old(Now())))
      ensures Now() == if ok then old(Now()).(view := old(view).(epoch := (old(epoch) + 1) % SEQUENCES)) else old(Now())
    {
      var unprocessed := HasUnprocessed();
      if unprocessed {
        return false;
      }
      epoch := (epoch + 1) % SEQUENCES;
      view := view.(epoch := epoch);
      return true;
    }
  }

  // Two numbers in one window share a slot only if they are equal.
  lemma SameSlot(base: nat, a: nat, b: nat)
    requires base <= a < base + FLIGHT && base <= b < base + FLIGHT && a % FLIGHT == b % FLIGHT
    ensures a == b
  {
  }
}
