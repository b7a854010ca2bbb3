// hm_fragment: one handshake message being put together from its fragments.

module DtlsReassembly {
  import opened Basics
  import opened DtlsFragment
  import opened DtlsBitmap
  import Bits

  // A message in part: its header fields, the bytes received so far and the buffer.
  datatype Partial = Partial(typ: nat, seqNum: nat, marked: set<nat>, bytes: seq<byte>)

  // A message no byte of which has arrived.
  function Blank(h: Header): (p: Partial)
    ensures |p.bytes| == h.msgLen
  {
    Partial(h.typ, h.seqNum, {}, seq(h.msgLen, _ => 0))
  }

  function Overwrite(b: seq<byte>, off: nat, x: seq<byte>): (r: seq<byte>)
    requires off + |x| <= |b|
    ensures |r| == |b|
  {
    b[..off] + x + b[off + |x|..]
  }

  // What receiving the bytes x at off does to a message.
  ghost function Add(p: Partial, off: nat, x: seq<byte>): (r: Partial)
    requires off + |x| <= |p.bytes|
  {
    if Whole(p) then p
    else p.(marked := p.marked + Span(off, off + |x|), bytes := Overwrite(p.bytes, off, x))
  }

  ghost predicate Whole(p: Partial) { p.marked == Span(0, |p.bytes|) }

  class HmFragment {
    const typ: nat
    const seqNum: nat
    const msgLen: nat
    const data: array<byte>
    var reassembly: array?<byte>
    ghost var marked: set<nat>

    ghost predicate Valid()
      reads this, data, reassembly
    {
      && ValidHeader(Header(typ, msgLen, seqNum, 0, msgLen))
      && data.Length == HEADER_LENGTH + msgLen
      && data[..HEADER_LENGTH] == HeaderBytes(Header(typ, msgLen, seqNum, 0, msgLen))
      && (forall b :: b in marked ==> b < msgLen)
      && (reassembly == null <==> marked == Span(0, msgLen))
      && (reassembly != null ==>
            reassembly != data && reassembly.Length == (msgLen + 7) / 8 && Shows(reassembly[..], marked))
    }

    ghost function View(): (p: Partial)
      reads this, data
      requires data.Length == HEADER_LENGTH + msgLen
      ensures |p.bytes| == msgLen
    {
      Partial(typ, seqNum, marked, data[HEADER_LENGTH..])
    }

    ghost function Footprint(): set<object>
      reads this
    {
      if reassembly == null then {this, data} else {this, data, reassembly}
    }

    // dtls1_hm_fragment_new.
    constructor (h: Header)
      requires ValidHeader(h)
      ensures Valid() && fresh(Footprint()) && typ == h.typ && seqNum == h.seqNum && msgLen == h.msgLen
      ensures View() == Blank(h)
    {
      typ, seqNum, msgLen, marked := h.typ, h.seqNum, h.msgLen, {};
      var head := HeaderBytes(Header(h.typ, h.msgLen, h.seqNum, 0, h.msgLen));
      var d := new byte[HEADER_LENGTH + h.msgLen](i requires 0 <= i => if i < HEADER_LENGTH then head[i] else 0);
      data := d;
      if h.msgLen > 0 {
        reassembly := new byte[(h.msgLen + 7) / 8](_ => 0);
      } else {
        reassembly := null;
      }
      new;
      assert data[..HEADER_LENGTH] == head;
      assert data[HEADER_LENGTH..] == Blank(h).bytes;
      if reassembly != null {
        NoMarks(reassembly[..]);
        assert 0 in Span(0, msgLen);
      }
    }

    // dtls1_hm_fragment_mark: marks a range of bytes, and frees the bitmap when none is missing.
    method Mark(start: nat, end: nat)
      requires Valid() && reassembly != null && start <= end <= msgLen
      modifies this, reassembly
      ensures Valid() && marked == old(marked) + Span(start, end)
      ensures reassembly == null || reassembly == old(reassembly)
      ensures data[..] == old(data[..])
    {
      if start == end {
        return;
      }
      SetRange(reassembly, start, end, marked);
      marked := marked + Span(start, end);
      var complete := IsComplete(reassembly, msgLen, marked);
      if complete {
        reassembly := null;
      }
    }

    // What dtls1_open_handshake does with the body of a fragment of this message.
    method Receive(off: nat, body: seq<byte>)
      requires Valid() && off + |body| <= msgLen
      modifies Footprint()
      ensures Valid() && View() == old(Add(View(), off, body))
      ensures Footprint() <= old(Footprint())
    {
      if reassembly == null {
        return;
      }
      ghost var before := data[..];
      Copy(off, body);
      assert data[..HEADER_LENGTH] == before[..HEADER_LENGTH];
      Mark(off, off + |body|);
      assert data[HEADER_LENGTH..] == Overwrite(before[HEADER_LENGTH..], off, body);
    }

    // The memcpy into the body of the buffer.
    method Copy(off: nat, body: seq<byte>)
      requires data.Length == HEADER_LENGTH + msgLen && off + |body| <= msgLen
      modifies data
      ensures data[..] == Overwrite(old(data[..]), HEADER_LENGTH + off, body)
    {
      var at := HEADER_LENGTH + off;
      var i := 0;
      while i < |body|
        invariant i <= |body|
        invariant data[..] == Overwrite(old(data[..]), at, body[..i])
      {
        OverwriteMore(old(data[..]), at, body, i);
        data[at + i] := body[i];
        i := i + 1;
      }
      assert body[..i] == body;
    }
  }

  lemma OverwriteMore(b: seq<byte>, off: nat, x: seq<byte>, i: nat)
    requires off + |x| <= |b| && i < |x|
    ensures Overwrite(b, off, x[..i])[off + i := x[i]] == Overwrite(b, off, x[..i + 1])
  {
  }

  lemma NoMarks(bitmap: seq<byte>)
    requires forall k :: 0 <= k < |bitmap| ==> bitmap[k] == 0
    ensures Shows(bitmap, {})
  {
    forall k: nat ensures !Bits.Bit(0, k) { Bits.NoBits(k); }
  }
}
