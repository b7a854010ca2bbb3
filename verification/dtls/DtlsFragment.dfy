// Handshake fragments of DTLS (section 4.2.2 of RFC 6347): their wire form, and the buffer
// with its bitmap in which one message is put together.

module DtlsFragment {
  import opened Basics
  import opened BigEndian

  const HEADER_LENGTH := 12

  // struct hm_header_st.
  datatype Header = Header(typ: nat, msgLen: nat, seqNum: nat, off: nat, len: nat)

  predicate ValidHeader(h: Header) {
    h.typ < 0x100 && h.msgLen < 0x100_0000 && h.seqNum < 0x1_0000 && h.off < 0x100_0000 && h.len < 0x100_0000
  }

  function HeaderBytes(h: Header): (r: seq<byte>)
    ensures |r| == HEADER_LENGTH
  {
    ToBE(h.typ, 1) + (ToBE(h.msgLen, 3) + (ToBE(h.seqNum, 2) + (ToBE(h.off, 3) + ToBE(h.len, 3))))
  }

  function FragmentBytes(h: Header, body: seq<byte>): (r: seq<byte>)
    ensures |r| == HEADER_LENGTH + |body|
  {
    HeaderBytes(h) + body
  }

  function ParseHeader(s: seq<byte>): (p: Parse<Header>)
    ensures p.Done? ==> |p.rest| + HEADER_LENGTH == |s|
  {
    var t := ReadBE(s, 1);
    if t.Fail? then Fail else
    var l := ReadBE(t.rest, 3);
    if l.Fail? then Fail else
    var q := ReadBE(l.rest, 2);
    if q.Fail? then Fail else
    var o := ReadBE(q.rest, 3);
    if o.Fail? then Fail else
    var n := ReadBE(o.rest, 3);
    if n.Fail? then Fail else Done(Header(t.value, l.value, q.value, o.value, n.value), n.rest)
  }

  // dtls1_parse_fragment.
  function ParseFragment(s: seq<byte>): (p: Parse<(Header, seq<byte>)>)
    ensures p.Done? ==> |p.value.1| == p.value.0.len && HEADER_LENGTH + |p.value.1| + |p.rest| == |s|
  {
    var h := ParseHeader(s);
    if h.Fail? || |h.rest| < h.value.len then Fail
    else Done((h.value, h.rest[..h.value.len]), h.rest[h.value.len..])
  }

  lemma HeaderRoundTrip(h: Header, rest: seq<byte>)
    requires ValidHeader(h)
    ensures ParseHeader(HeaderBytes(h) + rest) == Done(h, rest)
  {
    var n := ToBE(h.len, 3) + rest;
    var o := ToBE(h.off, 3) + n;
    var q := ToBE(h.seqNum, 2) + o;
    var l := ToBE(h.msgLen, 3) + q;
    assert HeaderBytes(h) + rest == ToBE(h.typ, 1) + l;
    assert Bound(1) == 0x100 && Bound(2) == 0x1_0000 && Bound(3) == 0x100_0000;
    ReadsBack(h.typ, 1, l);
    ReadsBack(h.msgLen, 3, q);
    ReadsBack(h.seqNum, 2, o);
    ReadsBack(h.off, 3, n);
    ReadsBack(h.len, 3, rest);
  }

  // The parser undoes the writer and stops at the end of the fragment.
  lemma FragmentRoundTrip(h: Header, body: seq<byte>, rest: seq<byte>)
    requires ValidHeader(h) && |body| == h.len
    ensures ParseFragment(FragmentBytes(h, body) + rest) == Done((h, body), rest)
  {
    HeaderRoundTrip(h, body + rest);
    assert FragmentBytes(h, body) + rest == HeaderBytes(h) + (body + rest);
    assert (body + rest)[..|body|] == body && (body + rest)[|body|..] == rest;
  }

  // Whatever is parsed fits the fields of the header.
  lemma ParsedHeader(s: seq<byte>)
    ensures ParseFragment(s).Done? ==> ValidHeader(ParseFragment(s).value.0)
  {
    var t := ReadBE(s, 1);
    if t.Done? {
      var l := ReadBE(t.rest, 3);
      ReadBounds(s, 1); ReadBounds(t.rest, 3);
      if l.Done? {
        var q := ReadBE(l.rest, 2);
        ReadBounds(l.rest, 2);
        if q.Done? {
          var o := ReadBE(q.rest, 3);
          ReadBounds(q.rest, 3);
          if o.Done? { ReadBounds(o.rest, 3); }
        }
      }
    }
  }

  lemma ReadBounds(s: seq<byte>, n: nat)
    requires n <= 3
    ensures ReadBE(s, n).Done? ==> ReadBE(s, n).value < Bound(n)
    ensures Bound(1) == 0x100 && Bound(2) == 0x1_0000 && Bound(3) == 0x100_0000
  {
    if n <= |s| { BytesRoundTrip(s[..n]); }
  }
}
