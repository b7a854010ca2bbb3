// Handshake messages on the wire, and the receiver that puts them together again from
// records, wherever those are cut.

module TlsFraming {
  import opened Basics
  import opened BigEndian
  import opened SslConstants

  const HEADER := 4

  datatype Message = Message(typ: byte, body: seq<byte>)

  // The length of a body has 24 bits.
  predicate Fits(m: Message) { |m.body| < 0x100_0000 }

  ghost predicate AllFit(ms: seq<Message>) { forall m :: m in ms ==> Fits(m) }

  // ssl3_init_message and ssl3_finish_message.
  function Bytes(m: Message): (r: seq<byte>)
    ensures |r| == HEADER + |m.body|
  {
    [m.typ] + (ToBE(|m.body|, 3) + m.body)
  }

  // A whole message, or how many bytes the buffer must have before there can be one.
  datatype Parsed = Whole(msg: Message, rest: seq<byte>) | Needs(n: nat)

  // parse_message.
  function ParseMessage(s: seq<byte>): (p: Parsed)
    ensures p.Whole? ==> HEADER + |p.msg.body| + |p.rest| == |s|
    ensures p.Needs? ==> p.n > |s|
  {
    if |s| < HEADER then Needs(HEADER)
    else
      var len := FromBE(s[1..HEADER]);
      if |s| - HEADER < len then Needs(HEADER + len)
      else Whole(Message(s[0], s[HEADER..HEADER + len]), s[HEADER + len..])
  }

  // The parser undoes the writer and stops at the end of the message.
  lemma MessageRoundTrip(m: Message, rest: seq<byte>)
    requires Fits(m)
    ensures ParseMessage(Bytes(m) + rest) == Whole(m, rest)
  {
    var s := Bytes(m) + rest;
    assert s == [m.typ] + (ToBE(|m.body|, 3) + (m.body + rest));
    assert s[1..HEADER] == ToBE(|m.body|, 3);
    assert Bound(3) == 0x100_0000;
    NumberRoundTrip(|m.body|, 3);
    assert s[HEADER..HEADER + |m.body|] == m.body && s[HEADER + |m.body|..] == rest;
  }

  // Part of a message is no message, and says no more than the message needs.
  lemma PartOfMessage(m: Message, s: seq<byte>)
    requires Fits(m) && s <= Bytes(m) && |s| < |Bytes(m)|
    ensures ParseMessage(s).Needs? && ParseMessage(s).n <= HEADER + |m.body|
  {
    if |s| >= HEADER {
      assert s[1..HEADER] == Bytes(m)[1..HEADER] == ToBE(|m.body|, 3);
      assert Bound(3) == 0x100_0000;
      NumberRoundTrip(|m.body|, 3);
    }
  }

  // The bytes of a list of messages, one after the other.
  function Stream(ms: seq<Message>): seq<byte> {
    if ms == [] then [] else Bytes(ms[0]) + Stream(ms[1..])
  }

  lemma {:induction false} StreamMore(ms: seq<Message>, m: Message)
    ensures Stream(ms + [m]) == Stream(ms) + Bytes(m)
  {
    if ms == [] {
      assert Stream([m]) == Bytes(m) + Stream([]);
    } else {
      StreamMore(ms[1..], m);
      assert (ms + [m])[0] == ms[0] && (ms + [m])[1..] == ms[1..] + [m];
    }
  }

  // The first bytes of a stream hold its first message, or none yet.
  lemma FirstOfStream(ms: seq<Message>, s: seq<byte>)
    requires AllFit(ms) && s <= Stream(ms)
    ensures var p := ParseMessage(s);
            if p.Whole? then ms != [] && p.msg == ms[0] && p.rest <= Stream(ms[1..]) && s == Bytes(p.msg) + p.rest
            else s == [] || (ms != [] && s <= Bytes(ms[0]) && |s| < |Bytes(ms[0])| && p.n <= HEADER + |ms[0].body|)
  {
    if ms != [] {
      var first, more := Bytes(ms[0]), Stream(ms[1..]);
      assert ms[0] in ms;
      if |s| < |first| {
        assert s <= first;
        PartOfMessage(ms[0], s);
      } else {
        var rest := s[|first|..];
        assert s == first + rest && rest <= more;
        MessageRoundTrip(ms[0], rest);
      }
    }
  }

  // --- The receiver ---

  datatype AlertCode = NoAlert | InternalError | IllegalParameter | UnexpectedMessage

  class HandshakeReader {
    // hs_buf.
    var hsBuf: Option<seq<byte>>
    var hasMessage: bool

    ghost function Contents(): seq<byte>
      reads this
    {
      if hsBuf.Some? then hsBuf.value else []
    }

    // Whoever has seen a message has a whole one.
    ghost predicate Valid()
      reads this
    {
      hasMessage ==> ParseMessage(Contents()).Whole?
    }

    constructor ()
      ensures Valid() && Contents() == [] && !hasMessage
    {
      hsBuf, hasMessage := None, false;
    }

    method Parse() returns (p: Parsed)
      ensures p == ParseMessage(Contents())
    {
      p := if hsBuf == None then Needs(HEADER) else ParseMessage(hsBuf.value);
    }

    // ssl3_get_message.
    method GetMessage() returns (ok: bool, msg: Message)
      modifies this`hasMessage
      ensures ok == ParseMessage(Contents()).Whole? && (ok ==> msg == ParseMessage(Contents()).msg)
      ensures hasMessage == (old(hasMessage) || ok)
    {
      var p := Parse();
      ok, msg := p.Whole?, Message(0, []);
      if ok {
        msg, hasMessage := p.msg, true;
      }
    }

    // tls_can_accept_handshake_data: no whole message is waiting and the next is not too long.
    method CanAccept(maxLen: nat) returns (ok: bool, alert: AlertCode)
      ensures ok <==> ParseMessage(Contents()).Needs? && ParseMessage(Contents()).n <= HEADER + maxLen
      ensures alert == if ok then NoAlert else if ParseMessage(Contents()).Whole? then InternalError else IllegalParameter
    {
      var p := Parse();
      if p.Whole? {
        return false, InternalError;
      }
      if p.n > HEADER + maxLen {
        return false, IllegalParameter;
      }
      ok, alert := true, NoAlert;
    }

    // tls_has_unprocessed_handshake_data: anything but the message seen.
    method HasUnprocessed() returns (r: bool)
      requires Valid()
      ensures r <==> if hasMessage then ParseMessage(Contents()).rest != [] else Contents() != []
    {
      var length := 0;
      if hasMessage {
        var p := Parse();
        if p.Whole? {
          length := HEADER + |p.msg.body|;
        }
      }
      r := hsBuf.Some? && |hsBuf.value| > length;
    }

    // ssl3_open_handshake, after tls_can_accept_handshake_data and with the record opened.
    method OpenHandshake(typ: byte, body: seq<byte>, maxLen: nat, server: bool, nullCipher: bool)
      returns (ok: bool, alert: AlertCode)
      requires Valid()
      modifies this`hsBuf
      ensures ok <==> typ == SSL3_RT_HANDSHAKE && ParseMessage(old(Contents())).Needs?
                      && ParseMessage(old(Contents())).n <= HEADER + maxLen
      ensures Contents() == if ok then old(Contents()) + body else old(Contents())
      ensures Valid() && (ok <==> alert == NoAlert)
    {
      if hsBuf == None {
        hsBuf := Some([]);
      }
      ok, alert := CanAccept(maxLen);
      if !ok {
        return;
      }
      if !server && typ == SSL3_RT_APPLICATION_DATA && nullCipher {
        return false, UnexpectedMessage;
      }
      if typ != SSL3_RT_HANDSHAKE {
        return false, UnexpectedMessage;
      }
      hsBuf := Some(hsBuf.value + body);
    }

    // ssl3_next_message. After the handshake an empty buffer is released.
    method NextMessage(inInit: bool)
      requires ParseMessage(Contents()).Whole?
      modifies this
      ensures Valid() && !hasMessage && Contents() == ParseMessage(old(Contents())).rest
    {
      var ok, msg := GetMessage();
      hsBuf := Some(hsBuf.value[HEADER + |msg.body|..]);
      hasMessage := false;
      if !inInit && |hsBuf.value| == 0 {
        hsBuf := None;
      }
    }
  }
}
