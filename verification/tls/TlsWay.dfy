// One direction of a connection in bytes: the records that a flight is sealed into, those on
// the wire, and the part of a message that the reader holds. It carries the same messages.

module TlsWay {
  import opened Basics
  import opened SslConstants
  import opened SealedRecords
  import opened TlsMessages
  import opened TlsFraming
  import opened TlsFlightWriter
  import opened TlsSends
  import opened BigEndian

  // How messages are written and parsed. The writer knows the message, the parser its sender.
  datatype Codec = Codec(enc: Msg -> Message, dec: (Message, bool) -> Msg)

  // Every message that can be sent is parsed as what it was.
  ghost predicate RightCodec(k: Codec, x: Crypto) {
    && (forall m: Msg :: Sendable(x, m) && m.kind != ChangeCipherSpec ==> Writes(k, m))
    && (forall b: Message, server: bool :: k.dec(b, server).kind != ChangeCipherSpec)
  }

  predicate Writes(k: Codec, m: Msg) { Fits(k.enc(m)) && k.dec(k.enc(m), m.fromServer) == m }

  function Ccs(server: bool): Msg { Msg(ChangeCipherSpec, server, 0) }

  // --- Reading ---

  // The whole messages at the front of a buffer, and what follows them.
  function Front(k: Codec, server: bool, b: seq<byte>): seq<Msg>
    decreases |b|
  {
    var p := ParseMessage(b);
    if p.Needs? then [] else [k.dec(p.msg, server)] + Front(k, server, p.rest)
  }

  function Rest(b: seq<byte>): (r: seq<byte>)
    ensures ParseMessage(r).Needs?
    decreases |b|
  {
    var p := ParseMessage(b);
    if p.Needs? then b else Rest(p.rest)
  }

  // What a reader that holds these bytes makes of the records.
  function Decoded(k: Codec, server: bool, held: seq<byte>, r: seq<Record>): seq<Msg>
    decreases |r|
  {
    if r == [] then []
    else if r[0].typ == SSL3_RT_CHANGE_CIPHER_SPEC then [Ccs(server)] + Decoded(k, server, held, r[1..])
    else Front(k, server, held + r[0].plain) + Decoded(k, server, Rest(held + r[0].plain), r[1..])
  }

  function Left(held: seq<byte>, r: seq<Record>): seq<byte>
    decreases |r|
  {
    if r == [] then held
    else if r[0].typ == SSL3_RT_CHANGE_CIPHER_SPEC then Left(held, r[1..])
    else Left(Rest(held + r[0].plain), r[1..])
  }

  // No record is empty, and a ChangeCipherSpec comes between messages.
  ghost predicate Fine(held: seq<byte>, r: seq<Record>)
    decreases |r|
  {
    r == [] ||
      if r[0].typ == SSL3_RT_CHANGE_CIPHER_SPEC then held == [] && Fine(held, r[1..])
      else r[0].typ == SSL3_RT_HANDSHAKE && r[0].plain != [] && Fine(Rest(held + r[0].plain), r[1..])
  }

  lemma {:induction false} DecodedBoth(k: Codec, server: bool, held: seq<byte>, a: seq<Record>, b: seq<Record>)
    ensures Decoded(k, server, held, a + b) == Decoded(k, server, held, a) + Decoded(k, server, Left(held, a), b)
    ensures Left(held, a + b) == Left(Left(held, a), b)
    ensures Fine(held, a + b) <==> Fine(held, a) && Fine(Left(held, a), b)
    decreases |a|
  {
    if a == [] {
      assert a + b == b;
    } else {
      var next := if a[0].typ == SSL3_RT_CHANGE_CIPHER_SPEC then held else Rest(held + a[0].plain);
      assert (a + b)[0] == a[0] && (a + b)[1..] == a[1..] + b;
      DecodedBoth(k, server, next, a[1..], b);
    }
  }

  // Whoever has records left to read has a message left to read, if nothing remains after them.
  lemma {:induction false} SomethingLeft(k: Codec, server: bool, held: seq<byte>, r: seq<Record>)
    requires r != [] && Fine(held, r) && Left(held, r) == []
    ensures Decoded(k, server, held, r) != []
    decreases |r|
  {
    if r[0].typ != SSL3_RT_CHANGE_CIPHER_SPEC {
      var b := held + r[0].plain;
      assert b != [];
      if ParseMessage(b).Needs? {
        assert r[1..] != [];
        SomethingLeft(k, server, Rest(b), r[1..]);
      }
    }
  }

  // --- Writing ---

  function SealOne(s: Sealed, m: Msg, k: Codec, fragment: nat, cipher: Cipher): Sealed
    requires fragment > 0
  {
    if m.kind == ChangeCipherSpec then Seal(s, SSL3_RT_CHANGE_CIPHER_SPEC, [SSL3_MT_CCS], cipher)
    else SealMessage(s, Bytes(k.enc(m)), fragment, cipher)
  }

  // The messages of a flight, each in records of its own.
  function SealAll(s: Sealed, ms: seq<Msg>, k: Codec, fragment: nat, cipher: Cipher): Sealed
    requires fragment > 0
    decreases |ms|
  {
    if ms == [] then s else SealAll(SealOne(s, ms[0], k, fragment, cipher), ms[1..], k, fragment, cipher)
  }

  // A cipher that does not fail.
  ghost predicate Sure(c: Cipher) { forall n: nat :: c(n).Some? }

  // The records are read as the messages, and nothing of a message remains after them.
  ghost predicate Brings(k: Codec, server: bool, held: seq<byte>, r: seq<Record>, ms: seq<Msg>) {
    Decoded(k, server, held, r) == ms && Left(held, r) == [] && Fine(held, r)
  }

  // The records that a message is cut into are read as that message, however it is cut.
  lemma {:induction false} CutDecodes(s: Sealed, done: seq<byte>, rest: seq<byte>, m: Message,
                                      k: Codec, server: bool, fragment: nat, cipher: Cipher) returns (q: seq<Record>)
    requires fragment > 0 && Sure(cipher) && Fits(m) && done + rest == Bytes(m) && rest != []
    ensures var t := SealMessage(s, rest, fragment, cipher); t.ok && t.records == s.records + q
    ensures Brings(k, server, done, q, [k.dec(m, server)])
    decreases |rest|
  {
    var n := Smaller(|rest|, fragment);
    var t := Seal(s, SSL3_RT_HANDSHAKE, rest[..n], cipher);
    var x := ChunkSealed(s, rest[..n], cipher);
    var b := done + rest[..n];
    assert b + rest[n..] == Bytes(m);
    if rest[n..] == [] {
      q := [x];
      assert b == Bytes(m);
      LastChunk(done, x, m, k, server);
    } else {
      NotYet(m, b, rest[n..]);
      var more := CutDecodes(t, b, rest[n..], m, k, server, fragment, cipher);
      q := [x] + more;
      NextChunk(done, x, more, k, server, [k.dec(m, server)]);
      assert t.records + more == s.records + q;
    }
  }

  lemma ChunkSealed(s: Sealed, data: seq<byte>, cipher: Cipher) returns (x: Record)
    requires Sure(cipher)
    ensures var t := Seal(s, SSL3_RT_HANDSHAKE, data, cipher); t.ok && t.records == s.records + [x]
    ensures x.typ == SSL3_RT_HANDSHAKE && x.plain == data
  {
    assert cipher(s.calls).Some?;
    x := Record(SSL3_RT_HANDSHAKE, data, cipher(s.calls).value);
  }

  lemma {:induction false} NotYet(m: Message, b: seq<byte>, more: seq<byte>)
    requires Fits(m) && b + more == Bytes(m) && more != []
    ensures ParseMessage(b).Needs?
  {
    assert b == Bytes(m)[..|b|];
    PartOfMessage(m, b);
  }

  lemma {:induction false} LastChunk(done: seq<byte>, x: Record, m: Message, k: Codec, server: bool)
    requires Fits(m) && x.typ == SSL3_RT_HANDSHAKE && x.plain != [] && done + x.plain == Bytes(m)
    ensures Brings(k, server, done, [x], [k.dec(m, server)])
  {
    MessageEnds(m, k, server);
    assert [x][1..] == [];
  }

  lemma {:induction false} NextChunk(done: seq<byte>, x: Record, more: seq<Record>, k: Codec, server: bool, ms: seq<Msg>)
    requires x.typ == SSL3_RT_HANDSHAKE && x.plain != [] && ParseMessage(done + x.plain).Needs?
    requires Brings(k, server, done + x.plain, more, ms)
    ensures Brings(k, server, done, [x] + more, ms)
  {
    assert ([x] + more)[1..] == more;
  }

  lemma MessageEnds(m: Message, k: Codec, server: bool)
    requires Fits(m)
    ensures Front(k, server, Bytes(m)) == [k.dec(m, server)] && Rest(Bytes(m)) == []
  {
    MessageRoundTrip(m, []);
    assert Bytes(m) + [] == Bytes(m);
  }

  // The codec is right for this message.
  predicate Goes(k: Codec, m: Msg) { if m.kind == ChangeCipherSpec then m.body == 0 else Writes(k, m) }

  lemma OneDecodes(s: Sealed, m: Msg, k: Codec, fragment: nat, cipher: Cipher) returns (q: seq<Record>)
    requires fragment > 0 && Sure(cipher) && Goes(k, m)
    ensures SealOne(s, m, k, fragment, cipher).records == s.records + q
    ensures Brings(k, m.fromServer, [], q, [m])
  {
    if m.kind == ChangeCipherSpec {
      assert cipher(s.calls).Some?;
      q := [Record(SSL3_RT_CHANGE_CIPHER_SPEC, [SSL3_MT_CCS], cipher(s.calls).value)];
      assert q[1..] == [];
    } else {
      assert [] + Bytes(k.enc(m)) == Bytes(k.enc(m));
      q := CutDecodes(s, [], Bytes(k.enc(m)), k.enc(m), k, m.fromServer, fragment, cipher);
    }
  }

  ghost predicate AllGo(k: Codec, server: bool, ms: seq<Msg>) {
    forall i :: 0 <= i < |ms| ==> ms[i].fromServer == server && Goes(k, ms[i])
  }

  lemma {:induction false} RestGoes(k: Codec, server: bool, ms: seq<Msg>)
    requires AllGo(k, server, ms) && ms != []
    ensures ms[0].fromServer == server && Goes(k, ms[0]) && AllGo(k, server, ms[1..]) && ms == [ms[0]] + ms[1..]
  {
  }

  lemma {:induction false} AllDecode(s: Sealed, ms: seq<Msg>, k: Codec, server: bool, fragment: nat, cipher: Cipher)
    returns (q: seq<Record>)
    requires fragment > 0 && Sure(cipher) && AllGo(k, server, ms)
    ensures SealAll(s, ms, k, fragment, cipher).records == s.records + q
    ensures Brings(k, server, [], q, ms)
    decreases |ms|
  {
    if ms == [] {
      q := [];
    } else {
      var m, rest := ms[0], ms[1..];
      RestGoes(k, server, ms);
      var first := OneDecodes(s, m, k, fragment, cipher);
      var t := SealOne(s, m, k, fragment, cipher);
      var more := AllDecode(t, rest, k, server, fragment, cipher);
      JoinDecodes(k, server, first, [m], more, rest);
      q := first + more;
      assert t.records + more == s.records + q;
    }
  }

  // What is sealed one after the other is read one after the other.
  lemma {:induction false} JoinDecodes(k: Codec, server: bool, a: seq<Record>, ms: seq<Msg>, b: seq<Record>, more: seq<Msg>)
    requires Brings(k, server, [], a, ms) && Brings(k, server, [], b, more)
    ensures Brings(k, server, [], a + b, ms + more)
  {
    DecodedBoth(k, server, [], a, b);
  }

  // --- One direction ---

  // The records of the flight not yet written, the seals made, the records on the wire, and
  // what the reader holds of a message.
  datatype Way = Way(pending: seq<Record>, calls: nat, wire: seq<Record>, held: seq<byte>)

  const EMPTY_WAY := Way([], 0, [], [])

  // Everything sealed ends with a whole message, and out is what the flight still has to bring.
  ghost predicate WayOk(k: Codec, server: bool, w: Way, out: seq<Msg>) {
    && ParseMessage(w.held).Needs? && Fine(w.held, w.wire + w.pending) && Left(w.held, w.wire + w.pending) == []
    && out == Decoded(k, server, Left(w.held, w.wire), w.pending)
  }

  // The messages on the wire.
  function Channel(k: Codec, server: bool, w: Way): seq<Msg> { Decoded(k, server, w.held, w.wire) }

  function Added(w: Way, ms: seq<Msg>, k: Codec, fragment: nat, cipher: Cipher): Way
    requires fragment > 0
  {
    var t := SealAll(Sealed(w.pending, w.calls, true), ms, k, fragment, cipher);
    w.(pending := t.records, calls := t.calls)
  }

  lemma {:induction false} AddedOk(w: Way, out: seq<Msg>, ms: seq<Msg>, x: Crypto, k: Codec, server: bool, fragment: nat, cipher: Cipher)
    requires WayOk(k, server, w, out) && fragment > 0 && Sure(cipher) && RightCodec(k, x)
    requires forall m :: m in ms ==> m.fromServer == server && Sendable(x, m)
    ensures WayOk(k, server, Added(w, ms, k, fragment, cipher), out + ms)
  {
    forall i | 0 <= i < |ms| ensures ms[i].fromServer == server && Goes(k, ms[i]) {
      assert ms[i] in ms && Sendable(x, ms[i]);
    }
    var q := AllDecode(Sealed(w.pending, w.calls, true), ms, k, server, fragment, cipher);
    var at := Left(w.held, w.wire);
    DecodedBoth(k, server, w.held, w.wire, w.pending);
    DecodedBoth(k, server, w.held, w.wire, w.pending + q);
    DecodedBoth(k, server, at, w.pending, q);
  }

  function Moved(w: Way, n: nat): Way
    requires n <= |w.pending|
  {
    w.(pending := w.pending[n..], wire := w.wire + w.pending[..n])
  }

  // The messages that are wholly on the wire with the next n records.
  function Count(k: Codec, server: bool, w: Way, n: nat): nat
    requires n <= |w.pending|
  {
    |Decoded(k, server, Left(w.held, w.wire), w.pending[..n])|
  }

  // Writing records moves the messages that they complete.
  lemma {:induction false} MovedOk(w: Way, out: seq<Msg>, n: nat, k: Codec, server: bool)
    requires WayOk(k, server, w, out) && n <= |w.pending|
    ensures var c, v := Count(k, server, w, n), Moved(w, n);
            && c <= |out| && WayOk(k, server, v, out[c..]) && (v.pending == [] <==> c == |out|)
            && Channel(k, server, v) == Channel(k, server, w) + out[..c]
  {
    var at, a, b := Left(w.held, w.wire), w.pending[..n], w.pending[n..];
    assert w.pending == a + b;
    SplitAt(w.held, w.wire, a, b, k, server);
    var d, more := Decoded(k, server, at, a), Decoded(k, server, Left(at, a), b);
    assert out == d + more && out[..|d|] == d && out[|d|..] == more;
    if b != [] { SomethingLeft(k, server, Left(at, a), b); }
  }

  lemma {:induction false} SplitAt(held: seq<byte>, wire: seq<Record>, a: seq<Record>, b: seq<Record>, k: Codec, server: bool)
    ensures var at := Left(held, wire);
            && Decoded(k, server, at, a + b) == Decoded(k, server, at, a) + Decoded(k, server, Left(at, a), b)
            && Decoded(k, server, held, wire + a) == Decoded(k, server, held, wire) + Decoded(k, server, at, a)
            && Left(held, wire + a) == Left(at, a) && Left(held, wire + (a + b)) == Left(Left(at, a), b)
    ensures wire + (a + b) == (wire + a) + b
    ensures Fine(held, wire + (a + b)) <==> Fine(held, wire + a) && Fine(Left(Left(held, wire), a), b)
  {
    DecodedBoth(k, server, Left(held, wire), a, b);
    DecodedBoth(k, server, held, wire, a);
    DecodedBoth(k, server, held, wire + a, b);
    assert wire + (a + b) == (wire + a) + b;
  }

  // The next record is read: the messages it completes, and what the reader then holds.
  function Opened(k: Codec, server: bool, w: Way): seq<Msg>
    requires w.wire != []
  {
    if w.wire[0].typ == SSL3_RT_CHANGE_CIPHER_SPEC then [Ccs(server)] else Front(k, server, w.held + w.wire[0].plain)
  }

  function AfterOpen(w: Way): Way
    requires w.wire != []
  {
    w.(wire := w.wire[1..],
       held := if w.wire[0].typ == SSL3_RT_CHANGE_CIPHER_SPEC then w.held else Rest(w.held + w.wire[0].plain))
  }

  lemma {:induction false} FrontKinds(k: Codec, server: bool, b: seq<byte>, x: Crypto)
    requires RightCodec(k, x)
    ensures forall m :: m in Front(k, server, b) ==> m.kind != ChangeCipherSpec
    decreases |b|
  {
    var p := ParseMessage(b);
    if p.Whole? { FrontKinds(k, server, p.rest, x); }
  }

  lemma {:induction false} OpenedOk(w: Way, out: seq<Msg>, k: Codec, server: bool, x: Crypto)
    requires WayOk(k, server, w, out) && w.wire != [] && RightCodec(k, x)
    ensures var v, ms := AfterOpen(w), Opened(k, server, w);
            && WayOk(k, server, v, out) && Channel(k, server, w) == ms + Channel(k, server, v)
            && ((ms == [Ccs(server)] && v.held == []) || forall m :: m in ms ==> m.kind != ChangeCipherSpec)
  {
    var all := w.wire + w.pending;
    assert all[0] == w.wire[0] && all[1..] == w.wire[1..] + w.pending;
    if w.wire[0].typ != SSL3_RT_CHANGE_CIPHER_SPEC { FrontKinds(k, server, w.held + w.wire[0].plain, x); }
  }

  // --- A codec ---

  // The kinds in the order they are declared, and the body as n bytes.
  function KindOf(typ: byte): Kind {
    match typ
    case 0 => ClientHello
    case 1 => HelloVerifyRequest
    case 2 => ServerHello
    case 3 => Certificate
    case 4 => CertificateStatus
    case 5 => ServerKeyExchange
    case 6 => CertificateRequest
    case 7 => ServerHelloDone
    case 8 => ClientKeyExchange
    case 9 => CertificateVerify
    case 10 => NextProto
    case 11 => ChannelId
    case 12 => NewSessionTicket
    case 13 => Finished
    case _ => OtherKind
  }

  function TypeOf(k: Kind): byte {
    match k
    case ClientHello => 0
    case HelloVerifyRequest => 1
    case ServerHello => 2
    case Certificate => 3
    case CertificateStatus => 4
    case ServerKeyExchange => 5
    case CertificateRequest => 6
    case ServerHelloDone => 7
    case ClientKeyExchange => 8
    case CertificateVerify => 9
    case NextProto => 10
    case ChannelId => 11
    case NewSessionTicket => 12
    case Finished => 13
    case ChangeCipherSpec => 15
    case OtherKind => 14
  }

  function Plainly(n: nat): Codec {
    Codec((m: Msg) => Message(TypeOf(m.kind), ToBE(m.body, n)),
          (b: Message, server: bool) => Msg(KindOf(b.typ), server, FromBE(b.body)))
  }

  // There is a codec whenever the contents of messages are bounded.
  lemma CodecExists(x: Crypto, n: nat)
    requires n < 0x100_0000
    requires forall k: Kind, server: bool :: x.body(k, server) + 1 < Bound(n)
    requires forall t: seq<Msg>, server: bool, master: nat :: x.mac(t, server, master) < Bound(n)
    ensures RightCodec(Plainly(n), x)
  {
    forall m: Msg | Sendable(x, m) && m.kind != ChangeCipherSpec ensures Writes(Plainly(n), m) {
      assert x.body(m.kind, m.fromServer) + 1 < Bound(n) && x.body(Certificate, m.fromServer) + 1 < Bound(n);
      if m.kind == Finished && VerifyData(x, m) {
        var t, master :| m.body == x.mac(t, m.fromServer, master);
        assert x.mac(t, m.fromServer, master) < Bound(n);
      }
      NumberRoundTrip(m.body, n);
      KindTwice(m.kind);
    }
  }

  lemma KindTwice(k: Kind)
    requires k != ChangeCipherSpec
    ensures KindOf(TypeOf(k)) == k
  {
  }
}
