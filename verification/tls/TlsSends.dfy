// What the two machines send: a step adds messages to the flight, each with the contents its
// sender gives it.

module TlsSends {
  import opened Basics
  import opened TlsMessages
  import C = TlsClient
  import S = TlsServer
  import CSafety = TlsClientSafety
  import SSafety = TlsServerSafety

  // A message with the contents that its sender gives it.
  ghost predicate Sendable(x: Crypto, m: Msg) {
    || (m.kind == ChangeCipherSpec && m.body == 0)
    || (m.kind == Certificate && (m.body == 0 || m.body == x.body(Certificate, m.fromServer) + 1))
    || (m.kind == Finished && VerifyData(x, m))
    || (m.kind != ChangeCipherSpec && m == Plain(x, m.kind, m.fromServer))
  }

  ghost predicate VerifyData(x: Crypto, m: Msg) { exists t, master :: m.body == x.mac(t, m.fromServer, master) }

  // Messages of one end are added to a flight.
  ghost predicate Adds(x: Crypto, fromServer: bool, a: seq<Msg>, b: seq<Msg>) {
    a <= b && forall m :: m in b[|a|..] ==> m.fromServer == fromServer && Sendable(x, m)
  }

  lemma AddsOne(x: Crypto, a: seq<Msg>, b: seq<Msg>, m: Msg)
    requires Adds(x, m.fromServer, a, b) && Sendable(x, m)
    ensures Adds(x, m.fromServer, a, b + [m])
  {
    assert (b + [m])[|a|..] == b[|a|..] + [m];
  }

  lemma AddsPlain(x: Crypto, a: seq<Msg>, io: Io, k: Kind, fromServer: bool)
    requires Adds(x, fromServer, a, io.out) && k != ChangeCipherSpec
    ensures Adds(x, fromServer, a, Send(io, Plain(x, k, fromServer)).out)
  {
    AddsOne(x, a, io.out, Plain(x, k, fromServer));
  }

  lemma AddsCcs(x: Crypto, a: seq<Msg>, io: Io, fromServer: bool)
    requires Adds(x, fromServer, a, io.out)
    ensures Adds(x, fromServer, a, SendCcs(io, fromServer).out)
  {
    AddsOne(x, a, io.out, Msg(ChangeCipherSpec, fromServer, 0));
  }

  lemma AddsFinished(x: Crypto, a: seq<Msg>, io: Io, fromServer: bool, master: nat)
    requires Adds(x, fromServer, a, io.out)
    ensures Adds(x, fromServer, a, SendFinished(x, io, fromServer, master).out)
  {
    var m := Msg(Finished, fromServer, x.mac(io.transcript, fromServer, master));
    assert VerifyData(x, m);
    AddsOne(x, a, io.out, m);
  }

  // At most one message is added, the one given.
  predicate OneOut(a: seq<Msg>, b: seq<Msg>, m: Msg) { b == a || b == a + [m] }

  lemma OneAdds(x: Crypto, a: seq<Msg>, b: seq<Msg>, m: Msg)
    requires OneOut(a, b, m) && Sendable(x, m)
    ensures Adds(x, m.fromServer, a, b)
  {
    AddsOne(x, a, a, m);
  }

  // --- The client ---

  lemma ClientHelloOut(x: Crypto, e: Env, c: C.Client)
    ensures Adds(x, false, c.io.out, C.DoStartConnect(x, e, c).c.io.out)
  {
    OneAdds(x, c.io.out, C.DoStartConnect(x, e, c).c.io.out, Plain(x, ClientHello, false));
  }

  lemma SecondHelloOut(x: Crypto, e: Env, c: C.Client)
    ensures Adds(x, false, c.io.out, C.DoReadHelloVerifyRequest(x, e, c).c.io.out)
  {
    OneAdds(x, c.io.out, C.DoReadHelloVerifyRequest(x, e, c).c.io.out, Plain(x, ClientHello, false));
  }

  lemma CertificateOut(x: Crypto, e: Env, c: C.Client)
    ensures Adds(x, false, c.io.out, C.DoSendClientCertificate(x, e, c).c.io.out)
  {
    OneAdds(x, c.io.out, C.DoSendClientCertificate(x, e, c).c.io.out, CertificateOf(x, c.hasCert, false));
  }

  lemma KeyExchangeOut(x: Crypto, e: Env, c: C.Client)
    ensures Adds(x, false, c.io.out, C.DoSendClientKeyExchange(x, e, c).c.io.out)
  {
    OneAdds(x, c.io.out, C.DoSendClientKeyExchange(x, e, c).c.io.out, Plain(x, ClientKeyExchange, false));
  }

  lemma VerifyOut(x: Crypto, e: Env, c: C.Client)
    ensures Adds(x, false, c.io.out, C.DoSendClientCertificateVerify(x, e, c).c.io.out)
  {
    OneAdds(x, c.io.out, C.DoSendClientCertificateVerify(x, e, c).c.io.out, Plain(x, CertificateVerify, false));
  }

  lemma ClientFlight(x: Crypto, e: Env, c: C.Client)
    ensures Adds(x, false, c.io.out, C.DoSendClientFinished(x, e, c).c.io.out)
  {
    var a := SendCcs(c.io, false);
    var b := if c.f.npn then Send(a, Plain(x, NextProto, false)) else a;
    var d := if c.f.channelId then Send(b, Plain(x, ChannelId, false)) else b;
    AddsCcs(x, c.io.out, c.io, false);
    AddsPlain(x, c.io.out, a, NextProto, false);
    AddsPlain(x, c.io.out, b, ChannelId, false);
    AddsFinished(x, c.io.out, d, false, c.master);
  }

  lemma ClientSilent(x: Crypto, e: Env, c: C.Client)
    requires c.st != C.State.Done && !CSafety.Sends(c.st)
    ensures var r := C.Do(x, e, c); r.wait != Error ==> r.c.io.out == c.io.out
  {
    CSafety.StepMoves(x, e, c);
  }

  lemma ClientAdds(x: Crypto, e: Env, c: C.Client)
    requires c.st != C.State.Done
    ensures var r := C.Do(x, e, c); r.wait != Error ==> Adds(x, false, c.io.out, r.c.io.out)
  {
    match c.st {
      case StartConnect => ClientHelloOut(x, e, c);
      case ReadHelloVerifyRequest => SecondHelloOut(x, e, c);
      case SendClientCertificate => CertificateOut(x, e, c);
      case SendClientKeyExchange => KeyExchangeOut(x, e, c);
      case SendClientCertificateVerify => VerifyOut(x, e, c);
      case SendClientFinished => ClientFlight(x, e, c);
      case _ => ClientSilent(x, e, c);
    }
  }

  // --- The server ---

  lemma ServerHelloOut(x: Crypto, e: Env, s: S.Server)
    ensures Adds(x, true, s.io.out, S.DoSendServerHello(x, e, s).s.io.out)
  {
    OneAdds(x, s.io.out, S.DoSendServerHello(x, e, s).s.io.out, Plain(x, ServerHello, true));
  }

  lemma ServerKeyOut(x: Crypto, e: Env, s: S.Server)
    ensures Adds(x, true, s.io.out, S.DoSendServerKeyExchange(x, e, s).s.io.out)
  {
    OneAdds(x, s.io.out, S.DoSendServerKeyExchange(x, e, s).s.io.out, Plain(x, ServerKeyExchange, true));
  }

  lemma ServerFlight(x: Crypto, e: Env, s: S.Server)
    ensures Adds(x, true, s.io.out, S.DoSendServerFinished(x, e, s).s.io.out)
  {
    var a := if s.f.ticket then Send(s.io, Plain(x, NewSessionTicket, true)) else s.io;
    AddsPlain(x, s.io.out, s.io, NewSessionTicket, true);
    AddsCcs(x, s.io.out, a, true);
    AddsFinished(x, s.io.out, SendCcs(a, true), true, s.master);
  }

  lemma ServerCertificates(x: Crypto, e: Env, s: S.Server)
    ensures Adds(x, true, s.io.out, S.DoSendServerCertificate(x, e, s).s.io.out)
  {
    var a := Send(s.io, CertificateOf(x, true, true));
    AddsOne(x, s.io.out, s.io.out, CertificateOf(x, true, true));
    AddsPlain(x, s.io.out, a, CertificateStatus, true);
  }

  lemma ServerHelloDones(x: Crypto, e: Env, s: S.Server)
    ensures Adds(x, true, s.io.out, S.DoSendServerHelloDone(x, e, s).s.io.out)
  {
    var a := if s.certRequest then Send(s.io, Plain(x, CertificateRequest, true)) else s.io;
    AddsPlain(x, s.io.out, s.io, CertificateRequest, true);
    AddsPlain(x, s.io.out, a, ServerHelloDone, true);
  }

  lemma ServerSilent(x: Crypto, e: Env, s: S.Server)
    requires s.st != S.State.Done && !SSafety.Sends(s.st)
    ensures var r := S.Do(x, e, s); r.wait != Error ==> r.s.io.out == s.io.out
  {
    SSafety.StepMoves(x, e, s);
  }

  lemma ServerAdds(x: Crypto, e: Env, s: S.Server)
    requires s.st != S.State.Done
    ensures var r := S.Do(x, e, s); r.wait != Error ==> Adds(x, true, s.io.out, r.s.io.out)
  {
    match s.st {
      case SendServerHello => ServerHelloOut(x, e, s);
      case SendServerKeyExchange => ServerKeyOut(x, e, s);
      case SendServerCertificate => ServerCertificates(x, e, s);
      case SendServerHelloDone => ServerHelloDones(x, e, s);
      case SendServerFinished => ServerFlight(x, e, s);
      case _ => ServerSilent(x, e, s);
    }
  }
}
