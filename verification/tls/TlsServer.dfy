// The server handshake: one function for each state, and the loop that runs them.

module TlsServer {
  import opened Basics
  import opened TlsMessages

  datatype State =
    | StartAccept | ReadClientHello | SelectCertificate | SelectParameters | SendServerHello
    | SendServerCertificate | SendServerKeyExchange | SendServerHelloDone | ReadClientCertificate
    | VerifyClientCertificate | ReadClientKeyExchange | ReadClientCertificateVerify
    | ReadChangeCipherSpecState | ProcessChangeCipherSpec | ReadNextProto | ReadChannelId
    | ReadClientFinished | SendServerFinished | FinishServerHandshake | Done

  // The server's policy: SSL_VERIFY_PEER, SSL_VERIFY_FAIL_IF_NO_PEER_CERT and
  // SSL_VERIFY_PEER_IF_NO_OBC.
  datatype Policy = Policy(verifyPeer: bool, requireCert: bool, ifNoChannelId: bool)

  // peerCert says that the client sent a certificate. The last fields record what has been
  // checked: that certificate, the CertificateVerify, the arrival and use of the client's
  // ChangeCipherSpec, and the place of its Finished in the transcript.
  datatype Server = Server(st: State, policy: Policy, f: Flags, certRequest: bool, peerCert: bool, io: Io, master: nat,
                           verified: bool, proved: bool, ccsRead: bool, ccsUsed: bool, finishedAt: Option<nat>)

  datatype Result = Result(s: Server, wait: Wait)

  function Go(s: Server, st: State): Result { Result(s.(st := st), Ok) }

  // The ClientHello stays in the buffer until the parameters are settled.
  function DoReadClientHello(e: Env, s: Server): Result {
    if s.io.inbox == [] then Result(s, ReadMessage)
    else if s.io.inbox[0].kind != ClientHello || e.fail then Result(s, Error)
    else if e.retry then Result(s, CertificateSelectionPending)
    else Go(s, SelectCertificate)
  }

  function DoSelectCertificate(e: Env, s: Server): Result {
    if s.io.inbox == [] then Result(s, ReadMessage)
    else if e.fail then Result(s, Error)
    else if e.retry then Result(s, X509Lookup)
    else Go(s, SelectParameters)
  }

  // Whether a client certificate is requested.
  predicate Requests(p: Policy, f: Flags) {
    !f.resumed && p.verifyPeer && !(p.ifNoChannelId && f.channelId) && f.certAuth
  }

  function DoSelectParameters(x: Crypto, e: Env, s: Server): Result {
    if s.io.inbox == [] then Result(s, ReadMessage)
    else if e.fail then Result(s, Error)
    else if e.retry then Result(s, PendingSession)
    else
      var f := e.nego;
      var master := if f.resumed then x.session else s.master;
      Go(s.(io := Take(s.io), f := f, certRequest := Requests(s.policy, f), master := master), SendServerHello)
  }

  // Channel ID needs ECDHE, and in a resumption the hashes of the original handshake.
  function DoSendServerHello(x: Crypto, e: Env, s: Server): Result {
    if e.fail then Result(s, Error)
    else
      var f := s.f.(channelId := s.f.channelId && e.keepChannelId);
      Go(s.(f := f, io := Send(s.io, Plain(x, ServerHello, true))), if f.resumed then SendServerFinished else SendServerCertificate)
  }

  function DoSendServerCertificate(x: Crypto, e: Env, s: Server): Result {
    if e.fail then Result(s, Error)
    else if !s.f.certAuth then Go(s, SendServerKeyExchange)
    else
      var a := Send(s.io, CertificateOf(x, true, true));
      var b := if s.f.status then Send(a, Plain(x, CertificateStatus, true)) else a;
      Go(s.(io := b), SendServerKeyExchange)
  }

  function DoSendServerKeyExchange(x: Crypto, e: Env, s: Server): Result {
    if !s.f.ske then Go(s, SendServerHelloDone)
    else if e.fail then Result(s, Error)
    else if e.retry then Result(s, PrivateKeyOperation)
    else Go(s.(io := Send(s.io, Plain(x, ServerKeyExchange, true))), SendServerHelloDone)
  }

  function DoSendServerHelloDone(x: Crypto, e: Env, s: Server): Result {
    if e.fail then Result(s, Error)
    else
      var a := if s.certRequest then Send(s.io, Plain(x, CertificateRequest, true)) else s.io;
      Result(s.(io := Send(a, Plain(x, ServerHelloDone, true)), st := ReadClientCertificate), Flush)
  }

  function DoReadClientCertificate(e: Env, s: Server): Result {
    if !s.certRequest then Go(s, VerifyClientCertificate)
    else if s.io.inbox == [] then Result(s, ReadMessage)
    else if s.io.inbox[0].kind != Certificate || e.fail then Result(s, Error)
    else if s.io.inbox[0].body == 0 && s.policy.requireCert then Result(s, Error)
    else Go(s.(io := Take(s.io), peerCert := s.io.inbox[0].body != 0), VerifyClientCertificate)
  }

  function DoVerifyClientCertificate(e: Env, s: Server): Result {
    if !s.peerCert then Go(s, ReadClientKeyExchange)
    else
      match e.verify
      case Valid => Go(s.(verified := true), ReadClientKeyExchange)
      case Invalid => Result(s, Error)
      case Later => Result(s, CertificateVerification)
  }

  function DoReadClientKeyExchange(x: Crypto, e: Env, s: Server): Result {
    if s.io.inbox == [] then Result(s, ReadMessage)
    else if s.io.inbox[0].kind != ClientKeyExchange || e.fail then Result(s, Error)
    else if e.retry then Result(s, PrivateKeyOperation)
    else
      var io := Take(s.io);
      Go(s.(io := io, master := x.prf(io.transcript)), ReadClientCertificateVerify)
  }

  // A CertificateVerify is required if and only if there is a client certificate.
  function DoReadClientCertificateVerify(e: Env, s: Server): Result {
    if !s.peerCert then Go(s, ReadChangeCipherSpecState)
    else if s.io.inbox == [] then Result(s, ReadMessage)
    else if s.io.inbox[0].kind != CertificateVerify || e.fail then Result(s, Error)
    else Go(s.(io := Take(s.io), proved := true), ReadChangeCipherSpecState)
  }

  function DoReadChangeCipherSpec(s: Server): Result {
    Result(s.(st := ProcessChangeCipherSpec), ReadChangeCipherSpec)
  }

  // Keys do not change while messages are buffered.
  function DoProcessChangeCipherSpec(e: Env, s: Server): Result {
    if s.io.inbox != [] || e.fail then Result(s, Error)
    else Go(s.(ccsUsed := true), ReadNextProto)
  }

  function DoReadNextProto(e: Env, s: Server): Result {
    if !s.f.npn then Go(s, ReadChannelId)
    else if s.io.inbox == [] then Result(s, ReadMessage)
    else if s.io.inbox[0].kind != NextProto || e.fail then Result(s, Error)
    else Go(s.(io := Take(s.io)), ReadChannelId)
  }

  function DoReadChannelId(e: Env, s: Server): Result {
    if !s.f.channelId then Go(s, ReadClientFinished)
    else if s.io.inbox == [] then Result(s, ReadMessage)
    else if s.io.inbox[0].kind != ChannelId || e.fail then Result(s, Error)
    else Go(s.(io := Take(s.io)), ReadClientFinished)
  }

  // ssl_get_finished.
  function DoReadClientFinished(x: Crypto, e: Env, s: Server): Result {
    if s.io.inbox == [] then Result(s, ReadMessage)
    else if s.io.inbox[0].kind != Finished || e.fail then Result(s, Error)
    else if s.io.inbox[0].body != x.mac(s.io.transcript, false, s.master) then Result(s, Error)
    else
      var s' := s.(io := Take(s.io), finishedAt := Some(|s.io.transcript|));
      Go(s', if s.f.resumed then FinishServerHandshake else SendServerFinished)
  }

  function DoSendServerFinished(x: Crypto, e: Env, s: Server): Result {
    if e.fail then Result(s, Error)
    else
      var a := if s.f.ticket then Send(s.io, Plain(x, NewSessionTicket, true)) else s.io;
      var b := SendFinished(x, SendCcs(a, true), true, s.master);
      Result(s.(io := b, st := if s.f.resumed then ReadChangeCipherSpecState else FinishServerHandshake), Flush)
  }

  // The switch of ssl_server_handshake.
  function Do(x: Crypto, e: Env, s: Server): Result {
    match s.st
    case StartAccept => Go(s, ReadClientHello)
    case ReadClientHello => DoReadClientHello(e, s)
    case SelectCertificate => DoSelectCertificate(e, s)
    case SelectParameters => DoSelectParameters(x, e, s)
    case SendServerHello => DoSendServerHello(x, e, s)
    case SendServerCertificate => DoSendServerCertificate(x, e, s)
    case SendServerKeyExchange => DoSendServerKeyExchange(x, e, s)
    case SendServerHelloDone => DoSendServerHelloDone(x, e, s)
    case ReadClientCertificate => DoReadClientCertificate(e, s)
    case VerifyClientCertificate => DoVerifyClientCertificate(e, s)
    case ReadClientKeyExchange => DoReadClientKeyExchange(x, e, s)
    case ReadClientCertificateVerify => DoReadClientCertificateVerify(e, s)
    case ReadChangeCipherSpecState => DoReadChangeCipherSpec(s)
    case ProcessChangeCipherSpec => DoProcessChangeCipherSpec(e, s)
    case ReadNextProto => DoReadNextProto(e, s)
    case ReadChannelId => DoReadChannelId(e, s)
    case ReadClientFinished => DoReadClientFinished(x, e, s)
    case SendServerFinished => DoSendServerFinished(x, e, s)
    case FinishServerHandshake => Go(s, State.Done)
    case Done => Result(s, Ok)
  }

  function Start(p: Policy): Server {
    Server(StartAccept, p, Flags(false, false, false, false, false, false, false, false), false, false, Io([], [], []), 0,
           false, false, false, false, None)
  }

  // ssl_open_handshake and ssl_open_change_cipher_spec on the next record: messages, or a
  // ChangeCipherSpec on its own.
  function Receive(s: Server, w: Wait, record: seq<Msg>): Result {
    if record == [] then Result(s, w)
    else if w == ReadChangeCipherSpec then
      if record[0].kind == ChangeCipherSpec then Result(s.(ccsRead := true), Ok) else Result(s, Error)
    else if record[0].kind == ChangeCipherSpec then Result(s, Error)
    else Result(s.(io := s.io.(inbox := s.io.inbox + record)), Ok)
  }
}
