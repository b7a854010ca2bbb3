// The client handshake: one function for each state, and the loop that runs them.

module TlsClient {
  import opened Basics
  import opened TlsMessages

  datatype State =
    | StartConnect | EnterEarlyData | ReadHelloVerifyRequest | ReadServerHelloState | ReadServerCertificate
    | ReadCertificateStatus | VerifyServerCertificate | ReadServerKeyExchange | ReadCertificateRequest
    | ReadServerHelloDone | SendClientCertificate | SendClientKeyExchange | SendClientCertificateVerify
    | SendClientFinished | FinishFlight | ReadSessionTicket | ProcessChangeCipherSpec | ReadServerFinished
    | FinishClientHandshake | Done

  // offered says that the client offered a session to resume. The last four fields record
  // what has been checked: the server's certificate, the arrival and use of its
  // ChangeCipherSpec, and the place of its Finished in the transcript.
  datatype Client = Client(st: State, dtls: bool, offered: bool, hasCert: bool, f: Flags, certRequest: bool, io: Io,
                           master: nat, verified: bool, ccsRead: bool, ccsUsed: bool, finishedAt: Option<nat>)

  datatype Result = Result(c: Client, wait: Wait)

  function Go(c: Client, st: State): Result { Result(c.(st := st), Ok) }

  function DoStartConnect(x: Crypto, e: Env, c: Client): Result {
    if e.fail then Result(c, Error)
    else Result(c.(io := Send(c.io, Plain(x, ClientHello, false)), st := EnterEarlyData), Flush)
  }

  function DoEnterEarlyData(c: Client): Result {
    Go(c, if c.dtls then ReadHelloVerifyRequest else ReadServerHelloState)
  }

  // DTLS resets the transcript after a HelloVerifyRequest.
  function DoReadHelloVerifyRequest(x: Crypto, e: Env, c: Client): Result {
    if c.io.inbox == [] then Result(c, ReadMessage)
    else if c.io.inbox[0].kind != HelloVerifyRequest then Go(c, ReadServerHelloState)
    else if e.fail then Result(c, Error)
    else
      var io := c.io.(inbox := c.io.inbox[1..], transcript := []);
      Result(c.(io := Send(io, Plain(x, ClientHello, false)), st := ReadServerHelloState), Flush)
  }

  function DoReadServerHello(x: Crypto, e: Env, c: Client): Result {
    if c.io.inbox == [] then Result(c, ReadServerHello)
    else if c.io.inbox[0].kind != ServerHello || e.fail then Result(c, Error)
    else
      var f := e.nego.(resumed := e.nego.resumed && c.offered);
      var c' := c.(io := Take(c.io), f := f, master := if f.resumed then x.session else c.master);
      Go(c', if f.resumed then ReadSessionTicket else ReadServerCertificate)
  }

  function DoReadServerCertificate(e: Env, c: Client): Result {
    if !c.f.certAuth then Go(c, ReadCertificateStatus)
    else if c.io.inbox == [] then Result(c, ReadMessage)
    else if c.io.inbox[0].kind != Certificate || c.io.inbox[0].body == 0 || e.fail then Result(c, Error)
    else Go(c.(io := Take(c.io)), ReadCertificateStatus)
  }

  // A server may announce a CertificateStatus and not send it.
  function DoReadCertificateStatus(e: Env, c: Client): Result {
    if !c.f.status then Go(c, VerifyServerCertificate)
    else if c.io.inbox == [] then Result(c, ReadMessage)
    else if c.io.inbox[0].kind != CertificateStatus then Go(c, VerifyServerCertificate)
    else if e.fail then Result(c, Error)
    else Go(c.(io := Take(c.io)), VerifyServerCertificate)
  }

  function DoVerifyServerCertificate(e: Env, c: Client): Result {
    if !c.f.certAuth then Go(c, ReadServerKeyExchange)
    else
      match e.verify
      case Valid => Go(c.(verified := true), ReadServerKeyExchange)
      case Invalid => Result(c, Error)
      case Later => Result(c, CertificateVerification)
  }

  function DoReadServerKeyExchange(e: Env, c: Client): Result {
    if c.io.inbox == [] then Result(c, ReadMessage)
    else if c.io.inbox[0].kind != ServerKeyExchange then
      if c.f.skeRequired then Result(c, Error) else Go(c, ReadCertificateRequest)
    else if e.fail then Result(c, Error)
    else Go(c.(io := Take(c.io)), ReadCertificateRequest)
  }

  function DoReadCertificateRequest(e: Env, c: Client): Result {
    if !c.f.certAuth then Go(c, ReadServerHelloDone)
    else if c.io.inbox == [] then Result(c, ReadMessage)
    else if c.io.inbox[0].kind == ServerHelloDone then Go(c, ReadServerHelloDone)
    else if c.io.inbox[0].kind != CertificateRequest || e.fail then Result(c, Error)
    else Go(c.(io := Take(c.io), certRequest := true), ReadServerHelloDone)
  }

  function DoReadServerHelloDone(e: Env, c: Client): Result {
    if c.io.inbox == [] then Result(c, ReadMessage)
    else if c.io.inbox[0].kind != ServerHelloDone || e.fail then Result(c, Error)
    else Go(c.(io := Take(c.io)), SendClientCertificate)
  }

  function DoSendClientCertificate(x: Crypto, e: Env, c: Client): Result {
    if !c.certRequest then Go(c, SendClientKeyExchange)
    else if e.fail then Result(c, Error)
    else if e.retry then Result(c, X509Lookup)
    else Go(c.(io := Send(c.io, CertificateOf(x, c.hasCert, false))), SendClientKeyExchange)
  }

  // The ClientKeyExchange is hashed before the master secret is computed.
  function DoSendClientKeyExchange(x: Crypto, e: Env, c: Client): Result {
    if e.fail then Result(c, Error)
    else
      var io := Send(c.io, Plain(x, ClientKeyExchange, false));
      Go(c.(io := io, master := x.prf(io.transcript)), SendClientCertificateVerify)
  }

  function DoSendClientCertificateVerify(x: Crypto, e: Env, c: Client): Result {
    if !c.certRequest || !c.hasCert then Go(c, SendClientFinished)
    else if e.fail then Result(c, Error)
    else if e.retry then Result(c, PrivateKeyOperation)
    else Go(c.(io := Send(c.io, Plain(x, CertificateVerify, false))), SendClientFinished)
  }

  // The Channel ID is resolved before anything is sent.
  function DoSendClientFinished(x: Crypto, e: Env, c: Client): Result {
    if e.fail then Result(c, Error)
    else if c.f.channelId && e.retry then Result(c, ChannelIdLookup)
    else
      var a := SendCcs(c.io, false);
      var b := if c.f.npn then Send(a, Plain(x, NextProto, false)) else a;
      var d := if c.f.channelId then Send(b, Plain(x, ChannelId, false)) else b;
      Result(c.(io := SendFinished(x, d, false, c.master), st := FinishFlight), Flush)
  }

  function DoFinishFlight(e: Env, c: Client): Result {
    if c.f.resumed then Go(c, FinishClientHandshake)
    else if e.fail then Result(c, Error)
    else Result(c.(st := ReadSessionTicket), if e.falseStart then EarlyReturn else Ok)
  }

  function DoReadSessionTicket(e: Env, c: Client): Result {
    if !c.f.ticket then Result(c.(st := ProcessChangeCipherSpec), ReadChangeCipherSpec)
    else if c.io.inbox == [] then Result(c, ReadMessage)
    else if c.io.inbox[0].kind != NewSessionTicket || e.fail then Result(c, Error)
    else Result(c.(io := Take(c.io), st := ProcessChangeCipherSpec), ReadChangeCipherSpec)
  }

  // Keys do not change while messages are buffered.
  function DoProcessChangeCipherSpec(e: Env, c: Client): Result {
    if c.io.inbox != [] || e.fail then Result(c, Error)
    else Go(c.(ccsUsed := true), ReadServerFinished)
  }

  // ssl_get_finished.
  function DoReadServerFinished(x: Crypto, e: Env, c: Client): Result {
    if c.io.inbox == [] then Result(c, ReadMessage)
    else if c.io.inbox[0].kind != Finished || e.fail then Result(c, Error)
    else if c.io.inbox[0].body != x.mac(c.io.transcript, true, c.master) then Result(c, Error)
    else
      var c' := c.(io := Take(c.io), finishedAt := Some(|c.io.transcript|));
      Go(c', if c.f.resumed then SendClientFinished else FinishClientHandshake)
  }

  function DoFinishClientHandshake(e: Env, c: Client): Result {
    if e.fail then Result(c, Error) else Go(c, State.Done)
  }

  // The switch of ssl_client_handshake.
  function Do(x: Crypto, e: Env, c: Client): Result {
    match c.st
    case StartConnect => DoStartConnect(x, e, c)
    case EnterEarlyData => DoEnterEarlyData(c)
    case ReadHelloVerifyRequest => DoReadHelloVerifyRequest(x, e, c)
    case ReadServerHelloState => DoReadServerHello(x, e, c)
    case ReadServerCertificate => DoReadServerCertificate(e, c)
    case ReadCertificateStatus => DoReadCertificateStatus(e, c)
    case VerifyServerCertificate => DoVerifyServerCertificate(e, c)
    case ReadServerKeyExchange => DoReadServerKeyExchange(e, c)
    case ReadCertificateRequest => DoReadCertificateRequest(e, c)
    case ReadServerHelloDone => DoReadServerHelloDone(e, c)
    case SendClientCertificate => DoSendClientCertificate(x, e, c)
    case SendClientKeyExchange => DoSendClientKeyExchange(x, e, c)
    case SendClientCertificateVerify => DoSendClientCertificateVerify(x, e, c)
    case SendClientFinished => DoSendClientFinished(x, e, c)
    case FinishFlight => DoFinishFlight(e, c)
    case ReadSessionTicket => DoReadSessionTicket(e, c)
    case ProcessChangeCipherSpec => DoProcessChangeCipherSpec(e, c)
    case ReadServerFinished => DoReadServerFinished(x, e, c)
    case FinishClientHandshake => DoFinishClientHandshake(e, c)
    case Done => Result(c, Ok)
  }

  function Start(dtls: bool, offered: bool, hasCert: bool): Client {
    Client(StartConnect, dtls, offered, hasCert, Flags(false, false, false, false, false, false, false, false), false,
           Io([], [], []), 0, false, false, false, None)
  }

  // ssl_open_handshake and ssl_open_change_cipher_spec on the next record: messages, or a
  // ChangeCipherSpec on its own.
  function Receive(c: Client, w: Wait, record: seq<Msg>): Result {
    if record == [] then Result(c, w)
    else if w == ReadChangeCipherSpec then
      if record[0].kind == ChangeCipherSpec then Result(c.(ccsRead := true), Ok) else Result(c, Error)
    else if record[0].kind == ChangeCipherSpec then Result(c, Error)
    else Result(c.(io := c.io.(inbox := c.io.inbox + record)), Ok)
  }
}
