// Every step of the client follows the script, when what it reads does and nothing fails.

module TlsClientSteps {
  import opened Basics
  import opened TlsMessages
  import opened TlsScript
  import opened TlsFollow
  import opened TlsClient

  predicate BeforeHello(st: State) { st.StartConnect? || st.EnterEarlyData? || st.ReadHelloVerifyRequest? || st.ReadServerHelloState? }

  // The states only a full handshake goes through before the master secret is known.
  predicate Early(st: State) {
    st.ReadServerCertificate? || st.ReadCertificateStatus? || st.VerifyServerCertificate? || st.ReadServerKeyExchange?
    || st.ReadCertificateRequest? || st.ReadServerHelloDone? || st.SendClientCertificate? || st.SendClientKeyExchange?
  }

  predicate AfterRequest(st: State) {
    st.ReadServerHelloDone? || st.SendClientCertificate? || st.SendClientKeyExchange? || st.SendClientCertificateVerify?
  }

  // The client's own record agrees with what is shared, as far as it has come.
  ghost predicate Config(h: Shared, c: Client) {
    && c.hasCert == h.hasCert && (h.f.resumed ==> c.offered)
    && (!BeforeHello(c.st) ==> c.f == h.f)
    && (Early(c.st) || c.st.SendClientCertificateVerify? ==> !h.f.resumed)
    && (if AfterRequest(c.st) then c.certRequest == CertReq(h) else BeforeHello(c.st) || Early(c.st) ==> !c.certRequest)
  }

  // The master secret is known.
  predicate Known(st: State) { !BeforeHello(st) && !Early(st) }

  // Nothing fails, and the hellos settle what is shared.
  ghost predicate GoodEnv(h: Shared, e: Env) { !e.fail && e.verify != Invalid && e.nego == h.f }

  // A message that the script allows in a state that reads one.
  predicate Allowed(h: Shared, st: State, m: Msg) {
    match st
    case ReadHelloVerifyRequest => m.kind == ServerHello
    case ReadServerHelloState => m.kind == ServerHello
    case ReadServerCertificate => h.f.certAuth ==> m.kind == Certificate && m.body != 0
    case ReadCertificateStatus => m.kind == CertificateStatus <==> h.f.certAuth && h.f.status
    case ReadServerKeyExchange => m.kind == ServerKeyExchange <==> h.f.ske
    case ReadCertificateRequest => m.kind == if CertReq(h) then CertificateRequest else ServerHelloDone
    case ReadServerHelloDone => m.kind == ServerHelloDone
    case ReadSessionTicket => h.f.ticket ==> m.kind == NewSessionTicket
    case ReadServerFinished => m.kind == Finished
    case _ => true
  }

  // The state waits for a message from the server.
  predicate Reads(h: Shared, st: State) {
    st.ReadHelloVerifyRequest? || st.ReadServerHelloState? || (st.ReadServerCertificate? && h.f.certAuth)
    || st.ReadCertificateStatus? || st.ReadServerKeyExchange? || st.ReadCertificateRequest?
    || st.ReadServerHelloDone? || (st.ReadSessionTicket? && h.f.ticket) || st.ReadServerFinished?
  }

  // What has arrived is what the script says comes next.
  ghost predicate Fed(h: Shared, c: Client) {
    && (c.io.inbox != [] ==> Allowed(h, c.st, c.io.inbox[0]))
    && (c.io.inbox != [] && c.st.ReadServerFinished? ==> c.io.inbox[0].body == h.x.mac(c.io.transcript, true, c.master))
    && (c.st.ProcessChangeCipherSpec? ==> c.io.inbox == [])
  }

  ghost predicate Ready(h: Shared, e: Env, c: Client) { Compatible(h) && Config(h, c) && GoodEnv(h, e) && Fed(h, c) }

  // --- One step, with at most one message ---

  // How the step moves in the script and in the buffers.
  ghost predicate Steps(h: Shared, c: Client, r: Result, d: Deed) {
    && r.wait != Error && Config(h, r.c)
    && (r.wait == ReadMessage || r.wait == ReadServerHello ==> r.c.io.inbox == [] && Reads(h, r.c.st))
    && match d
       case Nothing =>
         && r.c.io == c.io && Skips(h, ClientPoint(h, c.st), ClientAt(h, r.c.st, r.wait))
         && r.c.master == c.master && Known(r.c.st) == Known(c.st)
       case Taken(m) =>
         && c.io.inbox != [] && m == c.io.inbox[0] && r.c.io == Take(c.io)
         && Carries(h, ClientPoint(h, c.st), ItemOf(m), ClientAt(h, r.c.st, r.wait))
         && if c.st.ReadServerHelloState? && h.f.resumed then r.c.master == h.x.session && Known(r.c.st)
            else r.c.master == c.master && Known(r.c.st) == Known(c.st)
       case Sent(m) =>
         && r.c.io == Send(c.io, m) && m.kind != Finished && m.kind != ChangeCipherSpec && !m.fromServer && RightCertificate(h, m)
         && Carries(h, ClientPoint(h, c.st), ItemOf(m), ClientAt(h, r.c.st, r.wait))
         && if m.kind == ClientKeyExchange then r.c.master == h.x.prf(r.c.io.transcript) && !Known(c.st) && Known(r.c.st) && !h.f.resumed
            else r.c.master == c.master && Known(r.c.st) == Known(c.st)
  }

  lemma OnStart(h: Shared, e: Env, c: Client) returns (d: Deed)
    requires Ready(h, e, c) && c.st.StartConnect?
    ensures Steps(h, c, DoStartConnect(h.x, e, c), d)
  {
    d := Sent(Plain(h.x, ClientHello, false));
  }

  lemma OnEarlyData(h: Shared, e: Env, c: Client) returns (d: Deed)
    requires Ready(h, e, c) && c.st.EnterEarlyData?
    ensures Steps(h, c, DoEnterEarlyData(c), d)
  {
    d := Nothing;
  }

  lemma OnHelloVerify(h: Shared, e: Env, c: Client) returns (d: Deed)
    requires Ready(h, e, c) && c.st.ReadHelloVerifyRequest?
    ensures Steps(h, c, DoReadHelloVerifyRequest(h.x, e, c), d)
  {
    d := Nothing;
  }

  // The message at the head of the buffer, if this step takes it.
  function Deeds(c: Client, takes: bool): Deed {
    if c.io.inbox != [] && takes then Taken(c.io.inbox[0]) else Nothing
  }

  // The message is from the server and on the script here.
  ghost predicate OnScript(h: Shared, c: Client, here: bool) {
    c.io.inbox != [] && here ==> ItemAt(h, ClientPoint(h, c.st)) == Some(ItemOf(c.io.inbox[0]))
  }

  lemma OnServerHello(h: Shared, e: Env, c: Client) returns (d: Deed)
    requires Ready(h, e, c) && c.st.ReadServerHelloState? && OnScript(h, c, true)
    ensures Steps(h, c, DoReadServerHello(h.x, e, c), d)
  {
    d := Deeds(c, true);
  }

  lemma OnCertificate(h: Shared, e: Env, c: Client) returns (d: Deed)
    requires Ready(h, e, c) && c.st.ReadServerCertificate? && OnScript(h, c, h.f.certAuth)
    ensures Steps(h, c, DoReadServerCertificate(e, c), d)
  {
    d := Deeds(c, h.f.certAuth);
  }

  lemma OnStatus(h: Shared, e: Env, c: Client) returns (d: Deed)
    requires Ready(h, e, c) && c.st.ReadCertificateStatus? && OnScript(h, c, h.f.certAuth && h.f.status)
    ensures Steps(h, c, DoReadCertificateStatus(e, c), d)
  {
    d := Deeds(c, h.f.certAuth && h.f.status);
    if d.Taken? {
      assert DoReadCertificateStatus(e, c) == Go(c.(io := Take(c.io)), VerifyServerCertificate);
    } else if !h.f.status || c.io.inbox != [] {
      assert DoReadCertificateStatus(e, c) == Go(c, VerifyServerCertificate);
    }
  }

  lemma OnVerify(h: Shared, e: Env, c: Client) returns (d: Deed)
    requires Ready(h, e, c) && c.st.VerifyServerCertificate?
    ensures Steps(h, c, DoVerifyServerCertificate(e, c), d)
  {
    d := Nothing;
    if h.f.certAuth && e.verify.Valid? {
      assert DoVerifyServerCertificate(e, c) == Result(c.(verified := true, st := ReadServerKeyExchange), Ok);
    }
  }

  lemma OnKeyExchange(h: Shared, e: Env, c: Client) returns (d: Deed)
    requires Ready(h, e, c) && c.st.ReadServerKeyExchange? && OnScript(h, c, h.f.ske)
    ensures Steps(h, c, DoReadServerKeyExchange(e, c), d)
  {
    d := Deeds(c, h.f.ske);
  }

  lemma OnRequest(h: Shared, e: Env, c: Client) returns (d: Deed)
    requires Ready(h, e, c) && c.st.ReadCertificateRequest? && OnScript(h, c, CertReq(h))
    ensures Steps(h, c, DoReadCertificateRequest(e, c), d)
  {
    d := Deeds(c, CertReq(h));
    var r := DoReadCertificateRequest(e, c);
    if d.Taken? {
      assert r == Go(c.(io := Take(c.io), certRequest := true), ReadServerHelloDone);
    } else {
      assert r == if h.f.certAuth && c.io.inbox == [] then Result(c, ReadMessage) else Go(c, ReadServerHelloDone);
    }
  }

  lemma OnHelloDone(h: Shared, e: Env, c: Client) returns (d: Deed)
    requires Ready(h, e, c) && c.st.ReadServerHelloDone? && OnScript(h, c, true)
    ensures Steps(h, c, DoReadServerHelloDone(e, c), d)
  {
    d := Deeds(c, true);
  }

  lemma OnSendCertificate(h: Shared, e: Env, c: Client) returns (d: Deed)
    requires Ready(h, e, c) && c.st.SendClientCertificate?
    ensures Steps(h, c, DoSendClientCertificate(h.x, e, c), d)
  {
    d := if CertReq(h) && !e.retry then Sent(CertificateOf(h.x, c.hasCert, false)) else Nothing;
  }

  lemma OnSendKeyExchange(h: Shared, e: Env, c: Client) returns (d: Deed)
    requires Ready(h, e, c) && c.st.SendClientKeyExchange?
    ensures Steps(h, c, DoSendClientKeyExchange(h.x, e, c), d)
  {
    d := Sent(Plain(h.x, ClientKeyExchange, false));
  }

  lemma OnSendVerify(h: Shared, e: Env, c: Client) returns (d: Deed)
    requires Ready(h, e, c) && c.st.SendClientCertificateVerify?
    ensures Steps(h, c, DoSendClientCertificateVerify(h.x, e, c), d)
  {
    d := if CertReq(h) && h.hasCert && !e.retry then Sent(Plain(h.x, CertificateVerify, false)) else Nothing;
  }

  lemma OnFlight(h: Shared, e: Env, c: Client) returns (d: Deed)
    requires Ready(h, e, c) && c.st.FinishFlight?
    ensures Steps(h, c, DoFinishFlight(e, c), d)
  {
    d := Nothing;
    if h.f.resumed {
      assert ClientPoint(h, FinishClientHandshake) == AtEnd;
    } else {
      assert ClientPoint(h, ReadSessionTicket) == AtTicket;
    }
  }

  lemma OnTicket(h: Shared, e: Env, c: Client) returns (d: Deed)
    requires Ready(h, e, c) && c.st.ReadSessionTicket? && OnScript(h, c, h.f.ticket)
    ensures Steps(h, c, DoReadSessionTicket(e, c), d)
  {
    d := Deeds(c, h.f.ticket);
  }

  lemma OnChangeCipherSpec(h: Shared, e: Env, c: Client) returns (d: Deed)
    requires Ready(h, e, c) && c.st.ProcessChangeCipherSpec?
    ensures Steps(h, c, DoProcessChangeCipherSpec(e, c), d)
  {
    d := Nothing;
  }

  lemma OnFinished(h: Shared, e: Env, c: Client) returns (d: Deed)
    requires Ready(h, e, c) && c.st.ReadServerFinished? && OnScript(h, c, true)
    ensures Steps(h, c, DoReadServerFinished(h.x, e, c), d)
  {
    d := Deeds(c, true);
    if h.f.resumed {
      assert ClientPoint(h, SendClientFinished) == AtClientCcs;
    } else {
      assert ClientPoint(h, FinishClientHandshake) == AtEnd;
    }
  }

  lemma OnComplete(h: Shared, e: Env, c: Client) returns (d: Deed)
    requires Ready(h, e, c) && c.st.FinishClientHandshake?
    ensures Steps(h, c, DoFinishClientHandshake(e, c), d)
  {
    d := Nothing;
  }

  // --- The last flight ---

  function FlightIo(h: Shared, io: Io): Io {
    var a := SendCcs(io, false);
    var b := if h.f.npn then Send(a, Plain(h.x, NextProto, false)) else a;
    if h.f.channelId then Send(b, Plain(h.x, ChannelId, false)) else b
  }

  lemma FlightOnScript(h: Shared, io: Io) returns (m: seq<Msg>)
    ensures Follows(h, AtClientCcs, io, FlightIo(h, io), AtClientFinished, m, true)
    ensures forall x :: x in m ==> !x.fromServer
  {
    var a := SendCcs(io, false);
    var n, i := Plain(h.x, NextProto, false), Plain(h.x, ChannelId, false);
    var b := if h.f.npn then Send(a, n) else a;
    m := [Msg(ChangeCipherSpec, false, 0)];
    FollowsCcs(h, AtClientCcs, io, false, AtNextProto);
    FollowsOnIf(h, AtClientCcs, io, a, AtNextProto, m, h.f.npn, n, AtChannelId);
    m := if h.f.npn then m + [n] else m;
    FollowsOnIf(h, AtClientCcs, io, b, AtChannelId, m, h.f.channelId, i, AtClientFinished);
    m := if h.f.channelId then m + [i] else m;
  }

  lemma FlightKeyed(h: Shared, io: Io, master: nat)
    requires Keyed(h, io.transcript, master, true)
    ensures Keyed(h, FlightIo(h, io).transcript, master, true)
  {
    var a := SendCcs(io, false);
    var n, i := Plain(h.x, NextProto, false), Plain(h.x, ChannelId, false);
    KeyedIf(h, a, h.f.npn, n, master);
    KeyedIf(h, if h.f.npn then Send(a, n) else a, h.f.channelId, i, master);
  }

  // The whole flight, with its Finished.
  lemma ClientFlight(h: Shared, io: Io, master: nat) returns (m: seq<Msg>)
    requires Keyed(h, io.transcript, master, true)
    ensures var b := SendFinished(h.x, FlightIo(h, io), false, master);
            && Follows(h, AtClientCcs, io, b, Following(h, AtClientFinished), m, true)
            && Keyed(h, b.transcript, master, true)
    ensures forall x :: x in m ==> !x.fromServer
  {
    var d := FlightIo(h, io);
    var f := Msg(Finished, false, h.x.mac(d.transcript, false, master));
    m := FlightOnScript(h, io);
    FollowsOnIf(h, AtClientCcs, io, d, AtClientFinished, m, true, f, Following(h, AtClientFinished));
    m := m + [f];
    FlightKeyed(h, io, master);
    KeyedFinished(h, d, false, master);
  }

  // --- Every step ---

  // What holds of the client whenever it runs.
  ghost predicate Local(h: Shared, c: Client) {
    Config(h, c) && Keyed(h, c.io.transcript, c.master, Known(c.st)) && Arrived(c.io.inbox, true)
  }

  ghost predicate Stepped(h: Shared, c: Client, r: Result, m: seq<Msg>, sends: bool) {
    && r.wait != Error && Local(h, r.c)
    && Follows(h, ClientPoint(h, c.st), c.io, r.c.io, ClientAt(h, r.c.st, r.wait), m, sends)
    && (sends ==> forall x :: x in m ==> !x.fromServer)
    && (r.wait == ReadMessage || r.wait == ReadServerHello ==> r.c.io.inbox == [] && Reads(h, r.c.st))
  }

  // The message that is on the script at a reading state.
  predicate Here(h: Shared, st: State) {
    match st
    case ReadServerHelloState => true
    case ReadServerCertificate => h.f.certAuth
    case ReadCertificateStatus => h.f.certAuth && h.f.status
    case ReadServerKeyExchange => h.f.ske
    case ReadCertificateRequest => CertReq(h)
    case ReadServerHelloDone => true
    case ReadSessionTicket => h.f.ticket
    case ReadServerFinished => true
    case _ => false
  }

  lemma FirstOns(h: Shared)
    ensures First(h, AtHelloDone) == Some(Item(ServerHelloDone, true))
    ensures First(h, AtRequest) == if CertReq(h) then Some(Item(CertificateRequest, true)) else First(h, AtHelloDone)
    ensures First(h, AtKeyExchange) == if h.f.ske then Some(Item(ServerKeyExchange, true)) else First(h, AtRequest)
    ensures First(h, AtStatus) == if h.f.certAuth && h.f.status then Some(Item(CertificateStatus, true)) else First(h, AtKeyExchange)
    ensures First(h, AtServerHello) == Some(Item(ServerHello, true)) && First(h, AtServerFinished) == Some(Item(Finished, true))
    ensures h.f.certAuth ==> First(h, AtCertificate) == Some(Item(Certificate, true))
    ensures h.f.ticket ==> First(h, AtTicket) == Some(Item(NewSessionTicket, true))
  {
  }

  lemma Feeds(h: Shared, c: Client)
    requires Local(h, c) && Expected(h, ClientPoint(h, c.st), c.io) && (c.st.ProcessChangeCipherSpec? ==> c.io.inbox == [])
    ensures Fed(h, c) && OnScript(h, c, Here(h, c.st))
  {
    if c.io.inbox != [] {
      assert c.io.inbox[0] in c.io.inbox;
      NextAllowed(h, c.st, c.io.inbox[0]);
    }
  }

  lemma NextAllowed(h: Shared, st: State, m: Msg)
    requires First(h, ClientPoint(h, st)) == Some(ItemOf(m)) && m.fromServer && m.kind != ChangeCipherSpec && RightCertificate(h, m)
    ensures Allowed(h, st, m) && (Here(h, st) ==> ItemAt(h, ClientPoint(h, st)) == Some(ItemOf(m)))
  {
    FirstOns(h);
  }

  lemma ReadsAwaits(h: Shared, st: State)
    requires Reads(h, st)
    ensures Awaits(h, ClientPoint(h, st), true)
  {
    FirstOns(h);
  }

  // A step with one message at most, in full.
  lemma PromoteNothing(h: Shared, c: Client, r: Result)
    requires Local(h, c) && Steps(h, c, r, Nothing)
    ensures Stepped(h, c, r, [], true)
  {
    FollowsNone(h, ClientPoint(h, c.st), c.io, ClientAt(h, r.c.st, r.wait));
  }

  lemma PromoteTaken(h: Shared, c: Client, r: Result, x: Msg)
    requires Local(h, c) && Steps(h, c, r, Taken(x)) && Expected(h, ClientPoint(h, c.st), c.io)
    ensures Stepped(h, c, r, [x], false)
  {
    assert x in c.io.inbox;
    OnlyClientExchanges(h, ClientPoint(h, c.st));
    FollowsTake(h, ClientPoint(h, c.st), c.io, ClientAt(h, r.c.st, r.wait));
    KeyedMore(h, c.io.transcript, c.master, Known(c.st), x);
  }

  lemma PromoteSent(h: Shared, c: Client, r: Result, x: Msg)
    requires Local(h, c) && Steps(h, c, r, Sent(x))
    ensures Stepped(h, c, r, [x], true)
  {
    var p := ClientPoint(h, c.st);
    FollowsSend(h, p, c.io, x, ClientAt(h, r.c.st, r.wait));
    if x.kind == ClientKeyExchange { KeyedNow(h, c.io.transcript, c.master, x); }
    else { KeyedMore(h, c.io.transcript, c.master, Known(c.st), x); }
  }

  lemma Promote(h: Shared, c: Client, r: Result, d: Deed) returns (m: seq<Msg>, sends: bool)
    requires Local(h, c) && Steps(h, c, r, d) && Expected(h, ClientPoint(h, c.st), c.io)
    ensures Stepped(h, c, r, m, sends)
  {
    match d
    case Nothing =>
      PromoteNothing(h, c, r);
      m, sends := [], true;
    case Taken(x) =>
      PromoteTaken(h, c, r, x);
      m, sends := [x], false;
    case Sent(x) =>
      PromoteSent(h, c, r, x);
      m, sends := [x], true;
  }

  lemma OnSendFinished(h: Shared, e: Env, c: Client) returns (m: seq<Msg>)
    requires Local(h, c) && GoodEnv(h, e) && c.st.SendClientFinished?
    ensures Stepped(h, c, DoSendClientFinished(h.x, e, c), m, true)
  {
    if h.f.channelId && e.retry {
      m := [];
      FlightWaits(h, c);
    } else {
      FlightResult(h, e, c);
      m := FlightStepped(h, c);
    }
  }

  lemma FlightWaits(h: Shared, c: Client)
    requires Local(h, c) && c.st.SendClientFinished?
    ensures Stepped(h, c, Result(c, ChannelIdLookup), [], true)
  {
    FollowsNone(h, AtClientCcs, c.io, AtClientCcs);
  }

  lemma FlightStepped(h: Shared, c: Client) returns (m: seq<Msg>)
    requires Local(h, c) && c.st.SendClientFinished?
    ensures Stepped(h, c, Result(c.(io := SendFinished(h.x, FlightIo(h, c.io), false, c.master), st := FinishFlight), Flush), m, true)
  {
    m := ClientFlight(h, c.io, c.master);
    FlightLeaves(h, c, SendFinished(h.x, FlightIo(h, c.io), false, c.master), m);
  }

  lemma FlightLeaves(h: Shared, c: Client, io: Io, m: seq<Msg>)
    requires Local(h, c) && c.st.SendClientFinished? && Keyed(h, io.transcript, c.master, true)
    requires Follows(h, AtClientCcs, c.io, io, Following(h, AtClientFinished), m, true) && forall x :: x in m ==> !x.fromServer
    ensures Stepped(h, c, Result(c.(io := io, st := FinishFlight), Flush), m, true)
  {
    FlightLocal(h, c, io);
    FlightPoints(h);
  }

  lemma FlightLocal(h: Shared, c: Client, io: Io)
    requires Local(h, c) && c.st.SendClientFinished? && Keyed(h, io.transcript, c.master, true) && io.inbox == c.io.inbox
    ensures Local(h, c.(io := io, st := FinishFlight))
  {
  }

  lemma FlightPoints(h: Shared)
    ensures ClientPoint(h, SendClientFinished) == AtClientCcs
    ensures ClientAt(h, FinishFlight, Flush) == Following(h, AtClientFinished)
  {
  }

  lemma FlightResult(h: Shared, e: Env, c: Client)
    requires Config(h, c) && GoodEnv(h, e) && c.st.SendClientFinished? && !(h.f.channelId && e.retry)
    ensures DoSendClientFinished(h.x, e, c)
         == Result(c.(io := SendFinished(h.x, FlightIo(h, c.io), false, c.master), st := FinishFlight), Flush)
  {
  }

  ghost predicate Runnable(h: Shared, e: Env, c: Client) {
    && Compatible(h) && GoodEnv(h, e) && Local(h, c) && Expected(h, ClientPoint(h, c.st), c.io)
    && (c.st.ProcessChangeCipherSpec? ==> c.io.inbox == [])
  }

  // Whatever state the client is in, its next step does not fail and follows the script: it
  // sends or takes the messages that come next and leads to the point after them.
  lemma Step(h: Shared, e: Env, c: Client) returns (m: seq<Msg>, sends: bool)
    requires Runnable(h, e, c)
    ensures Stepped(h, c, Do(h.x, e, c), m, sends)
  {
    Feeds(h, c);
    if c.st.SendClientFinished? {
      m := OnSendFinished(h, e, c);
      sends := true;
    } else {
      var d := OneDeed(h, e, c);
      m, sends := Promote(h, c, Do(h.x, e, c), d);
    }
  }

  lemma OneDeed(h: Shared, e: Env, c: Client) returns (d: Deed)
    requires Ready(h, e, c) && OnScript(h, c, Here(h, c.st)) && !c.st.SendClientFinished?
    ensures Steps(h, c, Do(h.x, e, c), d)
  {
    match c.st
    case StartConnect => d := OnStart(h, e, c);
    case EnterEarlyData => d := OnEarlyData(h, e, c);
    case ReadHelloVerifyRequest => d := OnHelloVerify(h, e, c);
    case ReadServerHelloState => d := OnServerHello(h, e, c);
    case ReadServerCertificate => d := OnCertificate(h, e, c);
    case ReadCertificateStatus => d := OnStatus(h, e, c);
    case VerifyServerCertificate => d := OnVerify(h, e, c);
    case ReadServerKeyExchange => d := OnKeyExchange(h, e, c);
    case ReadCertificateRequest => d := OnRequest(h, e, c);
    case ReadServerHelloDone => d := OnHelloDone(h, e, c);
    case SendClientCertificate => d := OnSendCertificate(h, e, c);
    case SendClientKeyExchange => d := OnSendKeyExchange(h, e, c);
    case SendClientCertificateVerify => d := OnSendVerify(h, e, c);
    case FinishFlight => d := OnFlight(h, e, c);
    case ReadSessionTicket => d := OnTicket(h, e, c);
    case ProcessChangeCipherSpec => d := OnChangeCipherSpec(h, e, c);
    case ReadServerFinished => d := OnFinished(h, e, c);
    case FinishClientHandshake => d := OnComplete(h, e, c);
    case Done => d := Nothing;
  }
}
