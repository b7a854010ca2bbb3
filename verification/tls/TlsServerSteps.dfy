// Every step of the server follows the script, when what it reads does and nothing fails.

module TlsServerSteps {
  import opened Basics
  import opened TlsMessages
  import opened TlsScript
  import opened TlsFollow
  import opened TlsServer

  predicate BeforeParameters(st: State) { st.StartAccept? || st.ReadClientHello? || st.SelectCertificate? || st.SelectParameters? }

  // The states only a full handshake goes through.
  predicate Full(st: State) {
    st.SendServerCertificate? || st.SendServerKeyExchange? || st.SendServerHelloDone? || st.ReadClientCertificate?
    || st.VerifyClientCertificate? || st.ReadClientKeyExchange? || st.ReadClientCertificateVerify?
  }

  predicate AfterCertificate(st: State) {
    st.VerifyClientCertificate? || st.ReadClientKeyExchange? || st.ReadClientCertificateVerify?
  }

  // The server's own record agrees with what is shared, as far as it has come.
  ghost predicate Config(h: Shared, s: Server) {
    && s.policy == h.policy
    && (if s.st.SendServerHello? then s.f == Offered(h) else !BeforeParameters(s.st) ==> s.f == h.f)
    && (!BeforeParameters(s.st) ==> s.certRequest == CertReq(h))
    && (Full(s.st) ==> !h.f.resumed)
    && (if AfterCertificate(s.st) then s.peerCert == (CertReq(h) && h.hasCert)
        else BeforeParameters(s.st) || s.st.SendServerHello? || Full(s.st) ==> !s.peerCert)
  }

  // The master secret is known.
  predicate Known(h: Shared, st: State) {
    && !BeforeParameters(st)
    && (h.f.resumed || !(st.SendServerHello? || (Full(st) && !st.ReadClientCertificateVerify?)))
  }

  // Nothing fails, and the hellos settle what is shared.
  ghost predicate GoodEnv(h: Shared, e: Env) {
    !e.fail && e.verify != Invalid && e.nego == Offered(h) && (h.offeredId && e.keepChannelId) == h.f.channelId
  }

  // A message that the script allows in a state that reads one.
  predicate Allowed(h: Shared, st: State, m: Msg) {
    match st
    case ReadClientHello => m.kind == ClientHello
    case SelectCertificate => m.kind == ClientHello
    case SelectParameters => m.kind == ClientHello
    case ReadClientCertificate => CertReq(h) ==> m.kind == Certificate && (m.body != 0 <==> h.hasCert)
    case ReadClientKeyExchange => m.kind == ClientKeyExchange
    case ReadClientCertificateVerify => CertReq(h) && h.hasCert ==> m.kind == CertificateVerify
    case ReadNextProto => h.f.npn ==> m.kind == NextProto
    case ReadChannelId => h.f.channelId ==> m.kind == ChannelId
    case ReadClientFinished => m.kind == Finished
    case _ => true
  }

  // The state waits for a message from the client.
  predicate Reads(h: Shared, st: State) {
    st.ReadClientHello? || st.SelectCertificate? || st.SelectParameters? || (st.ReadClientCertificate? && CertReq(h))
    || st.ReadClientKeyExchange? || (st.ReadClientCertificateVerify? && CertReq(h) && h.hasCert)
    || (st.ReadNextProto? && h.f.npn) || (st.ReadChannelId? && h.f.channelId) || st.ReadClientFinished?
  }

  // The message that is on the script at a reading state that takes it.
  predicate Here(h: Shared, st: State) {
    match st
    case SelectParameters => true
    case ReadClientCertificate => CertReq(h)
    case ReadClientKeyExchange => true
    case ReadClientCertificateVerify => CertReq(h) && h.hasCert
    case ReadNextProto => h.f.npn
    case ReadChannelId => h.f.channelId
    case ReadClientFinished => true
    case _ => false
  }

  // What has arrived is what the script says comes next.
  ghost predicate Fed(h: Shared, s: Server) {
    && (s.io.inbox != [] ==> Allowed(h, s.st, s.io.inbox[0]))
    && (s.io.inbox != [] && s.st.ReadClientFinished? ==> s.io.inbox[0].body == h.x.mac(s.io.transcript, false, s.master))
    && (s.st.ProcessChangeCipherSpec? ==> s.io.inbox == [])
  }

  ghost predicate Ready(h: Shared, e: Env, s: Server) { Compatible(h) && Config(h, s) && GoodEnv(h, e) && Fed(h, s) }

  // The message is from the client and on the script here.
  ghost predicate OnScript(h: Shared, s: Server) {
    s.io.inbox != [] && Here(h, s.st) ==> ItemAt(h, ServerPoint(h, s.st)) == Some(ItemOf(s.io.inbox[0]))
  }

  // --- One step, with at most one message ---

  // How the step moves in the script and in the buffers.
  ghost predicate Steps(h: Shared, s: Server, r: Result, d: Deed) {
    && r.wait != Error && r.wait != ReadServerHello && Config(h, r.s)
    && (r.wait == ReadMessage ==> r.s.io.inbox == [] && Reads(h, r.s.st))
    && match d
       case Nothing =>
         && r.s.io == s.io && Skips(h, ServerPoint(h, s.st), ServerAt(h, r.s.st, r.wait))
         && r.s.master == s.master && Known(h, r.s.st) == Known(h, s.st)
       case Taken(m) =>
         && s.io.inbox != [] && m == s.io.inbox[0] && r.s.io == Take(s.io)
         && Carries(h, ServerPoint(h, s.st), ItemOf(m), ServerAt(h, r.s.st, r.wait))
         && (if s.st.SelectParameters? && h.f.resumed then r.s.master == h.x.session && Known(h, r.s.st) && m.kind == ClientHello
             else if m.kind == ClientKeyExchange then
               r.s.master == h.x.prf(r.s.io.transcript) && !Known(h, s.st) && Known(h, r.s.st) && !h.f.resumed
             else r.s.master == s.master && Known(h, r.s.st) == Known(h, s.st))
       case Sent(m) =>
         && r.s.io == Send(s.io, m) && m.kind != Finished && m.kind != ChangeCipherSpec && m.kind != ClientKeyExchange
         && m.fromServer && RightCertificate(h, m)
         && Carries(h, ServerPoint(h, s.st), ItemOf(m), ServerAt(h, r.s.st, r.wait))
         && r.s.master == s.master && Known(h, r.s.st) == Known(h, s.st)
  }

  function Deeds(s: Server, takes: bool): Deed {
    if s.io.inbox != [] && takes then Taken(s.io.inbox[0]) else Nothing
  }

  lemma OnStart(h: Shared, e: Env, s: Server) returns (d: Deed)
    requires Ready(h, e, s) && s.st.StartAccept? && OnScript(h, s)
    ensures Steps(h, s, Go(s, ReadClientHello), d)
  {
    d := Nothing;
  }

  lemma OnClientHello(h: Shared, e: Env, s: Server) returns (d: Deed)
    requires Ready(h, e, s) && s.st.ReadClientHello? && OnScript(h, s)
    ensures Steps(h, s, DoReadClientHello(e, s), d)
  {
    d := Nothing;
  }

  lemma OnSelectCertificate(h: Shared, e: Env, s: Server) returns (d: Deed)
    requires Ready(h, e, s) && s.st.SelectCertificate? && OnScript(h, s)
    ensures Steps(h, s, DoSelectCertificate(e, s), d)
  {
    d := Nothing;
  }

  lemma OnSelectParameters(h: Shared, e: Env, s: Server) returns (d: Deed)
    requires Ready(h, e, s) && s.st.SelectParameters? && OnScript(h, s)
    ensures Steps(h, s, DoSelectParameters(h.x, e, s), d)
  {
    d := Deeds(s, !e.retry);
  }

  lemma OnSendHello(h: Shared, e: Env, s: Server) returns (d: Deed)
    requires Ready(h, e, s) && s.st.SendServerHello? && OnScript(h, s)
    ensures Steps(h, s, DoSendServerHello(h.x, e, s), d)
  {
    d := Sent(Plain(h.x, ServerHello, true));
  }

  lemma OnSendKeyExchange(h: Shared, e: Env, s: Server) returns (d: Deed)
    requires Ready(h, e, s) && s.st.SendServerKeyExchange? && OnScript(h, s)
    ensures Steps(h, s, DoSendServerKeyExchange(h.x, e, s), d)
  {
    d := if h.f.ske && !e.retry then Sent(Plain(h.x, ServerKeyExchange, true)) else Nothing;
  }

  lemma OnCertificate(h: Shared, e: Env, s: Server) returns (d: Deed)
    requires Ready(h, e, s) && s.st.ReadClientCertificate? && OnScript(h, s)
    ensures Steps(h, s, DoReadClientCertificate(e, s), d)
  {
    d := Deeds(s, CertReq(h));
  }

  lemma OnVerify(h: Shared, e: Env, s: Server) returns (d: Deed)
    requires Ready(h, e, s) && s.st.VerifyClientCertificate? && OnScript(h, s)
    ensures Steps(h, s, DoVerifyClientCertificate(e, s), d)
  {
    d := Nothing;
    if s.peerCert && e.verify.Valid? {
      assert DoVerifyClientCertificate(e, s) == Result(s.(verified := true, st := ReadClientKeyExchange), Ok);
    }
  }

  lemma OnKeyExchange(h: Shared, e: Env, s: Server) returns (d: Deed)
    requires Ready(h, e, s) && s.st.ReadClientKeyExchange? && OnScript(h, s)
    ensures Steps(h, s, DoReadClientKeyExchange(h.x, e, s), d)
  {
    d := Deeds(s, !e.retry);
  }

  lemma OnCertificateVerify(h: Shared, e: Env, s: Server) returns (d: Deed)
    requires Ready(h, e, s) && s.st.ReadClientCertificateVerify? && OnScript(h, s)
    ensures Steps(h, s, DoReadClientCertificateVerify(e, s), d)
  {
    d := Deeds(s, CertReq(h) && h.hasCert);
  }

  lemma OnChangeCipherSpec(h: Shared, e: Env, s: Server) returns (d: Deed)
    requires Ready(h, e, s) && s.st.ReadChangeCipherSpecState? && OnScript(h, s)
    ensures Steps(h, s, DoReadChangeCipherSpec(s), d)
  {
    d := Nothing;
  }

  lemma OnProcess(h: Shared, e: Env, s: Server) returns (d: Deed)
    requires Ready(h, e, s) && s.st.ProcessChangeCipherSpec? && OnScript(h, s)
    ensures Steps(h, s, DoProcessChangeCipherSpec(e, s), d)
  {
    d := Nothing;
  }

  lemma OnNextProto(h: Shared, e: Env, s: Server) returns (d: Deed)
    requires Ready(h, e, s) && s.st.ReadNextProto? && OnScript(h, s)
    ensures Steps(h, s, DoReadNextProto(e, s), d)
  {
    d := Deeds(s, h.f.npn);
  }

  lemma OnChannelId(h: Shared, e: Env, s: Server) returns (d: Deed)
    requires Ready(h, e, s) && s.st.ReadChannelId? && OnScript(h, s)
    ensures Steps(h, s, DoReadChannelId(e, s), d)
  {
    d := Deeds(s, h.f.channelId);
    if d.Taken? {
      assert DoReadChannelId(e, s) == Go(s.(io := Take(s.io)), ReadClientFinished);
    } else if !h.f.channelId {
      assert DoReadChannelId(e, s) == Go(s, ReadClientFinished);
    }
  }

  lemma FinishedPoints(h: Shared, next: State)
    requires next == if h.f.resumed then FinishServerHandshake else SendServerFinished
    ensures ServerPoint(h, ReadClientFinished) == AtClientFinished && ServerPoint(h, next) == Following(h, AtClientFinished)
    ensures Known(h, ReadClientFinished) && Known(h, next)
  {
  }

  lemma FinishedTaken(h: Shared, e: Env, s: Server, next: State)
    requires Ready(h, e, s) && s.st.ReadClientFinished? && s.io.inbox != []
    requires next == if h.f.resumed then FinishServerHandshake else SendServerFinished
    ensures var t := s.(io := Take(s.io), finishedAt := Some(|s.io.transcript|), st := next);
            DoReadClientFinished(h.x, e, s) == Result(t, Ok) && Config(h, t)
  {
  }

  lemma OnFinished(h: Shared, e: Env, s: Server) returns (d: Deed)
    requires Ready(h, e, s) && s.st.ReadClientFinished? && OnScript(h, s)
    ensures Steps(h, s, DoReadClientFinished(h.x, e, s), d)
  {
    d := Deeds(s, true);
    var next := if h.f.resumed then FinishServerHandshake else SendServerFinished;
    FinishedPoints(h, next);
    if s.io.inbox == [] {
      assert DoReadClientFinished(h.x, e, s) == Result(s, ReadMessage);
    } else {
      FinishedTaken(h, e, s, next);
    }
  }

  lemma OnComplete(h: Shared, e: Env, s: Server) returns (d: Deed)
    requires Ready(h, e, s) && s.st.FinishServerHandshake? && OnScript(h, s)
    ensures Steps(h, s, Go(s, State.Done), d)
  {
    d := Nothing;
  }

  // --- The steps that send several messages ---

  ghost predicate Local(h: Shared, s: Server) {
    Config(h, s) && Keyed(h, s.io.transcript, s.master, Known(h, s.st)) && Arrived(s.io.inbox, false)
  }

  ghost predicate Stepped(h: Shared, s: Server, r: Result, m: seq<Msg>, sends: bool) {
    && r.wait != Error && Local(h, r.s)
    && Follows(h, ServerPoint(h, s.st), s.io, r.s.io, ServerAt(h, r.s.st, r.wait), m, sends)
    && (sends ==> forall x :: x in m ==> x.fromServer)
    && (r.wait == ReadMessage ==> r.s.io.inbox == [] && Reads(h, r.s.st))
    && r.wait != ReadServerHello
  }

  // At most one more message in a row, kept right.
  lemma KeyedIfMore(h: Shared, a: Io, sent: bool, m: Msg, master: nat, known: bool)
    requires Keyed(h, a.transcript, master, known) && m.kind != ClientKeyExchange && m.kind != Finished && RightCertificate(h, m)
    ensures Keyed(h, (if sent then Send(a, m) else a).transcript, master, known)
  {
    if sent { KeyedMore(h, a.transcript, master, known, m); }
  }

  // The step sends m and leads from p to q.
  lemma Assemble(h: Shared, s: Server, r: Result, m: seq<Msg>, p: Point, q: Point, known: bool)
    requires Local(h, s) && (r.wait == Ok || r.wait == Flush) && Config(h, r.s) && known == Known(h, r.s.st)
    requires Keyed(h, r.s.io.transcript, r.s.master, known)
    requires p == ServerPoint(h, s.st) && q == ServerPoint(h, r.s.st)
    requires Follows(h, p, s.io, r.s.io, q, m, true) && forall x :: x in m ==> x.fromServer
    ensures Stepped(h, s, r, m, true)
  {
  }

  function CertificatesIo(h: Shared, io: Io): Io {
    var a := if h.f.certAuth then Send(io, CertificateOf(h.x, true, true)) else io;
    if h.f.certAuth && h.f.status then Send(a, Plain(h.x, CertificateStatus, true)) else a
  }

  function DoneIo(h: Shared, io: Io): Io {
    Send(if CertReq(h) then Send(io, Plain(h.x, CertificateRequest, true)) else io, Plain(h.x, ServerHelloDone, true))
  }

  lemma CertificatesSent(h: Shared, io: Io, master: nat) returns (m: seq<Msg>)
    requires Keyed(h, io.transcript, master, false)
    ensures var b := CertificatesIo(h, io);
            Follows(h, AtCertificate, io, b, AtKeyExchange, m, true) && Keyed(h, b.transcript, master, false)
    ensures forall x :: x in m ==> x.fromServer
  {
    var c, t := CertificateOf(h.x, true, true), Plain(h.x, CertificateStatus, true);
    var a := if h.f.certAuth then Send(io, c) else io;
    m := if h.f.certAuth then [c] else [];
    FollowsIf(h, AtCertificate, io, h.f.certAuth, c, AtStatus);
    FollowsOnIf(h, AtCertificate, io, a, AtStatus, m, h.f.certAuth && h.f.status, t, AtKeyExchange);
    KeyedIfMore(h, io, h.f.certAuth, c, master, false);
    KeyedIfMore(h, a, h.f.certAuth && h.f.status, t, master, false);
    m := if h.f.certAuth && h.f.status then m + [t] else m;
  }

  lemma CertificatesResult(h: Shared, e: Env, s: Server)
    requires Config(h, s) && GoodEnv(h, e) && s.st.SendServerCertificate?
    ensures DoSendServerCertificate(h.x, e, s) == Result(s.(io := CertificatesIo(h, s.io), st := SendServerKeyExchange), Ok)
    ensures Config(h, s.(io := CertificatesIo(h, s.io), st := SendServerKeyExchange))
    ensures ServerPoint(h, s.st) == AtCertificate && ServerPoint(h, SendServerKeyExchange) == AtKeyExchange
    ensures !Known(h, s.st) && !Known(h, SendServerKeyExchange)
  {
  }

  lemma OnSendCertificate(h: Shared, e: Env, s: Server) returns (m: seq<Msg>)
    requires Local(h, s) && GoodEnv(h, e) && s.st.SendServerCertificate?
    ensures Stepped(h, s, DoSendServerCertificate(h.x, e, s), m, true)
  {
    CertificatesResult(h, e, s);
    m := CertificatesSent(h, s.io, s.master);
    Assemble(h, s, Result(s.(io := CertificatesIo(h, s.io), st := SendServerKeyExchange), Ok), m, AtCertificate, AtKeyExchange, false);
  }

  lemma DoneSent(h: Shared, io: Io, master: nat) returns (m: seq<Msg>)
    requires Keyed(h, io.transcript, master, false)
    ensures var b := DoneIo(h, io);
            Follows(h, AtRequest, io, b, AtClientCertificate, m, true) && Keyed(h, b.transcript, master, false)
    ensures forall x :: x in m ==> x.fromServer
  {
    var q, d := Plain(h.x, CertificateRequest, true), Plain(h.x, ServerHelloDone, true);
    var a := if CertReq(h) then Send(io, q) else io;
    m := if CertReq(h) then [q] else [];
    FollowsIf(h, AtRequest, io, CertReq(h), q, AtHelloDone);
    FollowsOnIf(h, AtRequest, io, a, AtHelloDone, m, true, d, AtClientCertificate);
    KeyedIfMore(h, io, CertReq(h), q, master, false);
    KeyedIfMore(h, a, true, d, master, false);
    m := m + [d];
  }

  lemma DoneResult(h: Shared, e: Env, s: Server)
    requires Config(h, s) && GoodEnv(h, e) && s.st.SendServerHelloDone?
    ensures DoSendServerHelloDone(h.x, e, s) == Result(s.(io := DoneIo(h, s.io), st := ReadClientCertificate), Flush)
    ensures Config(h, s.(io := DoneIo(h, s.io), st := ReadClientCertificate))
    ensures ServerPoint(h, s.st) == AtRequest && ServerPoint(h, ReadClientCertificate) == AtClientCertificate
    ensures !Known(h, s.st) && !Known(h, ReadClientCertificate)
  {
  }

  lemma OnSendDone(h: Shared, e: Env, s: Server) returns (m: seq<Msg>)
    requires Local(h, s) && GoodEnv(h, e) && s.st.SendServerHelloDone?
    ensures Stepped(h, s, DoSendServerHelloDone(h.x, e, s), m, true)
  {
    DoneResult(h, e, s);
    m := DoneSent(h, s.io, s.master);
    Assemble(h, s, Result(s.(io := DoneIo(h, s.io), st := ReadClientCertificate), Flush), m, AtRequest, AtClientCertificate, false);
  }

  function FlightIo(h: Shared, io: Io): Io {
    SendCcs(if h.f.ticket then Send(io, Plain(h.x, NewSessionTicket, true)) else io, true)
  }

  lemma FlightOnScript(h: Shared, io: Io) returns (m: seq<Msg>)
    ensures Follows(h, AtTicket, io, FlightIo(h, io), AtServerFinished, m, true)
    ensures forall x :: x in m ==> x.fromServer
  {
    var t := Plain(h.x, NewSessionTicket, true);
    var a := if h.f.ticket then Send(io, t) else io;
    m := if h.f.ticket then [t] else [];
    FollowsIf(h, AtTicket, io, h.f.ticket, t, AtServerCcs);
    FollowsCcs(h, AtServerCcs, a, true, AtServerFinished);
    FollowsBoth(h, AtTicket, io, a, AtServerCcs, m, SendCcs(a, true), AtServerFinished, [Msg(ChangeCipherSpec, true, 0)]);
    m := m + [Msg(ChangeCipherSpec, true, 0)];
  }

  lemma ServerFlight(h: Shared, io: Io, master: nat) returns (m: seq<Msg>)
    requires Keyed(h, io.transcript, master, true)
    ensures var b := SendFinished(h.x, FlightIo(h, io), true, master);
            && Follows(h, AtTicket, io, b, Following(h, AtServerFinished), m, true)
            && Keyed(h, b.transcript, master, true)
    ensures forall x :: x in m ==> x.fromServer
  {
    var d := FlightIo(h, io);
    var f := Msg(Finished, true, h.x.mac(d.transcript, true, master));
    m := FlightOnScript(h, io);
    FollowsOnIf(h, AtTicket, io, d, AtServerFinished, m, true, f, Following(h, AtServerFinished));
    m := m + [f];
    KeyedIf(h, io, h.f.ticket, Plain(h.x, NewSessionTicket, true), master);
    KeyedFinished(h, d, true, master);
  }

  lemma FlightResult(h: Shared, e: Env, s: Server, st: State)
    requires Config(h, s) && GoodEnv(h, e) && s.st.SendServerFinished?
    requires st == if h.f.resumed then ReadChangeCipherSpecState else FinishServerHandshake
    ensures DoSendServerFinished(h.x, e, s) == Result(s.(io := SendFinished(h.x, FlightIo(h, s.io), true, s.master), st := st), Flush)
    ensures Config(h, s.(io := SendFinished(h.x, FlightIo(h, s.io), true, s.master), st := st))
    ensures ServerPoint(h, s.st) == AtTicket && ServerPoint(h, st) == Following(h, AtServerFinished)
    ensures Known(h, s.st) && Known(h, st)
  {
  }

  lemma OnSendFinished(h: Shared, e: Env, s: Server) returns (m: seq<Msg>)
    requires Local(h, s) && GoodEnv(h, e) && s.st.SendServerFinished?
    ensures Stepped(h, s, DoSendServerFinished(h.x, e, s), m, true)
  {
    var st := if h.f.resumed then ReadChangeCipherSpecState else FinishServerHandshake;
    FlightResult(h, e, s, st);
    m := ServerFlight(h, s.io, s.master);
    Assemble(h, s, Result(s.(io := SendFinished(h.x, FlightIo(h, s.io), true, s.master), st := st), Flush), m, AtTicket,
             Following(h, AtServerFinished), true);
  }

  // --- Every step ---

  lemma FirstOns(h: Shared)
    ensures First(h, AtHello) == Some(Item(ClientHello, false)) && First(h, AtClientKeyExchange) == Some(Item(ClientKeyExchange, false))
    ensures First(h, AtClientFinished) == Some(Item(Finished, false))
    ensures CertReq(h) ==> First(h, AtClientCertificate) == Some(Item(Certificate, false))
    ensures CertReq(h) && h.hasCert ==> First(h, AtVerify) == Some(Item(CertificateVerify, false))
    ensures h.f.npn ==> First(h, AtNextProto) == Some(Item(NextProto, false))
    ensures h.f.channelId ==> First(h, AtChannelId) == Some(Item(ChannelId, false))
  {
  }

  lemma Feeds(h: Shared, s: Server)
    requires Local(h, s) && Expected(h, ServerPoint(h, s.st), s.io) && (s.st.ProcessChangeCipherSpec? ==> s.io.inbox == [])
    ensures Fed(h, s) && OnScript(h, s)
  {
    if s.io.inbox != [] {
      assert s.io.inbox[0] in s.io.inbox;
      NextAllowed(h, s.st, s.io.inbox[0]);
    }
  }

  lemma NextAllowed(h: Shared, st: State, m: Msg)
    requires First(h, ServerPoint(h, st)) == Some(ItemOf(m)) && !m.fromServer && m.kind != ChangeCipherSpec && RightCertificate(h, m)
    ensures Allowed(h, st, m) && (Here(h, st) ==> ItemAt(h, ServerPoint(h, st)) == Some(ItemOf(m)))
  {
    FirstOns(h);
  }

  lemma ReadsAwaits(h: Shared, st: State)
    requires Reads(h, st)
    ensures Awaits(h, ServerPoint(h, st), false)
  {
    FirstOns(h);
  }

  lemma PromoteNothing(h: Shared, s: Server, r: Result)
    requires Local(h, s) && Steps(h, s, r, Nothing)
    ensures Stepped(h, s, r, [], true)
  {
    FollowsNone(h, ServerPoint(h, s.st), s.io, ServerAt(h, r.s.st, r.wait));
  }

  lemma PromoteTaken(h: Shared, s: Server, r: Result, x: Msg)
    requires Local(h, s) && Steps(h, s, r, Taken(x)) && Expected(h, ServerPoint(h, s.st), s.io)
    ensures Stepped(h, s, r, [x], false)
  {
    assert x in s.io.inbox;
    FollowsTake(h, ServerPoint(h, s.st), s.io, ServerAt(h, r.s.st, r.wait));
    if x.kind == ClientKeyExchange { KeyedNow(h, s.io.transcript, s.master, x); }
    else { KeyedMore(h, s.io.transcript, s.master, Known(h, s.st), x); }
  }

  lemma PromoteSent(h: Shared, s: Server, r: Result, x: Msg)
    requires Local(h, s) && Steps(h, s, r, Sent(x))
    ensures Stepped(h, s, r, [x], true)
  {
    FollowsSend(h, ServerPoint(h, s.st), s.io, x, ServerAt(h, r.s.st, r.wait));
    KeyedMore(h, s.io.transcript, s.master, Known(h, s.st), x);
  }

  lemma Promote(h: Shared, s: Server, r: Result, d: Deed) returns (m: seq<Msg>, sends: bool)
    requires Local(h, s) && Steps(h, s, r, d) && Expected(h, ServerPoint(h, s.st), s.io)
    ensures Stepped(h, s, r, m, sends)
  {
    match d
    case Nothing =>
      PromoteNothing(h, s, r);
      m, sends := [], true;
    case Taken(x) =>
      PromoteTaken(h, s, r, x);
      m, sends := [x], false;
    case Sent(x) =>
      PromoteSent(h, s, r, x);
      m, sends := [x], true;
  }

  ghost predicate Runnable(h: Shared, e: Env, s: Server) {
    && Compatible(h) && GoodEnv(h, e) && Local(h, s) && Expected(h, ServerPoint(h, s.st), s.io)
    && (s.st.ProcessChangeCipherSpec? ==> s.io.inbox == [])
  }

  // Whatever state the server is in, its next step does not fail and follows the script: it
  // sends or takes the messages that come next and leads to the point after them.
  lemma Step(h: Shared, e: Env, s: Server) returns (m: seq<Msg>, sends: bool)
    requires Runnable(h, e, s)
    ensures Stepped(h, s, Do(h.x, e, s), m, sends)
  {
    Feeds(h, s);
    if s.st.SendServerCertificate? {
      m := OnSendCertificate(h, e, s);
      sends := true;
    } else if s.st.SendServerHelloDone? {
      m := OnSendDone(h, e, s);
      sends := true;
    } else if s.st.SendServerFinished? {
      m := OnSendFinished(h, e, s);
      sends := true;
    } else {
      var d := OneDeed(h, e, s);
      m, sends := Promote(h, s, Do(h.x, e, s), d);
    }
  }

  lemma OneDeed(h: Shared, e: Env, s: Server) returns (d: Deed)
    requires Ready(h, e, s) && OnScript(h, s)
    requires !s.st.SendServerCertificate? && !s.st.SendServerHelloDone? && !s.st.SendServerFinished?
    ensures Steps(h, s, Do(h.x, e, s), d)
  {
    match s.st
    case StartAccept => d := OnStart(h, e, s);
    case ReadClientHello => d := OnClientHello(h, e, s);
    case SelectCertificate => d := OnSelectCertificate(h, e, s);
    case SelectParameters => d := OnSelectParameters(h, e, s);
    case SendServerHello => d := OnSendHello(h, e, s);
    case SendServerKeyExchange => d := OnSendKeyExchange(h, e, s);
    case ReadClientCertificate => d := OnCertificate(h, e, s);
    case VerifyClientCertificate => d := OnVerify(h, e, s);
    case ReadClientKeyExchange => d := OnKeyExchange(h, e, s);
    case ReadClientCertificateVerify => d := OnCertificateVerify(h, e, s);
    case ReadChangeCipherSpecState => d := OnChangeCipherSpec(h, e, s);
    case ProcessChangeCipherSpec => d := OnProcess(h, e, s);
    case ReadNextProto => d := OnNextProto(h, e, s);
    case ReadChannelId => d := OnChannelId(h, e, s);
    case ReadClientFinished => d := OnFinished(h, e, s);
    case FinishServerHandshake => d := OnComplete(h, e, s);
    case Done => d := Nothing;
  }
}
