// The order of the messages of a server handshake, whatever the peer sends: what is in the
// transcript in each state, and exactly when a step fails or waits.

module TlsServerOrder {
  import opened Basics
  import opened TlsMessages
  import opened TlsServer
  import opened TlsServerSafety

  // --- When a step fails ---

  // The kind of message the state reads, if it reads one. None of them may be left out.
  function Wanted(s: Server): Option<Kind> {
    match s.st
    case ReadClientHello => Some(ClientHello)
    case ReadClientCertificate => if s.certRequest then Some(Certificate) else None
    case ReadClientKeyExchange => Some(ClientKeyExchange)
    case ReadClientCertificateVerify => if s.peerCert then Some(CertificateVerify) else None
    case ReadNextProto => if s.f.npn then Some(NextProto) else None
    case ReadChannelId => if s.f.channelId then Some(ChannelId) else None
    case ReadClientFinished => Some(Finished)
    case _ => None
  }

  // The next message is the one the state reads.
  predicate Arrived(s: Server) { s.io.inbox != [] && Wanted(s) == Some(s.io.inbox[0].kind) }

  // What has arrived is not acceptable, however it parses.
  predicate Refuses(x: Crypto, s: Server) {
    || (s.io.inbox != [] && Wanted(s).Some? && !Arrived(s))
    || (s.st.ReadClientCertificate? && Arrived(s) && s.io.inbox[0].body == 0 && s.policy.requireCert)
    || (s.st.ReadClientFinished? && Arrived(s) && s.io.inbox[0].body != x.mac(s.io.transcript, false, s.master))
    || (s.st.ProcessChangeCipherSpec? && s.io.inbox != [])
  }

  // The step does something that can fail besides reading a message.
  predicate Working(s: Server) {
    || ((s.st.SelectCertificate? || s.st.SelectParameters?) && s.io.inbox != [])
    || s.st.SendServerHello? || s.st.SendServerCertificate? || (s.st.SendServerKeyExchange? && s.f.ske)
    || s.st.SendServerHelloDone? || s.st.SendServerFinished? || s.st.ProcessChangeCipherSpec?
  }

  predicate Fails(x: Crypto, e: Env, s: Server) {
    || Refuses(x, s) || (e.fail && (Arrived(s) || Working(s)))
    || (s.st.VerifyClientCertificate? && s.peerCert && e.verify == Invalid)
  }

  // A step fails exactly when a message is not the one expected or not acceptable, when what
  // it does fails, or when the certificate is found invalid.
  lemma StepFails(x: Crypto, e: Env, s: Server)
    requires s.st != State.Done
    ensures Do(x, e, s).wait == Error <==> Fails(x, e, s)
  {
  }

  // What makes each step wait.
  lemma StepWaits(x: Crypto, e: Env, s: Server)
    requires s.st != State.Done
    ensures var w := Do(x, e, s).wait;
            && (w == ReadMessage <==> s.io.inbox == [] && (Wanted(s).Some? || s.st.SelectCertificate? || s.st.SelectParameters?))
            && (w == ReadChangeCipherSpec <==> s.st.ReadChangeCipherSpecState?)
            && (w == Flush <==> (s.st.SendServerHelloDone? || s.st.SendServerFinished?) && !e.fail)
            && (w == CertificateSelectionPending <==> s.st.ReadClientHello? && Arrived(s) && !e.fail && e.retry)
            && (w == X509Lookup <==> s.st.SelectCertificate? && s.io.inbox != [] && !e.fail && e.retry)
            && (w == PendingSession <==> s.st.SelectParameters? && s.io.inbox != [] && !e.fail && e.retry)
            && (w == PrivateKeyOperation <==>
                  ((s.st.SendServerKeyExchange? && s.f.ske) || (s.st.ReadClientKeyExchange? && Arrived(s))) && !e.fail && e.retry)
            && (w == CertificateVerification <==> s.st.VerifyClientCertificate? && s.peerCert && e.verify == Later)
            && w != ReadServerHello && w != ChannelIdLookup && w != EarlyReturn
  {
  }

  // --- What a step that goes on does ---

  // The next state, and what settles the messages to come.
  ghost predicate Shape(e: Env, s: Server, d: Server) {
    && d.st == Following(s) && d.f == FlagsAfter(e, s)
    && d.certRequest == (if s.st.SelectParameters? then Requests(s.policy, e.nego) else s.certRequest)
    && d.peerCert == (if s.st.ReadClientCertificate? && Arrived(s) then s.io.inbox[0].body != 0 else s.peerCert)
    && (s.st.ReadClientHello? || s.st.SelectCertificate? ==> d.io.inbox == s.io.inbox)
  }

  function FlagsAfter(e: Env, s: Server): Flags {
    if s.st.SelectParameters? then e.nego
    else if s.st.SendServerHello? then s.f.(channelId := s.f.channelId && e.keepChannelId)
    else s.f
  }

  // The messages a step adds to the transcript.
  function Said(x: Crypto, s: Server): seq<Msg> {
    match s.st
    case SelectParameters => if s.io.inbox != [] then [s.io.inbox[0]] else []
    case SendServerHello => [Plain(x, ServerHello, true)]
    case SendServerCertificate =>
      if s.f.certAuth then [CertificateOf(x, true, true)] + (if s.f.status then [Plain(x, CertificateStatus, true)] else []) else []
    case SendServerKeyExchange => if s.f.ske then [Plain(x, ServerKeyExchange, true)] else []
    case SendServerHelloDone =>
      (if s.certRequest then [Plain(x, CertificateRequest, true)] else []) + [Plain(x, ServerHelloDone, true)]
    case SendServerFinished =>
      var ms := if s.f.ticket then [Plain(x, NewSessionTicket, true)] else [];
      ms + [Msg(Finished, true, x.mac(s.io.transcript + ms, true, s.master))]
    case ReadClientHello => []
    case _ => if Arrived(s) then [s.io.inbox[0]] else []
  }

  ghost predicate Grows(x: Crypto, s: Server, d: Server) { d.io.transcript == s.io.transcript + Said(x, s) }

  // A state that reads a message or goes on without.
  ghost predicate Simple(s: Server, r: Result) {
    || r.wait == Error || r.s == s
    || (Arrived(s) && r.s == s.(st := Following(s), io := Take(s.io)))
    || (!Arrived(s) && r.s == s.(st := Following(s)))
  }

  lemma SimpleShape(x: Crypto, e: Env, s: Server, r: Result)
    requires Simple(s, r) && r.wait != Error && r.s != s && !Sends(s.st)
    requires !s.st.SelectParameters? && !s.st.ReadClientHello? && !s.st.ReadClientCertificate?
    ensures Shape(e, s, r.s) && Grows(x, s, r.s)
  {
    if Arrived(s) {
      assert r.s.io == Take(s.io);
    } else {
      assert r.s.io == s.io;
    }
  }

  lemma ReadingSimple(x: Crypto, e: Env, s: Server)
    requires s.st.ReadNextProto? || s.st.ReadChannelId?
    ensures Simple(s, Do(x, e, s))
  {
    if s.st.ReadNextProto? {
      assert Simple(s, DoReadNextProto(e, s));
    } else {
      assert Simple(s, DoReadChannelId(e, s));
    }
  }

  lemma SilentSimple(x: Crypto, e: Env, s: Server)
    requires s.st.StartAccept? || s.st.SelectCertificate? || s.st.ReadChangeCipherSpecState? || s.st.FinishServerHandshake?
    ensures Simple(s, Do(x, e, s))
  {
    match s.st
    case StartAccept =>
    case SelectCertificate => assert Simple(s, DoSelectCertificate(e, s));
    case ReadChangeCipherSpecState =>
    case FinishServerHandshake =>
  }

  lemma HelloShape(x: Crypto, e: Env, s: Server)
    requires (s.st.ReadClientHello? || s.st.SelectParameters?) && Moved(s, Do(x, e, s))
    ensures Shape(e, s, Do(x, e, s).s) && Grows(x, s, Do(x, e, s).s)
  {
    var d := Do(x, e, s).s;
    if s.st.ReadClientHello? {
      assert d == s.(st := Following(s));
    } else {
      assert d == s.(st := Following(s), io := Take(s.io), f := e.nego, certRequest := d.certRequest, master := d.master);
    }
  }

  lemma CheckShape(x: Crypto, e: Env, s: Server)
    requires s.st.VerifyClientCertificate? || s.st.ProcessChangeCipherSpec?
    requires Moved(s, Do(x, e, s))
    ensures Shape(e, s, Do(x, e, s).s) && Grows(x, s, Do(x, e, s).s)
  {
    var d := Do(x, e, s).s;
    if s.st.VerifyClientCertificate? {
      assert d == s.(st := Following(s), verified := d.verified);
    } else {
      assert d == s.(st := Following(s), ccsUsed := true);
    }
  }

  lemma CertificateShape(x: Crypto, e: Env, s: Server)
    requires s.st.ReadClientCertificate? && Moved(s, DoReadClientCertificate(e, s))
    ensures var d := DoReadClientCertificate(e, s).s; Shape(e, s, d) && Grows(x, s, d)
  {
    var d := DoReadClientCertificate(e, s).s;
    if s.certRequest {
      assert d == s.(st := Following(s), io := Take(s.io), peerCert := d.peerCert);
    } else {
      assert d == s.(st := Following(s));
    }
  }

  lemma TakingShape(x: Crypto, e: Env, s: Server)
    requires s.st.ReadClientKeyExchange? || s.st.ReadClientCertificateVerify? || s.st.ReadClientFinished?
    requires Moved(s, Do(x, e, s))
    ensures Shape(e, s, Do(x, e, s).s) && Grows(x, s, Do(x, e, s).s)
  {
    var d := Do(x, e, s).s;
    if s.st.ReadClientKeyExchange? {
      assert d == s.(st := Following(s), io := Take(s.io), master := d.master);
    } else if s.st.ReadClientFinished? {
      assert d == s.(st := Following(s), io := Take(s.io), finishedAt := d.finishedAt);
    } else if s.peerCert {
      assert d == s.(st := Following(s), io := Take(s.io), proved := true);
    } else {
      assert d == s.(st := Following(s));
    }
  }

  lemma ServerHelloShape(x: Crypto, e: Env, s: Server)
    requires s.st.SendServerHello? && Moved(s, DoSendServerHello(x, e, s))
    ensures var d := DoSendServerHello(x, e, s).s; Shape(e, s, d) && Grows(x, s, d)
  {
    var d := DoSendServerHello(x, e, s).s;
    assert d == s.(st := Following(s), io := d.io, f := FlagsAfter(e, s));
  }

  lemma SendingShape(x: Crypto, e: Env, s: Server)
    requires s.st.SendServerCertificate? || s.st.SendServerKeyExchange? || s.st.SendServerHelloDone? || s.st.SendServerFinished?
    requires Moved(s, Do(x, e, s))
    ensures Shape(e, s, Do(x, e, s).s) && Grows(x, s, Do(x, e, s).s)
  {
    var d := Do(x, e, s).s;
    assert d == s.(st := Following(s), io := d.io);
    match s.st
    case SendServerCertificate => CertificateGrows(x, e, s);
    case SendServerKeyExchange => assert d.io.transcript == s.io.transcript + Said(x, s);
    case SendServerHelloDone => DoneGrows(x, e, s);
    case SendServerFinished => FinishedGrows(x, e, s);
  }

  lemma CertificateGrows(x: Crypto, e: Env, s: Server)
    requires s.st.SendServerCertificate? && Moved(s, DoSendServerCertificate(x, e, s))
    ensures Grows(x, s, DoSendServerCertificate(x, e, s).s)
  {
    var t, m, n := s.io.transcript, CertificateOf(x, true, true), Plain(x, CertificateStatus, true);
    assert (t + [m]) + [n] == t + ([m] + [n]) && [m] + [] == [m] && t + [] == t;
  }

  lemma DoneGrows(x: Crypto, e: Env, s: Server)
    requires s.st.SendServerHelloDone? && Moved(s, DoSendServerHelloDone(x, e, s))
    ensures Grows(x, s, DoSendServerHelloDone(x, e, s).s)
  {
    var t, m, n := s.io.transcript, Plain(x, CertificateRequest, true), Plain(x, ServerHelloDone, true);
    assert (t + [m]) + [n] == t + ([m] + [n]) && [] + [n] == [n];
  }

  lemma FinishedGrows(x: Crypto, e: Env, s: Server)
    requires s.st.SendServerFinished? && Moved(s, DoSendServerFinished(x, e, s))
    ensures Grows(x, s, DoSendServerFinished(x, e, s).s)
  {
    var t := s.io.transcript;
    var ms := if s.f.ticket then [Plain(x, NewSessionTicket, true)] else [];
    assert (if s.f.ticket then t + [Plain(x, NewSessionTicket, true)] else t) == t + ms;
    var fin := Msg(Finished, true, x.mac(t + ms, true, s.master));
    assert t + ms + [fin] == t + (ms + [fin]);
  }

  lemma StepGrows(x: Crypto, e: Env, s: Server)
    requires s.st != State.Done && Moved(s, Do(x, e, s))
    ensures Shape(e, s, Do(x, e, s).s) && Grows(x, s, Do(x, e, s).s)
  {
    match s.st
    case ReadClientHello => HelloShape(x, e, s);
    case SelectParameters => HelloShape(x, e, s);
    case SendServerHello => ServerHelloShape(x, e, s);
    case SendServerCertificate => SendingShape(x, e, s);
    case SendServerKeyExchange => SendingShape(x, e, s);
    case SendServerHelloDone => SendingShape(x, e, s);
    case SendServerFinished => SendingShape(x, e, s);
    case ReadClientCertificate => CertificateShape(x, e, s);
    case VerifyClientCertificate => CheckShape(x, e, s);
    case ProcessChangeCipherSpec => CheckShape(x, e, s);
    case ReadClientKeyExchange => TakingShape(x, e, s);
    case ReadClientCertificateVerify => TakingShape(x, e, s);
    case ReadClientFinished => TakingShape(x, e, s);
    case _ => SimpleGrows(x, e, s);
  }

  predicate SimpleState(st: State) {
    || st.ReadNextProto? || st.ReadChannelId? || st.StartAccept? || st.SelectCertificate? || st.ReadChangeCipherSpecState?
    || st.FinishServerHandshake?
  }

  lemma SimpleGrows(x: Crypto, e: Env, s: Server)
    requires SimpleState(s.st) && Moved(s, Do(x, e, s))
    ensures Shape(e, s, Do(x, e, s).s) && Grows(x, s, Do(x, e, s).s)
  {
    if s.st.ReadNextProto? || s.st.ReadChannelId? { ReadingSimple(x, e, s); } else { SilentSimple(x, e, s); }
    SimpleShape(x, e, s, Do(x, e, s));
  }

  // --- What is in the transcript ---

  // What settles the messages of a handshake.
  datatype Course = Course(f: Flags, certRequest: bool, peerCert: bool)

  function LastFlight(f: Flags): seq<Kind> { If(f.ticket, NewSessionTicket) + [Finished] }

  // The messages between one rank and the next.
  function Stage(o: Course, r: nat): seq<Kind> {
    if r == 3 then [ClientHello]
    else if r == 4 then [ServerHello]
    else if r == 5 then
      if o.f.resumed then LastFlight(o.f) else If(o.f.certAuth, Certificate) + If(o.f.certAuth && o.f.status, CertificateStatus)
    else if r == 6 then If(!o.f.resumed && o.f.ske, ServerKeyExchange)
    else if r == 7 then if o.f.resumed then [] else If(o.certRequest, CertificateRequest) + [ServerHelloDone]
    else if r == 8 then If(!o.f.resumed && o.certRequest, Certificate)
    else if r == 10 then If(!o.f.resumed, ClientKeyExchange)
    else if r == 11 then If(!o.f.resumed && o.peerCert, CertificateVerify)
    else if r == 14 then If(o.f.npn, NextProto)
    else if r == 15 then If(o.f.channelId, ChannelId)
    else if r == 16 then [Finished]
    else if r == 17 then if o.f.resumed then [] else LastFlight(o.f)
    else []
  }

  // The messages before a rank, in order.
  function Before(o: Course, r: nat): seq<Kind> { if r == 0 then [] else Before(o, r - 1) + Stage(o, r - 1) }

  function CourseOf(s: Server): Course { Course(s.f, s.certRequest, s.peerCert) }

  lemma KindsTwo(m: Msg, n: Msg)
    ensures Kinds([m] + [n]) == [m.kind] + [n.kind]
  {
    KindsBoth([m], [n]);
    KindsOne(m);
    KindsOne(n);
  }

  lemma {:induction false} SameBefore(o: Course, p: Course, r: nat)
    requires forall q: nat :: q < r ==> Stage(o, q) == Stage(p, q)
    ensures Before(o, r) == Before(p, r)
  {
    if r > 0 { SameBefore(o, p, r - 1); }
  }

  // From one rank to a later one with nothing between.
  lemma {:induction false} SkipRanks(o: Course, a: nat, b: nat)
    requires a <= b && forall q: nat :: a <= q < b ==> Stage(o, q) == []
    ensures Before(o, b) == Before(o, a)
  {
    if a < b { SkipRanks(o, a, b - 1); }
  }

  // The transcript is just what the course of the handshake asks for so far. The ClientHello
  // stays at hand until it is read for good.
  ghost predicate InOrder(s: Server) {
    && OnCourse(s) && Kinds(s.io.transcript) == Before(CourseOf(s), RankOf(s))
  }

  ghost predicate OnCourse(s: Server) {
    && Ordered(s) && (RankOf(s) <= 8 ==> !s.peerCert) && (RankOf(s) <= 3 ==> !s.certRequest)
    && (s.st.SelectCertificate? || s.st.SelectParameters? ==> s.io.inbox != [] && s.io.inbox[0].kind == ClientHello)
  }

  // --- One step ---

  // What is said in a step is what comes in its stage.
  lemma SaidInStage(x: Crypto, e: Env, s: Server, d: Server)
    requires OnCourse(s) && s.st != State.Done && !Fails(x, e, s) && (s.io.inbox == [] ==> Wanted(s) == None) && Shape(e, s, d)
    ensures Kinds(Said(x, s)) == Stage(CourseOf(d), RankOf(s))
  {
    if Sends(s.st) {
      SentInStage(x, e, s, d);
    } else if s.io.inbox != [] {
      KindsOne(s.io.inbox[0]);
    }
  }

  lemma SentInStage(x: Crypto, e: Env, s: Server, d: Server)
    requires OnCourse(s) && Sends(s.st) && Shape(e, s, d)
    ensures Kinds(Said(x, s)) == Stage(CourseOf(d), RankOf(s))
  {
    var ms := Said(x, s);
    if |ms| == 1 { KindsOne(ms[0]); }
    if |ms| == 2 {
      assert ms == [ms[0]] + [ms[1]];
      KindsTwo(ms[0], ms[1]);
    }
  }

  // A message the state wants has arrived when the step goes on.
  lemma NotWaiting(x: Crypto, e: Env, s: Server)
    requires s.st != State.Done && Moved(s, Do(x, e, s))
    ensures s.io.inbox == [] ==> Wanted(s) == None
  {
    if s.io.inbox == [] && Wanted(s).Some? { StepWaits(x, e, s); WaitsStay(x, e, s); }
  }

  lemma WaitsStay(x: Crypto, e: Env, s: Server)
    requires s.io.inbox == [] && Wanted(s).Some?
    ensures Do(x, e, s).s == s
  {
  }

  lemma CourseSame(e: Env, s: Server, d: Server)
    requires OnCourse(s) && s.st != State.Done && Shape(e, s, d)
    ensures forall q: nat :: q < RankOf(s) ==> Stage(CourseOf(s), q) == Stage(CourseOf(d), q)
  {
  }

  lemma CourseRest(e: Env, s: Server, d: Server)
    requires OnCourse(s) && s.st != State.Done && Shape(e, s, d)
    requires s.st.ReadClientHello? ==> s.io.inbox != [] && s.io.inbox[0].kind == ClientHello
    ensures OnCourse(d)
    ensures forall q: nat :: RankOf(s) < q < RankOf(d) ==> Stage(CourseOf(d), q) == []
  {
    FollowingAdvances(e, s);
  }

  lemma OrderStep(x: Crypto, e: Env, s: Server)
    requires InOrder(s) && s.st != State.Done && Moved(s, Do(x, e, s))
    ensures InOrder(Do(x, e, s).s)
  {
    var d := Do(x, e, s).s;
    StepFails(x, e, s);
    StepGrows(x, e, s);
    NotWaiting(x, e, s);
    KindsBoth(s.io.transcript, Said(x, s));
    SaidInStage(x, e, s, d);
    CourseOn(e, s, d);
  }

  // The course goes on from stage to stage.
  lemma CourseOn(e: Env, s: Server, d: Server)
    requires InOrder(s) && s.st != State.Done && Shape(e, s, d)
    requires s.st.ReadClientHello? ==> s.io.inbox != [] && s.io.inbox[0].kind == ClientHello
    requires Kinds(d.io.transcript) == Kinds(s.io.transcript) + Stage(CourseOf(d), RankOf(s))
    ensures InOrder(d)
  {
    var p, r := CourseOf(d), RankOf(s);
    FollowingAdvances(e, s);
    CourseSame(e, s, d);
    SameBefore(CourseOf(s), p, r);
    assert Before(p, r + 1) == Before(p, r) + Stage(p, r);
    CourseRest(e, s, d);
    SkipRanks(p, r + 1, RankOf(d));
  }

  // --- Whole runs ---

  // Whatever the peer sends, in whatever order, and whatever fails or waits on the way: what
  // the server has read and sent is, in order, just what the flags it settled on ask for up to
  // the state it is in. So no message is left out, read twice or accepted out of place.
  lemma {:induction false} OrderedRun(x: Crypto, p: Policy, events: seq<Event>)
    ensures var r := Run(x, Start(p), events); r.wait != Error ==> InOrder(r.s)
  {
    if events != [] {
      var n := |events| - 1;
      OrderedRun(x, p, events[..n]);
      var r := Run(x, Start(p), events[..n]);
      if r.wait != Error { OrderedAdvance(x, r.s, r.wait, events[n]); }
    }
  }

  // Nothing of what the order depends on has changed, but messages have arrived.
  predicate Unmoved(s: Server, d: Server) {
    && d.st == s.st && d.f == s.f && d.certRequest == s.certRequest && d.peerCert == s.peerCert
    && d.io.transcript == s.io.transcript && s.io.inbox <= d.io.inbox
  }

  lemma UnmovedInOrder(s: Server, d: Server)
    requires InOrder(s) && Unmoved(s, d)
    ensures InOrder(d)
  {
  }

  lemma OtherEvents(x: Crypto, s: Server, w: Wait, v: Event)
    requires v.StepWith? ==> w != Ok || s.st == State.Done
    ensures Unmoved(s, Advance(x, s, w, v).s)
  {
    if v.Record? && ReadingWait(w) { ReceiveUnmoved(s, w, v.m); }
    else if v.Flushed? && w == Flush { assert Advance(x, s, w, v).s == s.(io := s.io.(out := [])); }
    else { assert Advance(x, s, w, v).s == s; }
  }

  lemma ReceiveUnmoved(s: Server, w: Wait, record: seq<Msg>)
    ensures Unmoved(s, Receive(s, w, record).s)
  {
    var d := Receive(s, w, record).s;
    assert d == s || d == s.(ccsRead := true) || d == s.(io := s.io.(inbox := s.io.inbox + record));
  }

  lemma OrderedAdvance(x: Crypto, s: Server, w: Wait, v: Event)
    requires InOrder(s) && w != Error
    ensures var r := Advance(x, s, w, v); r.wait != Error ==> InOrder(r.s)
  {
    if v.StepWith? && w == Ok && s.st != State.Done {
      if Moved(s, Do(x, v.e, s)) { OrderStep(x, v.e, s); }
    } else {
      OtherEvents(x, s, w, v);
      UnmovedInOrder(s, Advance(x, s, w, v).s);
    }
  }

  // A record is refused exactly when it is a ChangeCipherSpec and none is waited for, or the
  // other way round; its messages wait behind those there are.
  lemma RecordFails(s: Server, w: Wait, record: seq<Msg>)
    requires record != []
    ensures var r := Receive(s, w, record);
            && (r.wait == Error <==> (w == ReadChangeCipherSpec) != (record[0].kind == ChangeCipherSpec))
            && (r.wait != Error && w != ReadChangeCipherSpec ==> r.s.io.inbox == s.io.inbox + record)
            && (r.wait != Error ==> r.wait == Ok && Unmoved(s, r.s))
  {
    ReceiveUnmoved(s, w, record);
  }

  // A record with a ChangeCipherSpec came when one was waited for.
  ghost predicate CcsAt(x: Crypto, start: Result, events: seq<Event>, n: nat)
    requires n < |events|
  {
    && events[n].Record? && events[n].m != [] && events[n].m[0].kind == ChangeCipherSpec
    && RunFrom(x, start, events[..n]).wait == ReadChangeCipherSpec
  }

  ghost predicate CcsCame(x: Crypto, start: Result, events: seq<Event>) {
    events != [] && (CcsAt(x, start, events, |events| - 1) || CcsCame(x, start, events[..|events| - 1]))
  }

  // The ChangeCipherSpec counts as read if and only if such a record has come.
  lemma {:induction false} CcsRead(x: Crypto, start: Result, events: seq<Event>)
    requires !start.s.ccsRead
    ensures var r := RunFrom(x, start, events); r.wait != Error ==> (r.s.ccsRead <==> CcsCame(x, start, events))
  {
    if events != [] {
      var n := |events| - 1;
      CcsRead(x, start, events[..n]);
      var r, v := RunFrom(x, start, events[..n]), events[n];
      if v.StepWith? && r.wait == Ok && r.s.st != State.Done { StepMoves(x, v.e, r.s); }
      else { CcsEvent(x, r.s, r.wait, v); }
    }
  }

  lemma CcsEvent(x: Crypto, s: Server, w: Wait, v: Event)
    requires v.StepWith? ==> w != Ok || s.st == State.Done
    ensures var r := Advance(x, s, w, v);
            r.wait != Error ==>
              w != Error && (r.s.ccsRead <==> s.ccsRead || (v.Record? && w == ReadChangeCipherSpec && v.m != [] && v.m[0].kind == ChangeCipherSpec))
  {
    if v.Flushed? && w == Flush { assert Advance(x, s, w, v).s == s.(io := s.io.(out := [])); }
  }

  // The server never returns early.
  lemma {:induction false} NeverEarly(x: Crypto, start: Result, events: seq<Event>)
    requires start.wait != EarlyReturn
    ensures RunFrom(x, start, events).wait != EarlyReturn
  {
    if events != [] {
      var n := |events| - 1;
      NeverEarly(x, start, events[..n]);
      var r, v := RunFrom(x, start, events[..n]), events[n];
      if v.StepWith? && r.wait == Ok && r.s.st != State.Done { StepWaits(x, v.e, r.s); }
    }
  }
}
