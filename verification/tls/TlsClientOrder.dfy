// The order of the messages of a client handshake, whatever the peer sends: what is in the
// transcript in each state, and exactly when a step fails.

module TlsClientOrder {
  import opened TlsMessages
  import opened TlsClient
  import opened TlsClientSafety

  // --- When a step fails ---

  // The kind of message the state reads, if it reads one.
  predicate Reading(c: Client, k: Kind) {
    match c.st
    case ReadHelloVerifyRequest => k == HelloVerifyRequest
    case ReadServerHelloState => k == ServerHello
    case ReadServerCertificate => c.f.certAuth && k == Certificate
    case ReadCertificateStatus => c.f.status && k == CertificateStatus
    case ReadServerKeyExchange => k == ServerKeyExchange
    case ReadCertificateRequest => c.f.certAuth && k == CertificateRequest
    case ReadServerHelloDone => k == ServerHelloDone
    case ReadSessionTicket => c.f.ticket && k == NewSessionTicket
    case ReadServerFinished => k == Finished
    case _ => false
  }

  // A message of another kind ends the handshake: it may not be left out.
  predicate Insists(c: Client) {
    || c.st.ReadServerHelloState? || (c.st.ReadServerCertificate? && c.f.certAuth)
    || (c.st.ReadServerKeyExchange? && c.f.skeRequired)
    || (c.st.ReadCertificateRequest? && c.f.certAuth && c.io.inbox != [] && c.io.inbox[0].kind != ServerHelloDone)
    || c.st.ReadServerHelloDone? || (c.st.ReadSessionTicket? && c.f.ticket) || c.st.ReadServerFinished?
  }

  // The next message is one the state reads.
  predicate Arrived(c: Client) { c.io.inbox != [] && Reading(c, c.io.inbox[0].kind) }

  // What has arrived is not acceptable, however it parses.
  predicate Refuses(x: Crypto, c: Client) {
    || (c.io.inbox != [] && Insists(c) && !Arrived(c))
    || (c.st.ReadServerCertificate? && Arrived(c) && c.io.inbox[0].body == 0)
    || (c.st.ReadServerFinished? && Arrived(c) && c.io.inbox[0].body != x.mac(c.io.transcript, true, c.master))
    || (c.st.ProcessChangeCipherSpec? && c.io.inbox != [])
  }

  // The step does something that can fail besides reading a message.
  predicate Working(c: Client) {
    || c.st.StartConnect? || c.st.SendClientKeyExchange? || c.st.SendClientFinished? || c.st.ProcessChangeCipherSpec?
    || c.st.FinishClientHandshake? || (c.st.FinishFlight? && !c.f.resumed)
    || (c.st.SendClientCertificate? && c.certRequest) || (c.st.SendClientCertificateVerify? && c.certRequest && c.hasCert)
  }

  predicate Fails(x: Crypto, e: Env, c: Client) {
    || Refuses(x, c) || (e.fail && (Arrived(c) || Working(c)))
    || (c.st.VerifyServerCertificate? && c.f.certAuth && e.verify == Invalid)
  }

  // A step fails exactly when a message is not the one expected or not acceptable, when what
  // it does fails, or when the certificate is found invalid.
  lemma StepFails(x: Crypto, e: Env, c: Client)
    requires c.st != State.Done
    ensures Do(x, e, c).wait == Error <==> Fails(x, e, c)
  {
    match c.st
    case ReadHelloVerifyRequest =>
    case ReadCertificateStatus =>
    case ReadServerKeyExchange =>
    case ReadCertificateRequest =>
    case ReadSessionTicket =>
    case _ =>
  }

  // The state cannot go on without a message.
  predicate Awaits(c: Client) {
    || Insists(c) || c.st.ReadHelloVerifyRequest? || (c.st.ReadCertificateStatus? && c.f.status) || c.st.ReadServerKeyExchange?
    || (c.st.ReadCertificateRequest? && c.f.certAuth)
  }

  // The last message of a flight is sent.
  predicate EndsFlight(e: Env, c: Client) {
    || c.st.StartConnect? || (c.st.ReadHelloVerifyRequest? && Arrived(c))
    || (c.st.SendClientFinished? && !(c.f.channelId && e.retry))
  }

  // What makes a step wait for the transport.
  lemma StepAwaits(x: Crypto, e: Env, c: Client)
    requires c.st != State.Done
    ensures var w := Do(x, e, c).wait;
            && (w == ReadServerHello <==> c.io.inbox == [] && c.st.ReadServerHelloState?)
            && (w == ReadMessage <==> c.io.inbox == [] && Awaits(c) && !c.st.ReadServerHelloState?)
            && (w == ReadChangeCipherSpec <==> c.st.ReadSessionTicket? && !Fails(x, e, c) && (c.f.ticket ==> c.io.inbox != []))
            && (w == Flush <==> !Fails(x, e, c) && EndsFlight(e, c))
  {
    match c.st
    case ReadHelloVerifyRequest =>
    case ReadCertificateStatus =>
    case ReadServerKeyExchange =>
    case ReadCertificateRequest =>
    case ReadSessionTicket =>
    case _ =>
  }

  // --- What a step that goes on does ---

  // The flags after the step.
  function FlagsAfter(e: Env, c: Client): Flags {
    if c.st.ReadServerHelloState? then e.nego.(resumed := e.nego.resumed && c.offered) else c.f
  }

  // Whether a certificate has been requested after the step.
  predicate Requested(c: Client) { c.certRequest || (c.st.ReadCertificateRequest? && Arrived(c)) }

  // The next state, and what settles the messages to come.
  ghost predicate Shape(e: Env, c: Client, d: Client) {
    d.st == Following(e, c) && d.f == FlagsAfter(e, c) && d.certRequest == Requested(c) && d.hasCert == c.hasCert
  }

  // The messages in the transcript after it, with those it has read or sent.
  ghost predicate Grows(x: Crypto, c: Client, d: Client, ms: seq<Msg>) {
    d.io.transcript == (if c.st.ReadHelloVerifyRequest? && Arrived(c) then [] else c.io.transcript) + ms
  }

  // A state that reads a message or goes on without.
  ghost predicate Simple(e: Env, c: Client, r: Result) {
    || r.wait == Error || r.c == c
    || (Arrived(c) && r.c == c.(st := Following(e, c), io := Take(c.io), certRequest := c.certRequest || c.st.ReadCertificateRequest?))
    || (!Arrived(c) && r.c == c.(st := Following(e, c)))
  }

  lemma SimpleShape(x: Crypto, e: Env, c: Client, r: Result)
    requires Simple(e, c, r) && r.wait != Error && r.c != c && !c.st.ReadHelloVerifyRequest? && !c.st.ReadServerHelloState?
    ensures Shape(e, c, r.c) && Grows(x, c, r.c, if Arrived(c) then [c.io.inbox[0]] else [])
  {
    if Arrived(c) {
      assert r.c.io == Take(c.io);
    } else {
      assert r.c.io == c.io;
    }
  }

  lemma CertificateSimple(x: Crypto, e: Env, c: Client)
    requires c.st.ReadServerCertificate? || c.st.ReadCertificateStatus?
    ensures Simple(e, c, Do(x, e, c))
  {
    if c.st.ReadServerCertificate? {
      assert Simple(e, c, DoReadServerCertificate(e, c));
    } else {
      assert Simple(e, c, DoReadCertificateStatus(e, c));
    }
  }

  lemma ExchangeSimple(x: Crypto, e: Env, c: Client)
    requires c.st.ReadServerKeyExchange? || c.st.ReadCertificateRequest?
    ensures Simple(e, c, Do(x, e, c))
  {
    if c.st.ReadServerKeyExchange? {
      assert Simple(e, c, DoReadServerKeyExchange(e, c));
    } else {
      assert Simple(e, c, DoReadCertificateRequest(e, c));
    }
  }

  lemma OtherSimple(x: Crypto, e: Env, c: Client)
    requires c.st.ReadServerHelloDone? || c.st.ReadSessionTicket? || c.st.EnterEarlyData? || c.st.FinishClientHandshake?
    ensures Simple(e, c, Do(x, e, c))
  {
    match c.st
    case ReadServerHelloDone => assert Simple(e, c, DoReadServerHelloDone(e, c));
    case ReadSessionTicket => assert Simple(e, c, DoReadSessionTicket(e, c));
    case EnterEarlyData =>
    case FinishClientHandshake =>
  }

  lemma HelloShape(x: Crypto, e: Env, c: Client)
    requires (c.st.ReadHelloVerifyRequest? || c.st.ReadServerHelloState?) && Moved(c, Do(x, e, c))
    ensures Shape(e, c, Do(x, e, c).c)
    ensures Grows(x, c, Do(x, e, c).c, if !Arrived(c) then [] else [if c.st.ReadServerHelloState? then c.io.inbox[0] else Plain(x, ClientHello, false)])
  {
    var d := Do(x, e, c).c;
    if c.st.ReadServerHelloState? {
      assert d == c.(st := Following(e, c), io := Take(c.io), f := FlagsAfter(e, c), master := d.master);
    } else {
      assert d == c.(st := Following(e, c), io := d.io);
    }
  }

  lemma CheckShape(x: Crypto, e: Env, c: Client)
    requires c.st.VerifyServerCertificate? || c.st.ProcessChangeCipherSpec? || c.st.ReadServerFinished? || c.st.FinishFlight?
    requires Moved(c, Do(x, e, c))
    ensures Shape(e, c, Do(x, e, c).c)
    ensures Grows(x, c, Do(x, e, c).c, if Arrived(c) then [c.io.inbox[0]] else [])
  {
    var d := Do(x, e, c).c;
    match c.st
    case VerifyServerCertificate => assert d == c.(st := Following(e, c), verified := d.verified);
    case ProcessChangeCipherSpec => assert d == c.(st := Following(e, c), ccsUsed := true);
    case ReadServerFinished => assert d == c.(st := Following(e, c), io := Take(c.io), finishedAt := d.finishedAt);
    case FinishFlight => assert d == c.(st := Following(e, c));
  }

  // What a state that sends adds to the transcript.
  function Sent(x: Crypto, c: Client): seq<Msg> {
    match c.st
    case StartConnect => [Plain(x, ClientHello, false)]
    case SendClientCertificate => if c.certRequest then [CertificateOf(x, c.hasCert, false)] else []
    case SendClientKeyExchange => [Plain(x, ClientKeyExchange, false)]
    case SendClientCertificateVerify => if c.certRequest && c.hasCert then [Plain(x, CertificateVerify, false)] else []
    case SendClientFinished =>
      var ms := (if c.f.npn then [Plain(x, NextProto, false)] else []) + (if c.f.channelId then [Plain(x, ChannelId, false)] else []);
      ms + [Msg(Finished, false, x.mac(c.io.transcript + ms, false, c.master))]
    case _ => []
  }

  lemma ExchangeShape(x: Crypto, e: Env, c: Client)
    requires c.st.SendClientKeyExchange? && Moved(c, DoSendClientKeyExchange(x, e, c))
    ensures var d := DoSendClientKeyExchange(x, e, c).c; Shape(e, c, d) && Grows(x, c, d, Sent(x, c))
  {
    var d := DoSendClientKeyExchange(x, e, c).c;
    assert d == c.(st := Following(e, c), io := d.io, master := d.master);
  }

  lemma SendingShape(x: Crypto, e: Env, c: Client)
    requires c.st.StartConnect? || c.st.SendClientCertificate? || c.st.SendClientCertificateVerify?
    requires Moved(c, Do(x, e, c))
    ensures Shape(e, c, Do(x, e, c).c) && Grows(x, c, Do(x, e, c).c, Sent(x, c))
  {
    var d := Do(x, e, c).c;
    assert d == c.(st := Following(e, c), io := d.io);
  }

  lemma FinishedShape(x: Crypto, e: Env, c: Client)
    requires c.st.SendClientFinished? && Moved(c, DoSendClientFinished(x, e, c))
    ensures var d := DoSendClientFinished(x, e, c).c; Shape(e, c, d) && Grows(x, c, d, Sent(x, c))
  {
    var d, t := DoSendClientFinished(x, e, c).c, c.io.transcript;
    assert d == c.(st := FinishFlight, io := d.io);
    var n, i := if c.f.npn then [Plain(x, NextProto, false)] else [], if c.f.channelId then [Plain(x, ChannelId, false)] else [];
    var b := if c.f.npn then t + [Plain(x, NextProto, false)] else t;
    assert b == t + n;
    assert (if c.f.channelId then b + [Plain(x, ChannelId, false)] else b) == b + i == t + (n + i);
    var fin := Msg(Finished, false, x.mac(t + (n + i), false, c.master));
    assert t + (n + i) + [fin] == t + ((n + i) + [fin]);
  }

  // --- What is in the transcript ---

  // What settles the messages of a handshake: the flags, whether a certificate was requested
  // and is at hand, and whether the server sent the messages it may leave out.
  datatype Course = Course(f: Flags, certRequest: bool, hasCert: bool, status: bool, ske: bool)

  function EndOfFlight(f: Flags): seq<Kind> { If(f.npn, NextProto) + If(f.channelId, ChannelId) + [Finished] }

  // The messages between one rank and the next.
  function Stage(o: Course, r: nat): seq<Kind> {
    if r == 0 then [ClientHello]
    else if r == 3 then [ServerHello]
    else if r == 4 then If(!o.f.resumed && o.f.certAuth, Certificate)
    else if r == 5 then If(!o.f.resumed && o.status, CertificateStatus)
    else if r == 7 then If(!o.f.resumed && o.ske, ServerKeyExchange)
    else if r == 8 then If(!o.f.resumed && o.certRequest, CertificateRequest)
    else if r == 9 then If(!o.f.resumed, ServerHelloDone)
    else if r == 10 then If(!o.f.resumed && o.certRequest, Certificate)
    else if r == 11 then If(!o.f.resumed, ClientKeyExchange)
    else if r == 12 then If(!o.f.resumed && o.certRequest && o.hasCert, CertificateVerify)
    else if r == 13 then if o.f.resumed then [] else EndOfFlight(o.f)
    else if r == 15 then If(o.f.ticket, NewSessionTicket)
    else if r == 17 then [Finished]
    else if r == 18 then if o.f.resumed then EndOfFlight(o.f) else []
    else []
  }

  // The messages before a rank, in order.
  function Before(o: Course, r: nat): seq<Kind> { if r == 0 then [] else Before(o, r - 1) + Stage(o, r - 1) }

  function CourseOf(c: Client, status: bool, ske: bool): Course { Course(c.f, c.certRequest, c.hasCert, status, ske) }

  lemma {:induction false} SameBefore(o: Course, p: Course, r: nat)
    requires forall q: nat :: q < r ==> Stage(o, q) == Stage(p, q)
    ensures Before(o, r) == Before(p, r)
  {
    if r > 0 { SameBefore(o, p, r - 1); }
  }

  // From one rank to a later one with nothing between.
  lemma {:induction false} SkipRanks(o: Course, a: nat, b: nat)
    requires a <= b && forall q: nat :: a <= q < b ==> Stage(o, q) == []
    ensures Before(o, b) == Before(o, a)
  {
    if a < b { SkipRanks(o, a, b - 1); }
  }

  // --- One step ---

  // The course as it stands after a step.
  function CourseAfter(e: Env, c: Client, o: Course): Course {
    if c.st.ReadServerHelloState? then o.(f := e.nego.(resumed := e.nego.resumed && c.offered))
    else if c.st.ReadCertificateStatus? && Arrived(c) then o.(status := true)
    else if c.st.ReadServerKeyExchange? && Arrived(c) then o.(ske := true)
    else if c.st.ReadCertificateRequest? && Arrived(c) then o.(certRequest := true)
    else o
  }

  // What is known of the course where a state is reached.
  ghost predicate OnCourse(c: Client, o: Course) {
    && Ordered(c) && o == CourseOf(c, o.status, o.ske)
    && (RankOf(c) <= 5 ==> !o.status) && (RankOf(c) <= 7 ==> !o.ske) && (RankOf(c) <= 8 ==> !c.certRequest)
  }

  // A message is read in just the stage where the course has one.
  lemma StageRead(x: Crypto, e: Env, c: Client, o: Course)
    requires c.st != State.Done && !Sends(c.st) && !Fails(x, e, c) && (c.io.inbox == [] ==> !Insists(c)) && OnCourse(c, o)
    ensures Stage(CourseAfter(e, c, o), RankOf(c)) == if Arrived(c) then [c.io.inbox[0].kind] else []
  {
  }

  // What a state sends is what the course has in its stage.
  lemma StageSent(x: Crypto, e: Env, c: Client, o: Course)
    requires Sends(c.st) && !c.st.ReadHelloVerifyRequest? && OnCourse(c, o)
    ensures Stage(CourseAfter(e, c, o), RankOf(c)) == Kinds(Sent(x, c))
  {
    var ms := Sent(x, c);
    if |ms| == 1 && !c.st.SendClientFinished? { KindsOne(ms[0]); }
    if c.st.SendClientFinished? {
      var n, i := if c.f.npn then [Plain(x, NextProto, false)] else [], if c.f.channelId then [Plain(x, ChannelId, false)] else [];
      KindsOne(Plain(x, NextProto, false));
      KindsOne(Plain(x, ChannelId, false));
      KindsOne(ms[|ms| - 1]);
      KindsBoth(n, i);
      KindsBoth(n + i, [ms[|ms| - 1]]);
    }
  }

  // The messages a step adds to the transcript.
  function Said(x: Crypto, c: Client): seq<Msg> {
    if c.st.ReadHelloVerifyRequest? then (if Arrived(c) then [Plain(x, ClientHello, false)] else [])
    else if Sends(c.st) then Sent(x, c)
    else if Arrived(c) then [c.io.inbox[0]] else []
  }

  lemma StepGrows(x: Crypto, e: Env, c: Client)
    requires c.st != State.Done && Moved(c, Do(x, e, c))
    ensures Shape(e, c, Do(x, e, c).c) && Grows(x, c, Do(x, e, c).c, Said(x, c))
  {
    match c.st
    case StartConnect => SendingShape(x, e, c);
    case ReadHelloVerifyRequest => HelloShape(x, e, c);
    case ReadServerHelloState => HelloShape(x, e, c);
    case ReadServerCertificate => SimpleGrows(x, e, c);
    case ReadCertificateStatus => SimpleGrows(x, e, c);
    case ReadServerKeyExchange => SimpleGrows(x, e, c);
    case ReadCertificateRequest => SimpleGrows(x, e, c);
    case SendClientCertificate => SendingShape(x, e, c);
    case SendClientKeyExchange => ExchangeShape(x, e, c);
    case SendClientCertificateVerify => SendingShape(x, e, c);
    case SendClientFinished => FinishedShape(x, e, c);
    case VerifyServerCertificate => CheckShape(x, e, c);
    case ProcessChangeCipherSpec => CheckShape(x, e, c);
    case ReadServerFinished => CheckShape(x, e, c);
    case FinishFlight => CheckShape(x, e, c);
    case _ => SimpleGrows(x, e, c);
  }

  predicate SimpleState(st: State) {
    || st.ReadServerCertificate? || st.ReadCertificateStatus? || st.ReadServerKeyExchange? || st.ReadCertificateRequest?
    || st.ReadServerHelloDone? || st.ReadSessionTicket? || st.EnterEarlyData? || st.FinishClientHandshake?
  }

  lemma SimpleGrows(x: Crypto, e: Env, c: Client)
    requires SimpleState(c.st) && Moved(c, Do(x, e, c))
    ensures Shape(e, c, Do(x, e, c).c) && Grows(x, c, Do(x, e, c).c, Said(x, c))
  {
    if c.st.ReadServerCertificate? || c.st.ReadCertificateStatus? { CertificateSimple(x, e, c); }
    else if c.st.ReadServerKeyExchange? || c.st.ReadCertificateRequest? { ExchangeSimple(x, e, c); }
    else { OtherSimple(x, e, c); }
    SimpleShape(x, e, c, Do(x, e, c));
  }

  // What is said in a step is what comes in its stage. After a HelloVerifyRequest the second
  // ClientHello takes the place of the first.
  lemma SaidInStage(x: Crypto, e: Env, c: Client, o: Course)
    requires OnCourse(c, o) && c.st != State.Done && !Fails(x, e, c) && (c.io.inbox == [] ==> !Insists(c))
    requires Kinds(c.io.transcript) == Before(o, RankOf(c))
    ensures var was := if c.st.ReadHelloVerifyRequest? && Arrived(c) then [] else c.io.transcript;
            Kinds(was + Said(x, c)) == Kinds(c.io.transcript) + Stage(CourseAfter(e, c, o), RankOf(c))
  {
    if c.st.ReadHelloVerifyRequest? {
      SaidAgain(x, e, c, o);
    } else {
      KindsBoth(c.io.transcript, Said(x, c));
      if Sends(c.st) { StageSent(x, e, c, o); } else { SaidRead(x, e, c, o); }
    }
  }

  lemma SaidRead(x: Crypto, e: Env, c: Client, o: Course)
    requires OnCourse(c, o) && c.st != State.Done && !Fails(x, e, c) && (c.io.inbox == [] ==> !Insists(c)) && !Sends(c.st)
    ensures Kinds(Said(x, c)) == Stage(CourseAfter(e, c, o), RankOf(c))
  {
    StageRead(x, e, c, o);
    if Arrived(c) { KindsOne(c.io.inbox[0]); }
  }

  lemma SaidAgain(x: Crypto, e: Env, c: Client, o: Course)
    requires OnCourse(c, o) && c.st.ReadHelloVerifyRequest? && Kinds(c.io.transcript) == Before(o, 2)
    ensures Kinds((if Arrived(c) then [] else c.io.transcript) + Said(x, c)) == Kinds(c.io.transcript) + Stage(CourseAfter(e, c, o), 2)
  {
    var m := Plain(x, ClientHello, false);
    assert Before(o, 2) == Before(o, 1) + Stage(o, 1) == (Before(o, 0) + Stage(o, 0)) + Stage(o, 1);
    KindsOne(m);
    assert [] + [m] == [m] && c.io.transcript + [] == c.io.transcript;
  }

  // A message the state insists on has arrived when the step goes on.
  lemma NotWaiting(x: Crypto, e: Env, c: Client)
    requires c.st != State.Done && Moved(c, Do(x, e, c))
    ensures c.io.inbox == [] ==> !Insists(c)
  {
  }

  // The course goes on from stage to stage.
  lemma CourseOn(e: Env, c: Client, d: Client, o: Course)
    requires OnCourse(c, o) && c.st != State.Done && Shape(e, c, d)
    requires Kinds(c.io.transcript) == Before(o, RankOf(c))
    requires Kinds(d.io.transcript) == Kinds(c.io.transcript) + Stage(CourseAfter(e, c, o), RankOf(c))
    ensures OnCourse(d, CourseAfter(e, c, o)) && Kinds(d.io.transcript) == Before(CourseAfter(e, c, o), RankOf(d))
  {
    var p, r := CourseAfter(e, c, o), RankOf(c);
    FollowingAdvances(e, c);
    CourseSame(e, c, o);
    SameBefore(o, p, r);
    assert Before(p, r + 1) == Before(p, r) + Stage(p, r);
    CourseRest(e, c, d, o);
    SkipRanks(p, r + 1, RankOf(d));
  }

  lemma CourseSame(e: Env, c: Client, o: Course)
    requires OnCourse(c, o) && c.st != State.Done
    ensures forall q: nat :: q < RankOf(c) ==> Stage(o, q) == Stage(CourseAfter(e, c, o), q)
  {
  }

  lemma CourseRest(e: Env, c: Client, d: Client, o: Course)
    requires OnCourse(c, o) && c.st != State.Done && Shape(e, c, d)
    ensures OnCourse(d, CourseAfter(e, c, o))
    ensures forall q: nat :: RankOf(c) < q < RankOf(d) ==> Stage(CourseAfter(e, c, o), q) == []
  {
    FollowingAdvances(e, c);
  }

  // The whole of a full handshake, and of a resumption.
  function FullCourse(o: Course): seq<Kind> {
    [ClientHello, ServerHello] + If(o.f.certAuth, Certificate) + If(o.status, CertificateStatus) + If(o.ske, ServerKeyExchange)
    + If(o.certRequest, CertificateRequest) + [ServerHelloDone] + If(o.certRequest, Certificate) + [ClientKeyExchange]
    + If(o.certRequest && o.hasCert, CertificateVerify) + EndOfFlight(o.f) + If(o.f.ticket, NewSessionTicket) + [Finished]
  }

  function ShortCourse(o: Course): seq<Kind> {
    [ClientHello, ServerHello] + If(o.f.ticket, NewSessionTicket) + [Finished] + EndOfFlight(o.f)
  }

  lemma OneStage(o: Course, r: nat)
    ensures Before(o, r + 1) == Before(o, r) + Stage(o, r)
  {
  }

  lemma Hellos(o: Course)
    ensures Before(o, 4) == [ClientHello, ServerHello]
  {
    OneStage(o, 0);
    SkipRanks(o, 1, 3);
    OneStage(o, 3);
  }

  lemma WholeCourse(o: Course)
    ensures Before(o, 21) == if o.f.resumed then ShortCourse(o) else FullCourse(o)
  {
    Hellos(o);
    if o.f.resumed {
      SkipRanks(o, 4, 15);
      OneStage(o, 15);
      SkipRanks(o, 16, 17);
      OneStage(o, 17);
      OneStage(o, 18);
      SkipRanks(o, 19, 21);
    } else {
      FlightsOf(o);
      OneStage(o, 12);
      OneStage(o, 13);
      SkipRanks(o, 14, 15);
      OneStage(o, 15);
      SkipRanks(o, 16, 17);
      OneStage(o, 17);
      SkipRanks(o, 18, 21);
    }
  }

  // The server's flight and the beginning of the client's.
  lemma FlightsOf(o: Course)
    requires !o.f.resumed
    ensures Before(o, 12) ==
            [ClientHello, ServerHello] + If(o.f.certAuth, Certificate) + If(o.status, CertificateStatus) + If(o.ske, ServerKeyExchange)
            + If(o.certRequest, CertificateRequest) + [ServerHelloDone] + If(o.certRequest, Certificate) + [ClientKeyExchange]
  {
    Hellos(o);
    OneStage(o, 4);
    OneStage(o, 5);
    SkipRanks(o, 6, 7);
    OneStage(o, 7);
    OneStage(o, 8);
    OneStage(o, 9);
    OneStage(o, 10);
    OneStage(o, 11);
  }

  // --- Whole runs ---

  // The transcript is just what the course of the handshake asks for so far. A
  // CertificateStatus came only if announced, a ServerKeyExchange if the cipher needs one, and
  // a CertificateRequest only where certificates are used.
  ghost predicate InOrder(c: Client, o: Course) {
    && OnCourse(c, o) && Kinds(c.io.transcript) == Before(o, RankOf(c))
    && (o.status ==> o.f.status) && (o.certRequest ==> o.f.certAuth)
    && (!o.f.resumed && RankOf(c) > 7 && o.f.skeRequired ==> o.ske)
  }

  lemma OptionsOn(x: Crypto, e: Env, c: Client, d: Client, o: Course)
    requires InOrder(c, o) && c.st != State.Done && !Fails(x, e, c) && Shape(e, c, d)
    requires c.io.inbox == [] ==> !Insists(c)
    ensures var p := CourseAfter(e, c, o);
            && (p.status ==> p.f.status) && (p.certRequest ==> p.f.certAuth)
            && (!p.f.resumed && RankOf(d) > 7 && p.f.skeRequired ==> p.ske)
  {
  }

  lemma OrderStep(x: Crypto, e: Env, c: Client, o: Course)
    requires InOrder(c, o) && c.st != State.Done && Moved(c, Do(x, e, c))
    ensures InOrder(Do(x, e, c).c, CourseAfter(e, c, o))
  {
    var d := Do(x, e, c).c;
    StepFails(x, e, c);
    StepGrows(x, e, c);
    NotWaiting(x, e, c);
    SaidInStage(x, e, c, o);
    CourseOn(e, c, d, o);
    OptionsOn(x, e, c, d, o);
  }

  // Whatever the peer sends, in whatever order, and whatever fails or waits on the way: what
  // the client has read and sent is, in order, just what the flags it negotiated ask for up to
  // the state it is in. So no message is left out, read twice or accepted out of place.
  lemma {:induction false} OrderedRun(x: Crypto, dtls: bool, offered: bool, hasCert: bool, events: seq<Event>) returns (o: Course)
    ensures var r := Run(x, Start(dtls, offered, hasCert), events); r.wait != Error ==> InOrder(r.c, o)
  {
    var start := Start(dtls, offered, hasCert);
    o := CourseOf(start, false, false);
    if events != [] {
      var n := |events| - 1;
      o := OrderedRun(x, dtls, offered, hasCert, events[..n]);
      var r := Run(x, start, events[..n]);
      if r.wait != Error { o := OrderedAdvance(x, r.c, r.wait, events[n], o); }
    }
  }

  // Nothing of what the order depends on has changed.
  predicate Unmoved(c: Client, d: Client) {
    d.st == c.st && d.f == c.f && d.certRequest == c.certRequest && d.hasCert == c.hasCert && d.io.transcript == c.io.transcript
  }

  lemma UnmovedInOrder(c: Client, d: Client, o: Course)
    requires InOrder(c, o) && Unmoved(c, d)
    ensures InOrder(d, o)
  {
  }

  lemma OtherEvents(x: Crypto, c: Client, w: Wait, v: Event)
    requires v.StepWith? ==> w != Ok || c.st == State.Done
    ensures Unmoved(c, Advance(x, c, w, v).c)
  {
    if v.Record? && ReadingWait(w) { ReceiveUnmoved(c, w, v.m); }
    else if v.Flushed? && w == Flush { assert Advance(x, c, w, v).c == c.(io := c.io.(out := [])); }
    else { assert Advance(x, c, w, v).c == c; }
  }

  lemma ReceiveUnmoved(c: Client, w: Wait, record: seq<Msg>)
    ensures Unmoved(c, Receive(c, w, record).c)
  {
    var d := Receive(c, w, record).c;
    assert d == c || d == c.(ccsRead := true) || d == c.(io := c.io.(inbox := c.io.inbox + record));
  }

  lemma OrderedAdvance(x: Crypto, c: Client, w: Wait, v: Event, o: Course) returns (p: Course)
    requires InOrder(c, o) && w != Error
    ensures var r := Advance(x, c, w, v); r.wait != Error ==> InOrder(r.c, p)
  {
    p := o;
    if v.StepWith? && w == Ok && c.st != State.Done {
      if Moved(c, Do(x, v.e, c)) {
        OrderStep(x, v.e, c, o);
        p := CourseAfter(v.e, c, o);
      }
    } else {
      OtherEvents(x, c, w, v);
      UnmovedInOrder(c, Advance(x, c, w, v).c, o);
    }
  }

  // A record is refused exactly when it is a ChangeCipherSpec and none is waited for, or the
  // other way round; its messages wait behind those there are.
  lemma RecordFails(c: Client, w: Wait, record: seq<Msg>)
    requires record != []
    ensures var r := Receive(c, w, record);
            && (r.wait == Error <==> (w == ReadChangeCipherSpec) != (record[0].kind == ChangeCipherSpec))
            && (r.wait != Error && w != ReadChangeCipherSpec ==> r.c.io.inbox == c.io.inbox + record)
            && (r.wait != Error ==> r.wait == Ok && Unmoved(c, r.c))
  {
    ReceiveUnmoved(c, w, record);
  }

  // A record with a ChangeCipherSpec came when one was waited for.
  ghost predicate CcsAt(x: Crypto, start: Result, events: seq<Event>, n: nat)
    requires n < |events|
  {
    && events[n].Record? && events[n].m != [] && events[n].m[0].kind == ChangeCipherSpec
    && RunFrom(x, start, events[..n]).wait == ReadChangeCipherSpec
  }

  ghost predicate CcsCame(x: Crypto, start: Result, events: seq<Event>) {
    events != [] && (CcsAt(x, start, events, |events| - 1) || CcsCame(x, start, events[..|events| - 1]))
  }

  // The ChangeCipherSpec counts as read if and only if such a record has come.
  lemma {:induction false} CcsRead(x: Crypto, start: Result, events: seq<Event>)
    requires !start.c.ccsRead
    ensures var r := RunFrom(x, start, events); r.wait != Error ==> (r.c.ccsRead <==> CcsCame(x, start, events))
  {
    if events != [] {
      var n := |events| - 1;
      CcsRead(x, start, events[..n]);
      var r, v := RunFrom(x, start, events[..n]), events[n];
      if v.StepWith? && r.wait == Ok && r.c.st != State.Done { StepMoves(x, v.e, r.c); }
      else { CcsEvent(x, r.c, r.wait, v); }
    }
  }

  lemma CcsEvent(x: Crypto, c: Client, w: Wait, v: Event)
    requires v.StepWith? ==> w != Ok || c.st == State.Done
    ensures var r := Advance(x, c, w, v);
            r.wait != Error ==>
              w != Error && (r.c.ccsRead <==> c.ccsRead || (v.Record? && w == ReadChangeCipherSpec && v.m != [] && v.m[0].kind == ChangeCipherSpec))
  {
    if v.Flushed? && w == Flush { assert Advance(x, c, w, v).c == c.(io := c.io.(out := [])); }
  }
}
