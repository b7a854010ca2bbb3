// What the client has checked when it reaches its last state, whatever the peer sends and
// whatever fails or waits on the way; and that every step makes progress.

module TlsClientSafety {
  import opened TlsMessages
  import opened TlsClient

  // --- Progress ---

  // The states in the order a handshake goes through them. A resumption reads the server's
  // Finished before it sends its own.
  function Rank(resumed: bool, st: State): nat {
    match st
    case StartConnect => 0
    case EnterEarlyData => 1
    case ReadHelloVerifyRequest => 2
    case ReadServerHelloState => 3
    case ReadServerCertificate => 4
    case ReadCertificateStatus => 5
    case VerifyServerCertificate => 6
    case ReadServerKeyExchange => 7
    case ReadCertificateRequest => 8
    case ReadServerHelloDone => 9
    case SendClientCertificate => 10
    case SendClientKeyExchange => 11
    case SendClientCertificateVerify => 12
    case SendClientFinished => if resumed then 18 else 13
    case FinishFlight => if resumed then 19 else 14
    case ReadSessionTicket => 15
    case ProcessChangeCipherSpec => 16
    case ReadServerFinished => 17
    case FinishClientHandshake => 20
    case Done => 21
  }

  function RankOf(c: Client): nat { Rank(c.f.resumed, c.st) }

  // Only the end of the handshake is reached in a resumption.
  predicate Ordered(c: Client) { c.f.resumed ==> Rank(true, c.st) >= 15 }

  // Where each state leads.
  function Following(e: Env, c: Client): State {
    match c.st
    case StartConnect => EnterEarlyData
    case EnterEarlyData => if c.dtls then ReadHelloVerifyRequest else ReadServerHelloState
    case ReadHelloVerifyRequest => ReadServerHelloState
    case ReadServerHelloState => if e.nego.resumed && c.offered then ReadSessionTicket else ReadServerCertificate
    case ReadServerCertificate => ReadCertificateStatus
    case ReadCertificateStatus => VerifyServerCertificate
    case VerifyServerCertificate => ReadServerKeyExchange
    case ReadServerKeyExchange => ReadCertificateRequest
    case ReadCertificateRequest => ReadServerHelloDone
    case ReadServerHelloDone => SendClientCertificate
    case SendClientCertificate => SendClientKeyExchange
    case SendClientKeyExchange => SendClientCertificateVerify
    case SendClientCertificateVerify => SendClientFinished
    case SendClientFinished => FinishFlight
    case FinishFlight => if c.f.resumed then FinishClientHandshake else ReadSessionTicket
    case ReadSessionTicket => ProcessChangeCipherSpec
    case ProcessChangeCipherSpec => ReadServerFinished
    case ReadServerFinished => if c.f.resumed then SendClientFinished else FinishClientHandshake
    case FinishClientHandshake => State.Done
    case Done => State.Done
  }

  // Whether the handshake is a resumption after the step.
  predicate Resumes(e: Env, c: Client) {
    if c.st.ReadServerHelloState? then e.nego.resumed && c.offered else c.f.resumed
  }

  // A step fails, or leaves everything as it is and waits, or moves on.
  predicate Moves(e: Env, c: Client, r: Result) {
    || r.wait == Error
    || (r.c == c && r.wait != Ok && r.wait != ReadChangeCipherSpec && (ReadingWait(r.wait) || e.retry || e.verify == Later))
    || (r.c.st == Following(e, c) && r.c.f.resumed == Resumes(e, c))
  }

  // The states in the middle of a flight.
  predicate Sending(st: State) { st.SendClientKeyExchange? || st.SendClientCertificateVerify? || st.SendClientFinished? }

  // The states that send messages.
  predicate Sends(st: State) {
    st.StartConnect? || st.ReadHelloVerifyRequest? || st.SendClientCertificate? || st.SendClientKeyExchange?
    || st.SendClientCertificateVerify? || st.SendClientFinished?
  }

  // What a step that moves on does to the record of checks.
  predicate Checks(x: Crypto, c: Client, r: Result) {
    && r.c.ccsRead == c.ccsRead && r.c.offered == c.offered
    && r.c.ccsUsed == (c.ccsUsed || c.st.ProcessChangeCipherSpec?)
    && r.c.verified == (c.verified || (c.st.VerifyServerCertificate? && c.f.certAuth))
    && (if c.st.ReadServerFinished? then FinishedChecked(x, r.c) else r.c.finishedAt == c.finishedAt)
    && (c.st.ReadServerHelloState? || (r.c.f == c.f && (c.st.SendClientKeyExchange? || r.c.master == c.master)))
    && (c.st.ReadHelloVerifyRequest? || c.io.transcript <= r.c.io.transcript)
    && (r.wait == ReadChangeCipherSpec <==> c.st.ReadSessionTicket?)
    && (r.wait == Flush || Sending(r.c.st) || (r.c.io.out == c.io.out && !Sending(c.st)))
    && (Sends(c.st) || r.c.io.out == c.io.out)
  }

  // A Finished with the verify data of everything before it was taken.
  predicate FinishedChecked(x: Crypto, c: Client) {
    && c.finishedAt.Some? && c.finishedAt.value < |c.io.transcript|
    && var i := c.finishedAt.value;
       c.io.transcript[i].kind == Finished && c.io.transcript[i].body == x.mac(c.io.transcript[..i], true, c.master)
  }

  predicate Moved(c: Client, r: Result) { r.wait != Error && r.c != c }

  // A state that waits for a message, takes one, or goes on without.
  predicate Reads(e: Env, c: Client, r: Result) {
    || r.wait == Error || r == Result(c, ReadMessage)
    || (r.wait == Ok && r.c == c.(st := Following(e, c), io := r.c.io, certRequest := r.c.certRequest)
        && (r.c.io == c.io || (c.io.inbox != [] && r.c.io == Take(c.io))))
  }

  lemma ReadingMoves(x: Crypto, e: Env, c: Client, r: Result)
    requires c.st.ReadServerCertificate? || c.st.ReadCertificateStatus? || c.st.ReadServerKeyExchange? || c.st.ReadCertificateRequest?
    requires Reads(e, c, r)
    ensures Moves(e, c, r) && (Moved(c, r) ==> Checks(x, c, r))
  {
  }

  lemma StartConnectMoves(x: Crypto, e: Env, c: Client)
    requires c.st.StartConnect?
    ensures var r := DoStartConnect(x, e, c); Moves(e, c, r) && (Moved(c, r) ==> Checks(x, c, r))
  {
  }

  lemma EnterEarlyDataMoves(x: Crypto, e: Env, c: Client)
    requires c.st.EnterEarlyData?
    ensures var r := DoEnterEarlyData(c); Moves(e, c, r) && (Moved(c, r) ==> Checks(x, c, r))
  {
  }

  lemma ReadHelloVerifyRequestMoves(x: Crypto, e: Env, c: Client)
    requires c.st.ReadHelloVerifyRequest?
    ensures var r := DoReadHelloVerifyRequest(x, e, c); Moves(e, c, r) && (Moved(c, r) ==> Checks(x, c, r))
  {
    var r := DoReadHelloVerifyRequest(x, e, c);
    if r.wait == Ok {
      assert Moves(e, c, r) && Checks(x, c, r);
    } else if r.wait == Flush {
      assert r.c == c.(io := r.c.io, st := ReadServerHelloState);
    } else {
      assert r.wait == Error || r == Result(c, ReadMessage);
    }
  }

  lemma ReadServerHelloStateMoves(x: Crypto, e: Env, c: Client)
    requires c.st.ReadServerHelloState?
    ensures var r := DoReadServerHello(x, e, c); Moves(e, c, r) && (Moved(c, r) ==> Checks(x, c, r))
  {
  }

  lemma ReadServerCertificateMoves(x: Crypto, e: Env, c: Client)
    requires c.st.ReadServerCertificate?
    ensures var r := DoReadServerCertificate(e, c); Moves(e, c, r) && (Moved(c, r) ==> Checks(x, c, r))
  {
    ReadingMoves(x, e, c, DoReadServerCertificate(e, c));
  }

  lemma StatusReads(e: Env, c: Client)
    requires c.st.ReadCertificateStatus?
    ensures Reads(e, c, DoReadCertificateStatus(e, c))
  {
    var r := DoReadCertificateStatus(e, c);
    if c.f.status && c.io.inbox != [] && c.io.inbox[0].kind == CertificateStatus && !e.fail {
      assert r.c.io == Take(c.io);
    } else if r.wait == Ok {
      assert r == Go(c, VerifyServerCertificate);
    }
  }

  lemma ReadCertificateStatusMoves(x: Crypto, e: Env, c: Client)
    requires c.st.ReadCertificateStatus?
    ensures var r := DoReadCertificateStatus(e, c); Moves(e, c, r) && (Moved(c, r) ==> Checks(x, c, r))
  {
    StatusReads(e, c);
    ReadingMoves(x, e, c, DoReadCertificateStatus(e, c));
  }

  lemma VerifyServerCertificateMoves(x: Crypto, e: Env, c: Client)
    requires c.st.VerifyServerCertificate?
    ensures var r := DoVerifyServerCertificate(e, c); Moves(e, c, r) && (Moved(c, r) ==> Checks(x, c, r))
  {
  }

  lemma ReadServerKeyExchangeMoves(x: Crypto, e: Env, c: Client)
    requires c.st.ReadServerKeyExchange?
    ensures var r := DoReadServerKeyExchange(e, c); Moves(e, c, r) && (Moved(c, r) ==> Checks(x, c, r))
  {
    ReadingMoves(x, e, c, DoReadServerKeyExchange(e, c));
  }

  lemma ReadCertificateRequestMoves(x: Crypto, e: Env, c: Client)
    requires c.st.ReadCertificateRequest?
    ensures var r := DoReadCertificateRequest(e, c); Moves(e, c, r) && (Moved(c, r) ==> Checks(x, c, r))
  {
    ReadingMoves(x, e, c, DoReadCertificateRequest(e, c));
  }

  lemma ReadServerHelloDoneMoves(x: Crypto, e: Env, c: Client)
    requires c.st.ReadServerHelloDone?
    ensures var r := DoReadServerHelloDone(e, c); Moves(e, c, r) && (Moved(c, r) ==> Checks(x, c, r))
  {
  }

  lemma SendClientCertificateMoves(x: Crypto, e: Env, c: Client)
    requires c.st.SendClientCertificate?
    ensures var r := DoSendClientCertificate(x, e, c); Moves(e, c, r) && (Moved(c, r) ==> Checks(x, c, r))
  {
  }

  lemma SendClientKeyExchangeMoves(x: Crypto, e: Env, c: Client)
    requires c.st.SendClientKeyExchange?
    ensures var r := DoSendClientKeyExchange(x, e, c); Moves(e, c, r) && (Moved(c, r) ==> Checks(x, c, r))
  {
  }

  lemma SendClientCertificateVerifyMoves(x: Crypto, e: Env, c: Client)
    requires c.st.SendClientCertificateVerify?
    ensures var r := DoSendClientCertificateVerify(x, e, c); Moves(e, c, r) && (Moved(c, r) ==> Checks(x, c, r))
  {
  }

  lemma SendClientFinishedMoves(x: Crypto, e: Env, c: Client)
    requires c.st.SendClientFinished?
    ensures var r := DoSendClientFinished(x, e, c); Moves(e, c, r) && (Moved(c, r) ==> Checks(x, c, r))
  {
  }

  lemma FinishFlightMoves(x: Crypto, e: Env, c: Client)
    requires c.st.FinishFlight?
    ensures var r := DoFinishFlight(e, c); Moves(e, c, r) && (Moved(c, r) ==> Checks(x, c, r))
  {
    if c.f.resumed {
      assert DoFinishFlight(e, c) == Go(c, FinishClientHandshake);
    } else if !e.fail {
      assert DoFinishFlight(e, c).c == c.(st := ReadSessionTicket);
    }
  }

  lemma ReadSessionTicketMoves(x: Crypto, e: Env, c: Client)
    requires c.st.ReadSessionTicket?
    ensures var r := DoReadSessionTicket(e, c); Moves(e, c, r) && (Moved(c, r) ==> Checks(x, c, r))
  {
    if !c.f.ticket {
      assert DoReadSessionTicket(e, c) == Result(c.(st := ProcessChangeCipherSpec), ReadChangeCipherSpec);
    } else if c.io.inbox != [] && c.io.inbox[0].kind == NewSessionTicket && !e.fail {
      assert DoReadSessionTicket(e, c) == Result(c.(io := Take(c.io), st := ProcessChangeCipherSpec), ReadChangeCipherSpec);
    }
  }

  lemma ProcessChangeCipherSpecMoves(x: Crypto, e: Env, c: Client)
    requires c.st.ProcessChangeCipherSpec?
    ensures var r := DoProcessChangeCipherSpec(e, c); Moves(e, c, r) && (Moved(c, r) ==> Checks(x, c, r))
  {
  }

  lemma ReadServerFinishedMoves(x: Crypto, e: Env, c: Client)
    requires c.st.ReadServerFinished?
    ensures var r := DoReadServerFinished(x, e, c); Moves(e, c, r) && (Moved(c, r) ==> Checks(x, c, r))
  {
  }

  lemma FinishClientHandshakeMoves(x: Crypto, e: Env, c: Client)
    requires c.st.FinishClientHandshake?
    ensures var r := DoFinishClientHandshake(e, c); Moves(e, c, r) && (Moved(c, r) ==> Checks(x, c, r))
  {
  }

  lemma StepMoves(x: Crypto, e: Env, c: Client)
    requires c.st != State.Done
    ensures var r := Do(x, e, c); Moves(e, c, r) && (Moved(c, r) ==> Checks(x, c, r))
  {
    match c.st
    case StartConnect => StartConnectMoves(x, e, c);
    case EnterEarlyData => EnterEarlyDataMoves(x, e, c);
    case ReadHelloVerifyRequest => ReadHelloVerifyRequestMoves(x, e, c);
    case ReadServerHelloState => ReadServerHelloStateMoves(x, e, c);
    case ReadServerCertificate => ReadServerCertificateMoves(x, e, c);
    case ReadCertificateStatus => ReadCertificateStatusMoves(x, e, c);
    case VerifyServerCertificate => VerifyServerCertificateMoves(x, e, c);
    case ReadServerKeyExchange => ReadServerKeyExchangeMoves(x, e, c);
    case ReadCertificateRequest => ReadCertificateRequestMoves(x, e, c);
    case ReadServerHelloDone => ReadServerHelloDoneMoves(x, e, c);
    case SendClientCertificate => SendClientCertificateMoves(x, e, c);
    case SendClientKeyExchange => SendClientKeyExchangeMoves(x, e, c);
    case SendClientCertificateVerify => SendClientCertificateVerifyMoves(x, e, c);
    case SendClientFinished => SendClientFinishedMoves(x, e, c);
    case FinishFlight => FinishFlightMoves(x, e, c);
    case ReadSessionTicket => ReadSessionTicketMoves(x, e, c);
    case ProcessChangeCipherSpec => ProcessChangeCipherSpecMoves(x, e, c);
    case ReadServerFinished => ReadServerFinishedMoves(x, e, c);
    case FinishClientHandshake => FinishClientHandshakeMoves(x, e, c);
  }

  lemma FollowingAdvances(e: Env, c: Client)
    requires Ordered(c) && c.st != State.Done
    ensures Rank(Resumes(e, c), Following(e, c)) > RankOf(c) && (Resumes(e, c) ==> Rank(true, Following(e, c)) >= 15)
  {
  }

  lemma RankBound(c: Client)
    ensures RankOf(c) <= 21
  {
  }

  // Every step that does not fail either advances the rank or leaves everything as it is and
  // waits. So the loop between two waits ends.
  lemma StepAdvances(x: Crypto, e: Env, c: Client)
    requires Ordered(c) && c.st != State.Done
    ensures var r := Do(x, e, c);
            r.wait != Error ==> Ordered(r.c) && (RankOf(r.c) > RankOf(c) || (r.c == c && r.wait != Ok))
  {
    StepMoves(x, e, c);
    FollowingAdvances(e, c);
  }

  // --- Safety ---

  // What has been checked by the time each state is reached.
  ghost predicate Safe(x: Crypto, c: Client, w: Wait) {
    && Ordered(c) && (c.f.resumed ==> c.offered)
    && (w == ReadChangeCipherSpec ==> c.st.ProcessChangeCipherSpec?)
    && (RankOf(c) >= 16 && w != ReadChangeCipherSpec ==> c.ccsRead)
    && (RankOf(c) >= 17 ==> c.ccsUsed)
    && (RankOf(c) >= 18 ==> FinishedChecked(x, c))
    && (!c.f.resumed && c.f.certAuth && RankOf(c) >= 7 ==> c.verified)
  }

  lemma FinishedStays(x: Crypto, c: Client, d: Client)
    requires FinishedChecked(x, c) && d.finishedAt == c.finishedAt && d.master == c.master && c.io.transcript <= d.io.transcript
    ensures FinishedChecked(x, d)
  {
    var i := c.finishedAt.value;
    assert d.io.transcript[..i] == c.io.transcript[..i];
  }

  lemma SafeStep(x: Crypto, e: Env, c: Client)
    requires Safe(x, c, Ok) && c.st != State.Done
    ensures var r := Do(x, e, c); r.wait != Error ==> Safe(x, r.c, r.wait)
  {
    var r := Do(x, e, c);
    StepMoves(x, e, c);
    if Moved(c, r) {
      FollowingAdvances(e, c);
      SafeMove(x, e, c, r);
    }
  }

  lemma SafeMove(x: Crypto, e: Env, c: Client, r: Result)
    requires Safe(x, c, Ok) && c.st != State.Done && r.wait != Error
    requires r.c.st == Following(e, c) && r.c.f.resumed == Resumes(e, c) && Checks(x, c, r)
    requires Rank(Resumes(e, c), Following(e, c)) > RankOf(c) && (Resumes(e, c) ==> Rank(true, Following(e, c)) >= 15)
    ensures Safe(x, r.c, r.wait)
  {
    if RankOf(c) >= 18 { FinishedStays(x, c, r.c); }
  }

  // --- Whole runs ---

  // One step, the next record the peer's bytes make, the flight written, or the end of a wait
  // for the caller.
  datatype Event = StepWith(e: Env) | Record(m: seq<Msg>) | Flushed | Resume

  predicate ReadingWait(w: Wait) { w == ReadMessage || w == ReadServerHello || w == ReadChangeCipherSpec }

  function Advance(x: Crypto, c: Client, w: Wait, v: Event): Result {
    match v
    case StepWith(e) => if w == Ok && c.st != State.Done then Do(x, e, c) else Result(c, w)
    case Record(m) => if ReadingWait(w) then Receive(c, w, m) else Result(c, w)
    case Flushed => if w == Flush then Result(c.(io := c.io.(out := [])), Ok) else Result(c, w)
    case Resume => if w == Ok || w == Error || w == Flush || ReadingWait(w) then Result(c, w) else Result(c, Ok)
  }

  function RunFrom(x: Crypto, start: Result, events: seq<Event>): Result {
    if events == [] then start
    else
      var r := RunFrom(x, start, events[..|events| - 1]);
      Advance(x, r.c, r.wait, events[|events| - 1])
  }

  function Run(x: Crypto, c: Client, events: seq<Event>): Result { RunFrom(x, Result(c, Ok), events) }

  lemma OneEvent(x: Crypto, start: Result, v: Event)
    ensures RunFrom(x, start, [v]) == Advance(x, start.c, start.wait, v)
  {
    assert [v][..0] == [];
  }

  lemma {:induction false} RunOn(x: Crypto, start: Result, a: seq<Event>, b: seq<Event>)
    ensures RunFrom(x, start, a + b) == RunFrom(x, RunFrom(x, start, a), b)
  {
    if b == [] {
      assert a + b == a;
    } else {
      RunOn(x, start, a, b[..|b| - 1]);
      assert (a + b)[..|a + b| - 1] == a + b[..|b| - 1];
    }
  }

  lemma SafeReceive(x: Crypto, c: Client, w: Wait, record: seq<Msg>)
    requires Safe(x, c, w) && ReadingWait(w)
    ensures var r := Receive(c, w, record); r.wait == Error || Safe(x, r.c, r.wait)
  {
  }

  lemma SafeAdvance(x: Crypto, c: Client, w: Wait, v: Event)
    requires w == Error || Safe(x, c, w)
    ensures var r := Advance(x, c, w, v); r.wait == Error || Safe(x, r.c, r.wait)
  {
    match v
    case StepWith(e) => if w == Ok && c.st != State.Done { SafeStep(x, e, c); }
    case Record(m) => if ReadingWait(w) { SafeReceive(x, c, w, m); }
    case Flushed => if w == Flush { SafeFlushed(x, c); }
    case Resume =>
  }

  lemma SafeFlushed(x: Crypto, c: Client)
    requires Safe(x, c, Flush)
    ensures Safe(x, c.(io := c.io.(out := [])), Ok)
  {
  }

  lemma {:induction false} SafeRun(x: Crypto, start: Result, events: seq<Event>)
    requires start.wait == Error || Safe(x, start.c, start.wait)
    ensures var r := RunFrom(x, start, events); r.wait == Error || Safe(x, r.c, r.wait)
  {
    if events != [] {
      var before := events[..|events| - 1];
      SafeRun(x, start, before);
      var r := RunFrom(x, start, before);
      SafeAdvance(x, r.c, r.wait, events[|events| - 1]);
    }
  }

  // One more step of a run that nothing holds up.
  lemma StepOn(x: Crypto, start: Client, events: seq<Event>, e: Env, c: Client)
    requires Run(x, start, events) == Result(c, Ok) && Safe(x, c, Ok) && c.st != State.Done
    ensures var r := Do(x, e, c);
            && Run(x, start, events + [StepWith(e)]) == r
            && (r.wait != Error ==> Safe(x, r.c, r.wait) && (RankOf(r.c) > RankOf(c) || (r.c == c && r.wait != Ok)))
  {
    assert (events + [StepWith(e)])[..|events|] == events;
    SafeStep(x, e, c);
    StepAdvances(x, e, c);
  }

  // What a client has checked in its last state.
  ghost predicate AllChecked(x: Crypto, c: Client) {
    && c.ccsRead && c.ccsUsed && FinishedChecked(x, c)
    && (!c.f.resumed && c.f.certAuth ==> c.verified)
    && (c.f.resumed ==> c.offered)
  }

  lemma SafeDone(x: Crypto, c: Client, w: Wait)
    requires Safe(x, c, w) && c.st == State.Done
    ensures AllChecked(x, c)
  {
  }

  // A client that gets to its last state has read and used a ChangeCipherSpec, has accepted a
  // Finished with the right verify data for everything before it, and in a full handshake
  // with certificates has had the server's verified. No peer and no environment changes that.
  lemma DoneIsChecked(x: Crypto, dtls: bool, offered: bool, hasCert: bool, events: seq<Event>)
    ensures var r := Run(x, Start(dtls, offered, hasCert), events);
            r.wait != Error && r.c.st == State.Done ==> AllChecked(x, r.c)
  {
    SafeRun(x, Result(Start(dtls, offered, hasCert), Ok), events);
    var r := Run(x, Start(dtls, offered, hasCert), events);
    if r.wait != Error && r.c.st == State.Done {
      SafeDone(x, r.c, r.wait);
    }
  }

  // --- Early returns ---

  // The step leaves a full handshake to the caller before the server's Finished: False Start.
  predicate StartsFalsely(e: Env, c: Client) { c.st.FinishFlight? && !c.f.resumed && !e.fail && e.falseStart }

  // What makes each step wait for the caller.
  lemma StepWaits(x: Crypto, e: Env, c: Client)
    requires c.st != State.Done
    ensures var w := Do(x, e, c).wait;
            && (w == EarlyReturn <==> StartsFalsely(e, c))
            && (w == X509Lookup <==> c.st.SendClientCertificate? && c.certRequest && !e.fail && e.retry)
            && (w == PrivateKeyOperation <==> c.st.SendClientCertificateVerify? && c.certRequest && c.hasCert && !e.fail && e.retry)
            && (w == ChannelIdLookup <==> c.st.SendClientFinished? && c.f.channelId && !e.fail && e.retry)
            && (w == CertificateVerification <==> c.st.VerifyServerCertificate? && c.f.certAuth && e.verify == Later)
            && w != PendingSession && w != CertificateSelectionPending
  {
    match c.st
    case VerifyServerCertificate =>
    case SendClientCertificate =>
    case SendClientCertificateVerify =>
    case SendClientFinished =>
    case FinishFlight =>
    case _ => NoCaller(x, e, c);
  }

  predicate CallerState(st: State) {
    st.VerifyServerCertificate? || st.SendClientCertificate? || st.SendClientCertificateVerify? || st.SendClientFinished? || st.FinishFlight?
  }

  lemma NoCaller(x: Crypto, e: Env, c: Client)
    requires !CallerState(c.st)
    ensures var w := Do(x, e, c).wait; w == Ok || w == Error || w == Flush || ReadingWait(w)
  {
    match c.st
    case ReadHelloVerifyRequest =>
    case ReadCertificateStatus =>
    case ReadCertificateRequest =>
    case ReadSessionTicket =>
    case _ =>
  }

  ghost predicate FalseStartAt(x: Crypto, start: Result, events: seq<Event>, n: nat)
    requires n < |events|
  {
    && events[n].StepWith?
    && var r := RunFrom(x, start, events[..n]); r.wait == Ok && StartsFalsely(events[n].e, r.c)
  }

  // The last thing that happened in the run was such a step; the caller has not had its turn.
  ghost predicate WentEarly(x: Crypto, start: Result, events: seq<Event>) {
    events != [] &&
    var n := |events| - 1;
    FalseStartAt(x, start, events, n) || (!events[n].Resume? && WentEarly(x, start, events[..n]))
  }

  lemma EarlyAdvance(x: Crypto, r: Result, v: Event)
    ensures Advance(x, r.c, r.wait, v).wait == EarlyReturn <==>
              (v.StepWith? && r.wait == Ok && StartsFalsely(v.e, r.c)) || (!v.Resume? && r.wait == EarlyReturn)
  {
    match v
    case StepWith(e) => if r.wait == Ok && r.c.st != State.Done { StepWaits(x, e, r.c); }
    case Record(m) =>
    case Flushed =>
    case Resume =>
  }

  // A run waits to return early if and only if False Start was used, in a full handshake, and
  // nothing has happened since.
  lemma {:induction false} EarlyRun(x: Crypto, start: Result, events: seq<Event>)
    requires start.wait != EarlyReturn
    ensures RunFrom(x, start, events).wait == EarlyReturn <==> WentEarly(x, start, events)
  {
    if events != [] {
      var n := |events| - 1;
      EarlyRun(x, start, events[..n]);
      EarlyAdvance(x, RunFrom(x, start, events[..n]), events[n]);
    }
  }

  // Then some step of it was a False Start.
  lemma {:induction false} EarlyStep(x: Crypto, start: Result, events: seq<Event>) returns (n: nat)
    requires WentEarly(x, start, events)
    ensures n < |events| && FalseStartAt(x, start, events, n)
  {
    n := |events| - 1;
    if !FalseStartAt(x, start, events, n) {
      var before := events[..n];
      n := EarlyStep(x, start, before);
      assert before[..n] == events[..n];
    }
  }

  // The caller is let go early by this run.
  ghost predicate ReturnsEarly(x: Crypto, start: Result, events: seq<Event>) {
    events != [] && events[|events| - 1].Resume? && RunFrom(x, start, events[..|events| - 1]).wait == EarlyReturn
  }

  // Without False Start no run does that.
  lemma EarlyOnlyByFalseStart(x: Crypto, start: Result, events: seq<Event>)
    requires start.wait != EarlyReturn && ReturnsEarly(x, start, events)
    ensures exists n: nat :: n < |events| && FalseStartAt(x, start, events, n)
  {
    var before := events[..|events| - 1];
    EarlyRun(x, start, before);
    var n := EarlyStep(x, start, before);
    assert before[..n] == events[..n];
    assert FalseStartAt(x, start, events, n);
  }
}
