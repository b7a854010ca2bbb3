// What the server has checked when it reaches its last state, whatever the peer sends and
// whatever fails or waits on the way; and that every step makes progress.

module TlsServerSafety {
  import opened TlsMessages
  import opened TlsServer

  // --- Progress ---

  // The states in the order a handshake goes through them. A resumption sends the server's
  // Finished before it reads the client's.
  function Rank(resumed: bool, st: State): nat {
    match st
    case StartAccept => 0
    case ReadClientHello => 1
    case SelectCertificate => 2
    case SelectParameters => 3
    case SendServerHello => 4
    case SendServerCertificate => 5
    case SendServerKeyExchange => 6
    case SendServerHelloDone => 7
    case ReadClientCertificate => 8
    case VerifyClientCertificate => 9
    case ReadClientKeyExchange => 10
    case ReadClientCertificateVerify => 11
    case ReadChangeCipherSpecState => 12
    case ProcessChangeCipherSpec => 13
    case ReadNextProto => 14
    case ReadChannelId => 15
    case ReadClientFinished => 16
    case SendServerFinished => if resumed then 5 else 17
    case FinishServerHandshake => 18
    case Done => 19
  }

  function RankOf(s: Server): nat { Rank(s.f.resumed, s.st) }

  // Nothing is resumed before the parameters are settled, and certificates and keys belong to
  // full handshakes.
  predicate Ordered(s: Server) {
    s.f.resumed ==> s.st.SendServerHello? || s.st.SendServerFinished? || Rank(true, s.st) >= 12
  }

  // Where each state leads.
  function Following(s: Server): State {
    match s.st
    case StartAccept => ReadClientHello
    case ReadClientHello => SelectCertificate
    case SelectCertificate => SelectParameters
    case SelectParameters => SendServerHello
    case SendServerHello => if s.f.resumed then SendServerFinished else SendServerCertificate
    case SendServerCertificate => SendServerKeyExchange
    case SendServerKeyExchange => SendServerHelloDone
    case SendServerHelloDone => ReadClientCertificate
    case ReadClientCertificate => VerifyClientCertificate
    case VerifyClientCertificate => ReadClientKeyExchange
    case ReadClientKeyExchange => ReadClientCertificateVerify
    case ReadClientCertificateVerify => ReadChangeCipherSpecState
    case ReadChangeCipherSpecState => ProcessChangeCipherSpec
    case ProcessChangeCipherSpec => ReadNextProto
    case ReadNextProto => ReadChannelId
    case ReadChannelId => ReadClientFinished
    case ReadClientFinished => if s.f.resumed then FinishServerHandshake else SendServerFinished
    case SendServerFinished => if s.f.resumed then ReadChangeCipherSpecState else FinishServerHandshake
    case FinishServerHandshake => State.Done
    case Done => State.Done
  }

  // Whether the handshake is a resumption after the step.
  predicate Resumes(e: Env, s: Server) { if s.st.SelectParameters? then e.nego.resumed else s.f.resumed }

  // A step fails, or leaves everything as it is and waits, or moves on.
  predicate Moves(e: Env, s: Server, r: Result) {
    || r.wait == Error
    || (r.s == s && r.wait != Ok && r.wait != ReadChangeCipherSpec && (ReadingWait(r.wait) || e.retry || e.verify == Later))
    || (r.s.st == Following(s) && r.s.f.resumed == Resumes(e, s))
  }

  // The states in the middle of a flight.
  predicate Sending(st: State) {
    st.SendServerCertificate? || st.SendServerKeyExchange? || st.SendServerHelloDone? || st.SendServerFinished?
  }

  // The states that send messages.
  predicate Sends(st: State) {
    st.SendServerHello? || st.SendServerCertificate? || st.SendServerKeyExchange? || st.SendServerHelloDone?
    || st.SendServerFinished?
  }

  // What a step that moves on does to the record of checks.
  predicate Checks(x: Crypto, s: Server, r: Result) {
    && r.s.ccsRead == s.ccsRead
    && r.s.ccsUsed == (s.ccsUsed || s.st.ProcessChangeCipherSpec?)
    && r.s.verified == (s.verified || (s.st.VerifyClientCertificate? && s.peerCert))
    && r.s.proved == (s.proved || (s.st.ReadClientCertificateVerify? && s.peerCert))
    && (if s.st.ReadClientFinished? then FinishedChecked(x, r.s) else r.s.finishedAt == s.finishedAt)
    && (if s.st.ReadClientCertificate? then CertificateAsked(s, r.s) else r.s.peerCert == s.peerCert)
    && r.s.policy == s.policy
    && (if s.st.SelectParameters? then r.s.certRequest == Requests(s.policy, r.s.f) else r.s.certRequest == s.certRequest)
    && (s.st.SelectParameters? || FlagsKept(s, r.s))
    && (s.st.SelectParameters? || s.st.ReadClientKeyExchange? || r.s.master == s.master)
    && s.io.transcript <= r.s.io.transcript
    && (r.wait == ReadChangeCipherSpec <==> s.st.ReadChangeCipherSpecState?)
    && (r.wait == Flush || Sending(r.s.st) || (r.s.io.out == s.io.out && !Sending(s.st)))
    && (Sends(s.st) || r.s.io.out == s.io.out)
  }

  // A certificate is only taken if it was requested, and one the policy requires is.
  predicate CertificateAsked(s: Server, d: Server) {
    (s.certRequest && s.policy.requireCert ==> d.peerCert) && (d.peerCert ==> s.peerCert || s.certRequest)
  }

  // The ServerHello can drop the Channel ID. Nothing else changes what has been negotiated.
  predicate FlagsKept(s: Server, d: Server) {
    d.f == s.f || (s.st.SendServerHello? && d.f == s.f.(channelId := false))
  }

  // A certificate is requested only if the policy says so; and if it does, it is requested,
  // unless the policy makes an exception for a Channel ID.
  predicate Asked(s: Server) {
    (s.certRequest ==> Requests(s.policy, s.f)) && (Requests(s.policy, s.f) ==> s.certRequest || s.policy.ifNoChannelId)
  }

  // A Finished with the verify data of everything before it was taken.
  predicate FinishedChecked(x: Crypto, s: Server) {
    && s.finishedAt.Some? && s.finishedAt.value < |s.io.transcript|
    && var i := s.finishedAt.value;
       s.io.transcript[i].kind == Finished && s.io.transcript[i].body == x.mac(s.io.transcript[..i], false, s.master)
  }

  predicate Moved(s: Server, r: Result) { r.wait != Error && r.s != s }

  // A state that waits for a message, takes one, or goes on without.
  predicate Reads(s: Server, r: Result) {
    || r.wait == Error || r == Result(s, ReadMessage) || r == Go(s, Following(s))
    || (s.io.inbox != [] && r == Go(s.(io := Take(s.io)), Following(s)))
  }

  lemma ReadingMoves(x: Crypto, e: Env, s: Server, r: Result)
    requires (s.st.ReadNextProto? || s.st.ReadChannelId?) && Reads(s, r)
    ensures Moves(e, s, r) && (Moved(s, r) ==> Checks(x, s, r))
  {
  }

  lemma StartAcceptMoves(x: Crypto, e: Env, s: Server)
    requires s.st.StartAccept?
    ensures var r := Go(s, ReadClientHello); Moves(e, s, r) && (Moved(s, r) ==> Checks(x, s, r))
  {
  }

  lemma ReadClientHelloMoves(x: Crypto, e: Env, s: Server)
    requires s.st.ReadClientHello?
    ensures var r := DoReadClientHello(e, s); Moves(e, s, r) && (Moved(s, r) ==> Checks(x, s, r))
  {
  }

  lemma SelectCertificateMoves(x: Crypto, e: Env, s: Server)
    requires s.st.SelectCertificate?
    ensures var r := DoSelectCertificate(e, s); Moves(e, s, r) && (Moved(s, r) ==> Checks(x, s, r))
  {
  }

  lemma SelectParametersMoves(x: Crypto, e: Env, s: Server)
    requires s.st.SelectParameters?
    ensures var r := DoSelectParameters(x, e, s); Moves(e, s, r) && (Moved(s, r) ==> Checks(x, s, r))
  {
  }

  lemma SendServerHelloMoves(x: Crypto, e: Env, s: Server)
    requires s.st.SendServerHello?
    ensures var r := DoSendServerHello(x, e, s); Moves(e, s, r) && (Moved(s, r) ==> Checks(x, s, r))
  {
  }

  lemma SendServerCertificateMoves(x: Crypto, e: Env, s: Server)
    requires s.st.SendServerCertificate?
    ensures var r := DoSendServerCertificate(x, e, s); Moves(e, s, r) && (Moved(s, r) ==> Checks(x, s, r))
  {
    if !e.fail && !s.f.certAuth {
      assert DoSendServerCertificate(x, e, s) == Go(s, SendServerKeyExchange);
    }
  }

  lemma SendServerKeyExchangeMoves(x: Crypto, e: Env, s: Server)
    requires s.st.SendServerKeyExchange?
    ensures var r := DoSendServerKeyExchange(x, e, s); Moves(e, s, r) && (Moved(s, r) ==> Checks(x, s, r))
  {
    if !s.f.ske {
      assert DoSendServerKeyExchange(x, e, s) == Go(s, SendServerHelloDone);
    } else if !e.fail && !e.retry {
      assert DoSendServerKeyExchange(x, e, s) == Go(s.(io := Send(s.io, Plain(x, ServerKeyExchange, true))), SendServerHelloDone);
    }
  }

  lemma SendServerHelloDoneMoves(x: Crypto, e: Env, s: Server)
    requires s.st.SendServerHelloDone?
    ensures var r := DoSendServerHelloDone(x, e, s); Moves(e, s, r) && (Moved(s, r) ==> Checks(x, s, r))
  {
  }

  lemma ReadClientCertificateMoves(x: Crypto, e: Env, s: Server)
    requires s.st.ReadClientCertificate?
    ensures var r := DoReadClientCertificate(e, s); Moves(e, s, r) && (Moved(s, r) ==> Checks(x, s, r))
  {
  }

  lemma VerifyClientCertificateMoves(x: Crypto, e: Env, s: Server)
    requires s.st.VerifyClientCertificate?
    ensures var r := DoVerifyClientCertificate(e, s); Moves(e, s, r) && (Moved(s, r) ==> Checks(x, s, r))
  {
  }

  lemma ReadClientKeyExchangeMoves(x: Crypto, e: Env, s: Server)
    requires s.st.ReadClientKeyExchange?
    ensures var r := DoReadClientKeyExchange(x, e, s); Moves(e, s, r) && (Moved(s, r) ==> Checks(x, s, r))
  {
  }

  lemma ReadClientCertificateVerifyMoves(x: Crypto, e: Env, s: Server)
    requires s.st.ReadClientCertificateVerify?
    ensures var r := DoReadClientCertificateVerify(e, s); Moves(e, s, r) && (Moved(s, r) ==> Checks(x, s, r))
  {
  }

  lemma ReadChangeCipherSpecStateMoves(x: Crypto, e: Env, s: Server)
    requires s.st.ReadChangeCipherSpecState?
    ensures var r := DoReadChangeCipherSpec(s); Moves(e, s, r) && (Moved(s, r) ==> Checks(x, s, r))
  {
  }

  lemma ProcessChangeCipherSpecMoves(x: Crypto, e: Env, s: Server)
    requires s.st.ProcessChangeCipherSpec?
    ensures var r := DoProcessChangeCipherSpec(e, s); Moves(e, s, r) && (Moved(s, r) ==> Checks(x, s, r))
  {
  }

  lemma ReadNextProtoMoves(x: Crypto, e: Env, s: Server)
    requires s.st.ReadNextProto?
    ensures var r := DoReadNextProto(e, s); Moves(e, s, r) && (Moved(s, r) ==> Checks(x, s, r))
  {
    ReadingMoves(x, e, s, DoReadNextProto(e, s));
  }

  lemma ReadChannelIdMoves(x: Crypto, e: Env, s: Server)
    requires s.st.ReadChannelId?
    ensures var r := DoReadChannelId(e, s); Moves(e, s, r) && (Moved(s, r) ==> Checks(x, s, r))
  {
    ReadingMoves(x, e, s, DoReadChannelId(e, s));
  }

  lemma ReadClientFinishedMoves(x: Crypto, e: Env, s: Server)
    requires s.st.ReadClientFinished?
    ensures var r := DoReadClientFinished(x, e, s); Moves(e, s, r) && (Moved(s, r) ==> Checks(x, s, r))
  {
  }

  lemma SendServerFinishedMoves(x: Crypto, e: Env, s: Server)
    requires s.st.SendServerFinished?
    ensures var r := DoSendServerFinished(x, e, s); Moves(e, s, r) && (Moved(s, r) ==> Checks(x, s, r))
  {
  }

  lemma FinishServerHandshakeMoves(x: Crypto, e: Env, s: Server)
    requires s.st.FinishServerHandshake?
    ensures var r := Go(s, State.Done); Moves(e, s, r) && (Moved(s, r) ==> Checks(x, s, r))
  {
  }

  lemma StepMoves(x: Crypto, e: Env, s: Server)
    requires s.st != State.Done
    ensures var r := Do(x, e, s); Moves(e, s, r) && (Moved(s, r) ==> Checks(x, s, r))
  {
    match s.st
    case StartAccept => StartAcceptMoves(x, e, s);
    case ReadClientHello => ReadClientHelloMoves(x, e, s);
    case SelectCertificate => SelectCertificateMoves(x, e, s);
    case SelectParameters => SelectParametersMoves(x, e, s);
    case SendServerHello => SendServerHelloMoves(x, e, s);
    case SendServerCertificate => SendServerCertificateMoves(x, e, s);
    case SendServerKeyExchange => SendServerKeyExchangeMoves(x, e, s);
    case SendServerHelloDone => SendServerHelloDoneMoves(x, e, s);
    case ReadClientCertificate => ReadClientCertificateMoves(x, e, s);
    case VerifyClientCertificate => VerifyClientCertificateMoves(x, e, s);
    case ReadClientKeyExchange => ReadClientKeyExchangeMoves(x, e, s);
    case ReadClientCertificateVerify => ReadClientCertificateVerifyMoves(x, e, s);
    case ReadChangeCipherSpecState => ReadChangeCipherSpecStateMoves(x, e, s);
    case ProcessChangeCipherSpec => ProcessChangeCipherSpecMoves(x, e, s);
    case ReadNextProto => ReadNextProtoMoves(x, e, s);
    case ReadChannelId => ReadChannelIdMoves(x, e, s);
    case ReadClientFinished => ReadClientFinishedMoves(x, e, s);
    case SendServerFinished => SendServerFinishedMoves(x, e, s);
    case FinishServerHandshake => FinishServerHandshakeMoves(x, e, s);
  }

  lemma FollowingAdvances(e: Env, s: Server)
    requires Ordered(s) && s.st != State.Done
    ensures Rank(Resumes(e, s), Following(s)) > RankOf(s)
    ensures Resumes(e, s) ==> Following(s).SendServerHello? || Following(s).SendServerFinished? || Rank(true, Following(s)) >= 12
  {
  }

  lemma RankBound(s: Server)
    ensures RankOf(s) <= 19
  {
  }

  // Every step that does not fail either advances the rank or leaves everything as it is and
  // waits. So the loop between two waits ends.
  lemma StepAdvances(x: Crypto, e: Env, s: Server)
    requires Ordered(s) && s.st != State.Done
    ensures var r := Do(x, e, s);
            r.wait != Error ==> Ordered(r.s) && (RankOf(r.s) > RankOf(s) || (r.s == s && r.wait != Ok))
  {
    StepMoves(x, e, s);
    FollowingAdvances(e, s);
  }

  // --- Safety ---

  // What has been checked by the time each state is reached.
  ghost predicate Safe(x: Crypto, s: Server, w: Wait) {
    && Ordered(s)
    && (w == ReadChangeCipherSpec ==> s.st.ProcessChangeCipherSpec?)
    && (RankOf(s) >= 13 && w != ReadChangeCipherSpec ==> s.ccsRead)
    && (RankOf(s) >= 14 ==> s.ccsUsed)
    && (RankOf(s) >= 17 ==> FinishedChecked(x, s))
    && (s.peerCert ==> !s.f.resumed && RankOf(s) >= 9)
    && (s.certRequest ==> !s.f.resumed && RankOf(s) >= 4)
    && (RankOf(s) >= 4 ==> Asked(s))
    && (s.certRequest && s.policy.requireCert && RankOf(s) >= 9 ==> s.peerCert)
    && (s.peerCert && RankOf(s) >= 10 ==> s.verified)
    && (s.peerCert && RankOf(s) >= 12 ==> s.proved)
  }

  lemma FinishedStays(x: Crypto, s: Server, d: Server)
    requires FinishedChecked(x, s) && d.finishedAt == s.finishedAt && d.master == s.master && s.io.transcript <= d.io.transcript
    ensures FinishedChecked(x, d)
  {
    var i := s.finishedAt.value;
    assert d.io.transcript[..i] == s.io.transcript[..i];
  }

  lemma SafeStep(x: Crypto, e: Env, s: Server)
    requires Safe(x, s, Ok) && s.st != State.Done
    ensures var r := Do(x, e, s); r.wait != Error ==> Safe(x, r.s, r.wait)
  {
    var r := Do(x, e, s);
    StepMoves(x, e, s);
    if Moved(s, r) {
      FollowingAdvances(e, s);
      SafeMove(x, e, s, r);
    }
  }

  lemma SafeMove(x: Crypto, e: Env, s: Server, r: Result)
    requires Safe(x, s, Ok) && s.st != State.Done && r.wait != Error
    requires r.s.st == Following(s) && r.s.f.resumed == Resumes(e, s) && Checks(x, s, r)
    requires Rank(Resumes(e, s), Following(s)) > RankOf(s)
    requires Resumes(e, s) ==> Following(s).SendServerHello? || Following(s).SendServerFinished? || Rank(true, Following(s)) >= 12
    ensures Safe(x, r.s, r.wait)
  {
    if RankOf(s) >= 17 { FinishedStays(x, s, r.s); }
  }

  // --- Whole runs ---

  // One step, the next record the peer's bytes make, the flight written, or the end of a wait
  // for the caller.
  datatype Event = StepWith(e: Env) | Record(m: seq<Msg>) | Flushed | Resume

  predicate ReadingWait(w: Wait) { w == ReadMessage || w == ReadChangeCipherSpec }

  function Advance(x: Crypto, s: Server, w: Wait, v: Event): Result {
    match v
    case StepWith(e) => if w == Ok && s.st != State.Done then Do(x, e, s) else Result(s, w)
    case Record(m) => if ReadingWait(w) then Receive(s, w, m) else Result(s, w)
    case Flushed => if w == Flush then Result(s.(io := s.io.(out := [])), Ok) else Result(s, w)
    case Resume => if w == Ok || w == Error || w == Flush || ReadingWait(w) then Result(s, w) else Result(s, Ok)
  }

  function RunFrom(x: Crypto, start: Result, events: seq<Event>): Result {
    if events == [] then start
    else
      var r := RunFrom(x, start, events[..|events| - 1]);
      Advance(x, r.s, r.wait, events[|events| - 1])
  }

  function Run(x: Crypto, s: Server, events: seq<Event>): Result { RunFrom(x, Result(s, Ok), events) }

  lemma OneEvent(x: Crypto, start: Result, v: Event)
    ensures RunFrom(x, start, [v]) == Advance(x, start.s, start.wait, v)
  {
    assert [v][..0] == [];
  }

  lemma {:induction false} RunOn(x: Crypto, start: Result, a: seq<Event>, b: seq<Event>)
    ensures RunFrom(x, start, a + b) == RunFrom(x, RunFrom(x, start, a), b)
  {
    if b == [] {
      assert a + b == a;
    } else {
      RunOn(x, start, a, b[..|b| - 1]);
      assert (a + b)[..|a + b| - 1] == a + b[..|b| - 1];
    }
  }

  lemma SafeReceive(x: Crypto, s: Server, w: Wait, record: seq<Msg>)
    requires Safe(x, s, w) && ReadingWait(w)
    ensures var r := Receive(s, w, record); r.wait == Error || Safe(x, r.s, r.wait)
  {
  }

  lemma SafeAdvance(x: Crypto, s: Server, w: Wait, v: Event)
    requires w == Error || Safe(x, s, w)
    ensures var r := Advance(x, s, w, v); r.wait == Error || Safe(x, r.s, r.wait)
  {
    match v
    case StepWith(e) => if w == Ok && s.st != State.Done { SafeStep(x, e, s); }
    case Record(m) => if ReadingWait(w) { SafeReceive(x, s, w, m); }
    case Flushed => if w == Flush { SafeFlushed(x, s); }
    case Resume =>
  }

  lemma SafeFlushed(x: Crypto, s: Server)
    requires Safe(x, s, Flush)
    ensures Safe(x, s.(io := s.io.(out := [])), Ok)
  {
  }

  lemma {:induction false} SafeRun(x: Crypto, start: Result, events: seq<Event>)
    requires start.wait == Error || Safe(x, start.s, start.wait)
    ensures var r := RunFrom(x, start, events); r.wait == Error || Safe(x, r.s, r.wait)
  {
    if events != [] {
      var before := events[..|events| - 1];
      SafeRun(x, start, before);
      var r := RunFrom(x, start, before);
      SafeAdvance(x, r.s, r.wait, events[|events| - 1]);
    }
  }

  // One more step of a run that nothing holds up.
  lemma StepOn(x: Crypto, start: Server, events: seq<Event>, e: Env, s: Server)
    requires Run(x, start, events) == Result(s, Ok) && Safe(x, s, Ok) && s.st != State.Done
    ensures var r := Do(x, e, s);
            && Run(x, start, events + [StepWith(e)]) == r
            && (r.wait != Error ==> Safe(x, r.s, r.wait) && (RankOf(r.s) > RankOf(s) || (r.s == s && r.wait != Ok)))
  {
    assert (events + [StepWith(e)])[..|events|] == events;
    SafeStep(x, e, s);
    StepAdvances(x, e, s);
  }

  // What a server has checked in its last state.
  ghost predicate AllChecked(x: Crypto, s: Server) {
    && s.ccsRead && s.ccsUsed && FinishedChecked(x, s)
    && (s.peerCert ==> s.verified && s.proved)
    && (s.certRequest && s.policy.requireCert ==> s.peerCert)
    && (s.certRequest ==> Requests(s.policy, s.f))
    && (Requests(s.policy, s.f) ==> s.certRequest || s.policy.ifNoChannelId)
  }

  lemma SafeDone(x: Crypto, s: Server, w: Wait)
    requires Safe(x, s, w) && s.st == State.Done
    ensures AllChecked(x, s)
  {
  }

  // A server that gets to its last state has read and used a ChangeCipherSpec and has accepted
  // a Finished with the right verify data for everything before it; and if it received a
  // client certificate, it has verified it and checked a CertificateVerify. It has requested
  // one only if its policy says so, and if the policy makes no exception for a Channel ID then
  // exactly if it says so; and a requested one that the policy requires it has received. No
  // peer and no environment changes that.
  lemma DoneIsChecked(x: Crypto, p: Policy, events: seq<Event>)
    ensures var r := Run(x, Start(p), events);
            r.wait != Error && r.s.st == State.Done ==> AllChecked(x, r.s)
  {
    SafeStart(x, p);
    SafeRun(x, Result(Start(p), Ok), events);
    var r := Run(x, Start(p), events);
    if r.wait != Error && r.s.st == State.Done {
      SafeDone(x, r.s, r.wait);
    }
  }

  lemma SafeStart(x: Crypto, p: Policy)
    ensures Safe(x, Start(p), Ok)
  {
  }
}
