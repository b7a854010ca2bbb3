// Whether a server that is done has the client certificate that its policy requires.

module TlsServerPolicy {
  import opened Basics
  import opened TlsMessages
  import opened TlsServer
  import opened TlsServerSafety

  // The ServerHello drops a Channel ID that made the server ask for no certificate.
  predicate Drops(s: Server, w: Wait, v: Event) {
    v.StepWith? && w == Ok && s.st.SendServerHello? && s.f.channelId && !v.e.keepChannelId
  }

  predicate Dropped(x: Crypto, s: Server, events: seq<Event>) {
    if events == [] then false
    else
      var before := events[..|events| - 1];
      var r := Run(x, s, before);
      Dropped(x, s, before) || Drops(r.s, r.wait, events[|events| - 1])
  }

  // The request was made for the Channel ID as it was before the ServerHello.
  predicate Exact(s: Server, dropped: bool) {
    && Ordered(s)
    && (dropped ==> RankOf(s) >= 5)
    && (RankOf(s) >= 4 ==> s.certRequest == Requests(s.policy, s.f.(channelId := s.f.channelId || dropped)))
    && (s.peerCert ==> s.certRequest && RankOf(s) >= 9)
  }

  lemma ExactHello(x: Crypto, e: Env, s: Server, dropped: bool)
    requires Exact(s, dropped) && s.st.SendServerHello?
    ensures var r := Do(x, e, s); r.wait != Error ==> Exact(r.s, dropped || (s.f.channelId && !e.keepChannelId))
  {
  }

  lemma ExactMove(x: Crypto, e: Env, s: Server, r: Result, dropped: bool)
    requires Exact(s, dropped) && s.st != State.Done && !s.st.SendServerHello?
    requires r.s.st == Following(s) && r.s.f.resumed == Resumes(e, s) && Checks(x, s, r) && Ordered(r.s)
    requires RankOf(r.s) > RankOf(s)
    ensures Exact(r.s, dropped)
  {
  }

  lemma ExactStep(x: Crypto, e: Env, s: Server, dropped: bool)
    requires Exact(s, dropped) && s.st != State.Done
    ensures var r := Do(x, e, s); r.wait != Error ==> Exact(r.s, dropped || Drops(s, Ok, StepWith(e)))
  {
    if s.st.SendServerHello? {
      ExactHello(x, e, s, dropped);
    } else {
      var r := Do(x, e, s);
      StepMoves(x, e, s);
      if Moved(s, r) {
        StepAdvances(x, e, s);
        ExactMove(x, e, s, r, dropped);
      }
    }
  }

  lemma ExactAdvance(x: Crypto, s: Server, w: Wait, v: Event, dropped: bool)
    requires w == Error || Exact(s, dropped)
    ensures var r := Advance(x, s, w, v);
            r.wait != Error ==> w != Error && r.s.policy == s.policy && Exact(r.s, dropped || Drops(s, w, v))
  {
    match v
    case StepWith(e) =>
      if w == Ok && s.st != State.Done {
        ExactStep(x, e, s, dropped);
        PolicyStays(x, e, s);
      }
    case Record(m) => if ReadingWait(w) { ExactReceive(s, w, m, dropped); }
    case Flushed => if w == Flush { ExactSame(s, s.(io := s.io.(out := [])), dropped); }
    case Resume =>
  }

  lemma PolicyStays(x: Crypto, e: Env, s: Server)
    requires s.st != State.Done
    ensures Do(x, e, s).wait != Error ==> Do(x, e, s).s.policy == s.policy
  {
    StepMoves(x, e, s);
  }

  lemma ExactSame(s: Server, d: Server, dropped: bool)
    requires Exact(s, dropped) && d == s.(ccsRead := d.ccsRead, io := d.io)
    ensures Exact(d, dropped)
  {
  }

  lemma ExactReceive(s: Server, w: Wait, m: seq<Msg>, dropped: bool)
    requires Exact(s, dropped)
    ensures var r := Receive(s, w, m); r.s.policy == s.policy && Exact(r.s, dropped)
  {
    var r := Receive(s, w, m);
    assert r.s == s || r.s == s.(ccsRead := true) || r.s == s.(io := r.s.io);
    ExactSame(s, r.s, dropped);
  }

  lemma {:induction false} ExactRun(x: Crypto, p: Policy, events: seq<Event>)
    ensures var r := Run(x, Start(p), events);
            r.wait != Error ==> r.s.policy == p && Exact(r.s, Dropped(x, Start(p), events))
  {
    if events != [] {
      var before, v := events[..|events| - 1], events[|events| - 1];
      ExactRun(x, p, before);
      var r := Run(x, Start(p), before);
      ExactAdvance(x, r.s, r.wait, v, Dropped(x, Start(p), before));
    }
  }

  // A server that is done requested a certificate exactly if its policy says so for the
  // Channel ID as it was before the ServerHello. So it has the certificate that the policy
  // requires for the connection as it is now, unless the policy makes an exception for a
  // Channel ID and the ServerHello dropped one; and then it has none.
  lemma RequiredCertificate(x: Crypto, p: Policy, events: seq<Event>)
    ensures var r := Run(x, Start(p), events);
            r.wait != Error && r.s.st == State.Done && p.requireCert && Requests(p, r.s.f) ==>
              (r.s.peerCert <==> !(p.ifNoChannelId && Dropped(x, Start(p), events)))
  {
    var r := Run(x, Start(p), events);
    ExactRun(x, p, events);
    DoneIsChecked(x, p, events);
    if r.wait != Error && r.s.st == State.Done && p.requireCert && Requests(p, r.s.f) {
      DoneExactly(x, r.s, Dropped(x, Start(p), events));
    }
  }

  lemma DoneExactly(x: Crypto, s: Server, dropped: bool)
    requires s.st == State.Done && AllChecked(x, s) && Exact(s, dropped) && s.policy.requireCert && Requests(s.policy, s.f)
    ensures s.peerCert <==> !(s.policy.ifNoChannelId && dropped)
  {
  }

  // --- A server without the certificate that its policy requires ---

  const ALL := Policy(true, true, true)

  // Certificate authentication without ECDHE, with a Channel ID on offer.
  const OFFERED := Flags(false, true, false, false, false, false, false, true)
  const STEP := StepWith(Env(false, false, Valid, OFFERED, false, false))

  function FromClient(k: Kind): Msg { Msg(k, false, 0) }

  // These events lead from the start to s with nothing to wait for.
  ghost predicate At(x: Crypto, events: seq<Event>, s: Server) { Run(x, Start(ALL), events) == Result(s, Ok) }

  lemma Then(x: Crypto, events: seq<Event>, s: Server, w: Wait, v: Event)
    requires Run(x, Start(ALL), events) == Result(s, w)
    ensures Run(x, Start(ALL), events + [v]) == Advance(x, s, w, v)
  {
    assert (events + [v])[..|events|] == events;
  }

  lemma Step(x: Crypto, events: seq<Event>, s: Server, t: Server) returns (more: seq<Event>)
    requires At(x, events, s) && s.st != State.Done && Do(x, STEP.e, s) == Result(t, Ok)
    ensures At(x, more, t)
  {
    more := events + [STEP];
    Then(x, events, s, Ok, STEP);
  }

  // A step that has to wait, until v ends the wait.
  lemma StepAnd(x: Crypto, events: seq<Event>, s: Server, t: Server, w: Wait, v: Event, u: Server) returns (more: seq<Event>)
    requires At(x, events, s) && s.st != State.Done && Do(x, STEP.e, s) == Result(t, w) && Advance(x, t, w, v) == Result(u, Ok)
    ensures At(x, more, u)
  {
    var first := events + [STEP];
    Then(x, events, s, Ok, STEP);
    more := first + [v];
    Then(x, first, t, w, v);
  }

  function AfterHello(): Server {
    Start(ALL).(st := SendServerHello, f := OFFERED, io := Io([FromClient(ClientKeyExchange)], [], [FromClient(ClientHello)]))
  }

  // The ClientHello settles the parameters. No certificate is requested.
  lemma HelloRead(x: Crypto) returns (events: seq<Event>)
    ensures At(x, events, AfterHello())
  {
    var s := Start(ALL).(st := ReadClientHello);
    events := Step(x, [], Start(ALL), s);
    var t := s.(io := Io([FromClient(ClientHello), FromClient(ClientKeyExchange)], [], []));
    events := StepAnd(x, events, s, s, ReadMessage, Record(t.io.inbox), t);
    events := Step(x, events, t, t.(st := SelectCertificate));
    events := Step(x, events, t.(st := SelectCertificate), t.(st := SelectParameters));
    HelloSettles(x, t.(st := SelectParameters));
    events := Step(x, events, t.(st := SelectParameters), AfterHello());
  }

  lemma HelloSettles(x: Crypto, s: Server)
    requires s == Start(ALL).(st := SelectParameters, io := Io([FromClient(ClientHello), FromClient(ClientKeyExchange)], [], []))
    ensures Do(x, STEP.e, s) == Result(AfterHello(), Ok)
  {
    assert Take(s.io) == AfterHello().io;
  }

  // Nothing is requested, received or proved, and the Channel ID is dropped.
  ghost predicate Bare(s: Server, st: State) {
    s.st == st && s.policy == ALL && s.f == OFFERED.(channelId := false) && !s.certRequest && !s.peerCert
  }

  // The server's flight without the request, after a ServerHello that drops the Channel ID.
  lemma FlightSent(x: Crypto) returns (events: seq<Event>, s: Server)
    ensures Bare(s, ReadClientCertificate) && s.io.inbox == [FromClient(ClientKeyExchange)] && At(x, events, s)
  {
    events := HelloRead(x);
    s := AfterHello();
    var t := s.(st := SendServerCertificate, f := OFFERED.(channelId := false), io := Send(s.io, Plain(x, ServerHello, true)));
    events := Step(x, events, s, t);
    var u := t.(st := SendServerKeyExchange, io := Send(t.io, CertificateOf(x, true, true)));
    events := Step(x, events, t, u);
    var v := u.(st := SendServerHelloDone);
    events := Step(x, events, u, v);
    var w := v.(st := ReadClientCertificate, io := Send(v.io, Plain(x, ServerHelloDone, true)));
    s := w.(io := w.io.(out := []));
    events := StepAnd(x, events, v, w, Flush, Flushed, s);
  }

  lemma KeyRead(x: Crypto) returns (events: seq<Event>, s: Server)
    ensures Bare(s, ReadClientCertificateVerify) && s.io.inbox == [] && At(x, events, s)
  {
    var a;
    events, a := FlightSent(x);
    var b := a.(st := VerifyClientCertificate);
    events := Step(x, events, a, b);
    var c := b.(st := ReadClientKeyExchange);
    events := Step(x, events, b, c);
    s := c.(st := ReadClientCertificateVerify, io := Take(c.io), master := x.prf(Take(c.io).transcript));
    events := Step(x, events, c, s);
  }

  lemma CipherDue(x: Crypto) returns (events: seq<Event>, s: Server)
    ensures Bare(s, ReadChangeCipherSpecState) && s.io.inbox == [] && At(x, events, s)
  {
    var a;
    events, a := KeyRead(x);
    s := a.(st := ReadChangeCipherSpecState);
    events := Step(x, events, a, s);
  }

  lemma CipherChanged(x: Crypto) returns (events: seq<Event>, s: Server)
    ensures Bare(s, ReadNextProto) && s.io.inbox == [] && At(x, events, s)
  {
    var a;
    events, a := CipherDue(x);
    var b := a.(st := ProcessChangeCipherSpec);
    var c := b.(ccsRead := true);
    events := StepAnd(x, events, a, b, ReadChangeCipherSpec, Record([FromClient(ChangeCipherSpec)]), c);
    s := c.(st := ReadNextProto, ccsUsed := true);
    events := Step(x, events, c, s);
  }

  lemma FinishedDue(x: Crypto) returns (events: seq<Event>, s: Server)
    ensures Bare(s, ReadClientFinished) && s.io.inbox == [] && At(x, events, s)
  {
    var a;
    events, a := CipherChanged(x);
    var b := a.(st := ReadChannelId);
    events := Step(x, events, a, b);
    s := b.(st := ReadClientFinished);
    events := Step(x, events, b, s);
  }

  lemma FinishedRead(x: Crypto) returns (events: seq<Event>, s: Server)
    ensures Bare(s, SendServerFinished) && At(x, events, s)
  {
    var a;
    events, a := FinishedDue(x);
    var fin := Msg(Finished, false, x.mac(a.io.transcript, false, a.master));
    var b := a.(io := a.io.(inbox := [fin]));
    events := StepAnd(x, events, a, a, ReadMessage, Record([fin]), b);
    s := b.(st := SendServerFinished, io := Take(b.io), finishedAt := Some(|b.io.transcript|));
    events := Step(x, events, b, s);
  }

  // With SSL_VERIFY_PEER_IF_NO_OBC a server can be done without the certificate it requires,
  // on a connection that has no Channel ID.
  lemma DoneWithout(x: Crypto) returns (events: seq<Event>)
    ensures var r := Run(x, Start(ALL), events);
            r.wait == Ok && r.s.st == State.Done && Requests(ALL, r.s.f) && !r.s.peerCert
  {
    var a;
    events, a := FinishedRead(x);
    var b := a.(st := FinishServerHandshake, io := SendFinished(x, SendCcs(a.io, true), true, a.master));
    var c := b.(io := b.io.(out := []));
    events := StepAnd(x, events, a, b, Flush, Flushed, c);
    events := Step(x, events, c, c.(st := State.Done));
  }
}
