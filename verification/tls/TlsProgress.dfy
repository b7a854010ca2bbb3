// From every state the two ends can get into, both can finish.

module TlsProgress {
  import opened Basics
  import opened TlsMessages
  import opened TlsScript
  import opened TlsLink
  import opened TlsAgreement
  import C = TlsClient
  import S = TlsServer
  import CSteps = TlsClientSteps
  import SSteps = TlsServerSteps
  import CSafety = TlsClientSafety
  import SSafety = TlsServerSafety

  // --- What else every run keeps ---

  // Messages stay in a flight only in the middle of it or while it is being flushed; and the
  // flags follow the order of the states.
  ghost predicate Quiet(y: Sys) {
    && CSafety.Ordered(y.c) && SSafety.Ordered(y.s)
    && (y.c.io.out != [] ==> y.cw == Flush || CSafety.Sending(y.c.st))
    && (y.s.io.out != [] ==> y.sw == Flush || SSafety.Sending(y.s.st))
  }

  lemma ClientRunsQuiet(h: Shared, y: Sys, e: Env)
    requires Quiet(y) && y.cw == Ok && y.c.st != C.State.Done
    ensures var z := Next(h.x, y, ClientRuns(e)); z.cw == Error || Quiet(z)
  {
    CSafety.StepMoves(h.x, e, y.c);
    CSafety.StepAdvances(h.x, e, y.c);
  }

  lemma ServerRunsQuiet(h: Shared, y: Sys, e: Env)
    requires Quiet(y) && y.sw == Ok && y.s.st != S.State.Done
    ensures var z := Next(h.x, y, ServerRuns(e)); z.sw == Error || Quiet(z)
  {
    SSafety.StepMoves(h.x, e, y.s);
    SSafety.StepAdvances(h.x, e, y.s);
  }

  lemma FlushesQuiet(h: Shared, y: Sys, n: nat)
    requires Quiet(y)
    ensures Quiet(Next(h.x, y, ClientFlushes(n))) && Quiet(Next(h.x, y, ServerFlushes(n)))
  {
  }

  lemma {:induction false} ClientReceives(c: C.Client, w: Wait, m: seq<Msg>)
    ensures var d := C.Receive(c, w, m).c; d.st == c.st && d.f == c.f && d.io.out == c.io.out
  {
    var r := C.Receive(c, w, m);
    assert r.c == c || r.c == c.(ccsRead := true) || r.c == c.(io := r.c.io);
  }

  lemma {:induction false} ServerReceives(s: S.Server, w: Wait, m: seq<Msg>)
    ensures var d := S.Receive(s, w, m).s; d.st == s.st && d.f == s.f && d.io.out == s.io.out
  {
    var r := S.Receive(s, w, m);
    assert r.s == s || r.s == s.(ccsRead := true) || r.s == s.(io := r.s.io);
  }

  lemma ClientReadsQuiet(h: Shared, y: Sys, n: nat)
    requires Quiet(y)
    ensures Quiet(Next(h.x, y, ClientReads(n)))
  {
    ClientReceives(y.c, y.cw, y.toClient[..RecordLength(y.toClient, n)]);
  }

  lemma ServerReadsQuiet(h: Shared, y: Sys, n: nat)
    requires Quiet(y)
    ensures Quiet(Next(h.x, y, ServerReads(n)))
  {
    ServerReceives(y.s, y.sw, y.toServer[..RecordLength(y.toServer, n)]);
  }

  lemma ResumesQuiet(h: Shared, y: Sys)
    requires Quiet(y)
    ensures Quiet(Next(h.x, y, ClientResumes)) && Quiet(Next(h.x, y, ServerResumes))
  {
  }

  lemma StepQuiet(h: Shared, y: Sys, a: Action)
    requires Inv(h, y) && Quiet(y) && GoodAction(h, a)
    ensures Inv(h, Next(h.x, y, a)) && Quiet(Next(h.x, y, a))
  {
    StepInv(h, y, a);
    match a
    case ClientRuns(e) => if y.cw == Ok && y.c.st != C.State.Done { ClientRunsQuiet(h, y, e); }
    case ServerRuns(e) => if y.sw == Ok && y.s.st != S.State.Done { ServerRunsQuiet(h, y, e); }
    case ClientFlushes(n) => FlushesQuiet(h, y, n);
    case ClientReads(n) => ClientReadsQuiet(h, y, n);
    case ClientResumes => ResumesQuiet(h, y);
    case ServerFlushes(n) => FlushesQuiet(h, y, n);
    case ServerReads(n) => ServerReadsQuiet(h, y, n);
    case ServerResumes => ResumesQuiet(h, y);
  }

  // --- A measure ---

  // What is left of the states, then of the flights, then of the channels, then of the waits.
  function StatesLeft(y: Sys): int { 40 - CSafety.RankOf(y.c) - SSafety.RankOf(y.s) }

  function OutLeft(y: Sys): nat { |y.c.io.out| + |y.s.io.out| }

  function ChannelLeft(y: Sys): nat { |y.toServer| + |y.toClient| }

  function Weight(w: Wait): nat { if w == Ok then 1 else if ClientReading(w) then 0 else 2 }

  function WaitLeft(y: Sys): nat { Weight(y.cw) + Weight(y.sw) }

  ghost predicate Less(z: Sys, y: Sys) {
    || StatesLeft(z) < StatesLeft(y)
    || (StatesLeft(z) == StatesLeft(y) && OutLeft(z) < OutLeft(y))
    || (StatesLeft(z) == StatesLeft(y) && OutLeft(z) == OutLeft(y) && ChannelLeft(z) < ChannelLeft(y))
    || (StatesLeft(z) == StatesLeft(y) && OutLeft(z) == OutLeft(y) && ChannelLeft(z) == ChannelLeft(y) && WaitLeft(z) < WaitLeft(y))
  }

  // Everything goes well and is ready.
  function ClientEnv(h: Shared): Env { Env(false, false, Valid, h.f, h.f.channelId, false) }

  function ServerEnv(h: Shared): Env { Env(false, false, Valid, Offered(h), h.f.channelId, false) }

  lemma ClientRunsLess(h: Shared, y: Sys)
    requires Inv(h, y) && Quiet(y) && y.cw == Ok && y.c.st != C.State.Done
    ensures GoodAction(h, ClientRuns(ClientEnv(h))) && Less(Next(h.x, y, ClientRuns(ClientEnv(h))), y)
  {
    var e := ClientEnv(h);
    StepInv(h, y, ClientRuns(e));
    CSafety.StepMoves(h.x, e, y.c);
    CSafety.StepAdvances(h.x, e, y.c);
    CSafety.FollowingAdvances(e, y.c);
  }

  lemma ServerRunsLess(h: Shared, y: Sys)
    requires Inv(h, y) && Quiet(y) && y.sw == Ok && y.s.st != S.State.Done
    ensures GoodAction(h, ServerRuns(ServerEnv(h))) && Less(Next(h.x, y, ServerRuns(ServerEnv(h))), y)
  {
    var e := ServerEnv(h);
    StepInv(h, y, ServerRuns(e));
    SSafety.StepMoves(h.x, e, y.s);
    SSafety.StepAdvances(h.x, e, y.s);
    SSafety.FollowingAdvances(e, y.s);
  }

  lemma ClientFlushesLess(h: Shared, y: Sys)
    requires y.cw == Flush
    ensures Less(Next(h.x, y, ClientFlushes(|y.c.io.out|)), y)
  {
  }

  lemma ServerFlushesLess(h: Shared, y: Sys)
    requires y.sw == Flush
    ensures Less(Next(h.x, y, ServerFlushes(|y.s.io.out|)), y)
  {
  }

  lemma ClientReadsLess(h: Shared, y: Sys, n: nat)
    requires ClientReading(y.cw) && y.toClient != []
    ensures Less(Next(h.x, y, ClientReads(n)), y)
  {
    var z, k := Next(h.x, y, ClientReads(n)), RecordLength(y.toClient, n);
    ClientReceives(y.c, y.cw, y.toClient[..k]);
    assert z.toClient == y.toClient[k..] && |z.toClient| < |y.toClient| && z.toServer == y.toServer && z.s == y.s;
    assert StatesLeft(z) == StatesLeft(y) && OutLeft(z) == OutLeft(y);
  }

  lemma ServerReadsLess(h: Shared, y: Sys, n: nat)
    requires ServerReading(y.sw) && y.toServer != []
    ensures Less(Next(h.x, y, ServerReads(n)), y)
  {
    var z, k := Next(h.x, y, ServerReads(n)), RecordLength(y.toServer, n);
    ServerReceives(y.s, y.sw, y.toServer[..k]);
    assert z.toServer == y.toServer[k..] && |z.toServer| < |y.toServer| && z.toClient == y.toClient && z.c == y.c;
    assert StatesLeft(z) == StatesLeft(y) && OutLeft(z) == OutLeft(y);
  }

  lemma ClientResumesLess(h: Shared, y: Sys)
    requires y.cw != Ok && y.cw != Error && y.cw != Flush && !ClientReading(y.cw)
    ensures Less(Next(h.x, y, ClientResumes), y)
  {
  }

  lemma ServerResumesLess(h: Shared, y: Sys)
    requires y.sw != Ok && y.sw != Error && y.sw != Flush && !ServerReading(y.sw) && y.sw != ReadServerHello
    ensures Less(Next(h.x, y, ServerResumes), y)
  {
  }

  // --- No deadlock ---

  lemma ReadingIsQuiet(h: Shared, st: C.State)
    requires CSteps.Reads(h, st) || st.ProcessChangeCipherSpec?
    ensures !CSafety.Sending(st)
  {
  }

  // An end that reads has nothing left to send, and the script has a message for it next.
  lemma ClientWaits(h: Shared, y: Sys)
    requires ClientInv(h, y.c, y.cw) && Quiet(y) && ClientReading(y.cw)
    ensures y.c.io.out == [] && First(h, CAt(h, y)).Some? && First(h, CAt(h, y)).value.fromServer
    ensures y.c.io.inbox != [] ==> First(h, CAt(h, y)).value.kind == ChangeCipherSpec
  {
    ReadingIsQuiet(h, y.c.st);
    if y.cw == ReadChangeCipherSpec {
      FirstOn(h, AtServerCcs);
      assert CAt(h, y) == AtServerCcs;
    } else {
      CSteps.ReadsAwaits(h, y.c.st);
      assert CAt(h, y) == ClientPoint(h, y.c.st);
    }
  }

  // With nothing on its way it has read everything the other end has sent.
  lemma ClientIdle(h: Shared, y: Sys)
    requires Inv(h, y) && Quiet(y) && ClientReading(y.cw) && y.toClient == [] && y.s.io.out == []
    ensures FromServer(y) == []
  {
    ClientWaits(h, y);
    if FromServer(y) != [] {
      assert FromServer(y) == y.c.io.inbox && y.c.io.inbox[0] in y.c.io.inbox;
      NextPending(h, false, CAt(h, y), y.c.io.transcript, FromClient(y), SAt(h, y), y.s.io.transcript, FromServer(y));
    }
  }

  lemma ServerReadingIsQuiet(h: Shared, st: S.State)
    requires SSteps.Reads(h, st) || st.ProcessChangeCipherSpec?
    ensures !SSafety.Sending(st)
  {
  }

  lemma ServerWaits(h: Shared, y: Sys)
    requires ServerInv(h, y.s, y.sw) && Quiet(y) && ServerReading(y.sw)
    ensures y.s.io.out == [] && First(h, SAt(h, y)).Some? && !First(h, SAt(h, y)).value.fromServer
    ensures y.s.io.inbox != [] ==> First(h, SAt(h, y)).value.kind == ChangeCipherSpec
  {
    ServerReadingIsQuiet(h, y.s.st);
    if y.sw == ReadChangeCipherSpec {
      FirstOn(h, AtClientCcs);
      assert SAt(h, y) == AtClientCcs;
    } else {
      SSteps.ReadsAwaits(h, y.s.st);
      assert SAt(h, y) == ServerPoint(h, y.s.st);
    }
  }

  lemma ServerIdle(h: Shared, y: Sys)
    requires Inv(h, y) && Quiet(y) && ServerReading(y.sw) && y.toServer == [] && y.c.io.out == []
    ensures FromClient(y) == []
  {
    ServerWaits(h, y);
    if FromClient(y) != [] {
      assert FromClient(y) == y.s.io.inbox && y.s.io.inbox[0] in y.s.io.inbox;
      NextPending(h, true, SAt(h, y), y.s.io.transcript, FromServer(y), CAt(h, y), y.c.io.transcript, FromClient(y));
    }
  }

  // The script has no message for anyone when one end is done and the other has read
  // everything, and none for both when both have.
  lemma NoneNext(h: Shared, server: bool, p: Point, t: seq<Msg>, a: seq<Msg>, q: Point, u: seq<Msg>, b: seq<Msg>)
    requires Link(h, server, p, t, a, q, u, b) && b == []
    ensures q == AtEnd ==> First(h, p) == None
    ensures a == [] ==> First(h, p) == First(h, q)
  {
    NothingPending(h, server, p, t, a, q, u, b);
    FirstIsHead(h, p);
    FirstIsHead(h, q);
    if q == AtEnd { assert |Items(a) + Rest(h, p)| == 0; }
    if a == [] { SameRest(h, q, p); }
  }

  predicate ClientStuck(y: Sys) { (y.cw == Ok && y.c.st == C.State.Done) || (ClientReading(y.cw) && y.toClient == []) }

  predicate ServerStuck(y: Sys) { (y.sw == Ok && y.s.st == S.State.Done) || (ServerReading(y.sw) && y.toServer == []) }

  lemma BothRead(h: Shared, y: Sys)
    requires Inv(h, y) && Quiet(y) && ClientReading(y.cw) && ServerReading(y.sw) && y.toClient == [] && y.toServer == []
    ensures First(h, CAt(h, y)) == First(h, SAt(h, y))
  {
    ClientWaits(h, y);
    ServerWaits(h, y);
    ClientIdle(h, y);
    ServerIdle(h, y);
    NoneNext(h, false, CAt(h, y), y.c.io.transcript, FromClient(y), SAt(h, y), y.s.io.transcript, FromServer(y));
  }

  lemma ServerIsDone(h: Shared, y: Sys)
    requires Inv(h, y) && Quiet(y) && ClientReading(y.cw) && y.toClient == [] && y.sw == Ok && y.s.st == S.State.Done
    ensures First(h, CAt(h, y)) == None
  {
    ClientIdle(h, y);
    assert SAt(h, y) == AtEnd;
    NoneNext(h, false, CAt(h, y), y.c.io.transcript, FromClient(y), SAt(h, y), y.s.io.transcript, FromServer(y));
  }

  lemma ClientIsDone(h: Shared, y: Sys)
    requires Inv(h, y) && Quiet(y) && ServerReading(y.sw) && y.toServer == [] && y.cw == Ok && y.c.st == C.State.Done
    ensures First(h, SAt(h, y)) == None
  {
    ServerIdle(h, y);
    assert CAt(h, y) == AtEnd;
    NoneNext(h, true, SAt(h, y), y.s.io.transcript, FromServer(y), CAt(h, y), y.c.io.transcript, FromClient(y));
  }

  // Neither end can be left waiting for the other.
  lemma NoDeadlock(h: Shared, y: Sys)
    requires Inv(h, y) && Quiet(y) && ClientStuck(y) && ServerStuck(y)
    ensures y.c.st == C.State.Done && y.s.st == S.State.Done
  {
    if ClientReading(y.cw) { ClientWaits(h, y); }
    if ServerReading(y.sw) { ServerWaits(h, y); }
    if ClientReading(y.cw) && ServerReading(y.sw) { BothRead(h, y); }
    else if ClientReading(y.cw) { ServerIsDone(h, y); }
    else if ServerReading(y.sw) { ClientIsDone(h, y); }
  }

  // Until both are done some action brings them closer.
  lemma Closer(h: Shared, y: Sys) returns (a: Action)
    requires Inv(h, y) && Quiet(y) && !(y.c.st == C.State.Done && y.s.st == S.State.Done)
    ensures GoodAction(h, a) && Less(Next(h.x, y, a), y)
  {
    if y.cw == Flush {
      a := ClientFlushes(|y.c.io.out|);
      ClientFlushesLess(h, y);
    } else if y.sw == Flush {
      a := ServerFlushes(|y.s.io.out|);
      ServerFlushesLess(h, y);
    } else if y.cw == Ok && y.c.st != C.State.Done {
      a := ClientRuns(ClientEnv(h));
      ClientRunsLess(h, y);
    } else if y.sw == Ok && y.s.st != S.State.Done {
      a := ServerRuns(ServerEnv(h));
      ServerRunsLess(h, y);
    } else if ClientReading(y.cw) && y.toClient != [] {
      a := ClientReads(0);
      ClientReadsLess(h, y, 0);
    } else if ServerReading(y.sw) && y.toServer != [] {
      a := ServerReads(0);
      ServerReadsLess(h, y, 0);
    } else if y.cw != Ok && !ClientReading(y.cw) {
      a := ClientResumes;
      ClientResumesLess(h, y);
    } else {
      if ClientStuck(y) && ServerStuck(y) { NoDeadlock(h, y); }
      a := ServerResumes;
      ServerResumesLess(h, y);
    }
  }

  lemma {:induction false} RunFirst(x: Crypto, y: Sys, a: Action, rest: seq<Action>)
    ensures Run(x, y, [a] + rest) == Run(x, Next(x, y, a), rest)
    decreases |rest|
  {
    var all := [a] + rest;
    if rest == [] {
      assert all[..0] == [];
    } else {
      var n := |rest| - 1;
      RunFirst(x, y, a, rest[..n]);
      assert all[..|all| - 1] == [a] + rest[..n];
    }
  }

  ghost predicate Continues(x: Crypto, y: Sys, a: Action, z: Sys) {
    forall rest :: Run(x, y, [a] + rest) == Run(x, z, rest)
  }

  lemma Onward(h: Shared, y: Sys) returns (a: Action, z: Sys)
    requires Inv(h, y) && Quiet(y) && !(y.c.st == C.State.Done && y.s.st == S.State.Done)
    ensures GoodAction(h, a) && Inv(h, z) && Quiet(z) && Less(z, y) && Continues(h.x, y, a, z)
  {
    a := Closer(h, y);
    z := Next(h.x, y, a);
    StepQuiet(h, y, a);
    forall rest ensures Run(h.x, y, [a] + rest) == Run(h.x, z, rest) { RunFirst(h.x, y, a, rest); }
  }

  predicate BothDone(y: Sys) { y.c.st == C.State.Done && y.s.st == S.State.Done }

  lemma Extended(h: Shared, y: Sys, a: Action, z: Sys, rest: seq<Action>)
    requires GoodAction(h, a) && GoodActions(h, rest) && Continues(h.x, y, a, z)
    ensures GoodActions(h, [a] + rest) && Run(h.x, y, [a] + rest) == Run(h.x, z, rest)
  {
  }

  lemma LessBounds(z: Sys, y: Sys) returns (s: nat, o: nat, c: nat, w: nat)
    requires Less(z, y)
    ensures s == StatesLeft(z) && o == OutLeft(z) && c == ChannelLeft(z) && w == WaitLeft(z)
    ensures var s', o', c', w' := StatesLeft(y), OutLeft(y), ChannelLeft(y), WaitLeft(y);
            s < s' || (s == s' && (o < o' || (o == o' && (c < c' || (c == c' && w < w')))))
  {
    StatesBound(z);
    s, o, c, w := StatesLeft(z), OutLeft(z), ChannelLeft(z), WaitLeft(z);
  }

  // From every state they can get into, both ends can reach their last state.
  lemma {:induction false} BothFinish(h: Shared, y: Sys, states: nat, out: nat, channel: nat, waits: nat) returns (actions: seq<Action>)
    requires Inv(h, y) && Quiet(y)
    requires states == StatesLeft(y) && out == OutLeft(y) && channel == ChannelLeft(y) && waits == WaitLeft(y)
    ensures GoodActions(h, actions) && BothDone(Run(h.x, y, actions))
    decreases states, out, channel, waits
  {
    if BothDone(y) {
      actions := [];
    } else {
      var a, z := Onward(h, y);
      var s, o, c, w := LessBounds(z, y);
      var rest := BothFinish(h, z, s, o, c, w);
      actions := [a] + rest;
      Extended(h, y, a, z, rest);
    }
  }

  lemma StatesBound(y: Sys)
    ensures StatesLeft(y) >= 0
  {
  }

  lemma {:induction false} RunQuiet(h: Shared, y: Sys, actions: seq<Action>)
    requires Inv(h, y) && Quiet(y) && GoodActions(h, actions)
    ensures Inv(h, Run(h.x, y, actions)) && Quiet(Run(h.x, y, actions))
  {
    if actions != [] {
      var n := |actions| - 1;
      RunQuiet(h, y, actions[..n]);
      StepQuiet(h, Run(h.x, y, actions[..n]), actions[n]);
    }
  }

  // However a run has gone so far, it can be completed.
  lemma AlwaysCompletable(h: Shared, dtls: bool, offered: bool, actions: seq<Action>) returns (more: seq<Action>)
    requires Compatible(h) && (h.f.resumed ==> offered) && GoodActions(h, actions)
    ensures GoodActions(h, more)
    ensures var z := Run(h.x, Run(h.x, Begin(dtls, h, offered), actions), more);
            z.c.st == C.State.Done && z.s.st == S.State.Done && z.c.io.transcript == z.s.io.transcript
  {
    var y := Begin(dtls, h, offered);
    BeginInv(dtls, h, offered);
    RunQuiet(h, y, actions);
    var w := Run(h.x, y, actions);
    StatesBound(w);
    more := BothFinish(h, w, StatesLeft(w), OutLeft(w), ChannelLeft(w), WaitLeft(w));
    RunInv(h, w, more);
    DoneAgrees(h, Run(h.x, w, more));
  }
}
