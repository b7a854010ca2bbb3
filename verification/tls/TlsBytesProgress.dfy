// From every state the two ends can get into over records, both can finish.

module TlsBytesProgress {
  import opened Basics
  import opened TlsMessages
  import opened TlsScript
  import opened TlsWay
  import opened TlsAgreement
  import opened TlsBytes
  import Progress = TlsProgress
  import CSteps = TlsClientSteps
  import SSteps = TlsServerSteps
  import C = TlsClient
  import S = TlsServer

  // What every run over records keeps.
  ghost predicate Fair(h: Shared, u: Setup, j: Joint) {
    JointOk(u, j) && Inv(h, View(u, j)) && Progress.Quiet(View(u, j))
  }

  predicate BothDone(j: Joint) { j.c.st == C.State.Done && j.s.st == S.State.Done }

  // What is left: the measure of the machines joined by messages, then the records to be read.
  function WireLeft(j: Joint): nat { |j.toServer.wire| + |j.toClient.wire| }

  ghost predicate Less(u: Setup, k: Joint, j: Joint) {
    Progress.Less(View(u, k), View(u, j)) || (View(u, k) == View(u, j) && WireLeft(k) < WireLeft(j))
  }

  // The event brings them closer.
  ghost predicate Nearer(h: Shared, u: Setup, j: Joint, v: Event)
    requires u.fragment > 0
  {
    GoodEvent(h, v) && Fair(h, u, After(h.x, u, j, v)) && Less(u, After(h.x, u, j, v), j)
  }

  // An event that is one step closer for the messages is one step closer.
  lemma StepCloser(h: Shared, u: Setup, j: Joint, v: Event, k: Joint, a: Action)
    requires u.fragment > 0 && GoodEvent(h, v) && k == After(h.x, u, j, v)
    requires Fair(h, u, j) && Simulates(h, u, j, k, [a]) && Progress.Less(Next(h.x, View(u, j), a), View(u, j))
    ensures Nearer(h, u, j, v)
  {
    StepFair(h, u, j, k, a);
  }

  lemma StepFair(h: Shared, u: Setup, j: Joint, k: Joint, a: Action)
    requires Fair(h, u, j) && Simulates(h, u, j, k, [a])
    ensures Fair(h, u, k) && View(u, k) == Next(h.x, View(u, j), a)
  {
    assert GoodAction(h, [a][0]);
    Progress.StepQuiet(h, View(u, j), a);
  }

  // So is reading a record that changes nothing for the messages.
  lemma ReadCloser(h: Shared, u: Setup, j: Joint, v: Event, k: Joint)
    requires u.fragment > 0 && GoodEvent(h, v) && k == After(h.x, u, j, v)
    requires Fair(h, u, j) && Simulates(h, u, j, k, []) && WireLeft(k) < WireLeft(j)
    ensures Nearer(h, u, j, v)
  {
  }

  // What the other events do.
  lemma Opening(x: Crypto, u: Setup, j: Joint)
    requires u.fragment > 0
    ensures After(x, u, j, ClientOpens) == OpenClient(u, j) && After(x, u, j, ServerOpens) == OpenServer(u, j)
    ensures After(x, u, j, ClientResumed) == ResumedClient(j) && After(x, u, j, ServerResumed) == ResumedServer(j)
  {
  }

  lemma ClientWritesCloser(h: Shared, u: Setup, j: Joint)
    requires u.fragment > 0 && Fair(h, u, j) && j.cw == Flush
    ensures Nearer(h, u, j, ClientWrites(|j.toServer.pending|))
  {
    var n := |j.toServer.pending|;
    ClientWrote(h, u, j, n);
    MovedOk(j.toServer, j.c.io.out, n, u.codec, false);
    Progress.ClientFlushesLess(h, View(u, j));
    StepCloser(h, u, j, ClientWrites(n), WriteClient(u, j, n), ClientFlushes(|j.c.io.out|));
  }

  lemma ServerWritesCloser(h: Shared, u: Setup, j: Joint)
    requires u.fragment > 0 && Fair(h, u, j) && j.sw == Flush
    ensures Nearer(h, u, j, ServerWrites(|j.toClient.pending|))
  {
    var n := |j.toClient.pending|;
    ServerWrote(h, u, j, n);
    MovedOk(j.toClient, j.s.io.out, n, u.codec, true);
    Progress.ServerFlushesLess(h, View(u, j));
    StepCloser(h, u, j, ServerWrites(n), WriteServer(u, j, n), ServerFlushes(|j.s.io.out|));
  }

  lemma ClientStepsCloser(h: Shared, u: Setup, j: Joint)
    requires GoodSetup(u, h.x) && Fair(h, u, j) && j.cw == Ok && j.c.st != C.State.Done
    ensures Nearer(h, u, j, ClientStep(Progress.ClientEnv(h)))
  {
    var e := Progress.ClientEnv(h);
    Progress.ClientRunsLess(h, View(u, j));
    ClientStepped(h, u, j, e);
    StepCloser(h, u, j, ClientStep(e), StepClient(h.x, u, j, e), ClientRuns(e));
  }

  lemma ServerStepsCloser(h: Shared, u: Setup, j: Joint)
    requires GoodSetup(u, h.x) && Fair(h, u, j) && j.sw == Ok && j.s.st != S.State.Done
    ensures Nearer(h, u, j, ServerStep(Progress.ServerEnv(h)))
  {
    var e := Progress.ServerEnv(h);
    Progress.ServerRunsLess(h, View(u, j));
    ServerStepped(h, u, j, e);
    StepCloser(h, u, j, ServerStep(e), StepServer(h.x, u, j, e), ServerRuns(e));
  }

  // A message that is on its way is in a record, and every record that is read brings it closer.
  lemma ClientOpensCloser(h: Shared, u: Setup, j: Joint)
    requires GoodSetup(u, h.x) && Fair(h, u, j) && ClientReading(j.cw) && View(u, j).toClient != []
    ensures Nearer(h, u, j, ClientOpens)
  {
    var actions := ClientOpened(h, u, j);
    Opening(h.x, u, j);
    if actions != [] {
      assert actions == [actions[0]];
      ClientReadsCloser(h, u, j, actions[0].n);
    } else {
      ClientOpensOne(u, j);
      ReadCloser(h, u, j, ClientOpens, OpenClient(u, j));
    }
  }

  lemma ClientReadsCloser(h: Shared, u: Setup, j: Joint, n: nat)
    requires u.fragment > 0 && Fair(h, u, j) && Simulates(h, u, j, OpenClient(u, j), [ClientReads(n)])
    requires ClientReading(j.cw) && View(u, j).toClient != []
    ensures Nearer(h, u, j, ClientOpens)
  {
    Opening(h.x, u, j);
    Progress.ClientReadsLess(h, View(u, j), n);
    StepCloser(h, u, j, ClientOpens, OpenClient(u, j), ClientReads(n));
  }

  lemma ClientOpensOne(u: Setup, j: Joint)
    requires ClientReading(j.cw) && View(u, j).toClient != []
    ensures WireLeft(OpenClient(u, j)) < WireLeft(j)
  {
  }

  lemma ServerOpensCloser(h: Shared, u: Setup, j: Joint)
    requires GoodSetup(u, h.x) && Fair(h, u, j) && ServerReading(j.sw) && View(u, j).toServer != []
    ensures Nearer(h, u, j, ServerOpens)
  {
    var actions := ServerOpened(h, u, j);
    Opening(h.x, u, j);
    if actions != [] {
      assert actions == [actions[0]];
      ServerReadsCloser(h, u, j, actions[0].n);
    } else {
      ServerOpensOne(u, j);
      ReadCloser(h, u, j, ServerOpens, OpenServer(u, j));
    }
  }

  lemma ServerReadsCloser(h: Shared, u: Setup, j: Joint, n: nat)
    requires u.fragment > 0 && Fair(h, u, j) && Simulates(h, u, j, OpenServer(u, j), [ServerReads(n)])
    requires ServerReading(j.sw) && View(u, j).toServer != []
    ensures Nearer(h, u, j, ServerOpens)
  {
    Opening(h.x, u, j);
    Progress.ServerReadsLess(h, View(u, j), n);
    StepCloser(h, u, j, ServerOpens, OpenServer(u, j), ServerReads(n));
  }

  lemma ServerOpensOne(u: Setup, j: Joint)
    requires ServerReading(j.sw) && View(u, j).toServer != []
    ensures WireLeft(OpenServer(u, j)) < WireLeft(j)
  {
  }

  lemma ClientResumesLess(h: Shared, u: Setup, j: Joint)
    requires j.cw != Ok && j.cw != Error && j.cw != Flush && !ClientReading(j.cw)
    ensures Progress.Less(Next(h.x, View(u, j), ClientResumes), View(u, j))
  {
    Progress.ClientResumesLess(h, View(u, j));
  }

  lemma ClientResumesCloser(h: Shared, u: Setup, j: Joint)
    requires u.fragment > 0 && Fair(h, u, j) && j.cw != Ok && j.cw != Error && j.cw != Flush && !ClientReading(j.cw)
    ensures Nearer(h, u, j, ClientResumed)
  {
    Opening(h.x, u, j);
    ClientResumedOk(h, u, j);
    ClientResumesLess(h, u, j);
    StepCloser(h, u, j, ClientResumed, ResumedClient(j), ClientResumes);
  }

  lemma ServerResumesLess(h: Shared, u: Setup, j: Joint)
    requires j.sw != Ok && j.sw != Error && j.sw != Flush && !ServerReading(j.sw) && j.sw != ReadServerHello
    ensures Progress.Less(Next(h.x, View(u, j), ServerResumes), View(u, j))
  {
    Progress.ServerResumesLess(h, View(u, j));
  }

  lemma ServerResumesCloser(h: Shared, u: Setup, j: Joint)
    requires u.fragment > 0 && Fair(h, u, j) && j.sw != Ok && j.sw != Error && j.sw != Flush && !ServerReading(j.sw) && j.sw != ReadServerHello
    ensures Nearer(h, u, j, ServerResumed)
  {
    Opening(h.x, u, j);
    ServerResumedOk(h, u, j);
    ServerResumesLess(h, u, j);
    StepCloser(h, u, j, ServerResumed, ResumedServer(j), ServerResumes);
  }

  // Until both are done some event brings them closer.
  lemma Closer(h: Shared, u: Setup, j: Joint) returns (v: Event)
    requires GoodSetup(u, h.x) && Fair(h, u, j) && !BothDone(j)
    ensures Nearer(h, u, j, v)
  {
    var y := View(u, j);
    if j.cw == Flush {
      v := ClientWrites(|j.toServer.pending|);
      ClientWritesCloser(h, u, j);
    } else if j.sw == Flush {
      v := ServerWrites(|j.toClient.pending|);
      ServerWritesCloser(h, u, j);
    } else if j.cw == Ok && j.c.st != C.State.Done {
      v := ClientStep(Progress.ClientEnv(h));
      ClientStepsCloser(h, u, j);
    } else if j.sw == Ok && j.s.st != S.State.Done {
      v := ServerStep(Progress.ServerEnv(h));
      ServerStepsCloser(h, u, j);
    } else if ClientReading(j.cw) && y.toClient != [] {
      v := ClientOpens;
      ClientOpensCloser(h, u, j);
    } else if ServerReading(j.sw) && y.toServer != [] {
      v := ServerOpens;
      ServerOpensCloser(h, u, j);
    } else if j.cw != Ok && !ClientReading(j.cw) {
      v := ClientResumed;
      ClientResumesCloser(h, u, j);
    } else {
      v := ServerResumed;
      ServerIsLeft(h, y);
      ServerResumesCloser(h, u, j);
    }
  }

  // Only the server can then have something to wait for.
  lemma ServerIsLeft(h: Shared, y: Sys)
    requires Inv(h, y) && Progress.Quiet(y) && !(y.c.st == C.State.Done && y.s.st == S.State.Done)
    requires y.cw != Flush && y.sw != Flush && !(y.cw == Ok && y.c.st != C.State.Done) && !(y.sw == Ok && y.s.st != S.State.Done)
    requires !(ClientReading(y.cw) && y.toClient != []) && !(ServerReading(y.sw) && y.toServer != [])
    requires y.cw == Ok || ClientReading(y.cw)
    ensures y.sw != Ok && y.sw != Error && !ServerReading(y.sw) && y.sw != ReadServerHello
  {
    if Progress.ClientStuck(y) && Progress.ServerStuck(y) { Progress.NoDeadlock(h, y); }
  }

  // --- Whole runs ---

  lemma {:induction false} FirstEvent(x: Crypto, u: Setup, j: Joint, v: Event, rest: seq<Event>)
    requires u.fragment > 0
    ensures AfterAll(x, u, j, [v] + rest) == AfterAll(x, u, After(x, u, j, v), rest)
    decreases |rest|
  {
    var all := [v] + rest;
    if rest == [] {
      assert all[..0] == [];
    } else {
      var n := |rest| - 1;
      FirstEvent(x, u, j, v, rest[..n]);
      assert all[..|all| - 1] == [v] + rest[..n];
    }
  }

  // The measure as five numbers.
  lemma Bounds(u: Setup, k: Joint, j: Joint) returns (s: nat, o: nat, c: nat, w: nat)
    requires Less(u, k, j)
    ensures var z := View(u, k);
            s == Progress.StatesLeft(z) && o == Progress.OutLeft(z) && c == Progress.ChannelLeft(z) && w == Progress.WaitLeft(z)
    ensures var y := View(u, j);
            var s', o', c', w' := Progress.StatesLeft(y), Progress.OutLeft(y), Progress.ChannelLeft(y), Progress.WaitLeft(y);
            s < s' || (s == s' && (o < o' || (o == o' && (c < c' || (c == c' && (w < w' || (w == w' && WireLeft(k) < WireLeft(j))))))))
  {
    var z := View(u, k);
    Progress.StatesBound(z);
    s, o, c, w := Progress.StatesLeft(z), Progress.OutLeft(z), Progress.ChannelLeft(z), Progress.WaitLeft(z);
  }

  ghost predicate Completes(h: Shared, u: Setup, j: Joint, events: seq<Event>)
    requires u.fragment > 0
  {
    var z := AfterAll(h.x, u, j, events);
    GoodEvents(h, events) && BothDone(z) && Fair(h, u, z)
  }

  lemma {:induction false} Extended(h: Shared, u: Setup, j: Joint, v: Event, k: Joint, rest: seq<Event>)
    requires u.fragment > 0 && GoodEvent(h, v) && k == After(h.x, u, j, v) && Completes(h, u, k, rest)
    ensures Completes(h, u, j, [v] + rest)
  {
    FirstEvent(h.x, u, j, v, rest);
  }

  lemma {:induction false} BothFinish(h: Shared, u: Setup, j: Joint, states: nat, out: nat, channel: nat, waits: nat,
                                      wire: nat)
    returns (events: seq<Event>)
    requires GoodSetup(u, h.x) && Fair(h, u, j)
    requires var y := View(u, j);
             && states == Progress.StatesLeft(y) && out == Progress.OutLeft(y) && channel == Progress.ChannelLeft(y)
             && waits == Progress.WaitLeft(y) && wire == WireLeft(j)
    ensures Completes(h, u, j, events)
    decreases states, out, channel, waits, wire
  {
    events := [];
    if !BothDone(j) {
      var v, k := Onward(h, u, j);
      var s, o, c, w := Bounds(u, k, j);
      var rest := BothFinish(h, u, k, s, o, c, w, WireLeft(k));
      events := [v] + rest;
      Extended(h, u, j, v, k, rest);
    }
  }

  lemma Onward(h: Shared, u: Setup, j: Joint) returns (v: Event, k: Joint)
    requires GoodSetup(u, h.x) && Fair(h, u, j) && !BothDone(j)
    ensures GoodEvent(h, v) && k == After(h.x, u, j, v) && Fair(h, u, k) && Less(u, k, j)
  {
    v := Closer(h, u, j);
    k := After(h.x, u, j, v);
  }

  // However a run over records has gone so far, it can be completed.
  lemma AlwaysCompletableInBytes(h: Shared, u: Setup, offered: bool, events: seq<Event>) returns (more: seq<Event>)
    requires Compatible(h) && (h.f.resumed ==> offered) && GoodSetup(u, h.x) && GoodEvents(h, events)
    ensures GoodEvents(h, more)
    ensures var z := AfterAll(h.x, u, AfterAll(h.x, u, BeginJoint(h, offered), events), more);
            z.c.st == C.State.Done && z.s.st == S.State.Done && z.c.io.transcript == z.s.io.transcript
  {
    var actions := RunOfMessages(h, u, offered, events);
    var j := AfterAll(h.x, u, BeginJoint(h, offered), events);
    BeginInv(false, h, offered);
    Progress.RunQuiet(h, Begin(false, h, offered), actions);
    var y := View(u, j);
    Progress.StatesBound(y);
    more := BothFinish(h, u, j, Progress.StatesLeft(y), Progress.OutLeft(y), Progress.ChannelLeft(y), Progress.WaitLeft(y), WireLeft(j));
    DoneAgrees(h, View(u, AfterAll(h.x, u, j, more)));
  }
}
