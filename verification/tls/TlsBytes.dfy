// The two machines joined by records: what each sends is cut into records, and the other end
// puts the messages together again, wherever records end and whenever they are written and
// read. They agree as they do over a channel of messages.

module TlsBytes {
  import opened Basics
  import opened TlsMessages
  import opened TlsScript
  import opened TlsFlightWriter
  import opened TlsSends
  import opened TlsWay
  import opened TlsAgreement
  import CSteps = TlsClientSteps
  import SSteps = TlsServerSteps
  import CSafety = TlsClientSafety
  import SSafety = TlsServerSafety
  import C = TlsClient
  import S = TlsServer
  import Progress = TlsProgress

  // Both machines and what each waits for, and the two directions. The out field of a machine
  // lists the messages of its flight that are not wholly on the wire.
  datatype Joint = Joint(c: C.Client, cw: Wait, s: S.Server, sw: Wait, toServer: Way, toClient: Way)

  // How messages are written and cut, and the cipher of each end.
  datatype Setup = Setup(codec: Codec, fragment: nat, clientCipher: Cipher, serverCipher: Cipher)

  ghost predicate GoodSetup(u: Setup, x: Crypto) {
    u.fragment > 0 && Sure(u.clientCipher) && Sure(u.serverCipher) && RightCodec(u.codec, x)
  }

  // As for the channel of messages, but n counts records, and a record is read as it is.
  datatype Event =
    | ClientStep(e: Env) | ServerStep(e: Env)
    | ClientWrites(n: nat) | ServerWrites(n: nat)
    | ClientOpens | ServerOpens
    | ClientResumed | ServerResumed

  // tls_has_unprocessed_handshake_data: no key changes while part of a message is held.
  function ClientDoes(x: Crypto, e: Env, j: Joint): C.Result {
    if j.c.st.ProcessChangeCipherSpec? && j.toClient.held != [] then C.Result(j.c, Error) else C.Do(x, e, j.c)
  }

  function ServerDoes(x: Crypto, e: Env, j: Joint): S.Result {
    if j.s.st.ProcessChangeCipherSpec? && j.toServer.held != [] then S.Result(j.s, Error) else S.Do(x, e, j.s)
  }

  // What a step adds to the flight.
  function Since(a: seq<Msg>, b: seq<Msg>): seq<Msg> { if |a| <= |b| then b[|a|..] else [] }

  function StepClient(x: Crypto, u: Setup, j: Joint, e: Env): Joint
    requires u.fragment > 0
  {
    if j.cw != Ok || j.c.st == C.State.Done then j
    else
      var r := ClientDoes(x, e, j);
      var way := Added(j.toServer, Since(j.c.io.out, r.c.io.out), u.codec, u.fragment, u.clientCipher);
      j.(c := r.c, cw := r.wait, toServer := way)
  }

  function StepServer(x: Crypto, u: Setup, j: Joint, e: Env): Joint
    requires u.fragment > 0
  {
    if j.sw != Ok || j.s.st == S.State.Done then j
    else
      var r := ServerDoes(x, e, j);
      var way := Added(j.toClient, Since(j.s.io.out, r.s.io.out), u.codec, u.fragment, u.serverCipher);
      j.(s := r.s, sw := r.wait, toClient := way)
  }

  function Drop(s: seq<Msg>, n: nat): seq<Msg> { if n <= |s| then s[n..] else [] }

  function WriteClient(u: Setup, j: Joint, n: nat): Joint {
    if j.cw != Flush then j
    else
      var k := Smaller(n, |j.toServer.pending|);
      var way := Moved(j.toServer, k);
      var out := Drop(j.c.io.out, Count(u.codec, false, j.toServer, k));
      j.(c := j.c.(io := j.c.io.(out := out)), cw := if way.pending == [] then Ok else Flush, toServer := way)
  }

  function WriteServer(u: Setup, j: Joint, n: nat): Joint {
    if j.sw != Flush then j
    else
      var k := Smaller(n, |j.toClient.pending|);
      var way := Moved(j.toClient, k);
      var out := Drop(j.s.io.out, Count(u.codec, true, j.toClient, k));
      j.(s := j.s.(io := j.s.io.(out := out)), sw := if way.pending == [] then Ok else Flush, toClient := way)
  }

  function OpenClient(u: Setup, j: Joint): Joint {
    if !ClientReading(j.cw) || j.toClient.wire == [] then j
    else
      var r := C.Receive(j.c, j.cw, Opened(u.codec, true, j.toClient));
      j.(c := r.c, cw := r.wait, toClient := AfterOpen(j.toClient))
  }

  function OpenServer(u: Setup, j: Joint): Joint {
    if !ServerReading(j.sw) || j.toServer.wire == [] then j
    else
      var r := S.Receive(j.s, j.sw, Opened(u.codec, false, j.toServer));
      j.(s := r.s, sw := r.wait, toServer := AfterOpen(j.toServer))
  }

  function ResumedClient(j: Joint): Joint {
    if j.cw == Error || j.cw == Flush || ClientReading(j.cw) then j else j.(cw := Ok)
  }

  function ResumedServer(j: Joint): Joint {
    if j.sw == Error || j.sw == Flush || ServerReading(j.sw) then j else j.(sw := Ok)
  }

  function After(x: Crypto, u: Setup, j: Joint, v: Event): Joint
    requires u.fragment > 0
  {
    match v
    case ClientStep(e) => StepClient(x, u, j, e)
    case ServerStep(e) => StepServer(x, u, j, e)
    case ClientWrites(n) => WriteClient(u, j, n)
    case ServerWrites(n) => WriteServer(u, j, n)
    case ClientOpens => OpenClient(u, j)
    case ServerOpens => OpenServer(u, j)
    case ClientResumed => ResumedClient(j)
    case ServerResumed => ResumedServer(j)
  }

  function AfterAll(x: Crypto, u: Setup, j: Joint, events: seq<Event>): Joint
    requires u.fragment > 0
  {
    if events == [] then j else After(x, u, AfterAll(x, u, j, events[..|events| - 1]), events[|events| - 1])
  }

  function BeginJoint(h: Shared, offered: bool): Joint {
    var y := Begin(false, h, offered);
    Joint(y.c, y.cw, y.s, y.sw, EMPTY_WAY, EMPTY_WAY)
  }

  // --- The messages the records carry ---

  function View(u: Setup, j: Joint): Sys {
    Sys(j.c, j.cw, j.s, j.sw, Channel(u.codec, false, j.toServer), Channel(u.codec, true, j.toClient))
  }

  ghost predicate JointOk(u: Setup, j: Joint) {
    && WayOk(u.codec, false, j.toServer, j.c.io.out) && WayOk(u.codec, true, j.toClient, j.s.io.out)
    && (j.c.st.ProcessChangeCipherSpec? ==> KeyWait(j.cw, j.toClient))
    && (j.s.st.ProcessChangeCipherSpec? ==> KeyWait(j.sw, j.toServer))
  }

  // Before a change of keys an end waits for the ChangeCipherSpec, or holds nothing.
  predicate KeyWait(w: Wait, way: Way) { w == ReadChangeCipherSpec || w == Error || (w == Ok && way.held == []) }

  // The event is these steps over the channel of messages, one or none.
  ghost predicate Simulates(h: Shared, u: Setup, j: Joint, k: Joint, actions: seq<Action>) {
    && JointOk(u, k) && |actions| <= 1 && GoodActions(h, actions)
    && View(u, k) == if actions == [] then View(u, j) else Next(h.x, View(u, j), actions[0])
  }

  ghost predicate GoodEvent(h: Shared, v: Event) {
    (v.ClientStep? ==> CSteps.GoodEnv(h, v.e)) && (v.ServerStep? ==> SSteps.GoodEnv(h, v.e))
  }

  ghost predicate GoodEvents(h: Shared, events: seq<Event>) { forall v :: v in events ==> GoodEvent(h, v) }

  lemma ClientGoesOn(h: Shared, y: Sys, e: Env)
    requires Inv(h, y) && y.cw == Ok && y.c.st != C.State.Done && CSteps.GoodEnv(h, e)
    ensures C.Do(h.x, e, y.c).wait != Error
  {
    ClientRunsInv(h, y, e);
  }

  lemma ServerGoesOn(h: Shared, y: Sys, e: Env)
    requires Inv(h, y) && y.sw == Ok && y.s.st != S.State.Done && SSteps.GoodEnv(h, e)
    ensures S.Do(h.x, e, y.s).wait != Error
  {
    ServerRunsInv(h, y, e);
  }

  // What a step adds to the flight is sealed behind it.
  lemma FlightAdded(x: Crypto, u: Setup, w: Way, a: seq<Msg>, b: seq<Msg>, server: bool, cipher: Cipher)
    requires GoodSetup(u, x) && Sure(cipher) && WayOk(u.codec, server, w, a) && Adds(x, server, a, b)
    ensures var v := Added(w, Since(a, b), u.codec, u.fragment, cipher);
            WayOk(u.codec, server, v, b) && Channel(u.codec, server, v) == Channel(u.codec, server, w) && v.held == w.held
  {
    AddedOk(w, a, Since(a, b), x, u.codec, server, u.fragment, cipher);
    assert a + Since(a, b) == b;
  }

  // The machines after a step, and their flights.
  lemma ClientMoved(h: Shared, u: Setup, j: Joint, e: Env, r: C.Result, way: Way)
    requires JointOk(u, j) && j.cw == Ok && j.c.st != C.State.Done && r == C.Do(h.x, e, j.c) && CSteps.GoodEnv(h, e)
    requires WayOk(u.codec, false, way, r.c.io.out) && way.held == j.toServer.held
    requires Channel(u.codec, false, way) == Channel(u.codec, false, j.toServer)
    requires r.c.st.ProcessChangeCipherSpec? ==> r.wait == ReadChangeCipherSpec
    ensures Simulates(h, u, j, j.(c := r.c, cw := r.wait, toServer := way), [ClientRuns(e)])
  {
  }

  lemma ServerMoved(h: Shared, u: Setup, j: Joint, e: Env, r: S.Result, way: Way)
    requires JointOk(u, j) && j.sw == Ok && j.s.st != S.State.Done && r == S.Do(h.x, e, j.s) && SSteps.GoodEnv(h, e)
    requires WayOk(u.codec, true, way, r.s.io.out) && way.held == j.toClient.held
    requires Channel(u.codec, true, way) == Channel(u.codec, true, j.toClient)
    requires r.s.st.ProcessChangeCipherSpec? ==> r.wait == ReadChangeCipherSpec
    ensures Simulates(h, u, j, j.(s := r.s, sw := r.wait, toClient := way), [ServerRuns(e)])
  {
  }

  // A step is one step over the channel of messages.
  lemma ClientStepped(h: Shared, u: Setup, j: Joint, e: Env)
    requires GoodSetup(u, h.x) && Inv(h, View(u, j)) && JointOk(u, j) && CSteps.GoodEnv(h, e)
    ensures Simulates(h, u, j, StepClient(h.x, u, j, e), [ClientRuns(e)])
  {
    if j.cw == Ok && j.c.st != C.State.Done {
      ClientGoesOn(h, View(u, j), e);
      ClientRan(h, u, j, e, C.Do(h.x, e, j.c));
    } else {
      ClientIdle(h, u, j, e);
    }
  }

  lemma ClientIdle(h: Shared, u: Setup, j: Joint, e: Env)
    requires u.fragment > 0 && JointOk(u, j) && CSteps.GoodEnv(h, e) && (j.cw != Ok || j.c.st == C.State.Done)
    ensures Simulates(h, u, j, StepClient(h.x, u, j, e), [ClientRuns(e)])
  {
  }

  lemma ServerIdle(h: Shared, u: Setup, j: Joint, e: Env)
    requires u.fragment > 0 && JointOk(u, j) && SSteps.GoodEnv(h, e) && (j.sw != Ok || j.s.st == S.State.Done)
    ensures Simulates(h, u, j, StepServer(h.x, u, j, e), [ServerRuns(e)])
  {
  }

  lemma ClientRan(h: Shared, u: Setup, j: Joint, e: Env, r: C.Result)
    requires GoodSetup(u, h.x) && JointOk(u, j) && CSteps.GoodEnv(h, e)
    requires j.cw == Ok && j.c.st != C.State.Done && r == C.Do(h.x, e, j.c) && r.wait != Error
    ensures Simulates(h, u, j, StepClient(h.x, u, j, e), [ClientRuns(e)])
  {
    ClientAdds(h.x, e, j.c);
    ClientMeets(h.x, e, j.c);
    FlightAdded(h.x, u, j.toServer, j.c.io.out, r.c.io.out, false, u.clientCipher);
    assert ClientDoes(h.x, e, j) == r;
    ClientMoved(h, u, j, e, r, Added(j.toServer, Since(j.c.io.out, r.c.io.out), u.codec, u.fragment, u.clientCipher));
  }

  // The client comes to the change of keys only to wait for a ChangeCipherSpec.
  lemma ClientMeets(x: Crypto, e: Env, c: C.Client)
    requires c.st != C.State.Done
    ensures var r := C.Do(x, e, c); r.wait != Error && r.c.st.ProcessChangeCipherSpec? ==> r.wait == ReadChangeCipherSpec
  {
    CSafety.StepMoves(x, e, c);
  }

  lemma ServerMeets(x: Crypto, e: Env, s: S.Server)
    requires s.st != S.State.Done
    ensures var r := S.Do(x, e, s); r.wait != Error && r.s.st.ProcessChangeCipherSpec? ==> r.wait == ReadChangeCipherSpec
  {
    SSafety.StepMoves(x, e, s);
  }

  lemma ServerStepped(h: Shared, u: Setup, j: Joint, e: Env)
    requires GoodSetup(u, h.x) && Inv(h, View(u, j)) && JointOk(u, j) && SSteps.GoodEnv(h, e)
    ensures Simulates(h, u, j, StepServer(h.x, u, j, e), [ServerRuns(e)])
  {
    if j.sw == Ok && j.s.st != S.State.Done {
      ServerGoesOn(h, View(u, j), e);
      ServerRan(h, u, j, e, S.Do(h.x, e, j.s));
    } else {
      ServerIdle(h, u, j, e);
    }
  }

  lemma ServerRan(h: Shared, u: Setup, j: Joint, e: Env, r: S.Result)
    requires GoodSetup(u, h.x) && JointOk(u, j) && SSteps.GoodEnv(h, e)
    requires j.sw == Ok && j.s.st != S.State.Done && r == S.Do(h.x, e, j.s) && r.wait != Error
    ensures Simulates(h, u, j, StepServer(h.x, u, j, e), [ServerRuns(e)])
  {
    ServerAdds(h.x, e, j.s);
    ServerMeets(h.x, e, j.s);
    FlightAdded(h.x, u, j.toClient, j.s.io.out, r.s.io.out, true, u.serverCipher);
    assert ServerDoes(h.x, e, j) == r;
    ServerMoved(h, u, j, e, r, Added(j.toClient, Since(j.s.io.out, r.s.io.out), u.codec, u.fragment, u.serverCipher));
  }

  // Writing records is writing the messages they complete.
  lemma ClientWrote(h: Shared, u: Setup, j: Joint, n: nat)
    requires JointOk(u, j)
    ensures var k: nat := Smaller(n, |j.toServer.pending|);
            Simulates(h, u, j, WriteClient(u, j, n), [ClientFlushes(Count(u.codec, false, j.toServer, k))])
  {
    if j.cw == Flush { MovedOk(j.toServer, j.c.io.out, Smaller(n, |j.toServer.pending|), u.codec, false); }
  }

  lemma ServerWrote(h: Shared, u: Setup, j: Joint, n: nat)
    requires JointOk(u, j)
    ensures var k: nat := Smaller(n, |j.toClient.pending|);
            Simulates(h, u, j, WriteServer(u, j, n), [ServerFlushes(Count(u.codec, true, j.toClient, k))])
  {
    if j.sw == Flush { MovedOk(j.toClient, j.s.io.out, Smaller(n, |j.toClient.pending|), u.codec, true); }
  }

  // The messages that a record completes are what the next record of the channel holds.
  lemma WholeRecord(ms: seq<Msg>, rest: seq<Msg>)
    requires ms != [] && ((|ms| == 1 && ms[0].kind == ChangeCipherSpec) || forall m :: m in ms ==> m.kind != ChangeCipherSpec)
    ensures RecordLength(ms + rest, |ms| - 1) == |ms|
  {
    if ms[0].kind != ChangeCipherSpec { AllOfThem(ms, rest); }
  }

  lemma {:induction false} AllOfThem(ms: seq<Msg>, rest: seq<Msg>)
    requires forall m :: m in ms ==> m.kind != ChangeCipherSpec
    ensures Messages(ms + rest, |ms|) == |ms|
  {
    if ms != [] {
      assert ms[0] in ms && (ms + rest)[1..] == ms[1..] + rest;
      AllOfThem(ms[1..], rest);
    }
  }

  // The messages of the next record are taken from the channel.
  lemma FromChannel(u: Setup, w: Way, out: seq<Msg>, server: bool, x: Crypto)
    requires GoodSetup(u, x) && WayOk(u.codec, server, w, out) && w.wire != []
    ensures var v, ms, ch := AfterOpen(w), Opened(u.codec, server, w), Channel(u.codec, server, w);
            && WayOk(u.codec, server, v, out)
            && (ms == [] ==> Channel(u.codec, server, v) == ch)
            && (ms != [] ==> RecordLength(ch, |ms| - 1) == |ms| && ch[..|ms|] == ms && ch[|ms|..] == Channel(u.codec, server, v))
            && (ms != [] && ms[0].kind == ChangeCipherSpec ==> v.held == [])
  {
    OpenedOk(w, out, u.codec, server, x);
    var ms, rest := Opened(u.codec, server, w), Channel(u.codec, server, AfterOpen(w));
    if ms != [] {
      assert ms[0] in ms;
      WholeRecord(ms, rest);
      assert (ms + rest)[..|ms|] == ms && (ms + rest)[|ms|..] == rest;
    } else {
      assert [] + rest == rest;
    }
  }

  // A wait for a ChangeCipherSpec ends with one, or with an error.
  lemma ClientWaited(c: C.Client, ms: seq<Msg>)
    requires ms != []
    ensures var r := C.Receive(c, ReadChangeCipherSpec, ms);
            r.wait == Error || (r.wait == Ok && ms[0].kind == ChangeCipherSpec)
  {
  }

  lemma ClientRead(h: Shared, u: Setup, j: Joint, ms: seq<Msg>, v: Way, r: C.Result)
    requires JointOk(u, j) && ClientReading(j.cw) && ms != [] && r == C.Receive(j.c, j.cw, ms)
    requires WayOk(u.codec, true, v, j.s.io.out)
    requires var ch := Channel(u.codec, true, j.toClient);
             RecordLength(ch, |ms| - 1) == |ms| && ch[..|ms|] == ms && ch[|ms|..] == Channel(u.codec, true, v)
    requires ms[0].kind == ChangeCipherSpec ==> v.held == []
    ensures Simulates(h, u, j, j.(c := r.c, cw := r.wait, toClient := v), [ClientReads(|ms| - 1)])
  {
    Progress.ClientReceives(j.c, j.cw, ms);
    ClientWaited(j.c, ms);
  }

  // Reading a record is reading the messages it completes, or nothing.
  lemma ClientOpened(h: Shared, u: Setup, j: Joint) returns (actions: seq<Action>)
    requires GoodSetup(u, h.x) && JointOk(u, j)
    ensures Simulates(h, u, j, OpenClient(u, j), actions) && (actions != [] ==> actions[0].ClientReads?)
  {
    actions := [];
    if ClientReading(j.cw) && j.toClient.wire != [] {
      var ms, v := Opened(u.codec, true, j.toClient), AfterOpen(j.toClient);
      FromChannel(u, j.toClient, j.s.io.out, true, h.x);
      if ms == [] {
        ClientHeld(h, u, j, v);
      } else {
        ClientRead(h, u, j, ms, v, C.Receive(j.c, j.cw, ms));
        actions := [ClientReads(|ms| - 1)];
      }
    }
  }

  // A record that completes no message changes nothing for the machine.
  lemma ClientHeld(h: Shared, u: Setup, j: Joint, v: Way)
    requires JointOk(u, j) && ClientReading(j.cw) && WayOk(u.codec, true, v, j.s.io.out)
    requires Channel(u.codec, true, v) == Channel(u.codec, true, j.toClient)
    ensures C.Receive(j.c, j.cw, []) == C.Result(j.c, j.cw) && Simulates(h, u, j, j.(toClient := v), [])
  {
  }

  // A wait for a ChangeCipherSpec ends with one, or with an error.
  lemma ServerWaited(s: S.Server, ms: seq<Msg>)
    requires ms != []
    ensures var r := S.Receive(s, ReadChangeCipherSpec, ms);
            r.wait == Error || (r.wait == Ok && ms[0].kind == ChangeCipherSpec)
  {
  }

  lemma ServerRead(h: Shared, u: Setup, j: Joint, ms: seq<Msg>, v: Way, r: S.Result)
    requires JointOk(u, j) && ServerReading(j.sw) && ms != [] && r == S.Receive(j.s, j.sw, ms)
    requires WayOk(u.codec, false, v, j.c.io.out)
    requires var ch := Channel(u.codec, false, j.toServer);
             RecordLength(ch, |ms| - 1) == |ms| && ch[..|ms|] == ms && ch[|ms|..] == Channel(u.codec, false, v)
    requires ms[0].kind == ChangeCipherSpec ==> v.held == []
    ensures Simulates(h, u, j, j.(s := r.s, sw := r.wait, toServer := v), [ServerReads(|ms| - 1)])
  {
    Progress.ServerReceives(j.s, j.sw, ms);
    ServerWaited(j.s, ms);
  }

  lemma ServerOpened(h: Shared, u: Setup, j: Joint) returns (actions: seq<Action>)
    requires GoodSetup(u, h.x) && JointOk(u, j)
    ensures Simulates(h, u, j, OpenServer(u, j), actions) && (actions != [] ==> actions[0].ServerReads?)
  {
    actions := [];
    if ServerReading(j.sw) && j.toServer.wire != [] {
      var ms, v := Opened(u.codec, false, j.toServer), AfterOpen(j.toServer);
      FromChannel(u, j.toServer, j.c.io.out, false, h.x);
      if ms == [] {
        ServerHeld(h, u, j, v);
      } else {
        ServerRead(h, u, j, ms, v, S.Receive(j.s, j.sw, ms));
        actions := [ServerReads(|ms| - 1)];
      }
    }
  }

  // A record that completes no message changes nothing for the machine.
  lemma ServerHeld(h: Shared, u: Setup, j: Joint, v: Way)
    requires JointOk(u, j) && ServerReading(j.sw) && WayOk(u.codec, false, v, j.c.io.out)
    requires Channel(u.codec, false, v) == Channel(u.codec, false, j.toServer)
    ensures S.Receive(j.s, j.sw, []) == S.Result(j.s, j.sw) && Simulates(h, u, j, j.(toServer := v), [])
  {
  }

  lemma ClientResumedOk(h: Shared, u: Setup, j: Joint)
    requires JointOk(u, j)
    ensures Simulates(h, u, j, ResumedClient(j), [ClientResumes])
  {
    assert View(u, j.(cw := Ok)) == View(u, j).(cw := Ok);
  }

  lemma ServerResumedOk(h: Shared, u: Setup, j: Joint)
    requires JointOk(u, j)
    ensures Simulates(h, u, j, ResumedServer(j), [ServerResumes])
  {
    assert View(u, j.(sw := Ok)) == View(u, j).(sw := Ok);
  }

  // Every event is a step over the channel of messages, or changes nothing there.
  lemma OneEvent(h: Shared, u: Setup, j: Joint, v: Event) returns (actions: seq<Action>)
    requires GoodSetup(u, h.x) && Inv(h, View(u, j)) && JointOk(u, j) && GoodEvent(h, v)
    ensures Simulates(h, u, j, After(h.x, u, j, v), actions)
  {
    match v
    case ClientStep(e) =>
      ClientStepped(h, u, j, e);
      actions := [ClientRuns(e)];
    case ServerStep(e) =>
      ServerStepped(h, u, j, e);
      actions := [ServerRuns(e)];
    case ClientWrites(n) =>
      ClientWrote(h, u, j, n);
      actions := [ClientFlushes(Count(u.codec, false, j.toServer, Smaller(n, |j.toServer.pending|)))];
    case ServerWrites(n) =>
      ServerWrote(h, u, j, n);
      actions := [ServerFlushes(Count(u.codec, true, j.toClient, Smaller(n, |j.toClient.pending|)))];
    case ClientOpens => actions := ClientOpened(h, u, j);
    case ServerOpens => actions := ServerOpened(h, u, j);
    case ClientResumed =>
      ClientResumedOk(h, u, j);
      actions := [ClientResumes];
    case ServerResumed =>
      ServerResumedOk(h, u, j);
      actions := [ServerResumes];
  }

  // --- Whole runs ---

  // The messages have come to the same state by these steps.
  ghost predicate Follows(h: Shared, u: Setup, offered: bool, j: Joint, actions: seq<Action>) {
    && GoodActions(h, actions) && JointOk(u, j)
    && View(u, j) == Run(h.x, Begin(false, h, offered), actions) && Inv(h, View(u, j))
  }

  lemma FollowsOn(h: Shared, u: Setup, offered: bool, j: Joint, had: seq<Action>, k: Joint, more: seq<Action>)
    requires Compatible(h) && (h.f.resumed ==> offered)
    requires Follows(h, u, offered, j, had) && Simulates(h, u, j, k, more)
    ensures Follows(h, u, offered, k, had + more)
  {
    if more == [] {
      assert had + more == had;
    } else {
      var all := had + more;
      assert all[..|all| - 1] == had && all[|all| - 1] == more[0];
      StepInv(h, View(u, j), more[0]);
    }
  }

  lemma FollowsBegin(h: Shared, u: Setup, offered: bool)
    requires Compatible(h) && (h.f.resumed ==> offered)
    ensures Follows(h, u, offered, BeginJoint(h, offered), [])
  {
    BeginInv(false, h, offered);
  }

  // A run over records is a run over messages.
  lemma {:induction false} RunOfMessages(h: Shared, u: Setup, offered: bool, events: seq<Event>) returns (actions: seq<Action>)
    requires Compatible(h) && (h.f.resumed ==> offered) && GoodSetup(u, h.x) && GoodEvents(h, events)
    ensures Follows(h, u, offered, AfterAll(h.x, u, BeginJoint(h, offered), events), actions)
  {
    actions := [];
    if events == [] {
      FollowsBegin(h, u, offered);
    } else {
      var before, v := events[..|events| - 1], events[|events| - 1];
      assert v in events;
      actions := RunOfMessages(h, u, offered, before);
      var j := AfterAll(h.x, u, BeginJoint(h, offered), before);
      var more := OneEvent(h, u, j, v);
      FollowsOn(h, u, offered, j, actions, After(h.x, u, j, v), more);
      actions := actions + more;
    }
  }

  // Whatever the two ends do, however their flights are cut into records and however those are
  // written and read, nothing fails, and in the end they agree on the transcript and the master
  // secret.
  lemma AgreementInBytes(h: Shared, u: Setup, offered: bool, events: seq<Event>)
    requires Compatible(h) && (h.f.resumed ==> offered) && GoodSetup(u, h.x) && GoodEvents(h, events)
    ensures var j := AfterAll(h.x, u, BeginJoint(h, offered), events);
            && j.cw != Error && j.sw != Error
            && (CSteps.Known(j.c.st) && SSteps.Known(h, j.s.st) ==> j.c.master == j.s.master)
            && (j.c.st == C.State.Done && j.s.st == S.State.Done ==>
                  j.c.io.transcript == j.s.io.transcript && Items(j.c.io.transcript) == Strip(Script(h)))
  {
    var actions := RunOfMessages(h, u, offered, events);
    Agreement(h, false, offered, actions);
  }
}
