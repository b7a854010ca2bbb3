// A client and a server joined by a reliable channel, each running at its own pace.

module TlsAgreement {
  import opened Basics
  import opened TlsMessages
  import opened TlsScript
  import opened TlsFollow
  import opened TlsLink
  import CSteps = TlsClientSteps
  import SSteps = TlsServerSteps
  import CSafety = TlsClientSafety
  import SSafety = TlsServerSafety
  import C = TlsClient
  import S = TlsServer

  // Both machines, what each is waiting for, and the flushed messages not yet read.
  datatype Sys = Sys(c: C.Client, cw: Wait, s: S.Server, sw: Wait, toServer: seq<Msg>, toClient: seq<Msg>)

  // One step of a machine; n more messages of a flight written; the next record read, with up
  // to n messages in it; a callback or an early return resolved.
  datatype Action =
    | ClientRuns(e: Env) | ServerRuns(e: Env)
    | ClientFlushes(n: nat) | ServerFlushes(n: nat)
    | ClientReads(n: nat) | ServerReads(n: nat)
    | ClientResumes | ServerResumes

  predicate ClientReading(w: Wait) { CSafety.ReadingWait(w) }

  predicate ServerReading(w: Wait) { SSafety.ReadingWait(w) }

  // The number of messages before the next ChangeCipherSpec, at most n.
  function Messages(ch: seq<Msg>, n: nat): (k: nat)
    ensures k <= |ch| && k <= n
    ensures forall i :: 0 <= i < k ==> ch[i].kind != ChangeCipherSpec
  {
    if ch == [] || n == 0 || ch[0].kind == ChangeCipherSpec then 0 else 1 + Messages(ch[1..], n - 1)
  }

  // How much of a channel the next record holds: a ChangeCipherSpec, or one message or more.
  function RecordLength(ch: seq<Msg>, n: nat): (k: nat)
    ensures k <= |ch| && (ch != [] ==> k > 0)
    ensures ch != [] && ch[0].kind == ChangeCipherSpec ==> k == 1
    ensures ch != [] && ch[0].kind != ChangeCipherSpec ==> forall i :: 0 <= i < k ==> ch[i].kind != ChangeCipherSpec
  {
    if ch == [] then 0 else if ch[0].kind == ChangeCipherSpec then 1 else Messages(ch, n + 1)
  }

  function RunClient(x: Crypto, y: Sys, e: Env): Sys {
    if y.cw != Ok || y.c.st == C.State.Done then y
    else
      var r := C.Do(x, e, y.c);
      y.(c := r.c, cw := r.wait)
  }

  function RunServer(x: Crypto, y: Sys, e: Env): Sys {
    if y.sw != Ok || y.s.st == S.State.Done then y
    else
      var r := S.Do(x, e, y.s);
      y.(s := r.s, sw := r.wait)
  }

  function FlushClient(y: Sys, n: nat): Sys {
    if y.cw == Flush then ClientFlushed(y, Smaller(n, |y.c.io.out|)) else y
  }

  function ClientFlushed(y: Sys, k: nat): Sys
    requires k <= |y.c.io.out|
  {
    y.(c := y.c.(io := y.c.io.(out := y.c.io.out[k..])), toServer := y.toServer + y.c.io.out[..k],
       cw := if k == |y.c.io.out| then Ok else Flush)
  }

  function FlushServer(y: Sys, n: nat): Sys {
    if y.sw == Flush then ServerFlushed(y, Smaller(n, |y.s.io.out|)) else y
  }

  function ServerFlushed(y: Sys, k: nat): Sys
    requires k <= |y.s.io.out|
  {
    y.(s := y.s.(io := y.s.io.(out := y.s.io.out[k..])), toClient := y.toClient + y.s.io.out[..k],
       sw := if k == |y.s.io.out| then Ok else Flush)
  }

  function ReadClient(y: Sys, n: nat): Sys {
    if !ClientReading(y.cw) then y
    else
      var k := RecordLength(y.toClient, n);
      var r := C.Receive(y.c, y.cw, y.toClient[..k]);
      y.(c := r.c, cw := r.wait, toClient := y.toClient[k..])
  }

  function ReadServer(y: Sys, n: nat): Sys {
    if !ServerReading(y.sw) then y
    else
      var k := RecordLength(y.toServer, n);
      var r := S.Receive(y.s, y.sw, y.toServer[..k]);
      y.(s := r.s, sw := r.wait, toServer := y.toServer[k..])
  }

  function ResumeClient(y: Sys): Sys {
    if y.cw == Error || y.cw == Flush || ClientReading(y.cw) then y else y.(cw := Ok)
  }

  function ResumeServer(y: Sys): Sys {
    if y.sw == Error || y.sw == Flush || ServerReading(y.sw) then y else y.(sw := Ok)
  }

  function Next(x: Crypto, y: Sys, a: Action): Sys {
    match a
    case ClientRuns(e) => RunClient(x, y, e)
    case ServerRuns(e) => RunServer(x, y, e)
    case ClientFlushes(n) => FlushClient(y, n)
    case ServerFlushes(n) => FlushServer(y, n)
    case ClientReads(n) => ReadClient(y, n)
    case ServerReads(n) => ReadServer(y, n)
    case ClientResumes => ResumeClient(y)
    case ServerResumes => ResumeServer(y)
  }

  // --- The invariant ---

  ghost predicate ClientInv(h: Shared, c: C.Client, w: Wait) {
    && CSteps.Local(h, c) && w != Error
    && (w == ReadChangeCipherSpec ==> c.st.ProcessChangeCipherSpec?)
    && (c.st.ProcessChangeCipherSpec? ==> w == ReadChangeCipherSpec || c.io.inbox == [])
    && (w == ReadMessage || w == ReadServerHello ==> c.io.inbox == [] && CSteps.Reads(h, c.st))
  }

  ghost predicate ServerInv(h: Shared, s: S.Server, w: Wait) {
    && SSteps.Local(h, s) && w != Error && w != ReadServerHello
    && (w == ReadChangeCipherSpec ==> s.st.ProcessChangeCipherSpec?)
    && (s.st.ProcessChangeCipherSpec? ==> w == ReadChangeCipherSpec || s.io.inbox == [])
    && (w == ReadMessage ==> s.io.inbox == [] && SSteps.Reads(h, s.st))
  }

  function FromClient(y: Sys): seq<Msg> { y.s.io.inbox + (y.toServer + y.c.io.out) }

  function FromServer(y: Sys): seq<Msg> { y.c.io.inbox + (y.toClient + y.s.io.out) }

  function CAt(h: Shared, y: Sys): Point { ClientAt(h, y.c.st, y.cw) }

  function SAt(h: Shared, y: Sys): Point { ServerAt(h, y.s.st, y.sw) }

  ghost predicate Joined(h: Shared, y: Sys) {
    Link(h, false, CAt(h, y), y.c.io.transcript, FromClient(y), SAt(h, y), y.s.io.transcript, FromServer(y))
  }

  ghost predicate Linked(h: Shared, y: Sys) { Joined(h, y) && Traced(h, y.c.io.transcript, CAt(h, y)) }

  ghost predicate Inv(h: Shared, y: Sys) {
    Compatible(h) && ClientInv(h, y.c, y.cw) && ServerInv(h, y.s, y.sw) && Linked(h, y)
  }

  function Begin(dtls: bool, h: Shared, offered: bool): Sys {
    Sys(C.Start(dtls, offered, h.hasCert), Ok, S.Start(h.policy), Ok, [], [])
  }

  lemma BeginInv(dtls: bool, h: Shared, offered: bool)
    requires Compatible(h) && (h.f.resumed ==> offered)
    ensures Inv(h, Begin(dtls, h, offered))
  {
    var y := Begin(dtls, h, offered);
    assert FromClient(y) == [] && FromServer(y) == [];
    BeginLink(h);
  }

  lemma BeginLink(h: Shared)
    ensures Link(h, false, AtHello, [], [], AtHello, [], []) && Traced(h, [], AtHello)
  {
    LeadsNone(h, AtHello, AtHello);
    assert Items([]) + Strip(Script(h)) == Strip(Script(h));
  }

  ghost predicate GoodAction(h: Shared, a: Action) {
    (a.ClientRuns? ==> CSteps.GoodEnv(h, a.e)) && (a.ServerRuns? ==> SSteps.GoodEnv(h, a.e))
  }

  lemma SameLinks(h: Shared, y: Sys, z: Sys)
    requires Linked(h, y) && CAt(h, z) == CAt(h, y) && SAt(h, z) == SAt(h, y)
    requires z.c.io.transcript == y.c.io.transcript && z.s.io.transcript == y.s.io.transcript
    requires FromClient(z) == FromClient(y) && FromServer(z) == FromServer(y)
    ensures Linked(h, z)
  {
  }

  // What is buffered comes first.
  lemma BufferedFirst(inbox: seq<Msg>, rest: seq<Msg>)
    ensures inbox != [] ==> inbox + rest != [] && (inbox + rest)[0] == inbox[0] && inbox[0] in inbox
  {
  }

  lemma Flushed(out: seq<Msg>, ch: seq<Msg>, inbox: seq<Msg>, k: nat)
    requires k <= |out|
    ensures inbox + ((ch + out[..k]) + out[k..]) == inbox + (ch + out)
  {
    assert out == out[..k] + out[k..];
  }

  lemma Taken(m: seq<Msg>, inbox: seq<Msg>, rest: seq<Msg>)
    ensures (m + inbox) + rest == m + (inbox + rest)
  {
  }

  lemma Sent(inbox: seq<Msg>, ch: seq<Msg>, out: seq<Msg>, m: seq<Msg>)
    ensures inbox + (ch + (out + m)) == (inbox + (ch + out)) + m
  {
  }

  // --- The client's actions ---

  // What the client sees is what the script says.
  lemma ClientExpects(h: Shared, y: Sys)
    requires Inv(h, y) && y.cw == Ok
    ensures Expected(h, ClientPoint(h, y.c.st), y.c.io)
  {
    if y.c.io.inbox != [] {
      var b := FromServer(y);
      NextPending(h, false, CAt(h, y), y.c.io.transcript, FromClient(y), SAt(h, y), y.s.io.transcript, b);
      assert b[0] == y.c.io.inbox[0] && b[0] in y.c.io.inbox;
    }
  }

  lemma ClientRunsInv(h: Shared, y: Sys, e: Env)
    requires Inv(h, y) && y.cw == Ok && y.c.st != C.State.Done && CSteps.GoodEnv(h, e)
    ensures Inv(h, RunClient(h.x, y, e))
  {
    var r := C.Do(h.x, e, y.c);
    var z := y.(c := r.c, cw := r.wait);
    ClientExpects(h, y);
    var m, sends := CSteps.Step(h, e, y.c);
    ClientWaits(h, e, y.c);
    ClientMoves(h, y, z, m, sends);
  }

  // The states around a ChangeCipherSpec.
  lemma ClientWaits(h: Shared, e: Env, c: C.Client)
    requires c.st != C.State.Done
    ensures var r := C.Do(h.x, e, c);
            r.wait != Error ==>
              && (r.wait == ReadChangeCipherSpec ==> r.c.st.ProcessChangeCipherSpec?)
              && (r.c.st.ProcessChangeCipherSpec? && r.c != c ==> r.wait == ReadChangeCipherSpec)
  {
    CSafety.StepMoves(h.x, e, c);
  }

  lemma ClientMoves(h: Shared, y: Sys, z: Sys, m: seq<Msg>, sends: bool)
    requires Linked(h, y) && z == y.(c := z.c, cw := z.cw)
    requires Follows(h, CAt(h, y), y.c.io, z.c.io, CAt(h, z), m, sends) && (sends ==> AllFrom(m, false))
    ensures Linked(h, z)
  {
    TracedStep(h, y.c.io.transcript, CAt(h, y), m, CAt(h, z));
    if sends { ClientSends(h, y, z, m); } else { ClientTakes(h, y, z, m); }
  }

  lemma ClientSends(h: Shared, y: Sys, z: Sys, m: seq<Msg>)
    requires Joined(h, y) && z == y.(c := z.c, cw := z.cw) && AllFrom(m, false)
    requires Moves(y.c.io, z.c.io, m, true) && Leads(h, CAt(h, y), m, CAt(h, z))
    ensures Joined(h, z)
  {
    LinkSend(h, false, CAt(h, y), y.c.io.transcript, FromClient(y), SAt(h, y), y.s.io.transcript, FromServer(y), m, CAt(h, z));
    Sent(y.s.io.inbox, y.toServer, y.c.io.out, m);
  }

  lemma ClientTakes(h: Shared, y: Sys, z: Sys, m: seq<Msg>)
    requires Joined(h, y) && z == y.(c := z.c, cw := z.cw)
    requires Moves(y.c.io, z.c.io, m, false) && Leads(h, CAt(h, y), m, CAt(h, z))
    ensures Joined(h, z)
  {
    Taken(m, z.c.io.inbox, y.toClient + y.s.io.out);
    LinkTake(h, false, CAt(h, y), y.c.io.transcript, FromClient(y), SAt(h, y), y.s.io.transcript, m, FromServer(z), CAt(h, z));
  }

  lemma ClientFlushesLinked(h: Shared, y: Sys, k: nat)
    requires Linked(h, y) && y.cw == Flush && k <= |y.c.io.out|
    ensures Linked(h, ClientFlushed(y, k))
  {
    Flushed(y.c.io.out, y.toServer, y.s.io.inbox, k);
    SameLinks(h, y, ClientFlushed(y, k));
  }

  lemma ClientFlushesInv(h: Shared, y: Sys, n: nat)
    requires Inv(h, y)
    ensures Inv(h, FlushClient(y, n))
  {
    if y.cw == Flush {
      ClientFlushedInv(h, y, Smaller(n, |y.c.io.out|));
    }
  }

  lemma ClientFlushedInv(h: Shared, y: Sys, k: nat)
    requires Inv(h, y) && y.cw == Flush && k <= |y.c.io.out|
    ensures Inv(h, ClientFlushed(y, k))
  {
    var z := ClientFlushed(y, k);
    ClientFlushesLocal(h, y.c, z.c, z.cw);
    ClientFlushesLinked(h, y, k);
  }

  lemma ClientFlushesLocal(h: Shared, c: C.Client, d: C.Client, w: Wait)
    requires ClientInv(h, c, Flush) && d == c.(io := c.io.(out := d.io.out)) && (w == Ok || w == Flush)
    ensures ClientInv(h, d, w)
  {
  }

  // The next record holds what the client waits for.
  lemma ClientReadsInv(h: Shared, y: Sys, n: nat)
    requires Inv(h, y)
    ensures Inv(h, ReadClient(y, n))
  {
    if ClientReading(y.cw) && y.toClient != [] {
      var b := FromServer(y);
      NextPending(h, false, CAt(h, y), y.c.io.transcript, FromClient(y), SAt(h, y), y.s.io.transcript, b);
      assert b[0] in b;
      if y.cw == ReadChangeCipherSpec {
        ClientReadsCcs(h, y, n);
      } else {
        assert b[0] == y.toClient[0];
        ClientReadsMessages(h, y, n);
      }
    } else {
      assert y.toClient == [] ==> y.toClient[..0] == [] && y.toClient[0..] == [];
    }
  }

  lemma ClientReadsCcs(h: Shared, y: Sys, n: nat)
    requires Inv(h, y) && y.cw == ReadChangeCipherSpec && y.toClient != []
    requires First(h, AtServerCcs) == Some(ItemOf(FromServer(y)[0]))
    ensures Inv(h, ReadClient(y, n))
  {
    FirstOn(h, AtServerCcs);
    BufferedFirst(y.c.io.inbox, y.toClient + y.s.io.out);
    assert y.c.io.inbox == [] && FromServer(y)[0] == y.toClient[0];
    var z := y.(c := y.c.(ccsRead := true), cw := Ok, toClient := y.toClient[1..]);
    ClientCcsRecord(y, n);
    ClientTakesCcs(h, y, z);
    ClientCcsLocal(h, y.c);
  }

  lemma ClientCcsLocal(h: Shared, c: C.Client)
    requires ClientInv(h, c, ReadChangeCipherSpec) && c.io.inbox == []
    ensures ClientInv(h, c.(ccsRead := true), Ok)
  {
  }

  lemma ClientCcsRecord(y: Sys, n: nat)
    requires y.cw == ReadChangeCipherSpec && y.toClient != [] && y.toClient[0].kind == ChangeCipherSpec
    ensures ReadClient(y, n) == y.(c := y.c.(ccsRead := true), cw := Ok, toClient := y.toClient[1..])
  {
  }

  lemma ClientTakesCcs(h: Shared, y: Sys, z: Sys)
    requires Linked(h, y) && y.cw == ReadChangeCipherSpec && y.c.st.ProcessChangeCipherSpec? && y.c.io.inbox == []
    requires y.toClient != [] && ItemOf(y.toClient[0]) == Item(ChangeCipherSpec, true)
    requires z == y.(c := y.c.(ccsRead := true), cw := Ok, toClient := y.toClient[1..])
    ensures Linked(h, z)
  {
    ClientCcsLeaves(h, y, z, [y.toClient[0]]);
    CcsTaken(h, y.c.io.transcript, y.toClient[0]);
    ClientJoinedCcs(h, y, z, [y.toClient[0]]);
  }

  // The server's ChangeCipherSpec is not hashed.
  lemma CcsTaken(h: Shared, t: seq<Msg>, m: Msg)
    requires ItemOf(m) == Item(ChangeCipherSpec, true) && Traced(h, t, AtServerCcs)
    ensures Leads(h, AtServerCcs, [m], AtServerFinished)
    ensures t + Hashed([m]) == t && Traced(h, t, AtServerFinished)
  {
    HashedOne(m);
    LeadsOne(h, AtServerCcs, m, AtServerFinished);
    TracedStep(h, t, AtServerCcs, [m], AtServerFinished);
  }

  lemma ClientJoinedCcs(h: Shared, y: Sys, z: Sys, m: seq<Msg>)
    requires Joined(h, y) && y.cw == ReadChangeCipherSpec && y.c.st.ProcessChangeCipherSpec? && y.c.io.inbox == []
    requires y.toClient != [] && m == [y.toClient[0]] && Leads(h, AtServerCcs, m, AtServerFinished)
    requires y.c.io.transcript + Hashed(m) == y.c.io.transcript
    requires z == y.(c := y.c.(ccsRead := true), cw := Ok, toClient := y.toClient[1..])
    ensures Joined(h, z)
  {
    ClientCcsLeaves(h, y, z, m);
    LinkTake(h, false, AtServerCcs, y.c.io.transcript, FromClient(y), SAt(h, y), y.s.io.transcript, m, FromServer(z), AtServerFinished);
  }

  lemma ClientCcsLeaves(h: Shared, y: Sys, z: Sys, m: seq<Msg>)
    requires y.cw == ReadChangeCipherSpec && y.c.st.ProcessChangeCipherSpec? && y.c.io.inbox == []
    requires y.toClient != [] && m == [y.toClient[0]]
    requires z == y.(c := y.c.(ccsRead := true), cw := Ok, toClient := y.toClient[1..])
    ensures FromServer(y) == m + FromServer(z) && FromClient(z) == FromClient(y)
    ensures CAt(h, y) == AtServerCcs && CAt(h, z) == AtServerFinished && SAt(h, z) == SAt(h, y)
  {
    FirstOut(y.toClient, y.s.io.out);
  }

  lemma FirstOut(ch: seq<Msg>, out: seq<Msg>)
    requires ch != []
    ensures [] + (ch + out) == [ch[0]] + ([] + (ch[1..] + out))
  {
    assert ch == [ch[0]] + ch[1..];
  }

  lemma ClientReadsMessages(h: Shared, y: Sys, n: nat)
    requires Inv(h, y) && (y.cw == ReadMessage || y.cw == ReadServerHello) && y.toClient != []
    requires First(h, CAt(h, y)) == Some(ItemOf(y.toClient[0]))
    ensures Inv(h, ReadClient(y, n))
  {
    CSteps.ReadsAwaits(h, y.c.st);
    var k := RecordLength(y.toClient, n);
    ClientRecord(y, n);
    ClientBufferedInv(h, y, k);
  }

  lemma ClientBufferedInv(h: Shared, y: Sys, k: nat)
    requires Inv(h, y) && (y.cw == ReadMessage || y.cw == ReadServerHello) && k <= |y.toClient|
    requires forall i :: 0 <= i < k ==> y.toClient[i].kind != ChangeCipherSpec
    ensures Inv(h, ClientBuffered(y, y.toClient[..k], y.toClient[k..]))
  {
    var rec, rest := y.toClient[..k], y.toClient[k..];
    ClientArrived(h, y, k);
    ClientBuffersLocal(h, y.c, y.cw, rec);
    ClientBuffersLinked(h, y, rec, rest);
  }

  lemma ClientArrived(h: Shared, y: Sys, k: nat)
    requires Joined(h, y) && k <= |y.toClient|
    requires forall i :: 0 <= i < k ==> y.toClient[i].kind != ChangeCipherSpec
    ensures Arrived(y.toClient[..k], true) && y.toClient == y.toClient[..k] + y.toClient[k..]
  {
    FromChannel(FromServer(y), y.c.io.inbox, y.toClient, y.s.io.out, k, true);
  }

  // A record comes from the other end and holds no ChangeCipherSpec.
  lemma FromChannel(all: seq<Msg>, inbox: seq<Msg>, ch: seq<Msg>, out: seq<Msg>, k: nat, fromServer: bool)
    requires all == inbox + (ch + out) && AllFrom(all, fromServer) && k <= |ch|
    requires forall i :: 0 <= i < k ==> ch[i].kind != ChangeCipherSpec
    ensures Arrived(ch[..k], fromServer)
  {
    forall x | x in ch[..k] ensures x.fromServer == fromServer && x.kind != ChangeCipherSpec {
      var i :| 0 <= i < k && ch[i] == x;
      assert all[|inbox| + i] == x;
    }
  }

  function ClientBuffered(y: Sys, rec: seq<Msg>, rest: seq<Msg>): Sys {
    y.(c := y.c.(io := y.c.io.(inbox := y.c.io.inbox + rec)), cw := Ok, toClient := rest)
  }

  lemma ClientRecord(y: Sys, n: nat)
    requires (y.cw == ReadMessage || y.cw == ReadServerHello) && y.toClient != [] && y.toClient[0].kind != ChangeCipherSpec
    ensures var k := RecordLength(y.toClient, n);
            ReadClient(y, n) == ClientBuffered(y, y.toClient[..k], y.toClient[k..])
  {
  }

  lemma ClientBuffersLocal(h: Shared, c: C.Client, w: Wait, rec: seq<Msg>)
    requires ClientInv(h, c, w) && CSteps.Reads(h, c.st) && Arrived(rec, true)
    ensures ClientInv(h, c.(io := c.io.(inbox := c.io.inbox + rec)), Ok)
  {
  }

  lemma ClientBuffersLinked(h: Shared, y: Sys, rec: seq<Msg>, rest: seq<Msg>)
    requires Linked(h, y) && y.cw != ReadChangeCipherSpec && y.toClient == rec + rest
    ensures Linked(h, ClientBuffered(y, rec, rest))
  {
    ClientBuffersSame(h, y, rec, rest);
    SameLinks(h, y, ClientBuffered(y, rec, rest));
  }

  lemma ClientBuffersSame(h: Shared, y: Sys, rec: seq<Msg>, rest: seq<Msg>)
    requires y.cw != ReadChangeCipherSpec && y.toClient == rec + rest
    ensures var z := ClientBuffered(y, rec, rest);
            && FromServer(z) == FromServer(y) && FromClient(z) == FromClient(y)
            && CAt(h, z) == CAt(h, y) && SAt(h, z) == SAt(h, y)
  {
    assert y.c.io.inbox + rec + (rest + y.s.io.out) == y.c.io.inbox + (rec + rest + y.s.io.out);
  }

  lemma ClientResumesInv(h: Shared, y: Sys)
    requires Inv(h, y)
    ensures Inv(h, ResumeClient(y))
  {
  }

  // --- The server's actions ---

  // What the server sees is what the script says.
  lemma ServerExpects(h: Shared, y: Sys)
    requires Inv(h, y) && y.sw == Ok
    ensures Expected(h, ServerPoint(h, y.s.st), y.s.io)
  {
    if y.s.io.inbox != [] {
      var b := FromClient(y);
      NextPending(h, true, SAt(h, y), y.s.io.transcript, FromServer(y), CAt(h, y), y.c.io.transcript, b);
      assert b[0] == y.s.io.inbox[0] && b[0] in y.s.io.inbox;
    }
  }

  lemma ServerRunsInv(h: Shared, y: Sys, e: Env)
    requires Inv(h, y) && y.sw == Ok && y.s.st != S.State.Done && SSteps.GoodEnv(h, e)
    ensures Inv(h, RunServer(h.x, y, e))
  {
    var r := S.Do(h.x, e, y.s);
    var z := y.(s := r.s, sw := r.wait);
    ServerExpects(h, y);
    var m, sends := SSteps.Step(h, e, y.s);
    ServerWaits(h, e, y.s);
    ServerMoves(h, y, z, m, sends);
  }

  // The states around a ChangeCipherSpec.
  lemma ServerWaits(h: Shared, e: Env, s: S.Server)
    requires s.st != S.State.Done
    ensures var r := S.Do(h.x, e, s);
            r.wait != Error ==>
              && (r.wait == ReadChangeCipherSpec ==> r.s.st.ProcessChangeCipherSpec?)
              && (r.s.st.ProcessChangeCipherSpec? && r.s != s ==> r.wait == ReadChangeCipherSpec)
  {
    SSafety.StepMoves(h.x, e, s);
  }

  lemma ServerMoves(h: Shared, y: Sys, z: Sys, m: seq<Msg>, sends: bool)
    requires Linked(h, y) && z == y.(s := z.s, sw := z.sw)
    requires Follows(h, SAt(h, y), y.s.io, z.s.io, SAt(h, z), m, sends) && (sends ==> AllFrom(m, true))
    ensures Linked(h, z)
  {
    if sends { ServerSends(h, y, z, m); } else { ServerTakes(h, y, z, m); }
  }

  lemma ServerSends(h: Shared, y: Sys, z: Sys, m: seq<Msg>)
    requires Joined(h, y) && z == y.(s := z.s, sw := z.sw) && AllFrom(m, true)
    requires Moves(y.s.io, z.s.io, m, true) && Leads(h, SAt(h, y), m, SAt(h, z))
    ensures Joined(h, z)
  {
    LinkSend(h, true, SAt(h, y), y.s.io.transcript, FromServer(y), CAt(h, y), y.c.io.transcript, FromClient(y), m, SAt(h, z));
    Sent(y.c.io.inbox, y.toClient, y.s.io.out, m);
  }

  lemma ServerTakes(h: Shared, y: Sys, z: Sys, m: seq<Msg>)
    requires Joined(h, y) && z == y.(s := z.s, sw := z.sw)
    requires Moves(y.s.io, z.s.io, m, false) && Leads(h, SAt(h, y), m, SAt(h, z))
    ensures Joined(h, z)
  {
    Taken(m, z.s.io.inbox, y.toServer + y.c.io.out);
    LinkTake(h, true, SAt(h, y), y.s.io.transcript, FromServer(y), CAt(h, y), y.c.io.transcript, m, FromClient(z), SAt(h, z));
  }

  lemma ServerFlushesLinked(h: Shared, y: Sys, k: nat)
    requires Linked(h, y) && y.sw == Flush && k <= |y.s.io.out|
    ensures Linked(h, ServerFlushed(y, k))
  {
    Flushed(y.s.io.out, y.toClient, y.c.io.inbox, k);
    SameLinks(h, y, ServerFlushed(y, k));
  }

  lemma ServerFlushesInv(h: Shared, y: Sys, n: nat)
    requires Inv(h, y)
    ensures Inv(h, FlushServer(y, n))
  {
    if y.sw == Flush {
      ServerFlushedInv(h, y, Smaller(n, |y.s.io.out|));
    }
  }

  lemma ServerFlushedInv(h: Shared, y: Sys, k: nat)
    requires Inv(h, y) && y.sw == Flush && k <= |y.s.io.out|
    ensures Inv(h, ServerFlushed(y, k))
  {
    var z := ServerFlushed(y, k);
    ServerFlushesLocal(h, y.s, z.s, z.sw);
    ServerFlushesLinked(h, y, k);
  }

  lemma ServerFlushesLocal(h: Shared, s: S.Server, d: S.Server, w: Wait)
    requires ServerInv(h, s, Flush) && d == s.(io := s.io.(out := d.io.out)) && (w == Ok || w == Flush)
    ensures ServerInv(h, d, w)
  {
  }

  // The next record holds what the server waits for.
  lemma ServerReadsInv(h: Shared, y: Sys, n: nat)
    requires Inv(h, y)
    ensures Inv(h, ReadServer(y, n))
  {
    if ServerReading(y.sw) && y.toServer != [] {
      var b := FromClient(y);
      NextPending(h, true, SAt(h, y), y.s.io.transcript, FromServer(y), CAt(h, y), y.c.io.transcript, b);
      assert b[0] in b;
      if y.sw == ReadChangeCipherSpec {
        ServerReadsCcs(h, y, n);
      } else {
        assert b[0] == y.toServer[0];
        ServerReadsMessages(h, y, n);
      }
    } else {
      assert y.toServer == [] ==> y.toServer[..0] == [] && y.toServer[0..] == [];
    }
  }

  lemma ServerReadsCcs(h: Shared, y: Sys, n: nat)
    requires Inv(h, y) && y.sw == ReadChangeCipherSpec && y.toServer != []
    requires First(h, AtClientCcs) == Some(ItemOf(FromClient(y)[0]))
    ensures Inv(h, ReadServer(y, n))
  {
    ServerCcsFirst(h, y);
    ServerCcsInv(h, y);
    ServerCcsRecord(y, n);
  }

  lemma ServerCcsFirst(h: Shared, y: Sys)
    requires ServerInv(h, y.s, ReadChangeCipherSpec) && y.toServer != []
    requires First(h, AtClientCcs) == Some(ItemOf(FromClient(y)[0]))
    ensures y.s.io.inbox == [] && ItemOf(y.toServer[0]) == Item(ChangeCipherSpec, false)
  {
    FirstOn(h, AtClientCcs);
    BufferedFirst(y.s.io.inbox, y.toServer + y.c.io.out);
  }

  lemma ServerCcsInv(h: Shared, y: Sys)
    requires Inv(h, y) && y.sw == ReadChangeCipherSpec && y.s.io.inbox == []
    requires y.toServer != [] && ItemOf(y.toServer[0]) == Item(ChangeCipherSpec, false)
    ensures Inv(h, y.(s := y.s.(ccsRead := true), sw := Ok, toServer := y.toServer[1..]))
  {
    ServerTakesCcs(h, y, y.(s := y.s.(ccsRead := true), sw := Ok, toServer := y.toServer[1..]));
    ServerCcsLocal(h, y.s);
  }

  lemma ServerCcsLocal(h: Shared, s: S.Server)
    requires ServerInv(h, s, ReadChangeCipherSpec) && s.io.inbox == []
    ensures ServerInv(h, s.(ccsRead := true), Ok)
  {
  }

  lemma ServerCcsRecord(y: Sys, n: nat)
    requires y.sw == ReadChangeCipherSpec && y.toServer != [] && y.toServer[0].kind == ChangeCipherSpec
    ensures ReadServer(y, n) == y.(s := y.s.(ccsRead := true), sw := Ok, toServer := y.toServer[1..])
  {
  }

  lemma ServerTakesCcs(h: Shared, y: Sys, z: Sys)
    requires Linked(h, y) && y.sw == ReadChangeCipherSpec && y.s.st.ProcessChangeCipherSpec? && y.s.io.inbox == []
    requires y.toServer != [] && ItemOf(y.toServer[0]) == Item(ChangeCipherSpec, false)
    requires z == y.(s := y.s.(ccsRead := true), sw := Ok, toServer := y.toServer[1..])
    ensures Linked(h, z)
  {
    var m := [y.toServer[0]];
    HashedOne(m[0]);
    LeadsOne(h, AtClientCcs, m[0], AtNextProto);
    assert y.s.io.transcript + Hashed(m) == y.s.io.transcript;
    ServerCcsLeaves(h, y, z, m);
    LinkTake(h, true, AtClientCcs, y.s.io.transcript, FromServer(y), CAt(h, y), y.c.io.transcript, m, FromClient(z), AtNextProto);
  }

  lemma ServerCcsLeaves(h: Shared, y: Sys, z: Sys, m: seq<Msg>)
    requires y.sw == ReadChangeCipherSpec && y.s.st.ProcessChangeCipherSpec? && y.s.io.inbox == []
    requires y.toServer != [] && m == [y.toServer[0]]
    requires z == y.(s := y.s.(ccsRead := true), sw := Ok, toServer := y.toServer[1..])
    ensures FromClient(y) == m + FromClient(z) && FromServer(z) == FromServer(y)
    ensures SAt(h, y) == AtClientCcs && SAt(h, z) == AtNextProto && CAt(h, z) == CAt(h, y)
  {
    FirstOut(y.toServer, y.c.io.out);
  }

  lemma ServerReadsMessages(h: Shared, y: Sys, n: nat)
    requires Inv(h, y) && y.sw == ReadMessage && y.toServer != []
    requires First(h, SAt(h, y)) == Some(ItemOf(y.toServer[0]))
    ensures Inv(h, ReadServer(y, n))
  {
    SSteps.ReadsAwaits(h, y.s.st);
    var k := RecordLength(y.toServer, n);
    ServerRecord(y, n);
    ServerBufferedInv(h, y, k);
  }

  lemma ServerBufferedInv(h: Shared, y: Sys, k: nat)
    requires Inv(h, y) && y.sw == ReadMessage && k <= |y.toServer|
    requires forall i :: 0 <= i < k ==> y.toServer[i].kind != ChangeCipherSpec
    ensures Inv(h, ServerBuffered(y, y.toServer[..k], y.toServer[k..]))
  {
    var rec, rest := y.toServer[..k], y.toServer[k..];
    ServerArrived(h, y, k);
    ServerBuffersLocal(h, y.s, y.sw, rec);
    ServerBuffersLinked(h, y, rec, rest);
  }

  lemma ServerArrived(h: Shared, y: Sys, k: nat)
    requires Joined(h, y) && k <= |y.toServer|
    requires forall i :: 0 <= i < k ==> y.toServer[i].kind != ChangeCipherSpec
    ensures Arrived(y.toServer[..k], false) && y.toServer == y.toServer[..k] + y.toServer[k..]
  {
    FromChannel(FromClient(y), y.s.io.inbox, y.toServer, y.c.io.out, k, false);
  }

  function ServerBuffered(y: Sys, rec: seq<Msg>, rest: seq<Msg>): Sys {
    y.(s := y.s.(io := y.s.io.(inbox := y.s.io.inbox + rec)), sw := Ok, toServer := rest)
  }

  lemma ServerRecord(y: Sys, n: nat)
    requires y.sw == ReadMessage && y.toServer != [] && y.toServer[0].kind != ChangeCipherSpec
    ensures var k := RecordLength(y.toServer, n);
            ReadServer(y, n) == ServerBuffered(y, y.toServer[..k], y.toServer[k..])
  {
  }

  lemma ServerBuffersLocal(h: Shared, s: S.Server, w: Wait, rec: seq<Msg>)
    requires ServerInv(h, s, w) && SSteps.Reads(h, s.st) && Arrived(rec, false)
    ensures ServerInv(h, s.(io := s.io.(inbox := s.io.inbox + rec)), Ok)
  {
  }

  lemma ServerBuffersLinked(h: Shared, y: Sys, rec: seq<Msg>, rest: seq<Msg>)
    requires Linked(h, y) && y.sw != ReadChangeCipherSpec && y.toServer == rec + rest
    ensures Linked(h, ServerBuffered(y, rec, rest))
  {
    ServerBuffersSame(h, y, rec, rest);
    SameLinks(h, y, ServerBuffered(y, rec, rest));
  }

  lemma ServerBuffersSame(h: Shared, y: Sys, rec: seq<Msg>, rest: seq<Msg>)
    requires y.sw != ReadChangeCipherSpec && y.toServer == rec + rest
    ensures var z := ServerBuffered(y, rec, rest);
            && FromClient(z) == FromClient(y) && FromServer(z) == FromServer(y)
            && CAt(h, z) == CAt(h, y) && SAt(h, z) == SAt(h, y)
  {
    assert y.s.io.inbox + rec + (rest + y.c.io.out) == y.s.io.inbox + (rec + rest + y.c.io.out);
  }

  lemma ServerResumesInv(h: Shared, y: Sys)
    requires Inv(h, y)
    ensures Inv(h, ResumeServer(y))
  {
  }

  // --- Every run ---

  lemma ClientRunKeeps(h: Shared, y: Sys, e: Env)
    requires Inv(h, y) && CSteps.GoodEnv(h, e)
    ensures Inv(h, Next(h.x, y, ClientRuns(e)))
  {
    if y.cw == Ok && y.c.st != C.State.Done { ClientRunsInv(h, y, e); }
  }

  lemma ServerRunKeeps(h: Shared, y: Sys, e: Env)
    requires Inv(h, y) && SSteps.GoodEnv(h, e)
    ensures Inv(h, Next(h.x, y, ServerRuns(e)))
  {
    if y.sw == Ok && y.s.st != S.State.Done { ServerRunsInv(h, y, e); }
  }

  // What each action is.
  lemma NextIs(x: Crypto, y: Sys, n: nat)
    ensures Next(x, y, ClientFlushes(n)) == FlushClient(y, n) && Next(x, y, ServerFlushes(n)) == FlushServer(y, n)
    ensures Next(x, y, ClientReads(n)) == ReadClient(y, n) && Next(x, y, ServerReads(n)) == ReadServer(y, n)
    ensures Next(x, y, ClientResumes) == ResumeClient(y) && Next(x, y, ServerResumes) == ResumeServer(y)
  {
  }

  lemma ClientFlushesKeep(h: Shared, y: Sys, n: nat)
    requires Inv(h, y)
    ensures Inv(h, Next(h.x, y, ClientFlushes(n)))
  {
    NextIs(h.x, y, n);
    ClientFlushesInv(h, y, n);
  }

  lemma ClientReadsKeep(h: Shared, y: Sys, n: nat)
    requires Inv(h, y)
    ensures Inv(h, Next(h.x, y, ClientReads(n)))
  {
    NextIs(h.x, y, n);
    ClientReadsInv(h, y, n);
  }

  lemma ClientResumesKeep(h: Shared, y: Sys)
    requires Inv(h, y)
    ensures Inv(h, Next(h.x, y, ClientResumes))
  {
    NextIs(h.x, y, 0);
    ClientResumesInv(h, y);
  }

  lemma ServerFlushesKeep(h: Shared, y: Sys, n: nat)
    requires Inv(h, y)
    ensures Inv(h, Next(h.x, y, ServerFlushes(n)))
  {
    NextIs(h.x, y, n);
    ServerFlushesInv(h, y, n);
  }

  lemma ServerReadsKeep(h: Shared, y: Sys, n: nat)
    requires Inv(h, y)
    ensures Inv(h, Next(h.x, y, ServerReads(n)))
  {
    NextIs(h.x, y, n);
    ServerReadsInv(h, y, n);
  }

  lemma ServerResumesKeep(h: Shared, y: Sys)
    requires Inv(h, y)
    ensures Inv(h, Next(h.x, y, ServerResumes))
  {
    NextIs(h.x, y, 0);
    ServerResumesInv(h, y);
  }

  // Every action of either end keeps the invariant.
  lemma StepInv(h: Shared, y: Sys, a: Action)
    requires Inv(h, y) && GoodAction(h, a)
    ensures Inv(h, Next(h.x, y, a))
  {
    match a
    case ClientRuns(e) => ClientRunKeeps(h, y, e);
    case ServerRuns(e) => ServerRunKeeps(h, y, e);
    case ClientFlushes(n) => ClientFlushesKeep(h, y, n);
    case ServerFlushes(n) => ServerFlushesKeep(h, y, n);
    case ClientReads(n) => ClientReadsKeep(h, y, n);
    case ServerReads(n) => ServerReadsKeep(h, y, n);
    case ClientResumes => ClientResumesKeep(h, y);
    case ServerResumes => ServerResumesKeep(h, y);
  }

  function Run(x: Crypto, y: Sys, actions: seq<Action>): Sys {
    if actions == [] then y else Next(x, Run(x, y, actions[..|actions| - 1]), actions[|actions| - 1])
  }

  ghost predicate GoodActions(h: Shared, actions: seq<Action>) { forall a :: a in actions ==> GoodAction(h, a) }

  lemma {:induction false} RunInv(h: Shared, y: Sys, actions: seq<Action>)
    requires Inv(h, y) && GoodActions(h, actions)
    ensures Inv(h, Run(h.x, y, actions))
  {
    if actions != [] {
      var n := |actions| - 1;
      RunInv(h, y, actions[..n]);
      StepInv(h, Run(h.x, y, actions[..n]), actions[n]);
    }
  }

  // --- What follows ---

  // Where both know the master secret they know the same one, computed from the same
  // transcript.
  lemma SameSecret(h: Shared, y: Sys)
    requires Inv(h, y) && CSteps.Known(y.c.st) && SSteps.Known(h, y.s.st)
    ensures y.c.master == y.s.master
    ensures !h.f.resumed ==> UpToKeyExchange(y.c.io.transcript) == UpToKeyExchange(y.s.io.transcript)
  {
    if !h.f.resumed {
      if y.c.io.transcript == y.s.io.transcript + Hashed(FromClient(y)) {
        UpToStays(y.s.io.transcript, Hashed(FromClient(y)));
      } else {
        UpToStays(y.c.io.transcript, Hashed(FromServer(y)));
      }
    }
  }

  // One transcript always extends the other, by just the messages on their way.
  lemma OneAhead(h: Shared, y: Sys)
    requires Inv(h, y)
    ensures || y.c.io.transcript == y.s.io.transcript + Hashed(FromClient(y))
            || y.s.io.transcript == y.c.io.transcript + Hashed(FromServer(y))
  {
  }

  // A Finished that has arrived was computed over exactly the transcript it is checked against.
  lemma FinishedOverSame(h: Shared, y: Sys)
    requires Inv(h, y)
    ensures y.c.io.inbox != [] && y.c.io.inbox[0].kind == Finished ==>
              CheckedOver(h, y.c.io.transcript, y.s.io.transcript, y.c.io.inbox[0])
    ensures y.s.io.inbox != [] && y.s.io.inbox[0].kind == Finished ==>
              CheckedOver(h, y.s.io.transcript, y.c.io.transcript, y.s.io.inbox[0])
  {
    if y.c.io.inbox != [] {
      BufferedFirst(y.c.io.inbox, y.toClient + y.s.io.out);
      OverSame(h, false, CAt(h, y), y.c.io.transcript, FromClient(y), SAt(h, y), y.s.io.transcript, FromServer(y));
    }
    if y.s.io.inbox != [] {
      BufferedFirst(y.s.io.inbox, y.toServer + y.c.io.out);
      OverSame(h, true, SAt(h, y), y.s.io.transcript, FromServer(y), CAt(h, y), y.c.io.transcript, FromClient(y));
    }
  }

  // The other end's transcript is this one, then the Finished, whose verify data is that of
  // this transcript.
  ghost predicate CheckedOver(h: Shared, t: seq<Msg>, u: seq<Msg>, m: Msg) {
    |t| < |u| && u[..|t|] == t && u[|t|] == m && m.body == h.x.mac(t, m.fromServer, MasterOf(h, t))
  }

  lemma OverSame(h: Shared, server: bool, p: Point, t: seq<Msg>, a: seq<Msg>, q: Point, u: seq<Msg>, b: seq<Msg>)
    requires Link(h, server, p, t, a, q, u, b) && GoodContents(h, u) && b != []
    ensures b[0].kind == Finished ==> CheckedOver(h, t, u, b[0])
  {
    NextPending(h, server, p, t, a, q, u, b);
    if b[0].kind == Finished {
      assert Hashed(b) == [b[0]] + Hashed(b[1..]);
      assert u == t + Hashed(b);
    }
  }

  // Each end has hashed just the messages the script has before its point, none of them twice.
  lemma HashedOnce(h: Shared, y: Sys)
    requires Inv(h, y)
    ensures Traced(h, y.c.io.transcript, CAt(h, y)) && Traced(h, y.s.io.transcript, SAt(h, y))
    ensures Distinct(Items(y.c.io.transcript)) && Distinct(Items(y.s.io.transcript))
  {
    ServerTraced(h, y);
    TracedOnce(h, y.c.io.transcript, CAt(h, y));
    TracedOnce(h, y.s.io.transcript, SAt(h, y));
  }

  lemma ServerTraced(h: Shared, y: Sys)
    requires Linked(h, y)
    ensures Traced(h, y.s.io.transcript, SAt(h, y))
  {
    var t, u, a, b, p, q := y.c.io.transcript, y.s.io.transcript, FromClient(y), FromServer(y), CAt(h, y), SAt(h, y);
    if u == t + Hashed(b) && Leads(h, p, b, q) {
      TracedStep(h, t, p, b, q);
    } else {
      StripLeads(h, q, a, p);
      ItemsBoth(u, Hashed(a));
      Regroup(Items(u), Items(Hashed(a)), Strip(Rest(h, p)));
    }
  }

  // When both are done nothing is left on the way, the transcripts are equal and hold exactly
  // the messages of the script.
  lemma DoneAgrees(h: Shared, y: Sys)
    requires Inv(h, y) && y.c.st == C.State.Done && y.s.st == S.State.Done
    ensures y.c.io.transcript == y.s.io.transcript && y.c.master == y.s.master
    ensures Items(y.c.io.transcript) == Strip(Script(h))
    ensures FromClient(y) == [] && FromServer(y) == []
  {
    assert CAt(h, y) == AtEnd && SAt(h, y) == AtEnd && Rest(h, AtEnd) == [];
    assert |Items(FromClient(y))| == 0 || |Items(FromServer(y))| == 0;
    SameSecret(h, y);
  }

  // Whatever the two ends do and however long each waits, nothing fails, and in the end they
  // agree on the transcript and the master secret.
  lemma Agreement(h: Shared, dtls: bool, offered: bool, actions: seq<Action>)
    requires Compatible(h) && (h.f.resumed ==> offered) && GoodActions(h, actions)
    ensures var y := Run(h.x, Begin(dtls, h, offered), actions);
            && y.cw != Error && y.sw != Error
            && (CSteps.Known(y.c.st) && SSteps.Known(h, y.s.st) ==> y.c.master == y.s.master)
            && (y.c.st == C.State.Done && y.s.st == S.State.Done ==>
                  y.c.io.transcript == y.s.io.transcript && Items(y.c.io.transcript) == Strip(Script(h)))
  {
    var y := Run(h.x, Begin(dtls, h, offered), actions);
    BeginInv(dtls, h, offered);
    RunInv(h, Begin(dtls, h, offered), actions);
    if CSteps.Known(y.c.st) && SSteps.Known(h, y.s.st) { SameSecret(h, y); }
    if y.c.st == C.State.Done && y.s.st == S.State.Done { DoneAgrees(h, y); }
  }
}
