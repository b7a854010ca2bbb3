// The server's side of a connection as it runs: the handshake functions, which update its
// state, and the loops that drive them. Every method is proved to do what the function of
// TlsServer says, until something fails.

module TlsServerRun {
  import SOrder = TlsServerOrder
  import opened Basics
  import opened TlsMessages
  import opened TlsServer
  import opened TlsIo
  import SSafety = TlsServerSafety

  class ServerConnection {
    const io: MessageIo
    const policy: Policy
    var state: State
    var flags: Flags
    var certRequest: bool
    var peerCert: bool
    var master: nat
    var verified: bool
    var proved: bool
    var ccsRead: bool
    var ccsUsed: bool
    var finishedAt: Option<nat>
    var wait: Wait

    ghost function Now(): Server
      reads this, io
    {
      Server(state, policy, flags, certRequest, peerCert, io.Now(), master, verified, proved, ccsRead, ccsUsed, finishedAt)
    }

    // Nothing has failed and everything due has been checked.
    ghost predicate Valid()
      reads this, io
    {
      wait == Error || SSafety.Safe(io.x, Now(), wait)
    }

    // What a handshake function returns and leaves. After an error nothing is kept.
    ghost predicate Does(r: Result, ret: Wait)
      reads this, io
    {
      ret == r.wait && (ret != Error ==> Now() == r.s)
    }

    constructor (crypto: Crypto, p: Policy)
      ensures Valid() && fresh(io) && io.x == crypto && wait == Ok && Now() == Start(p)
    {
      io := new MessageIo(crypto);
      policy := p;
      state, flags := StartAccept, Flags(false, false, false, false, false, false, false, false);
      certRequest, peerCert, master := false, false, 0;
      verified, proved, ccsRead, ccsUsed, finishedAt := false, false, false, false, None;
      wait := Ok;
    }

    method DoStartAccept() returns (ret: Wait)
      requires state == StartAccept
      modifies this, io
      ensures Does(Go(old(Now()), ReadClientHello), ret)
    {
      state := ReadClientHello;
      ret := Ok;
    }

    method DoReadClientHello(e: Env) returns (ret: Wait)
      requires state == ReadClientHello
      modifies this, io
      ensures Does(TlsServer.DoReadClientHello(e, old(Now())), ret)
    {
      var msg := io.GetMessage();
      if msg == None {
        return ReadMessage;
      }
      if msg.value.kind != ClientHello || e.fail {
        return Error;
      }
      if e.retry {
        return CertificateSelectionPending;
      }
      state := SelectCertificate;
      ret := Ok;
    }

    method DoSelectCertificate(e: Env) returns (ret: Wait)
      requires state == SelectCertificate
      modifies this, io
      ensures Does(TlsServer.DoSelectCertificate(e, old(Now())), ret)
    {
      var msg := io.GetMessage();
      if msg == None {
        return ReadMessage;
      }
      if e.fail {
        return Error;
      }
      if e.retry {
        return X509Lookup;
      }
      state := SelectParameters;
      ret := Ok;
    }

    method DoSelectParameters(e: Env) returns (ret: Wait)
      requires state == SelectParameters
      modifies this, io
      ensures Does(TlsServer.DoSelectParameters(io.x, e, old(Now())), ret)
    {
      var msg := io.GetMessage();
      if msg == None {
        return ReadMessage;
      }
      if e.fail {
        return Error;
      }
      if e.retry {
        return PendingSession;
      }
      Settle(e.nego);
      io.HashMessage(msg.value);
      io.NextMessage();
      state := SendServerHello;
      ret := Ok;
    }

    // What the ClientHello settles, and whether a client certificate is requested.
    method Settle(nego: Flags)
      modifies this`flags, this`certRequest, this`master
      ensures flags == nego && certRequest == Requests(policy, nego)
      ensures master == if nego.resumed then io.x.session else old(master)
    {
      flags := nego;
      if flags.resumed {
        master := io.x.session;
      }
      certRequest := false;
      if !flags.resumed {
        certRequest := policy.verifyPeer;
        if policy.ifNoChannelId && flags.channelId {
          certRequest := false;
        }
        if !flags.certAuth {
          certRequest := false;
        }
      }
    }

    method DoSendServerHello(e: Env) returns (ret: Wait)
      requires state == SendServerHello
      modifies this, io
      ensures Does(TlsServer.DoSendServerHello(io.x, e, old(Now())), ret)
    {
      if !e.keepChannelId {
        flags := flags.(channelId := false);
      }
      if e.fail {
        return Error;
      }
      io.AddMessage(Plain(io.x, ServerHello, true));
      state := if flags.resumed then SendServerFinished else SendServerCertificate;
      ret := Ok;
    }

    method DoSendServerCertificate(e: Env) returns (ret: Wait)
      requires state == SendServerCertificate
      modifies this, io
      ensures Does(TlsServer.DoSendServerCertificate(io.x, e, old(Now())), ret)
    {
      if e.fail {
        return Error;
      }
      if flags.certAuth {
        io.AddMessage(CertificateOf(io.x, true, true));
        if flags.status {
          io.AddMessage(Plain(io.x, CertificateStatus, true));
        }
      }
      state := SendServerKeyExchange;
      ret := Ok;
    }

    method DoSendServerKeyExchange(e: Env) returns (ret: Wait)
      requires state == SendServerKeyExchange
      modifies this, io
      ensures Does(TlsServer.DoSendServerKeyExchange(io.x, e, old(Now())), ret)
    {
      if !flags.ske {
        state := SendServerHelloDone;
        return Ok;
      }
      if e.fail {
        return Error;
      }
      if e.retry {
        return PrivateKeyOperation;
      }
      io.AddMessage(Plain(io.x, ServerKeyExchange, true));
      state := SendServerHelloDone;
      ret := Ok;
    }

    method DoSendServerHelloDone(e: Env) returns (ret: Wait)
      requires state == SendServerHelloDone
      modifies this, io
      ensures Does(TlsServer.DoSendServerHelloDone(io.x, e, old(Now())), ret)
    {
      if e.fail {
        return Error;
      }
      if certRequest {
        io.AddMessage(Plain(io.x, CertificateRequest, true));
      }
      io.AddMessage(Plain(io.x, ServerHelloDone, true));
      state := ReadClientCertificate;
      ret := Flush;
    }

    method DoReadClientCertificate(e: Env) returns (ret: Wait)
      requires state == ReadClientCertificate
      modifies this, io
      ensures Does(TlsServer.DoReadClientCertificate(e, old(Now())), ret)
    {
      if !certRequest {
        state := VerifyClientCertificate;
        return Ok;
      }
      var msg;
      ret, msg := io.ReadMessage(Certificate, e.fail);
      if ret == Ok {
        peerCert := msg.body != 0;
        if !peerCert && policy.requireCert {
          return Error;
        }
        state := VerifyClientCertificate;
      }
    }

    method DoVerifyClientCertificate(e: Env) returns (ret: Wait)
      requires state == VerifyClientCertificate
      modifies this, io
      ensures Does(TlsServer.DoVerifyClientCertificate(e, old(Now())), ret)
    {
      if peerCert {
        match e.verify {
          case Valid =>
            verified := true;
          case Invalid =>
            return Error;
          case Later =>
            return CertificateVerification;
        }
      }
      state := ReadClientKeyExchange;
      ret := Ok;
    }

    method DoReadClientKeyExchange(e: Env) returns (ret: Wait)
      requires state == ReadClientKeyExchange
      modifies this, io
      ensures Does(TlsServer.DoReadClientKeyExchange(io.x, e, old(Now())), ret)
    {
      var msg := io.GetMessage();
      if msg == None {
        return ReadMessage;
      }
      if msg.value.kind != ClientKeyExchange || e.fail {
        return Error;
      }
      if e.retry {
        return PrivateKeyOperation;
      }
      io.HashMessage(msg.value);
      master := io.x.prf(io.transcript);
      io.NextMessage();
      state := ReadClientCertificateVerify;
      ret := Ok;
    }

    method DoReadClientCertificateVerify(e: Env) returns (ret: Wait)
      requires state == ReadClientCertificateVerify
      modifies this, io
      ensures Does(TlsServer.DoReadClientCertificateVerify(e, old(Now())), ret)
    {
      if !peerCert {
        state := ReadChangeCipherSpecState;
        return Ok;
      }
      var msg;
      ret, msg := io.ReadMessage(CertificateVerify, e.fail);
      if ret == Ok {
        proved := true;
        state := ReadChangeCipherSpecState;
      }
    }

    method DoReadChangeCipherSpec() returns (ret: Wait)
      requires state == ReadChangeCipherSpecState
      modifies this, io
      ensures Does(TlsServer.DoReadChangeCipherSpec(old(Now())), ret)
    {
      state := ProcessChangeCipherSpec;
      ret := ReadChangeCipherSpec;
    }

    method DoProcessChangeCipherSpec(e: Env) returns (ret: Wait)
      requires state == ProcessChangeCipherSpec
      modifies this, io
      ensures Does(TlsServer.DoProcessChangeCipherSpec(e, old(Now())), ret)
    {
      if io.inbox != [] || e.fail {
        return Error;
      }
      ccsUsed := true;
      state := ReadNextProto;
      ret := Ok;
    }

    method DoReadNextProto(e: Env) returns (ret: Wait)
      requires state == ReadNextProto
      modifies this, io
      ensures Does(TlsServer.DoReadNextProto(e, old(Now())), ret)
    {
      if !flags.npn {
        state := ReadChannelId;
        return Ok;
      }
      var msg;
      ret, msg := io.ReadMessage(NextProto, e.fail);
      if ret == Ok {
        state := ReadChannelId;
      }
    }

    method DoReadChannelId(e: Env) returns (ret: Wait)
      requires state == ReadChannelId
      modifies this, io
      ensures Does(TlsServer.DoReadChannelId(e, old(Now())), ret)
    {
      if !flags.channelId {
        state := ReadClientFinished;
        return Ok;
      }
      var msg;
      ret, msg := io.ReadMessage(ChannelId, e.fail);
      if ret == Ok {
        state := ReadClientFinished;
      }
    }

    method DoReadClientFinished(e: Env) returns (ret: Wait)
      requires state == ReadClientFinished
      modifies this, io
      ensures Does(TlsServer.DoReadClientFinished(io.x, e, old(Now())), ret)
    {
      var at := |io.transcript|;
      ret := io.GetFinished(false, master, e.fail);
      if ret == Ok {
        finishedAt := Some(at);
        state := if flags.resumed then FinishServerHandshake else SendServerFinished;
      }
    }

    method DoSendServerFinished(e: Env) returns (ret: Wait)
      requires state == SendServerFinished
      modifies this, io
      ensures Does(TlsServer.DoSendServerFinished(io.x, e, old(Now())), ret)
    {
      if e.fail {
        return Error;
      }
      if flags.ticket {
        io.AddMessage(Plain(io.x, NewSessionTicket, true));
      }
      io.AddChangeCipherSpec(true);
      io.SendFinished(true, master);
      state := if flags.resumed then ReadChangeCipherSpecState else FinishServerHandshake;
      ret := Flush;
    }

    method DoFinishServerHandshake(e: Env) returns (ret: Wait)
      requires state == FinishServerHandshake
      modifies this, io
      ensures Does(Go(old(Now()), State.Done), ret)
    {
      state := State.Done;
      ret := Ok;
    }

    // The switch of ssl_server_handshake.
    method Step(e: Env) returns (ret: Wait)
      modifies this, io
      ensures Does(Do(io.x, e, old(Now())), ret)
    {
      match state
      case StartAccept => ret := DoStartAccept();
      case ReadClientHello => ret := DoReadClientHello(e);
      case SelectCertificate => ret := DoSelectCertificate(e);
      case SelectParameters => ret := DoSelectParameters(e);
      case SendServerHello => ret := DoSendServerHello(e);
      case SendServerCertificate => ret := DoSendServerCertificate(e);
      case SendServerKeyExchange => ret := DoSendServerKeyExchange(e);
      case SendServerHelloDone => ret := DoSendServerHelloDone(e);
      case ReadClientCertificate => ret := DoReadClientCertificate(e);
      case VerifyClientCertificate => ret := DoVerifyClientCertificate(e);
      case ReadClientKeyExchange => ret := DoReadClientKeyExchange(e);
      case ReadClientCertificateVerify => ret := DoReadClientCertificateVerify(e);
      case ReadChangeCipherSpecState => ret := DoReadChangeCipherSpec();
      case ProcessChangeCipherSpec => ret := DoProcessChangeCipherSpec(e);
      case ReadNextProto => ret := DoReadNextProto(e);
      case ReadChannelId => ret := DoReadChannelId(e);
      case ReadClientFinished => ret := DoReadClientFinished(e);
      case SendServerFinished => ret := DoSendServerFinished(e);
      case FinishServerHandshake => ret := DoFinishServerHandshake(e);
      case Done => ret := Ok;
    }

    // The machine has come here from start by these steps, and everything due is checked.
    ghost predicate Reached(start: Server, steps: seq<SSafety.Event>, ret: Wait)
      reads this, io
    {
      && Does(SSafety.Run(io.x, start, steps), ret)
      && (forall v :: v in steps ==> v.StepWith?)
      && (ret != Error ==> SSafety.Safe(io.x, Now(), ret))
    }

    // One round of the loop of ssl_server_handshake.
    method Round(e: Env, ghost start: Server, ghost had: seq<SSafety.Event>)
      returns (ret: Wait, ghost steps: seq<SSafety.Event>, ghost rank: nat)
      requires Reached(start, had, Ok) && state != State.Done
      modifies this, io
      ensures Reached(start, steps, ret) && rank == SSafety.RankOf(Now()) <= 19
      ensures ret != Error ==> rank >= old(SSafety.RankOf(Now()))
      ensures ret == Ok ==> rank > old(SSafety.RankOf(Now()))
    {
      SSafety.StepOn(io.x, start, had, e, Now());
      ret := Step(e);
      steps, rank := had + [SSafety.StepWith(e)], SSafety.RankOf(Now());
      SSafety.RankBound(Now());
    }

    // ssl_server_handshake: runs the states until one has to wait. It ends because every step
    // advances the rank, and what it does is a run of the machine.
    method Handshake() returns (ret: Wait, ghost steps: seq<SSafety.Event>)
      requires SSafety.Safe(io.x, Now(), Ok)
      modifies this, io
      ensures Reached(old(Now()), steps, ret)
      ensures ret == Ok ==> state == State.Done
      ensures ret != Error ==> SSafety.RankOf(Now()) >= SSafety.RankOf(old(Now()))
    {
      ret, steps := Ok, [];
      ghost var start, rank := Now(), SSafety.RankOf(Now());
      SSafety.RankBound(start);
      while state != State.Done && ret == Ok
        invariant Reached(start, steps, ret)
        invariant rank <= 19
        invariant ret != Error ==> rank == SSafety.RankOf(Now()) >= SSafety.RankOf(start)
        decreases ret == Ok, 19 - rank
      {
        var e: Env := *;
        ret, steps, rank := Round(e, start, steps);
      }
    }

    // The machine has come here by these events.
    ghost predicate Ran(start: Result, events: seq<SSafety.Event>)
      reads this, io
    {
      Does(SSafety.RunFrom(io.x, start, events), wait)
    }

    // The first half of a round of ssl_run_handshake: resolves what the handshake waits for.
    // It stops if that cannot be done yet or the caller has to act; the result of the
    // transport is used up if it was asked.
    method Resolve(result: Option<IoResult>) returns (stop: bool, ret: int, early: bool)
      requires Valid()
      modifies this, io
      ensures Valid() && SSafety.RankOf(Now()) == SSafety.RankOf(old(Now()))
      ensures Ran(old(Result(Now(), wait)), Resolved(old(wait), result))
      ensures stop <==> wait == Error || (old(wait) != Ok && !Resolves(old(wait), result))
      ensures early <==> old(wait) == EarlyReturn
      ensures ret == if early then 1 else -1
    {
      ghost var more := Resolved(wait, result);
      if more != [] {
        SSafety.OneEvent(io.x, Result(Now(), wait), more[0]);
        SSafety.SafeAdvance(io.x, Now(), wait, more[0]);
      }
      stop, ret, early := true, -1, false;
      if wait == Flush {
        if result == Some(FlightWritten) {
          io.FlightDone();
          wait, stop := Ok, false;
        }
      } else if SSafety.ReadingWait(wait) {
        if result.Some? && result.value.RecordRead? {
          Open(result.value.record);
          stop := wait == Error;
        }
      } else if wait == Ok {
        stop := false;
      } else if wait == EarlyReturn {
        wait, ret, early := Ok, 1, true;
      } else if wait != Error {
        wait := Ok;
      }
    }

    // A record that the machine waits for.
    method Open(record: seq<Msg>)
      requires SSafety.Safe(io.x, Now(), wait) && SSafety.ReadingWait(wait)
      modifies this`wait, this`ccsRead, io
      ensures Does(Receive(old(Now()), old(wait), record), wait) && Valid()
      ensures SSafety.RankOf(Now()) == SSafety.RankOf(old(Now()))
    {
      SSafety.SafeReceive(io.x, Now(), wait, record);
      if record != [] {
        var ccs;
        wait, ccs := io.OpenRecord(wait, record);
        if ccs {
          ccsRead := true;
        }
      }
    }

    // The second half of a round: the handshake runs until it waits or stops.
    method Continue() returns (stop: bool, ret: int, ghost steps: seq<SSafety.Event>)
      requires Valid() && wait == Ok
      modifies this, io
      ensures Valid() && ret == if wait == Ok then 1 else -1
      ensures stop <==> wait == Error || wait == Ok
      ensures wait == Ok ==> state == State.Done && SSafety.AllChecked(io.x, Now())
      ensures Ran(old(Result(Now(), wait)), steps) && Used(steps) == []
    {
      wait, steps := Handshake();
      stop, ret := wait == Error || wait == Ok, if wait == Ok then 1 else -1;
      NothingUsed(steps);
      if wait == Ok {
        SSafety.SafeDone(io.x, Now(), Ok);
      }
    }

    // ssl_run_handshake. results is what the transport does, one result for each time it is
    // asked; then it blocks. What happens is a run of the machine in which the transport does
    // just that. It returns 1 when the machine has come to its end, or once on its way for an
    // early return; otherwise it has failed, has handed over to the caller, or waits for what
    // the transport does not do next.
    method Run(results: seq<IoResult>) returns (ret: int, early: bool, ghost events: seq<SSafety.Event>)
      requires Valid()
      modifies this, io
      ensures Valid() && Ran(old(Result(Now(), wait)), events) && Used(events) <= results
      ensures ret == 1 || ret == -1
      ensures early ==> ret == 1 && HandsOver(events)
      ensures old(wait) != EarlyReturn ==> !early
      ensures ret == 1 && !early ==> state == State.Done && wait == Ok && SSafety.AllChecked(io.x, Now())
      ensures ret == -1 ==> wait == Error || HandsOver(events) || Stuck(wait, results, |Used(events)|)
    {
      events := [];
      ghost var start := Result(Now(), wait);
      var i := 0;
      while true
        invariant i <= |results| && Valid() && Ran(start, events) && Used(events) == results[..i]
        decreases |results| - i, if wait == Ok then 1 else 0
      {
        var asked := wait != Ok;
        var stop;
        stop, ret, early, events := Begin(results, i, start, events);
        if stop {
          return;
        }
        if asked {
          i := i + 1;
        }
        if wait == Ok {
          stop, ret, events := Finish(start, events);
          if stop {
            return;
          }
        }
      }
    }

    // Resolve, with the next result and the events so far.
    method Begin(results: seq<IoResult>, i: nat, ghost start: Result, ghost had: seq<SSafety.Event>)
      returns (stop: bool, ret: int, early: bool, ghost events: seq<SSafety.Event>)
      requires i <= |results| && Valid() && Ran(start, had) && Used(had) == results[..i]
      modifies this, io
      ensures Valid() && Ran(start, events) && Used(events) <= results
      ensures !stop && old(wait) == Ok ==> wait == Ok && Used(events) == results[..i]
      ensures !stop && old(wait) != Ok ==> wait != Error && i < |results| && Used(events) == results[..i + 1]
      ensures stop ==> wait == Error || HandsOver(events) || Stuck(wait, results, |Used(events)|)
      ensures (ret == 1 <==> early) && (ret == 1 || ret == -1) && (early ==> stop && HandsOver(events))
      ensures early ==> start.wait == EarlyReturn
    {
      ghost var was := wait;
      var next := if i < |results| then Some(results[i]) else None;
      stop, ret, early := Resolve(next);
      ghost var more := Resolved(was, next);
      events := had + more;
      assert was == Error ==> events == had;
      SSafety.RunOn(io.x, start, had, more);
      UsedNext(was, results, i, had);
      if was != Ok && was != Error { StopsFor(was, results, i, had); }
      if start.wait != EarlyReturn { SOrder.NeverEarly(io.x, start, had); }
    }

    // Continue, with the events so far.
    method Finish(ghost start: Result, ghost had: seq<SSafety.Event>) returns (stop: bool, ret: int, ghost events: seq<SSafety.Event>)
      requires Valid() && wait == Ok && Ran(start, had)
      modifies this, io
      ensures Valid() && Ran(start, events) && Used(events) == Used(had)
      ensures stop <==> wait == Error || wait == Ok
      ensures ret == if wait == Ok then 1 else -1
      ensures wait == Ok ==> state == State.Done && SSafety.AllChecked(io.x, Now())
    {
      ghost var steps;
      stop, ret, steps := Continue();
      SSafety.RunOn(io.x, start, had, steps);
      UsedBoth(had, steps);
      events := had + steps;
    }
  }

  // The transport has done what the handshake waits for.
  predicate Resolves(w: Wait, result: Option<IoResult>) {
    (w == Flush && result == Some(FlightWritten)) || (SSafety.ReadingWait(w) && result.Some? && result.value.RecordRead?)
  }

  // What comes of it, or of the caller's turn.
  function Resolved(w: Wait, result: Option<IoResult>): seq<SSafety.Event> {
    if w == Ok || w == Error then []
    else if Resolves(w, result) then [if w == Flush then SSafety.Flushed else SSafety.Record(result.value.record)]
    else if w == Flush || SSafety.ReadingWait(w) then []
    else [SSafety.Resume]
  }

  // The handshake waits for something that is not what the transport does next.
  predicate Stuck(w: Wait, results: seq<IoResult>, used: nat) {
    (w == Flush || SSafety.ReadingWait(w)) && !Resolves(w, if used < |results| then Some(results[used]) else None)
  }

  // The last thing is the caller's turn.
  predicate HandsOver(events: seq<SSafety.Event>) { events != [] && events[|events| - 1].Resume? }

  // What the transport has done in a run.
  function Used(events: seq<SSafety.Event>): seq<IoResult> {
    if events == [] then []
    else
      var v := events[|events| - 1];
      Used(events[..|events| - 1])
      + if v.Record? then [RecordRead(v.m)] else if v.Flushed? then [FlightWritten] else []
  }

  lemma {:induction false} UsedBoth(a: seq<SSafety.Event>, b: seq<SSafety.Event>)
    ensures Used(a + b) == Used(a) + Used(b)
  {
    if b == [] {
      assert a + b == a;
    } else {
      UsedBoth(a, b[..|b| - 1]);
      assert (a + b)[..|a + b| - 1] == a + b[..|b| - 1];
    }
  }

  // What is resolved uses the next result, or none.
  lemma UsedResolved(w: Wait, result: Option<IoResult>)
    ensures Used(Resolved(w, result)) == if w != Ok && w != Error && Resolves(w, result) then [result.value] else []
  {
    if Resolved(w, result) != [] { UsedOne(Resolved(w, result)[0]); }
  }

  lemma UsedNext(w: Wait, results: seq<IoResult>, i: nat, had: seq<SSafety.Event>)
    requires i <= |results| && Used(had) == results[..i]
    ensures var next := if i < |results| then Some(results[i]) else None;
            Used(had + Resolved(w, next)) == results[..if Resolves(w, next) then i + 1 else i]
  {
    var next := if i < |results| then Some(results[i]) else None;
    UsedBoth(had, Resolved(w, next));
    UsedResolved(w, next);
    if Resolves(w, next) { assert results[..i] + [results[i]] == results[..i + 1]; }
  }

  // Without that it is the caller's turn, or the transport does something else.
  lemma StopsFor(w: Wait, results: seq<IoResult>, i: nat, had: seq<SSafety.Event>)
    requires w != Ok && w != Error
    ensures var next := if i < |results| then Some(results[i]) else None;
            Resolves(w, next) || HandsOver(had + Resolved(w, next)) || Stuck(w, results, i)
  {
  }

  lemma UsedOne(v: SSafety.Event)
    ensures Used([v]) == if v.Record? then [RecordRead(v.m)] else if v.Flushed? then [FlightWritten] else []
  {
    assert [v][..0] == [];
  }

  lemma {:induction false} NothingUsed(steps: seq<SSafety.Event>)
    requires forall v :: v in steps ==> v.StepWith?
    ensures Used(steps) == []
  {
    if steps != [] {
      assert steps[|steps| - 1] in steps;
      NothingUsed(steps[..|steps| - 1]);
    }
  }
}
