// The client's side of a connection as it runs: the handshake functions, which update its
// state, and the loops that drive them. Every method is proved to do what the function of
// TlsClient says, until something fails.

module TlsClientRun {
  import opened Basics
  import opened TlsMessages
  import opened TlsClient
  import opened TlsIo
  import CSafety = TlsClientSafety

  class ClientConnection {
    const io: MessageIo
    const dtls: bool
    const offered: bool
    const hasCert: bool
    var state: State
    var flags: Flags
    var certRequest: bool
    var master: nat
    var verified: bool
    var ccsRead: bool
    var ccsUsed: bool
    var finishedAt: Option<nat>
    var wait: Wait

    ghost function Now(): Client
      reads this, io
    {
      Client(state, dtls, offered, hasCert, flags, certRequest, io.Now(), master, verified, ccsRead, ccsUsed, finishedAt)
    }

    // Nothing has failed and everything due has been checked.
    ghost predicate Valid()
      reads this, io
    {
      wait == Error || CSafety.Safe(io.x, Now(), wait)
    }

    // What a handshake function returns and leaves. After an error nothing is kept.
    ghost predicate Does(r: Result, ret: Wait)
      reads this, io
    {
      ret == r.wait && (ret != Error ==> Now() == r.c)
    }

    constructor (crypto: Crypto, isDtls: bool, offersSession: bool, hasCertificate: bool)
      ensures Valid() && fresh(io) && io.x == crypto && wait == Ok
      ensures Now() == Start(isDtls, offersSession, hasCertificate)
    {
      io := new MessageIo(crypto);
      dtls, offered, hasCert := isDtls, offersSession, hasCertificate;
      state, flags := StartConnect, Flags(false, false, false, false, false, false, false, false);
      certRequest, master, verified, ccsRead, ccsUsed, finishedAt := false, 0, false, false, false, None;
      wait := Ok;
    }

    method DoStartConnect(e: Env) returns (ret: Wait)
      requires state == StartConnect
      modifies this, io
      ensures Does(TlsClient.DoStartConnect(io.x, e, old(Now())), ret)
    {
      if e.fail {
        return Error;
      }
      io.AddMessage(Plain(io.x, ClientHello, false));
      state := EnterEarlyData;
      ret := Flush;
    }

    method DoEnterEarlyData(e: Env) returns (ret: Wait)
      requires state == EnterEarlyData
      modifies this, io
      ensures Does(TlsClient.DoEnterEarlyData(old(Now())), ret)
    {
      state := if dtls then ReadHelloVerifyRequest else ReadServerHelloState;
      ret := Ok;
    }

    method DoReadHelloVerifyRequest(e: Env) returns (ret: Wait)
      requires state == ReadHelloVerifyRequest
      modifies this, io
      ensures Does(TlsClient.DoReadHelloVerifyRequest(io.x, e, old(Now())), ret)
    {
      var msg := io.GetMessage();
      if msg == None {
        return ReadMessage;
      }
      if msg.value.kind != HelloVerifyRequest {
        state := ReadServerHelloState;
        return Ok;
      }
      if e.fail {
        return Error;
      }
      io.NextMessage();
      io.transcript := [];
      io.AddMessage(Plain(io.x, ClientHello, false));
      state := ReadServerHelloState;
      ret := Flush;
    }

    method DoReadServerHello(e: Env) returns (ret: Wait)
      requires state == ReadServerHelloState
      modifies this, io
      ensures Does(TlsClient.DoReadServerHello(io.x, e, old(Now())), ret)
    {
      var msg := io.GetMessage();
      if msg == None {
        return ReadServerHello;
      }
      if msg.value.kind != ServerHello || e.fail {
        return Error;
      }
      io.HashMessage(msg.value);
      io.NextMessage();
      Settle(e.nego);
      ret := Ok;
    }

    // What the ServerHello settles: a session that was offered may be resumed.
    method Settle(nego: Flags)
      modifies this`flags, this`master, this`state
      ensures flags == nego.(resumed := nego.resumed && offered)
      ensures master == if flags.resumed then io.x.session else old(master)
      ensures state == if flags.resumed then ReadSessionTicket else ReadServerCertificate
    {
      flags := nego.(resumed := nego.resumed && offered);
      if flags.resumed {
        master := io.x.session;
        state := ReadSessionTicket;
      } else {
        state := ReadServerCertificate;
      }
    }


    method DoReadServerCertificate(e: Env) returns (ret: Wait)
      requires state == ReadServerCertificate
      modifies this, io
      ensures Does(TlsClient.DoReadServerCertificate(e, old(Now())), ret)
    {
      if !flags.certAuth {
        state := ReadCertificateStatus;
        return Ok;
      }
      var msg;
      ret, msg := io.ReadMessage(Certificate, e.fail);
      if ret == Ok {
        if msg.body == 0 {
          return Error;
        }
        state := ReadCertificateStatus;
      }
    }

    method DoReadCertificateStatus(e: Env) returns (ret: Wait)
      requires state == ReadCertificateStatus
      modifies this, io
      ensures Does(TlsClient.DoReadCertificateStatus(e, old(Now())), ret)
    {
      if !flags.status {
        state := VerifyServerCertificate;
        return Ok;
      }
      var msg := io.GetMessage();
      if msg == None {
        return ReadMessage;
      }
      if msg.value.kind != CertificateStatus {
        state := VerifyServerCertificate;
        return Ok;
      }
      io.HashMessage(msg.value);
      if e.fail {
        return Error;
      }
      io.NextMessage();
      state := VerifyServerCertificate;
      ret := Ok;
    }

    method DoVerifyServerCertificate(e: Env) returns (ret: Wait)
      requires state == VerifyServerCertificate
      modifies this, io
      ensures Does(TlsClient.DoVerifyServerCertificate(e, old(Now())), ret)
    {
      if !flags.certAuth {
        state := ReadServerKeyExchange;
        return Ok;
      }
      match e.verify {
        case Valid =>
          verified := true;
        case Invalid =>
          return Error;
        case Later =>
          state := VerifyServerCertificate;
          return CertificateVerification;
      }
      state := ReadServerKeyExchange;
      ret := Ok;
    }

    method DoReadServerKeyExchange(e: Env) returns (ret: Wait)
      requires state == ReadServerKeyExchange
      modifies this, io
      ensures Does(TlsClient.DoReadServerKeyExchange(e, old(Now())), ret)
    {
      var msg := io.GetMessage();
      if msg == None {
        return ReadMessage;
      }
      if msg.value.kind != ServerKeyExchange {
        if flags.skeRequired {
          return Error;
        }
        state := ReadCertificateRequest;
        return Ok;
      }
      io.HashMessage(msg.value);
      if e.fail {
        return Error;
      }
      io.NextMessage();
      state := ReadCertificateRequest;
      ret := Ok;
    }

    method DoReadCertificateRequest(e: Env) returns (ret: Wait)
      requires state == ReadCertificateRequest
      modifies this, io
      ensures Does(TlsClient.DoReadCertificateRequest(e, old(Now())), ret)
    {
      if !flags.certAuth {
        state := ReadServerHelloDone;
        return Ok;
      }
      var msg := io.GetMessage();
      if msg == None {
        return ReadMessage;
      }
      if msg.value.kind == ServerHelloDone {
        state := ReadServerHelloDone;
        return Ok;
      }
      if msg.value.kind != CertificateRequest {
        return Error;
      }
      io.HashMessage(msg.value);
      if e.fail {
        return Error;
      }
      certRequest := true;
      io.NextMessage();
      state := ReadServerHelloDone;
      ret := Ok;
    }

    method DoReadServerHelloDone(e: Env) returns (ret: Wait)
      requires state == ReadServerHelloDone
      modifies this, io
      ensures Does(TlsClient.DoReadServerHelloDone(e, old(Now())), ret)
    {
      var msg;
      ret, msg := io.ReadMessage(ServerHelloDone, e.fail);
      if ret == Ok {
        state := SendClientCertificate;
      }
    }

    method DoSendClientCertificate(e: Env) returns (ret: Wait)
      requires state == SendClientCertificate
      modifies this, io
      ensures Does(TlsClient.DoSendClientCertificate(io.x, e, old(Now())), ret)
    {
      if !certRequest {
        state := SendClientKeyExchange;
        return Ok;
      }
      if e.fail {
        return Error;
      }
      if e.retry {
        state := SendClientCertificate;
        return X509Lookup;
      }
      io.AddMessage(CertificateOf(io.x, hasCert, false));
      state := SendClientKeyExchange;
      ret := Ok;
    }

    method DoSendClientKeyExchange(e: Env) returns (ret: Wait)
      requires state == SendClientKeyExchange
      modifies this, io
      ensures Does(TlsClient.DoSendClientKeyExchange(io.x, e, old(Now())), ret)
    {
      if e.fail {
        return Error;
      }
      io.AddMessage(Plain(io.x, ClientKeyExchange, false));
      master := io.x.prf(io.transcript);
      state := SendClientCertificateVerify;
      ret := Ok;
    }

    method DoSendClientCertificateVerify(e: Env) returns (ret: Wait)
      requires state == SendClientCertificateVerify
      modifies this, io
      ensures Does(TlsClient.DoSendClientCertificateVerify(io.x, e, old(Now())), ret)
    {
      if !certRequest || !hasCert {
        state := SendClientFinished;
        return Ok;
      }
      if e.fail {
        return Error;
      }
      if e.retry {
        state := SendClientCertificateVerify;
        return PrivateKeyOperation;
      }
      io.AddMessage(Plain(io.x, CertificateVerify, false));
      state := SendClientFinished;
      ret := Ok;
    }

    method DoSendClientFinished(e: Env) returns (ret: Wait)
      requires state == SendClientFinished
      modifies this, io
      ensures Does(TlsClient.DoSendClientFinished(io.x, e, old(Now())), ret)
    {
      if e.fail {
        return Error;
      }
      if flags.channelId && e.retry {
        state := SendClientFinished;
        return ChannelIdLookup;
      }
      io.AddChangeCipherSpec(false);
      if flags.npn {
        io.AddMessage(Plain(io.x, NextProto, false));
      }
      if flags.channelId {
        io.AddMessage(Plain(io.x, ChannelId, false));
      }
      io.SendFinished(false, master);
      state := FinishFlight;
      ret := Flush;
    }

    method DoFinishFlight(e: Env) returns (ret: Wait)
      requires state == FinishFlight
      modifies this, io
      ensures Does(TlsClient.DoFinishFlight(e, old(Now())), ret)
    {
      if flags.resumed {
        state := FinishClientHandshake;
        return Ok;
      }
      if e.fail {
        return Error;
      }
      state := ReadSessionTicket;
      ret := if e.falseStart then EarlyReturn else Ok;
    }

    method DoReadSessionTicket(e: Env) returns (ret: Wait)
      requires state == ReadSessionTicket
      modifies this, io
      ensures Does(TlsClient.DoReadSessionTicket(e, old(Now())), ret)
    {
      if !flags.ticket {
        state := ProcessChangeCipherSpec;
        return ReadChangeCipherSpec;
      }
      var msg;
      ret, msg := io.ReadMessage(NewSessionTicket, e.fail);
      if ret == Ok {
        state := ProcessChangeCipherSpec;
        ret := ReadChangeCipherSpec;
      }
    }

    method DoProcessChangeCipherSpec(e: Env) returns (ret: Wait)
      requires state == ProcessChangeCipherSpec
      modifies this, io
      ensures Does(TlsClient.DoProcessChangeCipherSpec(e, old(Now())), ret)
    {
      if io.inbox != [] || e.fail {
        return Error;
      }
      ccsUsed := true;
      state := ReadServerFinished;
      ret := Ok;
    }

    method DoReadServerFinished(e: Env) returns (ret: Wait)
      requires state == ReadServerFinished
      modifies this, io
      ensures Does(TlsClient.DoReadServerFinished(io.x, e, old(Now())), ret)
    {
      var at := |io.transcript|;
      ret := io.GetFinished(true, master, e.fail);
      if ret == Ok {
        finishedAt := Some(at);
        state := if flags.resumed then SendClientFinished else FinishClientHandshake;
      }
    }

    method DoFinishClientHandshake(e: Env) returns (ret: Wait)
      requires state == FinishClientHandshake
      modifies this, io
      ensures Does(TlsClient.DoFinishClientHandshake(e, old(Now())), ret)
    {
      if e.fail {
        return Error;
      }
      state := State.Done;
      ret := Ok;
    }

    // The switch of ssl_client_handshake.
    method Step(e: Env) returns (ret: Wait)
      modifies this, io
      ensures Does(Do(io.x, e, old(Now())), ret)
    {
      match state
      case StartConnect => ret := DoStartConnect(e);
      case EnterEarlyData => ret := DoEnterEarlyData(e);
      case ReadHelloVerifyRequest => ret := DoReadHelloVerifyRequest(e);
      case ReadServerHelloState => ret := DoReadServerHello(e);
      case ReadServerCertificate => ret := DoReadServerCertificate(e);
      case ReadCertificateStatus => ret := DoReadCertificateStatus(e);
      case VerifyServerCertificate => ret := DoVerifyServerCertificate(e);
      case ReadServerKeyExchange => ret := DoReadServerKeyExchange(e);
      case ReadCertificateRequest => ret := DoReadCertificateRequest(e);
      case ReadServerHelloDone => ret := DoReadServerHelloDone(e);
      case SendClientCertificate => ret := DoSendClientCertificate(e);
      case SendClientKeyExchange => ret := DoSendClientKeyExchange(e);
      case SendClientCertificateVerify => ret := DoSendClientCertificateVerify(e);
      case SendClientFinished => ret := DoSendClientFinished(e);
      case FinishFlight => ret := DoFinishFlight(e);
      case ReadSessionTicket => ret := DoReadSessionTicket(e);
      case ProcessChangeCipherSpec => ret := DoProcessChangeCipherSpec(e);
      case ReadServerFinished => ret := DoReadServerFinished(e);
      case FinishClientHandshake => ret := DoFinishClientHandshake(e);
      case Done => ret := Ok;
    }

    // The machine has come here from start by these steps, and everything due is checked.
    ghost predicate Reached(start: Client, steps: seq<CSafety.Event>, ret: Wait)
      reads this, io
    {
      && Does(CSafety.Run(io.x, start, steps), ret)
      && (forall v :: v in steps ==> v.StepWith?)
      && (ret != Error ==> CSafety.Safe(io.x, Now(), ret))
    }

    // One round of the loop of ssl_client_handshake.
    method Round(e: Env, ghost start: Client, ghost had: seq<CSafety.Event>)
      returns (ret: Wait, ghost steps: seq<CSafety.Event>, ghost rank: nat)
      requires Reached(start, had, Ok) && state != State.Done
      modifies this, io
      ensures Reached(start, steps, ret) && rank == CSafety.RankOf(Now()) <= 21
      ensures ret != Error ==> rank >= old(CSafety.RankOf(Now()))
      ensures ret == Ok ==> rank > old(CSafety.RankOf(Now()))
    {
      CSafety.StepOn(io.x, start, had, e, Now());
      ret := Step(e);
      steps, rank := had + [CSafety.StepWith(e)], CSafety.RankOf(Now());
      CSafety.RankBound(Now());
    }

    // ssl_client_handshake: runs the states until one has to wait. It ends because every step
    // advances the rank, and what it does is a run of the machine.
    method Handshake() returns (ret: Wait, ghost steps: seq<CSafety.Event>)
      requires CSafety.Safe(io.x, Now(), Ok)
      modifies this, io
      ensures Reached(old(Now()), steps, ret)
      ensures ret == Ok ==> state == State.Done
      ensures ret != Error ==> CSafety.RankOf(Now()) >= CSafety.RankOf(old(Now()))
    {
      ret, steps := Ok, [];
      ghost var start, rank := Now(), CSafety.RankOf(Now());
      CSafety.RankBound(start);
      while state != State.Done && ret == Ok
        invariant Reached(start, steps, ret)
        invariant rank <= 21
        invariant ret != Error ==> rank == CSafety.RankOf(Now()) >= CSafety.RankOf(start)
        decreases ret == Ok, 21 - rank
      {
        var e: Env := *;
        ret, steps, rank := Round(e, start, steps);
      }
    }

    // The machine has come here by these events.
    ghost predicate Ran(start: Result, events: seq<CSafety.Event>)
      reads this, io
    {
      Does(CSafety.RunFrom(io.x, start, events), wait)
    }

    // The first half of a round of ssl_run_handshake: resolves what the handshake waits for.
    // It stops if that cannot be done yet or the caller has to act; the result of the
    // transport is used up if it was asked.
    method Resolve(result: Option<IoResult>) returns (stop: bool, ret: int, early: bool)
      requires Valid()
      modifies this, io
      ensures Valid() && CSafety.RankOf(Now()) == CSafety.RankOf(old(Now()))
      ensures Ran(old(Result(Now(), wait)), Resolved(old(wait), result))
      ensures stop <==> wait == Error || (old(wait) != Ok && !Resolves(old(wait), result))
      ensures early <==> old(wait) == EarlyReturn
      ensures ret == if early then 1 else -1
    {
      ghost var more := Resolved(wait, result);
      if more != [] {
        CSafety.OneEvent(io.x, Result(Now(), wait), more[0]);
        CSafety.SafeAdvance(io.x, Now(), wait, more[0]);
      }
      stop, ret, early := true, -1, false;
      if wait == Flush {
        if result == Some(FlightWritten) {
          io.FlightDone();
          wait, stop := Ok, false;
        }
      } else if CSafety.ReadingWait(wait) {
        if result.Some? && result.value.RecordRead? {
          Open(result.value.record);
          stop := wait == Error;
        }
      } else if wait == Ok {
        stop := false;
      } else if wait == EarlyReturn {
        wait, ret, early := Ok, 1, true;
      } else if wait != Error {
        wait := Ok;
      }
    }

    // A record that the machine waits for.
    method Open(record: seq<Msg>)
      requires CSafety.Safe(io.x, Now(), wait) && CSafety.ReadingWait(wait)
      modifies this`wait, this`ccsRead, io
      ensures Does(Receive(old(Now()), old(wait), record), wait) && Valid()
      ensures CSafety.RankOf(Now()) == CSafety.RankOf(old(Now()))
    {
      CSafety.SafeReceive(io.x, Now(), wait, record);
      if record != [] {
        var ccs;
        wait, ccs := io.OpenRecord(wait, record);
        if ccs {
          ccsRead := true;
        }
      }
    }

    // The second half of a round: the handshake runs until it waits or stops.
    method Continue() returns (stop: bool, ret: int, ghost steps: seq<CSafety.Event>)
      requires Valid() && wait == Ok
      modifies this, io
      ensures Valid() && ret == if wait == Ok then 1 else -1
      ensures stop <==> wait == Error || wait == Ok
      ensures wait == Ok ==> state == State.Done && CSafety.AllChecked(io.x, Now())
      ensures Ran(old(Result(Now(), wait)), steps) && Used(steps) == [] && forall v :: v in steps ==> v.StepWith?
    {
      wait, steps := Handshake();
      stop, ret := wait == Error || wait == Ok, if wait == Ok then 1 else -1;
      NothingUsed(steps);
      if wait == Ok {
        CSafety.SafeDone(io.x, Now(), Ok);
      }
    }

    // ssl_run_handshake. results is what the transport does, one result for each time it is
    // asked; then it blocks. What happens is a run of the machine in which the transport does
    // just that. It returns 1 when the machine has come to its end, or once on its way for an
    // early return; otherwise it has failed, has handed over to the caller, or waits for what
    // the transport does not do next.
    method Run(results: seq<IoResult>) returns (ret: int, early: bool, ghost events: seq<CSafety.Event>)
      requires Valid()
      modifies this, io
      ensures Valid() && Ran(old(Result(Now(), wait)), events) && Used(events) <= results
      ensures ret == 1 || ret == -1
      ensures early <==> CSafety.ReturnsEarly(io.x, old(Result(Now(), wait)), events)
      ensures early ==> ret == 1 && HandsOver(events)
      ensures early && old(wait) != EarlyReturn ==>
                exists n: nat :: n < |events| && CSafety.FalseStartAt(io.x, old(Result(Now(), wait)), events, n)
      ensures ret == 1 && !early ==> state == State.Done && wait == Ok && CSafety.AllChecked(io.x, Now())
      ensures ret == -1 ==> wait == Error || HandsOver(events) || Stuck(wait, results, |Used(events)|)
    {
      events := [];
      ghost var start := Result(Now(), wait);
      var i := 0;
      while true
        invariant i <= |results| && Valid() && Ran(start, events) && Used(events) == results[..i]
        invariant !CSafety.ReturnsEarly(io.x, start, events)
        decreases |results| - i, if wait == Ok then 1 else 0
      {
        var asked := wait != Ok;
        var stop;
        stop, ret, early, events := Begin(results, i, start, events);
        if stop {
          if early && start.wait != EarlyReturn { CSafety.EarlyOnlyByFalseStart(io.x, start, events); }
          return;
        }
        if asked {
          i := i + 1;
        }
        if wait == Ok {
          stop, ret, events := Finish(start, events);
          if stop {
            return;
          }
        }
      }
    }

    // Resolve, with the next result and the events so far.
    method Begin(results: seq<IoResult>, i: nat, ghost start: Result, ghost had: seq<CSafety.Event>)
      returns (stop: bool, ret: int, early: bool, ghost events: seq<CSafety.Event>)
      requires i <= |results| && Valid() && Ran(start, had) && Used(had) == results[..i]
      requires !CSafety.ReturnsEarly(io.x, start, had)
      modifies this, io
      ensures early <==> CSafety.ReturnsEarly(io.x, start, events)
      ensures Valid() && Ran(start, events) && Used(events) <= results
      ensures !stop && old(wait) == Ok ==> wait == Ok && Used(events) == results[..i]
      ensures !stop && old(wait) != Ok ==> wait != Error && i < |results| && Used(events) == results[..i + 1]
      ensures stop ==> wait == Error || HandsOver(events) || Stuck(wait, results, |Used(events)|)
      ensures (ret == 1 <==> early) && (ret == 1 || ret == -1) && (early ==> stop && HandsOver(events))
    {
      ghost var was := wait;
      var next := if i < |results| then Some(results[i]) else None;
      stop, ret, early := Resolve(next);
      ghost var more := Resolved(was, next);
      events := had + more;
      assert was == Error ==> events == had;
      CSafety.RunOn(io.x, start, had, more);
      EndsEarly(io.x, start, had, was, next);
      UsedNext(was, results, i, had);
      if was != Ok && was != Error { StopsFor(was, results, i, had); }
    }

    // Continue, with the events so far.
    method Finish(ghost start: Result, ghost had: seq<CSafety.Event>) returns (stop: bool, ret: int, ghost events: seq<CSafety.Event>)
      requires Valid() && wait == Ok && Ran(start, had) && !CSafety.ReturnsEarly(io.x, start, had)
      modifies this, io
      ensures !CSafety.ReturnsEarly(io.x, start, events)
      ensures Valid() && Ran(start, events) && Used(events) == Used(had)
      ensures stop <==> wait == Error || wait == Ok
      ensures ret == if wait == Ok then 1 else -1
      ensures wait == Ok ==> state == State.Done && CSafety.AllChecked(io.x, Now())
    {
      ghost var steps;
      stop, ret, steps := Continue();
      CSafety.RunOn(io.x, start, had, steps);
      UsedBoth(had, steps);
      StepsGoOn(io.x, start, had, steps);
      events := had + steps;
    }
  }

  // The transport has done what the handshake waits for.
  predicate Resolves(w: Wait, result: Option<IoResult>) {
    (w == Flush && result == Some(FlightWritten)) || (CSafety.ReadingWait(w) && result.Some? && result.value.RecordRead?)
  }

  // What comes of it, or of the caller's turn.
  function Resolved(w: Wait, result: Option<IoResult>): seq<CSafety.Event> {
    if w == Ok || w == Error then []
    else if Resolves(w, result) then [if w == Flush then CSafety.Flushed else CSafety.Record(result.value.record)]
    else if w == Flush || CSafety.ReadingWait(w) then []
    else [CSafety.Resume]
  }

  // The handshake waits for something that is not what the transport does next.
  predicate Stuck(w: Wait, results: seq<IoResult>, used: nat) {
    (w == Flush || CSafety.ReadingWait(w)) && !Resolves(w, if used < |results| then Some(results[used]) else None)
  }

  // The last thing is the caller's turn.
  predicate HandsOver(events: seq<CSafety.Event>) { events != [] && events[|events| - 1].Resume? }

  // What is resolved lets the caller go early exactly if that is what the machine waits for.
  lemma EndsEarly(x: Crypto, start: Result, had: seq<CSafety.Event>, w: Wait, result: Option<IoResult>)
    requires CSafety.RunFrom(x, start, had).wait == w && !CSafety.ReturnsEarly(x, start, had)
    ensures CSafety.ReturnsEarly(x, start, had + Resolved(w, result)) <==> w == EarlyReturn
  {
    var more := Resolved(w, result);
    if more == [] { assert had + more == had; } else { assert (had + more)[..|had|] == had; }
  }

  lemma StepsGoOn(x: Crypto, start: Result, had: seq<CSafety.Event>, steps: seq<CSafety.Event>)
    requires !CSafety.ReturnsEarly(x, start, had) && forall v :: v in steps ==> v.StepWith?
    ensures !CSafety.ReturnsEarly(x, start, had + steps)
  {
    if steps == [] { assert had + steps == had; } else { assert steps[|steps| - 1] in steps; }
  }

  // What the transport has done in a run.
  function Used(events: seq<CSafety.Event>): seq<IoResult> {
    if events == [] then []
    else
      var v := events[|events| - 1];
      Used(events[..|events| - 1])
      + if v.Record? then [RecordRead(v.m)] else if v.Flushed? then [FlightWritten] else []
  }

  lemma {:induction false} UsedBoth(a: seq<CSafety.Event>, b: seq<CSafety.Event>)
    ensures Used(a + b) == Used(a) + Used(b)
  {
    if b == [] {
      assert a + b == a;
    } else {
      UsedBoth(a, b[..|b| - 1]);
      assert (a + b)[..|a + b| - 1] == a + b[..|b| - 1];
    }
  }

  // What is resolved uses the next result, or none.
  lemma UsedResolved(w: Wait, result: Option<IoResult>)
    ensures Used(Resolved(w, result)) == if w != Ok && w != Error && Resolves(w, result) then [result.value] else []
  {
    if Resolved(w, result) != [] { UsedOne(Resolved(w, result)[0]); }
  }

  lemma UsedNext(w: Wait, results: seq<IoResult>, i: nat, had: seq<CSafety.Event>)
    requires i <= |results| && Used(had) == results[..i]
    ensures var next := if i < |results| then Some(results[i]) else None;
            Used(had + Resolved(w, next)) == results[..if Resolves(w, next) then i + 1 else i]
  {
    var next := if i < |results| then Some(results[i]) else None;
    UsedBoth(had, Resolved(w, next));
    UsedResolved(w, next);
    if Resolves(w, next) { assert results[..i] + [results[i]] == results[..i + 1]; }
  }

  // Without that it is the caller's turn, or the transport does something else.
  lemma StopsFor(w: Wait, results: seq<IoResult>, i: nat, had: seq<CSafety.Event>)
    requires w != Ok && w != Error
    ensures var next := if i < |results| then Some(results[i]) else None;
            Resolves(w, next) || HandsOver(had + Resolved(w, next)) || Stuck(w, results, i)
  {
  }

  lemma UsedOne(v: CSafety.Event)
    ensures Used([v]) == if v.Record? then [RecordRead(v.m)] else if v.Flushed? then [FlightWritten] else []
  {
    assert [v][..0] == [];
  }

  lemma {:induction false} NothingUsed(steps: seq<CSafety.Event>)
    requires forall v :: v in steps ==> v.StepWith?
    ensures Used(steps) == []
  {
    if steps != [] {
      assert steps[|steps| - 1] in steps;
      NothingUsed(steps[..|steps| - 1]);
    }
  }
}
