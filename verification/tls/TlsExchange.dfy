// A sender of handshake messages and a receiver that reads the records it makes: what is
// handed out is what was sent, in order.

module TlsExchange {
  import opened Basics
  import opened SslConstants
  import opened SealedRecords
  import opened TlsFraming
  import opened TlsFlightWriter

  datatype Action = Send(msg: Message) | SendCcs | Deliver | Read

  // The messages sent and their records, the first made of which are complete; how many of
  // those have been read; the messages handed out and the bytes held. Sending has failed when
  // a record could not be made, and a record is refused when its message would be too long.
  datatype Ex = Ex(sent: seq<Message>, records: seq<Record>, calls: nat, made: nat, count: nat,
                   delivered: seq<Message>, held: seq<byte>, failed: bool, refused: bool)

  const NEW := Ex([], [], 0, 0, 0, [], [], false, false)

  datatype Setup = Setup(fragment: nat, maxLen: nat, cipher: Cipher)

  predicate Bounded(x: Ex) { x.count <= x.made <= |x.records| }

  function SendMsg(x: Ex, m: Message, c: Setup): (y: Ex)
    requires c.fragment > 0 && Bounded(x)
    ensures Bounded(y)
  {
    if x.failed then x else
      var t := SealMessage(Sealed(x.records, x.calls, true), Bytes(m), c.fragment, c.cipher);
      if t.ok then x.(sent := x.sent + [m], records := t.records, calls := t.calls, made := |t.records|)
      else x.(records := t.records, calls := t.calls, failed := true)
  }

  function SendChange(x: Ex, c: Setup): (y: Ex)
    requires Bounded(x)
    ensures Bounded(y) && y.sent == x.sent
  {
    if x.failed then x else
      var t := Seal(Sealed(x.records, x.calls, true), SSL3_RT_CHANGE_CIPHER_SPEC, [SSL3_MT_CCS], c.cipher);
      x.(records := t.records, calls := t.calls, made := if t.ok then |t.records| else x.made, failed := !t.ok)
  }

  function DeliverOne(x: Ex, maxLen: nat): (y: Ex)
    requires Bounded(x)
    ensures Bounded(y) && y.sent == x.sent && y.failed == x.failed
  {
    var p := ParseMessage(x.held);
    if p.Whole? || x.count == x.made || x.refused then x
    else if x.records[x.count].typ != SSL3_RT_HANDSHAKE then x.(count := x.count + 1)
    else if p.n > HEADER + maxLen then x.(refused := true)
    else x.(count := x.count + 1, held := x.held + x.records[x.count].plain)
  }

  function ReadOne(x: Ex): (y: Ex)
    requires Bounded(x)
    ensures Bounded(y) && y.sent == x.sent && y.failed == x.failed
  {
    var p := ParseMessage(x.held);
    if p.Needs? then x else x.(delivered := x.delivered + [p.msg], held := p.rest)
  }

  function StepEx(x: Ex, a: Action, c: Setup): (y: Ex)
    requires c.fragment > 0 && Bounded(x)
    ensures Bounded(y)
  {
    match a
    case Send(m) => SendMsg(x, m, c)
    case SendCcs => SendChange(x, c)
    case Deliver => DeliverOne(x, c.maxLen)
    case Read => ReadOne(x)
  }

  function Go(x: Ex, schedule: seq<Action>, c: Setup): (y: Ex)
    requires c.fragment > 0 && Bounded(x)
    ensures Bounded(y)
    decreases |schedule|
  {
    if schedule == [] then x else Go(StepEx(x, schedule[0], c), schedule[1..], c)
  }

  // The messages a schedule sends.
  function Sends(schedule: seq<Action>): seq<Message> {
    if schedule == [] then []
    else (if schedule[0].Send? then [schedule[0].msg] else []) + Sends(schedule[1..])
  }

  ghost predicate SendsFit(schedule: seq<Action>) {
    forall a :: a in schedule && a.Send? ==> Fits(a.msg)
  }

  // Everything sent has been read, and no whole message is left.
  predicate Drained(x: Ex) { x.count == x.made && ParseMessage(x.held).Needs? }

  // The receiver has handed out some messages and holds the bytes that follow.
  ghost predicate Follows(sent: seq<Message>, arrived: seq<byte>, delivered: seq<Message>, held: seq<byte>) {
    && AllFit(sent) && |delivered| <= |sent| && delivered == sent[..|delivered|]
    && held <= Stream(sent[|delivered|..])
    && arrived == Stream(delivered) + held
  }

  lemma {:induction false} StreamSplit(ms: seq<Message>, n: nat)
    requires n <= |ms|
    ensures Stream(ms) == Stream(ms[..n]) + Stream(ms[n..])
  {
    if n == 0 {
      assert ms[..0] == [] && ms[0..] == ms;
    } else {
      var m, rest := ms[0], ms[1..];
      StreamSplit(rest, n - 1);
      assert ms[..n] == [m] + rest[..n - 1] && ms[n..] == rest[n - 1..];
      StreamFirst(m, rest[..n - 1]);
    }
  }

  lemma StreamFirst(m: Message, rest: seq<Message>)
    ensures Stream([m] + rest) == Bytes(m) + Stream(rest)
  {
    assert ([m] + rest)[1..] == rest;
  }

  // More bytes of what was sent arrive, wherever they end.
  lemma ArriveMore(sent: seq<Message>, arrived: seq<byte>, delivered: seq<Message>, held: seq<byte>, x: seq<byte>)
    requires Follows(sent, arrived, delivered, held) && arrived + x <= Stream(sent)
    ensures Follows(sent, arrived + x, delivered, held + x)
  {
    StreamSplit(sent, |delivered|);
    var before, after := Stream(delivered), Stream(sent[|delivered|..]);
    assert arrived + x == before + (held + x);
    assert (before + (held + x))[|before|..] == held + x && (before + after)[|before|..] == after;
  }

  // A whole message in the buffer is the next one sent.
  lemma DeliverNext(sent: seq<Message>, arrived: seq<byte>, delivered: seq<Message>, held: seq<byte>)
    requires Follows(sent, arrived, delivered, held) && ParseMessage(held).Whole?
    ensures var p := ParseMessage(held); Follows(sent, arrived, delivered + [p.msg], p.rest)
  {
    var p, left := ParseMessage(held), sent[|delivered|..];
    FirstOfStream(left, held);
    StreamMore(delivered, p.msg);
    assert sent[..|delivered| + 1] == delivered + [p.msg] && left[1..] == sent[|delivered| + 1..];
    assert Stream(delivered) + held == Stream(delivered) + Bytes(p.msg) + p.rest;
  }

  lemma SendOne(sent: seq<Message>, arrived: seq<byte>, delivered: seq<Message>, held: seq<byte>, m: Message)
    requires Follows(sent, arrived, delivered, held) && Fits(m)
    ensures Follows(sent + [m], arrived, delivered, held)
  {
    var left := sent[|delivered|..];
    StreamMore(left, m);
    assert (sent + [m])[|delivered|..] == left + [m] && (sent + [m])[..|delivered|] == sent[..|delivered|];
  }

  // When everything has arrived and no whole message is left, everything is delivered.
  lemma AllDelivered(sent: seq<Message>, arrived: seq<byte>, delivered: seq<Message>, held: seq<byte>)
    requires Follows(sent, arrived, delivered, held) && arrived == Stream(sent) && ParseMessage(held).Needs?
    ensures delivered == sent
  {
    StreamSplit(sent, |delivered|);
    var left := sent[|delivered|..];
    assert (Stream(delivered) + held)[|Stream(delivered)|..] == held;
    assert (Stream(delivered) + Stream(left))[|Stream(delivered)|..] == Stream(left);
    if left != [] {
      assert left[0] in left;
      MessageRoundTrip(left[0], Stream(left[1..]));
    }
  }

  lemma {:induction false} EarlierRecords(r: seq<Record>, i: nat, j: nat)
    requires i <= j <= |r|
    ensures Handshakes(r[..i]) <= Handshakes(r[..j])
    decreases j
  {
    if i < j {
      EarlierRecords(r, i, j - 1);
      assert r[..j][..j - 1] == r[..j - 1];
    }
  }

  lemma NextRecord(r: seq<Record>, i: nat)
    requires i < |r|
    ensures Handshakes(r[..i + 1]) == Handshakes(r[..i]) + if r[i].typ == SSL3_RT_HANDSHAKE then r[i].plain else []
  {
    assert r[..i + 1] == r[..i] + [r[i]];
    OneMore(r[..i], r[i], SSL3_RT_HANDSHAKE);
  }

  ghost predicate AllWithin(ms: seq<Message>, maxLen: nat) { forall m :: m in ms ==> |m.body| <= maxLen }

  lemma WithinLess(ms: seq<Message>, m: Message, maxLen: nat)
    ensures AllWithin(ms + [m], maxLen) ==> AllWithin(ms, maxLen)
  {
    assert forall x :: x in ms ==> x in ms + [m];
  }

  // Only a message longer than allowed is refused.
  lemma TooLong(sent: seq<Message>, arrived: seq<byte>, delivered: seq<Message>, held: seq<byte>, maxLen: nat)
    requires Follows(sent, arrived, delivered, held)
    requires ParseMessage(held).Needs? && ParseMessage(held).n > HEADER + maxLen
    ensures !AllWithin(sent, maxLen)
  {
    FirstOfStream(sent[|delivered|..], held);
    assert sent[|delivered|] in sent;
  }

  // --- What every step keeps ---

  ghost predicate Good(x: Ex) {
    && Bounded(x)
    && Handshakes(x.records[..x.made]) == Stream(x.sent)
    && Follows(x.sent, Handshakes(x.records[..x.count]), x.delivered, x.held)
  }

  ghost predicate NoneFailed(c: Cipher, n: nat) { forall k: nat :: k < n ==> c(k).Some? }

  ghost predicate Inv(x: Ex, c: Setup) { Good(x) && Flags(x, c) }

  // What the two flags mean.
  ghost predicate Flags(x: Ex, c: Setup) {
    && (!x.failed ==> x.made == |x.records|)
    && (!x.failed <==> NoneFailed(c.cipher, x.calls))
    && (x.refused ==> !AllWithin(x.sent, c.maxLen))
  }

  lemma GoodLonger(x: Ex, y: Ex)
    requires Good(x) && x.records <= y.records && y == x.(records := y.records, calls := y.calls, failed := y.failed)
    ensures Good(y)
  {
    assert y.records[..x.made] == x.records[..x.made] && y.records[..x.count] == x.records[..x.count];
  }

  lemma GoodSend(x: Ex, y: Ex, m: Message)
    requires Good(x) && x.made == |x.records| && x.records <= y.records && Fits(m)
    requires Handshakes(y.records) == Handshakes(x.records) + Bytes(m)
    requires y == x.(sent := x.sent + [m], records := y.records, calls := y.calls, made := |y.records|)
    ensures Good(y)
  {
    assert x.records[..x.made] == x.records && y.records[..y.made] == y.records;
    assert y.records[..x.count] == x.records[..x.count];
    SendOne(x.sent, Handshakes(x.records[..x.count]), x.delivered, x.held, m);
    StreamMore(x.sent, m);
  }

  lemma GoodSame(x: Ex, y: Ex)
    requires Good(x) && x.made == |x.records| && x.records <= y.records
    requires Handshakes(y.records) == Handshakes(x.records)
    requires y == x.(records := y.records, calls := y.calls, made := |y.records|)
    ensures Good(y)
  {
    assert x.records[..x.made] == x.records && y.records[..y.made] == y.records;
    assert y.records[..x.count] == x.records[..x.count];
  }

  lemma GoodDeliver(x: Ex, y: Ex)
    requires Good(x) && x.count < x.made
    requires var r := x.records[x.count];
             y == x.(count := x.count + 1, held := if r.typ == SSL3_RT_HANDSHAKE then x.held + r.plain else x.held)
    ensures Good(y)
  {
    NextRecord(x.records, x.count);
    if x.records[x.count].typ == SSL3_RT_HANDSHAKE {
      EarlierRecords(x.records, x.count + 1, x.made);
      ArriveMore(x.sent, Handshakes(x.records[..x.count]), x.delivered, x.held, x.records[x.count].plain);
    }
  }

  lemma SendGood(x: Ex, m: Message, c: Setup)
    requires c.fragment > 0 && Good(x) && Fits(m) && (!x.failed ==> x.made == |x.records|)
    ensures Good(SendMsg(x, m, c))
  {
    if !x.failed {
      MessageSealed(Sealed(x.records, x.calls, true), Bytes(m), c.fragment, c.cipher);
      var y := SendMsg(x, m, c);
      if y.failed { GoodLonger(x, y); } else { GoodSend(x, y, m); }
    }
  }

  lemma SendFlags(x: Ex, m: Message, c: Setup)
    requires c.fragment > 0 && Bounded(x) && Flags(x, c)
    ensures Flags(SendMsg(x, m, c), c)
  {
    MessageSealed(Sealed(x.records, x.calls, true), Bytes(m), c.fragment, c.cipher);
    WithinLess(x.sent, m, c.maxLen);
  }

  lemma CcsGood(x: Ex, c: Setup)
    requires Good(x) && (!x.failed ==> x.made == |x.records|)
    ensures Good(SendChange(x, c))
  {
    if !x.failed {
      RecordSealed(Sealed(x.records, x.calls, true), SSL3_RT_CHANGE_CIPHER_SPEC, [SSL3_MT_CCS], c.cipher);
      var y := SendChange(x, c);
      if y.failed { GoodLonger(x, y); } else { GoodSame(x, y); }
    }
  }

  lemma CcsFlags(x: Ex, c: Setup)
    requires Bounded(x) && Flags(x, c)
    ensures Flags(SendChange(x, c), c)
  {
    RecordSealed(Sealed(x.records, x.calls, true), SSL3_RT_CHANGE_CIPHER_SPEC, [SSL3_MT_CCS], c.cipher);
  }

  lemma DeliverKeeps(x: Ex, c: Setup)
    requires c.fragment > 0 && Inv(x, c)
    ensures Inv(DeliverOne(x, c.maxLen), c)
  {
    var y := DeliverOne(x, c.maxLen);
    if y.count > x.count {
      GoodDeliver(x, y);
    } else if y.refused && !x.refused {
      TooLong(x.sent, Handshakes(x.records[..x.count]), x.delivered, x.held, c.maxLen);
    }
  }

  lemma ReadKeeps(x: Ex, c: Setup)
    requires c.fragment > 0 && Inv(x, c)
    ensures Inv(ReadOne(x), c)
  {
    if ParseMessage(x.held).Whole? {
      DeliverNext(x.sent, Handshakes(x.records[..x.count]), x.delivered, x.held);
    }
  }

  lemma StepKeeps(x: Ex, a: Action, c: Setup)
    requires c.fragment > 0 && Inv(x, c) && (a.Send? ==> Fits(a.msg))
    ensures Inv(StepEx(x, a, c), c)
  {
    match a
    case Send(m) =>
      SendGood(x, m, c);
      SendFlags(x, m, c);
    case SendCcs =>
      CcsGood(x, c);
      CcsFlags(x, c);
    case Deliver => DeliverKeeps(x, c);
    case Read => ReadKeeps(x, c);
  }

  // --- Whole runs ---

  lemma {:induction false} GoKeeps(x: Ex, schedule: seq<Action>, c: Setup)
    requires c.fragment > 0 && Inv(x, c) && SendsFit(schedule)
    ensures var y := Go(x, schedule, c);
            && Inv(y, c) && (x.failed ==> y.failed && y.sent == x.sent)
            && y.sent <= x.sent + Sends(schedule)
            && (!y.failed ==> y.sent == x.sent + Sends(schedule))
    decreases |schedule|
  {
    if schedule != [] {
      var z := StepEx(x, schedule[0], c);
      assert schedule[0] in schedule;
      StepKeeps(x, schedule[0], c);
      GoKeeps(z, schedule[1..], c);
      SentInOrder(x, schedule, c);
    }
  }

  lemma SentInOrder(x: Ex, schedule: seq<Action>, c: Setup)
    requires c.fragment > 0 && Bounded(x) && schedule != []
    ensures var z := StepEx(x, schedule[0], c);
            && (x.failed ==> z.failed) && (z.failed ==> z.sent == x.sent)
            && (!z.failed ==> z.sent + Sends(schedule[1..]) == x.sent + Sends(schedule))
  {
    var more := Sends(schedule[1..]);
    if schedule[0].Send? {
      var m := [schedule[0].msg];
      assert x.sent + (m + more) == (x.sent + m) + more;
    } else {
      assert [] + more == more;
    }
  }

  // Whatever is sent, cut into records of any size, and whenever the receiver reads. Sent are
  // the messages of the schedule, all of them unless the cipher fails; handed out are at
  // every point the first of those, and all of them once every record has been read and no
  // whole message is left. Only a message longer than the receiver allows is ever refused.
  lemma DeliveredInOrder(schedule: seq<Action>, c: Setup)
    requires c.fragment > 0 && SendsFit(schedule)
    ensures var x := Go(NEW, schedule, c);
            && x.delivered <= x.sent <= Sends(schedule)
            && (Drained(x) ==> x.delivered == x.sent)
            && (x.refused ==> !AllWithin(x.sent, c.maxLen))
            && (!x.failed ==> x.sent == Sends(schedule))
            && (!x.failed <==> NoneFailed(c.cipher, x.calls))
  {
    var x := Go(NEW, schedule, c);
    assert NEW.records[..0] == [] && NEW.sent[..0] == [] && NEW.sent[0..] == [];
    GoKeeps(NEW, schedule, c);
    assert x.sent <= [] + Sends(schedule) == Sends(schedule);
    if Drained(x) {
      AllDelivered(x.sent, Stream(x.sent), x.delivered, x.held);
    }
  }

  ghost predicate Draining(x: Ex, c: Setup) { Inv(x, c) && AllWithin(x.sent, c.maxLen) }

  function Left(x: Ex): (nat, nat)
    requires Bounded(x)
  {
    (x.made - x.count, |x.held|)
  }

  lemma ReadDrains(x: Ex)
    requires Bounded(x) && ParseMessage(x.held).Whole?
    ensures Left(ReadOne(x)).0 == Left(x).0 && Left(ReadOne(x)).1 < Left(x).1
  {
  }

  lemma DeliverDrains(x: Ex, maxLen: nat)
    requires Bounded(x) && ParseMessage(x.held).Needs? && x.count < x.made && !DeliverOne(x, maxLen).refused
    ensures Left(DeliverOne(x, maxLen)).0 < Left(x).0
  {
  }

  // Reading gets on as long as anything is left.
  lemma DrainStep(x: Ex, c: Setup) returns (a: Action)
    requires c.fragment > 0 && Draining(x, c) && !Drained(x)
    ensures !a.Send?
    ensures var y := StepEx(x, a, c);
            && Draining(y, c) && y.sent == x.sent
            && (Left(y).0 < Left(x).0 || (Left(y).0 == Left(x).0 && Left(y).1 < Left(x).1))
  {
    if ParseMessage(x.held).Whole? {
      a := Read;
      ReadKeeps(x, c);
      ReadDrains(x);
    } else {
      a := Deliver;
      DeliverKeeps(x, c);
      DeliverDrains(x, c.maxLen);
    }
  }

  lemma GoFirst(x: Ex, a: Action, more: seq<Action>, c: Setup)
    requires c.fragment > 0 && Bounded(x)
    ensures Go(x, [a] + more, c) == Go(StepEx(x, a, c), more, c)
    ensures !a.Send? ==> Sends([a] + more) == Sends(more)
  {
    assert ([a] + more)[0] == a && ([a] + more)[1..] == more;
  }

  // Whatever has happened, if no message is too long the receiver can get everything.
  lemma {:induction false} CanDrain(x: Ex, c: Setup) returns (schedule: seq<Action>)
    requires c.fragment > 0 && Inv(x, c) && AllWithin(x.sent, c.maxLen)
    ensures Sends(schedule) == []
    ensures var y := Go(x, schedule, c); Drained(y) && y.sent == x.sent && y.delivered == x.sent
    decreases Left(x).0, Left(x).1
  {
    if Drained(x) {
      AllDelivered(x.sent, Stream(x.sent), x.delivered, x.held);
      schedule := [];
    } else {
      var a := DrainStep(x, c);
      schedule := CanDrain(StepEx(x, a, c), c);
      GoFirst(x, a, schedule, c);
      schedule := [a] + schedule;
    }
  }

  // --- Writer and reader ---

  class Exchange {
    const writer: FlightWriter
    const reader: HandshakeReader
    const maxLen: nat
    var sent: seq<Message>
    var made: nat
    var count: nat
    var delivered: seq<Message>
    var failed: bool
    var refused: bool

    ghost function Now(): Ex
      reads this, writer, reader
    {
      Ex(sent, writer.records, writer.calls, made, count, delivered, reader.Contents(), failed, refused)
    }

    ghost function Plan(): Setup
      reads this, writer
    {
      Setup(writer.maxSendFragment, maxLen, writer.cipher)
    }

    ghost predicate Valid()
      reads this, writer, reader
    {
      writer.Valid() && reader.Valid() && Bounded(Now())
    }

    constructor (c: Setup)
      requires c.fragment > 0
      ensures Valid() && fresh(writer) && fresh(reader) && Plan() == c && Now() == NEW
    {
      writer := new FlightWriter(c.fragment, c.cipher, Bio(n => 1, n => 1), []);
      reader := new HandshakeReader();
      maxLen, sent, made, count, delivered, failed, refused := c.maxLen, [], 0, 0, [], false, false;
    }

    method SendMessage(m: Message)
      requires Valid()
      modifies this`sent, this`made, this`failed, writer
      ensures Valid() && Now() == SendMsg(old(Now()), m, Plan())
    {
      if !failed {
        var ok := writer.AddMessage(Bytes(m));
        Note(if ok then [m] else [], ok);
      }
    }

    // What has been sent, when its records could be made.
    method Note(ms: seq<Message>, ok: bool)
      requires writer.Valid() && reader.Valid() && count <= made <= |writer.records|
      modifies this`sent, this`made, this`failed
      ensures Valid() && sent == old(sent) + ms && failed == !ok
      ensures made == if ok then |writer.records| else old(made)
    {
      sent, made, failed := sent + ms, if ok then |writer.records| else made, !ok;
    }

    method SendChangeCipherSpec()
      requires Valid()
      modifies this`sent, this`made, this`failed, writer
      ensures Valid() && Now() == SendChange(old(Now()), Plan())
    {
      if !failed {
        var ok := writer.AddRecord(SSL3_RT_CHANGE_CIPHER_SPEC, [SSL3_MT_CCS]);
        Note([], ok);
      }
    }

    // The next record is read, when the reader has no whole message.
    method DeliverRecord()
      requires Valid()
      modifies this`count, this`refused, reader
      ensures Valid() && Now() == DeliverOne(old(Now()), maxLen)
    {
      var p := reader.Parse();
      if p.Needs? && count < made && !refused {
        var r, ok, alert := writer.records[count], true, NoAlert;
        if r.typ == SSL3_RT_HANDSHAKE {
          ok, alert := reader.OpenHandshake(r.typ, r.plain, maxLen, false, true);
        }
        count, refused := if ok then count + 1 else count, !ok;
      }
    }

    // The next message is handed out, if there is a whole one.
    method ReadMessage()
      requires Valid()
      modifies this`delivered, reader
      ensures Valid() && Now() == ReadOne(old(Now()))
    {
      var ok, msg := reader.GetMessage();
      if ok {
        reader.NextMessage(true);
        delivered := delivered + [msg];
      }
    }

    method Act(a: Action)
      requires Valid()
      modifies this, writer, reader
      ensures Valid() && Now() == StepEx(old(Now()), a, Plan())
    {
      match a {
        case Send(m) => SendMessage(m);
        case SendCcs => SendChangeCipherSpec();
        case Deliver => DeliverRecord();
        case Read => ReadMessage();
      }
    }
  }

  // The theorems above for writer and reader as they are: what they did is what the schedule
  // determines.
  method Run(schedule: seq<Action>, c: Setup)
    returns (sent: seq<Message>, delivered: seq<Message>, drained: bool, failed: bool, refused: bool)
    requires c.fragment > 0 && SendsFit(schedule)
    ensures var x := Go(NEW, schedule, c);
            && sent == x.sent && delivered == x.delivered && drained == Drained(x)
            && failed == x.failed && refused == x.refused
    ensures delivered <= sent <= Sends(schedule)
    ensures !failed ==> sent == Sends(schedule)
    ensures (forall k: nat :: c.cipher(k).Some?) ==> !failed
    ensures drained ==> delivered == sent
    ensures refused ==> !AllWithin(sent, c.maxLen)
  {
    var x := new Exchange(c);
    var n := 0;
    while n < |schedule|
      invariant n <= |schedule| && x.Valid() && fresh(x) && fresh(x.writer) && fresh(x.reader)
      invariant x.Plan() == c && Go(x.Now(), schedule[n..], c) == Go(NEW, schedule, c)
    {
      ghost var left := schedule[n..];
      assert left[0] == schedule[n] && left[1..] == schedule[n + 1..];
      x.Act(schedule[n]);
      n := n + 1;
    }
    DeliveredInOrder(schedule, c);
    var p := x.reader.Parse();
    sent, delivered, drained, failed, refused := x.sent, x.delivered, x.count == x.made && p.Needs?, x.failed, x.refused;
  }
}
