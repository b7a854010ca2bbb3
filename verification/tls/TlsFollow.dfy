// How a step of either machine moves along the script and changes its buffers, and what it
// keeps true of the secrets.

module TlsFollow {
  import opened Basics
  import opened TlsMessages
  import opened TlsScript

  // What a step does with messages, if it is one message at most.
  datatype Deed = Nothing | Taken(m: Msg) | Sent(m: Msg)

  // --- Buffers and script ---

  ghost predicate Moves(a: Io, b: Io, m: seq<Msg>, sends: bool) {
    && b.transcript == a.transcript + Hashed(m)
    && if sends then b.inbox == a.inbox && b.out == a.out + m else a.inbox == m + b.inbox && b.out == a.out
  }

  // From p to q, taking the messages m or sending them.
  ghost predicate Follows(h: Shared, p: Point, a: Io, b: Io, q: Point, m: seq<Msg>, sends: bool) {
    Moves(a, b, m, sends) && Leads(h, p, m, q)
  }

  lemma FollowsNone(h: Shared, p: Point, a: Io, q: Point)
    requires Skips(h, p, q)
    ensures Follows(h, p, a, a, q, [], true)
  {
    LeadsNone(h, p, q);
  }

  lemma FollowsTake(h: Shared, p: Point, a: Io, q: Point)
    requires a.inbox != [] && a.inbox[0].kind != ChangeCipherSpec && Carries(h, p, ItemOf(a.inbox[0]), q)
    ensures Follows(h, p, a, Take(a), q, [a.inbox[0]], false)
  {
    HashedOne(a.inbox[0]);
    LeadsOne(h, p, a.inbox[0], q);
  }

  lemma FollowsSend(h: Shared, p: Point, a: Io, m: Msg, q: Point)
    requires m.kind != ChangeCipherSpec && Carries(h, p, ItemOf(m), q)
    ensures Follows(h, p, a, Send(a, m), q, [m], true)
  {
    HashedOne(m);
    LeadsOne(h, p, m, q);
  }

  // A message that is sent or left out as the flags say.
  lemma FollowsIf(h: Shared, p: Point, a: Io, sent: bool, m: Msg, q: Point)
    requires m.kind != ChangeCipherSpec && p != AtEnd && Following(h, p) == q
    requires ItemAt(h, p) == if sent then Some(ItemOf(m)) else None
    ensures Follows(h, p, a, if sent then Send(a, m) else a, q, if sent then [m] else [], true)
  {
    if sent { FollowsSend(h, p, a, m, q); } else { FollowsNone(h, p, a, q); }
  }

  lemma FollowsCcs(h: Shared, p: Point, a: Io, fromServer: bool, q: Point)
    requires Carries(h, p, Item(ChangeCipherSpec, fromServer), q)
    ensures Follows(h, p, a, SendCcs(a, fromServer), q, [Msg(ChangeCipherSpec, fromServer, 0)], true)
  {
    HashedOne(Msg(ChangeCipherSpec, fromServer, 0));
    LeadsOne(h, p, Msg(ChangeCipherSpec, fromServer, 0), q);
  }

  lemma FollowsBoth(h: Shared, p: Point, a: Io, b: Io, q: Point, m: seq<Msg>, c: Io, r: Point, n: seq<Msg>)
    requires Follows(h, p, a, b, q, m, true) && Follows(h, q, b, c, r, n, true)
    ensures Follows(h, p, a, c, r, m + n, true)
  {
    MovesBoth(a, b, c, m, n);
    LeadsBoth(h, p, m, q, n, r);
  }

  lemma MovesBoth(a: Io, b: Io, c: Io, m: seq<Msg>, n: seq<Msg>)
    requires Moves(a, b, m, true) && Moves(b, c, n, true)
    ensures Moves(a, c, m + n, true)
  {
    HashedBoth(m, n);
  }

  // A run of messages sent one after the other, then one more if the flags say so.
  lemma FollowsOnIf(h: Shared, p: Point, a: Io, b: Io, q: Point, m: seq<Msg>, sent: bool, x: Msg, r: Point)
    requires Follows(h, p, a, b, q, m, true) && x.kind != ChangeCipherSpec && q != AtEnd && Following(h, q) == r
    requires ItemAt(h, q) == if sent then Some(ItemOf(x)) else None
    ensures Follows(h, p, a, if sent then Send(b, x) else b, r, if sent then m + [x] else m, true)
  {
    FollowsIf(h, q, b, sent, x, r);
    FollowsBoth(h, p, a, b, q, m, if sent then Send(b, x) else b, r, if sent then [x] else []);
    assert m + [] == m;
  }

  // --- Secrets ---

  // The Finished messages are right, and the master secret is the transcript's once known.
  ghost predicate Keyed(h: Shared, t: seq<Msg>, master: nat, known: bool) {
    && GoodContents(h, t)
    && (!h.f.resumed ==> (HasKeyExchange(t) <==> known))
    && (known ==> master == MasterOf(h, t))
  }

  lemma KeyedMore(h: Shared, t: seq<Msg>, master: nat, known: bool, m: Msg)
    requires Keyed(h, t, master, known) && m.kind != ClientKeyExchange && Right(h, t, m)
    ensures Keyed(h, t + [m], master, known)
  {
    OneMore(t, m);
    assert (t + [m])[..|t|] == t;
  }

  lemma KeyedNow(h: Shared, t: seq<Msg>, master: nat, m: Msg)
    requires Keyed(h, t, master, false) && m.kind == ClientKeyExchange && !h.f.resumed
    ensures Keyed(h, t + [m], h.x.prf(t + [m]), true)
  {
    OneMore(t, m);
    assert (t + [m])[..|t|] == t;
  }

  lemma KeyedIf(h: Shared, a: Io, sent: bool, m: Msg, master: nat)
    requires Keyed(h, a.transcript, master, true) && m.kind != ClientKeyExchange && m.kind != Finished && m.kind != Certificate
    ensures Keyed(h, (if sent then Send(a, m) else a).transcript, master, true)
  {
    if sent { KeyedMore(h, a.transcript, master, true, m); }
  }

  lemma KeyedFinished(h: Shared, a: Io, fromServer: bool, master: nat)
    requires Keyed(h, a.transcript, master, true)
    ensures Keyed(h, SendFinished(h.x, a, fromServer, master).transcript, master, true)
  {
    KeyedMore(h, a.transcript, master, true, Msg(Finished, fromServer, h.x.mac(a.transcript, fromServer, master)));
  }

  // --- Expectation ---

  // The script has a message from that end next.
  ghost predicate Awaits(h: Shared, p: Point, fromServer: bool) {
    First(h, p).Some? && First(h, p).value.fromServer == fromServer && First(h, p).value.kind != ChangeCipherSpec
  }

  // What has arrived is the next message of the script, with the contents its sender gives it.
  ghost predicate Expected(h: Shared, p: Point, io: Io) {
    io.inbox != [] ==>
      && First(h, p) == Some(ItemOf(io.inbox[0]))
      && Right(h, io.transcript, io.inbox[0])
  }

  // Messages from one end, none of them a ChangeCipherSpec.
  predicate Arrived(s: seq<Msg>, fromServer: bool) {
    forall m :: m in s ==> m.fromServer == fromServer && m.kind != ChangeCipherSpec
  }

  lemma OnlyClientExchanges(h: Shared, p: Point)
    ensures ItemAt(h, p).Some? && ItemAt(h, p).value.kind == ClientKeyExchange ==> !ItemAt(h, p).value.fromServer
  {
  }
}
