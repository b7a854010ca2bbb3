// Two ends of a connection and the messages between them.

module TlsLink {
  import opened Basics
  import opened TlsMessages
  import opened TlsScript

  predicate AllFrom(m: seq<Msg>, fromServer: bool) { forall x :: x in m ==> x.fromServer == fromServer }

  // One end is at point p with transcript t, the other at q with u; a is on its way from the
  // first and b from the second. Whoever is ahead has sent what the other has yet to take.
  ghost predicate Link(h: Shared, server: bool, p: Point, t: seq<Msg>, a: seq<Msg>, q: Point, u: seq<Msg>, b: seq<Msg>) {
    && AllFrom(a, server) && AllFrom(b, !server)
    && ((b == [] && Leads(h, q, a, p) && t == u + Hashed(a)) || (a == [] && Leads(h, p, b, q) && u == t + Hashed(b)))
  }

  // The first end sends m.
  lemma LinkSend(h: Shared, server: bool, p: Point, t: seq<Msg>, a: seq<Msg>, q: Point, u: seq<Msg>, b: seq<Msg>, m: seq<Msg>, p': Point)
    requires Link(h, server, p, t, a, q, u, b) && Leads(h, p, m, p') && AllFrom(m, server)
    ensures Link(h, server, p', t + Hashed(m), a + m, q, u, b)
  {
    if m == [] {
      LinkSilent(h, server, p, t, a, q, u, b, p');
      assert a + m == a && t + Hashed(m) == t;
    } else {
      if b != [] {
        assert m[0] in m && b[0] in b;
        OneNext(h, p, m, p', b, q);
      }
      NothingPending(h, server, p, t, a, q, u, b);
      SendMore(h, p, t, a, q, u, m, p');
    }
  }

  lemma SendMore(h: Shared, p: Point, t: seq<Msg>, a: seq<Msg>, q: Point, u: seq<Msg>, m: seq<Msg>, p': Point)
    requires Leads(h, q, a, p) && Leads(h, p, m, p') && t == u + Hashed(a)
    ensures Leads(h, q, a + m, p') && t + Hashed(m) == u + Hashed(a + m)
  {
    HashedBoth(a, m);
    LeadsBoth(h, q, a, p, m, p');
  }

  lemma Backwards(h: Shared, p: Point, q: Point)
    requires Leads(h, p, [], q)
    ensures Leads(h, q, [], p)
  {
    SameRest(h, p, q);
    assert Items([]) + Rest(h, p) == Rest(h, p);
  }

  // When nothing is on its way to the first end, it is the one ahead.
  lemma {:induction false} NothingPending(h: Shared, server: bool, p: Point, t: seq<Msg>, a: seq<Msg>, q: Point, u: seq<Msg>, b: seq<Msg>)
    requires Link(h, server, p, t, a, q, u, b) && b == []
    ensures Leads(h, q, a, p) && t == u + Hashed(a)
  {
    if a == [] && Leads(h, p, [], q) && u == t + Hashed([]) {
      Backwards(h, p, q);
      assert t + Hashed([]) == t == u + Hashed([]);
    }
  }

  // The script has only one message next.
  lemma OneNext(h: Shared, p: Point, m: seq<Msg>, p': Point, b: seq<Msg>, q: Point)
    requires Leads(h, p, m, p') && Leads(h, p, b, q) && m != [] && b != []
    ensures ItemOf(m[0]) == ItemOf(b[0])
  {
    assert (Items(m) + Rest(h, p'))[0] == ItemOf(m[0]);
    assert (Items(b) + Rest(h, q))[0] == ItemOf(b[0]);
  }

  lemma SameRest(h: Shared, p: Point, p': Point)
    requires Leads(h, p, [], p')
    ensures Rest(h, p) == Rest(h, p')
  {
    assert Items([]) + Rest(h, p') == Rest(h, p');
  }

  // The first end moves to a point with the same rest of the script.
  lemma LinkSilent(h: Shared, server: bool, p: Point, t: seq<Msg>, a: seq<Msg>, q: Point, u: seq<Msg>, b: seq<Msg>, p': Point)
    requires Link(h, server, p, t, a, q, u, b) && Leads(h, p, [], p')
    ensures Link(h, server, p', t, a, q, u, b)
  {
    SameRest(h, p, p');
    if a == [] && Leads(h, p, b, q) && u == t + Hashed(b) {
      assert Leads(h, p', b, q);
    } else {
      assert Leads(h, q, a, p');
    }
  }

  // The first end takes m, the first of what is on its way to it.
  lemma {:induction false} LinkTake(h: Shared, server: bool, p: Point, t: seq<Msg>, a: seq<Msg>, q: Point, u: seq<Msg>, m: seq<Msg>, b: seq<Msg>, p': Point)
    requires Link(h, server, p, t, a, q, u, m + b) && Leads(h, p, m, p')
    ensures Link(h, server, p', t + Hashed(m), a, q, u, b)
  {
    assert AllFrom(b, !server) by { assert forall x :: x in b ==> x in m + b; }
    if m == [] {
      assert m + b == b && t + Hashed(m) == t;
      LinkSilent(h, server, p, t, a, q, u, b, p');
    } else {
      assert m + b != [];
      HashedBoth(m, b);
      Remaining(h, p, m, p', b, q);
      assert t + Hashed(m) + Hashed(b) == t + (Hashed(m) + Hashed(b));
    }
  }

  lemma Remaining(h: Shared, p: Point, m: seq<Msg>, p': Point, b: seq<Msg>, q: Point)
    requires Leads(h, p, m + b, q) && Leads(h, p, m, p')
    ensures Leads(h, p', b, q)
  {
    ItemsBoth(m, b);
    Regroup(Items(m), Items(b), Rest(h, q));
    Cancel(Items(m), Rest(h, p'), Items(b) + Rest(h, q));
  }

  lemma Cancel(a: seq<Item>, x: seq<Item>, y: seq<Item>)
    requires a + x == a + y
    ensures x == y
  {
    assert x == (a + x)[|a|..] && y == (a + y)[|a|..];
  }

  // What is first on its way to an end is what the script has next for it.
  lemma NextPending(h: Shared, server: bool, p: Point, t: seq<Msg>, a: seq<Msg>, q: Point, u: seq<Msg>, b: seq<Msg>)
    requires Link(h, server, p, t, a, q, u, b) && b != []
    ensures First(h, p) == Some(ItemOf(b[0])) && b[0].fromServer != server && a == []
    ensures GoodContents(h, u) && b[0].kind != ChangeCipherSpec ==> Right(h, t, b[0])
  {
    assert b[0] in b;
    FirstIsHead(h, p);
    assert (Items(b) + Rest(h, q))[0] == ItemOf(b[0]);
    if GoodContents(h, u) && b[0].kind != ChangeCipherSpec {
      assert Hashed(b) == [b[0]] + Hashed(b[1..]);
      ContentsAt(h, u, |t|);
      assert u[..|t|] == t && u[|t|] == b[0];
    }
  }
}
