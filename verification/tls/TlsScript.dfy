// The order of messages that the flags of a connection prescribe (section 7.3 of RFC 5246
// and section 3.1 of RFC 5077), as what is left of it at each state of either machine.

module TlsScript {
  import opened Basics
  import opened TlsMessages
  import C = TlsClient
  import S = TlsServer

  // Everything the two ends of a connection share. offeredId says that the client offered a
  // Channel ID, hasCert that it has a certificate.
  datatype Shared = Shared(x: Crypto, f: Flags, offeredId: bool, policy: S.Policy, hasCert: bool)

  // The flags before the server has decided on the Channel ID.
  function Offered(h: Shared): Flags { h.f.(channelId := h.offeredId) }

  predicate CertReq(h: Shared) { S.Requests(h.policy, Offered(h)) }

  // The two ends can agree at all.
  predicate Compatible(h: Shared) {
    && (h.f.channelId ==> h.offeredId)
    && (h.f.skeRequired ==> h.f.ske)
    && (CertReq(h) && !h.hasCert ==> !h.policy.requireCert)
  }

  datatype Item = Item(kind: Kind, fromServer: bool)

  // A point of the script, named after the message that comes there if any does.
  datatype Point =
    | AtHello | AtServerHello | AtCertificate | AtStatus | AtKeyExchange | AtRequest | AtHelloDone
    | AtClientCertificate | AtClientKeyExchange | AtVerify | AtClientCcs | AtNextProto | AtChannelId | AtClientFinished
    | AtTicket | AtServerCcs | AtServerFinished | AtEnd

  function ItemAt(h: Shared, p: Point): Option<Item> {
    match p
    case AtHello => Some(Item(ClientHello, false))
    case AtServerHello => Some(Item(ServerHello, true))
    case AtCertificate => Only(h.f.certAuth, Certificate, true)
    case AtStatus => Only(h.f.certAuth && h.f.status, CertificateStatus, true)
    case AtKeyExchange => Only(h.f.ske, ServerKeyExchange, true)
    case AtRequest => Only(CertReq(h), CertificateRequest, true)
    case AtHelloDone => Some(Item(ServerHelloDone, true))
    case AtClientCertificate => Only(CertReq(h), Certificate, false)
    case AtClientKeyExchange => Some(Item(ClientKeyExchange, false))
    case AtVerify => Only(CertReq(h) && h.hasCert, CertificateVerify, false)
    case AtClientCcs => Some(Item(ChangeCipherSpec, false))
    case AtNextProto => Only(h.f.npn, NextProto, false)
    case AtChannelId => Only(h.f.channelId, ChannelId, false)
    case AtClientFinished => Some(Item(Finished, false))
    case AtTicket => Only(h.f.ticket, NewSessionTicket, true)
    case AtServerCcs => Some(Item(ChangeCipherSpec, true))
    case AtServerFinished => Some(Item(Finished, true))
    case AtEnd => None
  }

  function Only(b: bool, k: Kind, fromServer: bool): Option<Item> { if b then Some(Item(k, fromServer)) else None }

  // In a resumption the client finishes after the server, otherwise before it.
  function Following(h: Shared, p: Point): Point {
    match p
    case AtHello => AtServerHello
    case AtServerHello => if h.f.resumed then AtTicket else AtCertificate
    case AtCertificate => AtStatus
    case AtStatus => AtKeyExchange
    case AtKeyExchange => AtRequest
    case AtRequest => AtHelloDone
    case AtHelloDone => AtClientCertificate
    case AtClientCertificate => AtClientKeyExchange
    case AtClientKeyExchange => AtVerify
    case AtVerify => AtClientCcs
    case AtClientCcs => AtNextProto
    case AtNextProto => AtChannelId
    case AtChannelId => AtClientFinished
    case AtClientFinished => if h.f.resumed then AtEnd else AtTicket
    case AtTicket => AtServerCcs
    case AtServerCcs => AtServerFinished
    case AtServerFinished => if h.f.resumed then AtClientCcs else AtEnd
    case AtEnd => AtEnd
  }

  function Distance(h: Shared, p: Point): nat {
    match p
    case AtHello => 18
    case AtServerHello => 17
    case AtCertificate => 16
    case AtStatus => 15
    case AtKeyExchange => 14
    case AtRequest => 13
    case AtHelloDone => 12
    case AtClientCertificate => 11
    case AtClientKeyExchange => 10
    case AtVerify => 9
    case AtClientCcs => 8
    case AtNextProto => 7
    case AtChannelId => 6
    case AtClientFinished => 5
    case AtTicket => if h.f.resumed then 14 else 4
    case AtServerCcs => if h.f.resumed then 13 else 3
    case AtServerFinished => if h.f.resumed then 12 else 2
    case AtEnd => 0
  }

  // What is left of the script from a point on.
  function Rest(h: Shared, p: Point): seq<Item>
    decreases Distance(h, p)
  {
    if p == AtEnd then []
    else if ItemAt(h, p).Some? then [ItemAt(h, p).value] + Rest(h, Following(h, p))
    else Rest(h, Following(h, p))
  }

  // The first message from a point on.
  function First(h: Shared, p: Point): Option<Item>
    decreases Distance(h, p)
  {
    if p == AtEnd then None else if ItemAt(h, p).Some? then ItemAt(h, p) else First(h, Following(h, p))
  }

  lemma {:induction false} FirstIsHead(h: Shared, p: Point)
    ensures First(h, p) == if Rest(h, p) == [] then None else Some(Rest(h, p)[0])
    decreases Distance(h, p)
  {
    if p != AtEnd && ItemAt(h, p) == None { FirstIsHead(h, Following(h, p)); }
  }

  lemma FirstOn(h: Shared, p: Point)
    requires p != AtEnd
    ensures First(h, p) == if ItemAt(h, p).Some? then ItemAt(h, p) else First(h, Following(h, p))
  {
  }

  // From p the messages m lead to q.
  ghost predicate Leads(h: Shared, p: Point, m: seq<Msg>, q: Point) { Rest(h, p) == Items(m) + Rest(h, q) }

  // No message comes between two points.
  predicate Skips(h: Shared, p: Point, q: Point) { p == q || (p != AtEnd && ItemAt(h, p) == None && Following(h, p) == q) }

  predicate Carries(h: Shared, p: Point, i: Item, q: Point) { p != AtEnd && ItemAt(h, p) == Some(i) && Following(h, p) == q }

  lemma LeadsNone(h: Shared, p: Point, q: Point)
    requires Skips(h, p, q)
    ensures Leads(h, p, [], q)
  {
    assert Items([]) + Rest(h, q) == Rest(h, q);
  }

  lemma LeadsOne(h: Shared, p: Point, m: Msg, q: Point)
    requires Carries(h, p, ItemOf(m), q)
    ensures Leads(h, p, [m], q)
  {
    assert Items([m]) == [ItemOf(m)];
  }

  lemma LeadsBoth(h: Shared, p: Point, m: seq<Msg>, q: Point, n: seq<Msg>, r: Point)
    requires Leads(h, p, m, q) && Leads(h, q, n, r)
    ensures Leads(h, p, m + n, r)
  {
    ItemsBoth(m, n);
    Regroup(Items(m), Items(n), Rest(h, r));
  }

  function Script(h: Shared): seq<Item> { Rest(h, AtHello) }

  // Where each machine is in the script.
  function ClientPoint(h: Shared, st: C.State): Point {
    match st
    case StartConnect => AtHello
    case EnterEarlyData => AtServerHello
    case ReadHelloVerifyRequest => AtServerHello
    case ReadServerHelloState => AtServerHello
    case ReadServerCertificate => AtCertificate
    case ReadCertificateStatus => AtStatus
    case VerifyServerCertificate => AtKeyExchange
    case ReadServerKeyExchange => AtKeyExchange
    case ReadCertificateRequest => AtRequest
    case ReadServerHelloDone => AtHelloDone
    case SendClientCertificate => AtClientCertificate
    case SendClientKeyExchange => AtClientKeyExchange
    case SendClientCertificateVerify => AtVerify
    case SendClientFinished => AtClientCcs
    case FinishFlight => if h.f.resumed then AtEnd else AtTicket
    case ReadSessionTicket => AtTicket
    case ProcessChangeCipherSpec => AtServerFinished
    case ReadServerFinished => AtServerFinished
    case FinishClientHandshake => AtEnd
    case Done => AtEnd
  }

  function ServerPoint(h: Shared, st: S.State): Point {
    match st
    case StartAccept => AtHello
    case ReadClientHello => AtHello
    case SelectCertificate => AtHello
    case SelectParameters => AtHello
    case SendServerHello => AtServerHello
    case SendServerCertificate => AtCertificate
    case SendServerKeyExchange => AtKeyExchange
    case SendServerHelloDone => AtRequest
    case ReadClientCertificate => AtClientCertificate
    case VerifyClientCertificate => AtClientKeyExchange
    case ReadClientKeyExchange => AtClientKeyExchange
    case ReadClientCertificateVerify => AtVerify
    case ReadChangeCipherSpecState => AtClientCcs
    case ProcessChangeCipherSpec => AtNextProto
    case ReadNextProto => AtNextProto
    case ReadChannelId => AtChannelId
    case ReadClientFinished => AtClientFinished
    case SendServerFinished => AtTicket
    case FinishServerHandshake => AtEnd
    case Done => AtEnd
  }

  // A machine that waits for a ChangeCipherSpec has already moved to the state after it.
  function ClientAt(h: Shared, st: C.State, w: Wait): Point {
    if w == ReadChangeCipherSpec then AtServerCcs else ClientPoint(h, st)
  }

  function ServerAt(h: Shared, st: S.State, w: Wait): Point {
    if w == ReadChangeCipherSpec then AtClientCcs else ServerPoint(h, st)
  }

  // --- Messages and items ---

  function ItemOf(m: Msg): Item { Item(m.kind, m.fromServer) }

  function Items(s: seq<Msg>): (r: seq<Item>)
    ensures |r| == |s|
  {
    seq(|s|, i requires 0 <= i < |s| => ItemOf(s[i]))
  }

  // The messages that are hashed.
  function Hashed(s: seq<Msg>): seq<Msg> {
    if s == [] then [] else (if s[0].kind == ChangeCipherSpec then [] else [s[0]]) + Hashed(s[1..])
  }

  lemma {:induction false} HashedBoth(a: seq<Msg>, b: seq<Msg>)
    ensures Hashed(a + b) == Hashed(a) + Hashed(b)
    decreases |a|
  {
    if a == [] {
      assert a + b == b;
    } else {
      assert (a + b)[1..] == a[1..] + b;
      HashedBoth(a[1..], b);
    }
  }

  lemma HashedOne(m: Msg)
    ensures Hashed([m]) == if m.kind == ChangeCipherSpec then [] else [m]
  {
    assert [m][1..] == [];
  }

  // --- What a transcript holds of the script ---

  // The items that are hashed.
  function Strip(s: seq<Item>): seq<Item> {
    if s == [] then [] else (if s[0].kind == ChangeCipherSpec then [] else [s[0]]) + Strip(s[1..])
  }

  lemma {:induction false} StripBoth(a: seq<Item>, b: seq<Item>)
    ensures Strip(a + b) == Strip(a) + Strip(b)
    decreases |a|
  {
    if a == [] {
      assert a + b == b;
    } else {
      assert (a + b)[1..] == a[1..] + b;
      StripBoth(a[1..], b);
    }
  }

  lemma {:induction false} StripItems(m: seq<Msg>)
    ensures Strip(Items(m)) == Items(Hashed(m))
    decreases |m|
  {
    if m != [] {
      assert Items(m)[1..] == Items(m[1..]);
      StripItems(m[1..]);
      assert Items(Hashed(m)) == (if m[0].kind == ChangeCipherSpec then [] else [ItemOf(m[0])]) + Items(Hashed(m[1..]));
    }
  }

  // The transcript at a point holds what comes before it in the script.
  ghost predicate Traced(h: Shared, t: seq<Msg>, p: Point) { Items(t) + Strip(Rest(h, p)) == Strip(Script(h)) }

  lemma TracedStep(h: Shared, t: seq<Msg>, p: Point, m: seq<Msg>, q: Point)
    requires Traced(h, t, p) && Leads(h, p, m, q)
    ensures Traced(h, t + Hashed(m), q)
  {
    StripLeads(h, p, m, q);
    ItemsBoth(t, Hashed(m));
    Regroup(Items(t), Items(Hashed(m)), Strip(Rest(h, q)));
  }

  lemma Regroup(a: seq<Item>, b: seq<Item>, c: seq<Item>)
    ensures a + (b + c) == (a + b) + c
  {
  }

  lemma ItemsBoth(a: seq<Msg>, b: seq<Msg>)
    ensures Items(a + b) == Items(a) + Items(b)
  {
  }

  lemma StripLeads(h: Shared, p: Point, m: seq<Msg>, q: Point)
    requires Leads(h, p, m, q)
    ensures Strip(Rest(h, p)) == Items(Hashed(m)) + Strip(Rest(h, q))
  {
    StripBoth(Items(m), Rest(h, q));
    StripItems(m);
  }

  // Where an item can be in any script.
  function Place(i: Item): Point {
    match i.kind
    case ClientHello => AtHello
    case ServerHello => AtServerHello
    case Certificate => if i.fromServer then AtCertificate else AtClientCertificate
    case CertificateStatus => AtStatus
    case ServerKeyExchange => AtKeyExchange
    case CertificateRequest => AtRequest
    case ServerHelloDone => AtHelloDone
    case ClientKeyExchange => AtClientKeyExchange
    case CertificateVerify => AtVerify
    case ChangeCipherSpec => if i.fromServer then AtServerCcs else AtClientCcs
    case NextProto => AtNextProto
    case ChannelId => AtChannelId
    case Finished => if i.fromServer then AtServerFinished else AtClientFinished
    case NewSessionTicket => AtTicket
    case _ => AtEnd
  }

  lemma ItsPlace(h: Shared, p: Point, i: Item)
    requires ItemAt(h, p) == Some(i)
    ensures Place(i) == p != AtEnd
  {
  }

  lemma {:induction false} PlaceInRest(h: Shared, p: Point, i: Item)
    requires i in Rest(h, p)
    ensures Place(i) != AtEnd && ItemAt(h, Place(i)) == Some(i) && Distance(h, Place(i)) <= Distance(h, p)
    decreases Distance(h, p)
  {
    var q := Following(h, p);
    if ItemAt(h, p) == Some(i) {
      ItsPlace(h, p, i);
    } else {
      assert i in Rest(h, q);
      PlaceInRest(h, q, i);
    }
  }

  // No message is in the script twice.
  lemma {:induction false} RestDistinct(h: Shared, p: Point)
    ensures Distinct(Rest(h, p))
    decreases Distance(h, p)
  {
    if p != AtEnd {
      var q := Following(h, p);
      RestDistinct(h, q);
      if ItemAt(h, p).Some? {
        var i := ItemAt(h, p).value;
        NotAgain(h, p, i);
        assert Rest(h, p) == [i] + Rest(h, q);
      }
    }
  }

  lemma {:induction false} NotAgain(h: Shared, p: Point, i: Item)
    requires p != AtEnd && ItemAt(h, p) == Some(i)
    ensures i !in Rest(h, Following(h, p))
  {
    ItsPlace(h, p, i);
    if i in Rest(h, Following(h, p)) { PlaceInRest(h, Following(h, p), i); }
  }

  lemma {:induction false} StripKeeps(s: seq<Item>)
    ensures forall i :: i in Strip(s) ==> i in s
  {
    if s != [] { StripKeeps(s[1..]); }
  }

  lemma {:induction false} StripDistinct(s: seq<Item>)
    requires Distinct(s)
    ensures Distinct(Strip(s))
  {
    if s != [] {
      var rest := s[1..];
      assert Distinct(rest) by { assert forall k :: 0 <= k < |rest| ==> rest[k] == s[k + 1]; }
      StripDistinct(rest);
      StripKeeps(rest);
      assert s[0] !in rest by { assert forall k :: 0 <= k < |rest| ==> rest[k] == s[k + 1] && s[0] != s[k + 1]; }
      assert s[0] !in Strip(rest);
    }
  }

  // No message is hashed twice.
  lemma TracedOnce(h: Shared, t: seq<Msg>, p: Point)
    requires Traced(h, t, p)
    ensures Distinct(Items(t))
  {
    RestDistinct(h, AtHello);
    StripDistinct(Script(h));
    var r := Strip(Script(h));
    assert forall j :: 0 <= j < |t| ==> r[j] == Items(t)[j];
  }

  // --- Secrets ---

  predicate HasKeyExchange(t: seq<Msg>) {
    t != [] && (HasKeyExchange(t[..|t| - 1]) || t[|t| - 1].kind == ClientKeyExchange)
  }

  // The transcript up to its ClientKeyExchange: what the master secret is computed from.
  function UpToKeyExchange(t: seq<Msg>): seq<Msg> {
    if t != [] && HasKeyExchange(t[..|t| - 1]) then UpToKeyExchange(t[..|t| - 1]) else t
  }

  lemma OneMore(t: seq<Msg>, m: Msg)
    ensures HasKeyExchange(t + [m]) == (HasKeyExchange(t) || m.kind == ClientKeyExchange)
    ensures UpToKeyExchange(t + [m]) == if HasKeyExchange(t) then UpToKeyExchange(t) else t + [m]
  {
    assert (t + [m])[..|t|] == t;
  }

  lemma {:induction false} UpToStays(t: seq<Msg>, more: seq<Msg>)
    requires HasKeyExchange(t)
    ensures HasKeyExchange(t + more) && UpToKeyExchange(t + more) == UpToKeyExchange(t)
    decreases |more|
  {
    if more == [] {
      assert t + more == t;
    } else {
      var n := |more| - 1;
      UpToStays(t, more[..n]);
      OneMore(t + more[..n], more[n]);
      assert t + more == t + more[..n] + [more[n]];
    }
  }

  // The master secret that goes with a transcript.
  function MasterOf(h: Shared, t: seq<Msg>): nat {
    if h.f.resumed then h.x.session else h.x.prf(UpToKeyExchange(t))
  }

  // Each Finished in a transcript has the verify data of what precedes it, and each
  // Certificate is empty only if its sender has none.
  predicate GoodContents(h: Shared, t: seq<Msg>) {
    t == [] || (GoodContents(h, t[..|t| - 1]) && Right(h, t[..|t| - 1], t[|t| - 1]))
  }

  predicate Right(h: Shared, t: seq<Msg>, m: Msg) {
    && (m.kind == Finished ==> m.body == h.x.mac(t, m.fromServer, MasterOf(h, t)))
    && RightCertificate(h, m)
  }

  predicate RightCertificate(h: Shared, m: Msg) {
    m.kind == Certificate ==> (m.body != 0 <==> m.fromServer || h.hasCert)
  }

  lemma {:induction false} ContentsAt(h: Shared, t: seq<Msg>, i: nat)
    requires GoodContents(h, t) && i < |t|
    ensures Right(h, t[..i], t[i])
    decreases |t|
  {
    if i < |t| - 1 {
      ContentsAt(h, t[..|t| - 1], i);
      assert t[..|t| - 1][..i] == t[..i];
    }
  }
}
