// Integers in network byte order.

module BigEndian {
  import opened Basics

  function ToBE(v: nat, n: nat): (r: seq<byte>)
    ensures |r| == n
  {
    if n == 0 then [] else ToBE(v / 256, n - 1) + [v % 256]
  }

  function FromBE(s: seq<byte>): nat {
    if s == [] then 0 else 256 * FromBE(s[..|s| - 1]) + s[|s| - 1]
  }

  // The numbers that n bytes can hold are those below Bound(n).
  function Bound(n: nat): nat {
    if n == 0 then 1 else 256 * Bound(n - 1)
  }

  lemma {:induction false} NumberRoundTrip(v: nat, n: nat)
    requires v < Bound(n)
    ensures FromBE(ToBE(v, n)) == v
  {
    if n > 0 {
      NumberRoundTrip(v / 256, n - 1);
      var r := ToBE(v, n);
      assert r[..n - 1] == ToBE(v / 256, n - 1);
    }
  }

  lemma {:induction false} BytesRoundTrip(s: seq<byte>)
    ensures FromBE(s) < Bound(|s|) && ToBE(FromBE(s), |s|) == s
  {
    if s != [] {
      BytesRoundTrip(s[..|s| - 1]);
      assert s == s[..|s| - 1] + [s[|s| - 1]];
    }
  }

  function ReadBE(s: seq<byte>, n: nat): (p: Parse<nat>)
    ensures p.Done? ==> |p.rest| + n == |s|
  {
    if n <= |s| then Done(FromBE(s[..n]), s[n..]) else Fail
  }

  lemma ReadsBack(v: nat, n: nat, rest: seq<byte>)
    requires v < Bound(n)
    ensures ReadBE(ToBE(v, n) + rest, n) == Done(v, rest)
  {
    NumberRoundTrip(v, n);
    var s := ToBE(v, n) + rest;
    assert s[..n] == ToBE(v, n) && s[n..] == rest;
  }
}
