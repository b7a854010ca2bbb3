// The bytes of the wire format, written out one by one.

module PbFormat {
  import opened Basics
  import opened PbMessage
  import opened PbWire
  import PbVarint
  import Bits

  function Power(base: nat, k: nat): (r: nat)
    ensures base > 0 ==> r > 0
  {
    if k == 0 then 1 else base * Power(base, k - 1)
  }

  // A varint holds the digits of the number to base 128, lowest first; all bytes but the last
  // have the top bit set.
  lemma {:induction false} VarintDigits(v: nat, k: nat)
    requires k < |PbVarint.EncodeVarint(v)|
    ensures var s := PbVarint.EncodeVarint(v);
            s[k] == (v / Power(128, k)) % 128 + if k + 1 < |s| then 128 else 0
    ensures k + 1 == |PbVarint.EncodeVarint(v)| <==> v / Power(128, k) < 128
  {
    if k > 0 {
      VarintDigits(v / 128, k - 1);
      DivideTwice(v, 128, Power(128, k - 1));
    }
  }

  // A fixed-width number holds its digits to base 256, lowest first.
  lemma {:induction false} FixedDigits(v: nat, n: nat, k: nat)
    requires k < n
    ensures EncodeFixed(v, n)[k] == (v / Power(256, k)) % 256
  {
    if k > 0 {
      FixedDigits(v / 256, n - 1, k - 1);
      DivideTwice(v, 256, Power(256, k - 1));
    }
  }

  lemma DivideTwice(v: nat, a: nat, b: nat)
    requires a > 0 && b > 0
    ensures a * b > 0 && v / a / b == v / (a * b)
  {
    var x, y := v / a, v % a;
    var z, w := x / b, x % b;
    Rearranged(a, b, z, w);
    RestBelow(a, b, w, y);
    assert v == z * (a * b) + (a * w + y);
    Bits.ModUnique(v, z, a * w + y, a * b);
  }

  lemma Rearranged(a: nat, b: nat, z: nat, w: nat)
    ensures a * (b * z + w) == z * (a * b) + a * w
  {
    assert a * (b * z + w) == a * (b * z) + a * w;
    assert a * (b * z) == (a * b) * z;
  }

  lemma RestBelow(a: nat, b: nat, w: nat, y: nat)
    requires w < b && y < a
    ensures a * w + y < a * b
  {
    assert a * (w + 1) == a * w + a;
    Grows(a, w + 1, b);
  }

  lemma Grows(a: nat, x: nat, y: nat)
    requires x <= y
    ensures a * x <= a * y
  {
    assert y == x + (y - x);
    assert a * y == a * x + a * (y - x);
  }
}
