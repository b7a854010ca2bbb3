// What the proto3 check for default values means for the bytes.

module PbDefaults {
  import opened Basics
  import opened Bits
  import opened PbMessage
  import opened PbWire
  import PbVarint
  import PbRoundTrip

  predicate AllZero(s: seq<byte>) { forall k :: 0 <= k < |s| ==> s[k] == 0 }

  lemma ZeroVarint(v: nat)
    ensures AllZero(PbVarint.EncodeVarint(v)) <==> v == 0
  {
    var s := PbVarint.EncodeVarint(v);
    if v != 0 { assert s[0] != 0; }
  }

  lemma {:induction false} ZerosDecode(s: seq<byte>)
    requires AllZero(s)
    ensures DecodeFixed(s) == 0
  {
    if s != [] {
      forall k | 0 <= k < |s[1..]| ensures s[1..][k] == 0 { assert s[1..][k] == s[k + 1]; }
      ZerosDecode(s[1..]);
    }
  }

  lemma {:induction false} ZeroEncodes(n: nat)
    ensures AllZero(EncodeFixed(0, n))
  {
    if n > 0 { ZeroEncodes(n - 1); }
  }

  lemma ZeroNumber(k: Kind, size: nat, v: int)
    requires Packable(k) && EncodeNumber(k, size, v).Some?
    ensures AllZero(EncodeNumber(k, size, v).value) <==> v == 0
  {
    WordSizes();
    match k
    case Varint => ZeroVarint(PbVarint.ToUnsigned(v));
    case UVarint => ZeroVarint(v);
    case SVarint =>
      PbVarint.ZigZagValue(v);
      ZeroVarint(PbVarint.ZigZag(v));
    case Fixed32 => ZeroFixed(v, 4);
    case Fixed64 => ZeroFixed(v, 8);
  }

  lemma ZeroFixed(v: nat, n: nat)
    requires v < Shl(1, 8 * n)
    ensures AllZero(EncodeFixed(v, n)) <==> v == 0
  {
    PbRoundTrip.FixedRoundTrip(v, n);
    ZeroEncodes(n);
    if AllZero(EncodeFixed(v, n)) { ZerosDecode(EncodeFixed(v, n)); }
  }

  lemma ZeroString(b: seq<byte>)
    ensures AllZero(EncodeString(b)) <==> b == []
  {
    ZeroVarint(|b|);
    var s := PbVarint.EncodeVarint(|b|);
    if b == [] {
      assert EncodeString(b) == s;
    } else {
      assert s[0] != 0 && EncodeString(b)[0] == s[0];
    }
  }

  // A proto3 field is left out of an encoding if and only if its value would be written as
  // zero bytes: a number that is zero, nothing but a length of zero, or a submessage of which
  // everything is left out.
  lemma {:induction false} DefaultIsZero(f: Field, v: Value)
    requires WellFormedField(f) && Singular(f) && HeldValue(f, v) && EncodeValue(f, v).Some?
    ensures IsDefaultValue(f, v) <==> AllZero(EncodeValue(f, v).value)
  {
    match f.kind
    case Submessage(fs) =>
      DefaultIsEmpty(fs, v.slots);
      ZeroString(EncodeFrom(fs, v.slots, 0).value);
    case Bytes => ZeroString(v.b);
    case Str => ZeroString(CString(v.b, f.dataSize));
    case FixedBytes => ZeroString(v.b);
    case _ => ZeroNumber(f.kind, f.dataSize, v.v);
  }

  ghost predicate NothingFrom(fs: seq<Field>, m: seq<Slot>, i: nat)
    requires |fs| == |m|
  {
    forall k :: i <= k < |fs| ==> EncodeField(fs, m, k) == Some([])
  }

  lemma {:induction false} AllEmpty(fs: seq<Field>, m: seq<Slot>, i: nat)
    requires i <= |fs| == |m|
    ensures EncodeFrom(fs, m, i) == Some([]) <==> NothingFrom(fs, m, i)
    decreases |fs| - i
  {
    if i < |fs| {
      AllEmpty(fs, m, i + 1);
      NoneOfBoth(EncodeField(fs, m, i), EncodeFrom(fs, m, i + 1));
      assert NothingFrom(fs, m, i) <==> EncodeField(fs, m, i) == Some([]) && NothingFrom(fs, m, i + 1);
    }
  }

  lemma NoneOfBoth(a: Option<seq<byte>>, b: Option<seq<byte>>)
    ensures Append(a, b) == Some([]) <==> a == Some([]) && b == Some([])
  {
    if Append(a, b) == Some([]) { assert |a.value| + |b.value| == 0; }
  }

  ghost predicate AllDefault(fs: seq<Field>, m: seq<Slot>)
    requires |fs| == |m|
  {
    forall k :: 0 <= k < |fs| ==> IsDefaultSlot(fs, m, k)
  }

  // A submessage is default if and only if nothing is written for it.
  lemma {:induction false} DefaultIsEmpty(fs: seq<Field>, m: seq<Slot>)
    requires WellFormed(fs) && Held(fs, m) && forall g :: g in fs ==> !FixedCount(g)
    ensures AllDefault(fs, m) <==> EncodeFrom(fs, m, 0) == Some([])
  {
    AllEmpty(fs, m, 0);
    forall i | 0 <= i < |fs|
      ensures IsDefaultSlot(fs, m, i) ==> EncodeField(fs, m, i) == Some([])
      ensures !fs[i].rule.OneOf? && EncodeField(fs, m, i) == Some([]) ==> IsDefaultSlot(fs, m, i)
    {
      assert fs[i] in fs;
      SlotIsEmpty(fs, m, i);
    }
    if NothingFrom(fs, m, 0) {
      forall i | 0 <= i < |fs| && fs[i].rule.OneOf? ensures IsDefaultSlot(fs, m, i) { NoMember(fs, m, i); }
    }
  }

  lemma NeverEmpty(f: Field, v: Value)
    ensures EncodeTagged(f, v) != Some([])
  {
    NoneOfBoth(Some(EncodeTag(WireType(f.kind), f.tag)), EncodeValue(f, v));
  }

  lemma SlotIsEmpty(fs: seq<Field>, m: seq<Slot>, i: nat)
    requires WellFormed(fs) && Held(fs, m) && i < |fs| && !FixedCount(fs[i])
    ensures IsDefaultSlot(fs, m, i) ==> EncodeField(fs, m, i) == Some([])
    ensures !fs[i].rule.OneOf? && EncodeField(fs, m, i) == Some([]) ==> IsDefaultSlot(fs, m, i)
  {
    var f := fs[i];
    assert f in fs && WellFormedField(f) && HeldSlot(fs, m, i);
    if f.rule.Repeated? { ArrayIsEmpty(f, m[i].items, m[i].count); }
    if f.rule.OneOf? { PbRoundTrip.HomeIsOneof(fs, i); }
    if f.rule.Required? || f.rule.Optional? { NeverEmpty(f, m[i].value); }
  }

  lemma ArrayIsEmpty(f: Field, items: seq<Value>, count: nat)
    ensures EncodeArray(f, items, count) == Some([]) <==> count == 0
  {
    if 0 < count <= f.arraySize && count <= |items| && !Packable(f.kind) {
      NoneOfBoth(EncodeTagged(f, items[0]), EncodeItems(f, true, items, count, 1));
      NeverEmpty(f, items[0]);
    }
  }

  // A oneof of which no member is written has none.
  lemma NoMember(fs: seq<Field>, m: seq<Slot>, i: nat)
    requires WellFormed(fs) && Held(fs, m) && i < |fs| && fs[i].rule.OneOf? && NothingFrom(fs, m, 0)
    ensures IsDefaultSlot(fs, m, i)
  {
    var h := Home(fs, i);
    PbRoundTrip.HomeIsOneof(fs, i);
    assert HeldSlot(fs, m, h);
    if m[h].which != 0 {
      var k: nat :| k < |fs| && MemberOf(fs, h, k) && fs[k].tag == m[h].which;
      assert EncodeField(fs, m, k) == Some([]);
      NeverEmpty(fs[k], m[h].value);
    }
  }
}
