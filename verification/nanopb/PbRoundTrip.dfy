// Decoding what was encoded gives the message back, up to the contents of absent fields.

module PbRoundTrip {
  import opened Basics
  import opened Bits
  import opened PbVarint
  import opened PbMessage
  import opened PbWire

  // --- What can be read back ---

  // The decoder refuses a string without room for its terminator and a length that takes
  // more than 32 bits; the encoder writes both.
  ghost predicate ReadableValue(f: Field, v: Value)
    decreases f, 0
  {
    match f.kind
    case Str => v.Data? && |CString(v.b, f.dataSize)| < f.dataSize
    case Submessage(fs) => v.Msg? && |v.slots| == |fs| && Short(EncodeFrom(fs, v.slots, 0)) && Readable(fs, v.slots)
    case _ => true
  }

  ghost predicate Short(e: Option<seq<byte>>) { e.Some? ==> |e.value| < TWO32 }

  ghost predicate ReadableArray(f: Field, items: seq<Value>, count: nat)
    requires count <= |items|
    decreases f, 1
  {
    if Packable(f.kind) then Short(EncodeItems(f, false, items, count, 0))
    else forall k :: 0 <= k < count ==> ReadableValue(f, items[k])
  }

  // Only what is written has to be readable.
  ghost predicate ReadableSlot(fs: seq<Field>, m: seq<Slot>, i: nat)
    requires i < |fs| == |m|
    decreases fs, 0
  {
    var f := fs[i];
    match m[Home(fs, i)]
    case One(v) => (Singular(f) && IsDefaultValue(f, v)) || ReadableValue(f, v)
    case Opt(has, v) => has ==> ReadableValue(f, v)
    case Many(count, items) => count <= |items| && ReadableArray(f, items, count)
    case Fixed(items) => ReadableArray(f, items, |items|)
    case Union(which, v) => which == f.tag ==> ReadableValue(f, v)
    case Shared => true
  }

  ghost predicate Readable(fs: seq<Field>, m: seq<Slot>)
    requires |m| == |fs|
    decreases fs, 1
  {
    forall i :: 0 <= i < |fs| ==> ReadableSlot(fs, m, i)
  }

  // --- What decoding makes of what is there ---

  // There is room in the struct for what is decoded into it: arrays go on from their counts,
  // submessages are merged, and a oneof can leave the member it holds.
  ghost predicate RoomValue(f: Field, dest: Value, v: Value)
    decreases f, 0
  {
    f.kind.Submessage? && !f.rule.Repeated? ==>
      dest.Msg? && v.Msg? && |dest.slots| == |v.slots| == |f.kind.fields| && Room(f.kind.fields, dest.slots, v.slots)
  }

  ghost predicate RoomSlot(fs: seq<Field>, d: seq<Slot>, m: seq<Slot>, i: nat)
    requires i < |fs| == |m| == |d|
    decreases fs, 0
  {
    var f, a := fs[i], d[Home(fs, i)];
    match m[Home(fs, i)]
    case One(v) => (Singular(f) && IsDefaultValue(f, v)) || (a.One? && RoomValue(f, a.value, v))
    case Opt(has, v) => has ==> a.Opt? && RoomValue(f, a.value, v)
    case Many(count, _) => count == 0 || (a.Many? && a.count + count <= f.arraySize)
    case Fixed(_) => true
    case Union(which, _) => which == f.tag ==> a.Union? && (a.which == 0 || Find(fs, a.which) < |fs|)
    case Shared => true
  }

  ghost predicate Room(fs: seq<Field>, d: seq<Slot>, m: seq<Slot>)
    requires |m| == |fs| == |d|
    decreases fs, 1
  {
    forall i :: 0 <= i < |fs| ==> RoomSlot(fs, d, m, i)
  }

  // a is what was there, b what was encoded, r what is there after decoding.
  ghost predicate MergedValue(f: Field, a: Value, b: Value, r: Value)
    decreases f, 1
  {
    match f.kind
    case Submessage(fs) => a.Msg? && b.Msg? && r.Msg? && Merged(fs, a.slots, b.slots, r.slots)
    case _ => SameValue(f, b, r)
  }

  // What is absent from the encoding stays as it was; entries are added to an array; a oneof
  // and a fixed-count array are replaced; anything else is replaced or merged.
  ghost predicate MergedSlot(fs: seq<Field>, i: nat, a: Slot, b: Slot, r: Slot)
    requires i < |fs|
    decreases fs, 0
  {
    var f := fs[i];
    match f.rule
    case Required => a.One? && b.One? && r.One? && MergedValue(f, a.value, b.value, r.value)
    case Optional =>
      if HasSize(f) then
        b.Opt? && if b.has then a.Opt? && r.Opt? && r.has && MergedValue(f, a.value, b.value, r.value) else r == a
      else
        b.One? && if IsDefaultValue(f, b.value) then r == a else a.One? && r.One? && MergedValue(f, a.value, b.value, r.value)
    case Repeated =>
      if HasSize(f) then
        && b.Many?
        && if b.count == 0 then r == a else
           && a.Many? && r.Many? && r.count == a.count + b.count <= |r.items| == |a.items| && b.count <= |b.items|
           && (forall j :: 0 <= j < |r.items| && !(a.count <= j < r.count) ==> r.items[j] == a.items[j])
           && (forall j :: 0 <= j < b.count ==> SameValue(f, b.items[j], r.items[a.count + j]))
           && (forall j :: a.count <= j < r.count ==> ShapedValue(f, r.items[j]))
      else
        && b.Fixed? && r.Fixed? && |r.items| == |b.items|
        && (forall j :: 0 <= j < |b.items| ==> SameValue(f, b.items[j], r.items[j]))
        && (forall j :: 0 <= j < |b.items| ==> ShapedValue(f, r.items[j]))
    case OneOf =>
      if InsideUnion(fs, i) then r == a
      else if b.Union? && b.which != 0 then
        && r.Union? && r.which == b.which
        && forall k: nat :: k < |fs| && MemberOf(fs, i, k) && fs[k].tag == b.which ==> SameValue(fs[k], b.value, r.value)
      else r == a
  }

  ghost predicate Merged(fs: seq<Field>, a: seq<Slot>, b: seq<Slot>, r: seq<Slot>)
    decreases fs, 1
  {
    |a| == |b| == |r| == |fs| && forall i :: 0 <= i < |fs| ==> MergedSlot(fs, i, a[i], b[i], r[i])
  }

  // What is decoded into a struct fits and can be read.
  ghost predicate TakenValue(f: Field, dest: Value, v: Value) { ReadableValue(f, v) && RoomValue(f, dest, v) }

  ghost predicate TakenSlot(fs: seq<Field>, d: seq<Slot>, m: seq<Slot>, i: nat)
    requires i < |fs| == |m| == |d|
  {
    ReadableSlot(fs, m, i) && RoomSlot(fs, d, m, i)
  }

  ghost predicate TakenFrom(fs: seq<Field>, d: seq<Slot>, m: seq<Slot>, i: nat)
    requires |m| == |fs| == |d|
  {
    forall k :: i <= k < |fs| ==> TakenSlot(fs, d, m, k)
  }

  // --- Scalars ---

  lemma ShlEight(v: nat, n: nat)
    ensures Shl(v, 8 * (n + 1)) == 256 * Shl(v, 8 * n)
  {
    ShlTwice(v, 8 * n, 8);
    var x := Shl(v, 8 * n);
    ShlSeven(x, 1);
  }

  lemma {:induction false} FixedRoundTrip(v: nat, n: nat)
    requires v < Shl(1, 8 * n)
    ensures DecodeFixed(EncodeFixed(v, n)) == v
  {
    if n > 0 {
      ShlEight(1, n - 1);
      FixedRoundTrip(v / 256, n - 1);
      var e := EncodeFixed(v, n);
      assert e[0] == v % 256 && e[1..] == EncodeFixed(v / 256, n - 1);
    }
  }

  lemma FixedWord(v: nat, n: nat, w: nat)
    requires (n == 4 && w == 32 && v < TWO32) || (n == 8 && w == 64 && v < TWO64)
    ensures DecodeFixed(EncodeFixed(v, n)) == v
  {
    WordSizes();
    assert w == 8 * n;
    FixedRoundTrip(v, n);
  }

  lemma TakePrefix(b: seq<byte>, rest: seq<byte>)
    ensures Take(b + rest, |b|) == Done(b, rest)
  {
    assert (b + rest)[..|b|] == b && (b + rest)[|b|..] == rest;
  }

  lemma IntRoundTrip(k: Kind, size: nat, v: int)
    requires k.Varint? || k.SVarint?
    requires FitsSigned(size, v)
    ensures var u := if k.Varint? then ToUnsigned(v) else ZigZag(v);
            u < TWO64 && NumberOf(k, size, u) == Some(v)
  {
    ZigZagInverse(v, 0);
    SignedInverse(v);
  }

  lemma NumberRoundTrip(k: Kind, size: nat, v: int, rest: seq<byte>)
    requires Packable(k)
    ensures var e := EncodeNumber(k, size, v);
            e.Some? ==> DecodeNumber(k, size, e.value + rest) == Done(Int(v), rest)
  {
    var e := EncodeNumber(k, size, v);
    if e.Some? {
      match k
      case Varint =>
        IntRoundTrip(k, size, v);
        VarintRoundTrip(ToUnsigned(v), rest);
      case SVarint =>
        IntRoundTrip(k, size, v);
        VarintRoundTrip(ZigZag(v), rest);
      case UVarint =>
        VarintRoundTrip(v, rest);
      case Fixed32 =>
        FixedWord(v, 4, 32);
        TakePrefix(e.value, rest);
      case Fixed64 =>
        FixedWord(v, 8, 64);
        TakePrefix(e.value, rest);
    }
  }

  lemma StringRoundTrip(b: seq<byte>, rest: seq<byte>)
    requires |b| < TWO32
    ensures ReadVarint32(EncodeString(b) + rest) == Done(|b|, b + rest)
    ensures Delimited(EncodeString(b) + rest) == Done(b, rest)
  {
    assert EncodeString(b) + rest == EncodeVarint(|b|) + (b + rest);
    Varint32RoundTrip(|b|, b + rest);
    TakePrefix(b, rest);
  }

  lemma LongString(b: seq<byte>, rest: seq<byte>)
    requires TWO32 <= |b| < TWO63
    ensures Delimited(EncodeString(b) + rest) == Fail
  {
    assert EncodeString(b) + rest == EncodeVarint(|b|) + (b + rest);
    LongRejected32(|b|, b + rest);
  }

  // A string that fits its buffer has its terminator there.
  lemma {:induction false} CStringAgain(b: seq<byte>, n: nat)
    ensures CString(CString(b, n), n) == CString(b, n)
  {
    if !(n == 0 || b == [] || b[0] == 0) {
      CStringAgain(b[1..], n - 1);
      var c := CString(b, n);
      assert c[1..] == CString(b[1..], n - 1);
    }
  }

  lemma DataRoundTrip(f: Field, v: Value, rest: seq<byte>) returns (v': Value)
    requires f.kind.Bytes? || f.kind.Str? || f.kind.FixedBytes?
    requires f.dataSize <= PB_SIZE_MAX && HeldValue(f, v) && EncodeValue(f, v).Some?
    ensures ReadableValue(f, v) ==> DecodeData(f.kind, f.dataSize, EncodeValue(f, v).value + rest) == Done(v', rest)
    ensures ReadableValue(f, v) ==> SameValue(f, v, v')
    ensures !ReadableValue(f, v) ==> DecodeData(f.kind, f.dataSize, EncodeValue(f, v).value + rest) == Fail
  {
    var b := if f.kind.Str? then CString(v.b, f.dataSize) else v.b;
    StringRoundTrip(b, rest);
    TakePrefix(b, rest);
    CStringAgain(v.b, f.dataSize);
    v' := Data(b);
    if f.kind.FixedBytes? && |b| == 0 {
      assert b == Zeros(0);
      assert b + rest == rest;
    }
  }

  // --- Fresh structs ---

  // A struct as pb_message_set_to_defaults leaves it.
  ghost predicate Fresh(fs: seq<Field>, m: seq<Slot>) {
    Shaped(fs, m) && SetDefaults(fs, m) == m
  }

  lemma {:induction false} DefaultValueFresh(f: Field, v: Value)
    requires WellFormedField(f) && ShapedValue(f, v)
    ensures ShapedValue(f, DefaultValue(f, v)) && DefaultValue(f, DefaultValue(f, v)) == DefaultValue(f, v)
    decreases f, 1
  {
    if f.kind.Submessage? { SetDefaultsFresh(f.kind.fields, v.slots); }
  }

  lemma {:induction false} SetDefaultsFresh(fs: seq<Field>, m: seq<Slot>)
    requires WellFormed(fs) && Shaped(fs, m)
    ensures Fresh(fs, SetDefaults(fs, m))
    decreases fs, 0
  {
    var d := SetDefaults(fs, m);
    forall i | 0 <= i < |fs|
      ensures ShapedSlot(fs, i, d[i]) && DefaultSlot(fs[i], d[i]) == d[i]
    {
      assert fs[i] in fs && ShapedSlot(fs, i, m[i]);
      assert d[i] == DefaultSlot(fs[i], m[i]);
      if m[i].One? || m[i].Opt? { DefaultValueFresh(fs[i], m[i].value); }
    }
    assert SetDefaults(fs, d) == d;
  }

  lemma {:induction false} ZeroValueShaped(f: Field)
    requires WellFormedField(f)
    ensures ShapedValue(f, ZeroValue(f))
    decreases f, 1
  {
    if f.kind.Submessage? { ZeroMessageShaped(f.kind.fields); }
  }

  lemma {:induction false} ZeroMessageShaped(fs: seq<Field>)
    requires WellFormed(fs)
    ensures Shaped(fs, ZeroMessage(fs))
    decreases fs, 0
  {
    forall i | 0 <= i < |fs|
      ensures ShapedSlot(fs, i, ZeroMessage(fs)[i])
    {
      assert fs[i] in fs;
      ZeroValueShaped(fs[i]);
    }
  }

  // --- Values that are not written: proto3 fields holding their default ---

  lemma {:induction false} DefaultValueSame(f: Field, v: Value, dest: Value)
    requires WellFormedField(f) && Singular(f)
    requires HeldValue(f, v) && ShapedValue(f, dest) && IsDefaultValue(f, v)
    ensures SameValue(f, v, DefaultValue(f, dest))
    decreases f, 1
  {
    match f.kind
    case Submessage(fs) => DefaultMessageSame(fs, v.slots, dest.slots);
    case FixedBytes => assert v.b == Zeros(0);
    case _ =>
  }

  lemma {:induction false} DefaultMessageSame(fs: seq<Field>, m: seq<Slot>, d: seq<Slot>)
    requires WellFormed(fs) && Held(fs, m) && Shaped(fs, d)
    requires forall i :: 0 <= i < |fs| ==> IsDefaultSlot(fs, m, i)
    ensures Same(fs, m, SetDefaults(fs, d))
    decreases fs, 0
  {
    forall i | 0 <= i < |fs|
      ensures SameSlot(fs, i, m[i], SetDefaults(fs, d)[i])
    {
      assert fs[i] in fs && IsDefaultSlot(fs, m, i) && HeldSlot(fs, m, i) && ShapedSlot(fs, i, d[i]);
      if fs[i].rule.OneOf? {
        if !InsideUnion(fs, i) { ZeroTagFree(fs); }
      } else {
        assert Home(fs, i) == i;
        if Singular(fs[i]) { DefaultValueSame(fs[i], m[i].value, d[i].value); }
      }
    }
  }

  lemma ZeroTagFree(fs: seq<Field>)
    requires WellFormed(fs)
    ensures forall k :: 0 <= k < |fs| ==> fs[k].tag != 0
  {
    forall k | 0 <= k < |fs|
      ensures fs[k].tag != 0
    {
      assert fs[k] in fs;
    }
  }

  // --- Decoding into a struct that holds its defaults ---

  lemma FreshInside(f: Field, v: Value)
    requires ShapedValue(f, v) && DefaultValue(f, v) == v
    ensures f.kind.Submessage? ==> Fresh(f.kind.fields, v.slots)
  {
  }

  lemma {:induction false} MergedFreshValue(f: Field, d: Value, v: Value, r: Value)
    requires WellFormedField(f) && HeldValue(f, v) && ShapedValue(f, d)
    requires f.kind.Submessage? ==> Fresh(f.kind.fields, d.slots)
    requires MergedValue(f, d, v, r)
    ensures SameValue(f, v, r)
    decreases f, 1
  {
    if f.kind.Submessage? { MergedFresh(f.kind.fields, d.slots, v.slots, r.slots); }
  }

  // What is merged into defaults is what was encoded.
  lemma {:induction false} MergedFresh(fs: seq<Field>, d: seq<Slot>, m: seq<Slot>, r: seq<Slot>)
    requires WellFormed(fs) && Held(fs, m) && Fresh(fs, d) && Merged(fs, d, m, r)
    ensures Same(fs, m, r)
    decreases fs, 0
  {
    forall i | 0 <= i < |fs|
      ensures SameSlot(fs, i, m[i], r[i])
    {
      var f := fs[i];
      assert f in fs && HeldSlot(fs, m, i) && ShapedSlot(fs, i, d[i]) && DefaultSlot(f, d[i]) == d[i];
      assert MergedSlot(fs, i, d[i], m[i], r[i]);
      if f.rule.OneOf? {
        ZeroTagFree(fs);
      } else if Singular(f) && IsDefaultValue(f, m[i].value) {
        DefaultValueSame(f, m[i].value, d[i].value);
      } else if f.rule.Required? || (f.rule.Optional? && r[i] != d[i]) || Singular(f) {
        FreshInside(f, d[i].value);
        MergedFreshValue(f, d[i].value, m[i].value, r[i].value);
      }
    }
  }

  lemma {:induction false} MergedShapedValue(f: Field, a: Value, b: Value, r: Value)
    requires WellFormedField(f) && ShapedValue(f, a) && HeldValue(f, b) && MergedValue(f, a, b, r)
    ensures ShapedValue(f, r)
    decreases f, 1
  {
    if f.kind.Submessage? { MergedShaped(f.kind.fields, a.slots, b.slots, r.slots); }
  }

  // Decoding keeps the layout of the struct.
  lemma {:induction false} MergedShaped(fs: seq<Field>, a: seq<Slot>, b: seq<Slot>, r: seq<Slot>)
    requires WellFormed(fs) && Shaped(fs, a) && Held(fs, b) && Merged(fs, a, b, r)
    ensures Shaped(fs, r)
    decreases fs, 0
  {
    forall i | 0 <= i < |fs|
      ensures ShapedSlot(fs, i, r[i])
    {
      var f := fs[i];
      assert f in fs && WellFormedField(f) && ShapedSlot(fs, i, a[i]) && HeldSlot(fs, b, i) && MergedSlot(fs, i, a[i], b[i], r[i]);
      if f.rule.Repeated? {
        EntriesShaped(f, a[i], r[i]);
      } else if !f.rule.OneOf? && r[i] != a[i] {
        MergedShapedValue(f, a[i].value, b[i].value, r[i].value);
      }
    }
  }

  lemma EntriesShaped(f: Field, a: Slot, r: Slot)
    requires (a.Many? && r.Many?) || (a.Fixed? && r.Fixed?)
    requires |r.items| == |a.items| && forall v :: v in a.items ==> ShapedValue(f, v)
    requires forall j :: 0 <= j < |r.items| ==> r.items[j] == a.items[j] || ShapedValue(f, r.items[j])
    ensures forall v :: v in r.items ==> ShapedValue(f, v)
  {
    forall v | v in r.items ensures ShapedValue(f, v) {
      var j :| 0 <= j < |r.items| && r.items[j] == v;
      assert a.items[j] in a.items;
    }
  }

  lemma {:induction false} EachEncodes(fs: seq<Field>, m: seq<Slot>, i: nat, k: nat)
    requires |m| == |fs| && i <= k < |fs| && EncodeFrom(fs, m, i).Some?
    ensures EncodeField(fs, m, k).Some?
    decreases k - i
  {
    if i < k { EachEncodes(fs, m, i + 1, k); }
  }

  lemma {:induction false} RoomFreshValue(f: Field, d: Value, v: Value)
    requires WellFormedField(f) && HeldValue(f, v) && ShapedValue(f, d) && EncodeValue(f, v).Some?
    requires f.kind.Submessage? ==> Fresh(f.kind.fields, d.slots)
    ensures RoomValue(f, d, v)
    decreases f, 1
  {
    if f.kind.Submessage? { RoomFresh(f.kind.fields, d.slots, v.slots); }
  }

  // There is room for everything that has an encoding.
  lemma {:induction false} RoomFresh(fs: seq<Field>, d: seq<Slot>, m: seq<Slot>)
    requires WellFormed(fs) && Held(fs, m) && Fresh(fs, d) && EncodeFrom(fs, m, 0).Some?
    ensures Room(fs, d, m)
    decreases fs, 0
  {
    forall i | 0 <= i < |fs|
      ensures RoomSlot(fs, d, m, i)
    {
      var f, h := fs[i], Home(fs, i);
      EachEncodes(fs, m, 0, i);
      assert f in fs && HeldSlot(fs, m, i) && ShapedSlot(fs, h, d[h]) && DefaultSlot(fs[h], d[h]) == d[h];
      if f.rule.OneOf? {
        HomeIsOneof(fs, i);
        assert HeldSlot(fs, m, h);
      } else if !f.rule.Repeated? && (m[i].Opt? ==> m[i].has) && !(Singular(f) && IsDefaultValue(f, m[i].value)) {
        FreshInside(f, d[i].value);
        RoomFreshValue(f, d[i].value, m[i].value);
      }
    }
  }

  // --- One tagged value ---

  // A tag leads the decoder to its field.
  lemma TagStep(fs: seq<Field>, i: nat, wt: nat, st: RunState, s: seq<byte>)
    requires WellFormed(fs) && i < |fs| && wt < 8
    ensures Step(fs, st, EncodeTag(wt, fs[i].tag) + s) == DecodeField(fs, i, wt, st, s)
    ensures EncodeTag(wt, fs[i].tag) + s != []
  {
    assert fs[i] in fs;
    var t := fs[i].tag * 8 + wt;
    Varint32RoundTrip(t, s);
    assert t / 8 == fs[i].tag && t % 8 == wt && t != 0;
    var k := Find(fs, fs[i].tag);
    assert k == i;
  }

  // --- Progress of the loop ---

  // The fields before i have been decoded from the encoding of m; the rest of the struct is
  // still as in d.
  ghost predicate SlotAt(fs: seq<Field>, m: seq<Slot>, d: seq<Slot>, i: nat, st: RunState, j: nat)
    requires |fs| == |m| == |d| == |st.msg| && j < |fs|
  {
    if fs[j].rule.OneOf? then
      if m[j].Union? && m[j].which != 0 && Find(fs, m[j].which) < i then MergedSlot(fs, j, d[j], m[j], st.msg[j])
      else st.msg[j] == d[j]
    else if j < i then MergedSlot(fs, j, d[j], m[j], st.msg[j]) else st.msg[j] == d[j]
  }

  // A fixed-count field that writes something.
  predicate FixedWritten(f: Field) { FixedCount(f) && f.arraySize > 0 }

  // The next such field from i on, and the last before i; |fs| if there is none.
  function NextFixed(fs: seq<Field>, i: nat): nat
    decreases |fs| - i
  {
    if i >= |fs| then |fs| else if FixedWritten(fs[i]) then i else NextFixed(fs, i + 1)
  }

  function LastFixed(fs: seq<Field>, i: nat): nat
    requires i <= |fs|
  {
    if i == 0 then |fs| else if FixedWritten(fs[i - 1]) then i - 1 else LastFixed(fs, i - 1)
  }

  ghost predicate Filled(fs: seq<Field>, fixed: Option<(nat, nat)>) {
    fixed == None || (fixed.value.0 < |fs| && fixed.value.1 == fs[fixed.value.0].arraySize)
  }

  ghost predicate FixedAt(fs: seq<Field>, i: nat, fixed: Option<(nat, nat)>)
    requires i <= |fs|
  {
    Filled(fs, fixed) && (LastFixed(fs, i) < |fs| ==> fixed.Some? && fixed.value.0 == LastFixed(fs, i))
  }

  // The fixed-count field that was filled last is not the next one to be filled, whose count
  // would go on instead of beginning again.
  ghost predicate Onward(fs: seq<Field>, i: nat, fixed: Option<(nat, nat)>) {
    fixed == None || fixed.value.0 != NextFixed(fs, i) || NextFixed(fs, i) >= |fs|
  }

  ghost predicate Progress(fs: seq<Field>, m: seq<Slot>, d: seq<Slot>, i: nat, st: RunState) {
    && |fs| == |m| == |d| == |st.msg| && i <= |fs|
    && (forall j :: 0 <= j < |fs| ==> SlotAt(fs, m, d, i, st, j))
    && (forall j :: 0 <= j < i && fs[j].rule.Required? ==> j in st.seen)
    && FixedAt(fs, i, st.fixed)
  }

  // The context of every lemma about field i of the message m decoded into d.
  ghost predicate Setting(fs: seq<Field>, m: seq<Slot>, d: seq<Slot>) {
    WellFormed(fs) && Held(fs, m) && Shaped(fs, d)
  }

  lemma OneSlotDone(fs: seq<Field>, m: seq<Slot>, d: seq<Slot>, i: nat, st: RunState, slot: Slot, seen: set<nat>)
    requires Setting(fs, m, d) && i < |fs| && Progress(fs, m, d, i, st)
    requires !fs[i].rule.OneOf? && !FixedWritten(fs[i]) && MergedSlot(fs, i, d[i], m[i], slot)
    requires st.seen <= seen && (fs[i].rule.Required? ==> i in seen)
    ensures Progress(fs, m, d, i + 1, st.(msg := st.msg[i := slot], seen := seen))
  {
    var st', n := st.(msg := st.msg[i := slot], seen := seen), i + 1;
    forall j | 0 <= j < |fs|
      ensures SlotAt(fs, m, d, n, st', j)
    {
      assert SlotAt(fs, m, d, i, st, j);
      if fs[j].rule.OneOf? && m[j].Union? && m[j].which != 0 && Find(fs, m[j].which) == i {
        WhichIsOneof(fs, m, j);
      }
    }
  }

  // The tag a oneof holds belongs to one of its members.
  lemma WhichIsOneof(fs: seq<Field>, m: seq<Slot>, j: nat)
    requires WellFormed(fs) && Held(fs, m) && j < |fs|
    requires fs[j].rule.OneOf? && m[j].Union? && m[j].which != 0
    ensures var k := Find(fs, m[j].which); k < |fs| && MemberOf(fs, j, k)
  {
    assert HeldSlot(fs, m, j);
    var k: nat :| k < |fs| && MemberOf(fs, j, k) && fs[k].tag == m[j].which;
    assert k == Find(fs, m[j].which);
  }

  // A field that writes nothing.
  lemma NothingWritten(fs: seq<Field>, m: seq<Slot>, d: seq<Slot>, i: nat, st: RunState)
    requires Setting(fs, m, d) && i < |fs| && Progress(fs, m, d, i, st)
    requires !fs[i].rule.Required? && !FixedWritten(fs[i])
    requires !fs[i].rule.OneOf? ==> MergedSlot(fs, i, d[i], m[i], d[i])
    requires fs[i].rule.OneOf? ==> m[Home(fs, i)].Union? && m[Home(fs, i)].which != fs[i].tag
    ensures Progress(fs, m, d, i + 1, st)
  {
    var n := i + 1;
    forall j | 0 <= j < |fs|
      ensures SlotAt(fs, m, d, n, st, j)
    {
      assert SlotAt(fs, m, d, i, st, j);
      if fs[j].rule.OneOf? && m[j].Union? && m[j].which != 0 && Find(fs, m[j].which) == i {
        WhichIsOneof(fs, m, j);
      }
    }
  }

  // The member a oneof holds has been decoded into the shared storage.
  lemma OneofDone(fs: seq<Field>, m: seq<Slot>, d: seq<Slot>, i: nat, st: RunState, v': Value)
    requires Setting(fs, m, d) && i < |fs| && Progress(fs, m, d, i, st)
    requires fs[i].rule.OneOf? && m[Home(fs, i)].Union? && m[Home(fs, i)].which == fs[i].tag
    requires SameValue(fs[i], m[Home(fs, i)].value, v')
    ensures Progress(fs, m, d, i + 1, st.(msg := st.msg[Home(fs, i) := Union(fs[i].tag, v')]))
  {
    var h, n := Home(fs, i), i + 1;
    var st' := st.(msg := st.msg[h := Union(fs[i].tag, v')]);
    HomeIsOneof(fs, i);
    assert fs[i] in fs && WellFormedField(fs[i]);
    assert Find(fs, fs[i].tag) == i;
    assert MergedSlot(fs, h, d[h], m[h], st'.msg[h]) by {
      assert forall k: nat :: k < |fs| && fs[k].tag == fs[i].tag ==> k == i;
    }
    forall j | 0 <= j < |fs|
      ensures SlotAt(fs, m, d, n, st', j)
    {
      assert SlotAt(fs, m, d, i, st, j);
      if j == h {
        assert m[j].which == fs[i].tag != 0;
      } else {
        assert st'.msg[j] == st.msg[j];
        if fs[j].rule.OneOf? && m[j].Union? && m[j].which != 0 && Find(fs, m[j].which) == i {
          WhichIsOneof(fs, m, j);
        }
      }
    }
  }

  lemma {:induction false} HomeIsOneof(fs: seq<Field>, i: nat)
    requires i < |fs| && fs[i].rule.OneOf?
    ensures fs[Home(fs, i)].rule.OneOf? && !InsideUnion(fs, Home(fs, i)) && Home(fs, Home(fs, i)) == Home(fs, i)
  {
    if InsideUnion(fs, i) { HomeIsOneof(fs, i - 1); }
  }

  // --- Packed arrays ---

  // Entries of a packed array are stored behind the first c of the array, if they all fit.
  lemma {:induction false} PackedRoundTrip(f: Field, c: nat, src: seq<Value>, count: nat, j: nat, items: seq<Value>)
    returns (out: seq<Value>)
    requires Packable(f.kind) && j <= count <= |src| && |items| == f.arraySize && count > 0
    requires EncodeItems(f, false, src, count, j).Some?
    requires j > 0 ==> c + j <= f.arraySize
    requires forall k :: 0 <= k < j ==> items[c + k] == src[k]
    ensures DecodePacked(f, c + j, items, EncodeItems(f, false, src, count, j).value)
         == if c + count <= f.arraySize then Some((c + count, out)) else None
    ensures c + count <= f.arraySize ==> Appended(items, c, src, count, out)
    decreases count - j
  {
    out := items;
    if j < count {
      var e, rest := EncodeValue(f, src[j]).value, EncodeItems(f, false, src, count, j + 1).value;
      NumberRoundTrip(f.kind, f.dataSize, src[j].v, rest);
      assert e + rest != [];
      if c + j < f.arraySize {
        out := PackedRoundTrip(f, c, src, count, j + 1, items[c + j := src[j]]);
      }
    }
  }

  // The entries from c on are those of src, and the others are as they were.
  ghost predicate Appended(items: seq<Value>, c: nat, src: seq<Value>, count: nat, out: seq<Value>)
    requires count <= |src|
  {
    && c + count <= |items| && Around(items, c, count, out)
    && (forall k :: 0 <= k < count ==> out[c + k] == src[k])
  }

  // Nothing but count entries from c on has changed.
  ghost predicate Around(items: seq<Value>, c: nat, count: nat, out: seq<Value>) {
    |out| == |items| && forall k :: 0 <= k < |items| && !(c <= k < c + count) ==> out[k] == items[k]
  }

  // --- The entries of a repeated field ---

  // The first count values of src are in the array from c on.
  ghost predicate Entered(f: Field, c: nat, src: seq<Value>, count: nat, out: seq<Value>) {
    && count <= |src| && c + count <= |out|
    && (forall k :: 0 <= k < count ==> SameValue(f, src[k], out[c + k]))
    && (forall k :: c <= k < c + count ==> ShapedValue(f, out[k]))
  }

  // The decoder is about to store entry j of the repeated field i.
  ghost predicate AtItem(fs: seq<Field>, i: nat, st: RunState, j: nat, items: seq<Value>)
    requires i < |fs|
  {
    && |st.msg| == |fs| && fs[i].rule.Repeated? && |items| == fs[i].arraySize
    && if HasSize(fs[i]) then st.msg[i] == Many(j, items)
       else st.msg[i] == Fixed(items) && EnterFixed(fs, i, st.fixed) == Some((i, j))
  }

  // The state after storing up to entry j.
  ghost function Stored(fs: seq<Field>, i: nat, st: RunState, j: nat, items: seq<Value>): RunState
    requires i < |fs| == |st.msg|
  {
    if HasSize(fs[i]) then st.(msg := st.msg[i := Many(j, items)])
    else st.(msg := st.msg[i := Fixed(items)], fixed := Some((i, j)))
  }

  lemma RepeatedStep(fs: seq<Field>, i: nat, wt: nat, st: RunState, j: nat, items: seq<Value>, s: seq<byte>)
    requires WellFormed(fs) && i < |fs| && wt < 8 && AtItem(fs, i, st, j, items)
    ensures var p := DecodeRepeated(fs[i], wt, j, items, s);
            && (p.Done? ==> Step(fs, st, EncodeTag(wt, fs[i].tag) + s) == Next(Stored(fs, i, st, p.value.0, p.value.1), p.rest))
            && (p.Fail? ==> Step(fs, st, EncodeTag(wt, fs[i].tag) + s) == Bad)
    ensures EncodeTag(wt, fs[i].tag) + s != []
  {
    TagStep(fs, i, wt, st, s);
    assert Home(fs, i) == i;
  }

  // A packed array arrives in one step.
  lemma PackedStep(fs: seq<Field>, i: nat, st: RunState, c: nat, src: seq<Value>, count: nat, items: seq<Value>, rest: seq<byte>)
    returns (out: seq<Value>)
    requires WellFormed(fs) && i < |fs| && AtItem(fs, i, st, c, items)
    requires Packable(fs[i].kind) && 0 < count <= |src| && count <= fs[i].arraySize
    requires EncodeArray(fs[i], src, count).Some? && |EncodeArray(fs[i], src, count).value| < TWO63
    ensures c + count <= fs[i].arraySize ==> Appended(items, c, src, count, out)
    ensures Run(fs, st, EncodeArray(fs[i], src, count).value + rest)
         == Ran(ReadableArray(fs[i], src, count) && c + count <= fs[i].arraySize, fs, Stored(fs, i, st, c + count, out), rest)
  {
    var s;
    out, s := PackedArray(fs[i], c, src, count, items, rest);
    RepeatedStep(fs, i, WT_STRING, st, c, items, s);
  }

  // The tag of a packed array and what follows it.
  lemma PackedArray(f: Field, c: nat, src: seq<Value>, count: nat, items: seq<Value>, rest: seq<byte>)
    returns (out: seq<Value>, s: seq<byte>)
    requires Packable(f.kind) && 0 < count <= |src| && |items| == f.arraySize
    requires EncodeArray(f, src, count).Some? && |EncodeArray(f, src, count).value| < TWO63
    ensures EncodeArray(f, src, count).value + rest == EncodeTag(WT_STRING, f.tag) + s
    ensures c + count <= f.arraySize ==> Appended(items, c, src, count, out)
    ensures DecodeRepeated(f, WT_STRING, c, items, s)
         == if ReadableArray(f, src, count) && c + count <= f.arraySize then Done((c + count, out), rest) else Fail
  {
    var payload := EncodeItems(f, false, src, count, 0).value;
    s := EncodeString(payload) + rest;
    out := PackedRoundTrip(f, c, src, count, 0, items);
    PackedReads(f, payload, c, items, rest);
    TagThenString(WT_STRING, f.tag, payload, rest);
  }

  lemma PackedReads(f: Field, payload: seq<byte>, c: nat, items: seq<Value>, rest: seq<byte>)
    requires Packable(f.kind) && |payload| < TWO63
    ensures DecodeRepeated(f, WT_STRING, c, items, EncodeString(payload) + rest)
         == if |payload| < TWO32 && DecodePacked(f, c, items, payload).Some?
            then Done(DecodePacked(f, c, items, payload).value, rest) else Fail
  {
    if |payload| < TWO32 { StringRoundTrip(payload, rest); } else { LongString(payload, rest); }
  }

  lemma TagThenString(wt: nat, tag: nat, payload: seq<byte>, rest: seq<byte>)
    ensures EncodeTag(wt, tag) + EncodeString(payload) + rest == EncodeTag(wt, tag) + (EncodeString(payload) + rest)
  {
  }

  // --- Facts about the initial struct ---

  // A field that is not written leaves what was there.
  lemma AbsentMerged(fs: seq<Field>, m: seq<Slot>, d: seq<Slot>, i: nat)
    requires Setting(fs, m, d) && i < |fs|
    requires fs[i].rule.Required? || fs[i].rule.Optional?
    requires EncodeField(fs, m, i) == Some([])
    ensures !fs[i].rule.Required? && MergedSlot(fs, i, d[i], m[i], d[i]) && TakenSlot(fs, d, m, i)
  {
    var f := fs[i];
    assert f in fs && WellFormedField(f) && Home(fs, i) == i;
    assert HeldSlot(fs, m, i) && ShapedSlot(fs, i, d[i]);
  }

  // A oneof member is decoded into cleared and reset storage.
  lemma OneofReady(fs: seq<Field>, i: nat, which: nat, v: Value)
    requires WellFormed(fs) && i < |fs| && fs[i].rule.OneOf?
    ensures Oneof(fs, i, which, v).Some? <==> which == 0 || Find(fs, which) < |fs|
    ensures Oneof(fs, i, which, v).Some? ==>
              var w := Oneof(fs, i, which, v).value;
              ShapedValue(fs[i], w) && (fs[i].kind.Submessage? ==> Fresh(fs[i].kind.fields, w.slots))
  {
    var f := fs[i];
    assert f in fs && WellFormedField(f);
    assert fs[i].tag == f.tag;
    if f.kind.Submessage? {
      ZeroMessageShaped(f.kind.fields);
      SetDefaultsFresh(f.kind.fields, ZeroMessage(f.kind.fields));
    }
  }

  // --- The bytes of one tagged value ---

  // A tagged value of field i, followed by rest, is consumed by one step of the loop.
  lemma TaggedRun(fs: seq<Field>, i: nat, st: RunState, v: Value, rest: seq<byte>)
    requires WellFormed(fs) && i < |fs| && EncodeTagged(fs[i], v).Some?
    ensures var d := DecodeField(fs, i, WireType(fs[i].kind), st, EncodeValue(fs[i], v).value + rest);
            Run(fs, st, EncodeTagged(fs[i], v).value + rest) == if d.Next? then Run(fs, d.st, d.rest) else Broken
  {
    var s := EncodeValue(fs[i], v).value + rest;
    assert EncodeTagged(fs[i], v).value + rest == EncodeTag(WireType(fs[i].kind), fs[i].tag) + s;
    TagStep(fs, i, WireType(fs[i].kind), st, s);
  }

  ghost function SingleSlot(f: Field, v: Value): Slot {
    if HasSize(f) && f.rule.Optional? then Opt(true, v) else One(v)
  }

  ghost function SeenWith(f: Field, i: nat, seen: set<nat>): set<nat> {
    if f.rule.Required? then seen + {i} else seen
  }

  // The outcomes of reading something that can be taken or not.
  ghost function Read(ok: bool, v: Value, rest: seq<byte>): Parse<Value> { if ok then Done(v, rest) else Fail }

  ghost function Stepped(ok: bool, st: RunState, rest: seq<byte>): StepResult { if ok then Next(st, rest) else Bad }

  ghost function Ran(ok: bool, fs: seq<Field>, st: RunState, rest: seq<byte>): RunResult { if ok then Run(fs, st, rest) else Broken }

  lemma SingleField(fs: seq<Field>, i: nat, wt: nat, st: RunState, dest: Value, ok: bool, v': Value, s: seq<byte>, rest: seq<byte>)
    requires i < |fs| == |st.msg| && (fs[i].rule.Required? || fs[i].rule.Optional?)
    requires if HasSize(fs[i]) && fs[i].rule.Optional? then st.msg[i].Opt? && st.msg[i].value == dest else st.msg[i] == One(dest)
    requires DecodeValue(fs[i], dest, s) == Read(ok, v', rest)
    ensures DecodeField(fs, i, wt, st, s)
         == Stepped(ok, st.(msg := st.msg[i := SingleSlot(fs[i], v')], seen := SeenWith(fs[i], i, st.seen)), rest)
  {
    assert Home(fs, i) == i;
  }

  lemma OneofField(fs: seq<Field>, i: nat, wt: nat, st: RunState, start: Option<Value>, ok: bool, v': Value, s: seq<byte>, rest: seq<byte>)
    requires i < |fs| == |st.msg| && fs[i].rule.OneOf? && st.msg[Home(fs, i)].Union?
    requires start == Oneof(fs, i, st.msg[Home(fs, i)].which, st.msg[Home(fs, i)].value)
    requires start.Some? ==> DecodeValue(fs[i], start.value, s) == Read(ok, v', rest)
    ensures DecodeField(fs, i, wt, st, s)
         == Stepped(ok && start.Some?, st.(msg := st.msg[Home(fs, i) := Union(fs[i].tag, v')]), rest)
  {
  }

  lemma ItemField(fs: seq<Field>, i: nat, st: RunState, j: nat, items: seq<Value>, ok: bool, v': Value, s: seq<byte>, rest: seq<byte>)
    requires i < |fs| && AtItem(fs, i, st, j, items) && !Packable(fs[i].kind)
    requires j < |items| ==> DecodeValue(fs[i], items[j], s) == Read(ok, v', rest)
    ensures DecodeField(fs, i, WireType(fs[i].kind), st, s)
         == if j < |items| then Stepped(ok, Stored(fs, i, st, j + 1, items[j := v']), rest) else Bad
  {
    assert Home(fs, i) == i;
  }

  // The entries from j on are entry j and the entries from j + 1 on.
  lemma ItemsSplit(f: Field, src: seq<Value>, count: nat, j: nat, rest: seq<byte>)
    requires j < count <= |src| && EncodeItems(f, true, src, count, j).Some?
    ensures EncodeValue(f, src[j]).Some? && EncodeTagged(f, src[j]).Some? && EncodeItems(f, true, src, count, j + 1).Some?
    ensures EncodeItems(f, true, src, count, j).value + rest
         == EncodeTagged(f, src[j]).value + (EncodeItems(f, true, src, count, j + 1).value + rest)
    ensures |EncodeValue(f, src[j]).value| <= |EncodeItems(f, true, src, count, j).value|
    ensures |EncodeItems(f, true, src, count, j + 1).value| <= |EncodeItems(f, true, src, count, j).value|
  {
  }

  // One more tagged entry of a repeated field.
  lemma ItemRun(fs: seq<Field>, i: nat, st: RunState, v: Value, j: nat, items: seq<Value>, ok: bool, v': Value, more: seq<byte>)
    requires WellFormed(fs) && i < |fs| && AtItem(fs, i, st, j, items) && !Packable(fs[i].kind)
    requires EncodeValue(fs[i], v).Some?
    requires j < |items| ==> DecodeValue(fs[i], items[j], EncodeValue(fs[i], v).value + more) == Read(ok, v', more)
    ensures Run(fs, st, EncodeTagged(fs[i], v).value + more)
         == if j < |items| then Ran(ok, fs, Stored(fs, i, st, j + 1, items[j := v']), more) else Broken
  {
    ItemField(fs, i, st, j, items, ok, v', EncodeValue(fs[i], v).value + more, more);
    TaggedRun(fs, i, st, v, more);
  }

  lemma StoredTwice(fs: seq<Field>, i: nat, st: RunState, j: nat, items: seq<Value>, k: nat, out: seq<Value>)
    requires i < |fs| == |st.msg| && |items| == fs[i].arraySize && fs[i].rule.Repeated?
    ensures Stored(fs, i, Stored(fs, i, st, j, items), k, out) == Stored(fs, i, st, k, out)
    ensures AtItem(fs, i, Stored(fs, i, st, j, items), j, items)
  {
  }

  // The first j entries are in place behind c others, and the rest can be decoded.
  ghost predicate ItemsReady(f: Field, c: nat, src: seq<Value>, items: seq<Value>, j: nat, count: nat) {
    && j <= count <= |src| && (j > 0 ==> c + j <= |items|)
    && (forall k :: 0 <= k < j ==> SameValue(f, src[k], items[c + k]))
    && (forall k :: j <= k < count ==> HeldValue(f, src[k]))
    && (forall k :: c <= k < |items| ==> ShapedValue(f, items[k]))
  }

  lemma ItemStored(f: Field, c: nat, src: seq<Value>, items: seq<Value>, j: nat, count: nat, v: Value)
    requires ItemsReady(f, c, src, items, j, count) && j < count && c + j < |items| && SameValue(f, src[j], v) && ShapedValue(f, v)
    ensures ItemsReady(f, c, src, items[c + j := v], j + 1, count)
  {
  }

  ghost predicate ReadableItems(f: Field, src: seq<Value>, j: nat, count: nat)
    requires j <= count <= |src|
  {
    forall k :: j <= k < count ==> ReadableValue(f, src[k])
  }

  lemma ReadableNext(f: Field, src: seq<Value>, j: nat, count: nat)
    requires j < count <= |src|
    ensures ReadableItems(f, src, j, count) <==> ReadableValue(f, src[j]) && ReadableItems(f, src, j + 1, count)
  {
  }

  // --- The main induction, over the descriptor ---

  // One value of any kind, submessages included, decoded into whatever there is.
  lemma {:induction false} ValueRoundTrip(f: Field, v: Value, dest: Value, rest: seq<byte>) returns (v': Value)
    requires WellFormedField(f) && HeldValue(f, v) && ShapedValue(f, dest)
    requires EncodeValue(f, v).Some? && |EncodeValue(f, v).value| < TWO63
    ensures DecodeValue(f, dest, EncodeValue(f, v).value + rest) == Read(TakenValue(f, dest, v), v', rest)
    ensures TakenValue(f, dest, v) ==>
              if f.rule.Repeated? then SameValue(f, v, v') && ShapedValue(f, v') else MergedValue(f, dest, v, v')
    decreases f, 0, 0, 0
  {
    match f.kind
    case Submessage(fs) => v' := SubmessageRoundTrip(f, v, dest, rest);
    case Bytes => v' := DataRoundTrip(f, v, rest);
    case Str => v' := DataRoundTrip(f, v, rest);
    case FixedBytes => v' := DataRoundTrip(f, v, rest);
    case _ =>
      NumberRoundTrip(f.kind, f.dataSize, v.v, rest);
      v' := v;
  }

  lemma {:induction false} SubmessageRoundTrip(f: Field, v: Value, dest: Value, rest: seq<byte>) returns (v': Value)
    requires f.kind.Submessage? && WellFormedField(f) && HeldValue(f, v) && ShapedValue(f, dest)
    requires EncodeValue(f, v).Some? && |EncodeValue(f, v).value| < TWO63
    ensures DecodeValue(f, dest, EncodeValue(f, v).value + rest) == Read(TakenValue(f, dest, v), v', rest)
    ensures TakenValue(f, dest, v) ==>
              if f.rule.Repeated? then SameValue(f, v, v') && ShapedValue(f, v') else MergedValue(f, dest, v, v')
    decreases f.kind.fields, |f.kind.fields| + 2, 0, 0
  {
    var fs := f.kind.fields;
    var c := EncodeFrom(fs, v.slots, 0).value;
    v' := v;
    if |c| >= TWO32 {
      LongString(c, rest);
    } else {
      StringRoundTrip(c, rest);
      var start := if f.rule.Repeated? then SetDefaults(fs, dest.slots) else dest.slots;
      if f.rule.Repeated? {
        SetDefaultsFresh(fs, dest.slots);
        RoomFresh(fs, start, v.slots);
      }
      var m' := MessageRoundTrip(fs, v.slots, start);
      v' := Msg(m');
      if f.rule.Repeated? && Readable(fs, v.slots) {
        MergedFresh(fs, start, v.slots, m');
        MergedShaped(fs, start, v.slots, m');
      }
    }
  }

  // A message decoded into any struct: it is merged into what is there.
  lemma {:induction false} MessageRoundTrip(fs: seq<Field>, m: seq<Slot>, d: seq<Slot>) returns (m': seq<Slot>)
    requires Setting(fs, m, d)
    requires EncodeFrom(fs, m, 0).Some? && |EncodeFrom(fs, m, 0).value| < TWO63
    ensures DecodeNoinit(fs, d, EncodeFrom(fs, m, 0).value) == if Readable(fs, m) && Room(fs, d, m) then Some(m') else None
    ensures Readable(fs, m) && Room(fs, d, m) ==> Merged(fs, d, m, m')
    decreases fs, |fs| + 1, 0, 0
  {
    var st := FieldsRoundTrip(fs, m, d, 0, Start(d), []);
    m' := st.msg;
    assert EncodeFrom(fs, m, 0).value + [] == EncodeFrom(fs, m, 0).value;
    TakenAll(fs, d, m);
    if TakenFrom(fs, d, m, 0) { AllDone(fs, m, d, st); }
  }

  lemma {:induction false} TakenAll(fs: seq<Field>, d: seq<Slot>, m: seq<Slot>)
    requires |fs| == |d| == |m|
    ensures TakenFrom(fs, d, m, 0) <==> Readable(fs, m) && Room(fs, d, m)
  {
    if TakenFrom(fs, d, m, 0) {
      forall i | 0 <= i < |fs| ensures ReadableSlot(fs, m, i) && RoomSlot(fs, d, m, i) { assert TakenSlot(fs, d, m, i); }
      assert Readable(fs, m) && Room(fs, d, m);
    } else {
      var i :| 0 <= i < |fs| && !TakenSlot(fs, d, m, i);
      assert !ReadableSlot(fs, m, i) || !RoomSlot(fs, d, m, i);
    }
  }

  lemma AllDone(fs: seq<Field>, m: seq<Slot>, d: seq<Slot>, st: RunState)
    requires Setting(fs, m, d) && Progress(fs, m, d, |fs|, st)
    ensures Merged(fs, d, m, st.msg) && Complete(fs, st)
  {
    forall j | 0 <= j < |fs|
      ensures MergedSlot(fs, j, d[j], m[j], st.msg[j])
    {
      assert SlotAt(fs, m, d, |fs|, st, j) && HeldSlot(fs, m, j) && ShapedSlot(fs, j, d[j]);
      if fs[j].rule.OneOf? && !InsideUnion(fs, j) && m[j].which != 0 { WhichIsOneof(fs, m, j); }
    }
  }

  lemma {:induction false} FieldsRoundTrip(fs: seq<Field>, m: seq<Slot>, d: seq<Slot>, i: nat, st: RunState, rest: seq<byte>)
    returns (st': RunState)
    requires Setting(fs, m, d) && i <= |fs| && Progress(fs, m, d, i, st)
    requires EncodeFrom(fs, m, i).Some? && |EncodeFrom(fs, m, i).value| < TWO63
    ensures Run(fs, st, EncodeFrom(fs, m, i).value + rest)
         == Ran(TakenFrom(fs, d, m, i) && Onward(fs, i, st.fixed), fs, st', rest)
    ensures TakenFrom(fs, d, m, i) && Onward(fs, i, st.fixed) ==> Progress(fs, m, d, |fs|, st')
    decreases fs, |fs| - i, 3, 0
  {
    st' := st;
    if i == |fs| {
      assert [] + rest == rest;
    } else {
      assert TakenFrom(fs, d, m, i) <==> TakenSlot(fs, d, m, i) && TakenFrom(fs, d, m, i + 1);
      var more := EncodeFrom(fs, m, i + 1).value + rest;
      assert EncodeFrom(fs, m, i).value + rest == EncodeField(fs, m, i).value + more;
      st' := FieldRoundTrip(fs, m, d, i, st, more);
      if TakenSlot(fs, d, m, i) && FixedFree(fs, i, st.fixed) {
        FixedOnward(fs, i, st.fixed, st'.fixed);
        st' := FieldsRoundTrip(fs, m, d, i + 1, st', rest);
      }
    }
  }

  // A fixed-count field is not entered again.
  ghost predicate FixedFree(fs: seq<Field>, i: nat, fixed: Option<(nat, nat)>)
    requires i < |fs|
  {
    FixedWritten(fs[i]) ==> fixed == None || fixed.value.0 != i
  }

  lemma FixedOnward(fs: seq<Field>, i: nat, before: Option<(nat, nat)>, after: Option<(nat, nat)>)
    requires i < |fs|
    requires if FixedWritten(fs[i]) then after == Some((i, fs[i].arraySize)) else after == before
    ensures Onward(fs, i, before) <==> FixedFree(fs, i, before) && Onward(fs, i + 1, after)
  {
    NextFixedFrom(fs, i + 1);
  }

  lemma {:induction false} NextFixedFrom(fs: seq<Field>, i: nat)
    ensures i <= |fs| ==> i <= NextFixed(fs, i) <= |fs|
    decreases |fs| - i
  {
    if i < |fs| { NextFixedFrom(fs, i + 1); }
  }

  // The bookkeeping of fixed-count fields after field i.
  ghost predicate FixedMoved(fs: seq<Field>, i: nat, st: RunState, st': RunState)
    requires i < |fs|
  {
    if FixedWritten(fs[i]) then st'.fixed == Some((i, fs[i].arraySize)) else st'.fixed == st.fixed
  }

  // One field of the struct, whatever its rule.
  lemma {:induction false} FieldRoundTrip(fs: seq<Field>, m: seq<Slot>, d: seq<Slot>, i: nat, st: RunState, rest: seq<byte>)
    returns (st': RunState)
    requires Setting(fs, m, d) && i < |fs| && Progress(fs, m, d, i, st)
    requires EncodeField(fs, m, i).Some? && |EncodeField(fs, m, i).value| < TWO63
    ensures Run(fs, st, EncodeField(fs, m, i).value + rest)
         == Ran(TakenSlot(fs, d, m, i) && FixedFree(fs, i, st.fixed), fs, st', rest)
    ensures TakenSlot(fs, d, m, i) && FixedFree(fs, i, st.fixed) ==>
              Progress(fs, m, d, i + 1, st') && FixedMoved(fs, i, st, st')
    decreases fs, |fs| - i, 2, 0
  {
    var f := fs[i];
    assert f in fs && WellFormedField(f);
    if f.rule.Repeated? {
      st' := RepeatedRoundTrip(fs, m, d, i, st, rest);
    } else if f.rule.OneOf? {
      st' := OneofRoundTrip(fs, m, d, i, st, rest);
    } else {
      st' := SingleRoundTrip(fs, m, d, i, st, rest);
    }
  }

  lemma {:induction false} SingleRoundTrip(fs: seq<Field>, m: seq<Slot>, d: seq<Slot>, i: nat, st: RunState, rest: seq<byte>)
    returns (st': RunState)
    requires Setting(fs, m, d) && i < |fs| && Progress(fs, m, d, i, st)
    requires fs[i].rule.Required? || fs[i].rule.Optional?
    requires EncodeField(fs, m, i).Some? && |EncodeField(fs, m, i).value| < TWO63
    ensures Run(fs, st, EncodeField(fs, m, i).value + rest) == Ran(TakenSlot(fs, d, m, i), fs, st', rest)
    ensures TakenSlot(fs, d, m, i) ==> Progress(fs, m, d, i + 1, st') && st'.fixed == st.fixed
    decreases fs, |fs| - i, 1, 0
  {
    var f := fs[i];
    assert f in fs && WellFormedField(f) && Home(fs, i) == i;
    assert HeldSlot(fs, m, i) && ShapedSlot(fs, i, d[i]) && SlotAt(fs, m, d, i, st, i);
    var v, dest := m[i].value, d[i].value;
    var e := EncodeField(fs, m, i).value;
    if e == [] {
      AbsentMerged(fs, m, d, i);
      assert e + rest == rest;
      NothingWritten(fs, m, d, i, st);
      st' := st;
    } else {
      var v' := ValueRoundTrip(f, v, dest, rest);
      var ok := TakenValue(f, dest, v);
      SingleTaken(fs, d, m, i);
      SingleField(fs, i, WireType(f.kind), st, dest, ok, v', EncodeValue(f, v).value + rest, rest);
      st' := st.(msg := st.msg[i := SingleSlot(f, v')], seen := SeenWith(f, i, st.seen));
      TaggedRun(fs, i, st, v, rest);
      if ok { OneSlotDone(fs, m, d, i, st, SingleSlot(f, v'), SeenWith(f, i, st.seen)); }
    }
  }

  // A field that is written is taken if its value is.
  lemma SingleTaken(fs: seq<Field>, d: seq<Slot>, m: seq<Slot>, i: nat)
    requires Setting(fs, m, d) && i < |fs| && (fs[i].rule.Required? || fs[i].rule.Optional?)
    requires EncodeField(fs, m, i).Some? && EncodeField(fs, m, i).value != []
    ensures (m[i].One? || m[i].Opt?) && (d[i].One? || d[i].Opt?)
    ensures TakenSlot(fs, d, m, i) <==> TakenValue(fs[i], d[i].value, m[i].value)
    ensures EncodeField(fs, m, i) == EncodeTagged(fs[i], m[i].value)
    ensures m[i].Opt? ==> m[i].has
    ensures fs[i].rule.Required? || HasSize(fs[i]) || !IsDefaultValue(fs[i], m[i].value)
  {
    assert Home(fs, i) == i && HeldSlot(fs, m, i) && ShapedSlot(fs, i, d[i]);
  }

  lemma {:induction false} OneofRoundTrip(fs: seq<Field>, m: seq<Slot>, d: seq<Slot>, i: nat, st: RunState, rest: seq<byte>)
    returns (st': RunState)
    requires Setting(fs, m, d) && i < |fs| && Progress(fs, m, d, i, st)
    requires fs[i].rule.OneOf?
    requires EncodeField(fs, m, i).Some? && |EncodeField(fs, m, i).value| < TWO63
    ensures Run(fs, st, EncodeField(fs, m, i).value + rest) == Ran(TakenSlot(fs, d, m, i), fs, st', rest)
    ensures TakenSlot(fs, d, m, i) ==> Progress(fs, m, d, i + 1, st') && st'.fixed == st.fixed
    decreases fs, |fs| - i, 1, 0
  {
    var f, h := fs[i], Home(fs, i);
    assert f in fs && WellFormedField(f);
    HomeIsOneof(fs, i);
    assert HeldSlot(fs, m, h) && ShapedSlot(fs, h, d[h]);
    var e := EncodeField(fs, m, i).value;
    st' := st;
    if m[h].which != f.tag {
      assert e + rest == rest;
      NothingWritten(fs, m, d, i, st);
    } else {
      assert Find(fs, f.tag) == i && MemberOf(fs, h, i);
      assert SlotAt(fs, m, d, i, st, h);
      OneofReady(fs, i, d[h].which, d[h].value);
      var start, v := Oneof(fs, i, d[h].which, d[h].value), m[h].value;
      var v', ok := v, false;
      if start.Some? {
        v' := MemberRoundTrip(f, v, start.value, rest);
        ok := ReadableValue(f, v);
      }
      OneofField(fs, i, WireType(f.kind), st, start, ok, v', EncodeValue(f, v).value + rest, rest);
      st' := st.(msg := st.msg[h := Union(f.tag, v')]);
      if ok { OneofDone(fs, m, d, i, st, v'); }
      TaggedRun(fs, i, st, v, rest);
    }
  }

  // A member of a oneof is decoded into its defaults.
  lemma {:induction false} MemberRoundTrip(f: Field, v: Value, start: Value, rest: seq<byte>) returns (v': Value)
    requires WellFormedField(f) && HeldValue(f, v) && ShapedValue(f, start) && f.rule.OneOf?
    requires f.kind.Submessage? ==> Fresh(f.kind.fields, start.slots)
    requires EncodeValue(f, v).Some? && |EncodeValue(f, v).value| < TWO63
    ensures DecodeValue(f, start, EncodeValue(f, v).value + rest) == Read(ReadableValue(f, v), v', rest)
    ensures ReadableValue(f, v) ==> SameValue(f, v, v')
    decreases f, 1, 0, 0
  {
    v' := ValueRoundTrip(f, v, start, rest);
    RoomFreshValue(f, start, v);
    if ReadableValue(f, v) { MergedFreshValue(f, start, v, v'); }
  }

  // The entries of a repeated field that is not packed, one tag each, stored behind c others.
  lemma {:induction false} ItemsRoundTrip(fs: seq<Field>, i: nat, c: nat, src: seq<Value>, count: nat, j: nat,
                                          st: RunState, items: seq<Value>, rest: seq<byte>) returns (out: seq<Value>)
    requires WellFormed(fs) && i < |fs| && AtItem(fs, i, st, c + j, items)
    requires !Packable(fs[i].kind) && j < count <= |src|
    requires ItemsReady(fs[i], c, src, items, j, count)
    requires EncodeItems(fs[i], true, src, count, j).Some? && |EncodeItems(fs[i], true, src, count, j).value| < TWO63
    ensures ReadableItems(fs[i], src, j, count) && c + count <= |items| ==>
              Around(items, c + j, count - j, out) && ItemsReady(fs[i], c, src, out, count, count)
    ensures Run(fs, st, EncodeItems(fs[i], true, src, count, j).value + rest)
         == Ran(ReadableItems(fs[i], src, j, count) && c + count <= |items|, fs, Stored(fs, i, st, c + count, out), rest)
    decreases fs, |fs| - i, 0, count - j, 0
  {
    var f := fs[i];
    assert f in fs && WellFormedField(f);
    ItemsSplit(f, src, count, j, rest);
    ReadableNext(f, src, j, count);
    var more := EncodeItems(f, true, src, count, j + 1).value + rest;
    out := items;
    var v' := src[j];
    if c + j < |items| { v' := ValueRoundTrip(f, src[j], items[c + j], more); }
    ItemRun(fs, i, st, src[j], c + j, items, ReadableValue(f, src[j]), v', more);
    if ReadableValue(f, src[j]) && c + j < |items| {
      out := MoreItems(fs, i, c, src, count, j, st, items, v', rest);
    }
  }

  // The entries after entry j.
  lemma {:induction false} MoreItems(fs: seq<Field>, i: nat, c: nat, src: seq<Value>, count: nat, j: nat,
                                     st: RunState, items: seq<Value>, v: Value, rest: seq<byte>) returns (out: seq<Value>)
    requires WellFormed(fs) && i < |fs| && AtItem(fs, i, st, c + j, items)
    requires !Packable(fs[i].kind) && j < count <= |src| && c + j < |items|
    requires SameValue(fs[i], src[j], v) && ShapedValue(fs[i], v)
    requires ItemsReady(fs[i], c, src, items, j, count)
    requires EncodeItems(fs[i], true, src, count, j + 1).Some? && |EncodeItems(fs[i], true, src, count, j + 1).value| < TWO63
    ensures ReadableItems(fs[i], src, j + 1, count) && c + count <= |items| ==>
              Around(items, c + j, count - j, out) && ItemsReady(fs[i], c, src, out, count, count)
    ensures Run(fs, Stored(fs, i, st, c + j + 1, items[c + j := v]), EncodeItems(fs[i], true, src, count, j + 1).value + rest)
         == Ran(ReadableItems(fs[i], src, j + 1, count) && c + count <= |items|, fs, Stored(fs, i, st, c + count, out), rest)
    decreases fs, |fs| - i, 0, count - j - 1, 1
  {
    out := items[c + j := v];
    ItemStored(fs[i], c, src, items, j, count, v);
    if j + 1 == count {
      assert [] + rest == rest;
    } else {
      var items' := out;
      StoredTwice(fs, i, st, c + (j + 1), items', 0, items');
      out := ItemsRoundTrip(fs, i, c, src, count, j + 1, Stored(fs, i, st, c + (j + 1), items'), items', rest);
      StoredTwice(fs, i, st, c + (j + 1), items', c + count, out);
    }
  }

  lemma {:induction false} RepeatedRoundTrip(fs: seq<Field>, m: seq<Slot>, d: seq<Slot>, i: nat, st: RunState, rest: seq<byte>)
    returns (st': RunState)
    requires Setting(fs, m, d) && i < |fs| && Progress(fs, m, d, i, st)
    requires fs[i].rule.Repeated?
    requires EncodeField(fs, m, i).Some? && |EncodeField(fs, m, i).value| < TWO63
    ensures Run(fs, st, EncodeField(fs, m, i).value + rest)
         == Ran(TakenSlot(fs, d, m, i) && FixedFree(fs, i, st.fixed), fs, st', rest)
    ensures TakenSlot(fs, d, m, i) && FixedFree(fs, i, st.fixed) ==>
              Progress(fs, m, d, i + 1, st') && FixedMoved(fs, i, st, st')
    decreases fs, |fs| - i, 1, 0
  {
    var f := fs[i];
    assert f in fs && WellFormedField(f) && Home(fs, i) == i;
    assert HeldSlot(fs, m, i) && ShapedSlot(fs, i, d[i]) && SlotAt(fs, m, d, i, st, i);
    var count := if HasSize(f) then m[i].count else f.arraySize;
    if count == 0 {
      EmptyTaken(fs, d, m, i);
      assert EncodeField(fs, m, i).value + rest == rest;
      NothingWritten(fs, m, d, i, st);
      st' := st;
    } else {
      var src, items, c := m[i].items, d[i].items, StartCount(fs, d, i, st.fixed);
      EntriesTaken(fs, d, m, i, st.fixed);
      var ok, out := ArrayRoundTrip(fs, i, c, src, count, st, items, rest);
      st' := Stored(fs, i, st, c + count, out);
      if ok { RepeatedDone(fs, m, d, i, st, c, count, src, out); }
    }
  }

  lemma EmptyTaken(fs: seq<Field>, d: seq<Slot>, m: seq<Slot>, i: nat)
    requires Setting(fs, m, d) && i < |fs| && fs[i].rule.Repeated?
    requires if HasSize(fs[i]) then m[i].Many? && m[i].count == 0 else fs[i].arraySize == 0
    ensures EncodeField(fs, m, i) == Some([]) && TakenSlot(fs, d, m, i) && MergedSlot(fs, i, d[i], m[i], d[i])
  {
    assert Home(fs, i) == i && HeldSlot(fs, m, i) && ShapedSlot(fs, i, d[i]);
    assert EncodeItems(fs[i], false, m[i].items, 0, 0) == Some([]);
  }

  // Where the entries of a repeated field go on.
  ghost function StartCount(fs: seq<Field>, d: seq<Slot>, i: nat, fixed: Option<(nat, nat)>): nat
    requires i < |fs| == |d|
  {
    if HasSize(fs[i]) && d[i].Many? then d[i].count
    else if fixed.Some? && fixed.value.0 == i then fixed.value.1 else 0
  }

  lemma EntriesTaken(fs: seq<Field>, d: seq<Slot>, m: seq<Slot>, i: nat, fixed: Option<(nat, nat)>)
    requires Setting(fs, m, d) && i < |fs| && fs[i].rule.Repeated? && Filled(fs, fixed)
    requires EncodeField(fs, m, i).Some?
    requires HasSize(fs[i]) ==> m[i].Many? && m[i].count > 0
    requires !HasSize(fs[i]) ==> fs[i].arraySize > 0
    ensures var count := if HasSize(fs[i]) then m[i].count else fs[i].arraySize;
            && (m[i].Many? || m[i].Fixed?) && 0 < count <= |m[i].items| && count <= fs[i].arraySize
            && EncodeField(fs, m, i) == EncodeArray(fs[i], m[i].items, count)
            && (TakenSlot(fs, d, m, i) && FixedFree(fs, i, fixed) <==>
                  ReadableArray(fs[i], m[i].items, count) && StartCount(fs, d, i, fixed) + count <= fs[i].arraySize)
  {
    assert Home(fs, i) == i && HeldSlot(fs, m, i) && ShapedSlot(fs, i, d[i]);
  }

  // A whole array, packed or not.
  lemma {:induction false} ArrayRoundTrip(fs: seq<Field>, i: nat, c: nat, src: seq<Value>, count: nat,
                                          st: RunState, items: seq<Value>, rest: seq<byte>) returns (ok: bool, out: seq<Value>)
    requires WellFormed(fs) && i < |fs| && AtItem(fs, i, st, c, items)
    requires 0 < count <= |src| && count <= fs[i].arraySize
    requires (forall k :: 0 <= k < count ==> HeldValue(fs[i], src[k])) && forall v :: v in items ==> ShapedValue(fs[i], v)
    requires EncodeArray(fs[i], src, count).Some? && |EncodeArray(fs[i], src, count).value| < TWO63
    ensures ok == (ReadableArray(fs[i], src, count) && c + count <= fs[i].arraySize)
    ensures Run(fs, st, EncodeArray(fs[i], src, count).value + rest) == Ran(ok, fs, Stored(fs, i, st, c + count, out), rest)
    ensures ok ==> Around(items, c, count, out) && Entered(fs[i], c, src, count, out)
    decreases fs, |fs| - i, 0, count + 1
  {
    var f := fs[i];
    ok := ReadableArray(f, src, count) && c + count <= f.arraySize;
    if Packable(f.kind) {
      out := PackedStep(fs, i, st, c, src, count, items, rest);
    } else {
      StartItems(f, c, src, items, count);
      out := ItemsRoundTrip(fs, i, c, src, count, 0, st, items, rest);
    }
  }

  lemma StartItems(f: Field, c: nat, src: seq<Value>, items: seq<Value>, count: nat)
    requires count <= |src|
    requires forall k :: 0 <= k < count ==> HeldValue(f, src[k])
    requires forall v :: v in items ==> ShapedValue(f, v)
    ensures ItemsReady(f, c, src, items, 0, count)
  {
    assert forall k :: 0 <= k < |items| ==> items[k] in items;
  }

  lemma RepeatedDone(fs: seq<Field>, m: seq<Slot>, d: seq<Slot>, i: nat, st: RunState,
                     c: nat, count: nat, src: seq<Value>, out: seq<Value>)
    requires Setting(fs, m, d) && i < |fs| && Progress(fs, m, d, i, st)
    requires fs[i].rule.Repeated? && |out| == fs[i].arraySize && 0 < count && c + count <= fs[i].arraySize
    requires m[i] == if HasSize(fs[i]) then Many(count, src) else Fixed(src)
    requires c == StartCount(fs, d, i, st.fixed)
    requires !HasSize(fs[i]) ==> count == fs[i].arraySize
    requires count <= |src| == |out| && Entered(fs[i], c, src, count, out)
    requires (d[i].Many? || d[i].Fixed?) && Around(d[i].items, c, count, out)
    ensures var st' := Stored(fs, i, st, c + count, out); Progress(fs, m, d, i + 1, st') && FixedMoved(fs, i, st, st')
  {
    var slot := if HasSize(fs[i]) then Many(c + count, out) else Fixed(out);
    ArrayMerged(fs, i, d[i], m[i], c, count, src, out);
    if HasSize(fs[i]) {
      OneSlotDone(fs, m, d, i, st, slot, st.seen);
    } else {
      FixedSlotDone(fs, m, d, i, st, slot);
    }
  }

  lemma ArrayMerged(fs: seq<Field>, i: nat, a: Slot, b: Slot, c: nat, count: nat, src: seq<Value>, out: seq<Value>)
    requires i < |fs| && fs[i].rule.Repeated? && ShapedSlot(fs, i, a)
    requires b == if HasSize(fs[i]) then Many(count, src) else Fixed(src)
    requires if HasSize(fs[i]) then a.Many? && c == a.count else c == 0
    requires 0 < count <= |src| == |out| == |a.items| && c + count <= |out| && (!HasSize(fs[i]) ==> count == |out|)
    requires Entered(fs[i], c, src, count, out) && Around(a.items, c, count, out)
    ensures MergedSlot(fs, i, a, b, if HasSize(fs[i]) then Many(c + count, out) else Fixed(out))
  {
  }

  lemma FixedSlotDone(fs: seq<Field>, m: seq<Slot>, d: seq<Slot>, i: nat, st: RunState, slot: Slot)
    requires Setting(fs, m, d) && i < |fs| && Progress(fs, m, d, i, st)
    requires FixedWritten(fs[i]) && MergedSlot(fs, i, d[i], m[i], slot)
    ensures Progress(fs, m, d, i + 1, st.(msg := st.msg[i := slot], fixed := Some((i, fs[i].arraySize))))
  {
    var st', n := st.(msg := st.msg[i := slot], fixed := Some((i, fs[i].arraySize))), i + 1;
    forall j | 0 <= j < |fs|
      ensures SlotAt(fs, m, d, n, st', j)
    {
      assert SlotAt(fs, m, d, i, st, j);
      if fs[j].rule.OneOf? && m[j].Union? && m[j].which != 0 && Find(fs, m[j].which) == i {
        WhichIsOneof(fs, m, j);
      }
    }
  }

  // pb_decode of what pb_encode wrote succeeds, whatever the destination held, exactly when
  // every string written has its terminator and every length written fits in 32 bits; and
  // then it gives the message back, up to the contents of absent fields.
  lemma RoundTrip(fs: seq<Field>, m: seq<Slot>, dest: seq<Slot>)
    requires WellFormed(fs) && Held(fs, m) && Shaped(fs, dest)
    requires Encode(fs, m).Some? && |Encode(fs, m).value| < TWO63
    ensures Decode(fs, dest, Encode(fs, m).value).Some? <==> Readable(fs, m)
    ensures Readable(fs, m) ==> Same(fs, m, Decode(fs, dest, Encode(fs, m).value).value)
  {
    var d := SetDefaults(fs, dest);
    SetDefaultsFresh(fs, dest);
    RoomFresh(fs, d, m);
    var m' := MessageRoundTrip(fs, m, d);
    if Readable(fs, m) { MergedFresh(fs, d, m, m'); }
  }
}
