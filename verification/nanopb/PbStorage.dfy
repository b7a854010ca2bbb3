// What decoding leaves in a struct keeps to the declared sizes of its fields, whatever bytes
// arrive, so that it can be encoded and decoded again.

module PbStorage {
  import opened Basics
  import opened Bits
  import opened PbMessage
  import opened PbWire
  import PbRoundTrip
  import PbVarint
  import PbCodec

  // --- What keeps to its size ---

  // Numbers are within their C types, contents within their buffers, and strings leave room
  // for the terminator.
  ghost predicate StorableValue(f: Field, v: Value)
    decreases f, 1
  {
    match f.kind
    case Varint => v.Int? && FitsSigned(f.dataSize, v.v)
    case UVarint => v.Int? && FitsUnsigned(f.dataSize, v.v)
    case SVarint => v.Int? && FitsSigned(f.dataSize, v.v)
    case Fixed32 => v.Int? && 0 <= v.v < TWO32
    case Fixed64 => v.Int? && 0 <= v.v < TWO64
    case Bytes => v.Data? && |v.b| + BYTES_OFFSET <= f.dataSize
    case Str => v.Data? && |v.b| < f.dataSize
    case FixedBytes => v.Data? && |v.b| == f.dataSize
    case Submessage(fs) => v.Msg? && Storable(fs, v.slots)
  }

  ghost predicate StorableSlot(fs: seq<Field>, i: nat, s: Slot)
    requires i < |fs|
    decreases fs, 0
  {
    var f := fs[i];
    match f.rule
    case Required => s.One? && StorableValue(f, s.value)
    case Optional => (if HasSize(f) then s.Opt? else s.One?) && StorableValue(f, s.value)
    case Repeated =>
      && (if HasSize(f) then s.Many? && s.count <= f.arraySize else s.Fixed?) && |s.items| == f.arraySize
      && (forall j :: 0 <= j < f.arraySize && (s.Many? ==> j < s.count) ==> StorableValue(f, s.items[j]))
      && (forall v :: v in s.items ==> LeftoverValue(f, v))
    case OneOf =>
      if InsideUnion(fs, i) then s.Shared?
      else
        && s.Union?
        && (s.which == 0 || exists k: nat :: k < |fs| && MemberOf(fs, i, k) && fs[k].tag == s.which)
        && forall k: nat :: k < |fs| && MemberOf(fs, i, k) && fs[k].tag == s.which ==> StorableValue(fs[k], s.value)
  }

  ghost predicate Storable(fs: seq<Field>, m: seq<Slot>)
    decreases fs, 2
  {
    |m| == |fs| && forall i :: 0 <= i < |fs| ==> StorableSlot(fs, i, m[i])
  }

  // What a struct to be reset can hold: anything of the right layout, but for the entries of
  // fixed-count arrays, which resetting leaves as they are.
  ghost predicate LeftoverValue(f: Field, v: Value)
    decreases f, 1
  {
    f.kind.Submessage? ==> v.Msg? && Leftover(f.kind.fields, v.slots)
  }

  ghost predicate LeftoverSlot(fs: seq<Field>, i: nat, s: Slot)
    requires i < |fs|
    decreases fs, 0
  {
    var f := fs[i];
    match f.rule
    case Required => s.One? && LeftoverValue(f, s.value)
    case Optional => (if HasSize(f) then s.Opt? else s.One?) && LeftoverValue(f, s.value)
    case Repeated =>
      && (if HasSize(f) then s.Many? else s.Fixed?) && |s.items| == f.arraySize
      && (forall v :: v in s.items ==> LeftoverValue(f, v))
      && (s.Fixed? ==> forall j :: 0 <= j < f.arraySize ==> StorableValue(f, s.items[j]))
    case OneOf => if InsideUnion(fs, i) then s.Shared? else s.Union?
  }

  ghost predicate Leftover(fs: seq<Field>, m: seq<Slot>)
    decreases fs, 2
  {
    |m| == |fs| && forall i :: 0 <= i < |fs| ==> LeftoverSlot(fs, i, m[i])
  }

  // Buffers have room for their count or terminator, and default values keep to their sizes.
  ghost predicate SizedField(f: Field)
    decreases f, 1
  {
    && (f.kind.Bytes? ==> BYTES_OFFSET <= f.dataSize) && (f.kind.Str? ==> f.dataSize > 0)
    && (f.init.Some? ==> StorableValue(f, f.init.value))
    && (f.kind.Submessage? ==> Sized(f.kind.fields))
  }

  ghost predicate Sized(fs: seq<Field>)
    decreases fs, 0
  {
    forall f :: f in fs ==> SizedField(f)
  }

  // --- Resetting ---

  lemma {:induction false} StorableLeftover(fs: seq<Field>, m: seq<Slot>)
    requires Storable(fs, m)
    ensures Leftover(fs, m)
    decreases fs, 0
  {
    forall i | 0 <= i < |fs|
      ensures LeftoverSlot(fs, i, m[i])
    {
      var f := fs[i];
      assert f in fs && StorableSlot(fs, i, m[i]);
      if !f.rule.Repeated? && !f.rule.OneOf? { LeftoverOf(f, m[i].value); }
    }
  }

  lemma {:induction false} LeftoverOf(f: Field, v: Value)
    requires StorableValue(f, v)
    ensures LeftoverValue(f, v)
    decreases f, 1
  {
    if f.kind.Submessage? { StorableLeftover(f.kind.fields, v.slots); }
  }

  lemma {:induction false} ZeroStorable(f: Field)
    requires WellFormedField(f) && SizedField(f)
    ensures StorableValue(f, ZeroValue(f))
    decreases f, 1
  {
    if f.kind.Submessage? { ZeroMessageStorable(f.kind.fields); }
  }

  lemma {:induction false} ZeroMessageStorable(fs: seq<Field>)
    requires WellFormed(fs) && Sized(fs)
    ensures Storable(fs, ZeroMessage(fs))
    decreases fs, 0
  {
    var m := ZeroMessage(fs);
    forall i | 0 <= i < |fs|
      ensures StorableSlot(fs, i, m[i])
    {
      var f := fs[i];
      assert f in fs && WellFormedField(f) && SizedField(f) && m[i] == ZeroSlot(fs, i);
      ZeroStorable(f);
      LeftoverOf(f, ZeroValue(f));
      NoTagZero(fs);
    }
  }

  lemma NoTagZero(fs: seq<Field>)
    requires WellFormed(fs)
    ensures forall k :: 0 <= k < |fs| ==> fs[k].tag != 0
  {
    forall k | 0 <= k < |fs| ensures fs[k].tag != 0 { assert fs[k] in fs && WellFormedField(fs[k]); }
  }

  lemma {:induction false} DefaultStorable(f: Field, v: Value)
    requires WellFormedField(f) && SizedField(f) && LeftoverValue(f, v)
    ensures StorableValue(f, DefaultValue(f, v))
    decreases f, 1
  {
    if f.kind.Submessage? { ResetStorable(f.kind.fields, v.slots); } else { ZeroStorable(f); }
  }

  // A struct that has been reset holds what keeps to its sizes.
  lemma {:induction false} ResetStorable(fs: seq<Field>, m: seq<Slot>)
    requires WellFormed(fs) && Sized(fs) && Leftover(fs, m)
    ensures Storable(fs, SetDefaults(fs, m))
    decreases fs, 0
  {
    var d := SetDefaults(fs, m);
    NoTagZero(fs);
    forall i | 0 <= i < |fs|
      ensures StorableSlot(fs, i, d[i])
    {
      var f := fs[i];
      assert f in fs && WellFormedField(f) && SizedField(f) && LeftoverSlot(fs, i, m[i]) && d[i] == DefaultSlot(f, m[i]);
      if !f.rule.Repeated? && !f.rule.OneOf? { DefaultStorable(f, m[i].value); }
    }
  }

  // --- Decoding ---

  lemma {:induction false} FixedBelow(s: seq<byte>, n: nat)
    requires |s| == n
    ensures DecodeFixed(s) < Shl(1, 8 * n)
  {
    if n > 0 {
      FixedBelow(s[1..], n - 1);
      PbRoundTrip.ShlEight(1, n - 1);
    }
  }

  lemma NumberStorable(f: Field, s: seq<byte>)
    requires WellFormedField(f) && Packable(f.kind)
    ensures var p := DecodeNumber(f.kind, f.dataSize, s); p.Done? ==> StorableValue(f, p.value)
  {
    WordSizes();
    if (f.kind.Fixed32? && |s| >= 4) || (f.kind.Fixed64? && |s| >= 8) {
      var n := if f.kind.Fixed32? then 4 else 8;
      FixedBelow(s[..n], n);
    }
  }

  // A value that is decoded keeps to the size of its field, if what it is merged into does.
  lemma {:induction false} ValueStorable(f: Field, dest: Value, s: seq<byte>)
    requires WellFormedField(f) && SizedField(f)
    requires if f.rule.Repeated? then LeftoverValue(f, dest) else StorableValue(f, dest) || !f.kind.Submessage?
    ensures var p := DecodeValue(f, dest, s); p.Done? ==> StorableValue(f, p.value)
    decreases |s|, 0
  {
    match f.kind
    case Submessage(fs) =>
      var c := Delimited(s);
      if c.Done? {
        if f.rule.Repeated? { ResetStorable(fs, dest.slots); }
        RunStorable(fs, Start(if f.rule.Repeated? then SetDefaults(fs, dest.slots) else dest.slots), c.value);
      }
    case Bytes =>
    case Str =>
    case FixedBytes =>
    case _ => NumberStorable(f, s);
  }

  // The first count entries of the array keep to the size, and all can be reset.
  ghost predicate StorableItems(f: Field, count: nat, items: seq<Value>) {
    && count <= f.arraySize == |items| && (forall j :: 0 <= j < count ==> StorableValue(f, items[j]))
    && forall v :: v in items ==> LeftoverValue(f, v)
  }

  lemma ItemStorable(f: Field, n: nat, count: nat, items: seq<Value>, v: Value)
    requires StorableItems(f, n, items) && count < |items| && StorableValue(f, v)
    ensures StorableItems(f, n, items[count := v]) && StorableItems(f, if count == n then n + 1 else n, items[count := v])
  {
    LeftoverOf(f, v);
  }

  // The array keeps to the sizes as far as it did, and up to the new count if it did up to the
  // old one.
  ghost predicate StillStorable(f: Field, n: nat, count: nat, count': nat, items: seq<Value>) {
    StorableItems(f, n, items) && (count == n ==> StorableItems(f, count', items))
  }

  lemma {:induction false} PackedStorable(f: Field, n: nat, count: nat, items: seq<Value>, s: seq<byte>)
    requires WellFormedField(f) && Packable(f.kind) && StorableItems(f, n, items)
    ensures var p := DecodePacked(f, count, items, s); p.Some? ==> StillStorable(f, n, count, p.value.0, p.value.1)
    decreases |s|
  {
    if s != [] && count < f.arraySize {
      var p := DecodeNumber(f.kind, f.dataSize, s);
      if p.Done? {
        NumberStorable(f, s);
        ItemStorable(f, n, count, items, p.value);
        var items' := items[count := p.value];
        PackedStorable(f, if count == n then n + 1 else n, count + 1, items', p.rest);
      }
    }
  }

  lemma {:induction false} RepeatedStorable(f: Field, wt: nat, n: nat, count: nat, items: seq<Value>, s: seq<byte>)
    requires WellFormedField(f) && SizedField(f) && f.rule.Repeated? && StorableItems(f, n, items)
    ensures var p := DecodeRepeated(f, wt, count, items, s); p.Done? ==> StillStorable(f, n, count, p.value.0, p.value.1)
    decreases |s|, 1
  {
    if wt == WT_STRING && Packable(f.kind) {
      var c := Delimited(s);
      if c.Done? { PackedStorable(f, n, count, items, c.value); }
    } else if count < f.arraySize {
      assert items[count] in items;
      ValueStorable(f, items[count], s);
      var p := DecodeValue(f, items[count], s);
      if p.Done? { ItemStorable(f, n, count, items, p.value); }
    }
  }

  lemma {:induction false} FieldStorable(fs: seq<Field>, i: nat, wt: nat, st: RunState, s: seq<byte>)
    requires WellFormed(fs) && Sized(fs) && i < |fs| && Storable(fs, st.msg)
    ensures var r := DecodeField(fs, i, wt, st, s); r.Next? ==> Storable(fs, r.st.msg)
    decreases |s|, 2
  {
    var f, h := fs[i], Home(fs, i);
    assert f in fs && WellFormedField(f) && SizedField(f) && StorableSlot(fs, h, st.msg[h]) && StorableSlot(fs, i, st.msg[i]);
    var r := DecodeField(fs, i, wt, st, s);
    if r.Next? {
      match st.msg[h]
      case One(v) => ValueStorable(f, v, s);
      case Opt(_, v) => ValueStorable(f, v, s);
      case Many(count, items) => RepeatedStorable(f, wt, count, count, items, s);
      case Fixed(items) => RepeatedStorable(f, wt, f.arraySize, EnterFixed(fs, i, st.fixed).value.1, items, s);
      case Union(which, v) => UnionStorable(fs, i, which, v, s);
    }
  }

  lemma {:induction false} UnionStorable(fs: seq<Field>, i: nat, which: nat, v: Value, s: seq<byte>)
    requires WellFormed(fs) && Sized(fs) && i < |fs| && fs[i].rule.OneOf? && Oneof(fs, i, which, v).Some?
    ensures var p := DecodeValue(fs[i], Oneof(fs, i, which, v).value, s);
            p.Done? ==> StorableSlot(fs, Home(fs, i), Union(fs[i].tag, p.value))
    decreases |s|, 1
  {
    var f := fs[i];
    assert f in fs && WellFormedField(f) && SizedField(f);
    PbRoundTrip.HomeIsOneof(fs, i);
    if f.kind.Submessage? {
      var gs := f.kind.fields;
      ZeroMessageStorable(gs);
      StorableLeftover(gs, ZeroMessage(gs));
      ResetStorable(gs, ZeroMessage(gs));
    }
    ValueStorable(f, Oneof(fs, i, which, v).value, s);
  }

  lemma {:induction false} StepStorable(fs: seq<Field>, st: RunState, s: seq<byte>)
    requires WellFormed(fs) && Sized(fs) && Storable(fs, st.msg)
    ensures var r := Step(fs, st, s); r.Next? ==> Storable(fs, r.st.msg)
    decreases |s|, 2
  {
    var p := PbVarint.ReadVarint32(s);
    if p.Done? {
      var i := PbMessage.Find(fs, p.value / 8);
      if i < |fs| { FieldStorable(fs, i, p.value % 8, st, p.rest); }
    }
  }

  lemma {:induction false} RunStorable(fs: seq<Field>, st: RunState, s: seq<byte>)
    requires WellFormed(fs) && Sized(fs) && Storable(fs, st.msg)
    ensures var r := Run(fs, st, s); r.End? ==> Storable(fs, r.st.msg)
    decreases |s|, 3
  {
    if s != [] {
      var r := Step(fs, st, s);
      if r.Next? {
        StepStorable(fs, st, s);
        RunStorable(fs, r.st, r.rest);
      }
    }
  }

  // Whatever bytes are decoded, what they leave keeps to the declared sizes at every depth:
  // nothing is written behind the end of a buffer or an array.
  lemma DecodedStorable(fs: seq<Field>, dest: seq<Slot>, s: seq<byte>)
    requires WellFormed(fs) && Sized(fs) && Leftover(fs, dest)
    ensures var r := Decode(fs, dest, s); r.Some? ==> Storable(fs, r.value)
  {
    ResetStorable(fs, dest);
    RunStorable(fs, Start(SetDefaults(fs, dest)), s);
  }

  // --- Encoding it again ---

  lemma {:induction false} StorableHeld(fs: seq<Field>, m: seq<Slot>)
    requires WellFormed(fs) && Storable(fs, m)
    ensures Held(fs, m) && PbCodec.InRange(fs, m)
    decreases fs, 2
  {
    forall i | 0 <= i < |fs|
      ensures HeldSlot(fs, m, i)
    {
      SlotHeld(fs, m, i);
    }
    forall i | 0 <= i < |fs|
      ensures PbCodec.InRangeSlot(fs, m, i)
    {
      var f, h := fs[i], Home(fs, i);
      assert f in fs && WellFormedField(f) && StorableSlot(fs, h, m[h]);
      if f.rule.OneOf? {
        PbRoundTrip.HomeIsOneof(fs, i);
        if m[h].which == f.tag { ValueHeld(f, m[h].value); }
      } else {
        SlotHeld(fs, m, i);
      }
    }
  }

  lemma {:induction false} ValueHeld(f: Field, v: Value)
    requires WellFormedField(f) && StorableValue(f, v)
    ensures HeldValue(f, v) && PbCodec.InRangeValue(f, v)
    decreases f, 3
  {
    if f.kind.Submessage? { StorableHeld(f.kind.fields, v.slots); }
  }

  lemma {:induction false} SlotHeld(fs: seq<Field>, m: seq<Slot>, i: nat)
    requires WellFormed(fs) && i < |fs| && Storable(fs, m)
    ensures HeldSlot(fs, m, i) && (!fs[i].rule.OneOf? ==> PbCodec.InRangeSlot(fs, m, i))
    decreases fs, 1
  {
    var f := fs[i];
    assert f in fs && WellFormedField(f) && StorableSlot(fs, i, m[i]);
    if f.rule.Repeated? {
      forall j | 0 <= j < f.arraySize && (m[i].Many? ==> j < m[i].count)
        ensures HeldValue(f, m[i].items[j]) && PbCodec.InRangeValue(f, m[i].items[j])
      {
        ValueHeld(f, m[i].items[j]);
      }
    } else if f.rule.OneOf? {
      if m[i].Union? {
        forall k: nat | k < |fs| && MemberOf(fs, i, k) && fs[k].tag == m[i].which ensures HeldValue(fs[k], m[i].value) {
          assert fs[k] in fs && WellFormedField(fs[k]);
          ValueHeld(fs[k], m[i].value);
        }
      }
    } else {
      ValueHeld(f, m[i].value);
    }
  }

  // The encoding of a field is a part of that of the message.
  lemma {:induction false} PartOf(fs: seq<Field>, m: seq<Slot>, i: nat, k: nat)
    requires |m| == |fs| && i <= k < |fs| && EncodeFrom(fs, m, i).Some?
    ensures EncodeField(fs, m, k).Some? && |EncodeField(fs, m, k).value| <= |EncodeFrom(fs, m, i).value|
    decreases k - i
  {
    if i < k { PartOf(fs, m, i + 1, k); }
  }

  lemma {:induction false} ItemPart(f: Field, items: seq<Value>, count: nat, j: nat, k: nat)
    requires j <= k < count <= |items| && EncodeItems(f, true, items, count, j).Some?
    ensures EncodeTagged(f, items[k]).Some? && |EncodeTagged(f, items[k]).value| <= |EncodeItems(f, true, items, count, j).value|
    decreases k - j
  {
    if j < k { ItemPart(f, items, count, j + 1, k); }
  }

  lemma {:induction false} ShortValue(f: Field, v: Value)
    requires WellFormedField(f) && StorableValue(f, v) && EncodeValue(f, v).Some? && |EncodeValue(f, v).value| < TWO32
    ensures PbRoundTrip.ReadableValue(f, v)
    decreases f, 3
  {
    if f.kind.Submessage? { ShortReadable(f.kind.fields, v.slots); }
  }

  // Of what keeps to its sizes everything can be read that is shorter than 2^32.
  lemma {:induction false} ShortReadable(fs: seq<Field>, m: seq<Slot>)
    requires WellFormed(fs) && Storable(fs, m) && EncodeFrom(fs, m, 0).Some? && |EncodeFrom(fs, m, 0).value| < TWO32
    ensures PbRoundTrip.Readable(fs, m)
    decreases fs, 2
  {
    forall i | 0 <= i < |fs|
      ensures PbRoundTrip.ReadableSlot(fs, m, i)
    {
      PartOf(fs, m, 0, i);
      ShortSlot(fs, m, i);
    }
  }

  lemma {:induction false} ShortSlot(fs: seq<Field>, m: seq<Slot>, i: nat)
    requires WellFormed(fs) && Storable(fs, m) && i < |fs|
    requires EncodeField(fs, m, i).Some? && |EncodeField(fs, m, i).value| < TWO32
    ensures PbRoundTrip.ReadableSlot(fs, m, i)
    decreases fs, 1
  {
    var f, h := fs[i], Home(fs, i);
    assert f in fs && WellFormedField(f) && StorableSlot(fs, h, m[h]);
    if f.rule.OneOf? {
      PbRoundTrip.HomeIsOneof(fs, i);
      if m[h].which == f.tag { ShortValue(f, m[h].value); }
    } else if f.rule.Repeated? {
      ShortArray(f, m[i].items, if HasSize(f) then m[i].count else f.arraySize);
    } else if !(Singular(f) && IsDefaultValue(f, m[i].value)) && (m[i].Opt? ==> m[i].has) {
      ShortValue(f, m[i].value);
    }
  }

  lemma {:induction false} ShortArray(f: Field, items: seq<Value>, count: nat)
    requires WellFormedField(f) && count <= f.arraySize == |items| && forall j :: 0 <= j < count ==> StorableValue(f, items[j])
    requires EncodeArray(f, items, count).Some? && |EncodeArray(f, items, count).value| < TWO32
    ensures PbRoundTrip.ReadableArray(f, items, count)
    decreases f, 4
  {
    if !Packable(f.kind) {
      forall k | 0 <= k < count ensures PbRoundTrip.ReadableValue(f, items[k]) {
        ItemPart(f, items, count, 0, k);
        ShortValue(f, items[k]);
      }
    }
  }

  // What has been decoded can be encoded, and decoding that gives it back, whatever bytes it
  // came from, if the encoding is shorter than 2^32.
  lemma Reencoded(fs: seq<Field>, dest: seq<Slot>, s: seq<byte>, again: seq<Slot>)
    requires WellFormed(fs) && Sized(fs) && Leftover(fs, dest) && Shaped(fs, again) && Decode(fs, dest, s).Some?
    ensures var m := Decode(fs, dest, s).value;
            && Held(fs, m) && Encode(fs, m).Some?
            && (|Encode(fs, m).value| < TWO32 ==>
                  && Decode(fs, again, Encode(fs, m).value).Some?
                  && Same(fs, m, Decode(fs, again, Encode(fs, m).value).value))
  {
    var m := Decode(fs, dest, s).value;
    DecodedStorable(fs, dest, s);
    StorableHeld(fs, m);
    PbCodec.MessageEncodes(fs, m, 0);
    if |Encode(fs, m).value| < TWO32 {
      ShortReadable(fs, m);
      PbRoundTrip.RoundTrip(fs, m, again);
    }
  }
}
