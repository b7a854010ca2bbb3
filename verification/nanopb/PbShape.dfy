// Decoding keeps the layout of the struct.

module PbShape {
  import opened Basics
  import opened PbMessage
  import opened PbWire
  import PbRoundTrip
  import PbVarint

  lemma {:induction false} ValueShaped(f: Field, dest: Value, s: seq<byte>)
    requires WellFormedField(f) && ShapedValue(f, dest)
    ensures var p := PbWire.DecodeValue(f, dest, s); p.Done? ==> ShapedValue(f, p.value)
    decreases |s|, 0
  {
    if f.kind.Submessage? {
      var c := Delimited(s);
      if c.Done? {
        var fs := f.kind.fields;
        PbRoundTrip.SetDefaultsFresh(fs, dest.slots);
        var start := if f.rule.Repeated? then SetDefaults(fs, dest.slots) else dest.slots;
        RunShaped(fs, Start(start), c.value);
      }
    }
  }

  lemma RepeatedShaped(f: Field, wt: nat, count: nat, items: seq<Value>, s: seq<byte>)
    requires WellFormedField(f) && forall v :: v in items ==> ShapedValue(f, v)
    ensures var p := DecodeRepeated(f, wt, count, items, s);
            p.Done? ==> |p.value.1| == |items| && forall v :: v in p.value.1 ==> ShapedValue(f, v)
    decreases |s|, 1
  {
    if wt == WT_STRING && Packable(f.kind) {
      var c := Delimited(s);
      if c.Done? { PackedLength(f, count, items, c.value); }
    } else if count < f.arraySize && count < |items| {
      assert items[count] in items;
      ValueShaped(f, items[count], s);
    }
  }

  lemma {:induction false} PackedLength(f: Field, count: nat, items: seq<Value>, s: seq<byte>)
    requires Packable(f.kind)
    ensures var p := DecodePacked(f, count, items, s); p.Some? ==> |p.value.1| == |items|
    decreases |s|
  {
    if s != [] && count < f.arraySize && count < |items| {
      var p := PbWire.DecodeNumber(f.kind, f.dataSize, s);
      if p.Done? { PackedLength(f, count + 1, items[count := p.value], p.rest); }
    }
  }

  lemma SlotShaped(fs: seq<Field>, msg: seq<Slot>, i: nat, slot: Slot)
    requires Shaped(fs, msg) && i < |fs| && ShapedSlot(fs, i, slot)
    ensures Shaped(fs, msg[i := slot])
  {
  }

  lemma {:induction false} FieldShaped(fs: seq<Field>, i: nat, wt: nat, st: RunState, s: seq<byte>)
    requires WellFormed(fs) && i < |fs| && Shaped(fs, st.msg)
    ensures var r := DecodeField(fs, i, wt, st, s); r.Next? ==> Shaped(fs, r.st.msg)
    decreases |s|, 2
  {
    var f, h := fs[i], Home(fs, i);
    assert f in fs && WellFormedField(f) && ShapedSlot(fs, h, st.msg[h]) && ShapedSlot(fs, i, st.msg[i]);
    var r := DecodeField(fs, i, wt, st, s);
    if r.Next? {
      match st.msg[h]
      case One(v) => ValueShaped(f, v, s);
      case Opt(_, v) => ValueShaped(f, v, s);
      case Many(count, items) => RepeatedShaped(f, wt, count, items, s);
      case Fixed(items) => RepeatedShaped(f, wt, EnterFixed(fs, i, st.fixed).value.1, items, s);
      case Union(_, _) => PbRoundTrip.HomeIsOneof(fs, i);
      SlotShaped(fs, st.msg, h, r.st.msg[h]);
    }
  }

  lemma {:induction false} RunShaped(fs: seq<Field>, st: RunState, s: seq<byte>)
    requires WellFormed(fs) && Shaped(fs, st.msg)
    ensures var r := Run(fs, st, s); r.End? ==> Shaped(fs, r.st.msg)
    decreases |s|, 3
  {
    if s != [] {
      var r := Step(fs, st, s);
      if r.Next? {
        StepShaped(fs, st, s);
        RunShaped(fs, r.st, r.rest);
      }
    }
  }

  lemma {:induction false} StepShaped(fs: seq<Field>, st: RunState, s: seq<byte>)
    requires WellFormed(fs) && Shaped(fs, st.msg)
    ensures var r := Step(fs, st, s); r.Next? ==> Shaped(fs, r.st.msg)
    decreases |s|, 2
  {
    var p := PbVarint.ReadVarint32(s);
    if p.Done? {
      var i := PbMessage.Find(fs, p.value / 8);
      if i < |fs| { FieldShaped(fs, i, p.value % 8, st, p.rest); }
    }
  }
}
