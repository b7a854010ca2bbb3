// What two encodings one after the other mean: the messages are joined, field by field and at
// every depth.

module PbJoin {
  import opened Basics
  import opened Bits
  import opened PbMessage
  import opened PbWire
  import opened PbRoundTrip

  // --- The join of two messages ---

  // Whether the field is in the encoding.
  predicate Present(f: Field, s: Slot) {
    match s
    case One(v) => f.rule.Required? || !IsDefaultValue(f, v)
    case Opt(has, _) => has
    case _ => false
  }

  // A value that only one message has is that one's. Of two, submessages are joined, and of
  // anything else the last one counts.
  ghost predicate JoinedValue(f: Field, p: bool, a: Value, q: bool, b: Value, r: Value)
    decreases f, 1
  {
    if p && q && f.kind.Submessage? then a.Msg? && b.Msg? && r.Msg? && Joined(f.kind.fields, a.slots, b.slots, r.slots)
    else SameValue(f, if q then b else a, r)
  }

  // The entries of an array are those of the first message and then those of the second; a
  // fixed-count array is the second's, and a oneof too unless it has no member there.
  ghost predicate JoinedSlot(fs: seq<Field>, i: nat, a: Slot, b: Slot, r: Slot)
    requires i < |fs|
    decreases fs, 0
  {
    var f := fs[i];
    match f.rule
    case Required => a.One? && b.One? && r.One? && JoinedValue(f, true, a.value, true, b.value, r.value)
    case Optional =>
      if HasSize(f) then
        && a.Opt? && b.Opt? && r.Opt? && r.has == (a.has || b.has)
        && (r.has ==> JoinedValue(f, a.has, a.value, b.has, b.value, r.value))
      else a.One? && b.One? && r.One? && JoinedValue(f, Present(f, a), a.value, Present(f, b), b.value, r.value)
    case Repeated =>
      if HasSize(f) then
        && a.Many? && b.Many? && r.Many?
        && r.count == a.count + b.count <= |r.items| && a.count <= |a.items| && b.count <= |b.items|
        && (forall j :: 0 <= j < a.count ==> SameValue(f, a.items[j], r.items[j]))
        && (forall j :: 0 <= j < b.count ==> SameValue(f, b.items[j], r.items[a.count + j]))
      else
        && b.Fixed? && r.Fixed? && |r.items| == |b.items|
        && forall j :: 0 <= j < |b.items| ==> SameValue(f, b.items[j], r.items[j])
    case OneOf =>
      if InsideUnion(fs, i) then r == a
      else
        && a.Union? && b.Union? && r.Union?
        && var w := if b.which != 0 then b else a;
           && r.which == w.which
           && forall k: nat :: k < |fs| && MemberOf(fs, i, k) && fs[k].tag == w.which ==> SameValue(fs[k], w.value, r.value)
  }

  ghost predicate Joined(fs: seq<Field>, a: seq<Slot>, b: seq<Slot>, r: seq<Slot>)
    decreases fs, 1
  {
    |a| == |b| == |r| == |fs| && forall i :: 0 <= i < |fs| ==> JoinedSlot(fs, i, a[i], b[i], r[i])
  }

  // The arrays have room for the entries of both.
  ghost predicate JoinRoomValue(f: Field, a: Value, b: Value)
    decreases f, 1
  {
    f.kind.Submessage? && !f.rule.Repeated? ==> a.Msg? && b.Msg? && JoinRoom(f.kind.fields, a.slots, b.slots)
  }

  ghost predicate JoinRoomSlot(f: Field, a: Slot, b: Slot)
    decreases f, 2
  {
    match f.rule
    case Required => a.One? && b.One? && JoinRoomValue(f, a.value, b.value)
    case Optional => Present(f, a) && Present(f, b) && (a.One? || a.Opt?) && (b.One? || b.Opt?) ==> JoinRoomValue(f, a.value, b.value)
    case Repeated => a.Many? && b.Many? ==> a.count + b.count <= f.arraySize
    case OneOf => true
  }

  ghost predicate JoinRoom(fs: seq<Field>, a: seq<Slot>, b: seq<Slot>)
    decreases fs, 3
  {
    |a| == |b| == |fs| && forall i :: 0 <= i < |fs| ==> JoinRoomSlot(fs[i], a[i], b[i])
  }

  // Of the fixed-count fields that hold anything there is exactly one.
  predicate SoleFixed(fs: seq<Field>) { NextFixed(fs, 0) < |fs| && NextFixed(fs, 0) == LastFixed(fs, |fs|) }

  // --- Merging twice ---

  // d is a struct with its defaults, x what is there after a was decoded into it, r what is
  // there after b was decoded as well.
  ghost predicate Twice(fs: seq<Field>, d: seq<Slot>, a: seq<Slot>, x: seq<Slot>, b: seq<Slot>, r: seq<Slot>) {
    && WellFormed(fs) && Held(fs, a) && Held(fs, b) && Fresh(fs, d)
    && Merged(fs, d, a, x) && Merged(fs, x, b, r)
  }

  lemma {:induction false} BothJoin(f: Field, d: Value, a: Value, x: Value, b: Value, r: Value)
    requires WellFormedField(f) && HeldValue(f, a) && HeldValue(f, b) && ShapedValue(f, d)
    requires f.kind.Submessage? ==> Fresh(f.kind.fields, d.slots)
    requires MergedValue(f, d, a, x) && MergedValue(f, x, b, r)
    ensures JoinedValue(f, true, a, true, b, r)
    decreases f, 1
  {
    if f.kind.Submessage? { MergedTwice(f.kind.fields, d.slots, a.slots, x.slots, b.slots, r.slots); }
  }

  lemma {:induction false} SlotJoins(fs: seq<Field>, d: seq<Slot>, a: seq<Slot>, x: seq<Slot>, b: seq<Slot>, r: seq<Slot>, i: nat)
    requires Twice(fs, d, a, x, b, r) && i < |fs| && (fs[i].rule.Required? || fs[i].rule.Optional?)
    ensures JoinedSlot(fs, i, a[i], b[i], r[i])
    decreases fs, 0
  {
    var f := fs[i];
    assert f in fs && WellFormedField(f) && HeldSlot(fs, a, i) && HeldSlot(fs, b, i);
    assert ShapedSlot(fs, i, d[i]) && DefaultSlot(f, d[i]) == d[i];
    assert MergedSlot(fs, i, d[i], a[i], x[i]) && MergedSlot(fs, i, x[i], b[i], r[i]);
    FreshInside(f, d[i].value);
    if Present(f, a[i]) && Present(f, b[i]) {
      BothJoin(f, d[i].value, a[i].value, x[i].value, b[i].value, r[i].value);
    } else if Present(f, b[i]) {
      MergedFreshValue(f, d[i].value, b[i].value, r[i].value);
    } else if Present(f, a[i]) {
      MergedFreshValue(f, d[i].value, a[i].value, r[i].value);
    } else if Singular(f) {
      DefaultValueSame(f, a[i].value, d[i].value);
    }
  }

  // Merging one message and then another into defaults joins them.
  lemma {:induction false} MergedTwice(fs: seq<Field>, d: seq<Slot>, a: seq<Slot>, x: seq<Slot>, b: seq<Slot>, r: seq<Slot>)
    requires Twice(fs, d, a, x, b, r)
    ensures Joined(fs, a, b, r)
    decreases fs, 1
  {
    forall i | 0 <= i < |fs|
      ensures JoinedSlot(fs, i, a[i], b[i], r[i])
    {
      if fs[i].rule.Required? || fs[i].rule.Optional? {
        SlotJoins(fs, d, a, x, b, r, i);
      } else {
        ArrayOrUnionJoins(fs, d, a, x, b, r, i);
      }
    }
  }

  lemma ArrayOrUnionJoins(fs: seq<Field>, d: seq<Slot>, a: seq<Slot>, x: seq<Slot>, b: seq<Slot>, r: seq<Slot>, i: nat)
    requires Twice(fs, d, a, x, b, r) && i < |fs| && (fs[i].rule.Repeated? || fs[i].rule.OneOf?)
    ensures JoinedSlot(fs, i, a[i], b[i], r[i])
  {
    assert fs[i] in fs && HeldSlot(fs, a, i) && HeldSlot(fs, b, i);
    assert ShapedSlot(fs, i, d[i]) && DefaultSlot(fs[i], d[i]) == d[i];
    assert MergedSlot(fs, i, d[i], a[i], x[i]) && MergedSlot(fs, i, x[i], b[i], r[i]);
    if fs[i].rule.Repeated? {
      ArrayJoins(fs, i, d[i], a[i], x[i], b[i], r[i]);
    } else {
      ZeroTagFree(fs);
      UnionJoins(fs, i, d[i], a[i], x[i], b[i], r[i]);
    }
  }

  lemma ArrayJoins(fs: seq<Field>, i: nat, d: Slot, a: Slot, x: Slot, b: Slot, r: Slot)
    requires i < |fs| && fs[i].rule.Repeated? && ShapedSlot(fs, i, d) && DefaultSlot(fs[i], d) == d
    requires (if HasSize(fs[i]) then a.Many? else a.Fixed?) && |a.items| == fs[i].arraySize
    requires MergedSlot(fs, i, d, a, x) && MergedSlot(fs, i, x, b, r)
    ensures JoinedSlot(fs, i, a, b, r)
  {
  }

  lemma UnionJoins(fs: seq<Field>, i: nat, d: Slot, a: Slot, x: Slot, b: Slot, r: Slot)
    requires i < |fs| && fs[i].rule.OneOf? && DefaultSlot(fs[i], d) == d
    requires forall k :: 0 <= k < |fs| ==> fs[k].tag != 0
    requires if InsideUnion(fs, i) then d.Shared? && a.Shared? else d.Union? && a.Union? && b.Union?
    requires MergedSlot(fs, i, d, a, x) && MergedSlot(fs, i, x, b, r)
    ensures JoinedSlot(fs, i, a, b, r)
  {
  }

  // --- Room for both ---

  // There is room for the second message exactly when there is room for both.
  lemma {:induction false} RoomForBoth(fs: seq<Field>, d: seq<Slot>, a: seq<Slot>, x: seq<Slot>, b: seq<Slot>)
    requires WellFormed(fs) && Held(fs, a) && Held(fs, b) && Fresh(fs, d) && Merged(fs, d, a, x)
    requires EncodeFrom(fs, a, 0).Some? && EncodeFrom(fs, b, 0).Some?
    ensures Room(fs, x, b) <==> JoinRoom(fs, a, b)
    decreases fs, 1
  {
    forall i | 0 <= i < |fs|
      ensures RoomSlot(fs, x, b, i) <==> JoinRoomSlot(fs[i], a[i], b[i])
    {
      RoomForSlot(fs, d, a, x, b, i);
    }
    if Room(fs, x, b) {
      forall i | 0 <= i < |fs| ensures JoinRoomSlot(fs[i], a[i], b[i]) { assert RoomSlot(fs, x, b, i); }
    }
  }

  lemma {:induction false} RoomForSlot(fs: seq<Field>, d: seq<Slot>, a: seq<Slot>, x: seq<Slot>, b: seq<Slot>, i: nat)
    requires WellFormed(fs) && Held(fs, a) && Held(fs, b) && Fresh(fs, d) && Merged(fs, d, a, x) && i < |fs|
    requires EncodeFrom(fs, a, 0).Some? && EncodeFrom(fs, b, 0).Some?
    ensures RoomSlot(fs, x, b, i) <==> JoinRoomSlot(fs[i], a[i], b[i])
    decreases fs, 0
  {
    var f, h := fs[i], Home(fs, i);
    EachEncodes(fs, a, 0, i);
    EachEncodes(fs, b, 0, i);
    assert f in fs && WellFormedField(f) && HeldSlot(fs, a, i) && HeldSlot(fs, b, i);
    assert ShapedSlot(fs, h, d[h]) && DefaultSlot(fs[h], d[h]) == d[h] && MergedSlot(fs, h, d[h], a[h], x[h]);
    if f.rule.OneOf? {
      HomeIsOneof(fs, i);
      assert HeldSlot(fs, a, h) && HeldSlot(fs, b, h);
      if a[h].which != 0 { WhichIsOneof(fs, a, h); }
    } else if !f.rule.Repeated? && Present(f, b[i]) {
      FreshInside(f, d[i].value);
      if Present(f, a[i]) { RoomForValue(f, d[i].value, a[i].value, x[i].value, b[i].value); }
      else { RoomFreshValue(f, d[i].value, b[i].value); }
    }
  }

  lemma {:induction false} RoomForValue(f: Field, d: Value, a: Value, x: Value, b: Value)
    requires WellFormedField(f) && HeldValue(f, a) && HeldValue(f, b) && ShapedValue(f, d) && MergedValue(f, d, a, x)
    requires f.kind.Submessage? ==> Fresh(f.kind.fields, d.slots)
    requires EncodeValue(f, a).Some? && EncodeValue(f, b).Some?
    ensures RoomValue(f, x, b) <==> JoinRoomValue(f, a, b)
    decreases f, 1
  {
    if f.kind.Submessage? { RoomForBoth(f.kind.fields, d.slots, a.slots, x.slots, b.slots); }
  }

  // --- The bytes ---

  // Decoding the encodings of two messages, one after the other, joins the messages. It
  // succeeds exactly when both can be read, the arrays have room for both, and there is not
  // just one fixed-count field, whose count would go on from the first message.
  lemma EncodingsJoin(fs: seq<Field>, a: seq<Slot>, b: seq<Slot>, dest: seq<Slot>)
    requires WellFormed(fs) && Held(fs, a) && Held(fs, b) && Shaped(fs, dest)
    requires Encode(fs, a).Some? && |Encode(fs, a).value| < TWO63
    requires Encode(fs, b).Some? && |Encode(fs, b).value| < TWO63
    ensures var r := Decode(fs, dest, Encode(fs, a).value + Encode(fs, b).value);
            && (r.Some? <==> Readable(fs, a) && Readable(fs, b) && JoinRoom(fs, a, b) && !SoleFixed(fs))
            && (r.Some? ==> Joined(fs, a, b, r.value))
  {
    var d, more := SetDefaults(fs, dest), Encode(fs, b).value;
    SetDefaultsFresh(fs, dest);
    RoomFresh(fs, d, a);
    TakenAll(fs, d, a);
    var st := FieldsRoundTrip(fs, a, d, 0, Start(d), more);
    if Readable(fs, a) {
      AllDone(fs, a, d, st);
      MergedShaped(fs, d, a, st.msg);
      RoomForBoth(fs, d, a, st.msg, b);
      TakenAll(fs, st.msg, b);
      LastIsNext(fs, st.fixed);
      var st' := FieldsRoundTrip(fs, b, st.msg, 0, st, []);
      assert more + [] == more;
      if TakenFrom(fs, st.msg, b, 0) && Onward(fs, 0, st.fixed) {
        AllDone(fs, b, st.msg, st');
        MergedTwice(fs, d, a, st.msg, b, st'.msg);
      }
    }
  }

  lemma LastIsNext(fs: seq<Field>, fixed: Option<(nat, nat)>)
    requires FixedAt(fs, |fs|, fixed)
    ensures Onward(fs, 0, fixed) <==> !SoleFixed(fs)
  {
    NextFixedFrom(fs, 0);
    NoneLast(fs, |fs|);
  }

  // If there is a next one there is a last one.
  lemma {:induction false} NoneLast(fs: seq<Field>, i: nat)
    requires i <= |fs|
    ensures LastFixed(fs, i) < i || LastFixed(fs, i) == |fs|
    ensures NextFixed(fs, 0) < i ==> LastFixed(fs, i) < |fs|
    ensures LastFixed(fs, i) == |fs| ==> NextFixed(fs, 0) == NextFixed(fs, i)
  {
    NextFixedFrom(fs, i);
    if i > 0 { NoneLast(fs, i - 1); }
  }
}
