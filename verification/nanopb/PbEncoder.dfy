// The encoder as it runs. Each method is proved to emit exactly the bytes PbWire says: in a
// sizing run to count them, in a writing run to put them in the buffer if they fit.

module PbEncoder {
  import opened Basics
  import opened PbMessage
  import opened PbWire
  import opened PbIterator
  import opened PbOutputStream
  import PbRoundTrip
  import PbVarint

  // --- One value ---

  method EncodeValue(s: OStream, f: Field, v: Value) returns (ok: bool)
    requires s.Valid() && WellFormedField(f) && HeldValue(f, v)
    modifies s, s.buf
    ensures s.Valid() && Emits(s.sizing, s.maxSize, old(s.Now()), s.Now(), PbWire.EncodeValue(f, v), ok)
    decreases f, 1
  {
    if f.kind.Submessage? {
      ok := EncodeSubmessage(s, f, v);
    } else if f.kind.Bytes? {
      if |v.b| + BYTES_OFFSET > f.dataSize {
        return false;
      }
      ok := s.EncodeString(v.b);
    } else if f.kind.Str? {
      var b := StringContents(v.b, f.dataSize);
      ok := s.EncodeString(b);
    } else if f.kind.FixedBytes? {
      ok := s.EncodeString(v.b);
    } else {
      ok := s.EncodeNumber(f.kind, f.dataSize, v.v);
    }
  }

  // The bytes pb_enc_string finds before the terminator. Beyond b the buffer is zero.
  method StringContents(b: seq<byte>, maxSize: nat) returns (r: seq<byte>)
    ensures r == CString(b, maxSize)
  {
    var size := 0;
    while size < maxSize && size < |b| && b[size] != 0
      invariant size <= maxSize && size <= |b|
      invariant CString(b, maxSize) == b[..size] + CString(b[size..], maxSize - size)
    {
      StringStep(b, size, maxSize);
      size := size + 1;
    }
    r := b[..size];
  }

  lemma StringStep(b: seq<byte>, size: nat, maxSize: nat)
    requires size < maxSize && size < |b| && b[size] != 0
    ensures b[..size] + CString(b[size..], maxSize - size) == b[..size + 1] + CString(b[size + 1..], maxSize - (size + 1))
  {
    assert b[size..][0] == b[size] && b[size..][1..] == b[size + 1..];
    assert b[..size + 1] == b[..size] + [b[size]];
  }

  // pb_encode_submessage: a sizing run for the length, then the contents through a
  // substream of just that size.
  method EncodeSubmessage(s: OStream, f: Field, v: Value) returns (ok: bool)
    requires s.Valid() && f.kind.Submessage? && WellFormedField(f) && HeldValue(f, v)
    modifies s, s.buf
    ensures s.Valid() && Emits(s.sizing, s.maxSize, old(s.Now()), s.Now(), PbWire.EncodeValue(f, v), ok)
    decreases f, 0
  {
    var fs := f.kind.fields;
    ghost var a, body := s.Now(), EncodeFrom(fs, v.slots, 0);
    var sizer := new OStream.Sizing();
    ok := Encode(sizer, fs, v.slots);
    if !ok {
      return;
    }
    var size := sizer.bytesWritten;
    ghost var head := Some(PbVarint.EncodeVarint(size));
    assert PbWire.EncodeValue(f, v) == Append(head, body);
    ok := s.EncodeVarint(size);
    ghost var b := s.Now();
    if !ok {
      EmitsNoMore(s.sizing, s.maxSize, a, b, head, body);
      return;
    }
    if s.sizing {
      ok := s.Write([], size, body.value);
      EmitsBoth(s.sizing, s.maxSize, a, b, s.Now(), head, body, ok);
      return;
    }
    ok := WriteContents(s, fs, v.slots, size);
    EmitsBoth(s.sizing, s.maxSize, a, b, s.Now(), head, body, ok);
  }

  // The second half of pb_encode_submessage.
  method WriteContents(s: OStream, fs: seq<Field>, m: seq<Slot>, size: nat) returns (ok: bool)
    requires s.Valid() && !s.sizing && WellFormed(fs) && Held(fs, m)
    requires EncodeFrom(fs, m, 0).Some? && |EncodeFrom(fs, m, 0).value| == size
    modifies s, s.buf
    ensures s.Valid() && Emits(s.sizing, s.maxSize, old(s.Now()), s.Now(), EncodeFrom(fs, m, 0), ok)
    decreases fs, 7
  {
    if s.bytesWritten + size > s.maxSize {
      return false;
    }
    var sub := new OStream.Sub(s, size);
    ok := Encode(sub, fs, m);
    s.bytesWritten := s.bytesWritten + sub.bytesWritten;
    s.state := sub.state;
    if sub.bytesWritten != size {
      // "submsg size changed"
      assert false;
    }
  }

  // --- Fields ---

  method EncodeTagged(s: OStream, f: Field, v: Value) returns (ok: bool)
    requires s.Valid() && WellFormedField(f) && HeldValue(f, v)
    modifies s, s.buf
    ensures s.Valid() && Emits(s.sizing, s.maxSize, old(s.Now()), s.Now(), PbWire.EncodeTagged(f, v), ok)
    decreases f, 2
  {
    ghost var a, tag, value := s.Now(), Some(EncodeTag(WireType(f.kind), f.tag)), PbWire.EncodeValue(f, v);
    ok := s.EncodeTag(WireType(f.kind), f.tag);
    ghost var b := s.Now();
    if !ok {
      EmitsNoMore(s.sizing, s.maxSize, a, b, tag, value);
      return;
    }
    ok := EncodeValue(s, f, v);
    EmitsBoth(s.sizing, s.maxSize, a, b, s.Now(), tag, value, ok);
  }

  // The loops of encode_array.
  method EncodeEach(s: OStream, f: Field, tagged: bool, items: seq<Value>, count: nat) returns (ok: bool)
    requires s.Valid() && WellFormedField(f) && count <= |items|
    requires forall j :: 0 <= j < count ==> HeldValue(f, items[j])
    modifies s, s.buf
    ensures s.Valid() && Emits(s.sizing, s.maxSize, old(s.Now()), s.Now(), EncodeItems(f, tagged, items, count, 0), ok)
    decreases f, 3
  {
    ghost var a, done := s.Now(), Some([]);
    AppendNothing(EncodeItems(f, tagged, items, count, 0));
    var i := 0;
    while i < count
      invariant i <= count && s.Valid()
      invariant Emits(s.sizing, s.maxSize, a, s.Now(), done, true)
      invariant EncodeItems(f, tagged, items, count, 0) == Append(done, EncodeItems(f, tagged, items, count, i))
    {
      ghost var b := s.Now();
      ghost var item := if tagged then PbWire.EncodeTagged(f, items[i]) else PbWire.EncodeValue(f, items[i]);
      ghost var more := EncodeItems(f, tagged, items, count, i + 1);
      AppendAssociative(done, item, more);
      if tagged {
        ok := EncodeTagged(s, f, items[i]);
      } else {
        ok := EncodeValue(s, f, items[i]);
      }
      EmitsBoth(s.sizing, s.maxSize, a, b, s.Now(), done, item, ok);
      if !ok {
        EmitsNoMore(s.sizing, s.maxSize, a, s.Now(), Append(done, item), more);
        return;
      }
      done := Append(done, item);
      i := i + 1;
    }
    return true;
  }

  lemma AppendAssociative(a: Option<seq<byte>>, b: Option<seq<byte>>, c: Option<seq<byte>>)
    ensures Append(a, Append(b, c)) == Append(Append(a, b), c)
  {
    if a.Some? && b.Some? && c.Some? { assert a.value + (b.value + c.value) == a.value + b.value + c.value; }
  }

  lemma AppendNothing(e: Option<seq<byte>>)
    ensures Append(Some([]), e) == e
  {
    if e.Some? { assert [] + e.value == e.value; }
  }

  // Numbers always encode, and those of fixed width to that width.
  lemma {:induction false} PackedSize(f: Field, items: seq<Value>, count: nat, j: nat)
    requires WellFormedField(f) && Packable(f.kind) && j <= count <= |items|
    requires forall k :: 0 <= k < count ==> HeldValue(f, items[k])
    ensures EncodeItems(f, false, items, count, j).Some?
    ensures f.kind.Fixed32? ==> |EncodeItems(f, false, items, count, j).value| == 4 * (count - j)
    ensures f.kind.Fixed64? ==> |EncodeItems(f, false, items, count, j).value| == 8 * (count - j)
    decreases count - j
  {
    if j < count {
      assert HeldValue(f, items[j]);
      PackedSize(f, items, count, j + 1);
    }
  }

  method EncodeArray(s: OStream, f: Field, items: seq<Value>, count: nat) returns (ok: bool)
    requires s.Valid() && WellFormedField(f) && |items| == f.arraySize
    requires forall j :: 0 <= j < count && j < |items| ==> HeldValue(f, items[j])
    modifies s, s.buf
    ensures s.Valid() && Emits(s.sizing, s.maxSize, old(s.Now()), s.Now(), PbWire.EncodeArray(f, items, count), ok)
    decreases f, 5
  {
    if count == 0 {
      return true;
    }
    if count > f.arraySize {
      return false;
    }
    if !Packable(f.kind) {
      ok := EncodeEach(s, f, true, items, count);
      return;
    }
    PackedSize(f, items, count, 0);
    ghost var a, payload := s.Now(), EncodeItems(f, false, items, count, 0).value;
    ghost var tag, rest := Some(EncodeTag(WT_STRING, f.tag)), Some(EncodeString(payload));
    ok := s.EncodeTag(WT_STRING, f.tag);
    ghost var b := s.Now();
    if !ok {
      EmitsNoMore(s.sizing, s.maxSize, a, b, tag, rest);
      return;
    }
    ok := EncodePacked(s, f, items, count);
    EmitsBoth(s.sizing, s.maxSize, a, b, s.Now(), tag, rest, ok);
  }

  // The length and the contents of a packed array.
  method EncodePacked(s: OStream, f: Field, items: seq<Value>, count: nat) returns (ok: bool)
    requires s.Valid() && WellFormedField(f) && Packable(f.kind) && 0 < count <= |items| == f.arraySize
    requires forall j :: 0 <= j < count ==> HeldValue(f, items[j])
    requires EncodeItems(f, false, items, count, 0).Some?
    modifies s, s.buf
    ensures s.Valid()
    ensures Emits(s.sizing, s.maxSize, old(s.Now()), s.Now(), Some(EncodeString(EncodeItems(f, false, items, count, 0).value)), ok)
    decreases f, 4
  {
    ghost var a, payload := s.Now(), EncodeItems(f, false, items, count, 0);
    var size: nat;
    if f.kind.Fixed32? {
      PackedSize(f, items, count, 0);
      size := 4 * count;
    } else if f.kind.Fixed64? {
      PackedSize(f, items, count, 0);
      size := 8 * count;
    } else {
      var sizer := new OStream.Sizing();
      ok := EncodeEach(sizer, f, false, items, count);
      if !ok {
        return;
      }
      size := sizer.bytesWritten;
    }
    ghost var head := Some(PbVarint.EncodeVarint(size));
    assert Append(head, payload) == Some(EncodeString(payload.value));
    ok := s.EncodeVarint(size);
    ghost var b := s.Now();
    if !ok {
      EmitsNoMore(s.sizing, s.maxSize, a, b, head, payload);
      return;
    }
    if s.sizing {
      ok := s.Write([], size, payload.value);
    } else {
      ok := EncodeEach(s, f, false, items, count);
    }
    EmitsBoth(s.sizing, s.maxSize, a, b, s.Now(), head, payload, ok);
  }

  // pb_check_proto3_default_value, on a field as on its data.
  method CheckDefaultValue(f: Field, v: Value) returns (r: bool)
    requires WellFormedField(f) && HeldValue(f, v) && Singular(f)
    ensures r == IsDefaultValue(f, v)
    decreases f, 0
  {
    if f.kind.Bytes? {
      r := v.b == [];
    } else if f.kind.Str? {
      r := f.dataSize == 0 || v.b == [] || v.b[0] == 0;
    } else if f.kind.FixedBytes? {
      r := f.dataSize == 0;
    } else if f.kind.Submessage? {
      var iter := new FieldIter(f.kind.fields);
      var more := iter.fields != [];
      while more
        invariant iter.Valid() && iter.fields == f.kind.fields && fresh(iter)
        invariant more ==> iter.pos < |iter.fields|
        invariant forall i :: 0 <= i < |iter.fields| && (more ==> i < iter.pos) ==> IsDefaultSlot(iter.fields, v.slots, i)
        decreases if more then |iter.fields| - iter.pos else 0
      {
        var d := CheckDefaultSlot(iter, v.slots);
        if !d {
          return false;
        }
        more := iter.Next();
      }
      r := true;
    } else {
      r := v.v == 0;
    }
  }

  method CheckDefaultSlot(iter: FieldIter, m: seq<Slot>) returns (r: bool)
    requires iter.Valid() && iter.pos < |iter.fields|
    requires WellFormed(iter.fields) && Held(iter.fields, m) && !FixedCount(iter.fields[iter.pos])
    ensures r == IsDefaultSlot(iter.fields, m, iter.pos)
    decreases iter.fields, 0
  {
    var fs, i := iter.fields, iter.pos;
    var f, h := fs[i], Home(fs, i);
    assert f in fs && WellFormedField(f) && HeldSlot(fs, m, i) && HeldSlot(fs, m, h);
    if f.rule.Required? {
      r := false;
    } else if f.rule.Repeated? {
      r := m[i].count == 0;
    } else if f.rule.OneOf? {
      PbRoundTrip.HomeIsOneof(fs, i);
      r := m[h].which == 0;
    } else if HasSize(f) {
      r := !m[i].has;
    } else {
      r := CheckDefaultValue(f, m[i].value);
    }
  }

  // encode_basic_field.
  method EncodeField(s: OStream, iter: FieldIter, m: seq<Slot>) returns (ok: bool)
    requires s.Valid() && iter.Valid() && iter.pos < |iter.fields|
    requires WellFormed(iter.fields) && Held(iter.fields, m)
    modifies s, s.buf
    ensures s.Valid() && Emits(s.sizing, s.maxSize, old(s.Now()), s.Now(), PbWire.EncodeField(iter.fields, m, iter.pos), ok)
    decreases iter.fields, 5
  {
    var fs, i := iter.fields, iter.pos;
    var f, h := fs[i], Home(fs, i);
    assert f in fs && WellFormedField(f) && HeldSlot(fs, m, i);
    var implicitHas := true;
    if !HasSize(f) && f.rule.Optional? {
      var d := CheckDefaultValue(f, m[i].value);
      implicitHas := !d;
    }
    match f.rule
    case Required => ok := EncodeTagged(s, f, m[i].value);
    case Optional =>
      ok := EncodePresent(s, f, if HasSize(f) then m[i].has else implicitHas, m[i].value);
    case Repeated =>
      ok := EncodeArray(s, f, m[i].items, if HasSize(f) then m[i].count else f.arraySize);
    case OneOf =>
      OneofHeld(fs, m, i);
      ok := EncodePresent(s, f, m[h].which == f.tag, m[h].value);
  }

  lemma OneofHeld(fs: seq<Field>, m: seq<Slot>, i: nat)
    requires WellFormed(fs) && Held(fs, m) && i < |fs| && fs[i].rule.OneOf?
    ensures m[Home(fs, i)].Union? && (m[Home(fs, i)].which == fs[i].tag ==> HeldValue(fs[i], m[Home(fs, i)].value))
  {
    var h := Home(fs, i);
    PbRoundTrip.HomeIsOneof(fs, i);
    assert HeldSlot(fs, m, h) && MemberOf(fs, h, i);
  }

  method EncodePresent(s: OStream, f: Field, present: bool, v: Value) returns (ok: bool)
    requires s.Valid() && WellFormedField(f) && (present ==> HeldValue(f, v))
    modifies s, s.buf
    ensures s.Valid()
    ensures Emits(s.sizing, s.maxSize, old(s.Now()), s.Now(), if present then PbWire.EncodeTagged(f, v) else Some([]), ok)
    decreases f, 3
  {
    if present {
      ok := EncodeTagged(s, f, v);
    } else {
      ok := true;
    }
  }

  // pb_encode.
  method Encode(s: OStream, fs: seq<Field>, m: seq<Slot>) returns (ok: bool)
    requires s.Valid() && WellFormed(fs) && Held(fs, m)
    modifies s, s.buf
    ensures s.Valid() && Emits(s.sizing, s.maxSize, old(s.Now()), s.Now(), EncodeFrom(fs, m, 0), ok)
    decreases fs, 6
  {
    ghost var a, done := s.Now(), Some([]);
    AppendNothing(EncodeFrom(fs, m, 0));
    var iter := new FieldIter(fs);
    if fs == [] {
      return true;
    }
    ghost var i := 0;
    var more := true;
    while more
      invariant s.Valid() && iter.Valid() && iter.fields == fs && fresh(iter)
      invariant i <= |fs| && more == (i < |fs|) && (more ==> iter.pos == i)
      invariant Emits(s.sizing, s.maxSize, a, s.Now(), done, true)
      invariant EncodeFrom(fs, m, 0) == Append(done, EncodeFrom(fs, m, i))
      decreases |fs| - i
    {
      ghost var b, item, rest := s.Now(), PbWire.EncodeField(fs, m, i), EncodeFrom(fs, m, i + 1);
      AppendAssociative(done, item, rest);
      ok := EncodeField(s, iter, m);
      EmitsBoth(s.sizing, s.maxSize, a, b, s.Now(), done, item, ok);
      if !ok {
        EmitsNoMore(s.sizing, s.maxSize, a, s.Now(), Append(done, item), rest);
        return;
      }
      done := Append(done, item);
      more := iter.Next();
      i := i + 1;
    }
    return true;
  }
}
