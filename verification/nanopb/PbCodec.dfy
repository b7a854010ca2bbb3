// The library as its callers use it: size, encode into a buffer, decode from it.

module PbCodec {
  import opened Basics
  import opened Bits
  import opened PbMessage
  import opened PbWire
  import opened PbRoundTrip
  import opened PbInputStream
  import opened PbOutputStream
  import PbEncoder
  import PbDecoder

  // --- When encoding succeeds ---

  // The bytes fields and the arrays that are written stay within their declared sizes.
  ghost predicate InRangeValue(f: Field, v: Value)
    decreases f, 0
  {
    match f.kind
    case Bytes => v.Data? && |v.b| + BYTES_OFFSET <= f.dataSize
    case Submessage(fs) => v.Msg? && |v.slots| == |fs| && InRange(fs, v.slots)
    case _ => true
  }

  ghost predicate InRangeSlot(fs: seq<Field>, m: seq<Slot>, i: nat)
    requires i < |fs| == |m|
    decreases fs, 0
  {
    var f := fs[i];
    match m[Home(fs, i)]
    case One(v) => (Singular(f) && IsDefaultValue(f, v)) || InRangeValue(f, v)
    case Opt(has, v) => has ==> InRangeValue(f, v)
    case Many(count, items) => count <= f.arraySize && count <= |items| && forall k :: 0 <= k < count ==> InRangeValue(f, items[k])
    case Fixed(items) => forall k :: 0 <= k < |items| ==> InRangeValue(f, items[k])
    case Union(which, v) => which == f.tag ==> InRangeValue(f, v)
    case Shared => true
  }

  ghost predicate InRange(fs: seq<Field>, m: seq<Slot>)
    requires |m| == |fs|
    decreases fs, 1
  {
    forall i :: 0 <= i < |fs| ==> InRangeSlot(fs, m, i)
  }

  ghost predicate InRangeFrom(fs: seq<Field>, m: seq<Slot>, i: nat)
    requires |m| == |fs|
  {
    forall k :: i <= k < |fs| ==> InRangeSlot(fs, m, k)
  }

  lemma {:induction false} ValueEncodes(f: Field, v: Value)
    requires WellFormedField(f) && HeldValue(f, v)
    ensures EncodeValue(f, v).Some? <==> InRangeValue(f, v)
    decreases f, 0
  {
    if f.kind.Submessage? {
      var fs := f.kind.fields;
      MessageEncodes(fs, v.slots, 0);
      assert InRange(fs, v.slots) <==> EncodeFrom(fs, v.slots, 0).Some?;
    }
  }

  lemma {:induction false} ItemsEncode(f: Field, tagged: bool, items: seq<Value>, count: nat, j: nat)
    requires WellFormedField(f) && j <= count <= |items| && forall k :: j <= k < count ==> HeldValue(f, items[k])
    ensures EncodeItems(f, tagged, items, count, j).Some? <==> forall k :: j <= k < count ==> InRangeValue(f, items[k])
    decreases f, 1, count - j
  {
    if j < count {
      ValueEncodes(f, items[j]);
      ItemsEncode(f, tagged, items, count, j + 1);
    }
  }

  lemma {:induction false} FieldEncodes(fs: seq<Field>, m: seq<Slot>, i: nat)
    requires WellFormed(fs) && Held(fs, m) && i < |fs|
    ensures EncodeField(fs, m, i).Some? <==> InRangeSlot(fs, m, i)
    decreases fs, 0
  {
    var f, h := fs[i], Home(fs, i);
    assert f in fs && WellFormedField(f) && HeldSlot(fs, m, i);
    if f.rule.OneOf? {
      PbEncoder.OneofHeld(fs, m, i);
      if m[h].which == f.tag { ValueEncodes(f, m[h].value); }
    } else if f.rule.Repeated? {
      var count := if HasSize(f) then m[i].count else f.arraySize;
      if 0 < count <= f.arraySize { ItemsEncode(f, !Packable(f.kind), m[i].items, count, 0); }
    } else if m[i].One? || m[i].has {
      ValueEncodes(f, m[i].value);
    }
  }

  // pb_encode fails for no other reason than an oversized bytes field or count, at any depth.
  lemma {:induction false} MessageEncodes(fs: seq<Field>, m: seq<Slot>, i: nat)
    requires WellFormed(fs) && Held(fs, m) && i <= |fs|
    ensures EncodeFrom(fs, m, i).Some? <==> InRangeFrom(fs, m, i)
    ensures i == 0 ==> (Encode(fs, m).Some? <==> InRange(fs, m))
    decreases fs, 1, |fs| - i
  {
    if i < |fs| {
      assert InRangeFrom(fs, m, i) <==> InRangeSlot(fs, m, i) && InRangeFrom(fs, m, i + 1);
      FieldEncodes(fs, m, i);
      MessageEncodes(fs, m, i + 1);
    }
  }

  // --- The calls ---

  // pb_get_encoded_size.
  method GetEncodedSize(fs: seq<Field>, m: seq<Slot>) returns (ok: bool, size: nat)
    requires WellFormed(fs) && Held(fs, m)
    ensures ok <==> Encode(fs, m).Some? && |Encode(fs, m).value| <= SIZE_MAX
    ensures ok ==> size == |Encode(fs, m).value|
  {
    var stream := new OStream.Sizing();
    ok := PbEncoder.Encode(stream, fs, m);
    size := stream.bytesWritten;
  }

  // What the sizing run reports is exactly what a buffer needs: the writing run succeeds if
  // and only if that many bytes fit, writes exactly that many and touches no others.
  method SizeThenEncode(fs: seq<Field>, m: seq<Slot>, buf: array<byte>, max: nat) returns (sized: bool, size: nat, ok: bool, written: nat)
    requires WellFormed(fs) && Held(fs, m) && max <= buf.Length && max <= SIZE_MAX
    modifies buf
    ensures ok <==> sized && size <= max
    ensures written <= max && buf[written..] == old(buf[..])[written..]
    ensures ok ==> written == size && Encode(fs, m) == Some(buf[..size])
  {
    sized, size := GetEncodedSize(fs, m);
    var stream := new OStream.FromBuffer(buf, max);
    ok := PbEncoder.Encode(stream, fs, m);
    written := stream.bytesWritten;
  }

  // Encoding a message into a buffer and decoding the written bytes into any struct of the
  // same type gives the message back.
  method EncodeThenDecode(fs: seq<Field>, m: seq<Slot>, buf: array<byte>, dest: seq<Slot>)
    returns (encoded: bool, decoded: bool, m': seq<Slot>)
    requires WellFormed(fs) && Held(fs, m) && Shaped(fs, dest) && buf.Length < TWO63
    modifies buf
    ensures Encode(fs, m).Some? <==> InRange(fs, m)
    ensures encoded <==> Encode(fs, m).Some? && |Encode(fs, m).value| <= buf.Length
    ensures encoded ==> (decoded <==> Readable(fs, m))
    ensures encoded && decoded ==> Same(fs, m, m')
  {
    MessageEncodes(fs, m, 0);
    m', decoded := dest, false;
    var stream := new OStream.FromBuffer(buf, buf.Length);
    encoded := PbEncoder.Encode(stream, fs, m);
    if encoded {
      RoundTrip(fs, m, dest);
      var n := stream.bytesWritten;
      var input := new IStream(buf[..n], 0, n);
      assert input.Rest() == Encode(fs, m).value;
      decoded, m' := PbDecoder.Decode(input, fs, dest);
    }
  }
}
