// Bytes that the encoder writes and the decoder refuses.

module PbExamples {
  import opened Basics
  import opened PbMessage
  import opened PbWire
  import PbVarint
  import PbRoundTrip
  import PbJoin

  // One required string in a buffer of one byte.
  function OneString(): seq<Field> { [Field(1, Str, Required, 0, 0, 1, 0, None)] }

  // The buffer is full and has no terminator: the encoder writes its byte, and the decoder has
  // no room for a terminator.
  lemma Unterminated()
    ensures var fs, m := OneString(), [One(Data([65]))];
            && WellFormed(fs) && Held(fs, m) && !PbRoundTrip.Readable(fs, m)
            && Encode(fs, m) == Some([10, 1, 65])
            && forall dest :: Shaped(fs, dest) ==> Decode(fs, dest, [10, 1, 65]) == None
  {
    var fs, m := OneString(), [One(Data([65]))];
    var b: seq<byte>, bytes: seq<byte> := [65], [10, 1, 65];
    assert CString(b, 1) == [65] + CString([], 0) == b;
    assert !PbRoundTrip.ReadableSlot(fs, m, 0);
    assert PbVarint.EncodeVarint(10) == [10] && PbVarint.EncodeVarint(1) == [1];
    assert EncodeValue(fs[0], Data(b)) == Some(EncodeString(b)) && EncodeString(b) == [1, 65];
    assert EncodeTag(WT_STRING, 1) == [10];
    assert EncodeTagged(fs[0], Data(b)) == Some([10] + [1, 65]) && [10] + [1, 65] == bytes;
    assert Home(fs, 0) == 0 && EncodeField(fs, m, 0) == EncodeTagged(fs[0], Data(b));
    assert EncodeFrom(fs, m, 1) == Some([]);
    assert bytes + [] == bytes;
    forall dest | Shaped(fs, dest) ensures Decode(fs, dest, bytes) == None {
      PbRoundTrip.RoundTrip(fs, m, dest);
    }
  }

  // One array of exactly one number.
  function OneFixed(): seq<Field> { [Field(1, UVarint, Repeated, 0, 0, 4, 1, None)] }

  // Two encodings one after the other, each of which decodes: the second finds the array full
  // already.
  lemma TwiceFixed()
    ensures var fs, m := OneFixed(), [Fixed([Int(5)])];
            && WellFormed(fs) && Held(fs, m) && Encode(fs, m) == Some([10, 1, 5])
            && forall dest :: Shaped(fs, dest) ==>
                 Decode(fs, dest, [10, 1, 5]).Some? && Decode(fs, dest, [10, 1, 5] + [10, 1, 5]) == None
  {
    var fs, m := OneFixed(), [Fixed([Int(5)])];
    var five: seq<byte>, bytes: seq<byte> := [5], [10, 1, 5];
    assert PbVarint.EncodeVarint(10) == [10] && PbVarint.EncodeVarint(1) == [1] && PbVarint.EncodeVarint(5) == five;
    assert EncodeItems(fs[0], false, [Int(5)], 1, 1) == Some([]) && five + [] == five;
    assert EncodeItems(fs[0], false, [Int(5)], 1, 0) == Some(five);
    assert EncodeString(five) == [1, 5] && EncodeTag(WT_STRING, 1) == [10];
    assert EncodeArray(fs[0], [Int(5)], 1) == Some([10] + [1, 5]) && [10] + [1, 5] == bytes;
    assert Home(fs, 0) == 0 && EncodeField(fs, m, 0) == EncodeArray(fs[0], [Int(5)], 1);
    assert EncodeFrom(fs, m, 1) == Some([]) && bytes + [] == bytes;
    assert PbRoundTrip.FixedWritten(fs[0]);
    forall dest | Shaped(fs, dest) ensures Decode(fs, dest, bytes).Some? && Decode(fs, dest, bytes + bytes) == None {
      PbRoundTrip.RoundTrip(fs, m, dest);
      assert PbRoundTrip.NextFixed(fs, 0) == 0 == PbRoundTrip.LastFixed(fs, 1);
      PbJoin.EncodingsJoin(fs, m, m, dest);
    }
  }
}
