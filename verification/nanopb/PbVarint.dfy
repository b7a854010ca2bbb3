// Variable-length integers of the nanopb wire format: the encoder, the 64-bit
// decoder and the 32-bit decoder with its sign-extension rule.

module PbVarint {
  import opened Basics
  import opened Bits

  // The bytes pb_encode_varint writes: seven bits a byte, low bits first.
  function EncodeVarint(v: nat): (r: seq<byte>)
    ensures |r| >= 1
  {
    if v < 128 then [v] else [v % 128 + 128] + EncodeVarint(v / 128)
  }

  // pb_decode_varint, from the byte whose bits go to position bitpos.
  function ReadVarintFrom(s: seq<byte>, bitpos: nat, result: nat): (p: Parse<nat>)
    ensures p.Done? ==> |p.rest| < |s|
  {
    if bitpos >= 64 || s == [] then Fail
    else
      var r := Or(result, Shl(s[0] % 128, bitpos) % TWO64);
      if s[0] >= 128 then ReadVarintFrom(s[1..], bitpos + 7, r) else Done(r, s[1..])
  }

  function ReadVarint(s: seq<byte>): (p: Parse<nat>)
    ensures p.Done? ==> |p.rest| < |s|
  {
    ReadVarintFrom(s, 0, 0)
  }

  // The multi-byte loop of pb_decode_varint32_eof. bitpos is an 8-bit counter and wraps;
  // from bit 32 on only zero bits or a sign extension are accepted.
  function ReadVarint32From(s: seq<byte>, bitpos: nat, result: nat): (p: Parse<nat>)
    requires bitpos < 256
    ensures p.Done? ==> |p.rest| < |s|
    decreases |s|
  {
    if s == [] then Fail
    else
      var b := s[0];
      var next := (bitpos + 7) % 256;
      var signExtension := if bitpos < 63 then 0xFF else 0x01;
      if bitpos >= 32 && b % 128 != 0 && (result < TWO31 || b != signExtension) then Fail
      else
        var r := if bitpos >= 32 then result else Or(result, Shl(b % 128, bitpos) % TWO32);
        if b >= 128 then ReadVarint32From(s[1..], next, r)
        else if next == 35 && b >= 16 then Fail
        else Done(r, s[1..])
  }

  function ReadVarint32(s: seq<byte>): (p: Parse<nat>)
    ensures p.Done? ==> |p.rest| < |s|
  {
    if s == [] then Fail
    else if s[0] < 128 then Done(s[0], s[1..])
    else ReadVarint32From(s[1..], 7, s[0] % 128)
  }

  lemma ModSmall(x: nat, m: nat)
    requires x < m
    ensures x % m == x
  {
  }

  // A chunk of seven bits stays below the next chunk.
  lemma ChunkBelow(result: nat, c: nat, bitpos: nat)
    requires result < Shl(1, bitpos) && c < 128
    ensures result + Shl(c, bitpos) < Shl(1, bitpos + 7)
  {
    ShlSeven(1, bitpos);
    ShlMonotone(c, 127, bitpos, bitpos);
    ShlSum(127, 1, bitpos);
  }

  // A chunk of bits ORed above everything read so far is added, less what the word cannot hold.
  lemma ChunkAdds(result: nat, c: nat, bitpos: nat, w: nat)
    requires bitpos <= w && result < Shl(1, bitpos)
    ensures Shl(1, w) > 0 && Shl(1, w - bitpos) > 0
    ensures Or(result, Shl(c, bitpos) % Shl(1, w)) == result + Shl(c % Shl(1, w - bitpos), bitpos)
  {
    ShlTruncated(c, bitpos, w);
    OrDisjoint(result, c % Shl(1, w - bitpos), bitpos);
  }

  lemma ChunkFits(result: nat, c: nat, bitpos: nat, w: nat)
    requires bitpos <= w && result < Shl(1, bitpos)
    requires Shl(c, bitpos) < Shl(1, w)
    ensures Or(result, Shl(c, bitpos) % Shl(1, w)) == result + Shl(c, bitpos)
  {
    ModUnique(Shl(c, bitpos), 0, Shl(c, bitpos), Shl(1, w));
    OrDisjoint(result, c, bitpos);
  }

  // One byte of the 64-bit decoder while the value still fits.
  lemma ReadsByte(c: nat, more: bool, t: seq<byte>, bitpos: nat, result: nat)
    requires c < 128 && bitpos < 64 && result < Shl(1, bitpos)
    requires Shl(c, bitpos) < TWO64
    ensures result + Shl(c, bitpos) < Shl(1, bitpos + 7)
    ensures ReadVarintFrom([if more then c + 128 else c] + t, bitpos, result) ==
            if more then ReadVarintFrom(t, bitpos + 7, result + Shl(c, bitpos))
            else Done(result + Shl(c, bitpos), t)
  {
    ChunkFits64(result, c, bitpos);
    var b := if more then c + 128 else c;
    assert b % 128 == c;
    OneByte(b, t, bitpos, result);
  }

  lemma ChunkFits64(result: nat, c: nat, bitpos: nat)
    requires c < 128 && bitpos < 64 && result < Shl(1, bitpos) && Shl(c, bitpos) < TWO64
    ensures Or(result, Shl(c, bitpos) % TWO64) == result + Shl(c, bitpos) < Shl(1, bitpos + 7)
  {
    WordSizes();
    ChunkFits(result, c, bitpos, 64);
    ChunkBelow(result, c, bitpos);
  }

  lemma OneByte(b: byte, t: seq<byte>, bitpos: nat, result: nat)
    requires bitpos < 64
    ensures var r := Or(result, Shl(b % 128, bitpos) % TWO64);
            ReadVarintFrom([b] + t, bitpos, result) == if b >= 128 then ReadVarintFrom(t, bitpos + 7, r) else Done(r, t)
  {
    assert ([b] + t)[1..] == t;
  }

  // Moving on to the next seven bits of v.
  lemma NextChunk(v: nat, bitpos: nat)
    ensures Shl(v % 128, bitpos) + Shl(v / 128, bitpos + 7) == Shl(v, bitpos)
    ensures v >= 128 ==> Shl(1, bitpos + 7) <= Shl(v, bitpos)
  {
    ShlSeven(v / 128, bitpos);
    ShlSum(v % 128, 128 * (v / 128), bitpos);
    ShlMonotone(if v >= 128 then 1 else 0, v / 128, bitpos + 7, bitpos + 7);
  }

  lemma BelowWord(bitpos: nat, w: nat)
    requires Shl(1, bitpos) < Shl(1, w)
    ensures bitpos < w
  {
    if w <= bitpos { ShlMonotone(1, 1, w, bitpos); }
  }

  lemma EncodedBytes(v: nat, rest: seq<byte>)
    ensures v < 128 ==> EncodeVarint(v) + rest == [v] + rest
    ensures v >= 128 ==> EncodeVarint(v) + rest == [v % 128 + 128] + (EncodeVarint(v / 128) + rest)
  {
  }

  // What the encoder writes for the high bits of a value, the decoder adds above the low bits.
  lemma {:induction false} EncodedReadsFrom(v: nat, bitpos: nat, result: nat, rest: seq<byte>)
    requires bitpos < 64 && result < Shl(1, bitpos) && Shl(v, bitpos) < TWO64
    ensures ReadVarintFrom(EncodeVarint(v) + rest, bitpos, result) == Done(result + Shl(v, bitpos), rest)
    decreases v
  {
    EncodedBytes(v, rest);
    if v < 128 {
      ReadsByte(v, false, rest, bitpos, result);
    } else {
      NextChunk(v, bitpos);
      ReadsByte(v % 128, true, EncodeVarint(v / 128) + rest, bitpos, result);
      WordSizes();
      BelowWord(bitpos + 7, 64);
      EncodedReadsFrom(v / 128, bitpos + 7, result + Shl(v % 128, bitpos), rest);
    }
  }

  // pb_decode_varint undoes pb_encode_varint on every uint64 and leaves the rest of the stream.
  lemma VarintRoundTrip(v: nat, rest: seq<byte>)
    requires v < TWO64
    ensures ReadVarint(EncodeVarint(v) + rest) == Done(v, rest)
  {
    EncodedReadsFrom(v, 0, 0, rest);
  }

  // One byte of the 32-bit decoder while the value still fits.
  lemma ReadsByte32(c: nat, more: bool, t: seq<byte>, k: nat, result: nat)
    requires c < 128 && 1 <= k <= 4 && result < Shl(1, 7 * k)
    requires Shl(c, 7 * k) < TWO32
    requires k == 4 ==> !more && c < 16
    ensures result + Shl(c, 7 * k) < Shl(1, 7 * (k + 1))
    ensures ReadVarint32From([if more then c + 128 else c] + t, 7 * k, result) ==
            if more then ReadVarint32From(t, 7 * (k + 1), result + Shl(c, 7 * k))
            else Done(result + Shl(c, 7 * k), t)
  {
    ReadsAt32(c, more, t, 7 * k, result);
  }

  lemma ReadsAt32(c: nat, more: bool, t: seq<byte>, bitpos: nat, result: nat)
    requires c < 128 && bitpos <= 28 && result < Shl(1, bitpos) && Shl(c, bitpos) < TWO32
    requires bitpos == 28 ==> !more && c < 16
    ensures result + Shl(c, bitpos) < Shl(1, bitpos + 7)
    ensures ReadVarint32From([if more then c + 128 else c] + t, bitpos, result) ==
            if more then ReadVarint32From(t, bitpos + 7, result + Shl(c, bitpos)) else Done(result + Shl(c, bitpos), t)
  {
    ChunkFits32(result, c, bitpos);
    var b := if more then c + 128 else c;
    assert b % 128 == c;
    OneByte32(b, t, bitpos, result);
  }

  lemma ChunkFits32(result: nat, c: nat, bitpos: nat)
    requires c < 128 && bitpos <= 32 && result < Shl(1, bitpos) && Shl(c, bitpos) < TWO32
    ensures Or(result, Shl(c, bitpos) % TWO32) == result + Shl(c, bitpos) < Shl(1, bitpos + 7)
  {
    WordSizes();
    ChunkFits(result, c, bitpos, 32);
    ChunkBelow(result, c, bitpos);
  }

  lemma OneByte32(b: byte, t: seq<byte>, bitpos: nat, result: nat)
    requires bitpos <= 28 && (bitpos == 28 ==> b < 16)
    ensures var r := Or(result, Shl(b % 128, bitpos) % TWO32);
            ReadVarint32From([b] + t, bitpos, result) ==
            if b >= 128 then ReadVarint32From(t, bitpos + 7, r) else Done(r, t)
  {
    Cons32([b] + t, b, t);
    StepBelow32([b] + t, bitpos, result);
  }

  lemma Cons32(s: seq<byte>, b: byte, t: seq<byte>)
    requires s == [b] + t
    ensures s != [] && s[0] == b && s[1..] == t
  {
  }

  lemma StepBelow32(s: seq<byte>, bitpos: nat, result: nat)
    requires s != [] && bitpos <= 28 && (bitpos == 28 ==> s[0] < 16)
    ensures var r := Or(result, Shl(s[0] % 128, bitpos) % TWO32);
            ReadVarint32From(s, bitpos, result) ==
            if s[0] >= 128 then ReadVarint32From(s[1..], bitpos + 7, r) else Done(r, s[1..])
  {
  }

  lemma TopNibble(v: nat)
    requires Shl(v, 28) < TWO32
    ensures v < 16
  {
    WordSizes();
    ShlTwice(1, 4, 28);
    assert Shl(1, 4) == 16;
    if v >= 16 { ShlMonotone(16, v, 28, 28); }
  }

  lemma {:induction false} Encoded32ReadsFrom(v: nat, k: nat, result: nat, rest: seq<byte>)
    requires 1 <= k <= 4 && result < Shl(1, 7 * k) && Shl(v, 7 * k) < TWO32
    ensures ReadVarint32From(EncodeVarint(v) + rest, 7 * k, result) == Done(result + Shl(v, 7 * k), rest)
    decreases v
  {
    EncodedBytes(v, rest);
    if k == 4 { TopNibble(v); }
    if v < 128 {
      ReadsByte32(v, false, rest, k, result);
    } else {
      NextChunk(v, 7 * k);
      ReadsByte32(v % 128, true, EncodeVarint(v / 128) + rest, k, result);
      Encoded32ReadsFrom(v / 128, k + 1, result + Shl(v % 128, 7 * k), rest);
    }
  }

  lemma FirstByte32(b: byte, t: seq<byte>)
    ensures ReadVarint32([b] + t) == if b < 128 then Done(b, t) else ReadVarint32From(t, 7, b % 128)
  {
    assert ([b] + t)[1..] == t;
  }

  lemma FirstOfMany32(v: nat, rest: seq<byte>)
    requires v >= 128
    ensures ReadVarint32(EncodeVarint(v) + rest) == ReadVarint32From(EncodeVarint(v / 128) + rest, 7, v % 128)
  {
    EncodedBytes(v, rest);
    FirstByte32(v % 128 + 128, EncodeVarint(v / 128) + rest);
    LowSeven(v % 128);
  }

  lemma LowSeven(c: nat)
    requires c < 128
    ensures (c + 128) % 128 == c
  {
  }

  lemma LaterBytes32(v: nat, k: nat, rest: seq<byte>)
    requires 128 <= v < TWO32 && k == 1
    ensures ReadVarint32From(EncodeVarint(v / 128) + rest, 7 * k, v % 128) == Done(v, rest)
  {
    NextChunk(v, 7 * k - 7);
    ShlSeven(1, 7 * k - 7);
    Encoded32ReadsFrom(v / 128, k, v % 128, rest);
  }

  // pb_decode_varint32 reads back every encoded uint32.
  lemma Varint32RoundTrip(v: nat, rest: seq<byte>)
    requires v < TWO32
    ensures ReadVarint32(EncodeVarint(v) + rest) == Done(v, rest)
  {
    EncodedBytes(v, rest);
    if v < 128 {
      FirstByte32(v, rest);
    } else {
      FirstOfMany32(v, rest);
      LaterBytes32(v, 1, rest);
    }
  }

  // --- Length and minimality ---

  // The encoder uses as few groups of seven bits as the value needs, and at most ten.
  lemma {:induction false} EncodedLength(v: nat)
    ensures v < Shl(1, 7 * |EncodeVarint(v)|)
    ensures v > 0 ==> Shl(1, 7 * (|EncodeVarint(v)| - 1)) <= v
  {
    ShlSeven(1, 0);
    if v >= 128 {
      var n := |EncodeVarint(v / 128)|;
      EncodedLength(v / 128);
      ShlSeven(1, 7 * n); ShlTwice(1, 7 * n, 7); ShlSeven(Shl(1, 7 * n), 0);
      ShlTwice(1, 7 * (n - 1), 7); ShlSeven(Shl(1, 7 * (n - 1)), 0);
      assert 7 * (n - 1) + 7 == 7 * n;
    }
  }

  lemma EncodedAtMostTen(v: nat)
    requires v < TWO64
    ensures |EncodeVarint(v)| <= 10
  {
    EncodedLength(v);
    WordSizes();
    if v > 0 { BelowWord(7 * (|EncodeVarint(v)| - 1), 64); }
  }

  // One step of a decoder with words below m == 2^w adds the part d of the chunk that fits.
  lemma WideStep(result: nat, c: nat, bitpos: nat, w: nat, m: nat) returns (d: nat)
    requires c < 128 && bitpos <= w && result < Shl(1, bitpos) && m == Shl(1, w)
    ensures m > 0 && d <= c
    ensures Or(result, Shl(c, bitpos) % m) == result + Shl(d, bitpos) < Shl(1, bitpos + 7)
  {
    ChunkAdds(result, c, bitpos, w);
    var n := Shl(1, w - bitpos);
    d := c % n;
    if c < n { ModSmall(c, n); }
    ChunkBelow(result, d, bitpos);
  }

  lemma Word64(w: nat)
    requires w == 64
    ensures Shl(1, w) == TWO64
  {
    WordSizes();
  }

  lemma WordStep(result: nat, c: nat, bitpos: nat) returns (d: nat)
    requires c < 128 && bitpos <= 64 && result < Shl(1, bitpos)
    ensures d <= c
    ensures Or(result, Shl(c, bitpos) % TWO64) == result + Shl(d, bitpos) < Shl(1, bitpos + 7)
  {
    var w := 64;
    Word64(w);
    d := WideStep(result, c, bitpos, w, TWO64);
  }

  // n bytes read from bit position bitpos give a value below 2^(bitpos + 7n).
  lemma {:induction false} ReadBelow(s: seq<byte>, bitpos: nat, result: nat)
    requires result < Shl(1, bitpos)
    ensures var p := ReadVarintFrom(s, bitpos, result);
            p.Done? ==> p.value < Shl(1, bitpos + 7 * (|s| - |p.rest|))
    decreases |s|
  {
    if bitpos < 64 && s != [] {
      var d := WordStep(result, s[0] % 128, bitpos);
      if s[0] >= 128 { ReadBelow(s[1..], bitpos + 7, result + Shl(d, bitpos)); }
    }
  }

  // No shorter byte string decodes to v than the one the encoder writes.
  lemma EncodingMinimal(s: seq<byte>)
    ensures var p := ReadVarint(s);
            p.Done? ==> |EncodeVarint(p.value)| <= |s| - |p.rest|
  {
    var p := ReadVarint(s);
    if p.Done? && p.value > 0 {
      ReadBelow(s, 0, 0);
      EncodedLength(p.value);
      BelowWord(7 * (|EncodeVarint(p.value)| - 1), 7 * (|s| - |p.rest|));
    }
  }

  // --- The 32-bit decoder against the 64-bit decoder ---

  lemma ModTwo32(r: nat, c: nat, bitpos: nat)
    requires 35 <= bitpos
    ensures (r + Shl(c, bitpos)) % TWO32 == r % TWO32
  {
    ShlTwice(c, bitpos - 32, 32);
    Doubles(Shl(c, bitpos - 32), 32);
    var k := Shl(c, bitpos - 32);
    var q := r / TWO32;
    assert r + k * TWO32 == (q + k) * TWO32 + r % TWO32;
    ModUnique(r + k * TWO32, q + k, r % TWO32, TWO32);
  }

  // At bit 28 only the low four bits of the chunk fit a 32-bit word.
  lemma ModAtTopNibble(r: nat, c: nat)
    requires r < Shl(1, 28) && c < 128
    ensures (r + Shl(c, 28)) % TWO32 == r + Shl(c % 16, 28)
  {
    Shl28(1); Shl28(c); Shl28(c % 16);
    var q := c / 16;
    assert r + Shl(c, 28) == q * TWO32 + (r + 268435456 * (c % 16));
    ModUnique(r + Shl(c, 28), q, r + 268435456 * (c % 16), TWO32);
  }

  lemma Shl28(w: nat)
    ensures Shl(w, 28) == 268435456 * w
  {
    ShlSeven(w, 21); ShlSeven(128 * w, 14); ShlSeven(16384 * w, 7); ShlSeven(2097152 * w, 0);
  }

  // The 64-bit decoder's word after one more byte, modulo 2^32.
  lemma StepAgrees(c: nat, k: nat, wide: nat)
    requires c < 128 && 1 <= k <= 9 && wide < Shl(1, 7 * k)
    ensures Or(wide, Shl(c, 7 * k) % TWO64) < Shl(1, 7 * (k + 1))
    ensures Or(wide, Shl(c, 7 * k) % TWO64) % TWO32
         == if k >= 5 then wide % TWO32 else Or(wide % TWO32, Shl(c, 7 * k) % TWO32)
  {
    var d := WordStep(wide, c, 7 * k);
    if k >= 5 {
      ModTwo32(wide, d, 7 * k);
    } else {
      LowChunkAgrees(c, k, wide);
    }
  }

  lemma BelowTwo32(x: nat, n: nat)
    requires n <= 32 && x < Shl(1, n)
    ensures x < TWO32
  {
    WordSizes();
    ShlMonotone(1, 1, n, 32);
  }

  lemma LowChunkAgrees(c: nat, k: nat, wide: nat)
    requires c < 128 && 1 <= k <= 4 && wide < Shl(1, 7 * k)
    ensures wide % TWO32 == wide
    ensures Or(wide, Shl(c, 7 * k) % TWO64) % TWO32 == Or(wide, Shl(c, 7 * k) % TWO32)
  {
    ChunkAgrees(c, 7 * k, wide);
  }

  lemma ChunkAgrees(c: nat, bitpos: nat, wide: nat)
    requires c < 128 && (bitpos <= 21 || bitpos == 28) && wide < Shl(1, bitpos)
    ensures wide % TWO32 == wide
    ensures Or(wide, Shl(c, bitpos) % TWO64) % TWO32 == Or(wide, Shl(c, bitpos) % TWO32)
  {
    BelowTwo32(wide, bitpos);
    ModSmall(wide, TWO32);
    if bitpos <= 21 {
      SmallChunkAgrees(c, bitpos, wide);
    } else {
      WideTopChunk(c, wide, bitpos);
      TopChunkAgrees(c, wide, bitpos);
    }
  }

  lemma SmallChunkAgrees(c: nat, bitpos: nat, wide: nat)
    requires c < 128 && bitpos <= 21 && wide < Shl(1, bitpos)
    ensures Or(wide, Shl(c, bitpos) % TWO64) % TWO32 == Or(wide, Shl(c, bitpos) % TWO32)
  {
    var x := Shl(c, bitpos);
    ChunkBelow(wide, c, bitpos);
    BelowTwo32(wide + x, bitpos + 7);
    assert wide + x < TWO32;
    ModSmall(x, TWO64); ModSmall(x, TWO32); ModSmall(wide + x, TWO32);
    OrDisjoint(wide, c, bitpos);
  }

  lemma WideTopChunk(c: nat, wide: nat, bitpos: nat)
    requires c < 128 && bitpos == 28 && wide < Shl(1, bitpos)
    ensures Or(wide, Shl(c, bitpos) % TWO64) == wide + Shl(c, bitpos)
  {
    var x := Shl(c, bitpos);
    assert x < TWO64 by { Shl28(c); }
    ModSmall(x, TWO64);
    OrDisjoint(wide, c, bitpos);
  }

  lemma TopChunkAgrees(c: nat, wide: nat, bitpos: nat)
    requires c < 128 && bitpos == 28 && wide < Shl(1, bitpos)
    ensures (wide + Shl(c, bitpos)) % TWO32 == Or(wide, Shl(c, bitpos) % TWO32)
  {
    WordSizes();
    ChunkAdds(wide, c, 28, 32);
    assert Shl(1, 32 - 28) == 16;
    ModAtTopNibble(wide, c);
  }

  lemma {:induction false} DecodersAgreeFrom(s: seq<byte>, k: nat, wide: nat, narrow: nat)
    requires 1 <= k <= 10 && wide < Shl(1, 7 * k) && narrow == wide % TWO32
    ensures var a, b := ReadVarintFrom(s, 7 * k, wide), ReadVarint32From(s, 7 * k, narrow);
            a.Done? && b.Done? ==> b.value == a.value % TWO32 && a.rest == b.rest
    decreases |s|
  {
    if k <= 9 && s != [] {
      var w := Or(wide, Shl(s[0] % 128, 7 * k) % TWO64);
      StepAgrees(s[0] % 128, k, wide);
      OneByteEach(s, 7 * k, wide, narrow, w % TWO32);
      if s[0] >= 128 { DecodersAgreeFrom(s[1..], k + 1, w, w % TWO32); }
    }
  }

  // One byte of both decoders.
  lemma OneByteEach(s: seq<byte>, bitpos: nat, wide: nat, narrow: nat, low: nat)
    requires s != [] && bitpos < 64
    requires low == if bitpos >= 32 then narrow else Or(narrow, Shl(s[0] % 128, bitpos) % TWO32)
    ensures var w := Or(wide, Shl(s[0] % 128, bitpos) % TWO64);
            ReadVarintFrom(s, bitpos, wide) == if s[0] >= 128 then ReadVarintFrom(s[1..], bitpos + 7, w) else Done(w, s[1..])
    ensures var b := ReadVarint32From(s, bitpos, narrow);
            b.Done? ==> b == if s[0] >= 128 then ReadVarint32From(s[1..], bitpos + 7, low) else Done(low, s[1..])
  {
    assert (bitpos + 7) % 256 == bitpos + 7;
  }

  lemma FirstChunk(b: byte)
    ensures Or(0, Shl(b % 128, 0) % TWO64) == b % 128 < Shl(1, 7)
  {
    ShlSeven(1, 0);
  }

  // When both decoders accept the same bytes they stop at the same place, and the 32-bit one
  // returns the low word of the 64-bit value.
  lemma DecodersAgree(s: seq<byte>)
    ensures var a, b := ReadVarint(s), ReadVarint32(s);
            a.Done? && b.Done? ==> b.value == a.value % TWO32 && a.rest == b.rest
  {
    if s != [] {
      FirstChunk(s[0]);
      if s[0] >= 128 { DecodersAgreeFrom(s[1..], 1, s[0] % 128, s[0] % 128); }
    }
  }

  // --- Sign-extended 32-bit values ---

  lemma OnesTail(r: nat, rest: seq<byte>)
    requires r >= TWO31
    ensures ReadVarint32From([255, 255, 255, 255, 1] + rest, 35, r) == Done(r, rest)
  {
    var t1, t2, t3, t4 := [255, 255, 255, 1] + rest, [255, 255, 1] + rest, [255, 1] + rest, [1] + rest;
    assert ([255, 255, 255, 255, 1] + rest)[1..] == t1 && t1[1..] == t2 && t2[1..] == t3 && t3[1..] == t4 && t4[1..] == rest;
    assert ReadVarint32From(t4, 63, r) == Done(r, rest);
    assert ReadVarint32From(t3, 56, r) == Done(r, rest);
    assert ReadVarint32From(t2, 49, r) == Done(r, rest);
    assert ReadVarint32From(t1, 42, r) == Done(r, rest);
  }

  lemma OnesEncoding()
    ensures EncodeVarint(0x1FFF_FFFF) == [255, 255, 255, 255, 1]
  {
    assert EncodeVarint(1) == [1];
    assert EncodeVarint(0xFF) == [255] + EncodeVarint(1);
    assert EncodeVarint(0x7FFF) == [255] + EncodeVarint(0xFF);
    assert EncodeVarint(0x3F_FFFF) == [255] + EncodeVarint(0x7FFF);
    assert EncodeVarint(0x1FFF_FFFF) == [255] + EncodeVarint(0x3F_FFFF);
  }

  // The byte at bit 28 of a sign-extended value carries the last four data bits.
  lemma TopByte32(c: nat, t: seq<byte>, k: nat, result: nat)
    requires c < 128 && k == 4 && result < Shl(1, 7 * k)
    ensures ReadVarint32From([c + 128] + t, 7 * k, result)
         == ReadVarint32From(t, 35, (result + Shl(c, 7 * k)) % TWO32)
  {
    TopChunkAgrees(c, result, 7 * k);
    var s := [c + 128] + t;
    assert s[0] == c + 128 && s[0] % 128 == c && s[1..] == t;
  }

  lemma {:induction false} SignExtendedReadsFrom(u: nat, w: nat, k: nat, result: nat, rest: seq<byte>)
    requires 1 <= k <= 4 && result < Shl(1, 7 * k) && result + Shl(w, 7 * k) == u
    requires TWO64 - TWO31 <= u < TWO64
    ensures ReadVarint32From(EncodeVarint(w) + rest, 7 * k, result) == Done(u - (TWO64 - TWO32), rest)
    decreases 4 - k
  {
    LargeRemainder(u, w, k, result);
    if k < 4 {
      SignExtendedChunk(u, w, k, result, rest);
      SignExtendedReadsFrom(u, w / 128, k + 1, result + Shl(w % 128, 7 * k), rest);
    } else {
      EncodedBytes(w, rest);
      LastDataByte(u, w, k, result, rest);
    }
  }

  lemma SignExtendedChunk(u: nat, w: nat, k: nat, result: nat, rest: seq<byte>)
    requires 1 <= k < 4 && w >= 128 && result < Shl(1, 7 * k) && result + Shl(w, 7 * k) == u
    ensures var r := result + Shl(w % 128, 7 * k);
            && r < Shl(1, 7 * (k + 1)) && r + Shl(w / 128, 7 * (k + 1)) == u
            && ReadVarint32From(EncodeVarint(w) + rest, 7 * k, result) == ReadVarint32From(EncodeVarint(w / 128) + rest, 7 * (k + 1), r)
  {
    EncodedBytes(w, rest);
    NextChunk(w, 7 * k);
    SmallChunk(w % 128, 7 * k);
    ReadsByte32(w % 128, true, EncodeVarint(w / 128) + rest, k, result);
  }

  lemma LastDataByte(u: nat, w: nat, k: nat, result: nat, rest: seq<byte>)
    requires k == 4 && result < Shl(1, 7 * k) && result + Shl(w, 7 * k) == u
    requires TWO64 - TWO31 <= u < TWO64
    ensures ReadVarint32From([w % 128 + 128] + (EncodeVarint(w / 128) + rest), 7 * k, result)
         == Done(u - (TWO64 - TWO32), rest)
  {
    TopByte32(w % 128, EncodeVarint(w / 128) + rest, k, result);
    AllOnesAbove(u, w, k, result);
    OnesEncoding();
    OnesTail(u - (TWO64 - TWO32), rest);
  }

  lemma SmallChunk(c: nat, bitpos: nat)
    requires c < 128 && bitpos <= 21
    ensures Shl(c, bitpos) < TWO32
  {
    ShlMonotone(c, 128, bitpos, 21);
    ShlSeven(1, 21);
    Shl28(1);
  }

  lemma LargeRemainder(u: nat, w: nat, k: nat, result: nat)
    requires 1 <= k <= 4 && result < Shl(1, 7 * k) && result + Shl(w, 7 * k) == u
    requires TWO64 - TWO31 <= u
    ensures w >= 128
  {
    if w < 128 {
      ShlMonotone(w + 1, 128, 7 * k, 28);
      ShlSum(w, 1, 7 * k);
      Shl28(128);
    }
  }

  lemma AllOnesAbove(u: nat, w: nat, k: nat, result: nat)
    requires k == 4 && result < Shl(1, 7 * k) && result + Shl(w, 7 * k) == u
    requires TWO64 - TWO31 <= u < TWO64
    ensures w / 128 == 0x1FFF_FFFF
    ensures (result + Shl(w % 128, 7 * k)) % TWO32 == u - (TWO64 - TWO32)
  {
    Shl28(w); Shl28(1); Shl28(w % 128);
  }

  // pb_decode_varint32 accepts the ten-byte encoding of every negative int32 and returns it modulo 2^32.
  lemma SignExtended32Accepted(i: int, rest: seq<byte>)
    requires -TWO31 <= i < 0
    ensures ReadVarint32(EncodeVarint(TWO64 + i) + rest) == Done(TWO32 + i, rest)
  {
    SignExtendedWord(TWO64 + i, rest);
  }

  lemma SignExtendedWord(u: nat, rest: seq<byte>)
    requires TWO64 - TWO31 <= u < TWO64
    ensures ReadVarint32(EncodeVarint(u) + rest) == Done(u - (TWO64 - TWO32), rest)
  {
    FirstOfMany32(u, rest);
    LaterSignExtended(u, 1, rest);
  }

  lemma LaterSignExtended(u: nat, k: nat, rest: seq<byte>)
    requires k == 1 && TWO64 - TWO31 <= u < TWO64
    ensures ReadVarint32From(EncodeVarint(u / 128) + rest, 7 * k, u % 128) == Done(u - (TWO64 - TWO32), rest)
  {
    NextChunk(u, 7 * k - 7);
    ShlSeven(1, 7 * k - 7);
    SignExtendedReadsFrom(u, u / 128, k, u % 128, rest);
  }

  // --- Lengths the 32-bit decoder refuses ---

  // Above bit 31 a byte below 0x80 that is not zero is no sign extension.
  lemma {:induction false} HighBytesRejected(x: nat, bitpos: nat, r: nat, rest: seq<byte>)
    requires 35 <= bitpos <= 56 && bitpos % 7 == 0 && 0 < x < Shl(1, 63 - bitpos)
    ensures ReadVarint32From(EncodeVarint(x) + rest, bitpos, r) == Fail
    decreases x
  {
    EncodedBytes(x, rest);
    if x >= 128 {
      var t := EncodeVarint(x / 128) + rest;
      HighBitsLeft(x, bitpos);
      HighBytesRejected(x / 128, bitpos + 7, r, rest);
      assert ([x % 128 + 128] + t)[1..] == t;
    }
  }

  lemma HighBitsLeft(x: nat, bitpos: nat)
    requires 35 <= bitpos <= 56 && bitpos % 7 == 0 && 128 <= x < Shl(1, 63 - bitpos)
    ensures bitpos + 7 <= 56 && x / 128 < Shl(1, 63 - (bitpos + 7))
  {
    ShlSeven(1, 0);
    var n := 63 - bitpos;
    ShlTwice(1, n - 7, 7);
    ShlSeven(Shl(1, n - 7), 0);
  }

  lemma {:induction false} LongReadsFrom(u: nat, w: nat, k: nat, result: nat, rest: seq<byte>)
    requires 1 <= k <= 4 && result < Shl(1, 7 * k) && result + Shl(w, 7 * k) == u
    requires TWO32 <= u < TWO63
    ensures ReadVarint32From(EncodeVarint(w) + rest, 7 * k, result) == Fail
    decreases 4 - k
  {
    EncodedBytes(w, rest);
    if k < 4 {
      LongRemainder(u, w, k, result);
      NextChunk(w, 7 * k);
      SmallChunk(w % 128, 7 * k);
      ReadsByte32(w % 128, true, EncodeVarint(w / 128) + rest, k, result);
      LongReadsFrom(u, w / 128, k + 1, result + Shl(w % 128, 7 * k), rest);
    } else {
      LongTop(u, w, k, result, rest);
    }
  }

  lemma LongRemainder(u: nat, w: nat, k: nat, result: nat)
    requires 1 <= k <= 3 && result < Shl(1, 7 * k) && result + Shl(w, 7 * k) == u >= TWO32
    ensures w >= 128
  {
    if w < 128 {
      ShlMonotone(w + 1, 128, 7 * k, 21);
      ShlSum(w, 1, 7 * k);
      ShlSeven(1, 21);
      Shl28(1);
    }
  }

  lemma LongTop(u: nat, w: nat, k: nat, result: nat, rest: seq<byte>)
    requires k == 4 && result < Shl(1, 7 * k) && result + Shl(w, 7 * k) == u
    requires TWO32 <= u < TWO63
    ensures ReadVarint32From(EncodeVarint(w) + rest, 7 * k, result) == Fail
  {
    EncodedBytes(w, rest);
    Shl28(w); Shl28(1);
    assert 16 <= w < 0x8_0000_0000;
    if w < 128 {
      assert ([w] + rest)[0] == w;
    } else {
      TopByte32(w % 128, EncodeVarint(w / 128) + rest, k, result);
      Shl28(1);
      HighBytesRejected(w / 128, 35, (result + Shl(w % 128, 7 * k)) % TWO32, rest);
    }
  }

  // pb_decode_varint32 refuses the encoding of every larger number up to the largest object size.
  lemma LongRejected32(v: nat, rest: seq<byte>)
    requires TWO32 <= v < TWO63
    ensures ReadVarint32(EncodeVarint(v) + rest) == Fail
  {
    FirstOfMany32(v, rest);
    LaterLong(v, 1, rest);
  }

  lemma LaterLong(v: nat, k: nat, rest: seq<byte>)
    requires k == 1 && TWO32 <= v < TWO63
    ensures ReadVarint32From(EncodeVarint(v / 128) + rest, 7 * k, v % 128) == Fail
  {
    NextChunk(v, 7 * k - 7);
    ShlSeven(1, 7 * k - 7);
    LongReadsFrom(v, v / 128, k, v % 128, rest);
  }

  // --- Signed values ---

  // Reinterpreting between int64_t and uint64_t.
  function ToUnsigned(v: int): nat
    requires -TWO63 <= v < TWO63
  {
    if v < 0 then TWO64 + v else v
  }

  function ToSigned(u: int): int {
    if u >= TWO63 then u - TWO64 else u
  }

  // The cast to int32_t: keep the low word, read it as two's complement.
  function ToInt32(u: nat): int {
    var w := u % TWO32;
    if w >= TWO31 then w - TWO32 else w
  }

  // pb_encode_svarint: the sign goes to the lowest bit.
  function ZigZag(v: int): (u: nat)
    requires -TWO63 <= v < TWO63
  {
    var shifted := (ToUnsigned(v) * 2) % TWO64;
    if v < 0 then TWO64 - 1 - shifted else shifted
  }

  function UnZigZag(u: nat): (v: int) {
    if u % 2 == 1 then ToSigned(TWO64 - 1 - u / 2) else ToSigned(u / 2)
  }

  lemma ZigZagValue(v: int)
    requires -TWO63 <= v < TWO63
    ensures ZigZag(v) == if v < 0 then -2 * v - 1 else 2 * v
  {
    if v < 0 {
      ModUnique((TWO64 + v) * 2, 1, TWO64 + 2 * v, TWO64);
    } else {
      ModSmall(v * 2, TWO64);
    }
  }

  // The two are inverse on all of int64 and uint64.
  lemma ZigZagInverse(v: int, u: nat)
    requires -TWO63 <= v < TWO63 && u < TWO64
    ensures ZigZag(v) < TWO64 && UnZigZag(ZigZag(v)) == v
    ensures -TWO63 <= UnZigZag(u) < TWO63 && ZigZag(UnZigZag(u)) == u
  {
    ZigZagValue(v);
    var w := if u % 2 == 1 then -(u / 2) - 1 else u / 2;
    assert UnZigZag(u) == w;
    ZigZagValue(w);
  }

  lemma SignedInverse(v: int)
    requires -TWO63 <= v < TWO63
    ensures ToUnsigned(v) < TWO64 && ToSigned(ToUnsigned(v)) == v
    ensures -TWO31 <= v < TWO31 ==> ToInt32(ToUnsigned(v)) == v
  {
  }
}
