// pb_istream_t over a buffer, its primitive reads and its substreams. Every method is proved to
// compute the function of PbWire on the unread bytes.

module PbInputStream {
  import opened Basics
  import opened Bits
  import opened PbVarint
  import opened PbMessage
  import opened PbWire

  class IStream {
    const buf: seq<byte>
    var pos: nat
    var bytesLeft: nat

    ghost predicate Valid()
      reads this
    {
      pos + bytesLeft <= |buf|
    }

    // The unread bytes.
    ghost function Rest(): seq<byte>
      requires Valid()
      reads this
    {
      buf[pos..pos + bytesLeft]
    }

    constructor (b: seq<byte>, start: nat, count: nat)
      requires start + count <= |b|
      ensures Valid() && buf == b && pos == start && bytesLeft == count
    {
      buf, pos, bytesLeft := b, start, count;
    }

    method ReadByte() returns (ok: bool, b: byte)
      requires Valid()
      modifies this
      ensures Valid() && pos + bytesLeft == old(pos + bytesLeft)
      ensures ok == (old(Rest()) != [])
      ensures ok ==> b == old(Rest())[0] && Rest() == old(Rest())[1..]
      ensures !ok ==> Rest() == []
    {
      if bytesLeft == 0 {
        return false, 0;
      }
      b := buf[pos];
      pos, bytesLeft := pos + 1, bytesLeft - 1;
      return true, b;
    }

    // pb_read of count bytes.
    method Read(count: nat) returns (ok: bool, b: seq<byte>)
      requires Valid()
      modifies this
      ensures Valid() && pos + bytesLeft == old(pos + bytesLeft)
      ensures ok == Take(old(Rest()), count).Done?
      ensures ok ==> Take(old(Rest()), count) == Done(b, Rest())
    {
      if bytesLeft < count {
        return false, [];
      }
      b := buf[pos..pos + count];
      assert b == Rest()[..count];
      pos, bytesLeft := pos + count, bytesLeft - count;
      return true, b;
    }

    // pb_decode_varint32_eof. eof is set only when there was nothing to read.
    method DecodeVarint32() returns (ok: bool, dest: nat, eof: bool)
      requires Valid()
      modifies this
      ensures Valid() && pos + bytesLeft == old(pos + bytesLeft)
      ensures ok == ReadVarint32(old(Rest())).Done?
      ensures ok ==> ReadVarint32(old(Rest())) == Done(dest, Rest())
      ensures eof == (old(Rest()) == [])
    {
      eof := false;
      dest := 0;
      var b: byte;
      ok, b := ReadByte();
      if !ok {
        eof := true;
        return;
      }
      if b < 128 {
        dest := b;
      } else {
        var bitpos: nat, result: nat := 7, b % 128;
        ghost var all := old(Rest());
        while true
          invariant Valid() && pos + bytesLeft == old(pos + bytesLeft)
          invariant bitpos < 256
          invariant ReadVarint32(all) == ReadVarint32From(Rest(), bitpos, result)
          decreases bytesLeft
        {
          ok, b := ReadByte();
          if !ok {
            return;
          }
          if bitpos >= 32 {
            var signExtension := if bitpos < 63 then 0xFF else 0x01;
            if b % 128 != 0 && (result < TWO31 || b != signExtension) {
              return false, 0, false;
            }
          } else {
            result := Or(result, Shl(b % 128, bitpos) % TWO32);
          }
          bitpos := (bitpos + 7) % 256;
          if b < 128 {
            break;
          }
        }
        if bitpos == 35 && b >= 16 {
          return false, 0, false;
        }
        dest := result;
      }
    }

    method DecodeVarint() returns (ok: bool, dest: nat)
      requires Valid()
      modifies this
      ensures Valid() && pos + bytesLeft == old(pos + bytesLeft)
      ensures ok == ReadVarint(old(Rest())).Done?
      ensures ok ==> ReadVarint(old(Rest())) == Done(dest, Rest())
    {
      var bitpos: nat, result: nat := 0, 0;
      ghost var all := old(Rest());
      while true
        invariant Valid() && pos + bytesLeft == old(pos + bytesLeft)
        invariant ReadVarint(all) == ReadVarintFrom(Rest(), bitpos, result)
        decreases bytesLeft
      {
        if bitpos >= 64 {
          return false, 0;
        }
        var b: byte;
        ok, b := ReadByte();
        if !ok {
          return false, 0;
        }
        result := Or(result, Shl(b % 128, bitpos) % TWO64);
        bitpos := bitpos + 7;
        if b < 128 {
          return true, result;
        }
      }
    }

    method SkipVarint() returns (ok: bool)
      requires Valid()
      modifies this
      ensures Valid() && pos + bytesLeft == old(pos + bytesLeft)
      ensures ok == PbWire.SkipVarint(old(Rest())).Done?
      ensures ok ==> PbWire.SkipVarint(old(Rest())) == Done((), Rest())
    {
      ghost var all := old(Rest());
      while true
        invariant Valid() && pos + bytesLeft == old(pos + bytesLeft)
        invariant PbWire.SkipVarint(all) == PbWire.SkipVarint(Rest())
        decreases bytesLeft
      {
        var b: byte;
        ok, b := ReadByte();
        if !ok || b < 128 {
          return;
        }
      }
    }

    method SkipString() returns (ok: bool)
      requires Valid()
      modifies this
      ensures Valid() && pos + bytesLeft == old(pos + bytesLeft)
      ensures ok == Delimited(old(Rest())).Done?
      ensures ok ==> Delimited(old(Rest())).rest == Rest()
    {
      var n: nat, eof: bool, b: seq<byte>;
      ok, n, eof := DecodeVarint32();
      if ok {
        ok, b := Read(n);
      }
    }

    // pb_skip_field.
    method SkipField(wt: nat) returns (ok: bool)
      requires Valid()
      modifies this
      ensures Valid() && pos + bytesLeft == old(pos + bytesLeft)
      ensures ok == PbWire.SkipField(wt, old(Rest())).Done?
      ensures ok ==> PbWire.SkipField(wt, old(Rest())) == Done((), Rest())
    {
      var b: seq<byte>;
      if wt == WT_VARINT {
        ok := SkipVarint();
      } else if wt == WT_64BIT {
        ok, b := Read(8);
      } else if wt == WT_STRING {
        ok := SkipString();
      } else if wt == WT_32BIT {
        ok, b := Read(4);
      } else {
        ok := false;
      }
    }

    // pb_make_string_substream: the length is taken from this stream at once, the position
    // only moves when the substream is closed.
    method MakeSubstream() returns (ok: bool, sub: IStream)
      requires Valid()
      modifies this
      ensures Valid() && sub.Valid() && fresh(sub) && sub.buf == buf
      ensures ok == Delimited(old(Rest())).Done?
      ensures ok ==> sub.Rest() == Delimited(old(Rest())).value
      ensures ok ==> sub.pos == pos && sub.bytesLeft + bytesLeft + pos == old(pos + bytesLeft)
      ensures ok ==> sub.bytesLeft + bytesLeft < old(bytesLeft)
      ensures ok ==> buf[sub.pos + sub.bytesLeft..sub.pos + sub.bytesLeft + bytesLeft] == Delimited(old(Rest())).rest
    {
      var n: nat, eof: bool;
      ok, n, eof := DecodeVarint32();
      sub := new IStream(buf, 0, 0);
      if !ok {
        return;
      }
      if bytesLeft < n {
        return false, sub;
      }
      assert Rest()[..n] == buf[pos..pos + n];
      assert Rest()[n..] == buf[pos + n..pos + bytesLeft];
      sub := new IStream(buf, pos, n);
      bytesLeft := bytesLeft - n;
    }

    // pb_close_string_substream: what the substream did not read is skipped.
    method CloseSubstream(sub: IStream) returns (ok: bool)
      requires Valid() && sub.Valid() && sub != this && sub.buf == buf
      requires sub.pos + sub.bytesLeft + bytesLeft <= |buf|
      modifies this, sub
      ensures ok && Valid()
      ensures pos == old(sub.pos + sub.bytesLeft) && bytesLeft == old(bytesLeft)
    {
      if sub.bytesLeft != 0 {
        var b: seq<byte>;
        ok, b := sub.Read(sub.bytesLeft);
        if !ok {
          return;
        }
      }
      pos := sub.pos;
      ok := true;
    }

    // The numeric field decoders, with their range checks.
    method DecodeNumber(k: Kind, size: nat) returns (ok: bool, v: Value)
      requires Valid() && Packable(k)
      modifies this
      ensures Valid() && pos + bytesLeft == old(pos + bytesLeft)
      ensures ok == PbWire.DecodeNumber(k, size, old(Rest())).Done?
      ensures ok ==> PbWire.DecodeNumber(k, size, old(Rest())) == Done(v, Rest())
    {
      v := Int(0);
      if k.Fixed32? || k.Fixed64? {
        var b: seq<byte>;
        ok, b := Read(if k.Fixed32? then 4 else 8);
        if ok {
          v := Int(DecodeFixed(b));
        }
      } else {
        var u: nat;
        ok, u := DecodeVarint();
        if !ok {
          return;
        }
        var n := NumberOf(k, size, u);
        if n == None {
          return false, v;
        }
        v := Int(n.value);
      }
    }

    // The bytes, string and fixed-length field decoders.
    method DecodeData(k: Kind, size: nat) returns (ok: bool, v: Value)
      requires Valid() && (k.Bytes? || k.Str? || k.FixedBytes?)
      modifies this
      ensures Valid() && pos + bytesLeft == old(pos + bytesLeft)
      ensures ok == PbWire.DecodeData(k, size, old(Rest())).Done?
      ensures ok ==> PbWire.DecodeData(k, size, old(Rest())) == Done(v, Rest())
    {
      v := Data([]);
      var n: nat, eof: bool;
      ok, n, eof := DecodeVarint32();
      if !ok {
        return;
      }
      if k.FixedBytes? && n == 0 {
        return true, Data(Zeros(size));
      }
      if k.Bytes? && n + BYTES_OFFSET > size {
        return false, v;
      }
      if k.Str? && (n + 1 == TWO32 || n + 1 > size) {
        return false, v;
      }
      if k.FixedBytes? && n != size {
        return false, v;
      }
      var b: seq<byte>;
      ok, b := Read(n);
      v := Data(b);
    }
  }
}
