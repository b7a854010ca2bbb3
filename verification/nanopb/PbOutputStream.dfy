// pb_ostream_t over a buffer, or over nothing when it only counts bytes, and its primitive
// writes.

module PbOutputStream {
  import opened Basics
  import opened Bits
  import opened PbVarint
  import opened PbMessage
  import opened PbWire

  // The range of size_t.
  const SIZE_MAX := 0xFFFF_FFFF_FFFF_FFFF

  // A stream at one moment: where the next byte goes, the count so far, the whole buffer.
  datatype Snapshot = Snapshot(state: nat, written: nat, buffer: seq<byte>)

  // From a to b, a stream limited to max bytes was asked to emit e. It reports success
  // exactly when e exists and fits, and then e is what follows the old bytes. Whatever
  // happens, nothing before the old position or from the new position on has changed.
  ghost predicate Emits(sizing: bool, max: nat, a: Snapshot, b: Snapshot, e: Option<seq<byte>>, ok: bool) {
    && a.written <= b.written <= max
    && ok == (e.Some? && a.written + |e.value| <= max)
    && (ok ==> b.written == a.written + |e.value|)
    && (sizing ==> b.buffer == a.buffer && b.state == a.state)
    && (!sizing ==>
          && b.state - b.written == a.state - a.written
          && |b.buffer| == |a.buffer| && a.state <= b.state <= |a.buffer|
          && b.buffer[..a.state] == a.buffer[..a.state]
          && b.buffer[b.state..] == a.buffer[b.state..]
          && (ok ==> b.buffer[a.state..b.state] == e.value))
  }

  lemma Prefixes(x: seq<byte>, y: seq<byte>, m: nat, n: nat)
    requires m <= n <= |x| && n <= |y| && x[..n] == y[..n]
    ensures x[..m] == y[..m]
  {
    assert x[..m] == x[..n][..m] && y[..m] == y[..n][..m];
  }

  lemma Suffixes(x: seq<byte>, y: seq<byte>, m: nat, n: nat)
    requires m <= n <= |x| && n <= |y| && x[m..] == y[m..]
    ensures x[n..] == y[n..]
  {
    assert x[n..] == x[m..][n - m..] && y[n..] == y[m..][n - m..];
  }

  lemma Pieces(x: seq<byte>, y: seq<byte>, k: nat, m: nat, n: nat)
    requires k <= m <= n <= |x| && m <= |y| && x[..m] == y[..m]
    ensures x[k..n] == y[k..m] + x[m..n]
  {
    assert x[k..m] == x[..m][k..] && y[k..m] == y[..m][k..];
    assert x[k..n] == x[k..m] + x[m..n];
  }

  // Emitting one piece after another emits both.
  lemma EmitsBoth(sizing: bool, max: nat, a: Snapshot, b: Snapshot, c: Snapshot, e: Option<seq<byte>>, e': Option<seq<byte>>, ok: bool)
    requires Emits(sizing, max, a, b, e, true) && Emits(sizing, max, b, c, e', ok)
    ensures Emits(sizing, max, a, c, Append(e, e'), ok)
  {
    if !sizing {
      Prefixes(c.buffer, b.buffer, a.state, b.state);
      Suffixes(b.buffer, a.buffer, b.state, c.state);
      Pieces(c.buffer, b.buffer, a.state, b.state, c.state);
    }
  }

  // After a failure nothing more is emitted.
  lemma EmitsNoMore(sizing: bool, max: nat, a: Snapshot, b: Snapshot, e: Option<seq<byte>>, e': Option<seq<byte>>)
    requires Emits(sizing, max, a, b, e, false)
    ensures Emits(sizing, max, a, b, Append(e, e'), false)
  {
  }

  class OStream {
    const sizing: bool
    const buf: array<byte>
    const maxSize: nat
    var state: nat
    var bytesWritten: nat

    // A counting stream is limited by size_t alone.
    ghost predicate Valid()
      reads this
    {
      && bytesWritten <= maxSize <= SIZE_MAX
      && (sizing ==> maxSize == SIZE_MAX)
      && (!sizing ==> state + maxSize - bytesWritten <= buf.Length)
    }

    ghost function Now(): Snapshot
      reads this, buf
    {
      Snapshot(state, bytesWritten, buf[..])
    }

    // pb_ostream_from_buffer.
    constructor FromBuffer(b: array<byte>, size: nat)
      requires size <= b.Length && size <= SIZE_MAX
      ensures Valid() && !sizing && buf == b && maxSize == size && state == 0 && bytesWritten == 0
    {
      sizing, buf, maxSize := false, b, size;
      state, bytesWritten := 0, 0;
    }

    // PB_OSTREAM_SIZING.
    constructor Sizing()
      ensures Valid() && sizing && fresh(buf) && bytesWritten == 0
    {
      sizing, buf, maxSize := true, new byte[0], SIZE_MAX;
      state, bytesWritten := 0, 0;
    }

    // The substream pb_encode_submessage writes through.
    constructor Sub(s: OStream, size: nat)
      requires s.Valid() && !s.sizing && s.bytesWritten + size <= s.maxSize
      ensures Valid() && !sizing && buf == s.buf && maxSize == size && state == s.state && bytesWritten == 0
    {
      sizing, buf, maxSize := false, s.buf, size;
      state, bytesWritten := s.state, 0;
    }

    // buf_write.
    method BufWrite(data: seq<byte>)
      requires state + |data| <= buf.Length
      modifies this`state, buf
      ensures state == old(state) + |data|
      ensures buf[..old(state)] == old(buf[..state])
      ensures buf[old(state)..state] == data
      ensures buf[state..] == old(buf[state + |data|..])
    {
      var dest := state;
      state := dest + |data|;
      var i := 0;
      while i < |data|
        invariant i <= |data| && state == dest + |data|
        invariant buf[..dest] == old(buf[..dest])
        invariant buf[dest..dest + i] == data[..i]
        invariant buf[dest + |data|..] == old(buf[dest + |data|..])
      {
        buf[dest + i] := data[i];
        i := i + 1;
      }
    }

    // pb_write of count bytes. A counting stream gets no data; e is what it would be.
    method Write(data: seq<byte>, count: nat, ghost e: seq<byte>) returns (ok: bool)
      requires Valid() && |e| == count && (!sizing ==> data == e)
      modifies this, buf
      ensures Valid() && Emits(sizing, maxSize, old(Now()), Now(), Some(e), ok)
    {
      if bytesWritten + count > maxSize {
        return false;
      }
      if !sizing {
        BufWrite(data);
      }
      bytesWritten := bytesWritten + count;
      return true;
    }

    // pb_encode_varint.
    method EncodeVarint(value: nat) returns (ok: bool)
      requires Valid() && value < TWO64
      modifies this, buf
      ensures Valid() && Emits(sizing, maxSize, old(Now()), Now(), Some(PbVarint.EncodeVarint(value)), ok)
    {
      if value < 128 {
        ok := Write([value], 1, [value]);
        return;
      }
      var buffer, i := FillVarint(value);
      ok := Write(buffer[..i], i, PbVarint.EncodeVarint(value));
    }

    method EncodeTag(wt: nat, tag: nat) returns (ok: bool)
      requires Valid() && wt < 8 && tag < 0x2000_0000
      modifies this, buf
      ensures Valid() && Emits(sizing, maxSize, old(Now()), Now(), Some(PbWire.EncodeTag(wt, tag)), ok)
    {
      ok := EncodeVarint(tag * 8 + wt);
    }

    // pb_encode_string.
    method EncodeString(data: seq<byte>) returns (ok: bool)
      requires Valid() && |data| <= SIZE_MAX
      modifies this, buf
      ensures Valid() && Emits(sizing, maxSize, old(Now()), Now(), Some(PbWire.EncodeString(data)), ok)
    {
      ghost var a := Now();
      ok := EncodeVarint(|data|);
      ghost var b, head, body := Now(), Some(PbVarint.EncodeVarint(|data|)), Some(data);
      assert Append(head, body) == Some(PbWire.EncodeString(data));
      if !ok {
        EmitsNoMore(sizing, maxSize, a, b, head, body);
        return;
      }
      ok := Write(data, |data|, data);
      EmitsBoth(sizing, maxSize, a, b, Now(), head, body, ok);
    }

    // The numeric field encoders.
    method EncodeNumber(k: Kind, size: nat, v: int) returns (ok: bool)
      requires Valid() && Packable(k) && PbWire.EncodeNumber(k, size, v).Some?
      modifies this, buf
      ensures Valid() && Emits(sizing, maxSize, old(Now()), Now(), PbWire.EncodeNumber(k, size, v), ok)
    {
      match k
      case Varint => ok := EncodeVarint(ToUnsigned(v));
      case UVarint => ok := EncodeVarint(v);
      case SVarint =>
        ZigZagInverse(v, 0);
        ok := EncodeVarint(ZigZag(v));
      case Fixed32 =>
        var b := EncodeFixed(v, 4);
        ok := Write(b, 4, b);
      case Fixed64 =>
        var b := EncodeFixed(v, 8);
        ok := Write(b, 8, b);
    }
  }

  // The buffer of pb_encode_varint, for a value that takes more than one byte.
  method FillVarint(value: nat) returns (buffer: array<byte>, i: nat)
    requires 128 <= value < TWO64
    ensures fresh(buffer) && i <= buffer.Length && buffer[..i] == EncodeVarint(value)
  {
    ContinuedBytes(value);
    EncodedAtMostTen(value);
    ghost var all := Continued(value);
    buffer := new byte[10](_ => 0);
    i := 0;
    var v := value;
    while v != 0
      invariant i + |Continued(v)| == |all| <= buffer.Length
      invariant buffer[..i] == all[..i] && all[i..] == Continued(v)
      decreases v
    {
      ContinuedStep(all, i, v);
      buffer[i] := v % 128 + 128;
      v := v / 128;
      i := i + 1;
    }
    assert all[..i] == all && Continued(0) == [];
    buffer[i - 1] := buffer[i - 1] % 128;
    assert buffer[..i] == all[..i - 1] + [all[i - 1] % 128];
  }

  lemma ContinuedStep(all: seq<byte>, i: nat, v: nat)
    requires i <= |all| && v > 0 && all[i..] == Continued(v)
    ensures i < |all| && all[i] == v % 128 + 128 && all[i + 1..] == Continued(v / 128)
    ensures all[..i + 1] == all[..i] + [v % 128 + 128]
  {
    assert all[i..][0] == all[i] && all[i..][1..] == all[i + 1..];
  }

  // The bytes of a varint before the top bit of the last one is cleared.
  function Continued(v: nat): (r: seq<byte>)
    ensures v > 0 ==> r != []
  {
    if v == 0 then [] else [v % 128 + 128] + Continued(v / 128)
  }

  lemma {:induction false} ContinuedBytes(v: nat)
    requires v > 0
    ensures |Continued(v)| == |EncodeVarint(v)|
    ensures var n := |Continued(v)|; EncodeVarint(v) == Continued(v)[..n - 1] + [Continued(v)[n - 1] % 128]
  {
    if v >= 128 {
      ContinuedBytes(v / 128);
      var c := Continued(v / 128);
      assert Continued(v)[..|c|] == [v % 128 + 128] + c[..|c| - 1];
    }
  }
}
