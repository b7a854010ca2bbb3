// SSLBuffer: a byte queue in one block of memory.

module TlsBuffer {
  import opened Basics

  const U16 := 0x1_0000

  class SslBuffer {
    // SSL3_ALIGN_PAYLOAD.
    const align: nat
    var buf: array?<byte>
    var offset: nat
    var size: nat
    var cap: nat

    ghost predicate Valid()
      reads this, buf
    {
      && 0 < align < U16 && offset < U16 && size <= cap < U16
      && (if buf == null then cap == 0 else offset + cap <= buf.Length)
    }

    // The offset, kept in 16 bits, cannot come round before the block is used up.
    ghost predicate NoWrap()
      reads this
    {
      offset + cap < U16
    }

    // The bytes put in and not yet consumed.
    ghost function Contents(): seq<byte>
      reads this, buf
      requires Valid()
    {
      if buf == null then [] else buf[offset..offset + size]
    }

    constructor (alignment: nat)
      requires 0 < alignment < U16
      ensures Valid() && NoWrap() && Contents() == [] && align == alignment
    {
      align, buf, offset, size, cap := alignment, null, 0, 0, 0;
    }

    method Clear()
      requires Valid()
      modifies this
      ensures Valid() && NoWrap() && Contents() == [] && buf == null && cap == 0
    {
      buf, offset, size, cap := null, 0, 0, 0;
    }

    // Makes room for newCap bytes in all and keeps the contents. Where the block starts
    // decides the new offset.
    method EnsureCap(newCap: nat) returns (ok: bool)
      requires Valid() && NoWrap()
      modifies this
      ensures Valid() && Contents() == old(Contents()) && (buf == old(buf) || fresh(buf))
      ensures ok <==> newCap < U16
      ensures ok ==> cap >= newCap
      ensures newCap + align - 1 < U16 ==> NoWrap()
      ensures cap == if ok && newCap > old(cap) then newCap else old(cap)
    {
      if newCap >= U16 {
        return false;
      }
      if cap >= newCap {
        return true;
      }
      var newBuf := new byte[newCap + align - 1](_ => 0);
      var address: nat := *;
      var newOffset := address % align;
      Slack(newOffset, newCap, align);
      if buf != null {
        forall i | 0 <= i < size {
          newBuf[newOffset + i] := buf[offset + i];
        }
        assert newBuf[newOffset..newOffset + size] == buf[offset..offset + size];
      }
      buf, offset, cap := newBuf, newOffset, newCap;
      return true;
    }

    lemma Slack(k: nat, n: nat, a: nat)
      requires k < a
      ensures k + n <= n + a - 1
    {
    }

    // Fills in bytes behind the contents, then DidWrite.
    method Append(data: seq<byte>)
      requires Valid() && buf != null && |data| <= cap - size
      modifies this`size, buf
      ensures Valid() && Contents() == old(Contents()) + data
    {
      ghost var before := Contents();
      forall i | 0 <= i < |data| {
        buf[offset + size + i] := data[i];
      }
      assert buf[offset..offset + size] == before;
      assert buf[offset + size..offset + size + |data|] == data;
      size := size + |data|;
      assert buf[offset..offset + size] == before + data;
    }

    // Drops bytes from the front. Offset and lengths are 16-bit numbers.
    method Consume(len: nat)
      requires Valid() && len <= size
      modifies this`offset, this`size, this`cap
      ensures old(NoWrap()) ==> Valid() && NoWrap() && Contents() == old(Contents())[len..]
      ensures size == old(size) - len && cap == old(cap) - len
    {
      ghost var before := Contents();
      offset := if offset + len < U16 then offset + len else offset + len - U16;
      size := size - len;
      cap := cap - len;
      if old(NoWrap()) && buf != null {
        assert before[len..] == buf[old(offset) + len..old(offset) + old(size)];
      }
    }

    method DiscardConsumed()
      requires Valid() && NoWrap()
      modifies this
      ensures Valid() && NoWrap() && Contents() == old(Contents())
      ensures Contents() == [] ==> buf == null
      ensures buf == null || buf == old(buf)
    {
      if size == 0 {
        Clear();
      }
    }
  }
}
