// ssl3_write_app_data over a transport that takes any number of bytes or none: what a caller
// writes, with as many retries as it takes, is sealed exactly once and sent in order, and it
// takes as many as the transport refuses.

module TlsWriter {
  import opened Basics
  import opened SslConstants
  import opened SealedRecords
  import opened TlsBuffer

  // The bytes of the caller.
  function Plains(r: seq<Record>): seq<byte> { Contents(r, SSL3_RT_APPLICATION_DATA) }

  lemma AppendBoth(a: seq<byte>, b: seq<byte>, c: seq<byte>, d: seq<byte>, x: seq<byte>)
    requires a + b == c + d
    ensures a + (b + x) == c + (d + x)
  {
    assert a + (b + x) == (a + b) + x && c + (d + x) == (c + d) + x;
  }

  lemma FlightFirst(t: seq<byte>, c: seq<byte>, l: seq<byte>, r: seq<Record>, x: seq<byte>)
    requires t + c == l + Ciphers(r) && c == [] && r == []
    ensures t + (c + x) == l + x + Ciphers(r)
  {
    assert l + x + Ciphers(r) == l + Ciphers(r) + x;
  }

  lemma OneChunk(start: seq<byte>, data: seq<byte>, tot: nat, nw: nat)
    requires tot + nw <= |data|
    ensures start + data[..tot + nw] == start + data[..tot] + data[tot..tot + nw]
  {
    assert data[..tot + nw] == data[..tot] + data[tot..tot + nw];
  }

  // What the cipher makes of its n-th plaintext, or that it fails.
  type AppCipher = (nat, seq<byte>) -> Option<seq<byte>>

  // Why a call returns what it returns. Only the first means that everything was written.
  datatype Why = Written | Shutdown | BadLength | BadRetry | Unflushed | Empty | SealFailed(plain: seq<byte>) | Refused

  // wpend_pending, wpend_tot and wpend_buf.
  datatype Pending = Pending(pending: bool, tot: nat, buf: nat)

  // A write has got as far as tot, and perhaps a record of it further: start and this much of
  // data have been sealed.
  ghost predicate WritingAt(records: seq<Record>, p: Pending, moving: bool, fragment: nat,
                            tot: nat, address: nat, data: seq<byte>, start: seq<byte>) {
    var done := tot + if p.pending then p.tot else 0;
    && done <= |data| && Plains(records) == start + data[..done]
    && (p.pending ==> p.tot <= fragment && (moving || p.buf == address + tot))
  }

  // One round of the loop keeps that.
  lemma RoundKeeps(had: seq<Record>, p: Pending, records: seq<Record>, q: Pending, moving: bool, fragment: nat,
                   tot: nat, nw: nat, ret: int, address: nat, data: seq<byte>, start: seq<byte>, sealed: seq<byte>)
    requires WritingAt(had, p, moving, fragment, tot, address, data, start)
    requires tot <= |data| && nw == Smaller(|data| - tot, fragment)
    requires p.pending ==> records == had && q.tot == p.tot && q.buf == p.buf && (ret <= 0 ==> q.pending)
    requires !p.pending && (ret > 0 || q.pending) ==>
               records == had + [Record(SSL3_RT_APPLICATION_DATA, data[tot..tot + nw], sealed)] && q.tot == nw && q.buf == address + tot
    requires !p.pending && ret <= 0 && !q.pending ==> records == had
    requires ret > 0 ==> !q.pending && ret == q.tot
    ensures WritingAt(records, q, moving, fragment, if ret > 0 then tot + ret else tot, address, data, start)
  {
    OneMore(had, Record(SSL3_RT_APPLICATION_DATA, data[tot..tot + nw], sealed), SSL3_RT_APPLICATION_DATA);
    OneChunk(start, data, tot, nw);
  }

  class AppWriter {
    const buffer: SslBuffer
    const overhead: nat
    const cipher: AppCipher
    // What the transport answers when it is given bytes for the n-th time: how many of them it
    // takes, or zero or less if none.
    const take: nat -> int
    // How often the cipher has been used and the transport has been asked.
    var calls: nat
    var asked: nat
    var flight: Option<seq<byte>>
    var flightOffset: nat
    var wnum: nat
    var wpendPending: bool
    var wpendTot: nat
    var wpendBuf: nat
    var maxSendFragment: nat
    var acceptMovingBuffer: bool
    var writeShutdown: bool
    // Every byte the transport has taken.
    var transport: seq<byte>
    // Handshake bytes put before the first record, and the records sealed.
    ghost var lead: seq<byte>
    ghost var records: seq<Record>

    // What is on its way is the handshake bytes left over and then the records, in order.
    ghost predicate Valid()
      reads this`transport, this`lead, this`records, this`flight, this`flightOffset, this`maxSendFragment
      reads this`wpendPending, this`wpendTot, buffer, buffer.buf
    {
      && buffer.Valid() && buffer.NoWrap()
      && transport + buffer.Contents() == lead + Ciphers(records)
      && flightOffset <= (if flight.Some? then |flight.value| else 0)
      && (records != [] ==> flight == None)
      && 1 <= maxSendFragment <= SSL3_RT_MAX_PLAIN_LENGTH
      && (flight.Some? ==> |flight.value| - flightOffset + SSL3_RT_MAX_PLAIN_LENGTH + overhead + buffer.align <= U16)
      && SSL3_RT_MAX_PLAIN_LENGTH + overhead + buffer.align <= U16
      && (wpendPending ==> wpendTot >= 1 && records != [])
    }

    // A write of data at this address has got as far as tot, and a record of it may be on its
    // way: start was sealed before it, and the first part of data since.
    ghost predicate Writing(tot: nat, address: nat, data: seq<byte>, start: seq<byte>)
      reads this`records, this`wpendPending, this`wpendTot, this`wpendBuf, this`acceptMovingBuffer, this`maxSendFragment
    {
      WritingAt(records, Pending(wpendPending, wpendTot, wpendBuf), acceptMovingBuffer, maxSendFragment, tot, address, data, start)
    }

    // The transport has taken something each time.
    ghost predicate Took(a: nat, b: nat) { forall k :: a <= k < b ==> take(k) > 0 }

    // It has until the last time.
    ghost predicate RefusedAt(a: nat, b: nat, ret: int) { a < b && Took(a, b - 1) && ret == take(b - 1) <= 0 }

    // The cipher seals the plaintext within its bounds.
    predicate Seals(n: nat, plain: seq<byte>) { cipher(n, plain).Some? && |cipher(n, plain).value| <= overhead + |plain| }

    constructor (b: SslBuffer, sealOverhead: nat, c: AppCipher, t: nat -> int, leftover: Option<seq<byte>>, leftoverOffset: nat, fragment: nat)
      requires b.Valid() && b.NoWrap() && b.Contents() == [] && 1 <= fragment <= SSL3_RT_MAX_PLAIN_LENGTH
      requires leftoverOffset <= if leftover.Some? then |leftover.value| else 0
      requires leftover.Some? ==> |leftover.value| - leftoverOffset + SSL3_RT_MAX_PLAIN_LENGTH + sealOverhead + b.align <= U16
      requires SSL3_RT_MAX_PLAIN_LENGTH + sealOverhead + b.align <= U16
      ensures Valid() && buffer == b && overhead == sealOverhead && cipher == c && take == t && !writeShutdown
      ensures records == [] && wnum == 0 && !wpendPending && calls == asked == 0
      ensures flight == leftover && flightOffset == leftoverOffset && transport == [] && lead == []
    {
      buffer, overhead, cipher, take, calls, asked := b, sealOverhead, c, t, 0, 0;
      flight, flightOffset := leftover, leftoverOffset;
      wnum, wpendPending, wpendTot, wpendBuf := 0, false, 0, 0;
      maxSendFragment, acceptMovingBuffer, writeShutdown := fragment, false, false;
      transport, lead, records := [], [], [];
    }

    // tls_write_buffer_flush. The transport takes any part of what it is given, or none.
    method FlushBuffer() returns (ret: int)
      requires buffer.Valid() && buffer.NoWrap()
      modifies this`transport, this`asked, buffer
      ensures buffer.Valid() && buffer.NoWrap()
      ensures transport + buffer.Contents() == old(transport + buffer.Contents())
      ensures ret > 0 ==> buffer.Contents() == [] && ret == 1 && old(asked) <= asked && Took(old(asked), asked)
      ensures ret <= 0 ==> RefusedAt(old(asked), asked, ret)
      ensures buffer.buf == old(buffer.buf) || buffer.buf == null
    {
      while buffer.size > 0
        invariant buffer.Valid() && buffer.NoWrap() && buffer.buf == old(buffer.buf)
        invariant transport + buffer.Contents() == old(transport + buffer.Contents())
        invariant old(asked) <= asked && Took(old(asked), asked)
        decreases buffer.size
      {
        ret := take(asked);
        asked := asked + 1;
        if ret <= 0 {
          return;
        }
        Transmit(if ret <= buffer.size then ret else buffer.size);
      }
      buffer.Clear();
      return 1;
    }

    // The transport takes the first n bytes.
    method Transmit(n: nat)
      requires buffer.Valid() && buffer.NoWrap() && 0 < n <= buffer.size
      modifies this`transport, buffer`offset, buffer`size, buffer`cap
      ensures buffer.Valid() && buffer.NoWrap() && buffer.size == old(buffer.size) - n
      ensures transport + buffer.Contents() == old(transport + buffer.Contents())
    {
      ghost var was, before := transport, buffer.Contents();
      transport := transport + buffer.buf[buffer.offset..buffer.offset + n];
      buffer.Consume(n);
      assert was + before[..n] + before[n..] == was + before;
    }

    // The caller does not go on with the bytes it began with.
    predicate Differs(address: nat, len: nat)
      reads this`wpendTot, this`wpendBuf, this`acceptMovingBuffer
    {
      wpendTot > len || (!acceptMovingBuffer && wpendBuf != address)
    }

    // ssl3_write_pending.
    method WritePending(address: nat, len: nat) returns (ret: int)
      requires Valid() && wpendPending
      modifies this`transport, this`asked, this`wpendPending, buffer
      ensures Valid() && (buffer.buf == old(buffer.buf) || buffer.buf == null)
      ensures if Differs(address, len) then ret == -1 && asked == old(asked) && transport == old(transport)
              else if ret > 0 then old(asked) <= asked && Took(old(asked), asked)
              else RefusedAt(old(asked), asked, ret)
      ensures ret > 0 ==> !wpendPending && ret == wpendTot && Sent()
      ensures ret <= 0 ==> wpendPending
    {
      if wpendTot > len || (!acceptMovingBuffer && wpendBuf != address) {
        return -1;
      }
      ret := FlushBuffer();
      if ret <= 0 {
        return;
      }
      wpendPending := false;
      return wpendTot;
    }

    // do_ssl3_write of application data: flushes a record left over from an earlier call, or
    // seals one with what is left of a handshake flight before it.
    method DoWrite(address: nat, data: seq<byte>) returns (ret: int, ghost why: Why)
      requires Valid() && |data| <= SSL3_RT_MAX_PLAIN_LENGTH
      modifies this`transport, this`asked, this`calls, this`wpendPending, this`wpendTot, this`wpendBuf
      modifies this`flight, this`flightOffset, this`lead, this`records, buffer, buffer.buf
      ensures Valid() && First() == old(First()) && NewBlock(old(buffer.buf))
      ensures ret > 0 ==> !wpendPending && ret == wpendTot <= |data| && Sent()
      ensures old(wpendPending) ==>
                records == old(records) && wpendTot == old(wpendTot) && wpendBuf == old(wpendBuf) && calls == old(calls)
      ensures old(wpendPending) && ret <= 0 ==> wpendPending
      ensures !old(wpendPending) && (ret > 0 || wpendPending) ==> Added(old(records), data, old(calls)) && wpendTot == |data| > 0 && wpendBuf == address
      ensures !old(wpendPending) && ret <= 0 && !wpendPending ==> records == old(records)
      ensures Reasons(why, ret, old(asked), old(calls), old(wpendPending), old(Differs(address, |data|)), old(buffer.size) > 0, |data|)
    {
      why := Written;
      if wpendPending {
        why := if Differs(address, |data|) then BadRetry else Written;
        ret := WritePending(address, |data|);
        if ret <= 0 && why.Written? { why := Refused; }
      } else if buffer.size > 0 {
        ret, why := -1, Unflushed;
      } else if |data| == 0 {
        ret, why := 0, Empty;
      } else {
        ret, why := SealAndWrite(address, data);
      }
    }

    // What each reason means: a transport that did not take what it was given, or a cipher that
    // failed, or neither.
    ghost predicate Explains(why: Why, ret: int, from: nat, used: nat)
      reads this`asked, this`calls
    {
      && (ret > 0 <==> why.Written?)
      && used <= calls
      && (if why.Refused? then RefusedAt(from, asked, ret) else from <= asked && Took(from, asked))
      && (why.SealFailed? ==> used < calls && !Seals(calls - 1, why.plain))
      && (why.Empty? ==> ret == 0)
      && (!why.Written? && !why.Refused? && !why.Empty? ==> ret == -1)
    }

    // Exactly when each reason applies to a call of do_ssl3_write with len bytes, given whether a
    // record was pending, the caller brought other bytes, and the buffer held something.
    ghost predicate Reasons(why: Why, ret: int, from: nat, used: nat, pending: bool, differs: bool, busy: bool, len: nat)
      reads this`asked, this`calls, this`wpendPending
    {
      && Explains(why, ret, from, used)
      && (why.BadRetry? <==> pending && differs)
      && (why.Unflushed? <==> !pending && busy)
      && (why.Empty? <==> !pending && !busy && len == 0)
      && (why.Refused? ==> wpendPending) && !why.Shutdown? && !why.BadLength?
    }

    // One record more, with what the cipher made of the data.
    ghost predicate Added(had: seq<Record>, data: seq<byte>, used: nat)
      reads this`records, this`calls
    {
      && Seals(used, data) && calls == used + 1
      && records == had + [Record(SSL3_RT_APPLICATION_DATA, data, cipher(used, data).value)]
    }

    method SealAndWrite(address: nat, data: seq<byte>) returns (ret: int, ghost why: Why)
      requires Valid() && !wpendPending && buffer.size == 0 && 0 < |data| <= SSL3_RT_MAX_PLAIN_LENGTH
      modifies this`transport, this`asked, this`calls, this`wpendPending, this`wpendTot, this`wpendBuf
      modifies this`flight, this`flightOffset, this`lead, this`records, buffer, buffer.buf
      ensures Valid() && First() == old(First()) && NewBlock(old(buffer.buf))
      ensures if ret > 0 || wpendPending then Added(old(records), data, old(calls)) && wpendTot == |data| && wpendBuf == address
              else records == old(records)
      ensures ret > 0 ==> !wpendPending && ret == |data| && Sent()
      ensures Explains(why, ret, old(asked), old(calls)) && (why.Written? || why.Refused? || why == SealFailed(data))
      ensures why.Refused? ==> wpendPending
    {
      var ok := SealInto(data);
      if !ok {
        return -1, SealFailed(data);
      }
      ret := WriteNew(address, |data|);
      why := if ret > 0 then Written else Refused;
    }

    // The end of do_ssl3_write: the record is pending, and is written.
    method WriteNew(address: nat, len: nat) returns (ret: int)
      requires Queued() && records != [] && len > 0
      modifies this`transport, this`asked, this`wpendPending, this`wpendTot, this`wpendBuf, buffer
      ensures Valid() && (buffer.buf == old(buffer.buf) || buffer.buf == null)
      ensures wpendTot == len && wpendBuf == address && (wpendPending <==> ret <= 0)
      ensures if ret > 0 then ret == len && Sent() && old(asked) <= asked && Took(old(asked), asked)
              else RefusedAt(old(asked), asked, ret)
    {
      wpendTot, wpendBuf, wpendPending := len, address, true;
      ret := WritePending(address, len);
    }

    // Everything is with the transport, a record at least.
    ghost predicate Sent()
      reads this`records, buffer
    {
      buffer.size == 0 && records != []
    }

    // The memory block is the one before, none, or a new one.
    twostate predicate NewBlock(was: array?<byte>)
      reads this, buffer
    {
      buffer.buf == was || buffer.buf == null || fresh(buffer.buf)
    }

    // The middle of do_ssl3_write: the leftover flight and a sealed record go into the buffer.
    method SealInto(data: seq<byte>) returns (ok: bool)
      requires Valid() && !wpendPending && buffer.size == 0 && 0 < |data| <= SSL3_RT_MAX_PLAIN_LENGTH
      modifies this`calls, this`flight, this`flightOffset, this`lead, this`records, buffer, buffer.buf
      ensures (if ok then Queued() else Valid()) && First() == old(First()) && NewBlock(old(buffer.buf))
      ensures calls == old(calls) + 1 && ok == Seals(old(calls), data)
      ensures if ok then Added(old(records), data, old(calls)) else records == old(records)
    {
      PutFlight(|data|);
      var sealed := cipher(calls, data);
      calls := calls + 1;
      if sealed.None? || |sealed.value| > buffer.cap - buffer.size || |sealed.value| > overhead + |data| {
        return false;
      }
      AppendRecord(data, sealed.value);
      return true;
    }

    // The sealed record goes behind what is in the buffer.
    method AppendRecord(data: seq<byte>, sealed: seq<byte>)
      requires Queued() && buffer.buf != null && |sealed| <= buffer.cap - buffer.size
      modifies this`records, buffer, buffer.buf
      ensures Queued() && buffer.buf == old(buffer.buf)
      ensures records == old(records) + [Record(SSL3_RT_APPLICATION_DATA, data, sealed)]
    {
      OneMore(records, Record(SSL3_RT_APPLICATION_DATA, data, sealed), SSL3_RT_APPLICATION_DATA);
      AppendBoth(transport, buffer.Contents(), lead, Ciphers(records), sealed);
      buffer.Append(sealed);
      records := records + [Record(SSL3_RT_APPLICATION_DATA, data, sealed)];
    }

    // Valid, but with a record in the buffer that is not yet marked as pending.
    ghost predicate Queued()
      reads this, buffer, buffer.buf
    {
      && buffer.Valid() && buffer.NoWrap()
      && transport + buffer.Contents() == lead + Ciphers(records)
      && flight == None && flightOffset == 0 && 1 <= maxSendFragment <= SSL3_RT_MAX_PLAIN_LENGTH
      && SSL3_RT_MAX_PLAIN_LENGTH + overhead + buffer.align <= U16
    }

    // Makes room for a record of len bytes and puts the leftover flight before it.
    method PutFlight(len: nat)
      requires Valid() && !wpendPending && buffer.size == 0 && 0 < len <= SSL3_RT_MAX_PLAIN_LENGTH
      modifies this`flight, this`flightOffset, this`lead, buffer, buffer.buf
      ensures Queued() && buffer.buf != null && buffer.cap - buffer.size >= len + overhead
      ensures lead == old(First()) && NewBlock(old(buffer.buf))
    {
      var left := if flight.Some? then flight.value[flightOffset..] else [];
      assert lead + left == First();
      var ok := buffer.EnsureCap(len + overhead + |left|);
      if flight.Some? {
        FlightFirst(transport, buffer.Contents(), lead, records, left);
        buffer.Append(left);
        lead := lead + left;
        flight, flightOffset := None, 0;
      } else {
        assert lead + left == lead;
      }
    }

    // The handshake bytes that go before the first record.
    ghost function First(): seq<byte>
      reads this`lead, this`flight, this`flightOffset
    {
      lead + if flight.Some? && flightOffset <= |flight.value| then flight.value[flightOffset..] else []
    }

    // ssl3_write_app_data, outside early data and without partial writes. address stands for
    // the caller's buffer; start is what was sealed before this write began. A call that does
    // not finish remembers how far it got. It writes everything unless the connection is shut
    // down for writing, the caller does not go on with what it began, something else is in the
    // buffer, there is nothing to write, the cipher fails or the transport refuses.
    method WriteAppData(address: nat, data: seq<byte>, ghost start: seq<byte>) returns (ret: int, ghost why: Why)
      requires Valid()
      modifies this`wnum, this`transport, this`asked, this`calls, this`wpendPending, this`wpendTot, this`wpendBuf
      modifies this`flight, this`flightOffset, this`lead, this`records, buffer, buffer.buf
      ensures Since(old(First()), old(buffer.buf), old(records))
      ensures why.Shutdown? || why.BadLength? ==> StandsStill(old(transport), old(records), old(asked), old(calls))
      ensures (why.Shutdown? ==> wnum == old(wnum)) && (why.Written? || why.BadLength? ==> wnum == 0)
      ensures ret > 0 ==> ret == |data| && !wpendPending && Sent()
      ensures old(Writing(wnum, address, data, start)) ==>
                if ret > 0 then Plains(records) == start + data else Writing(wnum, address, data, start)
      ensures Explains(why, ret, old(asked), old(calls)) && (why.Refused? ==> wpendPending)
      ensures why.Shutdown? <==> writeShutdown
      ensures why.BadLength? <==> !writeShutdown && |data| < old(wnum)
      ensures !writeShutdown && old(wnum) <= |data| ==>
                var nw := Smaller(|data| - old(wnum), maxSendFragment);
                Reasons(why, ret, old(asked), old(calls), old(wpendPending), old(Differs(address + wnum, nw)), old(buffer.size) > 0, nw)
    {
      if writeShutdown {
        return -1, Shutdown;
      }
      var tot := wnum;
      wnum := 0;
      if |data| < tot {
        return -1, BadLength;
      }
      ret, why := GoOn(tot, address, data, start, old(Writing(wnum, address, data, start)));
    }

    // The rest of ssl3_write_app_data: from tot on, and where to go on next time.
    method GoOn(tot: nat, address: nat, data: seq<byte>, ghost start: seq<byte>, ghost good: bool) returns (ret: int, ghost why: Why)
      requires Valid() && tot <= |data| && wnum == 0 && (good ==> Writing(tot, address, data, start))
      modifies this`wnum, this`transport, this`asked, this`calls, this`wpendPending, this`wpendTot, this`wpendBuf
      modifies this`flight, this`flightOffset, this`lead, this`records, buffer, buffer.buf
      ensures Since(old(First()), old(buffer.buf), old(records))
      ensures ret > 0 ==> ret == |data| && !wpendPending && Sent() && wnum == 0
      ensures good ==> if ret > 0 then Plains(records) == start + data else Writing(wnum, address, data, start)
      ensures var nw := Smaller(|data| - tot, maxSendFragment);
              Reasons(why, ret, old(asked), old(calls), old(wpendPending), old(Differs(address + tot, nw)), old(buffer.size) > 0, nw)
    {
      var next;
      ret, next, why := WriteRecords(tot, address, data, start, good);
      if ret <= 0 {
        wnum := next;
      }
    }

    // Nothing has been sealed or sent.
    ghost predicate StandsStill(sent: seq<byte>, had: seq<Record>, from: nat, used: nat)
      reads this`transport, this`records, this`asked, this`calls
    {
      transport == sent && records == had && asked == from && calls == used
    }

    // What is new are records of application data, none of them empty or beyond the limit.
    ghost predicate Chunked(had: seq<Record>)
      reads this`records, this`maxSendFragment
    {
      && had <= records
      && forall k :: |had| <= k < |records| ==>
           records[k].typ == SSL3_RT_APPLICATION_DATA && 0 < |records[k].plain| <= maxSendFragment
    }

    // The writer, as a write goes on from where it was.
    twostate predicate Since(first: seq<byte>, block: array?<byte>, had: seq<Record>)
      reads this, buffer, buffer.buf
    {
      Valid() && First() == first && NewBlock(block) && Chunked(had)
    }

    // The loop of ssl3_write_app_data, from tot on. On failure tot is where to go on.
    method WriteRecords(from: nat, address: nat, data: seq<byte>, ghost start: seq<byte>, ghost good: bool)
      returns (ret: int, tot: nat, ghost why: Why)
      requires Valid() && from <= |data| && (good ==> Writing(from, address, data, start))
      modifies this`transport, this`asked, this`calls, this`wpendPending, this`wpendTot, this`wpendBuf
      modifies this`flight, this`flightOffset, this`lead, this`records, buffer, buffer.buf
      ensures Since(old(First()), old(buffer.buf), old(records))
      ensures ret > 0 ==> ret == |data| && !wpendPending && Sent()
      ensures good ==> if ret > 0 then Plains(records) == start + data else Writing(tot, address, data, start)
      ensures var nw := Smaller(|data| - from, maxSendFragment);
              Reasons(why, ret, old(asked), old(calls), old(wpendPending), old(Differs(address + from, nw)), old(buffer.size) > 0, nw)
    {
      tot := from;
      ret, why := WriteRecord(tot, address, data, Smaller(|data| - tot, maxSendFragment), start, good);
      if 0 < ret < |data| - tot {
        ret, tot, why := MoreRecords(tot + ret, address, data, start, good);
      } else if ret > 0 {
        assert data[..|data|] == data;
        ret := |data|;
      }
    }

    // The rounds after the first.
    method MoreRecords(from: nat, address: nat, data: seq<byte>, ghost start: seq<byte>, ghost good: bool)
      returns (ret: int, tot: nat, ghost why: Why)
      requires Valid() && from < |data| && !wpendPending && Sent() && (good ==> Writing(from, address, data, start))
      modifies this`transport, this`asked, this`calls, this`wpendPending, this`wpendTot, this`wpendBuf
      modifies this`flight, this`flightOffset, this`lead, this`records, buffer, buffer.buf
      ensures Since(old(First()), old(buffer.buf), old(records))
      ensures ret > 0 ==> ret == |data| && !wpendPending && Sent()
      ensures good ==> if ret > 0 then Plains(records) == start + data else Writing(tot, address, data, start)
      ensures GoneOn(why, ret, old(asked), old(calls))
    {
      ret, tot, why := 1, from, Written;
      while ret > 0 && tot < |data|
        invariant Since(old(First()), old(buffer.buf), old(records)) && tot <= |data|
        invariant ret > 0 ==> !wpendPending && Sent()
        invariant good ==> Writing(tot, address, data, start)
        invariant GoneOn(why, ret, old(asked), old(calls))
        decreases |data| - tot, if ret > 0 then 1 else 0
      {
        ghost var at, used := asked, calls;
        ret, why := WriteRecord(tot, address, data, Smaller(|data| - tot, maxSendFragment), start, good);
        TookBoth(old(asked), at, asked);
        if ret > 0 {
          tot := tot + ret;
        }
      }
      if ret > 0 {
        assert data[..|data|] == data;
        ret := |data|;
      }
    }

    // The first record is out of the way: only the cipher or the transport can stop the write.
    ghost predicate GoneOn(why: Why, ret: int, from: nat, used: nat)
      reads this`asked, this`calls, this`wpendPending
    {
      Explains(why, ret, from, used) && (why.Written? || why.SealFailed? || (why.Refused? && wpendPending))
    }

    lemma TookBoth(a: nat, b: nat, c: nat)
      requires a <= b <= c && Took(a, b)
      ensures Took(b, c) ==> Took(a, c)
      ensures b < c && Took(b, c - 1) ==> Took(a, c - 1)
    {
    }

    // One round of the loop.
    method WriteRecord(tot: nat, address: nat, data: seq<byte>, nw: nat, ghost start: seq<byte>, ghost good: bool)
      returns (ret: int, ghost why: Why)
      requires Valid() && tot <= |data| && nw == Smaller(|data| - tot, maxSendFragment)
      requires good ==> Writing(tot, address, data, start)
      modifies this`transport, this`asked, this`calls, this`wpendPending, this`wpendTot, this`wpendBuf
      modifies this`flight, this`flightOffset, this`lead, this`records, buffer, buffer.buf
      ensures Since(old(First()), old(buffer.buf), old(records))
      ensures ret > 0 ==> !wpendPending && ret <= nw && Sent()
      ensures good ==> Writing(if ret > 0 then tot + ret else tot, address, data, start)
      ensures Reasons(why, ret, old(asked), old(calls), old(wpendPending), old(Differs(address + tot, nw)), old(buffer.size) > 0, nw)
    {
      ghost var had, p := records, Pending(wpendPending, wpendTot, wpendBuf);
      ret, why := DoWrite(address + tot, data[tot..tot + nw]);
      if good {
        ghost var sealed := if records == had then [] else records[|had|].cipher;
        RoundKeeps(had, p, records, Pending(wpendPending, wpendTot, wpendBuf), acceptMovingBuffer, maxSendFragment,
                   tot, nw, ret, address, data, start, sealed);
      }
    }

    // How often the transport refuses.
    ghost function Refusals(a: nat, b: nat): nat
      decreases b - a
    {
      if b <= a then 0 else Refusals(a, b - 1) + if take(b - 1) <= 0 then 1 else 0
    }

    lemma {:induction false} NoRefusals(a: nat, b: nat, c: nat)
      requires a <= b <= c && Took(b, c)
      ensures Refusals(a, c) == Refusals(a, b)
      decreases c
    {
      if b < c { NoRefusals(a, b, c - 1); }
    }

    // A cipher that never fails and keeps to its bounds.
    ghost predicate GoodCipher() { forall n: nat, plain: seq<byte> :: Seals(n, plain) }
  }

  // After n tries that the transport has refused, if nothing else stands in the way.
  ghost predicate OnPace(w: AppWriter, data: seq<byte>, n: nat, from: nat)
    reads w, w.buffer
  {
    && data != [] && w.GoodCipher() && !w.writeShutdown && w.Refusals(from, w.asked) == n
    && if n == 0 then !w.wpendPending && w.wnum == 0 && w.buffer.size == 0 else w.wpendPending
  }

  // One try of a caller that writes the same bytes again.
  method Try(w: AppWriter, address: nat, data: seq<byte>, ghost start: seq<byte>, ghost hopeful: bool, ghost n: nat, ghost from: nat)
    returns (ret: int)
    requires w.Valid() && w.Writing(w.wnum, address, data, start)
    requires hopeful ==> from <= w.asked && OnPace(w, data, n, from)
    modifies w, w.buffer, w.buffer.buf
    ensures w.Since(old(w.First()), old(w.buffer.buf), old(w.records))
    ensures w.writeShutdown == old(w.writeShutdown) && w.maxSendFragment == old(w.maxSendFragment)
    ensures if ret > 0 then Plains(w.records) == start + data && w.transport == w.First() + Ciphers(w.records)
            else w.Writing(w.wnum, address, data, start)
    ensures start <= Plains(w.records) <= start + data
    ensures w.writeShutdown ==> ret <= 0 && w.wnum == old(w.wnum)
                                && w.StandsStill(old(w.transport), old(w.records), old(w.asked), old(w.calls))
    ensures hopeful ==> from <= w.asked && if ret > 0 then w.Refusals(from, w.asked) == n else OnPace(w, data, n + 1, from)
  {
    ghost var at := w.asked;
    ghost var why;
    ret, why := w.WriteAppData(address, data, start);
    if hopeful {
      assert why.Written? || why.Refused?;
      w.NoRefusals(from, at, if ret > 0 then w.asked else w.asked - 1);
    }
    if ret > 0 { assert w.transport + [] == w.transport && w.First() == w.lead + [] == w.lead; }
  }

  // A caller that writes the same bytes again until the call succeeds: whatever part of them
  // the transport took each time, they have been sealed exactly once and in order, and the
  // transport has been given the leftover flight and then the records, all of them. Until then
  // the first part of them has been sealed, exactly once, and the write goes on from there.
  // With a good cipher a call fails exactly if the transport refuses, so it takes as many tries
  // as that; after a shutdown nothing is sealed or sent.
  method WriteAll(w: AppWriter, address: nat, data: seq<byte>, tries: nat) returns (done: bool)
    requires w.Valid() && w.wnum == 0 && !w.wpendPending
    modifies w, w.buffer, w.buffer.buf
    ensures w.Valid() && w.Chunked(old(w.records))
    ensures w.writeShutdown == old(w.writeShutdown) && w.maxSendFragment == old(w.maxSendFragment)
    ensures done ==> Plains(w.records) == old(Plains(w.records)) + data
    ensures done ==> w.transport == old(w.First()) + Ciphers(w.records)
    ensures !done ==> w.Writing(w.wnum, address, data, old(Plains(w.records)))
    ensures old(Plains(w.records)) <= Plains(w.records) <= old(Plains(w.records)) + data
    ensures w.writeShutdown ==> !done && w.StandsStill(old(w.transport), old(w.records), old(w.asked), old(w.calls))
    ensures !w.writeShutdown && w.GoodCipher() && data != [] && old(w.buffer.size) == 0 ==>
              (done <==> w.Refusals(old(w.asked), w.asked) < tries)
  {
    ghost var start, hopeful := Plains(w.records), !w.writeShutdown && w.GoodCipher() && data != [] && w.buffer.size == 0;
    assert start + data[..0] == start;
    var n := 0;
    done := false;
    while n < tries
      invariant n <= tries && w.Valid() && w.Writing(w.wnum, address, data, start)
      invariant start <= Plains(w.records) <= start + data
      invariant w.First() == old(w.First()) && w.NewBlock(old(w.buffer.buf)) && w.Chunked(old(w.records))
      invariant w.writeShutdown == old(w.writeShutdown) && w.maxSendFragment == old(w.maxSendFragment)
      invariant w.writeShutdown ==> w.StandsStill(old(w.transport), old(w.records), old(w.asked), old(w.calls)) && w.wnum == 0
      invariant hopeful ==> old(w.asked) <= w.asked && OnPace(w, data, n, old(w.asked))
      decreases tries - n
    {
      var ret := Try(w, address, data, start, hopeful, n, old(w.asked));
      if ret > 0 {
        return true;
      }
      n := n + 1;
    }
  }
}
