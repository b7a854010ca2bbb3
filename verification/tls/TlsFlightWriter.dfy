// The flight of handshake records that the sender makes and the transport takes.

module TlsFlightWriter {
  import opened Basics
  import opened SslConstants
  import opened SealedRecords

  const INT_MAX := 0x7FFF_FFFF

  // The bytes of the handshake messages.
  function Handshakes(r: seq<Record>): seq<byte> { Contents(r, SSL3_RT_HANDSHAKE) }

  // The records made so far and the number of seals tried.
  datatype Sealed = Sealed(records: seq<Record>, calls: nat, ok: bool)

  // What the cipher makes of its n-th plaintext, or that it fails.
  type Cipher = nat -> Option<seq<byte>>

  // What a transport answers to bytes and to a flush: positive if it takes some of them, and
  // if it is flushed.
  datatype Bio = Bio(write: nat -> int, flush: nat -> int)

  function Seal(s: Sealed, typ: byte, plain: seq<byte>, cipher: Cipher): Sealed {
    match cipher(s.calls)
    case None => Sealed(s.records, s.calls + 1, false)
    case Some(c) => Sealed(s.records + [Record(typ, plain, c)], s.calls + 1, true)
  }

  lemma RecordSealed(s: Sealed, typ: byte, plain: seq<byte>, cipher: Cipher)
    ensures var t := Seal(s, typ, plain, cipher);
            && s.records <= t.records && t.calls == s.calls + 1 && t.ok == cipher(s.calls).Some?
            && Handshakes(t.records) == Handshakes(s.records) + if t.ok && typ == SSL3_RT_HANDSHAKE then plain else []
  {
    var t := Seal(s, typ, plain, cipher);
    if t.ok {
      OneMore(s.records, t.records[|s.records|], SSL3_RT_HANDSHAKE);
    }
  }

  // A message in records of at most fragment bytes, at least one.
  function SealMessage(s: Sealed, rest: seq<byte>, fragment: nat, cipher: Cipher): (t: Sealed)
    requires fragment > 0
    ensures s.records <= t.records
    decreases |rest|
  {
    var n := Smaller(|rest|, fragment);
    var t := Seal(s, SSL3_RT_HANDSHAKE, rest[..n], cipher);
    if !t.ok || rest[n..] == [] then t else SealMessage(t, rest[n..], fragment, cipher)
  }

  // The records of a message join to the message, and come after those before it.
  lemma {:induction false} MessageSealed(s: Sealed, rest: seq<byte>, fragment: nat, cipher: Cipher)
    requires fragment > 0
    ensures var t := SealMessage(s, rest, fragment, cipher);
            && s.records <= t.records && s.calls < t.calls
            && (t.ok ==> Handshakes(t.records) == Handshakes(s.records) + rest)
            && (t.ok <==> forall k :: s.calls <= k < t.calls ==> cipher(k).Some?)
    decreases |rest|
  {
    var n := Smaller(|rest|, fragment);
    var t := Seal(s, SSL3_RT_HANDSHAKE, rest[..n], cipher);
    RecordSealed(s, SSL3_RT_HANDSHAKE, rest[..n], cipher);
    if t.ok {
      if rest[n..] == [] {
        assert rest[..n] == rest;
      } else {
        MessageSealed(t, rest[n..], fragment, cipher);
        assert Handshakes(s.records) + rest[..n] + rest[n..] == Handshakes(s.records) + rest;
      }
    }
  }

  class FlightWriter {
    const maxSendFragment: nat
    const cipher: Cipher
    // What the transport answers when it is asked for the n-th time, and how often it has been.
    const bio: Bio
    var asked: nat
    var pendingFlight: Option<seq<byte>>
    var pendingOffset: nat
    var transcript: seq<byte>
    // ssl->s3->write_buffer, and what it held at first.
    var writeBuffer: seq<byte>
    const leftover: seq<byte>
    // Every byte the transport has taken, every record sealed, and the seals tried.
    var transport: seq<byte>
    var records: seq<Record>
    var calls: nat

    // What the transport has taken and what is to come are the leftover bytes and then the
    // records, in order.
    ghost predicate Valid()
      reads this
    {
      && maxSendFragment > 0
      && pendingOffset <= (if pendingFlight.Some? then |pendingFlight.value| else 0)
      && transport + (writeBuffer + Pending()) == leftover + Ciphers(records)
      && (forall r :: r in records ==> |r.plain| <= maxSendFragment)
    }

    ghost function Pending(): seq<byte>
      requires pendingOffset <= if pendingFlight.Some? then |pendingFlight.value| else 0
      reads this
    {
      if pendingFlight.Some? then pendingFlight.value[pendingOffset..] else []
    }

    // It has taken something each time.
    ghost predicate Took(a: nat, b: nat) { a <= b && forall k :: a <= k < b ==> bio.write(k) > 0 }

    // It has until the last time, and then not.
    ghost predicate RefusedAt(a: nat, b: nat, ret: int) { a < b && Took(a, b - 1) && ret == bio.write(b - 1) <= 0 }

    // It has taken everything and was then asked to flush.
    ghost predicate FlushedAt(a: nat, b: nat, ok: bool) { a < b && Took(a, b - 1) && ok == (bio.flush(b - 1) > 0) }

    // It takes something from now on, whenever it is asked.
    ghost predicate Willing(a: nat) { forall k :: a <= k ==> bio.write(k) > 0 && bio.flush(k) > 0 }

    constructor (fragment: nat, c: Cipher, t: Bio, buffered: seq<byte>)
      requires fragment > 0
      ensures Valid() && maxSendFragment == fragment && cipher == c && bio == t && leftover == buffered == writeBuffer
      ensures records == [] && calls == asked == 0 && transcript == [] && transport == []
    {
      maxSendFragment, cipher, bio, leftover, writeBuffer := fragment, c, t, buffered, buffered;
      pendingFlight, pendingOffset, transcript, transport, records, calls, asked := None, 0, [], [], [], 0, 0;
    }

    // add_record_to_flight.
    method AddRecord(typ: byte, plain: seq<byte>) returns (ok: bool)
      requires Valid() && |plain| <= maxSendFragment
      modifies this`pendingFlight, this`records, this`calls
      ensures Valid() && Sealed(records, calls, ok) == Seal(Sealed(old(records), old(calls), true), typ, plain, cipher)
    {
      if pendingFlight == None {
        pendingFlight := Some([]);
      }
      var sealed := cipher(calls);
      calls := calls + 1;
      ok := sealed.Some?;
      if ok {
        Append(Record(typ, plain, sealed.value));
      }
    }

    // The sealed record goes to the end of the flight.
    method Append(r: Record)
      requires Valid() && pendingFlight.Some? && |r.plain| <= maxSendFragment
      modifies this`pendingFlight, this`records
      ensures Valid() && pendingFlight.Some? && records == old(records) + [r]
    {
      OneMore(records, r, SSL3_RT_HANDSHAKE);
      ghost var was := Pending();
      AppendLast(transport, writeBuffer, was, leftover, Ciphers(records), r.cipher);
      pendingFlight := Some(pendingFlight.value + r.cipher);
      records := records + [r];
      assert Pending() == was + r.cipher;
    }

    // ssl3_add_message: the message in as many records as it takes, and in the transcript once.
    method AddMessage(msg: seq<byte>) returns (ok: bool)
      requires Valid()
      modifies this`pendingFlight, this`records, this`calls, this`transcript
      ensures Valid()
      ensures Sealed(records, calls, ok) == SealMessage(Sealed(old(records), old(calls), true), msg, maxSendFragment, cipher)
      ensures transcript == if ok then old(transcript) + msg else old(transcript)
    {
      var rest, more := msg, true;
      ok := true;
      while more && ok
        invariant Valid() && transcript == old(transcript)
        invariant SealMessage(Sealed(old(records), old(calls), true), msg, maxSendFragment, cipher)
               == if more && ok then SealMessage(Sealed(records, calls, true), rest, maxSendFragment, cipher)
                  else Sealed(records, calls, ok)
        decreases more && ok, |rest|
      {
        ok, rest := AddChunk(rest);
        more := rest != [];
      }
      if ok {
        transcript := transcript + msg;
      }
    }

    // One round of the loop.
    method AddChunk(rest: seq<byte>) returns (ok: bool, left: seq<byte>)
      requires Valid()
      modifies this`pendingFlight, this`records, this`calls
      ensures Valid() && (left == [] || |left| < |rest|)
      ensures var s := Sealed(records, calls, ok);
              SealMessage(Sealed(old(records), old(calls), true), rest, maxSendFragment, cipher)
              == if ok && left != [] then SealMessage(s, left, maxSendFragment, cipher) else s
    {
      var n := Smaller(|rest|, maxSendFragment);
      ok := AddRecord(SSL3_RT_HANDSHAKE, rest[..n]);
      left := rest[n..];
    }

    // Nothing may be written: the connection is shut down, or the flight is too long.
    ghost predicate Barred(shutdown: bool)
      reads this`pendingFlight
    {
      pendingFlight.Some? && (shutdown || |pendingFlight.value| > INT_MAX)
    }

    // ssl3_flush_flight. The transport takes any part of what it is given, or none. What is left
    // in the write buffer goes first. It is 1 when there is nothing to send or the transport has
    // taken all of it, each time some, and has then been flushed.
    method Flush(shutdown: bool) returns (ret: int)
      requires Valid()
      modifies this`pendingFlight, this`pendingOffset, this`transport, this`writeBuffer, this`asked
      ensures Valid() && old(transport) <= transport && (ret == 1 || ret <= 0)
      ensures ret == 1 <==> pendingFlight == None
      ensures ret == 1 && old(pendingFlight).Some? ==> writeBuffer == [] && transport == leftover + Ciphers(records)
      ensures old(pendingFlight) == None || old(Barred(shutdown)) ==>
                transport == old(transport) && asked == old(asked) && pendingFlight == old(pendingFlight)
      ensures old(Barred(shutdown)) ==> ret == -1
      ensures old(pendingFlight).Some? && !old(Barred(shutdown)) ==>
                if ret == 1 then FlushedAt(old(asked), asked, true)
                else RefusedAt(old(asked), asked, ret) || (ret == -1 && Pending() == writeBuffer == [] && FlushedAt(old(asked), asked, false))
      ensures Willing(old(asked)) && !old(Barred(shutdown)) ==> ret == 1
    {
      if pendingFlight == None {
        return 1;
      }
      if shutdown || |pendingFlight.value| > INT_MAX {
        return -1;
      }
      ret := FlushBuffer();
      if ret <= 0 {
        return;
      }
      ret := WriteFlight();
      if ret <= 0 {
        return;
      }
      var flushed := bio.flush(asked);
      asked := asked + 1;
      if flushed <= 0 {
        return -1;
      }
      pendingFlight, pendingOffset := None, 0;
      return 1;
    }

    // The loop that writes the flight.
    method WriteFlight() returns (ret: int)
      requires Valid() && pendingFlight.Some? && writeBuffer == []
      modifies this`pendingOffset, this`transport, this`asked
      ensures Valid() && old(transport) <= transport
      ensures if ret > 0 then Pending() == [] && Took(old(asked), asked) else RefusedAt(old(asked), asked, ret)
    {
      while pendingOffset < |pendingFlight.value|
        invariant Valid() && old(transport) <= transport && Took(old(asked), asked)
        decreases |pendingFlight.value| - pendingOffset
      {
        ret := bio.write(asked);
        asked := asked + 1;
        if ret <= 0 {
          return;
        }
        Transmit(Smaller(ret, |pendingFlight.value| - pendingOffset));
      }
      return 1;
    }

    // ssl_write_buffer_flush.
    method FlushBuffer() returns (ret: int)
      requires Valid()
      modifies this`transport, this`writeBuffer, this`asked
      ensures Valid() && old(transport) <= transport && (ret > 0 ==> writeBuffer == [])
      ensures if ret > 0 then Took(old(asked), asked) else RefusedAt(old(asked), asked, ret)
    {
      while writeBuffer != []
        invariant Valid() && old(transport) <= transport && Took(old(asked), asked)
        decreases |writeBuffer|
      {
        ret := bio.write(asked);
        asked := asked + 1;
        if ret <= 0 {
          return;
        }
        var n := Smaller(ret, |writeBuffer|);
        TakeFirst(transport, writeBuffer, Pending(), n);
        transport, writeBuffer := transport + writeBuffer[..n], writeBuffer[n..];
      }
      return 1;
    }

    // The transport takes the next n bytes of the flight.
    method Transmit(n: nat)
      requires Valid() && writeBuffer == [] && pendingFlight.Some? && 0 < n <= |pendingFlight.value| - pendingOffset
      modifies this`pendingOffset, this`transport
      ensures Valid() && pendingOffset == old(pendingOffset) + n && old(transport) <= transport
    {
      ghost var was := Pending();
      TakeNext(transport, writeBuffer, was, n);
      transport := transport + pendingFlight.value[pendingOffset..pendingOffset + n];
      pendingOffset := pendingOffset + n;
      assert Pending() == was[n..];
    }
  }

  lemma TakeFirst(t: seq<byte>, a: seq<byte>, b: seq<byte>, n: nat)
    requires n <= |a|
    ensures t + (a + b) == (t + a[..n]) + (a[n..] + b)
  {
    assert a == a[..n] + a[n..];
  }

  lemma TakeNext(t: seq<byte>, w: seq<byte>, p: seq<byte>, n: nat)
    requires w == [] && n <= |p|
    ensures t + (w + p) == (t + p[..n]) + (w + p[n..])
  {
    assert w + p == p == p[..n] + p[n..] && w + p[n..] == p[n..];
  }

  lemma AppendLast(t: seq<byte>, w: seq<byte>, p: seq<byte>, l: seq<byte>, r: seq<byte>, x: seq<byte>)
    requires t + (w + p) == l + r
    ensures t + (w + (p + x)) == l + (r + x)
  {
    assert t + (w + (p + x)) == (t + (w + p)) + x && l + (r + x) == (l + r) + x;
  }
}
