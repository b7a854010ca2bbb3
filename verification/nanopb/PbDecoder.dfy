// The decoder as it runs, with its field iterator, its bitmap of required fields and its
// count for fixed-count fields. Every method is proved to compute the function of PbWire on
// the unread bytes, whatever this hidden state.

module PbDecoder {
  import opened Basics
  import opened Bits
  import opened PbMessage
  import opened PbWire
  import opened PbInputStream
  import opened PbIterator
  import opened PbRequired
  import opened PbShape
  import PbVarint
  import PbRoundTrip

  // pb_decode_tag: a zero byte where a tag should be counts as the end of the message.
  method DecodeTag(stream: IStream) returns (ok: bool, wt: nat, tag: nat, eof: bool)
    requires stream.Valid()
    modifies stream
    ensures stream.Valid() && stream.pos + stream.bytesLeft == old(stream.pos + stream.bytesLeft)
    ensures ok || eof ==> old(stream.Rest()) == [] || PbVarint.ReadVarint32(old(stream.Rest())).Done?
    ensures ok ==> PbVarint.ReadVarint32(old(stream.Rest())) == Done(8 * tag + wt, stream.Rest()) && wt < 8 && 8 * tag + wt != 0
    ensures eof ==> old(stream.Rest()) == [] || PbVarint.ReadVarint32(old(stream.Rest())) == Done(0, stream.Rest())
    ensures !ok && !eof ==> PbVarint.ReadVarint32(old(stream.Rest())).Fail?
    ensures ok ==> !eof
  {
    var temp: nat;
    wt, tag := 0, 0;
    ok, temp, eof := stream.DecodeVarint32();
    if !ok {
      return;
    }
    if temp == 0 {
      return false, 0, 0, true;
    }
    tag, wt := temp / 8, temp % 8;
  }

  // pb_dec_submessage.
  method DecodeSubmessage(stream: IStream, f: Field, dest: Value) returns (ok: bool, v: Value)
    requires stream.Valid() && WellFormedField(f) && ShapedValue(f, dest) && f.kind.Submessage?
    modifies stream
    ensures stream.Valid()
    ensures ok == PbWire.DecodeValue(f, dest, old(stream.Rest())).Done?
    ensures ok ==> PbWire.DecodeValue(f, dest, old(stream.Rest())) == Done(v, stream.Rest())
    ensures ok ==> stream.pos + stream.bytesLeft == old(stream.pos + stream.bytesLeft)
    decreases stream.bytesLeft, 0
  {
    var sub;
    v := dest;
    ghost var s := stream.Rest();
    ok, sub := stream.MakeSubstream();
    if ok {
      var start := SubmessageStart(f, dest);
      SubmessageValue(f, dest, s, start);
      var m;
      ok, m := DecodeNoinit(sub, f.kind.fields, start);
      if ok {
        v := Msg(m);
        ok := stream.CloseSubstream(sub);
        assert stream.Rest() == Delimited(s).rest;
      }
    }
  }

  // What the bytes determine for a submessage.
  lemma SubmessageValue(f: Field, dest: Value, s: seq<byte>, start: seq<Slot>)
    requires f.kind.Submessage? && dest.Msg? && |dest.slots| == |f.kind.fields| && Delimited(s).Done?
    requires start == if f.rule.Repeated? then SetDefaults(f.kind.fields, dest.slots) else dest.slots
    ensures var m := PbWire.DecodeNoinit(f.kind.fields, start, Delimited(s).value);
            PbWire.DecodeValue(f, dest, s) == if m.None? then Fail else Done(Msg(m.value), Delimited(s).rest)
  {
  }

  // What the submessage is decoded into: an array entry starts from the defaults.
  method SubmessageStart(f: Field, dest: Value) returns (start: seq<Slot>)
    requires WellFormedField(f) && ShapedValue(f, dest) && f.kind.Submessage?
    ensures Shaped(f.kind.fields, start) && dest.Msg? && |dest.slots| == |f.kind.fields|
    ensures start == if f.rule.Repeated? then SetDefaults(f.kind.fields, dest.slots) else dest.slots
  {
    start := dest.slots;
    if f.rule.Repeated? {
      PbRoundTrip.SetDefaultsFresh(f.kind.fields, dest.slots);
      start := SetDefaults(f.kind.fields, dest.slots);
    }
  }

  // The decoder of one field's data. dest is the old content, which a submessage extends.
  method DecodeValue(stream: IStream, f: Field, dest: Value) returns (ok: bool, v: Value)
    requires stream.Valid() && WellFormedField(f) && ShapedValue(f, dest)
    modifies stream
    ensures stream.Valid()
    ensures ok == PbWire.DecodeValue(f, dest, old(stream.Rest())).Done?
    ensures ok ==> PbWire.DecodeValue(f, dest, old(stream.Rest())) == Done(v, stream.Rest())
    ensures ok ==> stream.pos + stream.bytesLeft == old(stream.pos + stream.bytesLeft)
    decreases stream.bytesLeft, 1
  {
    if f.kind.Submessage? {
      ok, v := DecodeSubmessage(stream, f, dest);
    } else if f.kind.Bytes? || f.kind.Str? || f.kind.FixedBytes? {
      ok, v := stream.DecodeData(f.kind, f.dataSize);
    } else {
      ok, v := stream.DecodeNumber(f.kind, f.dataSize);
    }
  }

  // The loop over a packed array: it stops at the end of the bytes or of the array.
  method DecodePackedEntries(sub: IStream, f: Field, count: nat, entries: seq<Value>)
    returns (status: bool, size: nat, items: seq<Value>)
    requires sub.Valid() && Packable(f.kind) && |entries| == f.arraySize
    modifies sub
    ensures sub.Valid() && sub.pos + sub.bytesLeft == old(sub.pos + sub.bytesLeft)
    ensures status && sub.bytesLeft == 0 <==> DecodePacked(f, count, entries, old(sub.Rest())).Some?
    ensures status && sub.bytesLeft == 0 ==> DecodePacked(f, count, entries, old(sub.Rest())) == Some((size, items))
  {
    size, items, status := count, entries, true;
    ghost var all := sub.Rest();
    var v: Value;
    while sub.bytesLeft > 0 && size < f.arraySize
      invariant sub.Valid() && sub.pos + sub.bytesLeft == old(sub.pos + sub.bytesLeft)
      invariant |items| == f.arraySize && status
      invariant DecodePacked(f, count, entries, all) == DecodePacked(f, size, items, sub.Rest())
      decreases sub.bytesLeft
    {
      status, v := sub.DecodeNumber(f.kind, f.dataSize);
      if !status {
        break;
      }
      items := items[size := v];
      size := size + 1;
    }
  }

  method DecodePackedField(stream: IStream, f: Field, count: nat, entries: seq<Value>)
    returns (ok: bool, size: nat, items: seq<Value>)
    requires stream.Valid() && Packable(f.kind) && |entries| == f.arraySize
    modifies stream
    ensures stream.Valid()
    ensures ok == PbWire.DecodeRepeated(f, WT_STRING, count, entries, old(stream.Rest())).Done?
    ensures ok ==> PbWire.DecodeRepeated(f, WT_STRING, count, entries, old(stream.Rest())) == Done((size, items), stream.Rest())
    ensures ok ==> stream.pos + stream.bytesLeft == old(stream.pos + stream.bytesLeft)
  {
    var sub: IStream, status: bool;
    size, items := count, entries;
    ok, sub := stream.MakeSubstream();
    if !ok {
      return;
    }
    status, size, items := DecodePackedEntries(sub, f, count, entries);
    if sub.bytesLeft != 0 {
      return false, size, items;
    }
    ok := stream.CloseSubstream(sub);
    ok := status;
  }

  // The entries of one occurrence of a repeated field. size is the counter of the array,
  // wherever it is kept.
  method DecodeRepeated(stream: IStream, wt: nat, f: Field, count: nat, entries: seq<Value>)
    returns (ok: bool, size: nat, items: seq<Value>)
    requires stream.Valid() && WellFormedField(f) && |entries| == f.arraySize
    requires forall v :: v in entries ==> ShapedValue(f, v)
    modifies stream
    ensures stream.Valid()
    ensures ok == PbWire.DecodeRepeated(f, wt, count, entries, old(stream.Rest())).Done?
    ensures ok ==> PbWire.DecodeRepeated(f, wt, count, entries, old(stream.Rest())) == Done((size, items), stream.Rest())
    ensures ok ==> stream.pos + stream.bytesLeft == old(stream.pos + stream.bytesLeft)
    decreases stream.bytesLeft, 2
  {
    size, items := count, entries;
    var v: Value;
    if wt == WT_STRING && Packable(f.kind) {
      ok, size, items := DecodePackedField(stream, f, count, entries);
    } else {
      if count >= f.arraySize {
        return false, size, items;
      }
      assert entries[count] in entries;
      ok, v := DecodeValue(stream, f, items[count]);
      size := count + 1;
      if ok {
        items := items[count := v];
      }
    }
  }

  // pb_release_union_field: the member a oneof held must still be in the descriptor.
  method ReleaseUnion(iter: FieldIter, which: nat) returns (ok: bool)
    requires iter.Valid() && iter.pos < |iter.fields|
    ensures ok == (which == 0 || which == iter.fields[iter.pos].tag || PbMessage.Find(iter.fields, which) < |iter.fields|)
  {
    if which == 0 || which == iter.fields[iter.pos].tag {
      return true;
    }
    var member := new FieldIter.Copy(iter);
    ok := member.Find(which);
  }

  // What a member of a oneof is decoded into: a submessage starts from its defaults.
  method EnterMember(iter: FieldIter, held: Slot) returns (ok: bool, start: Value)
    requires iter.Valid() && iter.pos < |iter.fields| && WellFormedField(iter.fields[iter.pos])
    requires held.Union? && (!iter.fields[iter.pos].kind.Submessage? ==> ShapedValue(iter.fields[iter.pos], held.value))
    ensures Oneof(iter.fields, iter.pos, held.which, held.value) == if ok then Some(start) else None
    ensures ok ==> ShapedValue(iter.fields[iter.pos], start)
  {
    var f := iter.fields[iter.pos];
    start := held.value;
    ok := ReleaseUnion(iter, held.which);
    if ok && f.kind.Submessage? {
      PbRoundTrip.ZeroMessageShaped(f.kind.fields);
      PbRoundTrip.SetDefaultsFresh(f.kind.fields, ZeroMessage(f.kind.fields));
      start := Msg(SetDefaults(f.kind.fields, ZeroMessage(f.kind.fields)));
    }
  }

  // decode_field on the field under the iterator, for static allocation. fixedSize is the
  // counter used in place of a missing count in the struct.
  method DecodeStaticField(stream: IStream, wt: nat, iter: FieldIter, msg: seq<Slot>, fixedSize: nat, ghost st: RunState)
    returns (ok: bool, out: seq<Slot>, size: nat)
    requires stream.Valid() && iter.Valid() && iter.pos < |iter.fields|
    requires WellFormed(iter.fields) && Shaped(iter.fields, msg) && st.msg == msg
    requires FixedCount(iter.fields[iter.pos]) ==> EnterFixed(iter.fields, iter.pos, st.fixed) == Some((iter.pos, fixedSize))
    modifies stream
    ensures stream.Valid()
    ensures var r := DecodeField(iter.fields, iter.pos, wt, st, old(stream.Rest()));
            && ok == r.Next?
            && (ok ==> r.rest == stream.Rest() && r.st.msg == out)
            && (ok ==> r.st.seen == if iter.fields[iter.pos].rule.Required? then st.seen + {iter.pos} else st.seen)
            && (ok ==> r.st.fixed == if FixedCount(iter.fields[iter.pos]) then Some((iter.pos, size)) else st.fixed)
    ensures ok && !FixedCount(iter.fields[iter.pos]) ==> size == fixedSize
    ensures ok ==> stream.pos + stream.bytesLeft == old(stream.pos + stream.bytesLeft)
    decreases stream.bytesLeft, 3
  {
    var fs, i := iter.fields, iter.pos;
    var f, h := fs[i], Home(fs, i);
    assert f in fs && WellFormedField(f) && ShapedSlot(fs, h, msg[h]) && ShapedSlot(fs, i, msg[i]);
    out, size := msg, fixedSize;
    var v: Value, items: seq<Value>, n: nat;
    match f.rule
    case Required =>
      ok, v := DecodeValue(stream, f, msg[i].value);
      out := out[i := One(v)];
    case Optional =>
      var flag := iter.size != iter.data;
      ok, v := DecodeValue(stream, f, msg[i].value);
      out := out[i := if flag then Opt(true, v) else One(v)];
    case Repeated =>
      ok, n, items := DecodeRepeated(stream, wt, f, if HasSize(f) then msg[i].count else fixedSize, msg[i].items);
      if HasSize(f) {
        out := out[i := Many(n, items)];
      } else {
        size := n;
        out := out[i := Fixed(items)];
      }
    case OneOf =>
      var start: Value;
      PbRoundTrip.HomeIsOneof(fs, i);
      ok, start := EnterMember(iter, msg[h]);
      if !ok {
        return;
      }
      ok, v := DecodeValue(stream, f, start);
      out := out[h := Union(f.tag, v)];
  }

  lemma NoneSeen(fs: seq<Field>)
    ensures SeenWords(fs, {}, [0, 0])
  {
    forall n: nat ensures !Bit(0, n) { NoBits(n); }
  }

  // Marks the field under the iterator as seen.
  method MarkRequired(iter: FieldIter, fieldsSeen: array<nat>, ghost s: set<nat>)
    requires iter.Valid() && iter.pos < |iter.fields|
    requires fieldsSeen.Length == 2 && SeenWords(iter.fields, s, fieldsSeen[..])
    modifies fieldsSeen
    ensures SeenWords(iter.fields, if iter.fields[iter.pos].rule.Required? then s + {iter.pos} else s, fieldsSeen[..])
  {
    if iter.fields[iter.pos].rule.Required? {
      var k := iter.requiredIndex;
      if k < PB_MAX_REQUIRED_FIELDS {
        ghost var ws := fieldsSeen[..];
        MarkSeen(iter.fields, s, ws, iter.pos);
        fieldsSeen[k / 32] := Or(fieldsSeen[k / 32], Shl(1, k % 32));
        assert fieldsSeen[..] == ws[k / 32 := Or(ws[k / 32], Shl(1, k % 32))];
      } else {
        SeenBeyond(iter.fields, s, fieldsSeen[..], iter.pos);
      }
    }
  }

  // The count that stands in for the missing count of a fixed-count field.
  ghost function FixedState(field: Option<nat>, size: nat): Option<(nat, nat)> {
    if field.Some? then Some((field.value, size)) else None
  }

  // The part of the loop of pb_decode_noinit that handles a field it found.
  method DecodeFound(stream: IStream, wt: nat, iter: FieldIter, fieldsSeen: array<nat>,
                     msg: seq<Slot>, field: Option<nat>, size: nat, ghost st: RunState)
    returns (ok: bool, out: seq<Slot>, fixedField: Option<nat>, fixedSize: nat, ghost st': RunState)
    requires stream.Valid() && iter.Valid() && iter.pos < |iter.fields|
    requires WellFormed(iter.fields) && Shaped(iter.fields, msg) && st.msg == msg
    requires field.Some? ==> field.value < |iter.fields|
    requires st.fixed == FixedState(field, size)
    requires fieldsSeen.Length == 2 && SeenWords(iter.fields, st.seen, fieldsSeen[..])
    modifies stream, fieldsSeen
    ensures stream.Valid()
    ensures var r := DecodeField(iter.fields, iter.pos, wt, st, old(stream.Rest()));
            ok == r.Next? && (ok ==> r == Next(st', stream.Rest()))
    ensures ok ==> st'.msg == out && Shaped(iter.fields, out) && st'.fixed == FixedState(fixedField, fixedSize)
    ensures ok ==> SeenWords(iter.fields, st'.seen, fieldsSeen[..])
    ensures fixedField.Some? ==> fixedField.value < |iter.fields|
    ensures ok ==> stream.pos + stream.bytesLeft == old(stream.pos + stream.bytesLeft)
    decreases stream.bytesLeft, 4
  {
    FieldShaped(iter.fields, iter.pos, wt, st, stream.Rest());
    var f := iter.fields[iter.pos];
    fixedField, fixedSize, out, st' := field, size, msg, st;
    if f.rule.Repeated? && iter.size == iter.data {
      if fixedField != Some(iter.pos) {
        if fixedField.Some? && fixedSize != iter.fields[fixedField.value].arraySize {
          ok := false;
          return;
        }
        fixedField, fixedSize := Some(iter.pos), 0;
      }
    }
    MarkRequired(iter, fieldsSeen, st.seen);
    st' := match DecodeField(iter.fields, iter.pos, wt, st, stream.Rest())
           case Next(next, _) => next
           case _ => st;
    ok, out, fixedSize := DecodeStaticField(stream, wt, iter, msg, fixedSize, st);
  }

  // How a round of the loop of pb_decode_noinit begins: the end of the message, an unknown
  // field that is skipped, or a field found by the iterator.
  datatype Round = Failed | Ended | Skipped | Found(wt: nat)

  method BeginRound(stream: IStream, iter: FieldIter, ghost st: RunState) returns (r: Round)
    requires stream.Valid() && iter.Valid() && stream.bytesLeft > 0 && WellFormed(iter.fields)
    modifies stream, iter
    ensures stream.Valid() && iter.Valid()
    ensures stream.pos + stream.bytesLeft == old(stream.pos + stream.bytesLeft)
    ensures var step := Step(iter.fields, st, old(stream.Rest()));
            && (r.Failed? ==> step == Bad)
            && (r.Ended? ==> step == Stop(stream.Rest()))
            && (r.Skipped? ==> step == Next(st, stream.Rest()))
            && (r.Found? ==> iter.pos < |iter.fields| && step == DecodeField(iter.fields, iter.pos, r.wt, st, stream.Rest()))
    ensures r.Found? || r.Skipped? ==> stream.bytesLeft < old(stream.bytesLeft)
  {
    var ok, wt, tag, eof := DecodeTag(stream);
    if !ok {
      return if eof then Ended else Failed;
    }
    TagSplits(tag, wt);
    var found := iter.Find(tag);
    if !found {
      ok := stream.SkipField(wt);
      return if ok then Skipped else Failed;
    }
    if iter.fields == [] {
      // The terminator has no data size, which its decoder refuses.
      return Failed;
    }
    FoundAt(iter.fields, iter.pos);
    return Found(wt);
  }

  lemma TagSplits(tag: nat, wt: nat)
    requires wt < 8
    ensures (8 * tag + wt) / 8 == tag && (8 * tag + wt) % 8 == wt
  {
  }

  lemma FoundAt(fs: seq<Field>, i: nat)
    requires WellFormed(fs) && i < |fs|
    ensures PbMessage.Find(fs, fs[i].tag) == i && fs[i].tag > 0
  {
    assert fs[i] in fs && WellFormedField(fs[i]);
  }

  // The checks after the loop.
  method Finish(iter: FieldIter, fieldsSeen: array<nat>, fixedField: Option<nat>, fixedSize: nat, ghost st: RunState)
    returns (ok: bool)
    requires iter.Valid() && fieldsSeen.Length == 2 && SeenWords(iter.fields, st.seen, fieldsSeen[..])
    requires fixedField.Some? ==> fixedField.value < |iter.fields|
    requires st.fixed == FixedState(fixedField, fixedSize)
    modifies iter
    ensures ok == Complete(iter.fields, st)
  {
    if fixedField.Some? && fixedSize != iter.fields[fixedField.value].arraySize {
      return false;
    }
    ok := CheckRequired(iter, fieldsSeen, st.seen);
  }

  method DecodeNoinit(stream: IStream, fs: seq<Field>, msg: seq<Slot>) returns (ok: bool, out: seq<Slot>)
    requires stream.Valid() && WellFormed(fs) && Shaped(fs, msg)
    modifies stream
    ensures stream.Valid()
    ensures ok == PbWire.DecodeNoinit(fs, msg, old(stream.Rest())).Some?
    ensures ok ==> PbWire.DecodeNoinit(fs, msg, old(stream.Rest())) == Some(out)
    ensures ok ==> Run(fs, Start(msg), old(stream.Rest())).rest == stream.Rest()
    ensures ok ==> stream.pos + stream.bytesLeft == old(stream.pos + stream.bytesLeft)
    decreases stream.bytesLeft, 6
  {
    out := msg;
    var fieldsSeen := new nat[2] [0, 0];
    var fixedField: Option<nat>, fixedSize: nat := None, 0;
    var iter := new FieldIter(fs);
    ghost var all, st := stream.Rest(), Start(msg);
    NoneSeen(fs);
    assert fieldsSeen[..] == [0, 0];
    while stream.bytesLeft > 0
      invariant stream.Valid() && stream.pos + stream.bytesLeft == old(stream.pos + stream.bytesLeft)
      invariant iter.Valid() && iter.fields == fs && fresh(iter) && fresh(fieldsSeen)
      invariant st.msg == out && Shaped(fs, out)
      invariant st.fixed == FixedState(fixedField, fixedSize)
      invariant fixedField.Some? ==> fixedField.value < |fs|
      invariant SeenWords(fs, st.seen, fieldsSeen[..])
      invariant Run(fs, Start(msg), all) == Run(fs, st, stream.Rest())
      decreases stream.bytesLeft
    {
      var round := BeginRound(stream, iter, st);
      if round.Failed? {
        return false, out;
      }
      if round.Ended? {
        assert Run(fs, Start(msg), all) == End(st, stream.Rest());
        break;
      }
      if round.Found? {
        ok, out, fixedField, fixedSize, st := DecodeFound(stream, round.wt, iter, fieldsSeen, out, fixedField, fixedSize, st);
        if !ok {
          return;
        }
      }
    }
    ok := Finish(iter, fieldsSeen, fixedField, fixedSize, st);
  }

  // pb_decode.
  method Decode(stream: IStream, fs: seq<Field>, msg: seq<Slot>) returns (ok: bool, out: seq<Slot>)
    requires stream.Valid() && WellFormed(fs) && Shaped(fs, msg)
    modifies stream
    ensures stream.Valid()
    ensures ok == PbWire.Decode(fs, msg, old(stream.Rest())).Some?
    ensures ok ==> PbWire.Decode(fs, msg, old(stream.Rest())) == Some(out) && Shaped(fs, out)
    ensures ok ==> stream.pos + stream.bytesLeft == old(stream.pos + stream.bytesLeft)
  {
    PbRoundTrip.SetDefaultsFresh(fs, msg);
    out := SetDefaults(fs, msg);
    RunShaped(fs, Start(out), stream.Rest());
    ok, out := DecodeNoinit(stream, fs, out);
  }
}
