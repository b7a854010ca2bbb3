// Decoding is compositional: concatenated encodings merge, and unknown fields are invisible.

module PbMerge {
  import opened Basics
  import opened PbVarint
  import opened PbMessage
  import opened PbWire

  // --- Reading is not affected by the bytes after what is read ---

  lemma {:induction false} VarintExtends(s: seq<byte>, t: seq<byte>, bitpos: nat, result: nat)
    ensures var p := ReadVarintFrom(s, bitpos, result);
            p.Done? ==> ReadVarintFrom(s + t, bitpos, result) == Done(p.value, p.rest + t)
    decreases |s|
  {
    if s != [] {
      assert (s + t)[1..] == s[1..] + t;
      var r := Bits.Or(result, Bits.Shl(s[0] % 128, bitpos) % Bits.TWO64);
      if s[0] >= 128 { VarintExtends(s[1..], t, bitpos + 7, r); }
    }
  }

  lemma {:induction false} Varint32ExtendsFrom(s: seq<byte>, t: seq<byte>, bitpos: nat, result: nat)
    requires bitpos < 256
    ensures var p := ReadVarint32From(s, bitpos, result);
            p.Done? ==> ReadVarint32From(s + t, bitpos, result) == Done(p.value, p.rest + t)
    decreases |s|
  {
    if s != [] {
      assert (s + t)[1..] == s[1..] + t;
      var b := s[0];
      var r := if bitpos >= 32 then result else Bits.Or(result, Bits.Shl(b % 128, bitpos) % Bits.TWO32);
      if b >= 128 { Varint32ExtendsFrom(s[1..], t, (bitpos + 7) % 256, r); }
    }
  }

  lemma Varint32Extends(s: seq<byte>, t: seq<byte>)
    ensures var p := ReadVarint32(s); p.Done? ==> ReadVarint32(s + t) == Done(p.value, p.rest + t)
  {
    if s != [] {
      assert (s + t)[1..] == s[1..] + t;
      if s[0] >= 128 { Varint32ExtendsFrom(s[1..], t, 7, s[0] % 128); }
    }
  }

  lemma TakeExtends(s: seq<byte>, t: seq<byte>, n: nat)
    ensures var p := Take(s, n); p.Done? ==> Take(s + t, n) == Done(p.value, p.rest + t)
  {
    if n <= |s| {
      assert (s + t)[..n] == s[..n];
      assert (s + t)[n..] == s[n..] + t;
    }
  }

  lemma DelimitedExtends(s: seq<byte>, t: seq<byte>)
    ensures var p := Delimited(s); p.Done? ==> Delimited(s + t) == Done(p.value, p.rest + t)
  {
    Varint32Extends(s, t);
    var p := ReadVarint32(s);
    if p.Done? { TakeExtends(p.rest, t, p.value); }
  }

  lemma {:induction false} SkipVarintExtends(s: seq<byte>, t: seq<byte>)
    ensures var p := SkipVarint(s); p.Done? ==> SkipVarint(s + t) == Done((), p.rest + t)
  {
    if s != [] {
      assert (s + t)[1..] == s[1..] + t;
      if s[0] >= 128 { SkipVarintExtends(s[1..], t); }
    }
  }

  lemma SkipFieldExtends(wt: nat, s: seq<byte>, t: seq<byte>)
    ensures var p := SkipField(wt, s); p.Done? ==> SkipField(wt, s + t) == Done((), p.rest + t)
  {
    SkipVarintExtends(s, t);
    TakeExtends(s, t, 8);
    TakeExtends(s, t, 4);
    DelimitedExtends(s, t);
  }

  lemma NumberExtends(k: Kind, size: nat, s: seq<byte>, t: seq<byte>)
    requires Packable(k)
    ensures var p := DecodeNumber(k, size, s); p.Done? ==> DecodeNumber(k, size, s + t) == Done(p.value, p.rest + t)
  {
    TakeExtends(s, t, 4);
    TakeExtends(s, t, 8);
    VarintExtends(s, t, 0, 0);
  }

  lemma DataExtends(k: Kind, size: nat, s: seq<byte>, t: seq<byte>)
    requires k.Bytes? || k.Str? || k.FixedBytes?
    ensures var p := DecodeData(k, size, s); p.Done? ==> DecodeData(k, size, s + t) == Done(p.value, p.rest + t)
  {
    Varint32Extends(s, t);
    var p := ReadVarint32(s);
    if p.Done? { TakeExtends(p.rest, t, p.value); }
  }

  lemma ValueExtends(f: Field, dest: Value, s: seq<byte>, t: seq<byte>)
    ensures var p := DecodeValue(f, dest, s); p.Done? ==> DecodeValue(f, dest, s + t) == Done(p.value, p.rest + t)
  {
    match f.kind
    case Submessage(_) => DelimitedExtends(s, t);
    case Bytes => DataExtends(f.kind, f.dataSize, s, t);
    case Str => DataExtends(f.kind, f.dataSize, s, t);
    case FixedBytes => DataExtends(f.kind, f.dataSize, s, t);
    case _ => NumberExtends(f.kind, f.dataSize, s, t);
  }

  lemma RepeatedExtends(f: Field, wt: nat, count: nat, items: seq<Value>, s: seq<byte>, t: seq<byte>)
    ensures var p := DecodeRepeated(f, wt, count, items, s);
            p.Done? ==> DecodeRepeated(f, wt, count, items, s + t) == Done(p.value, p.rest + t)
  {
    DelimitedExtends(s, t);
    if count < |items| { ValueExtends(f, items[count], s, t); }
  }

  ghost predicate NextBefore(long: StepResult, short: StepResult, t: seq<byte>) {
    short.Next? ==> long == Next(short.st, short.rest + t)
  }

  lemma FieldExtends(fs: seq<Field>, i: nat, wt: nat, st: RunState, s: seq<byte>, t: seq<byte>)
    requires i < |fs|
    ensures NextBefore(DecodeField(fs, i, wt, st, s + t), DecodeField(fs, i, wt, st, s), t)
  {
    if |st.msg| == |fs| {
      match st.msg[Home(fs, i)]
      case One(v) => ValueExtends(fs[i], v, s, t);
      case Opt(_, v) => ValueExtends(fs[i], v, s, t);
      case Many(count, items) => RepeatedExtends(fs[i], wt, count, items, s, t);
      case Fixed(items) =>
        var cur := EnterFixed(fs, i, st.fixed);
        if cur.Some? { RepeatedExtends(fs[i], wt, cur.value.1, items, s, t); }
      case Union(which, v) =>
        var start := Oneof(fs, i, which, v);
        if start.Some? { ValueExtends(fs[i], start.value, s, t); }
      case Shared =>
    }
  }

  lemma StepExtends(fs: seq<Field>, st: RunState, s: seq<byte>, t: seq<byte>)
    ensures NextBefore(Step(fs, st, s + t), Step(fs, st, s), t)
  {
    Varint32Extends(s, t);
    var p := ReadVarint32(s);
    if p.Done? {
      SkipFieldExtends(p.value % 8, p.rest, t);
      var i := Find(fs, p.value / 8);
      if i < |fs| { FieldExtends(fs, i, p.value % 8, st, p.rest, t); }
    }
  }

  // --- Merging ---

  // The loop of pb_decode_noinit uses up s field by field, without an error and without
  // meeting a zero tag.
  ghost predicate ReachesEnd(fs: seq<Field>, st: RunState, s: seq<byte>)
    decreases |s|
  {
    s == [] || (var r := Step(fs, st, s); r.Next? && ReachesEnd(fs, r.st, r.rest))
  }

  // The state after a decides how the rest is decoded.
  lemma {:induction false} RunContinues(fs: seq<Field>, st: RunState, a: seq<byte>, b: seq<byte>) returns (st': RunState)
    requires ReachesEnd(fs, st, a)
    ensures Run(fs, st, a) == End(st', [])
    ensures Run(fs, st, a + b) == Run(fs, st', b)
    decreases |a|
  {
    if a == [] {
      assert a + b == b;
      st' := st;
    } else {
      StepExtends(fs, st, a, b);
      var r := Step(fs, st, a);
      st' := RunContinues(fs, r.st, r.rest, b);
    }
  }

  ghost predicate Mergeable(fs: seq<Field>) {
    forall i :: 0 <= i < |fs| ==> !fs[i].rule.Required? && !FixedCount(fs[i])
  }

  ghost predicate Rebooked(x: StepResult, y: StepResult, b: RunState) {
    match x
    case Bad => y == Bad
    case Stop(r) => y == Stop(r)
    case Next(st, r) => y == Next(b.(msg := st.msg), r)
  }

  // Without required and fixed-count fields the bookkeeping neither changes nor matters.
  lemma StepIgnoresBooks(fs: seq<Field>, st: RunState, b: RunState, s: seq<byte>)
    requires Mergeable(fs) && b.msg == st.msg
    ensures Rebooked(Step(fs, st, s), Step(fs, b, s), b)
  {
    var p := ReadVarint32(s);
    if p.Done? {
      var i := Find(fs, p.value / 8);
      if i < |fs| {
        assert Rebooked(DecodeField(fs, i, p.value % 8, st, p.rest), DecodeField(fs, i, p.value % 8, b, p.rest), b);
      }
    }
  }

  lemma {:induction false} RunIgnoresBooks(fs: seq<Field>, st: RunState, b: RunState, s: seq<byte>)
    requires Mergeable(fs) && b.msg == st.msg
    ensures var x, y := Run(fs, st, s), Run(fs, b, s);
            if x.Broken? then y.Broken? else y.End? && y.st == b.(msg := x.st.msg) && y.rest == x.rest
    decreases |s|
  {
    if s != [] {
      StepIgnoresBooks(fs, st, b, s);
      var r := Step(fs, st, s);
      if r.Next? { RunIgnoresBooks(fs, r.st, b.(msg := r.st.msg), r.rest); }
    }
  }

  // Decoding a ++ b is decoding a and then b into the same struct.
  lemma DecodingMerges(fs: seq<Field>, m: seq<Slot>, a: seq<byte>, b: seq<byte>)
    requires Mergeable(fs) && ReachesEnd(fs, Start(m), a)
    ensures DecodeNoinit(fs, m, a).Some?
    ensures DecodeNoinit(fs, m, a + b) == DecodeNoinit(fs, DecodeNoinit(fs, m, a).value, b)
  {
    var st := RunContinues(fs, Start(m), a, b);
    RunIgnoresBooks(fs, Start(m), Start(m), a);
    assert st == Start(st.msg);
    assert Complete(fs, st);
  }

  // For any descriptor: one decode of a ++ b is the loop over b continued from the state a left,
  // with its seen fields and its unfinished fixed-count field.
  lemma DecodingContinues(fs: seq<Field>, m: seq<Slot>, a: seq<byte>, b: seq<byte>) returns (st: RunState)
    requires ReachesEnd(fs, Start(m), a)
    ensures Run(fs, Start(m), a) == End(st, [])
    ensures var r := Run(fs, st, b);
            DecodeNoinit(fs, m, a + b) == if r.End? && Complete(fs, r.st) then Some(r.st.msg) else None
  {
    st := RunContinues(fs, Start(m), a, b);
  }

  // --- Unknown fields ---

  // The bytes of one field behind its tag, by wire type: a varint ends with the first byte
  // below 128, 64-bit and 32-bit values take eight and four bytes, and a length is followed by
  // that many bytes.
  ghost predicate Payload(wt: nat, p: seq<byte>) {
    if wt == 0 then p != [] && p[|p| - 1] < 128 && forall k :: 0 <= k < |p| - 1 ==> p[k] >= 128
    else if wt == 1 then |p| == 8
    else if wt == 2 then ReadVarint32(p).Done? && ReadVarint32(p).value == |ReadVarint32(p).rest|
    else wt == 5 && |p| == 4
  }

  lemma {:induction false} SkipsVarint(s: seq<byte>)
    ensures SkipVarint(s) == Done((), []) <==> Payload(0, s)
  {
    if s != [] && s[0] >= 128 {
      SkipsVarint(s[1..]);
      if Payload(0, s) {
        assert |s| > 1 && s[|s| - 1] == s[1..][|s| - 2];
        forall k | 0 <= k < |s| - 2 ensures s[1..][k] >= 128 { assert s[1..][k] == s[k + 1]; }
      }
      if Payload(0, s[1..]) {
        forall k | 0 <= k < |s| - 1 ensures s[k] >= 128 { assert k > 0 ==> s[k] == s[1..][k - 1]; }
      }
    }
  }

  // pb_skip_field uses up exactly what the wire type asks for.
  lemma SkipsPayload(wt: nat, s: seq<byte>)
    ensures SkipField(wt, s) == Done((), []) <==> Payload(wt, s)
  {
    SkipsVarint(s);
  }

  // u is one complete field whose tag the descriptor does not have.
  ghost predicate UnknownField(fs: seq<Field>, u: seq<byte>) {
    var p := ReadVarint32(u);
    && p.Done? && p.value != 0
    && (if p.value / 8 == 0 then fs != [] else Find(fs, p.value / 8) == |fs|)
    && Payload(p.value % 8, p.rest)
  }

  // An unknown field at any field boundary changes nothing.
  lemma UnknownFieldInvisible(fs: seq<Field>, m: seq<Slot>, a: seq<byte>, u: seq<byte>, b: seq<byte>)
    requires ReachesEnd(fs, Start(m), a) && UnknownField(fs, u)
    ensures DecodeNoinit(fs, m, a + (u + b)) == DecodeNoinit(fs, m, a + b)
  {
    var st := RunContinues(fs, Start(m), a, u + b);
    var st2 := RunContinues(fs, Start(m), a, b);
    SkipsPayload(ReadVarint32(u).value % 8, ReadVarint32(u).rest);
    assert Step(fs, st, u) == Next(st, []);
    StepExtends(fs, st, u, b);
    assert [] + b == b;
    assert Run(fs, st, u + b) == Run(fs, st, b) by { assert u != []; }
  }

  lemma {:induction false} VarintPayload(v: nat)
    ensures Payload(0, EncodeVarint(v))
  {
    var e := EncodeVarint(v);
    if v >= 128 {
      VarintPayload(v / 128);
      var more := EncodeVarint(v / 128);
      assert e == [v % 128 + 128] + more && e[|e| - 1] == more[|more| - 1];
      forall k | 0 <= k < |e| - 1 ensures e[k] >= 128 { assert k > 0 ==> e[k] == more[k - 1]; }
    }
  }

  lemma StringPayload(b: seq<byte>)
    requires |b| < Bits.TWO32
    ensures Payload(2, EncodeString(b))
  {
    Varint32RoundTrip(|b|, b);
  }

  // Every value that is encoded is such a field for a descriptor without its tag.
  lemma EncodedIsUnknown(fs: seq<Field>, g: Field, v: Value)
    requires WellFormedField(g) && Find(fs, g.tag) == |fs|
    requires EncodeTagged(g, v).Some? && |EncodeTagged(g, v).value| < Bits.TWO32
    ensures UnknownField(fs, EncodeTagged(g, v).value)
  {
    var e := EncodeValue(g, v).value;
    Varint32RoundTrip(g.tag * 8 + WireType(g.kind), e);
    match g.kind
    case Varint => VarintPayload(ToUnsigned(v.v));
    case UVarint => VarintPayload(v.v);
    case SVarint => VarintPayload(ZigZag(v.v));
    case Fixed32 =>
    case Fixed64 =>
    case Submessage(gs) => StringPayload(EncodeFrom(gs, v.slots, 0).value);
    case Str => StringPayload(CString(v.b, g.dataSize));
    case _ => StringPayload(v.b);
  }

  // A field of another version of the message, with whatever value, changes nothing.
  lemma OtherFieldInvisible(fs: seq<Field>, m: seq<Slot>, a: seq<byte>, g: Field, v: Value, b: seq<byte>)
    requires ReachesEnd(fs, Start(m), a) && WellFormedField(g) && Find(fs, g.tag) == |fs|
    requires EncodeTagged(g, v).Some? && |EncodeTagged(g, v).value| < Bits.TWO32
    ensures DecodeNoinit(fs, m, a + (EncodeTagged(g, v).value + b)) == DecodeNoinit(fs, m, a + b)
  {
    EncodedIsUnknown(fs, g, v);
    UnknownFieldInvisible(fs, m, a, EncodeTagged(g, v).value, b);
  }
}
