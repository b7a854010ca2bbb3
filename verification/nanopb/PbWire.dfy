// The meaning of the encoder and the decoder as functions on byte sequences. The stream
// methods in PbEncoder.dfy and PbDecoder.dfy are proved to compute exactly these.

module PbWire {
  import opened Basics
  import opened Bits
  import opened PbVarint
  import opened PbMessage

  const WT_VARINT := 0
  const WT_64BIT := 1
  const WT_STRING := 2
  const WT_32BIT := 5

  // --- Fixed-width integers ---

  function EncodeFixed(v: nat, n: nat): (r: seq<byte>)
    ensures |r| == n
  {
    if n == 0 then [] else [v % 256] + EncodeFixed(v / 256, n - 1)
  }

  function DecodeFixed(s: seq<byte>): nat {
    if s == [] then 0 else s[0] + 256 * DecodeFixed(s[1..])
  }

  // --- Reading pieces of a stream ---

  function Take(s: seq<byte>, n: nat): (p: Parse<seq<byte>>)
    ensures p.Done? ==> |p.rest| + n == |s| && |p.value| == n
  {
    if n <= |s| then Done(s[..n], s[n..]) else Fail
  }

  // pb_make_string_substream and pb_close_string_substream: the contents of a
  // length-delimited field and what follows it.
  function Delimited(s: seq<byte>): (p: Parse<seq<byte>>)
    ensures p.Done? ==> |p.value| + |p.rest| < |s|
  {
    match ReadVarint32(s)
    case Fail => Fail
    case Done(n, r) => Take(r, n)
  }

  function SkipVarint(s: seq<byte>): (p: Parse<()>)
    ensures p.Done? ==> |p.rest| < |s|
  {
    if s == [] then Fail else if s[0] >= 128 then SkipVarint(s[1..]) else Done((), s[1..])
  }

  function SkipTaken(p: Parse<seq<byte>>): (r: Parse<()>)
    ensures r.Done? <==> p.Done?
    ensures r.Done? ==> r.rest == p.rest
  {
    if p.Done? then Done((), p.rest) else Fail
  }

  // pb_skip_field.
  function SkipField(wt: nat, s: seq<byte>): (p: Parse<()>)
    ensures p.Done? ==> |p.rest| < |s|
  {
    if wt == WT_VARINT then SkipVarint(s)
    else if wt == WT_64BIT then SkipTaken(Take(s, 8))
    else if wt == WT_STRING then SkipTaken(Delimited(s))
    else if wt == WT_32BIT then SkipTaken(Take(s, 4))
    else Fail
  }

  // --- Scalar values ---

  // pb_dec_varint, pb_dec_uvarint, pb_dec_svarint and their size checks.
  function NumberOf(k: Kind, size: nat, u: nat): Option<int>
    requires k.Varint? || k.UVarint? || k.SVarint?
  {
    var v := if k.Varint? then (if size == 8 then ToSigned(u) else ToInt32(u)) else if k.SVarint? then UnZigZag(u) else u;
    if (if k.UVarint? then FitsUnsigned(size, v) else FitsSigned(size, v)) then Some(v) else None
  }

  function DecodeNumber(k: Kind, size: nat, s: seq<byte>): (p: Parse<Value>)
    requires Packable(k)
    ensures p.Done? ==> |p.rest| < |s| && p.value.Int?
  {
    if k.Fixed32? || k.Fixed64? then
      match Take(s, if k.Fixed32? then 4 else 8)
      case Fail => Fail
      case Done(b, r) => Done(Int(DecodeFixed(b)), r)
    else
      match ReadVarint(s)
      case Fail => Fail
      case Done(u, r) =>
        var v := NumberOf(k, size, u);
        if v.Some? then Done(Int(v.value), r) else Fail
  }

  // pb_dec_bytes, pb_dec_string and pb_dec_fixed_length_bytes.
  function DecodeData(k: Kind, size: nat, s: seq<byte>): (p: Parse<Value>)
    requires k.Bytes? || k.Str? || k.FixedBytes?
    ensures p.Done? ==> |p.rest| < |s| && p.value.Data?
  {
    match ReadVarint32(s)
    case Fail => Fail
    case Done(n, r) =>
      if k.FixedBytes? && n == 0 then Done(Data(Zeros(size)), r)
      else if k.Bytes? && n + BYTES_OFFSET > size then Fail
      else if k.Str? && (n + 1 == TWO32 || n + 1 > size) then Fail
      else if k.FixedBytes? && n != size then Fail
      else
        match Take(r, n)
        case Fail => Fail
        case Done(b, r') => Done(Data(b), r')
  }

  // --- Decoding a message ---

  // The state of pb_decode_noinit between fields: the struct, the required fields seen, and
  // the fixed-count field being filled with the number of its entries so far.
  datatype RunState = RunState(msg: seq<Slot>, seen: set<nat>, fixed: Option<(nat, nat)>)

  datatype StepResult = Bad | Stop(rest: seq<byte>) | Next(st: RunState, rest: seq<byte>)

  datatype RunResult = Broken | End(st: RunState, rest: seq<byte>)

  function Start(m: seq<Slot>): RunState { RunState(m, {}, None) }

  // The value one field decoder leaves in place of dest.
  function DecodeValue(f: Field, dest: Value, s: seq<byte>): (p: Parse<Value>)
    ensures p.Done? ==> |p.rest| < |s|
    decreases |s|, 0
  {
    match f.kind
    case Submessage(fs) =>
      (match Delimited(s)
       case Fail => Fail
       case Done(c, r) =>
         if !dest.Msg? || |dest.slots| != |fs| then Fail else
         match DecodeNoinit(fs, if f.rule.Repeated? then SetDefaults(fs, dest.slots) else dest.slots, c)
         case None => Fail
         case Some(m) => Done(Msg(m), r))
    case Bytes => DecodeData(f.kind, f.dataSize, s)
    case Str => DecodeData(f.kind, f.dataSize, s)
    case FixedBytes => DecodeData(f.kind, f.dataSize, s)
    case _ => DecodeNumber(f.kind, f.dataSize, s)
  }

  // The entries of a packed array are decoded until its bytes are used up.
  function DecodePacked(f: Field, count: nat, items: seq<Value>, s: seq<byte>): Option<(nat, seq<Value>)>
    requires Packable(f.kind)
    decreases |s|
  {
    if s == [] then Some((count, items))
    else if count >= f.arraySize || count >= |items| then None
    else
      match DecodeNumber(f.kind, f.dataSize, s)
      case Fail => None
      case Done(v, r) => DecodePacked(f, count + 1, items[count := v], r)
  }

  // A repeated field: a packed array, or one more entry.
  function DecodeRepeated(f: Field, wt: nat, count: nat, items: seq<Value>, s: seq<byte>): (p: Parse<(nat, seq<Value>)>)
    ensures p.Done? ==> |p.rest| < |s|
    decreases |s|, 1
  {
    if wt == WT_STRING && Packable(f.kind) then
      match Delimited(s)
      case Fail => Fail
      case Done(c, r) =>
        (match DecodePacked(f, count, items, c)
         case None => Fail
         case Some(x) => Done(x, r))
    else if count >= f.arraySize || count >= |items| then Fail
    else
      match DecodeValue(f, items[count], s)
      case Fail => Fail
      case Done(v, r) => Done((count + 1, items[count := v]), r)
  }

  // Entering a fixed-count field: the one before it must be complete.
  function EnterFixed(fs: seq<Field>, i: nat, fixed: Option<(nat, nat)>): Option<(nat, nat)>
    requires i < |fs|
  {
    if fixed.Some? && fixed.value.0 == i then fixed
    else if fixed.Some? && !(fixed.value.0 < |fs| && fixed.value.1 == fs[fixed.value.0].arraySize) then None
    else Some((i, 0))
  }

  function Oneof(fs: seq<Field>, i: nat, which: nat, v: Value): Option<Value>
    requires i < |fs|
  {
    // With dynamic allocation built in, the old member must exist to be released.
    if which != 0 && which != fs[i].tag && Find(fs, which) == |fs| then None
    else if fs[i].kind.Submessage? then
      Some(Msg(SetDefaults(fs[i].kind.fields, ZeroMessage(fs[i].kind.fields))))
    else Some(v)
  }

  // decode_static_field, with the bookkeeping around it in pb_decode_noinit.
  function DecodeField(fs: seq<Field>, i: nat, wt: nat, st: RunState, s: seq<byte>): (r: StepResult)
    requires i < |fs|
    ensures r.Next? ==> |r.rest| < |s|
    ensures !r.Stop?
    decreases |s|, 2
  {
    var f := fs[i];
    if |st.msg| != |fs| then Bad else
    match st.msg[Home(fs, i)]
    case One(v) =>
      if !(f.rule.Required? || (f.rule.Optional? && !HasSize(f))) then Bad else
      (match DecodeValue(f, v, s)
       case Fail => Bad
       case Done(v', r) =>
         Next(st.(msg := st.msg[i := One(v')], seen := if f.rule.Required? then st.seen + {i} else st.seen), r))
    case Opt(_, v) =>
      if !(f.rule.Optional? && HasSize(f)) then Bad else
      (match DecodeValue(f, v, s)
       case Fail => Bad
       case Done(v', r) => Next(st.(msg := st.msg[i := Opt(true, v')]), r))
    case Many(count, items) =>
      if !(f.rule.Repeated? && HasSize(f)) then Bad else
      (match DecodeRepeated(f, wt, count, items, s)
       case Fail => Bad
       case Done(x, r) => Next(st.(msg := st.msg[i := Many(x.0, x.1)]), r))
    case Fixed(items) =>
      if !FixedCount(f) then Bad else
      (match EnterFixed(fs, i, st.fixed)
       case None => Bad
       case Some(cur) =>
         (match DecodeRepeated(f, wt, cur.1, items, s)
          case Fail => Bad
          case Done(x, r) => Next(st.(msg := st.msg[i := Fixed(x.1)], fixed := Some((i, x.0))), r)))
    case Union(which, v) =>
      if !f.rule.OneOf? then Bad else
      (match Oneof(fs, i, which, v)
       case None => Bad
       case Some(start) =>
         (match DecodeValue(f, start, s)
          case Fail => Bad
          case Done(v', r) => Next(st.(msg := st.msg[Home(fs, i) := Union(f.tag, v')]), r)))
    case Shared => Bad
  }

  // One round of the loop of pb_decode_noinit: a tag, then its field or an unknown field.
  // A zero tag ends the message. In an empty descriptor tag number 0 matches the terminator,
  // whose decoding always fails.
  function Step(fs: seq<Field>, st: RunState, s: seq<byte>): (r: StepResult)
    ensures r.Next? ==> |r.rest| < |s|
    decreases |s|, 3
  {
    match ReadVarint32(s)
    case Fail => Bad
    case Done(t, r) =>
      if t == 0 then Stop(r)
      else if fs == [] && t / 8 == 0 then Bad
      else if t / 8 == 0 || Find(fs, t / 8) == |fs| then
        match SkipField(t % 8, r)
        case Fail => Bad
        case Done(_, r') => Next(st, r')
      else DecodeField(fs, Find(fs, t / 8), t % 8, st, r)
  }

  function Run(fs: seq<Field>, st: RunState, s: seq<byte>): RunResult
    decreases |s|, 4
  {
    if s == [] then End(st, [])
    else
      match Step(fs, st, s)
      case Bad => Broken
      case Stop(r) => End(st, r)
      case Next(st', r) => Run(fs, st', r)
  }

  // The checks after the loop of pb_decode_noinit.
  predicate Complete(fs: seq<Field>, st: RunState) {
    && (st.fixed.Some? ==> st.fixed.value.0 < |fs| && st.fixed.value.1 == fs[st.fixed.value.0].arraySize)
    && forall i :: 0 <= i < |fs| && fs[i].rule.Required? && RequiredBefore(fs, i) < PB_MAX_REQUIRED_FIELDS ==> i in st.seen
  }

  function DecodeNoinit(fs: seq<Field>, m: seq<Slot>, s: seq<byte>): Option<seq<Slot>>
    decreases |s|, 5
  {
    match Run(fs, Start(m), s)
    case Broken => None
    case End(st, _) => if Complete(fs, st) then Some(st.msg) else None
  }

  // pb_decode: reset the struct, then decode into it.
  function Decode(fs: seq<Field>, m: seq<Slot>, s: seq<byte>): Option<seq<Slot>>
    requires |m| == |fs|
  {
    DecodeNoinit(fs, SetDefaults(fs, m), s)
  }

  // --- Encoding a message ---

  function Append(a: Option<seq<byte>>, b: Option<seq<byte>>): (r: Option<seq<byte>>)
    ensures r.Some? <==> a.Some? && b.Some?
    ensures r.Some? ==> r.value == a.value + b.value
  {
    if a.Some? && b.Some? then Some(a.value + b.value) else None
  }

  function WireType(k: Kind): (wt: nat)
    ensures wt < 8
  {
    match k
    case Varint => WT_VARINT
    case UVarint => WT_VARINT
    case SVarint => WT_VARINT
    case Fixed32 => WT_32BIT
    case Fixed64 => WT_64BIT
    case _ => WT_STRING
  }

  function EncodeTag(wt: nat, tag: nat): seq<byte> { EncodeVarint(tag * 8 + wt) }

  // pb_encode_string.
  function EncodeString(b: seq<byte>): seq<byte> { EncodeVarint(|b|) + b }

  function EncodeNumber(k: Kind, size: nat, v: int): Option<seq<byte>>
    requires Packable(k)
  {
    match k
    case Varint => if FitsSigned(size, v) then Some(EncodeVarint(ToUnsigned(v))) else None
    case UVarint => if FitsUnsigned(size, v) then Some(EncodeVarint(v)) else None
    case SVarint => if FitsSigned(size, v) then Some(EncodeVarint(ZigZag(v))) else None
    case Fixed32 => if 0 <= v < TWO32 then Some(EncodeFixed(v, 4)) else None
    case Fixed64 => if 0 <= v < TWO64 then Some(EncodeFixed(v, 8)) else None
  }

  // The field encoders. A value its C type cannot hold has no encoding.
  function EncodeValue(f: Field, v: Value): Option<seq<byte>>
    decreases f, 0, 0
  {
    match f.kind
    case Submessage(fs) =>
      if !v.Msg? || |v.slots| != |fs| then None else
      (match EncodeFrom(fs, v.slots, 0)
       case None => None
       case Some(b) => Some(EncodeString(b)))
    case Bytes => if v.Data? && |v.b| + BYTES_OFFSET <= f.dataSize then Some(EncodeString(v.b)) else None
    case Str => if v.Data? then Some(EncodeString(CString(v.b, f.dataSize))) else None
    case FixedBytes => if v.Data? && |v.b| == f.dataSize then Some(EncodeString(v.b)) else None
    case _ => if v.Int? then EncodeNumber(f.kind, f.dataSize, v.v) else None
  }

  function EncodeTagged(f: Field, v: Value): Option<seq<byte>>
    decreases f, 1, 0
  {
    Append(Some(EncodeTag(WireType(f.kind), f.tag)), EncodeValue(f, v))
  }

  // The first count items from j on, each with its tag or, in a packed array, without.
  function EncodeItems(f: Field, tagged: bool, items: seq<Value>, count: nat, j: nat): Option<seq<byte>>
    requires j <= count <= |items|
    decreases f, 2, count - j
  {
    if j == count then Some([])
    else Append(if tagged then EncodeTagged(f, items[j]) else EncodeValue(f, items[j]),
                EncodeItems(f, tagged, items, count, j + 1))
  }

  // encode_array.
  function EncodeArray(f: Field, items: seq<Value>, count: nat): Option<seq<byte>>
    decreases f, 3, 0
  {
    if count == 0 then Some([])
    else if count > f.arraySize || count > |items| then None
    else if Packable(f.kind) then
      match EncodeItems(f, false, items, count, 0)
      case None => None
      case Some(b) => Some(EncodeTag(WT_STRING, f.tag) + EncodeString(b))
    else EncodeItems(f, true, items, count, 0)
  }

  // pb_check_proto3_default_value on the data of a proto3 singular field.
  predicate IsDefaultValue(f: Field, v: Value)
    decreases f, 1, 0
  {
    match f.kind
    case Submessage(fs) => v.Msg? && |v.slots| == |fs| && forall i :: 0 <= i < |fs| ==> IsDefaultSlot(fs, v.slots, i)
    case Bytes => v.Data? && v.b == []
    case Str => v.Data? && CString(v.b, f.dataSize) == []
    case FixedBytes => f.dataSize == 0
    case _ => v == Int(0)
  }

  // The same check on any field of a submessage.
  predicate IsDefaultSlot(fs: seq<Field>, m: seq<Slot>, i: nat)
    requires i < |fs| == |m|
    decreases fs, 0, 0
  {
    var f, s := fs[i], m[Home(fs, i)];
    match f.rule
    case Required => false
    case Optional => if HasSize(f) then s.Opt? && !s.has else s.One? && IsDefaultValue(f, s.value)
    case Repeated => s.Many? && s.count == 0
    case OneOf => s.Union? && s.which == 0
  }

  // encode_basic_field.
  function EncodeField(fs: seq<Field>, m: seq<Slot>, i: nat): Option<seq<byte>>
    requires i < |fs| == |m|
    decreases fs, |fs| - i, 0
  {
    var f := fs[i];
    match m[Home(fs, i)]
    case One(v) =>
      if f.rule.Required? then EncodeTagged(f, v)
      else if !Singular(f) then None
      else if IsDefaultValue(f, v) then Some([])
      else EncodeTagged(f, v)
    case Opt(has, v) =>
      if !(f.rule.Optional? && HasSize(f)) then None
      else if has then EncodeTagged(f, v) else Some([])
    case Many(count, items) =>
      if f.rule.Repeated? && HasSize(f) then EncodeArray(f, items, count) else None
    case Fixed(items) =>
      if FixedCount(f) then EncodeArray(f, items, f.arraySize) else None
    case Union(which, v) =>
      if !f.rule.OneOf? then None
      else if which == f.tag then EncodeTagged(f, v) else Some([])
    case Shared => None
  }

  // pb_encode, from field i on.
  function EncodeFrom(fs: seq<Field>, m: seq<Slot>, i: nat): Option<seq<byte>>
    requires i <= |fs| == |m|
    decreases fs, |fs| - i, 1
  {
    if i == |fs| then Some([]) else Append(EncodeField(fs, m, i), EncodeFrom(fs, m, i + 1))
  }

  function Encode(fs: seq<Field>, m: seq<Slot>): Option<seq<byte>>
    requires |m| == |fs|
  {
    EncodeFrom(fs, m, 0)
  }
}
