// Descriptors and message structs: what pb_field_t describes and what a C struct holds.

module PbMessage {
  import opened Basics
  import opened Bits

  // The largest pb_size_t, with the 32-bit field sizes the library is built with.
  const PB_SIZE_MAX := 0xFFFF_FFFF
  const PB_MAX_REQUIRED_FIELDS := 64
  // Offset of the data in a pb_bytes_array_t: the size of its count.
  const BYTES_OFFSET := 4

  datatype Kind =
    | Varint | UVarint | SVarint | Fixed32 | Fixed64
    | Bytes | Str | FixedBytes
    | Submessage(fields: seq<Field>)

  datatype Rule = Required | Optional | Repeated | OneOf

  // One pb_field_t. Offsets are relative, as in the C tables; sizeOffset is 0 when the
  // field has no has-flag, count or which-tag of its own.
  datatype Field = Field(tag: nat, kind: Kind, rule: Rule, dataOffset: nat, sizeOffset: int,
                         dataSize: nat, arraySize: nat, init: Option<Value>)

  // The contents of one member of a struct.
  datatype Value = Int(v: int) | Data(b: seq<byte>) | Msg(slots: seq<Slot>)

  // The storage of one field. The members of a oneof share the slot of their first member.
  datatype Slot =
    | One(value: Value)
    | Opt(has: bool, value: Value)
    | Many(count: nat, items: seq<Value>)
    | Fixed(items: seq<Value>)
    | Union(which: nat, value: Value)
    | Shared

  predicate HasSize(f: Field) { f.sizeOffset != 0 }

  predicate FixedCount(f: Field) { f.rule.Repeated? && !HasSize(f) }

  predicate Packable(k: Kind) { k.Varint? || k.UVarint? || k.SVarint? || k.Fixed32? || k.Fixed64? }

  predicate InsideUnion(fs: seq<Field>, i: nat)
    requires i < |fs|
  {
    i > 0 && fs[i].rule.OneOf? && fs[i - 1].rule.OneOf? && fs[i].dataOffset == PB_SIZE_MAX
  }

  // The position whose slot holds the storage of field i.
  function Home(fs: seq<Field>, i: nat): (h: nat)
    requires i < |fs|
    ensures h <= i
  {
    if InsideUnion(fs, i) then Home(fs, i - 1) else i
  }

  // The first field with this tag, or |fs|.
  function FindFrom(fs: seq<Field>, tag: nat, i: nat): (r: nat)
    requires i <= |fs|
    ensures i <= r <= |fs|
    ensures r < |fs| ==> fs[r].tag == tag
    ensures forall k :: i <= k < r ==> fs[k].tag != tag
    decreases |fs| - i
  {
    if i == |fs| || fs[i].tag == tag then i else FindFrom(fs, tag, i + 1)
  }

  function Find(fs: seq<Field>, tag: nat): (r: nat)
    ensures r <= |fs|
    ensures r < |fs| ==> fs[r].tag == tag
    ensures forall k :: 0 <= k < r ==> fs[k].tag != tag
  {
    FindFrom(fs, tag, 0)
  }

  function RequiredBefore(fs: seq<Field>, i: nat): nat
    requires i <= |fs|
  {
    if i == 0 then 0 else RequiredBefore(fs, i - 1) + if fs[i - 1].rule.Required? then 1 else 0
  }

  // --- Ranges of the C integer types ---

  predicate IntSize(size: nat) { size == 1 || size == 2 || size == 4 || size == 8 }

  function SignedBound(size: nat): int {
    if size == 1 then 0x80 else if size == 2 then 0x8000 else if size == 4 then TWO31 else TWO63
  }

  predicate FitsSigned(size: nat, v: int) { IntSize(size) && -SignedBound(size) <= v < SignedBound(size) }

  predicate FitsUnsigned(size: nat, v: int) { IntSize(size) && 0 <= v < 2 * SignedBound(size) }

  // The bytes of a char buffer of n bytes up to its terminator, if it has one. Bytes of the
  // buffer beyond b are zero.
  function CString(b: seq<byte>, n: nat): (r: seq<byte>)
    ensures |r| <= n && |r| <= |b|
  {
    if n == 0 || b == [] || b[0] == 0 then [] else [b[0]] + CString(b[1..], n - 1)
  }

  function Zeros(n: nat): (r: seq<byte>)
    ensures |r| == n
  {
    seq(n, i => 0)
  }

  // --- Initial contents ---

  function ZeroValue(f: Field): Value
    decreases f, 1
  {
    match f.kind
    case Submessage(fs) => Msg(ZeroMessage(fs))
    case Bytes => Data([])
    case Str => Data([])
    case FixedBytes => Data(Zeros(f.dataSize))
    case _ => Int(0)
  }

  function ZeroSlot(fs: seq<Field>, i: nat): Slot
    requires i < |fs|
    decreases fs, 0
  {
    var f := fs[i];
    match f.rule
    case Required => One(ZeroValue(f))
    case Optional => if HasSize(f) then Opt(false, ZeroValue(f)) else One(ZeroValue(f))
    case Repeated =>
      var items := seq(f.arraySize, j => ZeroValue(f));
      if HasSize(f) then Many(0, items) else Fixed(items)
    case OneOf => if InsideUnion(fs, i) then Shared else Union(0, Int(0))
  }

  // A struct cleared by memset.
  function ZeroMessage(fs: seq<Field>): (m: seq<Slot>)
    ensures |m| == |fs|
    decreases fs, 1
  {
    seq(|fs|, i requires 0 <= i < |fs| => ZeroSlot(fs, i))
  }

  // pb_field_set_to_default for the data of one field.
  function DefaultValue(f: Field, v: Value): Value
    decreases f, 1
  {
    match f.kind
    case Submessage(fs) => if v.Msg? && |v.slots| == |fs| then Msg(SetDefaults(fs, v.slots)) else v
    case _ => if f.init.Some? then f.init.value else ZeroValue(f)
  }

  function DefaultSlot(f: Field, s: Slot): Slot
    decreases f, 2
  {
    match s
    case One(v) => One(DefaultValue(f, v))
    case Opt(_, v) => Opt(false, DefaultValue(f, v))
    case Many(_, items) => Many(0, items)
    case Fixed(items) => Fixed(items)
    case Union(_, v) => Union(0, v)
    case Shared => Shared
  }

  // pb_message_set_to_defaults.
  function SetDefaults(fs: seq<Field>, m: seq<Slot>): (r: seq<Slot>)
    requires |m| == |fs|
    ensures |r| == |fs|
    decreases fs, 3
  {
    seq(|fs|, i requires 0 <= i < |fs| => DefaultSlot(fs[i], m[i]))
  }

  // --- Well-formed descriptors and structs ---

  ghost predicate DistinctTags(fs: seq<Field>) {
    forall i, j :: 0 <= i < j < |fs| ==> fs[i].tag != fs[j].tag
  }

  // proto3 singular: optional without a has-flag, present when its value is not zero.
  predicate Singular(f: Field) { f.rule.Optional? && !HasSize(f) }

  ghost predicate WellFormedField(f: Field)
    decreases f, 1
  {
    && 1 <= f.tag < 0x2000_0000
    && f.dataSize <= PB_SIZE_MAX && f.arraySize <= PB_SIZE_MAX
    && (f.kind.Varint? || f.kind.UVarint? || f.kind.SVarint? ==> IntSize(f.dataSize))
    && (Singular(f) ==> f.init == None)
    && (f.rule.OneOf? ==> HasSize(f))
    && (f.kind.Submessage? ==> WellFormed(f.kind.fields))
    && (f.kind.Submessage? && Singular(f) ==> forall g :: g in f.kind.fields ==> !FixedCount(g))
  }

  // What the descriptor tables of the nanopb generator satisfy.
  ghost predicate WellFormed(fs: seq<Field>)
    decreases fs, 0
  {
    DistinctTags(fs) && forall f :: f in fs ==> WellFormedField(f)
  }

  // The struct has the layout the descriptor says.
  ghost predicate ShapedValue(f: Field, v: Value)
    decreases f, 1
  {
    f.kind.Submessage? ==> v.Msg? && Shaped(f.kind.fields, v.slots)
  }

  ghost predicate ShapedSlot(fs: seq<Field>, i: nat, s: Slot)
    requires i < |fs|
    decreases fs, 0
  {
    var f := fs[i];
    match f.rule
    case Required => s.One? && ShapedValue(f, s.value)
    case Optional => if HasSize(f) then s.Opt? && ShapedValue(f, s.value) else s.One? && ShapedValue(f, s.value)
    case Repeated =>
      && (if HasSize(f) then s.Many? else s.Fixed?)
      && |s.items| == f.arraySize
      && forall v :: v in s.items ==> ShapedValue(f, v)
    case OneOf => if InsideUnion(fs, i) then s.Shared? else s.Union?
  }

  ghost predicate Shaped(fs: seq<Field>, m: seq<Slot>)
    decreases fs, 1
  {
    |m| == |fs| && forall i :: 0 <= i < |fs| ==> ShapedSlot(fs, i, m[i])
  }

  // What a C struct can hold: numbers are within their C types and a oneof holds one of its
  // members or none. Strings need no terminator and counts can be anything.
  ghost predicate HeldValue(f: Field, v: Value)
    decreases f, 1
  {
    match f.kind
    case Varint => v.Int? && FitsSigned(f.dataSize, v.v)
    case UVarint => v.Int? && FitsUnsigned(f.dataSize, v.v)
    case SVarint => v.Int? && FitsSigned(f.dataSize, v.v)
    case Fixed32 => v.Int? && 0 <= v.v < TWO32
    case Fixed64 => v.Int? && 0 <= v.v < TWO64
    case Bytes => v.Data? && |v.b| <= PB_SIZE_MAX
    case Str => v.Data?
    case FixedBytes => v.Data? && |v.b| == f.dataSize
    case Submessage(fs) => v.Msg? && Held(fs, v.slots)
  }

  ghost predicate HeldSlot(fs: seq<Field>, m: seq<Slot>, i: nat)
    requires i < |fs| == |m|
    decreases fs, 0
  {
    var f, s := fs[i], m[i];
    match f.rule
    case Required => s.One? && HeldValue(f, s.value)
    case Optional => if HasSize(f) then s.Opt? && (s.has ==> HeldValue(f, s.value)) else s.One? && HeldValue(f, s.value)
    case Repeated =>
      && (if HasSize(f) then s.Many? else s.Fixed?) && |s.items| == f.arraySize
      && forall j :: 0 <= j < f.arraySize && (s.Many? ==> j < s.count) ==> HeldValue(f, s.items[j])
    case OneOf =>
      if InsideUnion(fs, i) then s.Shared?
      else
        && s.Union?
        && (s.which == 0 || exists k: nat :: k < |fs| && MemberOf(fs, i, k) && fs[k].tag == s.which)
        && forall k: nat :: k < |fs| && MemberOf(fs, i, k) && fs[k].tag == s.which ==> HeldValue(fs[k], s.value)
  }

  // Field k is a member of the oneof whose storage is slot h.
  ghost predicate MemberOf(fs: seq<Field>, h: nat, k: nat)
    requires k < |fs|
  {
    fs[k].rule.OneOf? && Home(fs, k) == h
  }

  ghost predicate Held(fs: seq<Field>, m: seq<Slot>)
    decreases fs, 1
  {
    |m| == |fs| && forall i :: 0 <= i < |fs| ==> HeldSlot(fs, m, i)
  }

  // --- Equality up to the contents of absent fields ---

  ghost predicate SameValue(f: Field, a: Value, b: Value)
    decreases f, 1
  {
    match f.kind
    case Submessage(fs) => a.Msg? && b.Msg? && Same(fs, a.slots, b.slots)
    case Str => a.Data? && b.Data? && CString(a.b, f.dataSize) == CString(b.b, f.dataSize)
    case _ => a == b
  }

  ghost predicate SameSlot(fs: seq<Field>, i: nat, a: Slot, b: Slot)
    requires i < |fs|
    decreases fs, 0
  {
    var f := fs[i];
    match f.rule
    case Required => a.One? && b.One? && SameValue(f, a.value, b.value)
    case Optional =>
      if HasSize(f) then a.Opt? && b.Opt? && a.has == b.has && (a.has ==> SameValue(f, a.value, b.value))
      else a.One? && b.One? && SameValue(f, a.value, b.value)
    case Repeated =>
      if HasSize(f) then
        && a.Many? && b.Many? && a.count == b.count && a.count <= |a.items| && a.count <= |b.items|
        && forall j :: 0 <= j < a.count ==> SameValue(f, a.items[j], b.items[j])
      else
        && a.Fixed? && b.Fixed? && |a.items| == |b.items|
        && forall j :: 0 <= j < |a.items| ==> SameValue(f, a.items[j], b.items[j])
    case OneOf =>
      if InsideUnion(fs, i) then true
      else
        && a.Union? && b.Union? && a.which == b.which
        && forall k: nat :: k < |fs| && MemberOf(fs, i, k) && fs[k].tag == a.which ==> SameValue(fs[k], a.value, b.value)
  }

  ghost predicate Same(fs: seq<Field>, a: seq<Slot>, b: seq<Slot>)
    decreases fs, 1
  {
    |a| == |fs| == |b| && forall i :: 0 <= i < |fs| ==> SameSlot(fs, i, a[i], b[i])
  }
}
