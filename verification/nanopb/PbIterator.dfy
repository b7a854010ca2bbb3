// pb_field_iter_t: a cyclic cursor over the fields of a descriptor.

module PbIterator {
  import opened PbMessage

  // The bytes the data of a static field takes in the struct.
  function DataBytes(f: Field): nat {
    if f.rule.Repeated? then f.dataSize * f.arraySize else f.dataSize
  }

  // Where the data and the has-flag, count or which-tag of field i lie in the struct.
  function DataAt(fs: seq<Field>, i: nat): int
    requires i < |fs| || i == 0
  {
    if fs == [] then 0
    else if i == 0 then fs[0].dataOffset
    else if InsideUnion(fs, i) then DataAt(fs, i - 1)
    else DataAt(fs, i - 1) + DataBytes(fs[i - 1]) + fs[i].dataOffset
  }

  function SizeAt(fs: seq<Field>, i: nat): int
    requires i < |fs| || i == 0
  {
    if fs == [] then 0
    else if InsideUnion(fs, i) then SizeAt(fs, i - 1)
    else DataAt(fs, i) + fs[i].sizeOffset
  }

  class FieldIter {
    const fields: seq<Field>
    var pos: nat
    var data: int
    var size: int
    var requiredIndex: nat

    // Everything but the position is a function of the position.
    ghost predicate Valid()
      reads this
    {
      && (pos < |fields| || (pos == 0 && fields == []))
      && data == DataAt(fields, pos)
      && size == SizeAt(fields, pos)
      && requiredIndex == RequiredBefore(fields, pos)
    }

    constructor (fs: seq<Field>)
      ensures Valid() && fields == fs && pos == 0
    {
      fields := fs;
      pos := 0;
      data := if fs == [] then 0 else fs[0].dataOffset;
      size := if fs == [] then 0 else fs[0].dataOffset + fs[0].sizeOffset;
      requiredIndex := 0;
    }

    constructor Copy(other: FieldIter)
      requires other.Valid()
      ensures Valid() && fields == other.fields && pos == other.pos
    {
      fields, pos, data, size, requiredIndex := other.fields, other.pos, other.data, other.size, other.requiredIndex;
    }

    // pb_field_iter_begin on an existing iterator.
    method Begin() returns (some: bool)
      modifies this
      ensures Valid() && pos == 0 && some == (fields != [])
    {
      pos, requiredIndex := 0, 0;
      if fields == [] {
        data, size := 0, 0;
        return false;
      }
      data := fields[0].dataOffset;
      size := data + fields[0].sizeOffset;
      return true;
    }

    // Moves to the next field; false when it wraps around.
    method Next() returns (more: bool)
      requires Valid()
      modifies this
      ensures Valid()
      ensures more == (old(pos) + 1 < |fields|)
      ensures pos == if old(pos) + 1 < |fields| then old(pos) + 1 else 0
    {
      if fields == [] {
        return false;
      }
      var prev := fields[pos];
      if pos + 1 == |fields| {
        var _ := Begin();
        return false;
      }
      pos := pos + 1;
      if prev.rule.OneOf? && fields[pos].rule.OneOf? && fields[pos].dataOffset == PB_SIZE_MAX {
        return true;
      }
      var prevSize := prev.dataSize;
      if prev.rule.Repeated? {
        prevSize := prevSize * prev.arraySize;
      }
      if prev.rule.Required? {
        requiredIndex := requiredIndex + 1;
      }
      data := data + prevSize + fields[pos].dataOffset;
      size := data + fields[pos].sizeOffset;
      return true;
    }

    // Searches for a tag from the current position on, around the cycle. In an empty
    // descriptor the cursor stays on the terminator, whose tag is 0.
    method Find(tag: nat) returns (found: bool)
      requires Valid()
      modifies this
      ensures Valid()
      ensures fields == [] ==> found == (tag == 0)
      ensures fields != [] ==> (found <==> exists i :: 0 <= i < |fields| && fields[i].tag == tag)
      ensures fields != [] && found ==> fields[pos].tag == tag
      ensures !found ==> pos == old(pos)
    {
      var begin := pos;
      ghost var wrapped := false;
      while true
        invariant Valid()
        invariant fields == [] ==> begin == 0
        invariant wrapped ==> pos < begin && forall k :: 0 <= k < pos || begin <= k < |fields| ==> fields[k].tag != tag
        invariant !wrapped ==> begin <= pos && forall k :: begin <= k < pos ==> fields[k].tag != tag
        decreases if wrapped then |fields| - pos else 2 * |fields| - pos + 1
      {
        if (if fields == [] then 0 else fields[pos].tag) == tag {
          return true;
        }
        var more := Next();
        if pos == begin {
          break;
        }
        if !more { wrapped := true; }
      }
      return false;
    }
  }
}
