// The bitmap of received bytes of one message.
module DtlsBitmap {
  import opened Basics
  import opened Bits

  // bit_range: the bits from start up to end.
  function BitRange(start: nat, end: nat): byte
    requires end <= 8
  {
    RangeFits(start, end);
    AndNot(Mask(end), Mask(start))
  }

  lemma RangeFits(start: nat, end: nat)
    requires end <= 8
    ensures AndNot(Mask(end), Mask(start)) < 256
  {
    MaskFits(end, 8);
    ByteBound(8);
  }

  lemma ByteBound(k: nat)
    requires k == 8
    ensures Shl(1, k) == 256
  {
    ShlSeven(1, 1);
  }

  function OrByte(a: byte, b: byte): byte {
    OrFits8(a, b);
    Or(a, b)
  }

  lemma OrFits8(a: byte, b: byte)
    ensures Or(a, b) < 256
  {
    ByteBound(8);
    OrFits(a, b, 8);
  }

  lemma OrRangeBit(x: byte, start: nat, end: nat, n: nat)
    requires end <= 8
    ensures Bit(OrByte(x, BitRange(start, end)), n) == (Bit(x, n) || start <= n < end)
  {
    OrBit(x, BitRange(start, end), n);
    AndNotBit(Mask(end), Mask(start), n);
    MaskBit(end, n);
    MaskBit(start, n);
  }

  lemma FullByte(x: byte, r: nat)
    requires r <= 8
    ensures x == Mask(r) <==> forall n :: 0 <= n < 8 ==> Bit(x, n) == (n < r)
    ensures Mask(8) == 0xFF && BitRange(0, r) == Mask(r)
  {
    ByteBound(8);
    SmallFits(x, 8);
    MaskExact(x, r, 8);
    forall n: nat ensures Bit(BitRange(0, r), n) == Bit(Mask(r), n) { AndNotBit(Mask(r), Mask(0), n); NoBits(n); }
    SameBits(BitRange(0, r), Mask(r));
    assert Mask(4) == 15;
  }

  // The bits of the bitmap as byte positions of the message.
  ghost predicate Shows(bitmap: seq<byte>, marked: set<nat>) {
    forall i, n :: 0 <= i < |bitmap| && 0 <= n < 8 ==> (Bit(bitmap[i], n) <==> 8 * i + n in marked)
  }

  ghost function Span(start: nat, end: nat): (r: set<nat>)
    ensures forall b :: b in r <==> start <= b < end
  {
    if start >= end then {} else Span(start, end - 1) + {end - 1}
  }

  // The first part of dtls1_hm_fragment_mark.
  method SetRange(bitmap: array<byte>, start: nat, end: nat, ghost marked: set<nat>)
    requires start < end <= 8 * bitmap.Length && Shows(bitmap[..], marked)
    modifies bitmap
    ensures Shows(bitmap[..], marked + Span(start, end))
  {
    if start / 8 == end / 8 {
      SetBits(bitmap, start / 8, start % 8, end % 8, marked);
      assert Span(start, end) == Span(8 * (start / 8) + start % 8, 8 * (start / 8) + end % 8);
    } else {
      SetBits(bitmap, start / 8, start % 8, 8, marked);
      ghost var done := marked + Span(start, 8 * (start / 8 + 1));
      var i := start / 8 + 1;
      while i < end / 8
        invariant start / 8 < i <= end / 8
        invariant Shows(bitmap[..], marked + Span(start, 8 * i))
      {
        FillByte(bitmap, i, marked + Span(start, 8 * i));
        assert marked + Span(start, 8 * i) + Span(8 * i, 8 * i + 8) == marked + Span(start, 8 * (i + 1));
        i := i + 1;
      }
      if end % 8 != 0 {
        SetBits(bitmap, end / 8, 0, end % 8, marked + Span(start, 8 * i));
      }
      assert marked + Span(start, 8 * i) + Span(8 * i, end) == marked + Span(start, end);
    }
  }

  method SetBits(bitmap: array<byte>, i: nat, first: nat, last: nat, ghost marked: set<nat>)
    requires i < bitmap.Length && first <= last <= 8 && Shows(bitmap[..], marked)
    modifies bitmap
    ensures Shows(bitmap[..], marked + Span(8 * i + first, 8 * i + last))
  {
    ghost var before := bitmap[..];
    forall n | 0 <= n < 8 ensures Bit(OrByte(before[i], BitRange(first, last)), n) == (Bit(before[i], n) || first <= n < last) {
      OrRangeBit(before[i], first, last, n);
    }
    bitmap[i] := OrByte(bitmap[i], BitRange(first, last));
    assert bitmap[..] == before[i := OrByte(before[i], BitRange(first, last))];
  }

  method FillByte(bitmap: array<byte>, i: nat, ghost marked: set<nat>)
    requires i < bitmap.Length && Shows(bitmap[..], marked)
    modifies bitmap
    ensures Shows(bitmap[..], marked + Span(8 * i, 8 * i + 8))
  {
    ghost var before := bitmap[..];
    FullByte(0xFF, 8);
    bitmap[i] := 0xFF;
    assert bitmap[..] == before[i := 0xFF];
  }

  // The second part: whether every byte of the message is marked.
  method IsComplete(bitmap: array<byte>, msgLen: nat, ghost marked: set<nat>) returns (complete: bool)
    requires bitmap.Length == (msgLen + 7) / 8 && Shows(bitmap[..], marked) && forall b :: b in marked ==> b < msgLen
    ensures complete <==> marked == Span(0, msgLen)
  {
    var i := 0;
    while i < msgLen / 8
      invariant i <= msgLen / 8
      invariant forall b :: 0 <= b < 8 * i ==> b in marked
    {
      FullByte(bitmap[i], 8);
      ByteDone(bitmap[..], marked, i, 8, 8 * i + 8);
      if bitmap[i] != 0xFF {
        return false;
      }
      i := i + 1;
    }
    if msgLen % 8 != 0 {
      FullByte(bitmap[i], msgLen % 8);
      ByteDone(bitmap[..], marked, i, msgLen % 8, msgLen);
      if bitmap[i] != BitRange(0, msgLen % 8) {
        return false;
      }
    }
    return true;
  }

  lemma ByteDone(bitmap: seq<byte>, marked: set<nat>, i: nat, r: nat, end: nat)
    requires Shows(bitmap, marked) && i < |bitmap| && r <= 8 && end == 8 * i + r
    requires r == 8 || forall b :: b in marked ==> b < end
    ensures bitmap[i] == Mask(r) <==> forall b :: 8 * i <= b < end ==> b in marked
  {
    FullByte(bitmap[i], r);
    forall n | 0 <= n < 8 ensures Bit(bitmap[i], n) <==> 8 * i + n in marked {}
    if bitmap[i] == Mask(r) {
      forall b | 8 * i <= b < end ensures b in marked {
        var n := b - 8 * i;
        assert Bit(bitmap[i], n);
      }
    }
  }
}
