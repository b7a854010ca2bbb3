// The bitmap of required fields: which of the first 64 were seen.

module PbRequired {
  import opened Bits
  import opened PbMessage
  import opened PbIterator

  // --- The bitmap of required fields ---

  const ALL_BITS := 0xFFFF_FFFF

  ghost predicate Word(w: nat) { Fits(w, 32) }

  // Bit k of the two words is set when the k-th required field is in the set.
  ghost predicate SeenWords(fs: seq<Field>, s: set<nat>, words: seq<nat>) {
    && |words| == 2 && Word(words[0]) && Word(words[1])
    && forall k :: 0 <= k < 64 ==> (BitAt(words, k) <==> SeenIndex(fs, s, k))
  }

  ghost predicate BitAt(words: seq<nat>, k: nat)
    requires |words| == 2 && k < 64
  {
    Bit(words[k / 32], k % 32)
  }

  lemma BitOfWord(words: seq<nat>, q: nat, n: nat)
    requires |words| == 2 && q < 2 && n < 32
    ensures BitAt(words, 32 * q + n) == Bit(words[q], n)
  {
    assert (32 * q + n) / 32 == q && (32 * q + n) % 32 == n;
  }

  ghost predicate SeenIndex(fs: seq<Field>, s: set<nat>, k: nat) {
    exists i :: i in s && i < |fs| && fs[i].rule.Required? && RequiredBefore(fs, i) == k
  }

  lemma {:induction false} RequiredMonotone(fs: seq<Field>, i: nat, j: nat)
    requires i <= j <= |fs|
    ensures RequiredBefore(fs, i) <= RequiredBefore(fs, j)
    ensures i < j && fs[i].rule.Required? ==> RequiredBefore(fs, i) < RequiredBefore(fs, j)
    decreases j
  {
    if i < j { RequiredMonotone(fs, i, j - 1); }
  }

  lemma {:induction false} RequiredAt(fs: seq<Field>, k: nat, n: nat) returns (i: nat)
    requires n <= |fs| && k < RequiredBefore(fs, n)
    ensures i < n && fs[i].rule.Required? && RequiredBefore(fs, i) == k
  {
    if k < RequiredBefore(fs, n - 1) { i := RequiredAt(fs, k, n - 1); } else { i := n - 1; }
  }

  lemma {:induction false} MaskShift(m: nat, n: nat)
    ensures Shr(Mask(m + n), n) == Mask(m)
  {
    if n > 0 {
      assert Mask(m + n) / 2 == Mask(m + n - 1);
      MaskShift(m, n - 1);
    }
  }

  lemma AllBits()
    ensures Mask(32) == ALL_BITS
  {
    assert Mask(8) == 0xFF;
    assert Mask(16) == 0xFFFF;
    assert Mask(24) == 0xFF_FFFF;
  }

  lemma OrKeepsWord(w: nat, k: nat)
    requires Word(w) && k < 32
    ensures Word(Or(w, Shl(1, k)))
    ensures forall n :: 0 <= n < 32 ==> Bit(Or(w, Shl(1, k)), n) == (Bit(w, n) || n == k)
  {
    forall n: nat
      ensures Bit(Or(w, Shl(1, k)), n) == (Bit(w, n) || n == k)
    {
      OrBit(w, Shl(1, k), n);
      ShlBit(k, n);
    }
  }

  // Setting the bit of a required field adds it to the set.
  lemma MarkSeen(fs: seq<Field>, s: set<nat>, words: seq<nat>, i: nat)
    requires SeenWords(fs, s, words) && i < |fs| && fs[i].rule.Required? && RequiredBefore(fs, i) < 64
    ensures var k := RequiredBefore(fs, i);
            SeenWords(fs, s + {i}, words[k / 32 := Or(words[k / 32], Shl(1, k % 32))])
  {
    var r := RequiredBefore(fs, i);
    OrKeepsWord(words[r / 32], r % 32);
    forall k | 0 <= k < 64
      ensures SeenIndex(fs, s + {i}, k) <==> SeenIndex(fs, s, k) || k == r
    {
      if SeenIndex(fs, s, k) {
        var j :| j in s && j < |fs| && fs[j].rule.Required? && RequiredBefore(fs, j) == k;
        assert j in s + {i};
      }
    }
  }

  // A field beyond the bitmap leaves it alone.
  lemma SeenBeyond(fs: seq<Field>, s: set<nat>, words: seq<nat>, i: nat)
    requires SeenWords(fs, s, words) && i < |fs| && RequiredBefore(fs, i) >= 64
    ensures SeenWords(fs, s + {i}, words)
  {
    forall k | 0 <= k < 64
      ensures SeenIndex(fs, s + {i}, k) <==> SeenIndex(fs, s, k)
    {
      if SeenIndex(fs, s, k) {
        var j :| j in s && j < |fs| && fs[j].rule.Required? && RequiredBefore(fs, j) == k;
        assert j in s + {i};
      }
    }
  }

  ghost predicate AllSeen(fs: seq<Field>, s: set<nat>) {
    forall i :: 0 <= i < |fs| && fs[i].rule.Required? && RequiredBefore(fs, i) < PB_MAX_REQUIRED_FIELDS ==> i in s
  }

  // The first 64 required fields are all in the set exactly when their bits are all set;
  // bits beyond the last required field are never set.
  lemma BitsOfAllSeen(fs: seq<Field>, s: set<nat>, words: seq<nat>)
    requires SeenWords(fs, s, words)
    ensures var c := RequiredBefore(fs, |fs|);
            && (AllSeen(fs, s) <==> forall k :: 0 <= k < 64 && k < c ==> BitAt(words, k))
            && forall k :: 0 <= k < 64 && k >= c ==> !BitAt(words, k)
  {
    var c := RequiredBefore(fs, |fs|);
    forall k | 0 <= k < 64
      ensures k >= c ==> !SeenIndex(fs, s, k)
    {
      if SeenIndex(fs, s, k) {
        var i :| i in s && i < |fs| && fs[i].rule.Required? && RequiredBefore(fs, i) == k;
        RequiredMonotone(fs, i, |fs|);
      }
    }
    if AllSeen(fs, s) {
      forall k | 0 <= k < 64 && k < c
        ensures SeenIndex(fs, s, k)
      {
        var i := RequiredAt(fs, k, |fs|);
      }
    }
    if forall k :: 0 <= k < 64 && k < c ==> BitAt(words, k) {
      forall i | 0 <= i < |fs| && fs[i].rule.Required? && RequiredBefore(fs, i) < PB_MAX_REQUIRED_FIELDS
        ensures i in s
      {
        var k := RequiredBefore(fs, i);
        RequiredMonotone(fs, i, |fs|);
        assert BitAt(words, k);
        var j :| j in s && j < |fs| && fs[j].rule.Required? && RequiredBefore(fs, j) == k;
        if i < j { RequiredMonotone(fs, i, j); } else { RequiredMonotone(fs, j, i); }
      }
    }
  }

  // Of the first 64 required fields all are seen exactly when the bits below their number are
  // all set, and no others are.
  lemma SeenBelow(fs: seq<Field>, s: set<nat>, words: seq<nat>, count: nat)
    requires SeenWords(fs, s, words)
    requires count == if RequiredBefore(fs, |fs|) > 64 then 64 else RequiredBefore(fs, |fs|)
    ensures AllSeen(fs, s) <==> forall k :: 0 <= k < count ==> BitAt(words, k)
    ensures forall k :: count <= k < 64 ==> !BitAt(words, k)
  {
    BitsOfAllSeen(fs, s, words);
  }

  // The check of pb_decode_noinit: count the required fields by running the iterator to the
  // end, then compare whole words and the remaining bits.
  method CheckRequired(iter: FieldIter, words: array<nat>, ghost s: set<nat>) returns (ok: bool)
    requires iter.Valid() && words.Length == 2 && SeenWords(iter.fields, s, words[..])
    modifies iter
    ensures ok == AllSeen(iter.fields, s)
  {
    ghost var fs := iter.fields;
    var count := CountRequired(iter);
    if count > PB_MAX_REQUIRED_FIELDS {
      count := PB_MAX_REQUIRED_FIELDS;
    }
    ghost var ws := words[..];
    SeenBelow(fs, s, ws, count);
    ok := LowBitsSet(words, count);
    assert words[..] == ws;
  }

  // The number of required fields, from wherever the iterator is.
  method CountRequired(iter: FieldIter) returns (count: nat)
    requires iter.Valid()
    modifies iter
    ensures count == RequiredBefore(iter.fields, |iter.fields|)
  {
    var fs := iter.fields;
    count := iter.requiredIndex;
    var last := if fs == [] then Required else fs[iter.pos].rule;
    var more := iter.Next();
    while more
      invariant iter.Valid() && iter.fields == fs
      invariant more ==> iter.pos < |fs| && iter.pos > 0 && fs != []
      invariant !more && fs != [] ==> count == RequiredBefore(fs, |fs| - 1) && last == fs[|fs| - 1].rule && iter.pos == 0
      invariant !more && fs == [] ==> count == 0
      decreases if more then |fs| - iter.pos else 0
    {
      count := iter.requiredIndex;
      last := fs[iter.pos].rule;
      more := iter.Next();
    }
    if last.Required? && fs != [] {
      count := count + 1;
    }
  }

  // Whether the bits below count are set, when no others are.
  method LowBitsSet(words: array<nat>, count: nat) returns (ok: bool)
    requires words.Length == 2 && Word(words[0]) && Word(words[1]) && count <= 64
    requires forall k :: count <= k < 64 ==> !BitAt(words[..], k)
    ensures ok <==> forall k :: 0 <= k < count ==> BitAt(words[..], k)
  {
    ghost var ws := words[..];
    var i: nat := 0;
    while i < count / 32
      invariant 0 <= i <= count / 32
      invariant forall k :: 0 <= k < 32 * i ==> BitAt(ws, k)
    {
      WholeWord(ws, i);
      if words[i] != ALL_BITS {
        ghost var k: nat :| 32 * i <= k < 32 * (i + 1) && !BitAt(ws, k);
        assert k < count && !BitAt(words[..], k);
        return false;
      }
      i := i + 1;
    }
    if count % 32 != 0 {
      var q, r := count / 32, count % 32;
      assert count == 32 * q + r;
      AllBits();
      MaskShift(r, 32 - r);
      LastWord(ws, q, r);
      if words[q] != Shr(ALL_BITS, 32 - r) {
        ghost var k: nat :| 32 * q <= k < 32 * q + r && !BitAt(ws, k);
        assert !BitAt(words[..], k);
        return false;
      }
    }
    return true;
  }

  lemma WholeWord(ws: seq<nat>, q: nat)
    requires |ws| == 2 && q < 2 && Word(ws[q])
    ensures ws[q] == ALL_BITS <==> forall k :: 32 * q <= k < 32 * (q + 1) ==> BitAt(ws, k)
  {
    AllBits();
    MaskExact(ws[q], 32, 32);
    BitsOfWord(ws, q);
  }

  lemma LastWord(ws: seq<nat>, q: nat, r: nat)
    requires |ws| == 2 && q < 2 && 0 < r < 32 && Word(ws[q])
    requires forall k :: 32 * q + r <= k < 64 ==> !BitAt(ws, k)
    ensures ws[q] == Mask(r) <==> forall k :: 32 * q <= k < 32 * q + r ==> BitAt(ws, k)
  {
    MaskExact(ws[q], r, 32);
    BitsOfWord(ws, q);
  }

  lemma BitsOfWord(ws: seq<nat>, q: nat)
    requires |ws| == 2 && q < 2
    ensures forall n :: 0 <= n < 32 ==> Bit(ws[q], n) == BitAt(ws, 32 * q + n)
    ensures forall k :: 32 * q <= k < 32 * (q + 1) ==> BitAt(ws, k) == Bit(ws[q], k - 32 * q)
  {
    forall n | 0 <= n < 32 ensures Bit(ws[q], n) == BitAt(ws, 32 * q + n) { BitOfWord(ws, q, n); }
    forall k | 32 * q <= k < 32 * (q + 1) ensures BitAt(ws, k) == Bit(ws[q], k - 32 * q) { BitOfWord(ws, q, k - 32 * q); }
  }
}
