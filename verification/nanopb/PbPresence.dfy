// Which fields have to be in a message: decoding succeeds only with the required ones.

module PbPresence {
  import opened Basics
  import opened PbMessage
  import opened PbWire
  import PbVarint
  import PbShape

  // The next field of the message is field i.
  predicate NextIs(fs: seq<Field>, s: seq<byte>, i: nat)
    requires i < |fs|
  {
    var p := PbVarint.ReadVarint32(s);
    p.Done? && p.value / 8 == fs[i].tag
  }

  // Field i is among those that are decoded.
  ghost predicate Occurs(fs: seq<Field>, st: RunState, s: seq<byte>, i: nat)
    requires i < |fs|
    decreases |s|
  {
    s != [] &&
    var r := Step(fs, st, s);
    r.Next? && (NextIs(fs, s, i) || Occurs(fs, r.st, r.rest, i))
  }

  lemma {:induction false} StepSees(fs: seq<Field>, st: RunState, s: seq<byte>, i: nat)
    requires WellFormed(fs) && Shaped(fs, st.msg) && i < |fs| && fs[i].rule.Required? && Step(fs, st, s).Next?
    ensures i in Step(fs, st, s).st.seen <==> i in st.seen || NextIs(fs, s, i)
  {
    var t := PbVarint.ReadVarint32(s).value;
    var k := Find(fs, t / 8);
    assert fs[i] in fs && WellFormedField(fs[i]);
    if k < |fs| {
      assert fs[k] in fs && WellFormedField(fs[k]) && ShapedSlot(fs, k, st.msg[k]) && ShapedSlot(fs, Home(fs, k), st.msg[Home(fs, k)]);
    }
  }

  lemma {:induction false} RunSees(fs: seq<Field>, st: RunState, s: seq<byte>, i: nat)
    requires WellFormed(fs) && Shaped(fs, st.msg) && i < |fs| && fs[i].rule.Required? && Run(fs, st, s).End?
    ensures i in Run(fs, st, s).st.seen <==> i in st.seen || Occurs(fs, st, s, i)
    decreases |s|
  {
    if s != [] {
      var r := Step(fs, st, s);
      if r.Next? {
        StepSees(fs, st, s, i);
        PbShape.StepShaped(fs, st, s);
        RunSees(fs, r.st, r.rest, i);
      }
    }
  }

  // The required fields before field i.
  function RequiredOf(fs: seq<Field>, i: nat): set<nat>
    requires i <= |fs|
  {
    set k: nat | k < i && fs[k].rule.Required?
  }

  lemma {:induction false} CountsRequired(fs: seq<Field>, i: nat)
    requires i <= |fs|
    ensures RequiredBefore(fs, i) == |RequiredOf(fs, i)|
  {
    if i > 0 {
      CountsRequired(fs, i - 1);
      assert RequiredOf(fs, i) == RequiredOf(fs, i - 1) + if fs[i - 1].rule.Required? then {i - 1} else {};
    }
  }

  // The field has to be there: it is one of the first 64 required ones.
  predicate Needed(fs: seq<Field>, i: nat)
    requires i < |fs|
  {
    fs[i].rule.Required? && |RequiredOf(fs, i)| < 64
  }

  // The fixed-count field that was filled last has all its entries.
  predicate LastFilled(fs: seq<Field>, st: RunState) {
    st.fixed.Some? ==> st.fixed.value.0 < |fs| && st.fixed.value.1 == fs[st.fixed.value.0].arraySize
  }

  // A message that can be decoded field by field is accepted if and only if each of the first
  // 64 required fields occurs in it and the fixed-count field that comes last is complete.
  lemma AcceptedIfPresent(fs: seq<Field>, m: seq<Slot>, s: seq<byte>)
    requires WellFormed(fs) && Shaped(fs, m) && Run(fs, Start(m), s).End?
    ensures DecodeNoinit(fs, m, s).Some? <==>
              && LastFilled(fs, Run(fs, Start(m), s).st)
              && forall i :: 0 <= i < |fs| && Needed(fs, i) ==> Occurs(fs, Start(m), s, i)
  {
    var st := Run(fs, Start(m), s).st;
    forall i | 0 <= i < |fs|
      ensures Needed(fs, i) <==> fs[i].rule.Required? && RequiredBefore(fs, i) < 64
      ensures fs[i].rule.Required? ==> (i in st.seen <==> Occurs(fs, Start(m), s, i))
    {
      CountsRequired(fs, i);
      if fs[i].rule.Required? { RunSees(fs, Start(m), s, i); }
    }
  }
}
