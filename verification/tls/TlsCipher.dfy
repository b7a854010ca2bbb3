// ssl3_choose_cipher: the server's choice of a cipher suite.

module TlsCipher {
  import opened Basics

  // Ciphers are numbered. A list of the server's comes with flags: flag 1 puts a cipher in
  // one group of equal preference with the next.
  function Index(s: seq<nat>, c: nat): (k: nat)
    requires c in s
    ensures k < |s| && s[k] == c && forall j :: 0 <= j < k ==> s[j] != c
  {
    if s[0] == c then 0 else 1 + Index(s[1..], c)
  }

  // Groups end with a flag of 0, the last one included.
  predicate GroupsEnd(prio: seq<nat>, flags: Option<seq<nat>>) {
    flags.Some? ==>
      && |flags.value| == |prio|
      && (forall i :: 0 <= i < |prio| ==> flags.value[i] == 0 || flags.value[i] == 1)
      && (prio != [] ==> flags.value[|prio| - 1] == 0)
  }

  // The group of a cipher, named after its last place.
  function Group(prio: seq<nat>, flags: Option<seq<nat>>, i: nat): (g: nat)
    requires GroupsEnd(prio, flags) && i < |prio|
    ensures i <= g < |prio|
    decreases |prio| - i
  {
    if flags.Some? && flags.value[i] == 1 then Group(prio, flags, i + 1) else i
  }

  // The cipher at place i can be used by both ends.
  predicate Shared(prio: seq<nat>, allow: seq<nat>, usable: set<nat>, i: nat)
    requires i < |prio|
  {
    prio[i] in usable && prio[i] in allow
  }

  // Place i is at least as good as place j: its group comes earlier, or in the same group the
  // other end lists it earlier.
  predicate AsGood(prio: seq<nat>, flags: Option<seq<nat>>, allow: seq<nat>, i: nat, j: nat)
    requires GroupsEnd(prio, flags) && i < |prio| && j < |prio| && prio[i] in allow && prio[j] in allow
  {
    var a, b := Group(prio, flags, i), Group(prio, flags, j);
    a < b || (a == b && Index(allow, prio[i]) <= Index(allow, prio[j]))
  }

  // The places from start up to i are in the group of i.
  lemma {:induction false} OneGroup(prio: seq<nat>, flags: Option<seq<nat>>, start: nat, i: nat)
    requires GroupsEnd(prio, flags) && start <= i < |prio|
    requires flags.Some? || start == i
    requires forall k :: start <= k < i ==> flags.value[k] == 1
    ensures forall k :: start <= k <= i ==> Group(prio, flags, k) == Group(prio, flags, i)
    decreases i - start
  {
    if start < i { OneGroup(prio, flags, start + 1, i); }
  }

  lemma {:induction false} GroupsOrdered(prio: seq<nat>, flags: Option<seq<nat>>, i: nat, j: nat)
    requires GroupsEnd(prio, flags) && i <= j < |prio|
    ensures Group(prio, flags, i) <= Group(prio, flags, j)
    decreases j - i
  {
    if i < j { GroupsOrdered(prio, flags, i + 1, j); }
  }

  method Find(allow: seq<nat>, c: nat) returns (found: bool, index: nat)
    ensures found <==> c in allow
    ensures found ==> index == Index(allow, c)
  {
    index := 0;
    while index < |allow|
      invariant index <= |allow| && forall j :: 0 <= j < index ==> allow[j] != c
    {
      if allow[index] == c {
        return true, index;
      }
      index := index + 1;
    }
    return false, 0;
  }

  // Place k holds the best shared cipher of the group being looked at, which began at start.
  ghost predicate BestSoFar(prio: seq<nat>, allow: seq<nat>, usable: set<nat>, start: nat, i: nat, min: int) {
    && start <= i <= |prio| && min >= -1
    && (min == -1 <==> forall k :: start <= k < i ==> !Shared(prio, allow, usable, k))
    && (min >= 0 ==>
          && min < |allow|
          && (exists k :: start <= k < i && Shared(prio, allow, usable, k) && Index(allow, prio[k]) == min)
          && forall k :: start <= k < i && Shared(prio, allow, usable, k) ==> min <= Index(allow, prio[k]))
  }

  // ssl3_choose_cipher, with the two lists already told apart by the preference option. The
  // result is the best shared cipher, and there is none exactly when no cipher is shared.
  method ChooseCipher(prio: seq<nat>, flags: Option<seq<nat>>, allow: seq<nat>, usable: set<nat>) returns (r: Option<nat>)
    requires GroupsEnd(prio, flags)
    ensures r == None <==> forall i :: 0 <= i < |prio| ==> !Shared(prio, allow, usable, i)
    ensures r.Some? ==>
              exists i :: 0 <= i < |prio| && Shared(prio, allow, usable, i) && r.value == prio[i]
                && forall j :: 0 <= j < |prio| && Shared(prio, allow, usable, j) ==> AsGood(prio, flags, allow, i, j)
  {
    var groupMin: int := -1;
    var i := 0;
    ghost var start := 0;
    while i < |prio|
      invariant start <= i <= |prio|
      invariant forall k :: 0 <= k < start ==> !Shared(prio, allow, usable, k)
      invariant start < i ==> flags.Some? && forall k :: start <= k < i ==> flags.value[k] == 1
      invariant BestSoFar(prio, allow, usable, start, i, groupMin)
    {
      var c := prio[i];
      var found, index := Find(allow, c);
      OneMore(prio, allow, usable, start, i, groupMin);
      if c in usable && found {
        if flags.Some? && flags.value[i] == 1 {
          if groupMin == -1 || groupMin > index {
            groupMin := index;
          }
        } else {
          if groupMin != -1 && groupMin < index {
            index := groupMin;
          }
          Chosen(prio, flags, allow, usable, start, i, index);
          return Some(allow[index]);
        }
      }
      if flags.Some? && flags.value[i] == 0 && groupMin != -1 {
        Chosen(prio, flags, allow, usable, start, i, groupMin);
        return Some(allow[groupMin]);
      }
      if !(flags.Some? && flags.value[i] == 1) {
        start := i + 1;
      }
      i := i + 1;
    }
    return None;
  }

  // One more place of the group is looked at.
  lemma OneMore(prio: seq<nat>, allow: seq<nat>, usable: set<nat>, start: nat, i: nat, min: int)
    requires BestSoFar(prio, allow, usable, start, i, min) && i < |prio|
    ensures if Shared(prio, allow, usable, i) then
              var k := Index(allow, prio[i]);
              BestSoFar(prio, allow, usable, start, i + 1, if min == -1 || min > k then k else min)
            else BestSoFar(prio, allow, usable, start, i + 1, min)
  {
    if Shared(prio, allow, usable, i) { SharedPlace(prio, allow, usable, start, i, min); }
  }

  lemma SharedPlace(prio: seq<nat>, allow: seq<nat>, usable: set<nat>, start: nat, i: nat, min: int)
    requires BestSoFar(prio, allow, usable, start, i, min) && i < |prio| && Shared(prio, allow, usable, i)
    ensures var k := Index(allow, prio[i]);
            BestSoFar(prio, allow, usable, start, i + 1, if min == -1 || min > k then k else min)
  {
    if min >= 0 {
      var k :| start <= k < i && Shared(prio, allow, usable, k) && Index(allow, prio[k]) == min;
      assert k < i + 1;
    }
  }

  // At the end of a group, the shared cipher of the group that the other end lists first is
  // the best of all.
  lemma Chosen(prio: seq<nat>, flags: Option<seq<nat>>, allow: seq<nat>, usable: set<nat>, start: nat, i: nat, min: nat)
    requires GroupsEnd(prio, flags) && start <= i < |prio| && !(flags.Some? && flags.value[i] == 1)
    requires forall k :: 0 <= k < start ==> !Shared(prio, allow, usable, k)
    requires start < i ==> flags.Some? && forall k :: start <= k < i ==> flags.value[k] == 1
    requires BestSoFar(prio, allow, usable, start, i + 1, min)
    ensures exists k :: 0 <= k < |prio| && Shared(prio, allow, usable, k) && allow[min] == prio[k]
              && forall j :: 0 <= j < |prio| && Shared(prio, allow, usable, j) ==> AsGood(prio, flags, allow, k, j)
  {
    OneGroup(prio, flags, start, i);
    var k :| start <= k < i + 1 && Shared(prio, allow, usable, k) && Index(allow, prio[k]) == min;
    forall j | 0 <= j < |prio| && Shared(prio, allow, usable, j)
      ensures AsGood(prio, flags, allow, k, j)
    {
      if j > i {
        GroupsOrdered(prio, flags, i + 1, j);
      }
    }
  }
}
