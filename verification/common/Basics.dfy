module Basics {
  type byte = x: int | 0 <= x < 256

  datatype Option<+T> = None | Some(value: T)

  // The outcome of reading from a stream: a value and the unread bytes.
  datatype Parse<+T> = Fail | Done(value: T, rest: seq<byte>)

  function Larger(a: nat, b: nat): nat { if a > b then a else b }

  function Smaller(a: int, b: int): int { if a < b then a else b }

  // No two places hold the same.
  ghost predicate Distinct<T>(s: seq<T>) { forall j, k :: 0 <= j < k < |s| ==> s[j] != s[k] }

  // Numbers below m are distinct modulo m.
  lemma DistinctModulo(full: seq<(nat, nat)>, log: seq<(nat, nat)>, m: nat)
    requires Distinct(full) && |full| == |log| && m > 0
    requires forall k :: 0 <= k < |full| ==> full[k].0 < m && log[k] == (full[k].0 % m, full[k].1)
    ensures Distinct(log)
  {
    forall k | 0 <= k < |full| ensures log[k] == full[k] { SmallModulo(full[k].0, m); }
  }

  lemma SmallModulo(n: nat, m: nat)
    requires n < m
    ensures n % m == n
  {
  }
}
