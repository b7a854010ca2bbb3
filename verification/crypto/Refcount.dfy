// Reference counts: the lock-free one as steps of threads, against the one under a lock.

module Refcount {
  import opened Basics

  const MAX := 0xFFFF_FFFF

  datatype Op = Inc | Dec

  // --- The count under a lock ---

  // One call: the new count and the result, or none for an abort.
  function Locked(op: Op, count: nat): Option<(nat, nat)> {
    match op
    case Inc => Some((if count < MAX then count + 1 else count, 0))
    case Dec =>
      if count == 0 then None
      else
        var c := if count < MAX then count - 1 else count;
        Some((c, if c == 0 then 1 else 0))
  }

  class LockedCount {
    var count: nat

    method Increment()
      modifies this
      ensures Locked(Inc, old(count)) == Some((count, 0))
    {
      if count < MAX {
        count := count + 1;
      }
    }

    method DecrementAndTestZero() returns (aborted: bool, ret: nat)
      modifies this
      ensures aborted == (Locked(Dec, old(count)) == None)
      ensures !aborted ==> Locked(Dec, old(count)) == Some((count, ret))
    {
      if count == 0 {
        return true, 0;
      }
      if count < MAX {
        count := count - 1;
      }
      return false, if count == 0 then 1 else 0;
    }
  }

  // --- The lock-free count ---

  // Between calls, in the loop of a call with the value last read, or aborted.
  datatype Thread = Idle | Trying(op: Op, expected: nat) | Aborted

  // A call begins with a load. Then each round either returns on a limit, or tries a weak
  // compare-and-swap, which can fail for no reason and then reads the count again.
  datatype Action = Begin(t: nat, op: Op) | Round(t: nat, spurious: bool)

  // held is the number of references the program holds, less those given to a decrement that
  // has begun. calls lists the finished calls with their results, in the order they finished.
  datatype State = State(count: nat, threads: seq<Thread>, held: nat, calls: seq<(Op, nat)>)

  function Returned(s: State, t: nat, op: Op, count: nat, ret: nat): State
    requires t < |s.threads|
  {
    State(count, s.threads[t := Idle], if op == Inc then s.held + 1 else s.held, s.calls + [(op, ret)])
  }

  function Next(s: State, a: Action): State {
    if a.t >= |s.threads| then s
    else
      match a
      case Begin(t, op) =>
        if s.threads[t] != Idle then s
        else s.(threads := s.threads[t := Trying(op, s.count)], held := if op == Dec && s.held > 0 then s.held - 1 else s.held)
      case Round(t, spurious) =>
        match s.threads[t]
        case Trying(op, e) =>
          if op == Inc && e == MAX then Returned(s, t, op, s.count, 0)
          else if op == Dec && e == 0 then s.(threads := s.threads[t := Aborted])
          else if op == Dec && e == MAX then Returned(s, t, op, s.count, 0)
          else if spurious || s.count != e then s.(threads := s.threads[t := Trying(op, s.count)])
          else
            var newValue: nat := if op.Dec? then e - 1 else e + 1;
            Returned(s, t, op, newValue, if op == Dec && newValue == 0 then 1 else 0)
        case _ => s
  }

  function Run(s: State, actions: seq<Action>): State {
    if actions == [] then s else Next(Run(s, actions[..|actions| - 1]), actions[|actions| - 1])
  }

  // --- Progress ---

  // The thread has read the count as it is now.
  predicate UpToDate(s: State, t: nat) { t < |s.threads| && s.threads[t].Trying? && s.threads[t].expected == s.count }

  // A thread that has read the count as it is finishes its call in one round, with just what a
  // call under the lock would do, unless the exchange fails for no reason.
  lemma RoundFinishes(s: State, t: nat)
    requires UpToDate(s, t) && s.count <= MAX
    ensures var op, n := s.threads[t].op, Next(s, Round(t, false));
            if Locked(op, s.count) == None then n == s.(threads := s.threads[t := Aborted])
            else
              && n.threads == s.threads[t := Idle] && n.count == Locked(op, s.count).value.0
              && n.calls == s.calls + [(op, Locked(op, s.count).value.1)]
  {
  }

  // A thread that has read another count returns, aborts or has read it anew: two rounds are
  // enough when no other thread comes between.
  lemma TwoRoundsFinish(s: State, t: nat)
    requires t < |s.threads| && s.threads[t].Trying? && s.count <= MAX
    ensures var n := Next(Next(s, Round(t, false)), Round(t, false)); !n.threads[t].Trying?
  {
    var m := Next(s, Round(t, false));
    if m.threads[t].Trying? { assert UpToDate(m, t); }
  }

  // --- Refinement ---

  // The calls in this order, each in one step under the lock, give these results and lead
  // from one count to the other.
  ghost predicate Explains(from: nat, calls: seq<(Op, nat)>, to: nat)
    decreases |calls|
  {
    if calls == [] then from == to
    else
      var n := |calls| - 1;
      exists c: nat :: Explains(from, calls[..n], c) && Locked(calls[n].0, c) == Some((to, calls[n].1))
  }

  // A thread that has read the limit finds it there still.
  ghost predicate Faithful(from: nat, s: State) {
    && s.count <= MAX && Explains(from, s.calls, s.count)
    && forall t :: 0 <= t < |s.threads| && s.threads[t].Trying? ==>
         s.threads[t].expected <= MAX && (s.threads[t].expected == MAX ==> s.count == MAX)
  }

  lemma ExplainsMore(from: nat, calls: seq<(Op, nat)>, c: nat, op: Op, to: nat, ret: nat)
    requires Explains(from, calls, c) && Locked(op, c) == Some((to, ret))
    ensures Explains(from, calls + [(op, ret)], to)
  {
    assert (calls + [(op, ret)])[..|calls|] == calls;
  }

  // Every finished call is one atomic step of the locked count, taken when it finishes.
  lemma StepFaithful(from: nat, s: State, a: Action)
    requires Faithful(from, s)
    ensures Faithful(from, Next(s, a))
  {
    var z := Next(s, a);
    if a.t < |s.threads| && a.Round? && s.threads[a.t].Trying? && z.calls != s.calls {
      var n := |z.calls| - 1;
      assert z.calls == s.calls + [z.calls[n]] && z.calls[n].0 == s.threads[a.t].op;
      assert Locked(z.calls[n].0, s.count) == Some((z.count, z.calls[n].1));
      ExplainsMore(from, s.calls, s.count, z.calls[n].0, z.count, z.calls[n].1);
    }
  }

  // Under every interleaving, with any spurious failures, the finished calls in the order they
  // finish are a run of the locked count.
  lemma {:induction false} Linearizable(s: State, actions: seq<Action>)
    requires s.calls == [] && s.count <= MAX && forall t :: 0 <= t < |s.threads| ==> s.threads[t] == Idle
    ensures Faithful(s.count, Run(s, actions))
  {
    if actions != [] {
      Linearizable(s, actions[..|actions| - 1]);
      StepFaithful(s.count, Run(s, actions[..|actions| - 1]), actions[|actions| - 1]);
    }
  }

  // Thread t is in a call of op, or has aborted in it.
  predicate InCall(s: State, t: nat, op: Op) {
    t < |s.threads| && ((s.threads[t].Trying? && s.threads[t].op == op) || (op == Dec && s.threads[t] == Aborted))
  }

  // The call of op that thread t is in began with action i, and the count was e after action k.
  ghost predicate SawWithin(s: State, actions: seq<Action>, t: nat, op: Op, e: nat, i: nat, k: nat) {
    && i <= k < |actions| && actions[i] == Begin(t, op)
    && Run(s, actions[..k + 1]).count == e
    && forall j :: i < j <= |actions| ==> InCall(Run(s, actions[..j]), t, op)
  }

  // One more action of any thread.
  lemma StillWithin(s: State, before: seq<Action>, a: Action, t: nat, op: Op, e: nat, i: nat, k: nat)
    requires SawWithin(s, before, t, op, e, i, k) && InCall(Run(s, before + [a]), t, op)
    ensures SawWithin(s, before + [a], t, op, e, i, k)
  {
    var actions := before + [a];
    assert actions[..k + 1] == before[..k + 1];
    forall j | i < j <= |actions| ensures InCall(Run(s, actions[..j]), t, op) {
      assert if j <= |before| then actions[..j] == before[..j] else actions[..j] == actions;
    }
  }

  // The same when the thread has just read the count again.
  lemma ReadAgain(s: State, before: seq<Action>, a: Action, t: nat, op: Op, e: nat, i: nat, k: nat)
    requires SawWithin(s, before, t, op, e, i, k) && InCall(Run(s, before + [a]), t, op)
    ensures SawWithin(s, before + [a], t, op, Run(s, before + [a]).count, i, |before|)
  {
    StillWithin(s, before, a, t, op, e, i, k);
    assert (before + [a])[..|before| + 1] == before + [a];
  }

  lemma BeginsNow(s: State, before: seq<Action>, t: nat, op: Op)
    requires InCall(Run(s, before + [Begin(t, op)]), t, op)
    ensures SawWithin(s, before + [Begin(t, op)], t, op, Run(s, before + [Begin(t, op)]).count, |before|, |before|)
  {
    var actions := before + [Begin(t, op)];
    assert actions[..|actions|] == actions;
  }

  // What a thread goes by is what the count was at some point within its call.
  lemma {:induction false} LastRead(s: State, actions: seq<Action>, t: nat) returns (i: nat, k: nat)
    requires forall u :: 0 <= u < |s.threads| ==> s.threads[u] == Idle
    requires t < |Run(s, actions).threads| && Run(s, actions).threads[t] != Idle
    ensures var th := Run(s, actions).threads[t];
            if th.Trying? then SawWithin(s, actions, t, th.op, th.expected, i, k) else SawWithin(s, actions, t, Dec, 0, i, k)
    decreases |actions|
  {
    var before, a := actions[..|actions| - 1], actions[|actions| - 1];
    var y, z := Run(s, before), Run(s, actions);
    assert actions == before + [a];
    if y.threads[t] == Idle {
      BeginsNow(s, before, t, a.op);
      i, k := |before|, |before|;
    } else {
      i, k := LastRead(s, before, t);
      var op, e := if y.threads[t].Trying? then y.threads[t].op else Dec, if y.threads[t].Trying? then y.threads[t].expected else 0;
      if z.threads[t].Trying? && z.threads[t] != y.threads[t] {
        ReadAgain(s, before, a, t, op, e, i, k);
        k := |before|;
      } else {
        StillWithin(s, before, a, t, op, e, i, k);
      }
    }
  }

  // A decrement that aborts saw the count at zero at some point within its call.
  lemma AbortSawZero(s: State, actions: seq<Action>, t: nat)
    requires forall u :: 0 <= u < |s.threads| ==> s.threads[u] == Idle
    requires t < |Run(s, actions).threads| && Run(s, actions).threads[t] == Aborted
    ensures exists i, k :: SawWithin(s, actions, t, Dec, 0, i, k)
  {
    var i, k := LastRead(s, actions, t);
  }

  // --- Reference counting ---

  function Pending(threads: seq<Thread>, op: Op): nat {
    if threads == [] then 0
    else Pending(threads[1..], op) + if threads[0].Trying? && threads[0].op == op then 1 else 0
  }

  function One(t: Thread, op: Op): nat { if t.Trying? && t.op == op then 1 else 0 }

  lemma {:induction false} PendingUpdate(threads: seq<Thread>, t: nat, x: Thread, op: Op)
    requires t < |threads|
    ensures Pending(threads[t := x], op) + One(threads[t], op) == Pending(threads, op) + One(x, op)
  {
    if t == 0 {
      assert threads[0 := x][1..] == threads[1..];
    } else {
      PendingUpdate(threads[1..], t - 1, x, op);
      assert threads[t := x][1..] == threads[1..][t - 1 := x];
    }
  }

  // Whoever begins a call holds a reference: a decrement gives it up, an increment keeps it
  // until it returns.
  predicate Allowed(s: State, a: Action) {
    a.Begin? ==> s.held >= 1 && (a.op == Dec && Pending(s.threads, Inc) > 0 ==> s.held >= 2)
  }

  function Zeros(calls: seq<(Op, nat)>): nat {
    if calls == [] then 0 else Zeros(calls[..|calls| - 1]) + if calls[|calls| - 1] == (Dec, 1) then 1 else 0
  }

  // Until it saturates the count is the number of references, those of pending decrements
  // included, and a decrement has returned 1 exactly if none is left.
  ghost predicate Counted(s: State) {
    && s.count <= MAX
    && (s.count == MAX || (s.count == s.held + Pending(s.threads, Dec) && Zeros(s.calls) == if s.count == 0 then 1 else 0))
    && (s.count == MAX ==> Zeros(s.calls) == 0)
    && (Pending(s.threads, Inc) > 0 && s.count < MAX ==> s.held >= 1)
    && forall t :: 0 <= t < |s.threads| ==> ThreadOk(s, s.threads[t])
  }

  ghost predicate ThreadOk(s: State, t: Thread) {
    && t != Aborted
    && (t.Trying? ==> t.expected <= MAX && (t.expected == MAX ==> s.count == MAX) && (t.op == Dec ==> t.expected >= 1))
  }

  lemma ZerosMore(calls: seq<(Op, nat)>, x: (Op, nat))
    ensures Zeros(calls + [x]) == Zeros(calls) + if x == (Dec, 1) then 1 else 0
  {
    assert (calls + [x])[..|calls|] == calls;
  }

  lemma {:induction false} PendingOf(threads: seq<Thread>, t: nat, op: Op)
    requires t < |threads|
    ensures Pending(threads, op) >= One(threads[t], op)
  {
    PendingUpdate(threads, t, Idle, op);
  }

  lemma BeginCounted(s: State, t: nat, op: Op)
    requires Counted(s) && Allowed(s, Begin(t, op)) && t < |s.threads| && s.threads[t] == Idle
    ensures Counted(Next(s, Begin(t, op)))
  {
    PendingUpdate(s.threads, t, Trying(op, s.count), Inc);
    PendingUpdate(s.threads, t, Trying(op, s.count), Dec);
  }

  // A round that changes no count.
  lemma RetryCounted(s: State, t: nat)
    requires Counted(s) && t < |s.threads| && s.threads[t].Trying?
    ensures Counted(s.(threads := s.threads[t := Trying(s.threads[t].op, s.count)]))
  {
    var op := s.threads[t].op;
    PendingOf(s.threads, t, Dec);
    PendingUpdate(s.threads, t, Trying(op, s.count), Inc);
    PendingUpdate(s.threads, t, Trying(op, s.count), Dec);
  }

  // A call that returns because the count has saturated.
  lemma SaturatedCounted(s: State, t: nat)
    requires Counted(s) && t < |s.threads| && s.threads[t].Trying? && s.count == MAX
    ensures Counted(Returned(s, t, s.threads[t].op, s.count, 0))
  {
    PendingUpdate(s.threads, t, Idle, Inc);
    PendingUpdate(s.threads, t, Idle, Dec);
    ZerosMore(s.calls, (s.threads[t].op, 0));
  }

  lemma IncCounted(s: State, t: nat)
    requires Counted(s) && t < |s.threads| && s.threads[t].Trying? && s.threads[t].op == Inc && s.count < MAX
    ensures Counted(Returned(s, t, Inc, s.count + 1, 0))
  {
    PendingOf(s.threads, t, Inc);
    PendingUpdate(s.threads, t, Idle, Inc);
    PendingUpdate(s.threads, t, Idle, Dec);
    ZerosMore(s.calls, (Inc, 0));
  }

  lemma DecCounted(s: State, t: nat, ret: nat)
    requires Counted(s) && t < |s.threads| && s.threads[t].Trying? && s.threads[t].op == Dec && 1 <= s.count < MAX
    requires ret == if s.count == 1 then 1 else 0
    ensures Counted(Returned(s, t, Dec, s.count - 1, ret))
  {
    var z := Returned(s, t, Dec, s.count - 1, ret);
    PendingOf(s.threads, t, Dec);
    PendingUpdate(s.threads, t, Idle, Inc);
    PendingUpdate(s.threads, t, Idle, Dec);
    ZerosMore(s.calls, (Dec, ret));
    assert z.count == z.held + Pending(z.threads, Dec) && Pending(z.threads, Inc) == Pending(s.threads, Inc);
    assert Zeros(s.calls) == 0 && Zeros(z.calls) == ret;
    forall i | 0 <= i < |z.threads| ensures ThreadOk(z, z.threads[i]) { assert ThreadOk(s, s.threads[i]); }
  }

  lemma StepCounted(s: State, a: Action)
    requires Counted(s) && Allowed(s, a)
    ensures Counted(Next(s, a))
  {
    if a.t < |s.threads| {
      if a.Round? {
        RoundCounted(s, a.t, a.spurious);
      } else if s.threads[a.t] == Idle {
        BeginCounted(s, a.t, a.op);
      }
    }
  }

  lemma RoundCounted(s: State, t: nat, spurious: bool)
    requires Counted(s) && t < |s.threads|
    ensures Counted(Next(s, Round(t, spurious)))
  {
    var th := s.threads[t];
    assert ThreadOk(s, th);
    if th.Trying? {
      if th.expected == MAX { SaturatedCounted(s, t); }
      else if spurious || s.count != th.expected { RetryCounted(s, t); }
      else if th.op == Inc { IncCounted(s, t); }
      else { DecCounted(s, t, if s.count == 1 then 1 else 0); }
    }
  }

  predicate AllAllowed(s: State, actions: seq<Action>)
    decreases |actions|
  {
    actions == [] ||
      (AllAllowed(s, actions[..|actions| - 1]) && Allowed(Run(s, actions[..|actions| - 1]), actions[|actions| - 1]))
  }

  // An object that begins with one reference, used by threads that give up one reference for
  // each decrement: no call aborts, and as long as the count has not saturated, a decrement
  // has returned 1 exactly if no reference is left, and only one has.
  lemma {:induction false} References(n: nat, actions: seq<Action>)
    requires AllAllowed(State(1, seq(n, _ => Idle), 1, []), actions)
    ensures var s := Run(State(1, seq(n, _ => Idle), 1, []), actions);
            && Counted(s)
            && (forall t :: 0 <= t < |s.threads| ==> s.threads[t] != Aborted)
            && (s.count < MAX ==> (Zeros(s.calls) == 1 <==> s.held + Pending(s.threads, Dec) == 0) && Zeros(s.calls) <= 1)
            && (s.count == MAX ==> Zeros(s.calls) == 0)
    decreases |actions|
  {
    var start := State(1, seq(n, _ => Idle), 1, []);
    if actions == [] {
      NonePending(start.threads, Inc);
      NonePending(start.threads, Dec);
    } else {
      References(n, actions[..|actions| - 1]);
      StepCounted(Run(start, actions[..|actions| - 1]), actions[|actions| - 1]);
    }
    var s := Run(start, actions);
    assert forall t :: 0 <= t < |s.threads| ==> ThreadOk(s, s.threads[t]);
  }

  lemma {:induction false} NonePending(threads: seq<Thread>, op: Op)
    requires forall t :: 0 <= t < |threads| ==> threads[t] == Idle
    ensures Pending(threads, op) == 0
  {
    if threads != [] { NonePending(threads[1..], op); }
  }

  // A count that has saturated stays so.
  lemma {:induction false} StaysSaturated(s: State, actions: seq<Action>)
    requires s.count == MAX && s.calls == [] && forall t :: 0 <= t < |s.threads| ==> s.threads[t] == Idle
    ensures Run(s, actions).count == MAX && Zeros(Run(s, actions).calls) == 0
  {
    Linearizable(s, actions);
    SaturatedCalls(Run(s, actions).calls, Run(s, actions).count);
  }

  lemma {:induction false} SaturatedCalls(calls: seq<(Op, nat)>, to: nat)
    requires Explains(MAX, calls, to)
    ensures to == MAX && Zeros(calls) == 0
    decreases |calls|
  {
    if calls != [] {
      var n := |calls| - 1;
      var c: nat :| Explains(MAX, calls[..n], c) && Locked(calls[n].0, c) == Some((to, calls[n].1));
      SaturatedCalls(calls[..n], c);
    }
  }
}
