// Sealing records in the current and the previous epoch, and their numbers.

module DtlsWriter {
  import opened Basics
  import opened SslConstants

  const RECORD_HEADER := 13

  // A record handed to the transport, with the bytes it takes in the packet.
  datatype WireRecord = WireRecord(typ: byte, epoch: nat, seqNum: nat, plaintext: seq<byte>, length: nat)

  // MaxOverhead and ExplicitNonceLen of a cipher, and what it makes of the n-th plaintext its
  // caller seals: it fails, or adds so many bytes.
  datatype Cipher = Cipher(maxOverhead: nat, nonceLen: nat, seal: nat -> Option<nat>)

  // The number of cipher changes so far, the next sequence numbers of the current and the
  // previous epoch, the numbers of all records made, with the cipher changes in place of the
  // epoch, and whether a 48-bit sequence has ever run out.
  datatype Counters = Counters(generation: nat, sequence: nat, lastSequence: nat, used: set<(nat, nat)>, exhausted: bool)

  const ZERO := Counters(0, 0, 0, {}, false)

  // The epoch as the wire shows it.
  function Epoch(c: Counters): nat { c.generation % SEQUENCES }

  function Counter(c: Counters, previous: bool): nat { if previous then c.lastSequence else c.sequence }

  function Generation(c: Counters, previous: bool): int { if previous then c.generation - 1 else c.generation }

  function AfterCipher(c: Counters): Counters {
    c.(generation := c.generation + 1, sequence := 0, lastSequence := c.sequence)
  }

  // The counter moves once the cipher has sealed; a sequence that runs out starts again.
  function Advanced(c: Counters, previous: bool): Counters {
    var next := (Counter(c, previous) + 1) % TWO48;
    var d := if previous then c.(lastSequence := next) else c.(sequence := next);
    d.(exhausted := c.exhausted || next == 0)
  }

  // What the cipher does with a plaintext: it fails, or adds so many bytes, which must fit.
  predicate Seals(size: nat, maxOut: nat, answer: Option<nat>) {
    answer.Some? && RECORD_HEADER + size + answer.value <= maxOut
  }

  // The record is made if the cipher seals, the sequence goes on and the length has 16 bits.
  predicate Makes(c: Counters, size: nat, previous: bool, maxOut: nat, answer: Option<nat>) {
    Seals(size, maxOut, answer) && Counter(c, previous) + 1 < TWO48 && size + answer.value < 0x1_0000
  }

  function AfterSeal(c: Counters, size: nat, previous: bool, maxOut: nat, answer: Option<nat>): Counters
    requires previous ==> c.generation >= 1
  {
    if !Seals(size, maxOut, answer) then c
    else
      var d := Advanced(c, previous);
      if Makes(c, size, previous, maxOut, answer) then
        d.(used := d.used + {(Generation(c, previous), Counter(c, previous))})
      else d
  }

  // Exactly when a record is made: the cipher seals it into the space behind the header of 13
  // bytes, its number is not the last of 2^48, and its length has 16 bits.
  lemma MakesExact(c: Counters, size: nat, previous: bool, maxOut: nat, answer: Option<nat>)
    ensures Makes(c, size, previous, maxOut, answer) <==>
              && answer.Some? && 13 + size + answer.value <= maxOut && size + answer.value <= 65535
              && (if previous then c.lastSequence else c.sequence) < 0xFFFF_FFFF_FFFF
  {
  }

  // Numbers in use are behind the counter of their epoch.
  ghost predicate Behind(c: Counters) {
    && c.sequence < TWO48 && c.lastSequence < TWO48
    && (!c.exhausted ==> forall u :: u in c.used ==>
          && u.0 <= c.generation
          && (u.0 == c.generation ==> u.1 < c.sequence)
          && (u.0 + 1 == c.generation ==> u.1 < c.lastSequence))
  }

  // A record that is made has a number no other record has.
  lemma NewNumber(c: Counters, size: nat, previous: bool, maxOut: nat, answer: Option<nat>)
    requires Behind(c) && (previous ==> c.generation >= 1)
    ensures Behind(AfterSeal(c, size, previous, maxOut, answer))
    ensures Makes(c, size, previous, maxOut, answer) && !c.exhausted ==> (Generation(c, previous), Counter(c, previous)) !in c.used
  {
  }

  class RecordWriter {
    var wEpoch: nat
    var cipher: Cipher
    var lastCipher: Cipher
    var sequence: nat
    var lastSequence: nat
    ghost var generation: nat
    ghost var used: set<(nat, nat)>
    ghost var exhausted: bool

    ghost function Now(): Counters
      reads this
    {
      Counters(generation, sequence, lastSequence, used, exhausted)
    }

    ghost predicate Valid()
      reads this
    {
      wEpoch == Epoch(Now()) && Behind(Now())
    }

    constructor (c: Cipher)
      ensures Valid() && Now() == ZERO && cipher == c && lastCipher == c
    {
      wEpoch, cipher, lastCipher, sequence, lastSequence := 0, c, c, 0, 0;
      generation, used, exhausted := 0, {}, false;
    }

    // dtls1_set_write_state.
    method SetWriteState(c: Cipher)
      requires Valid()
      modifies this
      ensures Valid() && Now() == AfterCipher(old(Now())) && cipher == c && lastCipher == old(cipher)
      ensures wEpoch == (old(wEpoch) + 1) % SEQUENCES
    {
      wEpoch := (wEpoch + 1) % SEQUENCES;
      generation := generation + 1;
      lastSequence, sequence := sequence, 0;
      lastCipher, cipher := cipher, c;
    }

    // ssl_record_sequence_update.
    method UpdateSequence(previous: bool) returns (ok: bool)
      requires sequence < TWO48 && lastSequence < TWO48
      modifies this`sequence, this`lastSequence, this`exhausted
      ensures Now() == Advanced(old(Now()), previous) && (ok <==> Counter(old(Now()), previous) + 1 < TWO48)
    {
      var next := ((if previous then lastSequence else sequence) + 1) % TWO48;
      if previous { lastSequence := next; } else { sequence := next; }
      ok := next != 0;
      exhausted := exhausted || !ok;
    }

    // dtls_seal_record. answer is what the cipher does.
    method SealRecord(typ: byte, plaintext: seq<byte>, previous: bool, maxOut: nat, answer: Option<nat>)
      returns (ok: bool, r: WireRecord)
      requires Valid() && (previous ==> wEpoch >= 1)
      modifies this`sequence, this`lastSequence, this`used, this`exhausted
      ensures Valid() && Now() == AfterSeal(old(Now()), |plaintext|, previous, maxOut, answer)
      ensures ok <==> Makes(old(Now()), |plaintext|, previous, maxOut, answer)
      ensures ok ==> r == WireRecord(typ, if previous then wEpoch - 1 else wEpoch, Counter(old(Now()), previous),
                                     plaintext, RECORD_HEADER + |plaintext| + answer.value)
      ensures ok ==> r.length <= maxOut
      ensures ok && !old(exhausted) ==> (Generation(old(Now()), previous), r.seqNum) !in old(used)
    {
      NewNumber(Now(), |plaintext|, previous, maxOut, answer);
      var epoch := if previous then wEpoch - 1 else wEpoch;
      var seqNum := if previous then lastSequence else sequence;
      r := WireRecord(typ, epoch, seqNum, plaintext, RECORD_HEADER + |plaintext|);
      if maxOut < RECORD_HEADER {
        return false, r;
      }
      if answer == None || RECORD_HEADER + |plaintext| + answer.value > maxOut {
        return false, r;
      }
      ok := UpdateSequence(previous);
      if !ok {
        return false, r;
      }
      if |plaintext| + answer.value >= 0x1_0000 {
        return false, r;
      }
      r := r.(length := RECORD_HEADER + |plaintext| + answer.value);
      used := used + {(if previous then generation - 1 else generation, seqNum)};
      return true, r;
    }
  }

  // --- Whole runs of the writer ---

  // previous asks for the epoch before, where there is one.
  datatype Op =
    | Seal(typ: byte, plaintext: seq<byte>, previous: bool, maxOut: nat, answer: Option<nat>)
    | NewCipher(cipher: Cipher)

  function Changes(ops: seq<Op>): nat {
    if ops == [] then 0 else Changes(ops[..|ops| - 1]) + if ops[|ops| - 1].NewCipher? then 1 else 0
  }

  predicate InPrevious(c: Counters, op: Op) { op.Seal? && op.previous && Epoch(c) >= 1 }

  function AfterOp(c: Counters, op: Op): Counters {
    if op.NewCipher? then AfterCipher(c) else AfterSeal(c, |op.plaintext|, InPrevious(c, op), op.maxOut, op.answer)
  }

  predicate MakesRecord(c: Counters, op: Op) { op.Seal? && Makes(c, |op.plaintext|, InPrevious(c, op), op.maxOut, op.answer) }

  // The epoch and sequence number on the wire.
  function Number(c: Counters, op: Op): (nat, nat) {
    (if InPrevious(c, op) then Epoch(c) - 1 else Epoch(c), Counter(c, InPrevious(c, op)))
  }

  function AfterOps(ops: seq<Op>): Counters {
    if ops == [] then ZERO else AfterOp(AfterOps(ops[..|ops| - 1]), ops[|ops| - 1])
  }

  // The numbers of the records a run makes, in order.
  function Numbers(ops: seq<Op>): seq<(nat, nat)> {
    if ops == [] then []
    else
      var c, op := AfterOps(ops[..|ops| - 1]), ops[|ops| - 1];
      Numbers(ops[..|ops| - 1]) + if MakesRecord(c, op) then [Number(c, op)] else []
  }

  // The log with the number of cipher changes in place of the epoch.
  ghost predicate Counted(full: seq<(nat, nat)>, log: seq<(nat, nat)>, c: Counters) {
    && |full| == |log| && Behind(c)
    && (!c.exhausted ==> Distinct(full))
    && (forall k :: 0 <= k < |full| ==> full[k] in c.used && full[k].0 <= c.generation)
    && (forall k :: 0 <= k < |log| ==> log[k] == (full[k].0 % SEQUENCES, full[k].1))
  }

  lemma {:induction false} RunCounted(ops: seq<Op>) returns (full: seq<(nat, nat)>)
    ensures Counted(full, Numbers(ops), AfterOps(ops)) && AfterOps(ops).generation == Changes(ops)
  {
    full := [];
    if ops != [] {
      var c, op := AfterOps(ops[..|ops| - 1]), ops[|ops| - 1];
      full := RunCounted(ops[..|ops| - 1]);
      if op.Seal? {
        var previous := InPrevious(c, op);
        NewNumber(c, |op.plaintext|, previous, op.maxOut, op.answer);
        if MakesRecord(c, op) {
          EpochBefore(c, previous);
          full := full + [(Generation(c, previous), Counter(c, previous))];
        }
      }
    }
  }

  lemma EpochBefore(c: Counters, previous: bool)
    requires previous ==> Epoch(c) >= 1
    ensures previous ==> (c.generation - 1) % SEQUENCES == Epoch(c) - 1
  {
  }

  // It takes 2^48 seals for a sequence to run out.
  lemma {:induction false} NotExhausted(ops: seq<Op>)
    ensures var c := AfterOps(ops);
            && c.sequence <= |ops| && c.lastSequence <= |ops|
            && (|ops| < TWO48 ==> !c.exhausted)
  {
    if ops != [] {
      NotExhausted(ops[..|ops| - 1]);
      OneStep(AfterOps(ops[..|ops| - 1]), ops[|ops| - 1]);
    }
  }

  lemma OneStep(c: Counters, op: Op)
    ensures var d, n := AfterOp(c, op), Larger(c.sequence, c.lastSequence);
            d.sequence <= n + 1 && d.lastSequence <= n + 1 && (d.exhausted ==> c.exhausted || n + 1 >= TWO48)
  {
    NextSequence(c.sequence);
    NextSequence(c.lastSequence);
  }

  lemma NextSequence(n: nat)
    ensures (n + 1) % TWO48 <= n + 1 && ((n + 1) % TWO48 == 0 ==> n + 1 >= TWO48)
  {
  }

  // Whatever is sealed in the current or the previous epoch, in whatever order with cipher
  // changes, no two records have the same epoch and sequence number, until a 48-bit sequence
  // runs out or the 16-bit epoch comes round.
  lemma NumbersOnce(ops: seq<Op>)
    requires Changes(ops) < SEQUENCES && !AfterOps(ops).exhausted
    ensures Distinct(Numbers(ops))
  {
    var full := RunCounted(ops);
    var c := AfterOps(ops);
    forall k | 0 <= k < |full| ensures full[k].0 < SEQUENCES { assert full[k].0 <= c.generation; }
    DistinctModulo(full, Numbers(ops), SEQUENCES);
  }

  // One call on the writer. number is that of the record made.
  method Handle(writer: RecordWriter, op: Op) returns (ok: bool, number: (nat, nat))
    requires writer.Valid()
    modifies writer
    ensures writer.Valid() && writer.Now() == AfterOp(old(writer.Now()), op)
    ensures ok <==> MakesRecord(old(writer.Now()), op)
    ensures ok ==> number == Number(old(writer.Now()), op)
  {
    ok, number := false, (0, 0);
    match op
    case NewCipher(cipher) => writer.SetWriteState(cipher);
    case Seal(typ, plaintext, previous, maxOut, answer) =>
      var r;
      ok, r := writer.SealRecord(typ, plaintext, previous && writer.wEpoch >= 1, maxOut, answer);
      number := (r.epoch, r.seqNum);
  }

  // The writer makes just those records.
  method SealAll(ops: seq<Op>, c: Cipher) returns (log: seq<(nat, nat)>)
    ensures log == Numbers(ops)
    ensures Changes(ops) < SEQUENCES && |ops| < TWO48 ==> Distinct(log)
  {
    var writer := new RecordWriter(c);
    log := [];
    var n := 0;
    while n < |ops|
      invariant n <= |ops| && writer.Valid() && fresh(writer)
      invariant writer.Now() == AfterOps(ops[..n]) && log == Numbers(ops[..n])
    {
      assert ops[..n + 1][..n] == ops[..n];
      var ok, number := Handle(writer, ops[n]);
      log, n := log + (if ok then [number] else []), n + 1;
    }
    assert ops[..n] == ops;
    NotExhausted(ops);
    if Changes(ops) < SEQUENCES && |ops| < TWO48 { NumbersOnce(ops); }
  }
}
