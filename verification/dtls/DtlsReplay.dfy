// The replay window of DTLS (section 4.1.2.6 of RFC 6347) and the record reader that uses it.

module DtlsReplay {
  import opened Basics
  import opened SslConstants
  import opened Bits

  const WINDOW := 64

  // --- Bits of shifted and truncated words ---

  lemma {:induction false} ShiftedBit(w: nat, s: nat, n: nat)
    ensures Bit(Shl(w, s), n) == (n >= s && Bit(w, n - s))
    decreases s
  {
    if s > 0 && n > 0 { ShiftedBit(w, s - 1, n - 1); }
  }

  lemma {:induction false} TruncatedBit(w: nat, k: nat, n: nat)
    ensures Shl(1, k) > 0
    ensures Bit(w % Shl(1, k), n) == (n < k && Bit(w, n))
    decreases n
  {
    ShlMonotone(1, 1, 0, k);
    if k == 0 {
      NoBits(n);
    } else {
      HalfMod(w, Shl(1, k - 1));
      if n > 0 { TruncatedBit(w / 2, k - 1, n - 1); }
    }
  }

  lemma HalfMod(w: nat, m: nat)
    requires m > 0
    ensures (w % (2 * m)) / 2 == (w / 2) % m && (w % (2 * m)) % 2 == w % 2
  {
    var q, r := (w / 2) / m, (w / 2) % m;
    assert q * (2 * m) == 2 * (q * m);
    ModUnique(w, q, 2 * r + w % 2, 2 * m);
  }

  // A shift of a 64-bit word.
  lemma WordShiftBit(w: nat, s: nat, n: nat)
    ensures Bit(Shl(w, s) % TWO64, n) == (s <= n < WINDOW && Bit(w, n - s))
  {
    var k := 64;
    TruncatedBit(Shl(w, s), k, n);
    ShiftedBit(w, s, n);
    WordSize(k);
  }

  lemma WordSize(k: nat)
    requires k == 64
    ensures Shl(1, k) == TWO64
  {
    WordSizes();
  }

  lemma OneBit(w: nat, i: nat, n: nat)
    ensures Bit(Or(w, Shl(1, i)), n) == (Bit(w, n) || n == i)
  {
    OrBit(w, Shl(1, i), n);
    ShlBit(i, n);
  }

  // --- DTLS1_BITMAP ---

  class ReplayWindow {
    var bits: nat
    var maxSeq: nat
    // Every number recorded since the window was last cleared.
    ghost var recorded: set<nat>

    // The map shows which of the last 64 numbers were recorded, the newest at bit 0.
    ghost predicate Valid()
      reads this
    {
      && (forall s :: s in recorded ==> s <= maxSeq)
      && (forall i: nat :: i < WINDOW && i <= maxSeq ==> (Bit(bits, i) <==> maxSeq - i in recorded))
      && (forall i: nat :: i >= WINDOW || i > maxSeq ==> !Bit(bits, i))
    }

    constructor ()
      ensures Valid() && recorded == {} && maxSeq == 0
    {
      bits, maxSeq, recorded := 0, 0, {};
      new;
      forall n: nat ensures !Bit(0, n) { NoBits(n); }
    }

    // The memset of dtls1_set_read_state.
    method Clear()
      modifies this
      ensures Valid() && recorded == {} && maxSeq == 0
    {
      bits, maxSeq, recorded := 0, 0, {};
      forall n: nat ensures !Bit(0, n) { NoBits(n); }
    }

    // dtls1_bitmap_should_discard: exactly the numbers already recorded and those that have
    // fallen out of the window.
    method ShouldDiscard(seqNum: nat) returns (discard: bool)
      requires Valid()
      ensures discard <==> seqNum in recorded || seqNum + WINDOW <= maxSeq
    {
      if seqNum > maxSeq {
        return false;
      }
      var idx := maxSeq - seqNum;
      return idx >= WINDOW || Bit(bits, idx);
    }

    // dtls1_bitmap_record.
    method Record(seqNum: nat)
      requires Valid()
      modifies this
      ensures Valid() && recorded == old(recorded) + {seqNum}
      ensures maxSeq == if seqNum > old(maxSeq) then seqNum else old(maxSeq)
    {
      if seqNum > maxSeq {
        var shift := seqNum - maxSeq;
        if shift >= WINDOW {
          bits := 0;
          forall n: nat ensures !Bit(0, n) { NoBits(n); }
        } else {
          forall n: nat ensures Bit(Shl(bits, shift) % TWO64, n) == (shift <= n < WINDOW && Bit(bits, n - shift)) {
            WordShiftBit(bits, shift, n);
          }
          bits := Shl(bits, shift) % TWO64;
        }
        maxSeq := seqNum;
      }
      var idx := maxSeq - seqNum;
      recorded := recorded + {seqNum};
      if idx < WINDOW {
        forall n: nat ensures Bit(Or(bits, Shl(1, idx)), n) == (Bit(bits, n) || n == idx) { OneBit(bits, idx, n); }
        bits := Or(bits, Shl(1, idx));
      }
    }
  }

  // --- dtls_open_record ---

  const DTLS1_VERSION_MAJOR := 0xFE
  const SSL3_AL_WARNING := 1
  const SSL_AD_CLOSE_NOTIFY := 0
  const MAX_WARNING_ALERTS := 4

  // What is left of a datagram: nothing, something without a well-formed record header, or a
  // record with what the cipher in use makes of its body.
  datatype Incoming =
    | Empty
    | Malformed
    | Record(typ: byte, version: nat, epoch: nat, seqNum: nat, body: Option<seq<byte>>)

  datatype Outcome = Partial | Discard | Error | Success(typ: byte, plaintext: seq<byte>) | CloseNotify

  // What the reader knows: whether the peer has closed, the warnings in a row, the cipher in
  // use, how often it has changed, every record accepted under each cipher, and the largest
  // number under this one.
  datatype ReaderState = ReaderState(closed: bool, warnings: nat, nullCipher: bool, recordVersion: nat, generation: nat,
                                     accepted: set<(nat, nat)>, maxSeq: nat)

  // The epoch as the wire shows it.
  function Epoch(s: ReaderState): nat { s.generation % EPOCHS }

  // The record is for the cipher in use and its body opens to a plaintext of legal size.
  predicate Authentic(s: ReaderState, r: Incoming) {
    && r.Record? && r.body.Some? && r.epoch == Epoch(s)
    && (if s.nullCipher then r.version / 256 == DTLS1_VERSION_MAJOR else r.version == s.recordVersion)
  }

  predicate Fits(r: Incoming) { r.Record? && r.body.Some? && |r.body.value| <= SSL3_RT_MAX_PLAIN_LENGTH }

  // It was not taken before under this cipher and is not behind the window.
  predicate New(s: ReaderState, r: Incoming)
    requires r.Record?
  {
    (s.generation, r.seqNum) !in s.accepted && r.epoch * TWO48 + r.seqNum + WINDOW > s.maxSeq
  }

  // The record is authentic, new and not too long.
  predicate Takes(s: ReaderState, r: Incoming) { !s.closed && Authentic(s, r) && New(s, r) && Fits(r) }

  function Noted(s: ReaderState, r: Incoming): ReaderState
    requires r.Record?
  {
    s.(accepted := s.accepted + {(s.generation, r.seqNum)}, maxSeq := Larger(r.epoch * TWO48 + r.seqNum, s.maxSeq))
  }

  // ssl_process_alert: the peer closes, or too many warnings in a row or anything else fatal.
  function AlertOutcome(s: ReaderState, alert: seq<byte>): Outcome {
    if |alert| != 2 || alert[0] != SSL3_AL_WARNING then Error
    else if alert[1] == SSL_AD_CLOSE_NOTIFY then CloseNotify
    else if (s.warnings + 1) % 0x100 > MAX_WARNING_ALERTS then Error
    else Discard
  }

  function AfterAlert(s: ReaderState, alert: seq<byte>): ReaderState {
    if |alert| != 2 || alert[0] != SSL3_AL_WARNING then s
    else if alert[1] == SSL_AD_CLOSE_NOTIFY then s.(closed := true)
    else s.(warnings := (s.warnings + 1) % 0x100)
  }

  // What becomes of a record: it is handed out exactly when it is taken and no alert.
  function OutcomeOf(s: ReaderState, r: Incoming): Outcome {
    if s.closed then CloseNotify
    else if r.Empty? then Partial
    else if !Authentic(s, r) || !New(s, r) then Discard
    else if !Fits(r) then Error
    else if r.typ == SSL3_RT_ALERT then AlertOutcome(s, r.body.value)
    else Success(r.typ, r.body.value)
  }

  function AfterRecord(s: ReaderState, r: Incoming): ReaderState {
    if !Takes(s, r) then s
    else if r.typ == SSL3_RT_ALERT then AfterAlert(Noted(s, r), r.body.value)
    else Noted(s, r).(warnings := 0)
  }

  function AfterCipher(s: ReaderState, version: nat): ReaderState {
    s.(nullCipher := false, recordVersion := version, generation := s.generation + 1, maxSeq := 0)
  }

  class RecordReader {
    const window: ReplayWindow
    var rEpoch: nat
    var nullCipher: bool
    var recordVersion: nat
    var closed: bool
    // warning_alert_count, in eight bits.
    var warnings: nat
    // The number of cipher changes so far, which rEpoch counts in 16 bits, and every record
    // accepted under each.
    ghost var generation: nat
    ghost var accepted: set<(nat, nat)>

    ghost predicate Valid()
      reads this, window
    {
      && window.Valid()
      && rEpoch == generation % EPOCHS
      && (forall a :: a in accepted ==> a.0 <= generation)
      && (forall s: nat :: s < TWO48 ==> ((generation, s) in accepted <==> rEpoch * TWO48 + s in window.recorded))
      && (forall x :: x in window.recorded ==> x >= rEpoch * TWO48)
    }

    ghost function Now(): ReaderState
      reads this, window
    {
      ReaderState(closed, warnings, nullCipher, recordVersion, generation, accepted, window.maxSeq)
    }

    constructor (version: nat)
      ensures Valid() && fresh(window) && Now() == Fresh(version)
    {
      window := new ReplayWindow();
      rEpoch, nullCipher, recordVersion, closed, warnings := 0, true, version, false, 0;
      generation, accepted := 0, {};
    }

    // taken says that the record is authentic, new and not too long.
    method OpenRecord(r: Incoming) returns (out: Outcome, taken: bool)
      requires Valid() && (r.Record? ==> r.epoch < EPOCHS && r.seqNum < TWO48)
      modifies this, window
      ensures Valid() && Now() == AfterRecord(old(Now()), r)
      ensures out == OutcomeOf(old(Now()), r) && (taken <==> Takes(old(Now()), r))
    {
      taken := false;
      if closed {
        return CloseNotify, taken;
      }
      match r
      case Empty => return Partial, taken;
      case Malformed => return Discard, taken;
      case Record(typ, version, epoch, seqNum, body) =>
        var versionOk := if nullCipher then version / 256 == DTLS1_VERSION_MAJOR else version == recordVersion;
        if !versionOk || epoch != rEpoch {
          return Discard, taken;
        }
        var replayed := window.ShouldDiscard(epoch * TWO48 + seqNum);
        if replayed || body == None {
          return Discard, taken;
        }
        if |body.value| > SSL3_RT_MAX_PLAIN_LENGTH {
          return Error, taken;
        }
        Accept(seqNum);
        taken := true;
        if typ == SSL3_RT_ALERT {
          out := ProcessAlert(body.value);
          return;
        }
        warnings := 0;
        return Success(typ, body.value), taken;
    }

    // ssl_process_alert.
    method ProcessAlert(alert: seq<byte>) returns (out: Outcome)
      modifies this`closed, this`warnings
      ensures out == AlertOutcome(old(Now()), alert) && Now() == AfterAlert(old(Now()), alert)
    {
      if |alert| != 2 {
        return Error;
      }
      if alert[0] == SSL3_AL_WARNING {
        if alert[1] == SSL_AD_CLOSE_NOTIFY {
          closed := true;
          return CloseNotify;
        }
        warnings := (warnings + 1) % 0x100;
        return if warnings > MAX_WARNING_ALERTS then Error else Discard;
      }
      return Error;
    }

    // dtls1_record_bitmap: the number has been seen.
    method Accept(seqNum: nat)
      requires Valid() && seqNum < TWO48
      modifies this`accepted, window
      ensures Valid()
      ensures Now() == old(Now()).(accepted := old(accepted) + {(generation, seqNum)},
                                   maxSeq := Larger(rEpoch * TWO48 + seqNum, old(window.maxSeq)))
    {
      window.Record(rEpoch * TWO48 + seqNum);
      accepted := accepted + {(generation, seqNum)};
    }

    // dtls1_set_read_state, with no handshake data left over.
    method SetReadState(version: nat)
      requires Valid()
      modifies this, window
      ensures Valid() && Now() == AfterCipher(old(Now()), version)
    {
      rEpoch := (rEpoch + 1) % EPOCHS;
      generation := generation + 1;
      window.Clear();
      nullCipher, recordVersion := false, version;
    }
  }

  // --- Whole runs ---

  datatype Event = Arrives(record: Incoming) | NewCipher(version: nat)

  function Changes(events: seq<Event>): nat {
    if events == [] then 0 else Changes(events[..|events| - 1]) + if events[|events| - 1].NewCipher? then 1 else 0
  }

  function Fresh(version: nat): ReaderState { ReaderState(false, 0, true, version, 0, {}, 0) }

  function AfterEvent(s: ReaderState, e: Event): ReaderState {
    if e.Arrives? then AfterRecord(s, e.record) else AfterCipher(s, e.version)
  }

  // The reader after a run.
  function AfterEvents(events: seq<Event>, version: nat): ReaderState {
    if events == [] then Fresh(version)
    else AfterEvent(AfterEvents(events[..|events| - 1], version), events[|events| - 1])
  }

  predicate Accepts(s: ReaderState, e: Event) { e.Arrives? && Takes(s, e.record) }

  // The epoch and sequence number of every record taken in a run.
  function Accepted(events: seq<Event>, version: nat): seq<(nat, nat)> {
    if events == [] then []
    else
      var before, e := events[..|events| - 1], events[|events| - 1];
      Accepted(before, version)
      + if Accepts(AfterEvents(before, version), e) then [(e.record.epoch, e.record.seqNum)] else []
  }

  // The log with the number of cipher changes in place of the epoch.
  ghost predicate Counted(full: seq<(nat, nat)>, log: seq<(nat, nat)>, s: ReaderState) {
    && |full| == |log| && Distinct(full)
    && (forall k :: 0 <= k < |full| ==> full[k] in s.accepted)
    && (forall a :: a in s.accepted ==> a.0 <= s.generation)
    && (forall k :: 0 <= k < |log| ==> log[k] == (full[k].0 % EPOCHS, full[k].1))
  }

  lemma {:induction false} RunCounted(events: seq<Event>, version: nat) returns (full: seq<(nat, nat)>)
    ensures Counted(full, Accepted(events, version), AfterEvents(events, version))
    ensures AfterEvents(events, version).generation == Changes(events)
  {
    full := [];
    if events != [] {
      var before, e := events[..|events| - 1], events[|events| - 1];
      var s := AfterEvents(before, version);
      full := RunCounted(before, version);
      if Accepts(s, e) { full := full + [(s.generation, e.record.seqNum)]; }
    }
  }

  // Over any run of a connection no two accepted records have the same epoch and sequence
  // number, as long as the 16-bit epoch has not come round.
  lemma AcceptedOnce(events: seq<Event>, version: nat)
    requires Changes(events) < EPOCHS
    ensures Distinct(Accepted(events, version))
  {
    var full := RunCounted(events, version);
    var s := AfterEvents(events, version);
    forall k | 0 <= k < |full| ensures full[k].0 < EPOCHS { assert full[k] in s.accepted; }
    DistinctModulo(full, Accepted(events, version), EPOCHS);
  }

  // --- What is taken, by what has happened before ---

  // The version the last cipher change set.
  function LastVersion(events: seq<Event>, version: nat): nat {
    if events == [] then version
    else if events[|events| - 1].NewCipher? then events[|events| - 1].version
    else LastVersion(events[..|events| - 1], version)
  }

  // A record for the current cipher, in the epoch that counts the changes, whose number has not
  // been taken since the last change and is less than 64 behind all that have.
  predicate Genuine(before: seq<Event>, r: Incoming, version: nat)
    decreases |before|, 1
  {
    && r.Record? && r.body.Some? && r.epoch == Changes(before) % 0x1_0000
    && (if Changes(before) == 0 then r.version / 256 == 0xFE else r.version == LastVersion(before, version))
    && forall q :: q in Since(before, version) ==> q != r.seqNum && q < r.seqNum + 64
  }

  // It is taken if the peer has not closed and its plaintext has legal size.
  predicate IsTaken(before: seq<Event>, e: Event, version: nat)
    decreases |before|, 2
  {
    e.Arrives? && e.record.Record? && !Closed(before, version) && Genuine(before, e.record, version) && |e.record.body.value| <= 16384
  }

  // The numbers taken since the last cipher change.
  function Since(events: seq<Event>, version: nat): set<nat>
    decreases |events|, 0
  {
    if events == [] then {}
    else
      var before, e := events[..|events| - 1], events[|events| - 1];
      if e.NewCipher? then {}
      else Since(before, version) + if IsTaken(before, e, version) then {e.record.seqNum} else {}
  }

  // An alert that closes, warning 0, was taken.
  predicate Closed(events: seq<Event>, version: nat)
    decreases |events|, 0
  {
    events != [] &&
    var before, e := events[..|events| - 1], events[|events| - 1];
    Closed(before, version) || (IsTaken(before, e, version) && Closes(e.record))
  }

  // Warnings of an alert, and the one that closes.
  predicate Warning(r: Incoming) { r.Record? && r.typ == 21 && r.body.Some? && |r.body.value| == 2 && r.body.value[0] == 1 }

  predicate Closes(r: Incoming) { Warning(r) && r.body.value[1] == 0 }

  predicate Warns(r: Incoming) { Warning(r) && r.body.value[1] != 0 }

  // The warnings taken since the last record that is no alert.
  function WarningsInRow(events: seq<Event>, version: nat): nat {
    if events == [] then 0
    else
      var before, e := events[..|events| - 1], events[|events| - 1];
      if !IsTaken(before, e, version) then WarningsInRow(before, version)
      else if e.record.typ != 21 then 0
      else WarningsInRow(before, version) + if Warns(e.record) then 1 else 0
  }

  // The reader knows of its past what it needs.
  ghost predicate Knows(s: ReaderState, events: seq<Event>, version: nat) {
    && s.generation == Changes(events) && (s.nullCipher <==> Changes(events) == 0) && s.recordVersion == LastVersion(events, version)
    && (s.closed <==> Closed(events, version)) && s.warnings == WarningsInRow(events, version) % 0x100
    && (forall a :: a in s.accepted ==> a.0 <= s.generation)
    && (forall q: nat :: (s.generation, q) in s.accepted <==> q in Since(events, version))
    && (forall q :: q in Since(events, version) ==> Epoch(s) * TWO48 + q <= s.maxSeq)
    && (s.maxSeq != 0 ==> s.maxSeq >= Epoch(s) * TWO48 && s.maxSeq - Epoch(s) * TWO48 in Since(events, version))
  }

  lemma KnowsGenuine(s: ReaderState, before: seq<Event>, r: Incoming, version: nat)
    requires Knows(s, before, version) && r.Record?
    ensures Authentic(s, r) && New(s, r) <==> Genuine(before, r, version)
  {
    if r.epoch == Epoch(s) && s.maxSeq != 0 { assert s.maxSeq - Epoch(s) * TWO48 in Since(before, version); }
  }

  lemma {:induction false} RunKnows(events: seq<Event>, version: nat)
    ensures Knows(AfterEvents(events, version), events, version)
  {
    if events != [] {
      var before, e := events[..|events| - 1], events[|events| - 1];
      RunKnows(before, version);
      EventKnows(AfterEvents(before, version), before, e, version);
      assert events == before + [e];
    }
  }

  lemma EventKnows(s: ReaderState, before: seq<Event>, e: Event, version: nat)
    requires Knows(s, before, version)
    ensures Knows(AfterEvent(s, e), before + [e], version)
  {
    var events := before + [e];
    assert events[..|before|] == before && events[|events| - 1] == e;
    if e.Arrives? && e.record.Record? { KnowsGenuine(s, before, e.record, version); }
    if IsTaken(before, e, version) {
      TakenKnows(s, before, e, version);
    } else {
      assert WarningsInRow(events, version) == WarningsInRow(before, version);
    }
  }

  lemma TakenKnows(s: ReaderState, before: seq<Event>, e: Event, version: nat)
    requires Knows(s, before, version) && IsTaken(before, e, version) && Takes(s, e.record)
    ensures Knows(AfterEvent(s, e), before + [e], version)
  {
    var events, d := before + [e], AfterEvent(s, e);
    assert events[..|before|] == before;
    NumbersKnown(s, before, e, version);
    if e.record.typ == 21 { AlertKnown(s, before, e, version); }
  }

  lemma NumbersKnown(s: ReaderState, before: seq<Event>, e: Event, version: nat)
    requires Knows(s, before, version) && IsTaken(before, e, version) && Takes(s, e.record)
    ensures var d, now := AfterEvent(s, e), Since(before + [e], version);
            && now == Since(before, version) + {e.record.seqNum}
            && d.accepted == s.accepted + {(s.generation, e.record.seqNum)}
            && (forall q :: q in now ==> Epoch(s) * TWO48 + q <= d.maxSeq)
            && d.maxSeq >= Epoch(s) * TWO48 && d.maxSeq - Epoch(s) * TWO48 in now
  {
    assert (before + [e])[..|before|] == before;
    if s.maxSeq != 0 { assert s.maxSeq - Epoch(s) * TWO48 in Since(before, version); }
  }

  lemma AlertKnown(s: ReaderState, before: seq<Event>, e: Event, version: nat)
    requires Knows(s, before, version) && IsTaken(before, e, version) && Takes(s, e.record) && e.record.typ == 21
    ensures var d, events := AfterEvent(s, e), before + [e];
            && (d.closed <==> Closed(events, version)) && d.warnings == WarningsInRow(events, version) % 0x100
  {
    assert (before + [e])[..|before|] == before;
  }

  // Whether a record is taken depends on what has happened before, and on nothing else.
  lemma TakenByHistory(before: seq<Event>, e: Event, version: nat)
    ensures Accepts(AfterEvents(before, version), e) <==> IsTaken(before, e, version)
  {
    RunKnows(before, version);
    if e.Arrives? && e.record.Record? { KnowsGenuine(AfterEvents(before, version), before, e.record, version); }
  }

  // What ends the connection: a genuine record that is too long, or an alert that is no
  // warning, or a fifth warning in a row, counted in eight bits.
  predicate Fatal(before: seq<Event>, e: Event, version: nat) {
    e.Arrives? && !Closed(before, version) && Genuine(before, e.record, version) &&
    (|e.record.body.value| > 16384 ||
      (e.record.typ == 21 && (!Warning(e.record) || (Warns(e.record) && (WarningsInRow(before, version) + 1) % 256 > 4))))
  }

  // So does what becomes of it: it is handed out, closes the connection, ends it or is dropped.
  lemma OutcomeByHistory(before: seq<Event>, e: Event, version: nat)
    requires e.Arrives?
    ensures var out, r := OutcomeOf(AfterEvents(before, version), e.record), e.record;
            && (out == CloseNotify <==> Closed(before, version) || (IsTaken(before, e, version) && Closes(r)))
            && (out == Partial <==> !Closed(before, version) && r.Empty?)
            && (out.Success? <==> IsTaken(before, e, version) && r.typ != 21)
            && (out.Success? ==> out == Success(r.typ, r.body.value))
            && (out == Error <==> Fatal(before, e, version))
  {
    var s := AfterEvents(before, version);
    RunKnows(before, version);
    if e.record.Record? {
      KnowsGenuine(s, before, e.record, version);
      TakenByHistory(before, e, version);
      if IsTaken(before, e, version) && e.record.typ == 21 { AlertExact(s, e.record.body.value); }
    }
  }

  lemma AlertExact(s: ReaderState, alert: seq<byte>)
    ensures var out, warning := AlertOutcome(s, alert), |alert| == 2 && alert[0] == 1;
            && (out == CloseNotify <==> warning && alert[1] == 0)
            && (out == Error <==> !warning || (alert[1] != 0 && (s.warnings + 1) % 256 > 4))
            && (out == Discard <==> warning && alert[1] != 0 && (s.warnings + 1) % 256 <= 4)
  {
  }

  predicate InRange(e: Event) { e.Arrives? && e.record.Record? ==> e.record.epoch < EPOCHS && e.record.seqNum < TWO48 }

  // For every event whether its record was taken.
  ghost predicate Marks(taken: seq<bool>, events: seq<Event>, version: nat) {
    |taken| <= |events| && forall i :: 0 <= i < |taken| ==> (taken[i] <==> Accepts(AfterEvents(events[..i], version), events[i]))
  }

  lemma RunOn(taken: seq<bool>, events: seq<Event>, version: nat)
    requires |taken| < |events| && Marks(taken, events, version)
    ensures var n := |taken|;
            var s, ok := AfterEvents(events[..n], version), Accepts(AfterEvents(events[..n], version), events[n]);
            && AfterEvents(events[..n + 1], version) == AfterEvent(s, events[n])
            && Accepted(events[..n + 1], version)
               == Accepted(events[..n], version) + (if ok then [(events[n].record.epoch, events[n].record.seqNum)] else [])
            && Marks(taken + [ok], events, version)
  {
    var n := |taken|;
    assert events[..n + 1][..n] == events[..n];
  }

  // One event. number is that of the record taken.
  method Handle(reader: RecordReader, e: Event) returns (ok: bool, number: (nat, nat))
    requires reader.Valid() && InRange(e)
    modifies reader, reader.window
    ensures reader.Valid() && reader.Now() == AfterEvent(old(reader.Now()), e)
    ensures ok <==> Accepts(old(reader.Now()), e)
    ensures ok ==> number == (e.record.epoch, e.record.seqNum)
  {
    ok, number := false, (0, 0);
    match e
    case NewCipher(v) => reader.SetReadState(v);
    case Arrives(record) =>
      var out;
      out, ok := reader.OpenRecord(record);
      if ok {
        number := (record.epoch, record.seqNum);
      }
  }

  // The reader takes just those records.
  method ReceiveAll(events: seq<Event>, version: nat) returns (taken: seq<bool>, log: seq<(nat, nat)>)
    requires forall e :: e in events ==> InRange(e)
    ensures |taken| == |events| && forall i :: 0 <= i < |taken| ==> (taken[i] <==> IsTaken(events[..i], events[i], version))
    ensures log == Accepted(events, version) && (Changes(events) < EPOCHS ==> Distinct(log))
  {
    var reader := new RecordReader(version);
    taken, log := [], [];
    while |taken| < |events|
      invariant reader.Valid() && fresh(reader) && fresh(reader.window) && Marks(taken, events, version)
      invariant reader.Now() == AfterEvents(events[..|taken|], version) && log == Accepted(events[..|taken|], version)
      decreases |events| - |taken|
    {
      RunOn(taken, events, version);
      var ok, number := Handle(reader, events[|taken|]);
      taken, log := taken + [ok], log + if ok then [number] else [];
    }
    assert events[..|taken|] == events;
    forall i | 0 <= i < |taken| ensures taken[i] <==> IsTaken(events[..i], events[i], version) {
      TakenByHistory(events[..i], events[i], version);
    }
    if Changes(events) < EPOCHS { AcceptedOnce(events, version); }
  }
}
