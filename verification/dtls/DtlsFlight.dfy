// A flight of outgoing messages and the pieces it is cut into for sending.

module DtlsFlight {
  import opened Basics
  import opened DtlsFragment

  // DTLS_OUTGOING_MESSAGE: a ChangeCipherSpec, or a handshake message serialized as a single
  // fragment.
  datatype OutMessage = Ccs(epoch: nat) | Handshake(epoch: nat, data: seq<byte>)

  predicate WellFormed(m: OutMessage) {
    m.Handshake? ==>
      var p := ParseFragment(m.data);
      p.Done? && p.rest == [] && p.value.0.off == 0 && p.value.0.msgLen == p.value.0.len == |p.value.1|
  }

  // The length of the body.
  function Len(m: OutMessage): nat {
    if m.Handshake? && |m.data| >= HEADER_LENGTH then |m.data| - HEADER_LENGTH else 0
  }

  function HeaderOf(m: OutMessage): Header
    requires WellFormed(m) && m.Handshake?
  {
    ParseFragment(m.data).value.0
  }

  function BodyOf(m: OutMessage): (r: seq<byte>)
    requires WellFormed(m)
    ensures |r| == Len(m)
  {
    if m.Ccs? then [] else ParseFragment(m.data).value.1
  }

  ghost predicate WellFormedFlight(f: seq<OutMessage>) { forall m :: m in f ==> WellFormed(m) }

  // A position in a flight: outgoing_written and outgoing_offset.
  datatype Position = Position(written: nat, offset: nat)

  // What one record carries: a ChangeCipherSpec, or len bytes of a message from off on.
  datatype Piece = Piece(index: nat, off: nat, len: nat)

  // The piece starts where the flight stands and makes progress.
  ghost predicate Fits(f: seq<OutMessage>, at: Position, p: Piece)
  {
    && at.written < |f| && p.index == at.written && p.off == at.offset
    && p.off + p.len <= Len(f[p.index])
    && (p.len == 0 ==> p.off == Len(f[p.index]))
  }

  ghost function After(f: seq<OutMessage>, p: Piece): Position
    requires p.index < |f|
  {
    if p.off + p.len == Len(f[p.index]) then Position(p.index + 1, 0) else Position(p.index, p.off + p.len)
  }

  // Where a run of pieces leads, each starting where the one before ended.
  ghost function Walk(f: seq<OutMessage>, from: Position, pieces: seq<Piece>): Option<Position>
  {
    if pieces == [] then Some(from)
    else
      var n := |pieces| - 1;
      var at := Walk(f, from, pieces[..n]);
      if at.Some? && Fits(f, at.value, pieces[n]) then Some(After(f, pieces[n])) else None
  }

  lemma WalkStep(f: seq<OutMessage>, from: Position, pieces: seq<Piece>, p: Piece)
    requires Walk(f, from, pieces).Some? && Fits(f, Walk(f, from, pieces).value, p)
    ensures Walk(f, from, pieces + [p]) == Some(After(f, p))
  {
    assert (pieces + [p])[..|pieces|] == pieces;
  }

  lemma {:induction false} WalkOn(f: seq<OutMessage>, from: Position, a: seq<Piece>, b: seq<Piece>)
    requires Walk(f, from, a).Some?
    ensures Walk(f, from, a + b) == Walk(f, Walk(f, from, a).value, b)
    decreases |b|
  {
    if b == [] {
      assert a + b == a;
    } else {
      var n := |b| - 1;
      WalkOn(f, from, a, b[..n]);
      assert (a + b)[..|a| + n] == a + b[..n] && (a + b)[|a| + n] == b[n];
    }
  }

  // --- Tiling ---

  // The bytes of a flight in order, each message followed by its end mark.
  datatype Cell = Cell(index: nat, byteAt: nat)

  // The cells before a position.
  ghost function Before(f: seq<OutMessage>, w: nat, o: nat): seq<Cell>
    requires w <= |f|
    decreases w, o
  {
    if o > 0 then Before(f, w, o - 1) + [Cell(w, o - 1)]
    else if w > 0 then Before(f, w - 1, Len(f[w - 1]) + 1)
    else []
  }

  ghost function Range(i: nat, off: nat, len: nat): seq<Cell> {
    if len == 0 then [] else Range(i, off, len - 1) + [Cell(i, off + len - 1)]
  }

  // The cells a piece carries: its bytes, and the end mark when it finishes its message.
  ghost function Cells(f: seq<OutMessage>, p: Piece): seq<Cell>
    requires p.index < |f|
  {
    Range(p.index, p.off, if p.off + p.len == Len(f[p.index]) then p.len + 1 else p.len)
  }

  // The cells a run of pieces carries.
  ghost function Carried(f: seq<OutMessage>, pieces: seq<Piece>): seq<Cell>
    requires forall p :: p in pieces ==> p.index < |f|
  {
    if pieces == [] then []
    else Carried(f, pieces[..|pieces| - 1]) + Cells(f, pieces[|pieces| - 1])
  }

  lemma {:induction false} BeforeRange(f: seq<OutMessage>, w: nat, o: nat, n: nat)
    requires w <= |f|
    ensures Before(f, w, o + n) == Before(f, w, o) + Range(w, o, n)
    decreases n
  {
    if n > 0 { BeforeRange(f, w, o, n - 1); }
  }

  lemma {:induction false} WalkIndices(f: seq<OutMessage>, from: Position, pieces: seq<Piece>)
    requires Walk(f, from, pieces).Some?
    ensures forall p :: p in pieces ==> p.index < |f|
  {
    if pieces != [] { WalkIndices(f, from, pieces[..|pieces| - 1]); }
  }

  // The pieces sent so far carry exactly the cells before the position reached: every byte
  // of every finished message once and in order, and the beginning of the next.
  lemma {:induction false} Tiling(f: seq<OutMessage>, pieces: seq<Piece>)
    requires Walk(f, Position(0, 0), pieces).Some?
    ensures forall p :: p in pieces ==> p.index < |f|
    ensures var at := Walk(f, Position(0, 0), pieces).value;
            at.written <= |f| && Carried(f, pieces) == Before(f, at.written, at.offset)
  {
    WalkIndices(f, Position(0, 0), pieces);
    if pieces != [] {
      var n := |pieces| - 1;
      var p := pieces[n];
      Tiling(f, pieces[..n]);
      assert p in pieces;
      TilingStep(f, p);
    }
  }

  lemma {:induction false} TilingStep(f: seq<OutMessage>, p: Piece)
    requires p.index < |f| && p.off + p.len <= Len(f[p.index])
    ensures Before(f, After(f, p).written, After(f, p).offset) == Before(f, p.index, p.off) + Cells(f, p)
  {
    if p.off + p.len == Len(f[p.index]) {
      BeforeNext(f, p.index, p.off, p.len);
    } else {
      BeforeRange(f, p.index, p.off, p.len);
    }
  }

  lemma {:induction false} BeforeNext(f: seq<OutMessage>, w: nat, o: nat, n: nat)
    requires w < |f| && o + n == Len(f[w])
    ensures Before(f, w + 1, 0) == Before(f, w, o) + Range(w, o, n + 1)
  {
    BeforeRange(f, w, o, n + 1);
    NextMessage(f, w);
  }

  // The end mark of a message is its last cell.
  lemma NextMessage(f: seq<OutMessage>, w: nat)
    requires w < |f|
    ensures Before(f, w + 1, 0) == Before(f, w, Len(f[w]) + 1)
  {
  }

  // A cell comes before a position exactly when its message is finished or being sent and
  // holds it, and it comes only once.
  lemma {:induction false} BeforeCells(f: seq<OutMessage>, w: nat, o: nat, i: nat, k: nat)
    requires w <= |f| && (w == |f| ==> o == 0)
    ensures Cell(i, k) in Before(f, w, o) <==> (i < w && k <= Len(f[i])) || (i == w && k < o)
    decreases w, o
  {
    if o > 0 { BeforeCells(f, w, o - 1, i, k); }
    else if w > 0 { BeforeCells(f, w - 1, Len(f[w - 1]) + 1, i, k); }
  }

  lemma {:induction false} BeforeOnce(f: seq<OutMessage>, w: nat, o: nat)
    requires w <= |f| && (w == |f| ==> o == 0)
    ensures var b := Before(f, w, o); forall x, y :: 0 <= x < y < |b| ==> b[x] != b[y]
    decreases w, o
  {
    if o > 0 {
      BeforeOnce(f, w, o - 1);
      BeforeCells(f, w, o - 1, w, o - 1);
    } else if w > 0 {
      BeforeOnce(f, w - 1, Len(f[w - 1]) + 1);
      assert Before(f, w, o) == Before(f, w - 1, Len(f[w - 1]) + 1);
    }
  }

  ghost predicate Earlier(a: Position, b: Position) {
    a.written < b.written || (a.written == b.written && a.offset < b.offset)
  }

  // Every piece moves the position forward.
  lemma {:induction false} WalkForward(f: seq<OutMessage>, from: Position, pieces: seq<Piece>)
    requires Walk(f, from, pieces).Some?
    ensures var to := Walk(f, from, pieces).value;
            if pieces == [] then to == from else Earlier(from, to)
  {
    if pieces != [] { WalkForward(f, from, pieces[..|pieces| - 1]); }
  }
}
