// Records as they were sealed: what each holds and what the cipher made of it.

module SealedRecords {
  import opened Basics

  datatype Record = Record(typ: byte, plain: seq<byte>, cipher: seq<byte>)

  // What the records of a type hold, one after the other.
  function Contents(r: seq<Record>, typ: byte): seq<byte> {
    if r == [] then [] else
      var x := r[|r| - 1];
      Contents(r[..|r| - 1], typ) + (if x.typ == typ then x.plain else [])
  }

  function Ciphers(r: seq<Record>): seq<byte> {
    if r == [] then [] else Ciphers(r[..|r| - 1]) + r[|r| - 1].cipher
  }

  lemma OneMore(r: seq<Record>, x: Record, typ: byte)
    ensures Contents(r + [x], typ) == Contents(r, typ) + if x.typ == typ then x.plain else []
    ensures Ciphers(r + [x]) == Ciphers(r) + x.cipher
  {
    assert (r + [x])[..|r|] == r;
  }
}
