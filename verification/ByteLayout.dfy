/** Blocks put together from fields at given positions, with zeros between them. */
module ByteLayout {
  import opened Wrappers
  import opened WindowsBinary

  datatype Piece = Piece(at: nat, bytes: Bytes)

  function Zeros(n: nat): (z: Bytes)
    ensures |z| == n
  {
    seq(n, i => 0)
  }

  /** The pieces follow one another, from `start` on, and end by n. */
  predicate Ordered(pieces: seq<Piece>, start: nat, n: nat) {
    if |pieces| == 0 then start <= n
    else start <= pieces[0].at && Ordered(pieces[1..], pieces[0].at + |pieces[0].bytes|, n)
  }

  /** The bytes from `start` up to n. */
  function Assemble(pieces: seq<Piece>, start: nat, n: nat): (block: Bytes)
    requires Ordered(pieces, start, n)
    ensures start <= n && |block| == n - start
  {
    if |pieces| == 0 then Zeros(n - start)
    else
      Zeros(pieces[0].at - start) + pieces[0].bytes
      + Assemble(pieces[1..], pieces[0].at + |pieces[0].bytes|, n)
  }

  predicate Bears(block: Bytes, start: nat, piece: Piece) {
    && start <= piece.at && piece.at + |piece.bytes| - start <= |block|
    && block[piece.at - start..piece.at + |piece.bytes| - start] == piece.bytes
  }

  lemma BearsLater(front: Bytes, rest: Bytes, start: nat, piece: Piece)
    requires Bears(rest, start + |front|, piece)
    ensures Bears(front + rest, start, piece)
  {
    var block, low, high := front + rest, piece.at - start, piece.at + |piece.bytes| - start;
    assert block[low..high] == rest[low - |front|..high - |front|];
  }

  lemma BearsFirst(front: Bytes, rest: Bytes, start: nat, piece: Piece)
    requires start <= piece.at && |front| == piece.at - start
    ensures Bears(front + piece.bytes + rest, start, piece)
  {
    var block := front + piece.bytes + rest;
    assert block[|front|..|front| + |piece.bytes|] == piece.bytes;
  }

  /** Every piece stands where it was put. */
  lemma {:induction false} Assembled(pieces: seq<Piece>, start: nat, n: nat, i: nat)
    requires Ordered(pieces, start, n) && i < |pieces|
    ensures Bears(Assemble(pieces, start, n), start, pieces[i])
  {
    var front, next := Zeros(pieces[0].at - start), pieces[0].at + |pieces[0].bytes|;
    var rest := Assemble(pieces[1..], next, n);
    assert Assemble(pieces, start, n) == front + pieces[0].bytes + rest;
    if i == 0 {
      BearsFirst(front, rest, start, pieces[0]);
    } else {
      Assembled(pieces[1..], next, n, i - 1);
      hide Assemble, Bears, Ordered;
      BearsLater(front + pieces[0].bytes, rest, start, pieces[i]);
    }
  }

  /** A little-endian field. */
  function Number(at: nat, w: nat, v: nat): Piece {
    Piece(at, LeBytes(v, w))
  }

  lemma NumberHolds(block: Bytes, at: nat, w: nat, v: nat)
    requires Bears(block, 0, Number(at, w, v)) && v < Pow256(w)
    ensures Holds(block, at, w, v)
  {
  }

  /** Neighbours in order are enough. */
  lemma {:induction false} OrderedByNeighbours(pieces: seq<Piece>, start: nat, n: nat)
    requires |pieces| > 0 && start <= pieces[0].at
    requires forall i :: 0 <= i < |pieces| - 1 ==> pieces[i].at + |pieces[i].bytes| <= pieces[i + 1].at
    requires pieces[|pieces| - 1].at + |pieces[|pieces| - 1].bytes| <= n
    ensures Ordered(pieces, start, n)
  {
    if |pieces| > 1 {
      forall i | 0 <= i < |pieces| - 2
        ensures pieces[1..][i].at + |pieces[1..][i].bytes| <= pieces[1..][i + 1].at
      {
        assert pieces[1..][i] == pieces[i + 1] && pieces[1..][i + 1] == pieces[i + 2];
      }
      OrderedByNeighbours(pieces[1..], pieces[0].at + |pieces[0].bytes|, n);
    }
  }

  lemma NumberStands(pieces: seq<Piece>, n: nat, i: nat, at: nat, w: nat, v: nat)
    requires Ordered(pieces, 0, n) && i < |pieces| && pieces[i] == Number(at, w, v) && v < Pow256(w)
    ensures Holds(Assemble(pieces, 0, n), at, w, v)
  {
    hide Assemble, Ordered, Holds;
    Assembled(pieces, 0, n, i);
    NumberHolds(Assemble(pieces, 0, n), at, w, v);
  }

  lemma PieceStands(pieces: seq<Piece>, n: nat, i: nat)
    requires Ordered(pieces, 0, n) && i < |pieces|
    ensures pieces[i].at + |pieces[i].bytes| <= n
    ensures Assemble(pieces, 0, n)[pieces[i].at..pieces[i].at + |pieces[i].bytes|] == pieces[i].bytes
  {
    hide Assemble, Ordered;
    Assembled(pieces, 0, n, i);
  }
}
