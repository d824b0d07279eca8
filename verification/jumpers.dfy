/** The pieces that jump to fixed offsets: the king's eight neighbours and the
    knight's eight L-shaped jumps.  A candidate is kept when it is on the board
    and not held by a piece of the mover's colour. */
module Jumpers {
  import opened Wrappers
  import opened Pieces
  import opened Seqs

  /** Tries each offset in order; the shared shape of the king calculator's loop
      and of the knight's offset-table helper. */
  function AroundMoves(b: Board, pos: Position, c: Color, offs: seq<Offset>): (r: seq<Move>)
    ensures |r| <= |offs|
    ensures forall m :: m in r ==> m.start == pos && m.promotion.None? && OnBoard(m.end) && CanLand(b, c, m.end)
  {
    if |offs| == 0 then []
    else
      var target := Shift(pos, offs[0]);
      (if OnBoard(target) && CanLand(b, c, target) then [Move(pos, target, None)] else [])
        + AroundMoves(b, pos, c, offs[1..])
  }

  lemma {:induction false} AroundMovesSpec(b: Board, pos: Position, c: Color, offs: seq<Offset>, m: Move)
    ensures m in AroundMoves(b, pos, c, offs) <==>
              && m.start == pos && m.promotion.None? && OnBoard(m.end) && CanLand(b, c, m.end)
              && exists i :: 0 <= i < |offs| && m.end == Shift(pos, offs[i])
    decreases |offs|
  {
    if |offs| > 0 {
      AroundMovesSpec(b, pos, c, offs[1..], m);
      if exists i :: 0 <= i < |offs| && m.end == Shift(pos, offs[i]) {
        var i :| 0 <= i < |offs| && m.end == Shift(pos, offs[i]);
        if i > 0 {
          assert offs[1..][i - 1] == offs[i];
        }
      }
      forall i | 0 <= i < |offs| - 1 ensures offs[1..][i] == offs[i + 1] {
      }
    }
  }

  /** Distinct offsets give distinct moves, since a move is kept at most once per offset. */
  lemma {:induction false} AroundMovesDistinct(b: Board, pos: Position, c: Color, offs: seq<Offset>)
    requires Distinct(offs)
    ensures Distinct(AroundMoves(b, pos, c, offs))
    decreases |offs|
  {
    if |offs| > 0 {
      var tail := offs[1..];
      assert Distinct(tail) by {
        forall i, j | 0 <= i < j < |tail| ensures tail[i] != tail[j] {
          assert tail[i] == offs[i + 1] && tail[j] == offs[j + 1];
        }
      }
      AroundMovesDistinct(b, pos, c, tail);
      var target := Shift(pos, offs[0]);
      var head := if OnBoard(target) && CanLand(b, c, target) then [Move(pos, target, None)] else [];
      var rest := AroundMoves(b, pos, c, tail);
      forall m | m in rest ensures m.end != target {
        AroundMovesSpec(b, pos, c, tail, m);
        var i :| 0 <= i < |tail| && m.end == Shift(pos, tail[i]);
        assert tail[i] == offs[i + 1];
      }
      DistinctConcat(head, rest);
    }
  }

  // ----- king -----

  /** The eight neighbour offsets in the king calculator's order. */
  const KingOffsets: seq<Offset> :=
    [Offset(-1, -1), Offset(-1, 0), Offset(-1, 1), Offset(0, -1),
     Offset(0, 1), Offset(1, -1), Offset(1, 0), Offset(1, 1)]

  function KingMoves(b: Board, pos: Position): (r: seq<Move>)
    requires pos in b.squares
    ensures |r| <= 8
  {
    AroundMoves(b, pos, b.squares[pos].color, KingOffsets)
  }

  function Abs(x: int): int {
    if x < 0 then -x else x
  }

  /** Chebyshev distance exactly one. */
  predicate Adjacent(p: Position, q: Position) {
    Abs(p.row - q.row) <= 1 && Abs(p.col - q.col) <= 1 && p != q
  }

  lemma KingOffsetsAreNeighbours(pos: Position, e: Position)
    ensures Adjacent(pos, e) <==> exists i :: 0 <= i < |KingOffsets| && e == Shift(pos, KingOffsets[i])
  {
    if Adjacent(pos, e) {
      var o := Offset(e.row - pos.row, e.col - pos.col);
      assert o in KingOffsets;
      var i :| 0 <= i < |KingOffsets| && KingOffsets[i] == o;
      assert e == Shift(pos, KingOffsets[i]);
    }
  }

  /** The king steps to exactly the on-board neighbours not held by its own side. */
  lemma KingMovesSpec(b: Board, pos: Position, m: Move)
    requires pos in b.squares
    ensures m in KingMoves(b, pos) <==>
              && m.start == pos && m.promotion.None? && OnBoard(m.end) && Adjacent(pos, m.end)
              && CanLand(b, b.squares[pos].color, m.end)
  {
    AroundMovesSpec(b, pos, b.squares[pos].color, KingOffsets, m);
    KingOffsetsAreNeighbours(pos, m.end);
  }

  lemma KingMovesDistinct(b: Board, pos: Position)
    requires pos in b.squares
    ensures Distinct(KingMoves(b, pos))
  {
    AroundMovesDistinct(b, pos, b.squares[pos].color, KingOffsets);
  }

  // ----- knight -----

  /** An L-shaped jump: one coordinate changes by one, the other by two. */
  predicate IsKnightJump(o: Offset) {
    (Abs(o.dr) == 1 && Abs(o.dc) == 2) || (Abs(o.dr) == 2 && Abs(o.dc) == 1)
  }

  /** The knight's offset table, in the calculator's order. */
  function KnightOffsets(): (r: seq<Offset>)
    ensures |r| == 8
    ensures forall i :: 0 <= i < |r| ==> IsKnightJump(r[i])
    ensures Distinct(r)
    ensures forall i :: 0 <= i < |r| ==> Offset(-r[i].dr, -r[i].dc) in r
  {
    [Offset(-2, -1), Offset(-1, -2), Offset(1, -2), Offset(2, -1),
     Offset(1, 2), Offset(2, 1), Offset(-1, 2), Offset(-2, 1)]
  }

  lemma KnightOffsetsComplete(o: Offset)
    ensures IsKnightJump(o) <==> o in KnightOffsets()
  {
  }

  function KnightMoves(b: Board, pos: Position): (r: seq<Move>)
    requires pos in b.squares
    ensures |r| <= 8
  {
    AroundMoves(b, pos, b.squares[pos].color, KnightOffsets())
  }

  lemma KnightMovesDistinct(b: Board, pos: Position)
    requires pos in b.squares
    ensures Distinct(KnightMoves(b, pos))
  {
    AroundMovesDistinct(b, pos, b.squares[pos].color, KnightOffsets());
  }

  /** The knight jumps to exactly the on-board L-shaped squares not held by its own side. */
  lemma KnightMovesSpec(b: Board, pos: Position, m: Move)
    requires pos in b.squares
    ensures m in KnightMoves(b, pos) <==>
              && m.start == pos && m.promotion.None? && OnBoard(m.end)
              && IsKnightJump(Offset(m.end.row - pos.row, m.end.col - pos.col))
              && CanLand(b, b.squares[pos].color, m.end)
  {
    var offs := KnightOffsets();
    AroundMovesSpec(b, pos, b.squares[pos].color, offs, m);
    var o := Offset(m.end.row - pos.row, m.end.col - pos.col);
    KnightOffsetsComplete(o);
    if o in offs {
      var i :| 0 <= i < |offs| && offs[i] == o;
      assert m.end == Shift(pos, offs[i]);
    }
  }
}
