/** Pawn moves: one step onto an empty square, two steps from the start row
    over two empty squares, diagonal captures of enemy pieces, and a four-way
    promotion fan-out for any move that lands on the promotion row. */
module Pawns {
  import opened Wrappers
  import opened Pieces
  import opened Seqs

  /** The promotion choices, in the order the calculator emits them. */
  const PromotionChoices: seq<PieceType> := [Queen, Rook, Bishop, Knight]

  /** One move, or four when the pawn promotes. */
  function FanOut(from: Position, to: Position, promotes: bool): (r: seq<Move>)
    ensures forall m :: m in r ==> m.start == from && m.end == to
  {
    if promotes then
      [Move(from, to, Some(Queen)), Move(from, to, Some(Rook)),
       Move(from, to, Some(Bishop)), Move(from, to, Some(Knight))]
    else [Move(from, to, None)]
  }

  function Capture(b: Board, pos: Position, c: Color, col: int): (r: seq<Move>)
    ensures forall m :: m in r ==>
              && m.start == pos && m.end == Position(pos.row + Forward(c), col) && 1 <= col <= 8
              && Get(b, m.end).Some? && Get(b, m.end).value.color != c
  {
    var target := Position(pos.row + Forward(c), col);
    if 1 <= col <= 8 && Get(b, target).Some? && Get(b, target).value.color != c then
      FanOut(pos, target, target.row == PromotionRow(c))
    else []
  }

  function PawnMoves(b: Board, pos: Position): (r: seq<Move>)
    requires OnBoard(pos) && pos in b.squares && PawnCanStep(pos, b.squares[pos].color)
    ensures forall m :: m in r ==> m.start == pos && OnBoard(m.end) && CanLand(b, b.squares[pos].color, m.end)
  {
    var c := b.squares[pos].color;
    var one := Position(pos.row + Forward(c), pos.col);
    var two := Position(pos.row + 2 * Forward(c), pos.col);
    var single :=
      if 1 <= one.row <= 8 && Get(b, one).None? then FanOut(pos, one, one.row == PromotionRow(c)) else [];
    var double :=
      if pos.row == StartRow(c) && Get(b, one).None? && Get(b, two).None? then [Move(pos, two, None)] else [];
    single + double + Capture(b, pos, c, pos.col - 1) + Capture(b, pos, c, pos.col + 1)
  }

  /** The promotion a pawn move carries: one of the four choices exactly when it
      lands on the promotion row, none otherwise. */
  predicate PromotionFits(m: Move, c: Color) {
    if m.end.row == PromotionRow(c) then m.promotion.Some? && m.promotion.value in PromotionChoices
    else m.promotion.None?
  }

  /** An independent statement of which moves a pawn of colour `c` on `pos` has. */
  predicate IsPawnMove(b: Board, pos: Position, c: Color, m: Move) {
    var one := Position(pos.row + Forward(c), pos.col);
    var two := Position(pos.row + 2 * Forward(c), pos.col);
    && m.start == pos
    && PromotionFits(m, c)
    && (|| (m.end == one && Get(b, one).None?)
        || (pos.row == StartRow(c) && m.end == two && Get(b, one).None? && Get(b, two).None?)
        || (&& m.end.row == one.row
            && (m.end.col == pos.col - 1 || m.end.col == pos.col + 1)
            && 1 <= m.end.col <= 8
            && Get(b, m.end).Some? && Get(b, m.end).value.color != c))
  }

  lemma FanOutSpec(from: Position, to: Position, c: Color, m: Move)
    ensures m in FanOut(from, to, to.row == PromotionRow(c)) <==> m.start == from && m.end == to && PromotionFits(m, c)
  {
  }

  lemma PawnMovesSpec(b: Board, pos: Position, m: Move)
    requires OnBoard(pos) && pos in b.squares && PawnCanStep(pos, b.squares[pos].color)
    ensures m in PawnMoves(b, pos) <==> IsPawnMove(b, pos, b.squares[pos].color, m)
  {
    var c := b.squares[pos].color;
    var one := Position(pos.row + Forward(c), pos.col);
    FanOutSpec(pos, one, c, m);
    FanOutSpec(pos, Position(one.row, pos.col - 1), c, m);
    FanOutSpec(pos, Position(one.row, pos.col + 1), c, m);
  }

  /** A two-step move never promotes, and no pawn move is a straight capture. */
  lemma PawnStraightMoves(b: Board, pos: Position, m: Move)
    requires OnBoard(pos) && pos in b.squares && PawnCanStep(pos, b.squares[pos].color)
    requires m in PawnMoves(b, pos)
    ensures m.end.col == pos.col ==> Get(b, m.end).None?
    ensures m.end.row == pos.row + 2 * Forward(b.squares[pos].color) ==> m.promotion.None?
    ensures m.end.col != pos.col ==> Get(b, m.end).Some? && Get(b, m.end).value.color != b.squares[pos].color
  {
    PawnMovesSpec(b, pos, m);
  }

  lemma FanOutDistinct(from: Position, to: Position, promotes: bool)
    ensures Distinct(FanOut(from, to, promotes))
  {
  }

  lemma CaptureShape(b: Board, pos: Position, c: Color, col: int)
    ensures Distinct(Capture(b, pos, c, col))
    ensures forall m :: m in Capture(b, pos, c, col) ==> m.end.col == col
  {
    var target := Position(pos.row + Forward(c), col);
    FanOutDistinct(pos, target, target.row == PromotionRow(c));
  }

  /** Two duplicate-free lists whose moves differ in a key never share a move. */
  lemma JoinByKey(a: seq<Move>, b: seq<Move>, key: Move -> int, ka: set<int>, kb: set<int>)
    requires Distinct(a) && Distinct(b) && ka !! kb
    requires forall m :: m in a ==> key(m) in ka
    requires forall m :: m in b ==> key(m) in kb
    ensures Distinct(a + b)
    ensures forall m :: m in a + b ==> key(m) in ka + kb
  {
    DistinctConcat(a, b);
  }

  /** The straight part of the list: the single step (or its fan-out) and the double step. */
  lemma StraightShape(b: Board, pos: Position, c: Color)
    requires OnBoard(pos)
    ensures var one := Position(pos.row + Forward(c), pos.col);
            var two := Position(pos.row + 2 * Forward(c), pos.col);
            var single :=
              if 1 <= one.row <= 8 && Get(b, one).None? then FanOut(pos, one, one.row == PromotionRow(c)) else [];
            var double :=
              if pos.row == StartRow(c) && Get(b, one).None? && Get(b, two).None? then [Move(pos, two, None)] else [];
            && Distinct(single + double)
            && forall m :: m in single + double ==> m.end.col == pos.col
  {
    var one := Position(pos.row + Forward(c), pos.col);
    var two := Position(pos.row + 2 * Forward(c), pos.col);
    var single :=
      if 1 <= one.row <= 8 && Get(b, one).None? then FanOut(pos, one, one.row == PromotionRow(c)) else [];
    var double :=
      if pos.row == StartRow(c) && Get(b, one).None? && Get(b, two).None? then [Move(pos, two, None)] else [];
    FanOutDistinct(pos, one, one.row == PromotionRow(c));
    JoinByKey(single, double, (m: Move) => m.end.row, {one.row}, {two.row});
    forall m: Move | m in single + double
      ensures m.end.col == pos.col
    {
    }
  }

  /** No move is listed twice, so a promoting square appears exactly four times. */
  lemma PawnMovesDistinct(b: Board, pos: Position)
    requires OnBoard(pos) && pos in b.squares && PawnCanStep(pos, b.squares[pos].color)
    ensures Distinct(PawnMoves(b, pos))
  {
    var c := b.squares[pos].color;
    var one := Position(pos.row + Forward(c), pos.col);
    var two := Position(pos.row + 2 * Forward(c), pos.col);
    var single :=
      if 1 <= one.row <= 8 && Get(b, one).None? then FanOut(pos, one, one.row == PromotionRow(c)) else [];
    var double :=
      if pos.row == StartRow(c) && Get(b, one).None? && Get(b, two).None? then [Move(pos, two, None)] else [];
    var left := Capture(b, pos, c, pos.col - 1);
    var right := Capture(b, pos, c, pos.col + 1);
    StraightShape(b, pos, c);
    CaptureShape(b, pos, c, pos.col - 1);
    CaptureShape(b, pos, c, pos.col + 1);
    JoinByKey(single + double, left, (m: Move) => m.end.col, {pos.col}, {pos.col - 1});
    JoinByKey(single + double + left, right, (m: Move) => m.end.col, {pos.col, pos.col - 1}, {pos.col + 1});
  }
}
