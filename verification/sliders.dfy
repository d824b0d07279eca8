/** The sliding pieces: rook rays that stop at the first occupied square, the
    bishop's rays that ignore the board, and the queen as rook-then-bishop. */
module Sliders {
  import opened Wrappers
  import opened Pieces
  import opened Seqs

  predicate UnitDir(d: Offset) {
    -1 <= d.dr <= 1 && -1 <= d.dc <= 1 && (d.dr != 0 || d.dc != 0)
  }

  /** `k` times a unit component, kept linear. */
  function Scale(x: int, k: int): int
    requires -1 <= x <= 1
  {
    if x == 1 then k else if x == -1 then -k else 0
  }

  /** The square `k` steps from `start` along `d`. */
  function Square(start: Position, d: Offset, k: int): Position
    requires UnitDir(d)
  {
    Position(start.row + Scale(d.dr, k), start.col + Scale(d.dc, k))
  }

  lemma OffBoardStaysOff(start: Position, d: Offset, lo: int, k: int)
    requires OnBoard(start) && UnitDir(d) && 0 <= lo <= k
    requires !OnBoard(Square(start, d, lo))
    ensures !OnBoard(Square(start, d, k))
  {
    if d.dr == 1 {
    } else if d.dr == -1 {
    } else if d.dc == 1 {
    } else {
    }
  }

  /** Walks one ray from step `k` on: empty squares are added and the walk goes on;
      an enemy square is added and ends the ray; an own square ends it unadded. */
  function SlideRay(b: Board, start: Position, c: Color, d: Offset, k: int): (r: seq<Move>)
    requires OnBoard(start) && UnitDir(d) && k >= 1
    ensures forall m :: m in r ==> m.start == start && m.promotion.None? && OnBoard(m.end) && m.end != start
    ensures forall m :: m in r ==> exists j :: k <= j && m.end == Square(start, d, j)
    ensures forall i :: 0 <= i < |r| ==> r[i].end == Square(start, d, k + i)
    decreases 8 - k
  {
    var cur := Square(start, d, k);
    if !OnBoard(cur) then []
    else if Get(b, cur).None? then
      var rest := SlideRay(b, start, c, d, k + 1);
      PrependStep(rest, start, d, k);
      [Move(start, cur, None)] + rest
    else if Get(b, cur).value.color != c then [Move(start, cur, None)]
    else []
  }

  /** Putting the square of step `k` in front of a ray that starts at step
      `k + 1` gives a ray that starts at step `k`. */
  lemma PrependStep(rest: seq<Move>, start: Position, d: Offset, k: int)
    requires UnitDir(d)
    requires forall i :: 0 <= i < |rest| ==> rest[i].end == Square(start, d, k + 1 + i)
    ensures var r := [Move(start, Square(start, d, k), None)] + rest;
            && (forall i :: 0 <= i < |r| ==> r[i].end == Square(start, d, k + i))
            && (forall m :: m in r ==> exists j :: k <= j && m.end == Square(start, d, j))
  {
    var r := [Move(start, Square(start, d, k), None)] + rest;
    forall i | 0 <= i < |r|
      ensures r[i].end == Square(start, d, k + i)
    {
      if i > 0 {
        assert r[i] == rest[i - 1];
      }
    }
    forall m | m in r
      ensures exists j :: k <= j && m.end == Square(start, d, j)
    {
      var i :| 0 <= i < |r| && r[i] == m;
      assert m.end == Square(start, d, k + i);
    }
  }

  /** Every square strictly before step `k` and from step `lo` on is empty. */
  predicate ClearBetween(b: Board, start: Position, d: Offset, lo: int, k: int)
    requires UnitDir(d)
  {
    forall j :: lo <= j < k ==> Get(b, Square(start, d, j)).None?
  }

  /** Step `k` is where a ray walked from step `lo` may land. */
  predicate Reaches(b: Board, start: Position, c: Color, d: Offset, lo: int, k: int)
    requires UnitDir(d)
  {
    lo <= k && OnBoard(Square(start, d, k)) && ClearBetween(b, start, d, lo, k) && CanLand(b, c, Square(start, d, k))
  }

  /** `e` is a landing square of the ray from `start` along `d`. */
  ghost predicate SlidesTo(b: Board, start: Position, c: Color, d: Offset, e: Position)
    requires UnitDir(d)
  {
    exists k :: Reaches(b, start, c, d, 1, k) && e == Square(start, d, k)
  }

  lemma ReachesPastEdge(b: Board, start: Position, c: Color, d: Offset, lo: int, k: int)
    requires OnBoard(start) && UnitDir(d) && lo >= 1
    requires !OnBoard(Square(start, d, lo))
    ensures !Reaches(b, start, c, d, lo, k)
  {
    if lo <= k {
      OffBoardStaysOff(start, d, lo, k);
    }
  }

  lemma ReachesThroughEmpty(b: Board, start: Position, c: Color, d: Offset, lo: int, k: int)
    requires UnitDir(d)
    requires OnBoard(Square(start, d, lo)) && Get(b, Square(start, d, lo)).None?
    ensures Reaches(b, start, c, d, lo, k) <==> k == lo || Reaches(b, start, c, d, lo + 1, k)
  {
    if k > lo && Reaches(b, start, c, d, lo + 1, k) {
      assert ClearBetween(b, start, d, lo, k) by {
        forall j | lo <= j < k ensures Get(b, Square(start, d, j)).None? {
          if j > lo {
            assert lo + 1 <= j < k;
          }
        }
      }
    }
  }

  lemma ReachesStopsAtPiece(b: Board, start: Position, c: Color, d: Offset, lo: int, k: int)
    requires UnitDir(d)
    requires OnBoard(Square(start, d, lo)) && Get(b, Square(start, d, lo)).Some?
    ensures Reaches(b, start, c, d, lo, k) <==> k == lo && CanLand(b, c, Square(start, d, lo))
  {
  }

  lemma {:induction false} SlideRaySpec(b: Board, start: Position, c: Color, d: Offset, lo: int, m: Move)
    requires OnBoard(start) && UnitDir(d) && lo >= 1
    ensures m in SlideRay(b, start, c, d, lo) <==>
              m.start == start && m.promotion.None? &&
              exists k :: Reaches(b, start, c, d, lo, k) && m.end == Square(start, d, k)
    decreases 8 - lo
  {
    var cur := Square(start, d, lo);
    if !OnBoard(cur) {
      SlideRayPastEdge(b, start, c, d, lo, m);
    } else if Get(b, cur).None? {
      SlideRaySpec(b, start, c, d, lo + 1, m);
      SlideRayOverEmpty(b, start, c, d, lo, m);
    } else {
      SlideRayAtPiece(b, start, c, d, lo, m);
    }
  }

  lemma SlideRayPastEdge(b: Board, start: Position, c: Color, d: Offset, lo: int, m: Move)
    requires OnBoard(start) && UnitDir(d) && lo >= 1
    requires !OnBoard(Square(start, d, lo))
    ensures m !in SlideRay(b, start, c, d, lo)
    ensures !exists k :: Reaches(b, start, c, d, lo, k) && m.end == Square(start, d, k)
  {
    forall k ensures !Reaches(b, start, c, d, lo, k) {
      ReachesPastEdge(b, start, c, d, lo, k);
    }
  }

  lemma SlideRayOverEmpty(b: Board, start: Position, c: Color, d: Offset, lo: int, m: Move)
    requires OnBoard(start) && UnitDir(d) && lo >= 1
    requires OnBoard(Square(start, d, lo)) && Get(b, Square(start, d, lo)).None?
    requires m in SlideRay(b, start, c, d, lo + 1) <==>
               m.start == start && m.promotion.None? &&
               exists k :: Reaches(b, start, c, d, lo + 1, k) && m.end == Square(start, d, k)
    ensures m in SlideRay(b, start, c, d, lo) <==>
              m.start == start && m.promotion.None? &&
              exists k :: Reaches(b, start, c, d, lo, k) && m.end == Square(start, d, k)
  {
    var cur := Square(start, d, lo);
    assert SlideRay(b, start, c, d, lo) == [Move(start, cur, None)] + SlideRay(b, start, c, d, lo + 1);
    forall k ensures Reaches(b, start, c, d, lo, k) <==> k == lo || Reaches(b, start, c, d, lo + 1, k) {
      ReachesThroughEmpty(b, start, c, d, lo, k);
    }
    assert Reaches(b, start, c, d, lo, lo);
  }

  lemma SlideRayAtPiece(b: Board, start: Position, c: Color, d: Offset, lo: int, m: Move)
    requires OnBoard(start) && UnitDir(d) && lo >= 1
    requires OnBoard(Square(start, d, lo)) && Get(b, Square(start, d, lo)).Some?
    ensures m in SlideRay(b, start, c, d, lo) <==>
              m.start == start && m.promotion.None? &&
              exists k :: Reaches(b, start, c, d, lo, k) && m.end == Square(start, d, k)
  {
    var cur := Square(start, d, lo);
    forall k ensures Reaches(b, start, c, d, lo, k) <==> k == lo && CanLand(b, c, cur) {
      ReachesStopsAtPiece(b, start, c, d, lo, k);
    }
  }

  lemma SlideRayDistinct(b: Board, start: Position, c: Color, d: Offset, lo: int)
    requires OnBoard(start) && UnitDir(d) && lo >= 1
    ensures Distinct(SlideRay(b, start, c, d, lo))
  {
    var ray := SlideRay(b, start, c, d, lo);
    forall i, j | 0 <= i < j < |ray| ensures ray[i] != ray[j] {
    }
  }

  // ----- rook -----

  const Up := Offset(1, 0)
  const Left := Offset(0, -1)
  const Down := Offset(-1, 0)
  const Right := Offset(0, 1)

  /** Rook: the four orthogonal rays in the order up, left, down, right. */
  function RookMoves(b: Board, pos: Position): (r: seq<Move>)
    requires OnBoard(pos) && pos in b.squares
    ensures forall m :: m in r ==> m.start == pos && m.promotion.None? && OnBoard(m.end)
    ensures forall m :: m in r ==> m.end != pos && (m.end.row == pos.row || m.end.col == pos.col)
  {
    var c := b.squares[pos].color;
    SlideRay(b, pos, c, Up, 1) + SlideRay(b, pos, c, Left, 1)
      + SlideRay(b, pos, c, Down, 1) + SlideRay(b, pos, c, Right, 1)
  }

  lemma RookMovesSpec(b: Board, pos: Position, m: Move)
    requires OnBoard(pos) && pos in b.squares
    ensures var c := b.squares[pos].color;
            m in RookMoves(b, pos) <==>
              m.start == pos && m.promotion.None? &&
              (SlidesTo(b, pos, c, Up, m.end) || SlidesTo(b, pos, c, Left, m.end) ||
               SlidesTo(b, pos, c, Down, m.end) || SlidesTo(b, pos, c, Right, m.end))
  {
    var c := b.squares[pos].color;
    SlideRaySpec(b, pos, c, Up, 1, m);
    SlideRaySpec(b, pos, c, Left, 1, m);
    SlideRaySpec(b, pos, c, Down, 1, m);
    SlideRaySpec(b, pos, c, Right, 1, m);
  }

  /** The four rays point into disjoint quarters of the board, so the rook never
      lists a move twice. */
  lemma RookMovesDistinct(b: Board, pos: Position)
    requires OnBoard(pos) && pos in b.squares
    ensures Distinct(RookMoves(b, pos))
  {
    var c := b.squares[pos].color;
    var u := SlideRay(b, pos, c, Up, 1);
    var l := SlideRay(b, pos, c, Left, 1);
    var d := SlideRay(b, pos, c, Down, 1);
    var r := SlideRay(b, pos, c, Right, 1);
    SlideRayDistinct(b, pos, c, Up, 1);
    SlideRayDistinct(b, pos, c, Left, 1);
    SlideRayDistinct(b, pos, c, Down, 1);
    SlideRayDistinct(b, pos, c, Right, 1);
    forall m | true
      ensures m in u ==> m.end.row > pos.row && m.end.col == pos.col
      ensures m in l ==> m.end.row == pos.row && m.end.col < pos.col
      ensures m in d ==> m.end.row < pos.row && m.end.col == pos.col
      ensures m in r ==> m.end.row == pos.row && m.end.col > pos.col
    {
    }
    DistinctConcat(u, l);
    DistinctConcat(u + l, d);
    DistinctConcat(u + l + d, r);
  }

  // ----- bishop -----

  const UpRight := Offset(1, 1)
  const UpLeft := Offset(1, -1)
  const DownLeft := Offset(-1, -1)
  const DownRight := Offset(-1, 1)

  /** A bishop ray as written: every square to the edge, the board never consulted. */
  function BishopRay(start: Position, d: Offset, k: int): (r: seq<Move>)
    requires OnBoard(start) && UnitDir(d) && k >= 1
    decreases 8 - k
  {
    var cur := Square(start, d, k);
    if !OnBoard(cur) then [] else [Move(start, cur, None)] + BishopRay(start, d, k + 1)
  }

  /** An unblocked bishop ray is a rook-style ray over an empty board. */
  lemma {:induction false} BishopRayIsEmptySlide(start: Position, d: Offset, k: int, c: Color)
    requires OnBoard(start) && UnitDir(d) && k >= 1
    ensures BishopRay(start, d, k) == SlideRay(EmptyBoard, start, c, d, k)
    decreases 8 - k
  {
    if OnBoard(Square(start, d, k)) {
      BishopRayIsEmptySlide(start, d, k + 1, c);
    }
  }

  /** Bishop: the four diagonal rays in the order up-right, up-left, down-left, down-right. */
  function BishopMoves(pos: Position): (r: seq<Move>)
    requires OnBoard(pos)
    ensures forall m :: m in r ==> m.start == pos && m.promotion.None? && OnBoard(m.end)
    ensures forall m :: m in r ==> Abs(m.end.row - pos.row) == Abs(m.end.col - pos.col) >= 1
  {
    BishopRayIsEmptySlide(pos, UpRight, 1, White);
    BishopRayIsEmptySlide(pos, UpLeft, 1, White);
    BishopRayIsEmptySlide(pos, DownLeft, 1, White);
    BishopRayIsEmptySlide(pos, DownRight, 1, White);
    BishopRay(pos, UpRight, 1) + BishopRay(pos, UpLeft, 1)
      + BishopRay(pos, DownLeft, 1) + BishopRay(pos, DownRight, 1)
  }

  function Abs(x: int): int {
    if x < 0 then -x else x
  }

  /** `x` has the sign of the unit component `s`. */
  predicate Toward(x: int, s: int) {
    (s == 1 ==> x > 0) && (s == -1 ==> x < 0) && (s == 0 ==> x == 0)
  }

  predicate OnDiagonal(pos: Position, e: Position) {
    Abs(e.row - pos.row) == Abs(e.col - pos.col) >= 1
  }

  lemma EmptyBoardReaches(start: Position, c: Color, d: Offset, k: int)
    requires UnitDir(d)
    ensures Reaches(EmptyBoard, start, c, d, 1, k) <==> 1 <= k && OnBoard(Square(start, d, k))
  {
  }

  lemma DiagonalRaySpec(pos: Position, d: Offset, m: Move)
    requires OnBoard(pos) && UnitDir(d) && d.dr != 0 && d.dc != 0
    ensures m in BishopRay(pos, d, 1) <==>
              m.start == pos && m.promotion.None? && OnBoard(m.end) && OnDiagonal(pos, m.end) &&
              Toward(m.end.row - pos.row, d.dr) && Toward(m.end.col - pos.col, d.dc)
  {
    BishopRayIsEmptySlide(pos, d, 1, White);
    SlideRaySpec(EmptyBoard, pos, White, d, 1, m);
    if m.start == pos && m.promotion.None? && OnBoard(m.end) && OnDiagonal(pos, m.end) &&
       Toward(m.end.row - pos.row, d.dr) && Toward(m.end.col - pos.col, d.dc) {
      var k := Abs(m.end.row - pos.row);
      assert m.end == Square(pos, d, k);
      EmptyBoardReaches(pos, White, d, k);
    }
  }

  /** The bishop's moves are exactly the squares on its four diagonals, whatever stands there. */
  lemma BishopMovesSpec(pos: Position, m: Move)
    requires OnBoard(pos)
    ensures m in BishopMoves(pos) <==>
              m.start == pos && m.promotion.None? && OnBoard(m.end) && OnDiagonal(pos, m.end)
  {
    DiagonalRaySpec(pos, UpRight, m);
    DiagonalRaySpec(pos, UpLeft, m);
    DiagonalRaySpec(pos, DownLeft, m);
    DiagonalRaySpec(pos, DownRight, m);
  }

  lemma BishopMovesDistinct(pos: Position)
    requires OnBoard(pos)
    ensures Distinct(BishopMoves(pos))
  {
    var a := BishopRay(pos, UpRight, 1);
    var b := BishopRay(pos, UpLeft, 1);
    var c := BishopRay(pos, DownLeft, 1);
    var e := BishopRay(pos, DownRight, 1);
    BishopRayIsEmptySlide(pos, UpRight, 1, White);
    BishopRayIsEmptySlide(pos, UpLeft, 1, White);
    BishopRayIsEmptySlide(pos, DownLeft, 1, White);
    BishopRayIsEmptySlide(pos, DownRight, 1, White);
    SlideRayDistinct(EmptyBoard, pos, White, UpRight, 1);
    SlideRayDistinct(EmptyBoard, pos, White, UpLeft, 1);
    SlideRayDistinct(EmptyBoard, pos, White, DownLeft, 1);
    SlideRayDistinct(EmptyBoard, pos, White, DownRight, 1);
    forall m | true
      ensures m in a ==> m.end.row > pos.row && m.end.col > pos.col
      ensures m in b ==> m.end.row > pos.row && m.end.col < pos.col
      ensures m in c ==> m.end.row < pos.row && m.end.col < pos.col
      ensures m in e ==> m.end.row < pos.row && m.end.col > pos.col
    {
      DiagonalRaySpec(pos, UpRight, m);
      DiagonalRaySpec(pos, UpLeft, m);
      DiagonalRaySpec(pos, DownLeft, m);
      DiagonalRaySpec(pos, DownRight, m);
    }
    DistinctConcat(a, b);
    DistinctConcat(a + b, c);
    DistinctConcat(a + b + c, e);
  }

  /** A concrete departure from standard chess: a White bishop on a1 with a White
      pawn on b2 still lists b2 and c3, while a blocking slide along the same
      diagonal would list nothing. */
  lemma BishopIgnoresBlockers()
    ensures var b := Board(map[Position(1, 1) := Piece(White, Bishop), Position(2, 2) := Piece(White, Pawn)]);
            var from := Position(1, 1);
            && Move(from, Position(2, 2), None) in BishopMoves(from)
            && Move(from, Position(3, 3), None) in BishopMoves(from)
            && SlideRay(b, from, White, UpRight, 1) == []
  {
    var from := Position(1, 1);
    BishopMovesSpec(from, Move(from, Position(2, 2), None));
    BishopMovesSpec(from, Move(from, Position(3, 3), None));
  }

  // ----- queen -----

  /** Queen: the rook's list followed by the bishop's list. */
  function QueenMoves(b: Board, pos: Position): (r: seq<Move>)
    requires OnBoard(pos) && pos in b.squares
    ensures forall m :: m in r ==> m.start == pos && m.promotion.None? && OnBoard(m.end) && m.end != pos
    ensures forall m :: m in r ==>
              m.end.row == pos.row || m.end.col == pos.col || Abs(m.end.row - pos.row) == Abs(m.end.col - pos.col)
  {
    RookMoves(b, pos) + BishopMoves(pos)
  }

  /** Orthogonally the queen is blocked like a rook; diagonally it passes through
      everything like the bishop; it never promotes and never leaves the board. */
  lemma QueenMovesSpec(b: Board, pos: Position, m: Move)
    requires OnBoard(pos) && pos in b.squares
    ensures var c := b.squares[pos].color;
            m in QueenMoves(b, pos) <==>
              m.start == pos && m.promotion.None? &&
              (|| SlidesTo(b, pos, c, Up, m.end) || SlidesTo(b, pos, c, Left, m.end)
               || SlidesTo(b, pos, c, Down, m.end) || SlidesTo(b, pos, c, Right, m.end)
               || (OnBoard(m.end) && OnDiagonal(pos, m.end)))
  {
    RookMovesSpec(b, pos, m);
    BishopMovesSpec(pos, m);
  }
}
