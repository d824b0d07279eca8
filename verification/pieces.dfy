/** Minimal stand-ins for the chess value classes the move calculators use:
    positions, pieces, moves and the board.  Only what the calculators and the
    game rely on is defined here. */
module Pieces {
  import opened Wrappers

  datatype Color = White | Black

  datatype PieceType = King | Queen | Bishop | Knight | Rook | Pawn

  datatype Piece = Piece(color: Color, kind: PieceType)

  /** A square, 1-based: row 1 is White's back rank, column 1 is file 'a'. */
  datatype Position = Position(row: int, col: int)

  datatype Move = Move(start: Position, end: Position, promotion: Option<PieceType>)

  /** The board maps occupied squares to their pieces; a missing key is an empty square. */
  datatype Board = Board(squares: map<Position, Piece>)

  /** A step between squares: a ray direction or a fixed jump. */
  datatype Offset = Offset(dr: int, dc: int)

  predicate OnBoard(p: Position) {
    1 <= p.row <= 8 && 1 <= p.col <= 8
  }

  function Opponent(c: Color): Color {
    if c == White then Black else White
  }

  function Get(b: Board, p: Position): Option<Piece> {
    if p in b.squares then Some(b.squares[p]) else None
  }

  /** Places a piece on a square, or empties it when given None. */
  function Put(b: Board, p: Position, piece: Option<Piece>): (r: Board)
    ensures Get(r, p) == piece
    ensures forall q :: q != p ==> Get(r, q) == Get(b, q)
  {
    match piece
    case Some(x) => Board(b.squares[p := x])
    case None => Board(b.squares - {p})
  }

  const EmptyBoard: Board := Board(map[])

  /** A square a piece of colour `c` may land on: empty or held by the other side. */
  predicate CanLand(b: Board, c: Color, p: Position) {
    Get(b, p).None? || Get(b, p).value.color != c
  }

  function Shift(p: Position, o: Offset): Position {
    Position(p.row + o.dr, p.col + o.dc)
  }

  // ----- pawn geometry -----

  function Forward(c: Color): int {
    if c == White then 1 else -1
  }

  function StartRow(c: Color): int {
    if c == White then 2 else 7
  }

  function PromotionRow(c: Color): int {
    if c == White then 8 else 1
  }

  /** The row a pawn of colour `c` standing on `p` steps onto is on the board.
      For a pawn on the board this means it is not on its promotion row. */
  predicate PawnCanStep(p: Position, c: Color) {
    1 <= p.row + Forward(c) <= 8
  }

  /** What the move calculators need of the square they are asked about. */
  predicate CanGenerate(b: Board, p: Position) {
    && OnBoard(p)
    && p in b.squares
    && (b.squares[p].kind == Pawn ==> PawnCanStep(p, b.squares[p].color))
  }

  /** Every pawn of colour `c` could be asked for its moves. */
  predicate PawnsCanStep(b: Board, c: Color) {
    forall p :: p in b.squares && b.squares[p].color == c && b.squares[p].kind == Pawn ==> PawnCanStep(p, c)
  }

  /** Only board squares are occupied, and no pawn stands on its own promotion row. */
  predicate WellFormed(b: Board) {
    && (forall p :: p in b.squares ==> OnBoard(p))
    && PawnsCanStep(b, White)
    && PawnsCanStep(b, Black)
  }
}
