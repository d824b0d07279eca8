/** Dispatch from a piece's type to its move calculator. */
module Moves {
  import opened Wrappers
  import opened Pieces
  import opened Sliders
  import opened Pawns
  import opened Jumpers

  /** The pseudo-legal moves of the piece on `pos`: its movement pattern over the
      board, ignoring whether its own king is left attacked. */
  function PieceMoves(b: Board, pos: Position): (r: seq<Move>)
    requires CanGenerate(b, pos)
    ensures forall m :: m in r ==> m.start == pos && OnBoard(m.end)
    ensures b.squares[pos].kind != Pawn ==> forall m :: m in r ==> m.promotion.None?
  {
    match b.squares[pos].kind
    case Pawn => PawnMoves(b, pos)
    case Rook => RookMoves(b, pos)
    case Bishop => BishopMoves(pos)
    case Queen => QueenMoves(b, pos)
    case King => KingMoves(b, pos)
    case Knight => KnightMoves(b, pos)
  }
}
