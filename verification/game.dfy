/** The rules engine: a board plus whose turn it is and whether the game is over;
    check detection by scanning the board, and the legality filter that simulates
    each pseudo-legal move on a copy of the board. */
module ChessGame {
  import opened Wrappers
  import opened Pieces
  import opened Seqs
  import opened Moves

  /** `turn` is None once a resignation has cleared it. */
  datatype Game = Game(board: Board, turn: Option<Color>, over: bool)

  // ----- the starting arrangement -----

  function BackRank(col: int): PieceType {
    if col == 1 || col == 8 then Rook
    else if col == 2 || col == 7 then Knight
    else if col == 3 || col == 6 then Bishop
    else if col == 4 then Queen
    else King
  }

  function StartPiece(p: Position): Piece {
    var c := if p.row <= 2 then White else Black;
    if p.row == 2 || p.row == 7 then Piece(c, Pawn) else Piece(c, BackRank(p.col))
  }

  function StartBoard(): (b: Board)
    ensures WellFormed(b)
    ensures forall p :: p in b.squares && b.squares[p].kind == King ==> p.col == 5 && (p.row == 1 || p.row == 8)
  {
    var occupied := set r, c | 1 <= r <= 8 && 1 <= c <= 8 && (r <= 2 || r >= 7) :: Position(r, c);
    Board(map p | p in occupied :: StartPiece(p))
  }

  /** A new game: the standard arrangement with White to move. */
  function NewGame(): (g: Game)
    ensures g.turn == Some(White) && !g.over
    ensures WellFormed(g.board)
  {
    Game(StartBoard(), Some(White), false)
  }

  function GetTeamTurn(g: Game): Option<Color> {
    g.turn
  }

  function SetTeamTurn(g: Game, t: Option<Color>): (r: Game)
    ensures GetTeamTurn(r) == t
    ensures r.board == g.board && r.over == g.over
  {
    g.(turn := t)
  }

  /** Two games are equal when their boards and turns are. */
  predicate Equals(g: Game, h: Game) {
    g.board == h.board && g.turn == h.turn
  }

  /** Game equality is an equivalence that ignores the over flag. */
  lemma EqualsEquivalence(g: Game, h: Game, k: Game)
    ensures Equals(g, g)
    ensures Equals(g, h) ==> Equals(h, g)
    ensures Equals(g, h) && Equals(h, k) ==> Equals(g, k)
    ensures Equals(g, g.(over := !g.over))
  {
  }

  lemma SetTurnRoundTrip(g: Game, t: Option<Color>)
    ensures GetTeamTurn(SetTeamTurn(g, t)) == t
    ensures Equals(SetTeamTurn(g, t), g) <==> t == g.turn
    ensures Equals(SetTeamTurn(SetTeamTurn(g, t), g.turn), g)
  {
  }

  // ----- scanning the board row by row -----

  /** Position of a square in the scan order: row 1 columns 1..8, then row 2, ... */
  function IndexOf(p: Position): int {
    (p.row - 1) * 8 + (p.col - 1)
  }

  /** A square the scan can stand on: a board square, or row 9 column 1 once it is done. */
  predicate ScanPoint(p: Position) {
    OnBoard(p) || p == Position(9, 1)
  }

  /** The scan's next square: along the row, then to the start of the next row. */
  function Next(p: Position): (q: Position)
    requires OnBoard(p)
    ensures ScanPoint(q) && IndexOf(q) == IndexOf(p) + 1
  {
    if p.col < 8 then Position(p.row, p.col + 1) else Position(p.row + 1, 1)
  }

  lemma IndexOfInjective(p: Position, q: Position)
    requires ScanPoint(p) && ScanPoint(q) && IndexOf(p) == IndexOf(q)
    ensures p == q
  {
  }

  predicate HoldsKing(b: Board, p: Position, c: Color) {
    Get(b, p) == Some(Piece(c, King))
  }

  function FindKingFrom(b: Board, c: Color, p: Position): (r: Option<Position>)
    requires ScanPoint(p)
    ensures r.Some? ==> OnBoard(r.value) && HoldsKing(b, r.value, c) && IndexOf(p) <= IndexOf(r.value)
    ensures r.Some? ==> forall q :: OnBoard(q) && IndexOf(p) <= IndexOf(q) < IndexOf(r.value) ==> !HoldsKing(b, q, c)
    ensures r.None? ==> forall q :: OnBoard(q) && IndexOf(p) <= IndexOf(q) ==> !HoldsKing(b, q, c)
    decreases 64 - IndexOf(p)
  {
    if !OnBoard(p) then None
    else if HoldsKing(b, p, c) then Some(p)
    else
      var r := FindKingFrom(b, c, Next(p));
      assert forall q :: OnBoard(q) && IndexOf(q) == IndexOf(p) ==> q == p by {
        forall q | OnBoard(q) && IndexOf(q) == IndexOf(p) ensures q == p {
          IndexOfInjective(p, q);
        }
      }
      r
  }

  /** The first square in scan order holding the king of colour `c`, if any. */
  function FindKing(b: Board, c: Color): (r: Option<Position>)
    ensures r.Some? ==> OnBoard(r.value) && HoldsKing(b, r.value, c)
    ensures r.Some? ==> forall q :: OnBoard(q) && IndexOf(q) < IndexOf(r.value) ==> !HoldsKing(b, q, c)
    ensures r.None? <==> forall q :: OnBoard(q) ==> !HoldsKing(b, q, c)
  {
    FindKingFrom(b, c, Position(1, 1))
  }

  /** Some move of the piece on `from` ends on the king square. */
  predicate EnemyAttacksKing(b: Board, from: Position, king: Option<Position>)
    requires CanGenerate(b, from)
  {
    king.Some? && exists m :: m in PieceMoves(b, from) && m.end == king.value
  }

  /** The piece on `p` belongs to the other side and attacks `king`. */
  predicate AttacksFrom(b: Board, c: Color, king: Option<Position>, p: Position)
    requires PawnsCanStep(b, Opponent(c))
  {
    OnBoard(p) && p in b.squares && b.squares[p].color != c && EnemyAttacksKing(b, p, king)
  }

  function CheckScan(b: Board, c: Color, king: Option<Position>, p: Position): (r: bool)
    requires PawnsCanStep(b, Opponent(c)) && ScanPoint(p)
    ensures r <==> exists q :: IndexOf(p) <= IndexOf(q) && AttacksFrom(b, c, king, q)
    decreases 64 - IndexOf(p)
  {
    if !OnBoard(p) then false
    else
      var r := AttacksFrom(b, c, king, p) || CheckScan(b, c, king, Next(p));
      assert r <==> exists q :: IndexOf(p) <= IndexOf(q) && AttacksFrom(b, c, king, q) by {
        if q :| IndexOf(p) <= IndexOf(q) && AttacksFrom(b, c, king, q) {
          if IndexOf(q) == IndexOf(p) {
            IndexOfInjective(p, q);
          }
        }
      }
      r
  }

  /** Reference definition of check: some enemy piece on the board has a
      pseudo-legal move ending on the square `FindKing` reports. */
  ghost predicate Attacked(b: Board, c: Color)
    requires PawnsCanStep(b, Opponent(c))
  {
    exists p :: AttacksFrom(b, c, FindKing(b, c), p)
  }

  /** `isKingInCheckOnBoard`: scans every square for an enemy piece whose moves
      reach the king square. */
  function KingInCheckOnBoard(b: Board, c: Color): (r: bool)
    requires PawnsCanStep(b, Opponent(c))
    ensures r <==> Attacked(b, c)
  {
    FullScanIsAttack(b, c);
    CheckScan(b, c, FindKing(b, c), Position(1, 1))
  }

  /** The scan from the first square covers every square of the board. */
  lemma FullScanIsAttack(b: Board, c: Color)
    requires PawnsCanStep(b, Opponent(c))
    ensures CheckScan(b, c, FindKing(b, c), Position(1, 1)) <==> Attacked(b, c)
  {
    var king := FindKing(b, c);
    if Attacked(b, c) {
      var p :| AttacksFrom(b, c, king, p);
      assert IndexOf(Position(1, 1)) <= IndexOf(p);
    }
  }

  /** `isInCheck`: the colour's king is attacked on the live board; a colour
      without a king is never in check. */
  function IsInCheck(g: Game, c: Color): (r: bool)
    requires PawnsCanStep(g.board, Opponent(c))
    ensures r <==> Attacked(g.board, c)
    ensures (forall p :: OnBoard(p) ==> !HoldsKing(g.board, p, c)) ==> !r
  {
    KingInCheckOnBoard(g.board, c)
  }

  // ----- the legality filter -----

  /** The board copy `validMoves` builds: the moving piece is put on the end
      square, then the start square is emptied. */
  function Simulate(b: Board, m: Move): (r: Board)
    ensures Get(r, m.start).None?
    ensures m.end != m.start ==> Get(r, m.end) == Get(b, m.start)
    ensures forall q :: q != m.start && q != m.end ==> Get(r, q) == Get(b, q)
  {
    Put(Put(b, m.end, Get(b, m.start)), m.start, None)
  }

  lemma SimulateKeepsEnemyPawns(b: Board, m: Move)
    requires m.start in b.squares
    requires PawnsCanStep(b, Opponent(b.squares[m.start].color))
    ensures PawnsCanStep(Simulate(b, m), Opponent(b.squares[m.start].color))
  {
    var c := Opponent(b.squares[m.start].color);
    var s := Simulate(b, m);
    forall p | p in s.squares && s.squares[p].color == c && s.squares[p].kind == Pawn
      ensures PawnCanStep(p, c)
    {
      assert Get(s, p) == Some(s.squares[p]);
      if p == m.end {
      } else {
        assert Get(b, p) == Get(s, p);
      }
    }
  }

  /** The mover's king is not attacked once `m` is played on a copy of `b`. */
  predicate KeepsKingSafe(b: Board, m: Move)
    requires m.start in b.squares
    requires PawnsCanStep(b, Opponent(b.squares[m.start].color))
  {
    SimulateKeepsEnemyPawns(b, m);
    !KingInCheckOnBoard(Simulate(b, m), b.squares[m.start].color)
  }

  function FilterLegal(b: Board, pos: Position, moves: seq<Move>): (r: seq<Move>)
    requires pos in b.squares
    requires PawnsCanStep(b, Opponent(b.squares[pos].color))
    requires forall m :: m in moves ==> m.start == pos
    ensures IsSubsequence(r, moves)
    ensures forall m :: m in r <==> m in moves && KeepsKingSafe(b, m)
  {
    if |moves| == 0 then []
    else
      var rest := FilterLegal(b, pos, moves[1..]);
      assert forall m :: m in moves <==> m == moves[0] || m in moves[1..];
      if KeepsKingSafe(b, moves[0]) then [moves[0]] + rest else rest
  }

  /** `validMoves`: the piece's pseudo-legal moves, in their order, keeping
      exactly those after which its own king is not attacked; nothing for an
      empty square. */
  function ValidMoves(g: Game, pos: Position): (r: seq<Move>)
    requires WellFormed(g.board) && OnBoard(pos)
    ensures Get(g.board, pos).None? ==> r == []
    ensures pos in g.board.squares ==>
              var c := g.board.squares[pos].color;
              && IsSubsequence(r, PieceMoves(g.board, pos))
              && forall m :: m in r <==>
                   && m in PieceMoves(g.board, pos)
                   && PawnsCanStep(Simulate(g.board, m), Opponent(c))
                   && !Attacked(Simulate(g.board, m), c)
  {
    var b := g.board;
    if pos !in b.squares then []
    else
      var c := b.squares[pos].color;
      assert PawnsCanStep(b, Opponent(c));
      var moves := PieceMoves(b, pos);
      forall m | m in moves ensures PawnsCanStep(Simulate(b, m), Opponent(c)) {
        SimulateKeepsEnemyPawns(b, m);
      }
      FilterLegal(b, pos, moves)
  }

  lemma ValidMovesIgnoresTurn(g: Game, pos: Position, t: Option<Color>, over: bool)
    requires WellFormed(g.board) && OnBoard(pos)
    ensures ValidMoves(g.(turn := t, over := over), pos) == ValidMoves(g, pos)
  {
  }
}
