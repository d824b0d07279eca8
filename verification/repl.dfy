/** The client's move-entry parsing: algebraic squares, promotion piece names,
    1-based game-list indices and the arguments of the `move` command.
    Characters are treated as ASCII; Java's Unicode digit and case tables are
    not modelled. */
module Repl {
  import opened Wrappers
  import opened Pieces
  import opened JavaInt

  /** Java's `Character.getNumericValue` on ASCII: digits are 0..9, letters of
      either case are 10..35, anything else is -1. */
  function NumericValue(c: char): (r: int)
    ensures -1 <= r <= 35
    ensures 0 <= r <= 9 <==> '0' <= c <= '9'
    ensures '0' <= c <= '9' ==> r == c as int - '0' as int
  {
    if '0' <= c <= '9' then c as int - '0' as int
    else if 'a' <= c <= 'z' then c as int - 'a' as int + 10
    else if 'A' <= c <= 'Z' then c as int - 'A' as int + 10
    else -1
  }

  /** `parsePosition`: "e2" is row 2, column 5; anything else is null. */
  function ParsePosition(s: string): (r: Option<Position>)
    ensures |s| != 2 ==> r.None?
    ensures r.Some? ==> OnBoard(r.value)
    ensures r.Some? <==> |s| == 2 && 'a' <= s[0] <= 'h' && '1' <= s[1] <= '8'
  {
    if |s| != 2 then None
    else
      var col := s[0] as int - 'a' as int + 1;
      var row := NumericValue(s[1]);
      if col < 1 || col > 8 || row < 1 || row > 8 then None
      else Some(Position(row, col))
  }

  /** The square's name, file letter then rank digit. */
  function FormatPosition(p: Position): (r: string)
    requires OnBoard(p)
    ensures |r| == 2
  {
    [(('a' as int) + p.col - 1) as char, (('0' as int) + p.row) as char]
  }

  /** Parsing and naming squares are inverse to each other, in both directions. */
  lemma PositionRoundTrip(s: string, p: Position)
    requires OnBoard(p)
    ensures ParsePosition(s) == Some(p) <==> s == FormatPosition(p)
  {
    if ParsePosition(s) == Some(p) {
      assert s == [s[0], s[1]];
    }
  }

  /** ASCII `toUpperCase`: lower-case letters are shifted, everything else is kept. */
  function UpperChar(c: char): (r: char)
    ensures 'a' <= c <= 'z' ==> r as int == c as int - 32
    ensures !('a' <= c <= 'z') ==> r == c
  {
    if 'a' <= c <= 'z' then (c as int - 32) as char else c
  }

  function ToUpper(s: string): (r: string)
    ensures |r| == |s|
    ensures forall i :: 0 <= i < |s| ==> r[i] == UpperChar(s[i])
  {
    seq(|s|, i requires 0 <= i < |s| => UpperChar(s[i]))
  }

  lemma ToUpperIdempotent(s: string)
    ensures ToUpper(ToUpper(s)) == ToUpper(s)
  {
  }

  /** The enum constant's name. */
  function PieceName(k: PieceType): (r: string)
    ensures |r| >= 4
    ensures ToUpper(r) == r
  {
    match k
    case King => "KING"
    case Queen => "QUEEN"
    case Bishop => "BISHOP"
    case Knight => "KNIGHT"
    case Rook => "ROOK"
    case Pawn => "PAWN"
  }

  /** `parsePieceType`: the piece whose name equals the upper-cased input;
      null or an unknown name gives null. */
  function ParsePieceType(s: Option<string>): (r: Option<PieceType>)
    ensures s.None? ==> r.None?
    ensures forall k :: r == Some(k) <==> s.Some? && ToUpper(s.value) == PieceName(k)
  {
    if s.None? then None
    else
      var u := ToUpper(s.value);
      if u == "KING" then Some(King)
      else if u == "QUEEN" then Some(Queen)
      else if u == "BISHOP" then Some(Bishop)
      else if u == "KNIGHT" then Some(Knight)
      else if u == "ROOK" then Some(Rook)
      else if u == "PAWN" then Some(Pawn)
      else None
  }

  /** Every piece's name parses back to it, in any letter case. */
  lemma PieceNameRoundTrip(k: PieceType, s: string)
    requires ToUpper(s) == PieceName(k)
    ensures ParsePieceType(Some(s)) == Some(k)
    ensures ParsePieceType(Some(PieceName(k))) == Some(k)
  {
  }

  predicate IsDigit(c: char) {
    '0' <= c <= '9'
  }

  predicate AllDigits(s: string) {
    forall i :: 0 <= i < |s| ==> IsDigit(s[i])
  }

  /** The value of a string of decimal digits, most significant first. */
  function DigitsValue(s: string): (r: nat)
    requires AllDigits(s)
  {
    if |s| == 0 then 0
    else DigitsValue(s[..|s| - 1]) * 10 + (s[|s| - 1] as int - '0' as int)
  }

  /** `s` is a decimal numeral for `v`: an optional sign, then at least one digit. */
  predicate Numeral(s: string, v: int) {
    if |s| > 0 && (s[0] == '-' || s[0] == '+') then
      |s| > 1 && AllDigits(s[1..]) &&
      v == (if s[0] == '-' then -(DigitsValue(s[1..]) as int) else DigitsValue(s[1..]) as int)
    else
      |s| > 0 && AllDigits(s) && v == DigitsValue(s)
  }

  /** Java's `Integer.parseInt` on ASCII input: an optional sign, at least one
      digit, and a value within `int`; anything else is a NumberFormatException. */
  function ParseInt(s: string): (r: Option<int>)
    ensures r.Some? ==> IntMin <= r.value <= IntMax
    ensures |s| == 0 ==> r.None?
    ensures AllDigits(s) && |s| > 0 && DigitsValue(s) <= IntMax ==> r == Some(DigitsValue(s))
    ensures forall v :: r == Some(v) <==> Numeral(s, v) && IntMin <= v <= IntMax
  {
    if |s| == 0 then None
    else if s[0] == '-' || s[0] == '+' then
      var digits := s[1..];
      if |digits| == 0 || !AllDigits(digits) then None
      else
        var v: int := if s[0] == '-' then -(DigitsValue(digits) as int) else DigitsValue(digits);
        if v < IntMin || v > IntMax then None else Some(v)
    else if !AllDigits(s) then None
    else
      var v := DigitsValue(s);
      if v > IntMax then None else Some(v)
  }

  function DigitChar(d: int): (r: char)
    requires 0 <= d <= 9
    ensures IsDigit(r) && r as int - '0' as int == d
  {
    ('0' as int + d) as char
  }

  /** The decimal numeral of a natural number, as `Integer.toString` writes it. */
  function ToDecimal(n: nat): (r: string)
    ensures |r| > 0
    decreases n
  {
    if n < 10 then [DigitChar(n)]
    else ToDecimal(n / 10) + [DigitChar(n % 10)]
  }

  /** A numeral is all digits and denotes the number it was written from. */
  lemma {:induction false} DecimalValue(n: nat)
    ensures AllDigits(ToDecimal(n))
    ensures DigitsValue(ToDecimal(n)) == n
    decreases n
  {
    var s := ToDecimal(n);
    if n >= 10 {
      DecimalValue(n / 10);
      assert s[..|s| - 1] == ToDecimal(n / 10);
    }
  }

  /** `parseInt` reads back every non-negative `int` written in decimal, and its negation after a minus sign. */
  lemma ParseDecimal(n: nat)
    requires n <= IntMax
    ensures ParseInt(ToDecimal(n)) == Some(n)
    ensures ParseInt("-" + ToDecimal(n)) == Some(-(n as int))
  {
    DecimalValue(n);
    assert ("-" + ToDecimal(n))[1..] == ToDecimal(n);
  }

  /** `findGameByList`: the game at a 1-based position of the last listing;
      null when there is no listing, it is empty, the index is not a number or
      it is out of range. */
  function FindGameByList<T>(games: Option<seq<T>>, index: string): (r: Option<T>)
    ensures r.Some? <==> games.Some? && ParseInt(index).Some? && 1 <= ParseInt(index).value <= |games.value|
    ensures r.Some? ==> r.value == games.value[ParseInt(index).value - 1]
  {
    if games.None? || |games.value| == 0 then None
    else match ParseInt(index)
      case None => None
      case Some(n) => if n < 1 || n > |games.value| then None else Some(games.value[n - 1])
  }

  /** The numeral of a listed position finds the game shown there. */
  lemma FindGameByNumber<T>(games: seq<T>, i: nat)
    requires 1 <= i <= |games| && i <= IntMax
    ensures FindGameByList(Some(games), ToDecimal(i)) == Some(games[i - 1])
  {
    ParseDecimal(i);
  }

  const UsageError := "Error: Invalid move. Usage: move <START> <END> [PROMOTION]"
  const PositionError := "Error: Invalid position. Use format 'e2'."

  /** The argument checks of the `move` command (`args[0]` is the command word):
      the move it would send, or the message the client prints. An unknown
      promotion name is dropped rather than reported. */
  function MoveArgs(args: seq<string>): (r: Result<Move>)
    ensures |args| < 3 <==> r == Err(UsageError)
    ensures |args| >= 3 && r.Err? ==> r == Err(PositionError)
    ensures r.Ok? <==> |args| >= 3 && ParsePosition(args[1]).Some? && ParsePosition(args[2]).Some?
    ensures r.Ok? ==> OnBoard(r.value.start) && OnBoard(r.value.end)
    ensures r.Ok? && |args| == 3 ==> r.value.promotion.None?
    ensures r.Ok? && |args| > 3 ==> r.value.promotion == ParsePieceType(Some(args[3]))
  {
    if |args| < 3 then Err(UsageError)
    else
      var promotion := if |args| > 3 then Some(ToUpper(args[3])) else None;
      var start := ParsePosition(args[1]);
      var end := ParsePosition(args[2]);
      if start.None? || end.None? then Err(PositionError)
      else
        ToUpperIdempotent(if |args| > 3 then args[3] else "");
        Ok(Move(start.value, end.value, if promotion.Some? then ParsePieceType(promotion) else None))
  }

  /** A move typed back in the client's notation is read as that move. */
  lemma MoveArgsRoundTrip(m: Move, word: string)
    requires OnBoard(m.start) && OnBoard(m.end)
    requires m.promotion.Some? ==> ToUpper(word) == PieceName(m.promotion.value)
    ensures m.promotion.None? ==> MoveArgs(["move", FormatPosition(m.start), FormatPosition(m.end)]) == Ok(m)
    ensures m.promotion.Some? ==> MoveArgs(["move", FormatPosition(m.start), FormatPosition(m.end), word]) == Ok(m)
  {
    PositionRoundTrip(FormatPosition(m.start), m.start);
    PositionRoundTrip(FormatPosition(m.end), m.end);
    if m.promotion.Some? {
      PieceNameRoundTrip(m.promotion.value, word);
    }
  }
}
