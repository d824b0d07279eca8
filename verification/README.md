# Chess rules and game server, modelled in Dafny

This project models the core of a two-player chess application (a Java
client/server project). The model has these parts:

- **Move calculators.** Each piece kind has a calculator that lists its candidate moves from a square: pawn, rook, bishop, queen, king and knight.
- **`ChessGame`.** It filters those moves down to the ones that do not leave the mover's king attacked, and it answers "is this side in check".
- **Server services.** `GameService` and `UserService` run over the in-memory data access object `MemDataAcess`.
- **Websocket `ConnectionManager`.** It chooses who receives a broadcast and drops closed sessions.
- **Client `Repl` helpers.** These parse squares such as `e2`, promotion piece names and game-list numbers.
- **Server exception handlers.** They turn an error message into an HTTP status.

Everything is a pure function over immutable values. The types are:

- a board is a map from occupied squares to pieces;
- the store is three maps and a counter;
- the connection registry is a map from token to connection.

A Java exception becomes an `Err(message)` result. A Java `null` becomes `None`.

Modules, one per file:

| file | module | models |
|---|---|---|
| wrappers.dfy | Wrappers | `Option`, `Result` |
| java_int.dfy | JavaInt | Java `int` range and `n++` wrap-around |
| pieces.dfy | Pieces | positions, pieces, moves, boards |
| seqs.dfy | Seqs | distinctness and subsequences |
| sliders.dfy | Sliders | rook, bishop and queen calculators |
| pawn.dfy | Pawns | pawn calculator |
| jumpers.dfy | Jumpers | king and knight calculators |
| moves.dfy | Moves | dispatch from piece kind to calculator |
| game.dfy | ChessGame | start position, turn, king search, check, legal moves |
| store.dfy | MemStore | `MemDataAcess` |
| game_service.dfy | GameService | `GameService` |
| user_service.dfy | UserService | `UserService` |
| connections.dfy | Connections | `ConnectionManager` |
| repl.dfy | Repl | `Repl` parsing helpers |
| http_errors.dfy | HttpErrors | `Server` exception handlers |

Three things are parameters of the model:

- **Password check.** The bcrypt comparison is an uninterpreted function `checkpw`.
- **Auth tokens.** Random UUIDs are given as arguments.
- **Move engine.** `ChessGame.makeMove` is a function argument `engine` of `GameService.MakeMove` that may fail with a message.

## Model

| member | source | states |
|---|---|---|
| Sliders.SlideRay | shared/src/main/java/chess/calculators/RookMovesCalculator.java:17-31 | A ray's moves all start at the piece, carry no promotion, and end on different board squares along the ray. The i-th move ends i steps beyond the first square, so the squares come nearest first. |
| Sliders.SlideRaySpec | shared/src/main/java/chess/calculators/RookMovesCalculator.java:17-31 | A ray lists exactly the squares up to and including the first occupied one. The first occupied square is listed only if it holds an enemy piece. |
| Sliders.SlideRayDistinct | shared/src/main/java/chess/calculators/RookMovesCalculator.java:17-31 | A ray never lists the same move twice. |
| Sliders.RookMoves | shared/src/main/java/chess/calculators/RookMovesCalculator.java:13-86 | Every rook move leaves the start square and stays on its row or its column. |
| Sliders.RookMovesSpec | shared/src/main/java/chess/calculators/RookMovesCalculator.java:13-86 | A move is a rook move iff it slides up, left, down or right to a reachable square. Reachable means empty squares before it, and an empty or enemy square at the end. |
| Sliders.RookMovesDistinct | shared/src/main/java/chess/calculators/RookMovesCalculator.java:13-86 | The four rays point in different directions, so the rook's list has no duplicate move. |
| Sliders.BishopRayIsEmptySlide | shared/src/main/java/chess/calculators/BishopMovesCalculator.java:16-23 | The bishop's diagonal walk equals a slide on an empty board: it ignores every piece. |
| Sliders.BishopMoves | shared/src/main/java/chess/calculators/BishopMovesCalculator.java:12-56 | Every bishop move ends on a board square on one of its diagonals. |
| Sliders.BishopMovesSpec | shared/src/main/java/chess/calculators/BishopMovesCalculator.java:12-56 | A move is a bishop move iff it ends on the board on a diagonal of the start square, whatever stands on the board. |
| Sliders.BishopMovesDistinct | shared/src/main/java/chess/calculators/BishopMovesCalculator.java:12-56 | The bishop's list has no duplicate move. |
| Sliders.BishopIgnoresBlockers | shared/src/main/java/chess/calculators/BishopMovesCalculator.java:16-23 | On a board with a bishop on a1 and its own pawn on b2, the bishop still lists b2 and c3. A blocked slide from a1 would list nothing. |
| Sliders.QueenMoves | shared/src/main/java/chess/calculators/QueenMovesCalculator.java:18-28 | Every queen move starts at the piece, has no promotion, and ends on another board square on the same row, column or diagonal. |
| Sliders.QueenMovesSpec | shared/src/main/java/chess/calculators/QueenMovesCalculator.java:18-28 | A move is a queen move iff it is a rook move (a clear orthogonal slide to an empty or enemy square) or a bishop move (any board square on a diagonal). |
| Pawns.PawnMoves | shared/src/main/java/chess/calculators/PawnMovesCalculator.java:10-84 | Every pawn move starts at the pawn and lands on a board square that is empty or enemy-held. |
| Pawns.PawnMovesSpec | shared/src/main/java/chess/calculators/PawnMovesCalculator.java:10-84 | A move is a pawn move iff it is one of three kinds, with a promotion exactly when it reaches the last row (one per piece: queen, rook, bishop, knight). The kinds: a step forward onto an empty square; a double step from the start row over two empty squares; a diagonal forward capture of an enemy piece. |
| Pawns.PawnStraightMoves | shared/src/main/java/chess/calculators/PawnMovesCalculator.java:29-81 | Straight pawn moves land on empty squares. Sideways ones capture an enemy. A double step never promotes. |
| Pawns.FanOutSpec | shared/src/main/java/chess/calculators/PawnMovesCalculator.java:37-44 | A square on the last row yields one move per promotion piece; any other square yields one plain move. |
| Pawns.PawnMovesDistinct | shared/src/main/java/chess/calculators/PawnMovesCalculator.java:10-84 | The pawn's list has no duplicate move. |
| Jumpers.AroundMoves | shared/src/main/java/chess/calculators/KingMovesCalculator.java:21-39 | Walking an offset table yields at most one move per offset. Each move starts at the piece, ends on the board, and lands on an empty or enemy square. |
| Jumpers.AroundMovesSpec | shared/src/main/java/chess/calculators/KingMovesCalculator.java:21-39 | A move is produced iff its end is one of the offsets from the start, on the board, and empty or enemy-held. |
| Jumpers.AroundMovesDistinct | shared/src/main/java/chess/calculators/KingMovesCalculator.java:21-39 | An offset table without repeats yields a move list without repeats. |
| Jumpers.KingOffsetsAreNeighbours | shared/src/main/java/chess/calculators/KingMovesCalculator.java:18 | The king's eight offsets reach exactly the adjacent squares. |
| Jumpers.KingMoves | shared/src/main/java/chess/calculators/KingMovesCalculator.java:14-41 | A king has at most eight moves. |
| Jumpers.KingMovesSpec | shared/src/main/java/chess/calculators/KingMovesCalculator.java:14-41 | A move is a king move iff it goes to an adjacent board square that is empty or enemy-held. |
| Jumpers.KingMovesDistinct | shared/src/main/java/chess/calculators/KingMovesCalculator.java:14-41 | The king's list has no duplicate move. |
| Jumpers.KnightOffsets | shared/src/main/java/chess/calculators/KnightMovesCalculator.java:12 | The knight table has eight distinct L-shaped jumps and is closed under reversal. |
| Jumpers.KnightOffsetsComplete | shared/src/main/java/chess/calculators/KnightMovesCalculator.java:12 | The table holds every L-shaped jump. |
| Jumpers.KnightMoves | shared/src/main/java/chess/calculators/KnightMovesCalculator.java:11-15 | A knight has at most eight moves. |
| Jumpers.KnightMovesSpec | shared/src/main/java/chess/calculators/KnightMovesCalculator.java:11-15 | A move is a knight move iff it is an L-shaped jump to a board square that is empty or enemy-held. |
| Jumpers.KnightMovesDistinct | shared/src/main/java/chess/calculators/KnightMovesCalculator.java:11-15 | The knight's list has no duplicate move. |
| Moves.PieceMoves | shared/src/main/java/chess/calculators/PieceMovesCalculator.java:6-8 | Whichever calculator runs, its moves start at the piece and end on the board. Only pawns propose promotions. |
| ChessGame.StartBoard | shared/src/main/java/chess/ChessGame.java:20-24 | The start position is well formed: only board squares are occupied, and no pawn is on its last row. The kings stand on the e-file. |
| ChessGame.NewGame | shared/src/main/java/chess/ChessGame.java:20-24 | A new game has White to move and is not over. |
| ChessGame.SetTeamTurn | shared/src/main/java/chess/ChessGame.java:29-40 | Setting the turn is read back by getTeamTurn (`ChessGame.GetTeamTurn`, a field read) and leaves the board and the over flag alone. |
| ChessGame.EqualsEquivalence | shared/src/main/java/chess/ChessGame.java:208-214 | Game equality (`ChessGame.Equals`: same board, same turn) is reflexive, symmetric and transitive, and it ignores the over flag. |
| ChessGame.SetTurnRoundTrip | shared/src/main/java/chess/ChessGame.java:208-214 | Games are equal when board and turn are. Setting the turn gives an equal game iff the turn is unchanged. Setting it back restores an equal game. |
| ChessGame.FindKing | shared/src/main/java/chess/ChessGame.java:153-166 | The king search returns the side's king that comes first in row-then-column order. It returns null iff the side has no king on the board. |
| ChessGame.CheckScan | shared/src/main/java/chess/ChessGame.java:94-105 | Scanning from a square reports true iff some later square holds an enemy piece whose moves end on the king's square. |
| ChessGame.KingInCheckOnBoard | shared/src/main/java/chess/ChessGame.java:89-144 | A side is in check on a board iff some enemy piece has a move ending on the side's first-found king. The per-piece test `enemyAttacksKing` is the predicate `ChessGame.EnemyAttacksKing`. |
| ChessGame.IsInCheck | shared/src/main/java/chess/ChessGame.java:124-126 | isInCheck is the attack test on the game's own board. A side with no king is never in check. |
| ChessGame.FilterLegal | shared/src/main/java/chess/ChessGame.java:67-78 | The filter keeps candidates in their original order. It keeps a move iff, after the move is played on a copy, the mover's king is not attacked. |
| ChessGame.Simulate | shared/src/main/java/chess/ChessGame.java:68-73 | The board copy has the start square empty and the moving piece on the end square. Every other square is as before. |
| ChessGame.ValidMoves | shared/src/main/java/chess/ChessGame.java:57-80 | An empty square has no valid moves. Otherwise the valid moves are, in order, the piece's moves after which its own side is not in check. |
| ChessGame.SimulateKeepsEnemyPawns | shared/src/main/java/chess/ChessGame.java:68-73 | Playing a move on the copy keeps every enemy pawn able to step, so the check test can ask for its moves. |
| ChessGame.ValidMovesIgnoresTurn | shared/src/main/java/chess/ChessGame.java:57-80 | Valid moves do not depend on whose turn it is or on the game being over. |
| JavaInt.Inc32 | server/src/main/java/dataaccess/MemDataAcess.java:45 | The id counter's `++` stays within Java `int`. It adds one, except that the largest `int` wraps to the smallest. |
| MemStore.FreshInvariant | server/src/main/java/dataaccess/MemDataAcess.java:14-17 | The store invariant holds of a fresh store (first id 1). Every entry is keyed by its own name, id or token, and every stored id lies below the counter. |
| MemStore.Clear | server/src/main/java/dataaccess/MemDataAcess.java:20-24 | clear empties users, games and auths but keeps the game-id counter. |
| MemStore.CreateUser | server/src/main/java/dataaccess/MemDataAcess.java:27-32 | createUser fails with "Username already exists" iff the name is taken, and then changes nothing. A new name always succeeds, and exactly that user is added. |
| MemStore.GetUser | server/src/main/java/dataaccess/MemDataAcess.java:35-41 | getUser returns the stored user. A missing name fails with "Username doesn't exist". |
| MemStore.FindUser | server/src/main/java/dataaccess/SQLDataAccess.java:100-118 | The user lookup the services are written against: the stored user, or null iff the name is not stored. |
| MemStore.CreateGame | server/src/main/java/dataaccess/MemDataAcess.java:44-54 | A new game takes the counter's id, has both seats free and a fresh engine, and is stored under its id. The counter moves on by a Java `++`. |
| MemStore.CreateGameFresh | server/src/main/java/dataaccess/MemDataAcess.java:44-54 | Below the `int` limit the id handed out is unused, and the store invariant is kept. |
| MemStore.CreateGameConsecutive | server/src/main/java/dataaccess/MemDataAcess.java:45 | Two creations hand out consecutive, distinct ids and store both games. |
| MemStore.CreateGameWraps | server/src/main/java/dataaccess/MemDataAcess.java:45 | At the largest `int` the counter wraps to the smallest. |
| MemStore.GetGame | server/src/main/java/dataaccess/MemDataAcess.java:57-63 | getGame returns the stored game. An unknown id fails with "Game doesn't exist". |
| MemStore.ListGames | server/src/main/java/dataaccess/MemDataAcess.java:66-68 | The listing holds every stored game and nothing else. |
| MemStore.UpdateGame | server/src/main/java/dataaccess/MemDataAcess.java:71-77 | updateGame replaces exactly the entry for that id. An unknown id fails with "Game doesn't exist". |
| MemStore.UpdateGameKeepsInvariant | server/src/main/java/dataaccess/MemDataAcess.java:71-77 | Storing a record under its own id keeps the store invariant. |
| MemStore.CreateAuth | server/src/main/java/dataaccess/MemDataAcess.java:80-86 | createAuth stores and returns an auth pairing the given token with the username. |
| MemStore.GetAuth | server/src/main/java/dataaccess/MemDataAcess.java:89-91 | getAuth returns the stored auth, or null for an unknown token. |
| MemStore.DeleteAuth | server/src/main/java/dataaccess/MemDataAcess.java:94-100 | deleteAuth removes exactly that token. An unknown one fails with "Auth doesn't exist". |
| MemStore.CreateThenDeleteAuth | server/src/main/java/dataaccess/MemDataAcess.java:80-100 | Deleting a freshly created auth restores the store. |
| GameService.Authenticate | server/src/main/java/service/GameService.java:25-32 | authenticate returns the auth for a known token. A null or unknown token is "unauthorized". |
| GameService.ListGames | server/src/main/java/service/GameService.java:34-37 | An unauthorized caller gets "unauthorized", and an authorized one always gets the listing. The listing holds every stored game and nothing else. |
| GameService.CreateGame | server/src/main/java/service/GameService.java:39-49 | Authentication comes first. A null or empty name is "bad request" and creates nothing. Otherwise the store's new game id is returned. |
| GameService.CreateThenGet | server/src/main/java/service/GameService.java:39-49 | Below the counter's wrap-around, the id returned by createGame was unused. It fetches a game with that name and both seats free, and the store invariant is kept. |
| GameService.JoinGame | server/src/main/java/service/GameService.java:51-88 | The checks run in this order: "unauthorized"; "Game doesn't exist"; a colour other than WHITE or BLACK is "bad request"; an occupied seat is "already taken". On a well-formed store an authorized join of a free WHITE or BLACK seat of a stored game succeeds. On success only the chosen seat changes, to the caller. |
| GameService.JoinGameOnlySeat | server/src/main/java/service/GameService.java:65-84 | After joining, the caller holds the chosen seat. The other seat, the name, the engine and every other game are unchanged. |
| GameService.CheckTurn | server/src/main/java/service/GameService.java:113-131 | The guard passes iff the game is not over and the caller holds the seat of the side to move (the black seat whenever the turn is not White). A finished game is "Game is over". Otherwise a wrong caller gets the "Not your turn" message that names the side to move. |
| GameService.MakeMove | server/src/main/java/service/GameService.java:90-111 | A rejection (auth, unknown game, turn guard, engine error prefixed "Invalid move: ") stores nothing. A caller who passes the turn guard, with a move the engine accepts, always succeeds. Success stores the engine's game under the same id with the seats and name kept. |
| GameService.LeaveGame | server/src/main/java/service/GameService.java:137-152 | Leaving frees the white seat if the caller holds it, otherwise the black seat. An observer changes nothing. |
| GameService.JoinThenLeave | server/src/main/java/service/GameService.java:137-152 | Joining a seat and then leaving restores the store. The one exception: a caller already seated as white who joins black would free white first. |
| GameService.Resign | server/src/main/java/service/GameService.java:154-180 | An observer gets "Observer cannot resign". A finished game gets "Game is already over". A seated caller resigning a game that is not over always succeeds. The game is then marked over with no side to move, and nothing else changes. |
| GameService.ResignEndsGame | server/src/main/java/service/GameService.java:154-180 | After a resignation nobody can resign that game again. Every later move in it is refused with "Game is over". The seats are kept. |
| UserService.RegisterAsWritten | server/src/main/java/service/UserService.java:18-28 | Over the in-memory store, register as written never succeeds. A new name fails with "Username doesn't exist". |
| UserService.RegisterAsWrittenRejectsNewUser | server/src/main/java/service/UserService.java:21-23 | A complete request for a new name on a fresh store is rejected. |
| UserService.Register | server/src/main/java/service/UserService.java:18-28 | A null field is "bad request". An existing name is "already taken" and stores nothing. Otherwise the user is stored and an auth for that name is returned. |
| UserService.LoginAsWritten | server/src/main/java/service/UserService.java:30-42 | As written over the in-memory store, an unknown name fails with "Username doesn't exist". |
| UserService.LoginAsWrittenUnknownUser | server/src/main/java/service/UserService.java:35-38 | Logging in an unknown name on a fresh store gives the store's message. |
| UserService.Login | server/src/main/java/service/UserService.java:30-42 | A null field is "bad request". An unknown name or a failed password check is "unauthorized" with no auth made. A known name whose password check passes always succeeds, adding exactly one auth for the user. |
| UserService.Logout | server/src/main/java/service/UserService.java:44-54 | A null token is "bad request" and an unknown one is "unauthorized". Logout succeeds iff the token is stored, and then exactly that token is deleted. |
| UserService.RegisterLoginLogout | server/src/main/java/service/UserService.java:18-54 | After register, a login with the accepted password succeeds. Logging that session out makes its token unauthorized, while the registration token stays valid. |
| UserService.LogoutTwice | server/src/main/java/service/UserService.java:44-54 | A second logout with the same token is "unauthorized". |
| Connections.Add | server/src/main/java/server/websocket/ConnectionManager.java:14-17 | add stores the connection under its token, replacing an earlier one. Other entries are kept. |
| Connections.Remove | server/src/main/java/server/websocket/ConnectionManager.java:19-21 | remove deletes exactly that key. Removing an absent key changes nothing. |
| Connections.AddThenRemove | server/src/main/java/server/websocket/ConnectionManager.java:14-21 | Adding a new token and removing it restores the registry. |
| Connections.Broadcast | server/src/main/java/server/websocket/ConnectionManager.java:23-39 | The message is sent to exactly the open connections of the game other than the excluded token; a null exclusion excludes nobody. Each recipient gets the same message. Afterwards exactly the closed connections are gone. |
| Repl.NumericValue | client/src/main/java/client/Repl.java:430 | A character's numeric value is 0-9 exactly for a decimal digit, and then it is the digit's value. |
| Repl.ParsePosition | client/src/main/java/client/Repl.java:417-441 | Over ASCII, a square parses iff it is two characters, a file letter a-h then a rank digit 1-8. The result is always on the board. |
| Repl.PositionRoundTrip | client/src/main/java/client/Repl.java:417-441 | Parsing and naming squares are inverses in both directions. |
| Repl.UpperChar | client/src/main/java/client/Repl.java:449 | Upper-casing turns a lower-case ASCII letter into its capital and leaves every other character alone. |
| Repl.ToUpper | client/src/main/java/client/Repl.java:449 | ASCII toUpperCase keeps the length and upper-cases each character in place. |
| Repl.ParsePieceType | client/src/main/java/client/Repl.java:443-454 | A piece name parses iff its ASCII upper-cased form is an enum name. Null gives null. |
| Repl.PieceNameRoundTrip | client/src/main/java/client/Repl.java:443-454 | Every enum name parses back to its piece, in any letter case. |
| Repl.ParseInt | client/src/main/java/client/Repl.java:303 | parseInt yields v iff the text is an optional sign and then at least one digit, denoting v, and v lies within `int`. Everything else is rejected, including the empty string. |
| Repl.DecimalValue | client/src/main/java/client/Repl.java:303 | A decimal numeral is all digits and denotes the number it was written from. |
| Repl.ParseDecimal | client/src/main/java/client/Repl.java:303 | parseInt reads back every non-negative `int` written in decimal, and its negative after a minus sign. |
| Repl.FindGameByList | client/src/main/java/client/Repl.java:297-319 | A game is found iff there is a listing and the text parses to a number from 1 to the listing's length. The game found is the one at that 1-based position. |
| Repl.FindGameByNumber | client/src/main/java/client/Repl.java:297-319 | The 1-based number of a listed game finds exactly that game. |
| Repl.MoveArgs | client/src/main/java/client/Repl.java:379-402 | Fewer than three words is the usage error. A move is built iff both squares parse; otherwise the message is the position error. Its promotion is absent without a fourth word, and otherwise is that word parsed case-insensitively. |
| Repl.MoveArgsRoundTrip | client/src/main/java/client/Repl.java:379-402 | A move typed back as "move e2 e4 [piece]" is read as that same move. |
| HttpErrors.DataAccessReply | server/src/main/java/server/Server.java:67-81 | The statuses: "Error: bad request" and "Error: Game doesn't exist" give 400; "Error: unauthorized" gives 401; "Error: already taken" gives 403. Each echoes the message. Any other message sets nothing. |
| HttpErrors.GenericReply | server/src/main/java/server/Server.java:83-87 | Any other exception gives 500 with "Error: " and its message ("Error: null" for none). |
| HttpErrors.HandlersDisjoint | server/src/main/java/server/Server.java:67-87 | The two handlers never produce the same reply. |
| HttpErrors.RaisedStatus | server/src/main/java/server/Server.java:67-81 | A prefixed service message gets a status iff it is one of the four named messages. Messages such as "Username doesn't exist" leave the response untouched. |

## Left out

- `ChessGame.makeMove`, `isInCheckmate` and `isInStalemate` throw "Not implemented" in the source. They are not modelled. `GameService.MakeMove` takes the engine as a parameter, and an engine failure becomes "Invalid move: " plus its message.
- GameService.MakeMove: an unchecked exception from the engine (the source's "Not implemented" `RuntimeException`) escapes `makeMove` instead of being reported. The model has only the checked failure.
- The exception class `DataAccessException`, `ChessBoard`, `ChessPiece`, `ChessPosition`, `ChessMove` and `CalculatorHelper` are not part of this model. They are replaced by minimal stand-ins:
  - the board is a map;
  - `CalculatorHelper.checkAround` is taken to apply the king's rule: on the board, and not held by the mover's side.
- Sliders.RookMoves, Sliders.QueenMoves, Jumpers.KingMoves, Jumpers.KnightMoves: require a piece on the start square, where the model takes the mover's colour from. The calculators are only called through a piece standing on that square, so every call site meets this. The rook calculator reads the colour only when a ray meets a piece, and `CalculatorHelper`, which the knight calls, is not part of this model.
- Pawns.PawnMoves: also requires the square one step forward to have a row on the board. The source builds its capture squares on that row without a range check, and what `ChessBoard` does with row 0 or 9 is not part of this model.
- ChessGame.ValidMoves: requires a well-formed board (pieces only on board squares, no pawn on its own last row), for the same reason.
- ChessGame.CheckScan, ChessGame.KingInCheckOnBoard, ChessGame.IsInCheck, ChessGame.FilterLegal: require every enemy pawn to stand off its last row, so that its forward square has a row on the board. They ask the enemy pieces for their moves, and the pawn requirement above applies.
- Sliders.BishopMoves: walks the diagonals to the edge without looking at the board, exactly as the source does. Standard chess stops a bishop at the first piece. The lemma `BishopIgnoresBlockers` shows the difference.
- `ChessBoard` copying, `hashCode`, `setBoard` and `getBoard` are not modelled. They are plain field access or Java object plumbing. `GameService.getGame` is not modelled either, because it only delegates to the store.
- The game-over flag is not on the `ChessGame` class as written. It is a plain field `over` of the game value.
- `UserService.getAuth` (UserService.java lines 56-62) performs the same lookup as `GameService.authenticate`. It is modelled once, as `GameService.Authenticate`.
- HttpErrors.RaisedStatus: assumes that `DataAccessException` puts "Error: " in front of the service's message. The exception class is not part of this model. The handler compares against prefixed texts, but the repository's tests conflict: the user-service tests expect the prefix, while the game-service and clear-service tests expect the bare message.
- UserService.RegisterLoginLogout: takes as a premise a password check that accepts the registered password against the stored one. Over the in-memory store the stored password is the plaintext (MemDataAcess.java line 31), and only the SQL store hashes it (SQLDataAccess.java line 79). A real bcrypt check does not accept a plaintext stored value, so over the in-memory store this round trip holds only for such a check.
- `SQLDataAccess`, JDBC, JSON encoding (Gson), HTTP routing and the websocket handler are left out, because they are I/O and wiring.
- UUID token generation and `BCrypt.checkpw` are parameters, because they are randomness and hashing.
- ConcurrentHashMap thread safety and socket send failures are left out, because they are concurrency and I/O. A broadcast's delivery is modelled as a map from token to message.
- Connections.Broadcast: requires every registry entry to be stored under its own token. `add` is the only writer and keeps this. The source removes closed connections by the connection's token.
- Repl.NumericValue, Repl.UpperChar, Repl.ParseInt: cover ASCII only. Java's Unicode digit tables, letter-case mappings and non-ASCII digits are not modelled.
- Repl.ToUpper: upper-cases ASCII letters one for one. Java's `toUpperCase` follows Unicode and can change the length ("ß" becomes "SS"), which is not modelled.
- Repl.ParsePosition: reads the rank with the ASCII `NumericValue`. Java's `getNumericValue` also gives 1-8 for non-ASCII digits such as full-width '１', so the source accepts squares such as "a１" that the model rejects.
- Repl.ParsePieceType: upper-cases with the ASCII `ToUpper`. Java's Unicode mapping also turns "kıng" (dotless i) and "biſhop" (long s) into KING and BISHOP, which the model rejects.
- The client's REPL loop, `Scanner` input, `String.split`, the websocket facade and rendering are left out, because they are I/O. `MoveArgs` takes the words already split.
- Repl.FindGameByList: indexes the listing's sequence directly instead of counting through the collection's iterator. The two agree for a listing given in iteration order.

## Findings

| source | as written | input that shows it | evidently intended | confidence | as-written member | corrected member |
|---|---|---|---|---|---|---|
| server/src/main/java/service/UserService.java:21 | `register` treats `getUser(name) != null` as "taken". The in-memory `getUser` throws "Username doesn't exist" for a missing name. | A fresh in-memory store and register("alice", "pw", "a@x.org") | The user is stored and an auth is returned. The SQL store's `getUser` returns null for a missing name. | high, not executed | UserService.RegisterAsWritten | UserService.Register |
| server/src/main/java/service/UserService.java:35-38 | `login` treats a null user as "unauthorized". The in-memory `getUser` throws instead. | A fresh in-memory store and login("bob", "pw") | The call fails with "unauthorized". | high, not executed | UserService.LoginAsWritten | UserService.Login |
