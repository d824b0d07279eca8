/** Game-session service: authentication, game creation, seat allocation,
    turn-enforced moves, leaving and resigning, each a guarded transition of
    the store that either yields the new store or the exception's message. */
module GameService {
  import opened Wrappers
  import opened Pieces
  import opened MemStore
  import opened JavaInt
  import ChessGame

  /** `authenticate`: the auth for a known token; a null or unknown token is unauthorized. */
  function Authenticate(s: Store, token: Option<string>): (r: Result<Auth>)
    ensures r.Ok? <==> token.Some? && token.value in s.auths
    ensures r.Ok? ==> r.value == s.auths[token.value]
    ensures r.Err? ==> r.msg == "unauthorized"
  {
    if token.None? then Err("unauthorized")
    else match GetAuth(s, token.value)
      case None => Err("unauthorized")
      case Some(a) => Ok(a)
  }

  predicate Authorized(s: Store, token: Option<string>) {
    token.Some? && token.value in s.auths
  }

  function Caller(s: Store, token: Option<string>): string
    requires Authorized(s, token)
  {
    s.auths[token.value].username
  }

  function ListGames(s: Store, token: Option<string>): (r: Result<set<GameData>>)
    ensures !Authorized(s, token) <==> r == Err("unauthorized")
    ensures r.Ok? <==> Authorized(s, token)
    ensures r.Ok? ==> forall id :: id in s.games ==> s.games[id] in r.value
    ensures r.Ok? ==> forall g :: g in r.value ==> exists id :: id in s.games && s.games[id] == g
  {
    var _ :- Authenticate(s, token);
    Ok(MemStore.ListGames(s))
  }

  /** `createGame`: authenticates, rejects a null or empty name, then stores a new game. */
  function CreateGame(s: Store, token: Option<string>, name: Option<string>): (r: Result<(Store, int)>)
    requires IntMin <= s.nextGameID <= IntMax
    ensures !Authorized(s, token) ==> r == Err("unauthorized")
    ensures Authorized(s, token) && (name.None? || name.value == "") ==> r == Err("bad request")
    ensures r.Ok? <==> Authorized(s, token) && name.Some? && name.value != ""
    ensures r.Ok? ==> r.value.1 == s.nextGameID && r.value.0 == MemStore.CreateGame(s, name.value).0
  {
    var _ :- Authenticate(s, token);
    if name.None? || name.value == "" then Err("bad request")
    else
      var (s1, gd) := MemStore.CreateGame(s, name.value);
      Ok((s1, gd.gameID))
  }

  /** Below the counter's wrap-around a created game gets an unused id, can be
      looked up with both seats free, and the store stays well-formed. */
  lemma CreateThenGet(s: Store, token: Option<string>, name: Option<string>)
    requires Invariant(s) && s.nextGameID < IntMax
    requires CreateGame(s, token, name).Ok?
    ensures var (s1, id) := CreateGame(s, token, name).value;
            && id !in s.games
            && Invariant(s1)
            && GetGame(s1, id).Ok?
            && GetGame(s1, id).value.white.None? && GetGame(s1, id).value.black.None?
            && GetGame(s1, id).value.gameName == name.value
  {
    CreateGameFresh(s, name.value);
  }

  /** The game record with the requested seat given to `user`. */
  function Seated(gd: GameData, white: bool, user: string): GameData {
    if white then gd.(white := Some(user)) else gd.(black := Some(user))
  }

  /** `joinGame`: authenticates, looks the game up, then accepts only "WHITE" or
      "BLACK" for a free seat; the colour is checked after the lookup. */
  function JoinGame(s: Store, token: Option<string>, color: Option<string>, gameID: int): (r: Result<Store>)
    ensures !Authorized(s, token) ==> r == Err("unauthorized")
    ensures Authorized(s, token) && gameID !in s.games ==> r == Err("Game doesn't exist")
    ensures (Authorized(s, token) && gameID in s.games && color != Some("WHITE") && color != Some("BLACK"))
              ==> r == Err("bad request")
    ensures (Authorized(s, token) && gameID in s.games && color == Some("WHITE") && s.games[gameID].white.Some?)
              ==> r == Err("already taken")
    ensures (Authorized(s, token) && gameID in s.games && color == Some("BLACK") && s.games[gameID].black.Some?)
              ==> r == Err("already taken")
    ensures r.Ok? ==>
              && Authorized(s, token) && gameID in s.games
              && var gd := s.games[gameID];
                 var white := color == Some("WHITE");
                 && (white || color == Some("BLACK"))
                 && (if white then gd.white.None? else gd.black.None?)
                 && r.value == s.(games := s.games[gd.gameID := Seated(gd, white, Caller(s, token))])
    ensures (Invariant(s) && Authorized(s, token) && gameID in s.games &&
             ((color == Some("WHITE") && s.games[gameID].white.None?) ||
              (color == Some("BLACK") && s.games[gameID].black.None?)))
              ==> r.Ok?
  {
    var auth :- Authenticate(s, token);
    var gd :- GetGame(s, gameID);
    if color.None? || color.value == "" then Err("bad request")
    else if color.value == "WHITE" then
      if gd.white.Some? then Err("already taken")
      else UpdateGame(s, gd.gameID, Seated(gd, true, auth.username))
    else if color.value == "BLACK" then
      if gd.black.Some? then Err("already taken")
      else UpdateGame(s, gd.gameID, Seated(gd, false, auth.username))
    else Err("bad request")
  }

  /** On a well-formed store a successful join changes only the requested seat of
      that one game. */
  lemma JoinGameOnlySeat(s: Store, token: Option<string>, color: Option<string>, gameID: int)
    requires Invariant(s) && JoinGame(s, token, color, gameID).Ok?
    ensures var r := JoinGame(s, token, color, gameID).value;
            var gd := s.games[gameID];
            var ng := r.games[gameID];
            && Invariant(r)
            && r.users == s.users && r.auths == s.auths && r.nextGameID == s.nextGameID
            && r.games.Keys == s.games.Keys
            && (forall id :: id in s.games && id != gameID ==> r.games[id] == s.games[id])
            && ng.gameID == gd.gameID && ng.gameName == gd.gameName && ng.game == gd.game
            && (color == Some("WHITE") ==> ng.white == Some(Caller(s, token)) && ng.black == gd.black)
            && (color == Some("BLACK") ==> ng.black == Some(Caller(s, token)) && ng.white == gd.white)
  {
  }

  /** `getChessGame`: a finished game takes no moves, and only the player seated
      on the side to move may move. */
  function CheckTurn(gd: GameData, username: string): (r: Result<ChessGame.Game>)
    ensures r.Ok? <==> !gd.game.over && if gd.game.turn == Some(White) then gd.white == Some(username) else gd.black == Some(username)
    ensures r.Ok? ==> r.value == gd.game
    ensures gd.game.over ==> r == Err("Game is over")
    ensures (!gd.game.over && gd.game.turn == Some(White) && gd.white != Some(username))
              ==> r == Err("Not your turn (or you are not the white player)")
    ensures (!gd.game.over && gd.game.turn != Some(White) && gd.black != Some(username))
              ==> r == Err("Not your turn (or you are not the black player)")
  {
    var game := gd.game;
    if game.over then Err("Game is over")
    else if game.turn == Some(White) then
      if gd.white != Some(username) then Err("Not your turn (or you are not the white player)") else Ok(game)
    else
      if gd.black != Some(username) then Err("Not your turn (or you are not the black player)") else Ok(game)
  }

  /** `makeMove`: the engine's own move application is opaque here and supplied
      as `engine`; its failure message is reported as an invalid move. */
  function MakeMove(s: Store, token: Option<string>, gameID: int, move: Move,
                    engine: (ChessGame.Game, Move) -> Result<ChessGame.Game>): (r: Result<Store>)
    ensures !Authorized(s, token) ==> r == Err("unauthorized")
    ensures Authorized(s, token) && gameID !in s.games ==> r == Err("Game doesn't exist")
    ensures r.Ok? ==>
              && Authorized(s, token) && gameID in s.games
              && var gd := s.games[gameID];
                 && CheckTurn(gd, Caller(s, token)).Ok?
                 && engine(gd.game, move).Ok?
                 && r.value == s.(games := s.games[gameID := GameData(gameID, gd.white, gd.black, gd.gameName, engine(gd.game, move).value)])
    ensures (Authorized(s, token) && gameID in s.games && CheckTurn(s.games[gameID], Caller(s, token)).Ok?
              && engine(s.games[gameID].game, move).Err?)
              ==> r == Err("Invalid move: " + engine(s.games[gameID].game, move).msg)
    ensures (Authorized(s, token) && gameID in s.games && CheckTurn(s.games[gameID], Caller(s, token)).Err?)
              ==> r == Err(CheckTurn(s.games[gameID], Caller(s, token)).msg)
    ensures (Authorized(s, token) && gameID in s.games && CheckTurn(s.games[gameID], Caller(s, token)).Ok?
              && engine(s.games[gameID].game, move).Ok?)
              ==> r.Ok?
  {
    var auth :- Authenticate(s, token);
    var gd :- GetGame(s, gameID);
    var game :- CheckTurn(gd, auth.username);
    match engine(game, move)
    case Err(e) => Err("Invalid move: " + e)
    case Ok(moved) => UpdateGame(s, gameID, GameData(gameID, gd.white, gd.black, gd.gameName, moved))
  }

  /** `leaveGame`: frees the white seat if the caller holds it, else the black
      seat if the caller holds that; an observer changes nothing. */
  function LeaveGame(s: Store, token: Option<string>, gameID: int): (r: Result<Store>)
    ensures !Authorized(s, token) ==> r == Err("unauthorized")
    ensures Authorized(s, token) && gameID !in s.games ==> r == Err("Game doesn't exist")
    ensures Authorized(s, token) && gameID in s.games ==> r.Ok?
    ensures r.Ok? ==>
              var gd := s.games[gameID];
              var u := Caller(s, token);
              if gd.white == Some(u) then r.value == s.(games := s.games[gameID := GameData(gameID, None, gd.black, gd.gameName, gd.game)])
              else if gd.black == Some(u) then r.value == s.(games := s.games[gameID := GameData(gameID, gd.white, None, gd.gameName, gd.game)])
              else r.value == s
  {
    var auth :- Authenticate(s, token);
    var gd :- GetGame(s, gameID);
    if gd.white == Some(auth.username) then
      UpdateGame(s, gameID, GameData(gameID, None, gd.black, gd.gameName, gd.game))
    else if gd.black == Some(auth.username) then
      UpdateGame(s, gameID, GameData(gameID, gd.white, None, gd.gameName, gd.game))
    else Ok(s)
  }

  /** Joining a free seat and leaving again restores the store, unless the caller
      already held the white seat and joined black as well (leave frees white first). */
  lemma JoinThenLeave(s: Store, token: Option<string>, color: Option<string>, gameID: int)
    requires Invariant(s) && JoinGame(s, token, color, gameID).Ok?
    requires color == Some("BLACK") ==> s.games[gameID].white != Some(Caller(s, token))
    ensures LeaveGame(JoinGame(s, token, color, gameID).value, token, gameID) == Ok(s)
  {
    var s1 := JoinGame(s, token, color, gameID).value;
    var gd := s.games[gameID];
    assert s1.games[gameID := gd] == s.games;
  }

  /** `resign`: only a seated player may resign, only once; the game becomes
      over with no side to move, and the seats stay as they were. */
  function Resign(s: Store, token: Option<string>, gameID: int): (r: Result<Store>)
    ensures !Authorized(s, token) ==> r == Err("unauthorized")
    ensures Authorized(s, token) && gameID !in s.games ==> r == Err("Game doesn't exist")
    ensures (Authorized(s, token) && gameID in s.games &&
              s.games[gameID].white != Some(Caller(s, token)) && s.games[gameID].black != Some(Caller(s, token)))
              ==> r == Err("Observer cannot resign")
    ensures (Authorized(s, token) && gameID in s.games &&
              (s.games[gameID].white == Some(Caller(s, token)) || s.games[gameID].black == Some(Caller(s, token))) &&
              s.games[gameID].game.over)
              ==> r == Err("Game is already over")
    ensures r.Ok? ==>
              var gd := s.games[gameID];
              && !gd.game.over
              && r.value == s.(games := s.games[gameID := GameData(gameID, gd.white, gd.black, gd.gameName, gd.game.(over := true, turn := None))])
    ensures (Authorized(s, token) && gameID in s.games &&
              (s.games[gameID].white == Some(Caller(s, token)) || s.games[gameID].black == Some(Caller(s, token))) &&
              !s.games[gameID].game.over)
              ==> r.Ok?
  {
    var auth :- Authenticate(s, token);
    var gd :- GetGame(s, gameID);
    if gd.white != Some(auth.username) && gd.black != Some(auth.username) then Err("Observer cannot resign")
    else if gd.game.over then Err("Game is already over")
    else
      var game := ChessGame.SetTeamTurn(gd.game.(over := true), None);
      UpdateGame(s, gameID, GameData(gameID, gd.white, gd.black, gd.gameName, game))
  }

  /** After a resignation no one can resign again and no move is accepted. */
  lemma ResignEndsGame(s: Store, token: Option<string>, other: Option<string>, gameID: int, move: Move,
                       engine: (ChessGame.Game, Move) -> Result<ChessGame.Game>)
    requires Resign(s, token, gameID).Ok?
    requires Authorized(s, other)
    ensures var s1 := Resign(s, token, gameID).value;
            && Resign(s1, other, gameID).Err?
            && MakeMove(s1, other, gameID, move, engine) == Err("Game is over")
            && s1.games[gameID].white == s.games[gameID].white
            && s1.games[gameID].black == s.games[gameID].black
  {
  }
}
