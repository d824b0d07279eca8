/** The in-memory data access object: three maps (users by name, games by id,
    auths by token) and the next game id, a Java `int` that wraps around. */
module MemStore {
  import opened Wrappers
  import opened JavaInt
  import ChessGame

  datatype User = User(username: string, password: string, email: string)

  datatype Auth = Auth(authToken: string, username: string)

  /** A stored game: its id, the two seats (None when free), its name and the engine state. */
  datatype GameData = GameData(gameID: int, white: Option<string>, black: Option<string>, gameName: string, game: ChessGame.Game)

  datatype Store = Store(users: map<string, User>, games: map<int, GameData>, auths: map<string, Auth>, nextGameID: int)

  /** A fresh store: nothing stored, the first game gets id 1. */
  const Fresh: Store := Store(map[], map[], map[], 1)

  /** What every store reachable from `Fresh` keeps while fewer than 2^31 - 1 games
      were created: each entry is keyed by its own name, id or token, and every
      stored id lies below the counter. */
  predicate Invariant(s: Store) {
    && 1 <= s.nextGameID <= IntMax
    && (forall u :: u in s.users ==> s.users[u].username == u)
    && (forall id :: id in s.games ==> s.games[id].gameID == id && 1 <= id < s.nextGameID)
    && (forall t :: t in s.auths ==> s.auths[t].authToken == t)
  }

  lemma FreshInvariant()
    ensures Invariant(Fresh)
  {
  }

  /** `clear`: empties the three maps; the id counter is NOT reset. */
  function Clear(s: Store): (r: Store)
    ensures r.users == map[] && r.games == map[] && r.auths == map[]
    ensures r.nextGameID == s.nextGameID
    ensures Invariant(s) ==> Invariant(r)
  {
    Store(map[], map[], map[], s.nextGameID)
  }

  function CreateUser(s: Store, u: User): (r: Result<Store>)
    ensures u.username in s.users <==> r == Err("Username already exists")
    ensures r.Ok? <==> u.username !in s.users
    ensures r.Ok? ==> r.value.users == s.users[u.username := u] && r.value.games == s.games && r.value.auths == s.auths
    ensures r.Ok? ==> r.value.nextGameID == s.nextGameID
    ensures Invariant(s) && r.Ok? ==> Invariant(r.value)
  {
    if u.username in s.users then Err("Username already exists")
    else Ok(s.(users := s.users[u.username := u]))
  }

  /** `getUser` as written: a missing user is an error, never null. */
  function GetUser(s: Store, username: string): (r: Result<User>)
    ensures r.Ok? <==> username in s.users
    ensures r.Ok? ==> r.value == s.users[username]
    ensures r.Err? ==> r.msg == "Username doesn't exist"
  {
    if username !in s.users then Err("Username doesn't exist") else Ok(s.users[username])
  }

  /** The lookup the user service is written against: null for a missing user. */
  function FindUser(s: Store, username: string): (r: Option<User>)
    ensures r.Some? <==> username in s.users
    ensures r.Some? ==> r.value == s.users[username]
  {
    if username in s.users then Some(s.users[username]) else None
  }

  /** `createGame`: takes the counter as the id, advances it, stores a game with
      both seats free. */
  function CreateGame(s: Store, name: string): (r: (Store, GameData))
    requires IntMin <= s.nextGameID <= IntMax
    ensures r.1 == GameData(s.nextGameID, None, None, name, ChessGame.NewGame())
    ensures r.0.games == s.games[s.nextGameID := r.1]
    ensures r.0.nextGameID == Inc32(s.nextGameID)
    ensures r.0.users == s.users && r.0.auths == s.auths
  {
    var gd := GameData(s.nextGameID, None, None, name, ChessGame.NewGame());
    (s.(games := s.games[s.nextGameID := gd], nextGameID := Inc32(s.nextGameID)), gd)
  }

  /** Below the wrap-around the new id is unused, and the invariant is kept. */
  lemma CreateGameFresh(s: Store, name: string)
    requires Invariant(s) && s.nextGameID < IntMax
    ensures s.nextGameID !in s.games
    ensures Invariant(CreateGame(s, name).0)
    ensures CreateGame(s, name).0.nextGameID == s.nextGameID + 1
  {
  }

  /** Two creations in a row receive consecutive ids, both stored. */
  lemma CreateGameConsecutive(s: Store, a: string, b: string)
    requires Invariant(s) && s.nextGameID < IntMax - 1
    ensures var (s1, g1) := CreateGame(s, a);
            var (s2, g2) := CreateGame(s1, b);
            g2.gameID == g1.gameID + 1 && g1.gameID in s2.games && s2.games[g1.gameID] == g1
  {
  }

  /** The counter is a Java `int`: at its maximum the next id wraps to the minimum. */
  lemma CreateGameWraps(s: Store, a: string)
    requires s.nextGameID == IntMax
    ensures CreateGame(s, a).1.gameID == IntMax
    ensures CreateGame(s, a).0.nextGameID == IntMin
  {
  }

  function GetGame(s: Store, id: int): (r: Result<GameData>)
    ensures r.Ok? <==> id in s.games
    ensures r.Ok? ==> r.value == s.games[id]
    ensures r.Err? ==> r.msg == "Game doesn't exist"
  {
    if id in s.games then Ok(s.games[id]) else Err("Game doesn't exist")
  }

  /** `listGames`: every stored game, and nothing else. */
  function ListGames(s: Store): (r: set<GameData>)
    ensures forall id :: id in s.games ==> s.games[id] in r
    ensures forall g :: g in r ==> exists id :: id in s.games && s.games[id] == g
  {
    set id | id in s.games :: s.games[id]
  }

  /** `updateGame`: replaces exactly the entry `id`, which must already exist. */
  function UpdateGame(s: Store, id: int, gd: GameData): (r: Result<Store>)
    ensures r.Ok? <==> id in s.games
    ensures r.Err? ==> r.msg == "Game doesn't exist"
    ensures r.Ok? ==> r.value == s.(games := s.games[id := gd])
    ensures r.Ok? ==> r.value.games.Keys == s.games.Keys
    ensures r.Ok? ==> forall other :: other in s.games && other != id ==> r.value.games[other] == s.games[other]
  {
    if id !in s.games then Err("Game doesn't exist") else Ok(s.(games := s.games[id := gd]))
  }

  lemma UpdateGameKeepsInvariant(s: Store, gd: GameData)
    requires Invariant(s) && gd.gameID in s.games
    ensures UpdateGame(s, gd.gameID, gd).Ok?
    ensures Invariant(UpdateGame(s, gd.gameID, gd).value)
  {
  }

  /** `createAuth`: the token (a random UUID in the source) is a parameter. */
  function CreateAuth(s: Store, username: string, token: string): (r: (Store, Auth))
    ensures r.1 == Auth(token, username)
    ensures r.0 == s.(auths := s.auths[token := r.1])
    ensures Invariant(s) ==> Invariant(r.0)
  {
    var a := Auth(token, username);
    (s.(auths := s.auths[token := a]), a)
  }

  /** `getAuth`: null (None) for an unknown token. */
  function GetAuth(s: Store, token: string): (r: Option<Auth>)
    ensures r.Some? <==> token in s.auths
    ensures r.Some? ==> r.value == s.auths[token]
  {
    if token in s.auths then Some(s.auths[token]) else None
  }

  /** `deleteAuth`: removes exactly the given token, which must exist. */
  function DeleteAuth(s: Store, token: string): (r: Result<Store>)
    ensures r.Err? <==> token !in s.auths
    ensures r.Err? ==> r.msg == "Auth doesn't exist"
    ensures r.Ok? ==> r.value.auths.Keys == s.auths.Keys - {token}
    ensures r.Ok? ==> forall t :: t in r.value.auths ==> r.value.auths[t] == s.auths[t]
    ensures r.Ok? ==> r.value.users == s.users && r.value.games == s.games && r.value.nextGameID == s.nextGameID
    ensures r.Ok? && Invariant(s) ==> Invariant(r.value)
  {
    if token !in s.auths then Err("Auth doesn't exist") else Ok(s.(auths := s.auths - {token}))
  }

  /** An auth created and then deleted leaves the other tokens as they were. */
  lemma CreateThenDeleteAuth(s: Store, username: string, token: string)
    requires token !in s.auths
    ensures DeleteAuth(CreateAuth(s, username, token).0, token) == Ok(s)
  {
    assert (s.auths[token := Auth(token, username)]) - {token} == s.auths;
  }
}
