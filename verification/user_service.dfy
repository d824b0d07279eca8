/** Account service: register, login, logout and token lookup over the store.
    The password check (a bcrypt comparison) is a parameter; new auth tokens (random
    UUIDs) are parameters too. */
module UserService {
  import opened Wrappers
  import opened MemStore
  import GameService

  /** A registration request as decoded from JSON: any field may be null. */
  datatype UserRequest = UserRequest(username: Option<string>, password: Option<string>, email: Option<string>)

  datatype LoginRequest = LoginRequest(username: Option<string>, password: Option<string>)

  predicate Complete(req: UserRequest) {
    req.username.Some? && req.password.Some? && req.email.Some?
  }

  /** `register` exactly as written over the memory store: the "user already
      exists?" test calls `getUser`, which throws for a missing user, so a new
      name is rejected with the store's message and an existing one with
      "already taken". */
  function RegisterAsWritten(s: Store, req: UserRequest, token: string): (r: Result<(Store, Auth)>)
    ensures r.Err?
    ensures Complete(req) && req.username.value !in s.users ==> r == Err("Username doesn't exist")
  {
    if !Complete(req) then Err("bad request")
    else
      var _ :- GetUser(s, req.username.value);
      Err("already taken")
  }

  /** A registration that can never succeed: a fresh store and a complete request. */
  lemma RegisterAsWrittenRejectsNewUser()
    ensures RegisterAsWritten(Fresh, UserRequest(Some("alice"), Some("pw"), Some("a@x.org")), "t1")
              == Err("Username doesn't exist")
  {
  }

  /** `register` as intended: the existence test uses a lookup that yields null
      for a missing user. */
  function Register(s: Store, req: UserRequest, token: string): (r: Result<(Store, Auth)>)
    ensures !Complete(req) <==> r == Err("bad request")
    ensures Complete(req) && req.username.value in s.users ==> r == Err("already taken")
    ensures r.Ok? <==> Complete(req) && req.username.value !in s.users
    ensures r.Ok? ==>
              var name := req.username.value;
              && r.value.1 == Auth(token, name)
              && r.value.0.users == s.users[name := User(name, req.password.value, req.email.value)]
              && r.value.0.auths == s.auths[token := Auth(token, name)]
              && r.value.0.games == s.games && r.value.0.nextGameID == s.nextGameID
    ensures r.Ok? && Invariant(s) ==> Invariant(r.value.0)
  {
    if !Complete(req) then Err("bad request")
    else if FindUser(s, req.username.value).Some? then Err("already taken")
    else
      match CreateUser(s, User(req.username.value, req.password.value, req.email.value))
      case Err(m) => Err(m)
      case Ok(s1) => Ok(CreateAuth(s1, req.username.value, token))
  }

  /** `login` exactly as written over the memory store: an unknown name gets the
      store's "Username doesn't exist" instead of "unauthorized". */
  function LoginAsWritten(s: Store, req: LoginRequest, token: string, checkpw: (string, string) -> bool): (r: Result<(Store, Auth)>)
    ensures (req.username.Some? && req.password.Some? && req.username.value !in s.users)
              ==> r == Err("Username doesn't exist")
  {
    if req.username.None? || req.password.None? then Err("bad request")
    else
      var user :- GetUser(s, req.username.value);
      if !checkpw(req.password.value, user.password) then Err("unauthorized")
      else Ok(CreateAuth(s, user.username, token))
  }

  lemma LoginAsWrittenUnknownUser(checkpw: (string, string) -> bool)
    ensures LoginAsWritten(Fresh, LoginRequest(Some("bob"), Some("pw")), "t1", checkpw) == Err("Username doesn't exist")
  {
  }

  /** `login` as intended: null fields are a bad request; an unknown name or a
      failed password check is unauthorized and creates no auth. */
  function Login(s: Store, req: LoginRequest, token: string, checkpw: (string, string) -> bool): (r: Result<(Store, Auth)>)
    ensures req.username.None? || req.password.None? <==> r == Err("bad request")
    ensures (req.username.Some? && req.password.Some? &&
             (req.username.value !in s.users || !checkpw(req.password.value, s.users[req.username.value].password)))
              ==> r == Err("unauthorized")
    ensures r.Ok? ==>
              && req.username.Some? && req.password.Some? && req.username.value in s.users
              && checkpw(req.password.value, s.users[req.username.value].password)
              && r.value.1 == Auth(token, s.users[req.username.value].username)
              && r.value.0 == s.(auths := s.auths[token := r.value.1])
    ensures (req.username.Some? && req.password.Some? && req.username.value in s.users &&
             checkpw(req.password.value, s.users[req.username.value].password))
              ==> r.Ok?
  {
    if req.username.None? || req.password.None? then Err("bad request")
    else match FindUser(s, req.username.value)
      case None => Err("unauthorized")
      case Some(user) =>
        if !checkpw(req.password.value, user.password) then Err("unauthorized")
        else Ok(CreateAuth(s, user.username, token))
  }

  /** `logout`: null token is a bad request, an unknown one unauthorized;
      otherwise exactly that token is deleted. */
  function Logout(s: Store, token: Option<string>): (r: Result<Store>)
    ensures token.None? <==> r == Err("bad request")
    ensures token.Some? && token.value !in s.auths ==> r == Err("unauthorized")
    ensures r.Ok? <==> token.Some? && token.value in s.auths
    ensures r.Ok? ==> r.value == s.(auths := s.auths - {token.value})
  {
    if token.None? then Err("bad request")
    else if GetAuth(s, token.value).None? then Err("unauthorized")
    else DeleteAuth(s, token.value)
  }

  /** Register, then log in with a password the check accepts, then log out:
      each step succeeds, and the logged-out token no longer authenticates while
      the registration token still does. */
  lemma RegisterLoginLogout(s: Store, req: UserRequest, t1: string, t2: string, checkpw: (string, string) -> bool)
    requires Register(s, req, t1).Ok? && t1 != t2
    requires checkpw(req.password.value, req.password.value)
    ensures var s1 := Register(s, req, t1).value.0;
            var l := Login(s1, LoginRequest(req.username, req.password), t2, checkpw);
            && l.Ok? && l.value.1.username == req.username.value
            && var s3 := Logout(l.value.0, Some(t2));
               && s3.Ok?
               && GameService.Authenticate(s3.value, Some(t2)).Err?
               && GameService.Authenticate(s3.value, Some(t1)) == Ok(Auth(t1, req.username.value))
  {
  }

  /** A second logout with the same token is unauthorized. */
  lemma LogoutTwice(s: Store, token: string)
    requires Logout(s, Some(token)).Ok?
    ensures Logout(Logout(s, Some(token)).value, Some(token)) == Err("unauthorized")
  {
  }
}
