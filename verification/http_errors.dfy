/** The server's exception handlers: which HTTP status and message body an
    exception's message produces. The JSON encoding of the body is not modelled;
    the body is the text of its "message" field. */
module HttpErrors {
  import opened Wrappers

  datatype Reply = Reply(status: int, message: string)

  /** The data-access handler. Only four messages set a reply; any other
      message, or a null one, leaves the response untouched (None). */
  function DataAccessReply(msg: Option<string>): (r: Option<Reply>)
    ensures r.Some? ==> msg.Some? && r.value.message == msg.value
    ensures r == Some(Reply(400, "Error: bad request")) <==> msg == Some("Error: bad request")
    ensures r == Some(Reply(400, "Error: Game doesn't exist")) <==> msg == Some("Error: Game doesn't exist")
    ensures r == Some(Reply(401, "Error: unauthorized")) <==> msg == Some("Error: unauthorized")
    ensures r == Some(Reply(403, "Error: already taken")) <==> msg == Some("Error: already taken")
    ensures r.Some? ==> r.value.status in {400, 401, 403}
  {
    if msg.None? then None
    else if msg.value == "Error: bad request" || msg.value == "Error: Game doesn't exist" then Some(Reply(400, msg.value))
    else if msg.value == "Error: unauthorized" then Some(Reply(401, msg.value))
    else if msg.value == "Error: already taken" then Some(Reply(403, msg.value))
    else None
  }

  /** The generic handler: always 500, the message prefixed with "Error: "
      (`String.format` renders a null message as "null"). */
  function GenericReply(msg: Option<string>): (r: Reply)
    ensures r.status == 500
    ensures msg.Some? ==> r.message == "Error: " + msg.value
    ensures msg.None? ==> r.message == "Error: null"
  {
    Reply(500, "Error: " + (if msg.Some? then msg.value else "null"))
  }

  /** The data-access handler answers with a client-error status; the two
      handlers never agree on a reply. */
  lemma HandlersDisjoint(m1: Option<string>, m2: Option<string>)
    ensures DataAccessReply(m1) != Some(GenericReply(m2))
  {
  }

  /** The messages the services raise, as the exception is assumed to carry
      them: "Error: " in front of the service's text. The exception class is not
      part of this model. The handler above compares against prefixed texts, so
      this is the reading under which the service's messages reach it. The
      repository's own tests do not settle it: the user-service tests expect the
      prefix, while the game-service and clear-service tests expect the bare text. */
  function Raised(m: string): string {
    "Error: " + m
  }

  lemma RaisedInjective(m: string, t: string)
    ensures Raised(m) == Raised(t) <==> m == t
  {
    if Raised(m) == Raised(t) {
      assert m == Raised(m)[7..] && t == Raised(t)[7..];
    }
  }

  /** The four messages the handler names are raised service messages. */
  lemma RaisedLiterals()
    ensures Raised("bad request") == "Error: bad request"
    ensures Raised("Game doesn't exist") == "Error: Game doesn't exist"
    ensures Raised("unauthorized") == "Error: unauthorized"
    ensures Raised("already taken") == "Error: already taken"
  {
  }

  /** Which raised service messages get a status: exactly the four the handler
      names; every other one (for example "Username doesn't exist" or
      "Observer cannot resign") leaves the response untouched. */
  lemma RaisedStatus(m: string)
    ensures DataAccessReply(Some(Raised(m))) == Some(Reply(400, Raised(m))) <==> m == "bad request" || m == "Game doesn't exist"
    ensures DataAccessReply(Some(Raised(m))) == Some(Reply(401, Raised(m))) <==> m == "unauthorized"
    ensures DataAccessReply(Some(Raised(m))) == Some(Reply(403, Raised(m))) <==> m == "already taken"
    ensures DataAccessReply(Some(Raised(m))).None? <==>
              m != "bad request" && m != "Game doesn't exist" && m != "unauthorized" && m != "already taken"
  {
    RaisedInjective(m, "bad request");
    RaisedInjective(m, "Game doesn't exist");
    RaisedInjective(m, "unauthorized");
    RaisedInjective(m, "already taken");
    RaisedLiterals();
  }
}
