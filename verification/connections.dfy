/** The websocket connection registry: who is connected to which game, and the
    broadcast that notifies one game's open sessions and drops the closed ones.
    Sending is I/O and is modelled by the set of tokens that receive the message. */
module Connections {
  import opened Wrappers

  datatype Session = Session(id: int, open: bool)

  datatype Connection = Connection(authToken: string, gameID: int, session: Session)

  /** Connections keyed by auth token. */
  type Registry = map<string, Connection>

  /** Every entry is stored under its own token; `Add` is the only writer, and it
      keeps this. */
  predicate Consistent(reg: Registry) {
    forall t :: t in reg ==> reg[t].authToken == t
  }

  /** `add`: a token's previous connection is replaced. */
  function Add(reg: Registry, token: string, gameID: int, session: Session): (r: Registry)
    ensures r.Keys == reg.Keys + {token}
    ensures r[token] == Connection(token, gameID, session)
    ensures forall t :: t in reg && t != token ==> r[t] == reg[t]
    ensures Consistent(reg) ==> Consistent(r)
  {
    reg[token := Connection(token, gameID, session)]
  }

  /** `remove`: removing an absent token changes nothing. */
  function Remove(reg: Registry, token: string): (r: Registry)
    ensures r.Keys == reg.Keys - {token}
    ensures forall t :: t in r ==> r[t] == reg[t]
    ensures token !in reg ==> r == reg
    ensures Consistent(reg) ==> Consistent(r)
  {
    reg - {token}
  }

  lemma AddThenRemove(reg: Registry, token: string, gameID: int, session: Session)
    requires token !in reg
    ensures Remove(Add(reg, token, gameID, session), token) == reg
  {
  }

  /** A connection the broadcast delivers to: open, watching the game, and not
      the excluded token (a null exclusion excludes nobody). */
  predicate Receives(c: Connection, gameID: int, exclude: Option<string>) {
    c.session.open && c.gameID == gameID && exclude != Some(c.authToken)
  }

  /** `broadcast`: returns what is sent to whom (token to serialized
      notification) and the registry with every closed session removed. */
  method Broadcast(reg: Registry, gameID: int, exclude: Option<string>, payload: string)
    returns (sent: map<string, string>, pruned: Registry)
    requires Consistent(reg)
    ensures sent.Keys == set t | t in reg && Receives(reg[t], gameID, exclude)
    ensures forall t :: t in sent ==> sent[t] == payload
    ensures exclude.Some? ==> exclude.value !in sent
    ensures pruned.Keys == set t | t in reg && reg[t].session.open
    ensures forall t :: t in pruned ==> pruned[t] == reg[t]
    ensures Consistent(pruned)
  {
    var remaining := reg.Keys;
    var removeList: set<string> := {};
    sent := map[];
    while remaining != {}
      invariant remaining <= reg.Keys
      invariant sent.Keys == set t | t in reg && t !in remaining && Receives(reg[t], gameID, exclude)
      invariant forall t :: t in sent ==> sent[t] == payload
      invariant removeList == set t | t in reg && t !in remaining && !reg[t].session.open
      decreases remaining
    {
      var t :| t in remaining;
      var c := reg[t];
      if c.session.open {
        if c.gameID == gameID && exclude != Some(c.authToken) {
          sent := sent[t := payload];
        }
      } else {
        removeList := removeList + {c.authToken};
      }
      remaining := remaining - {t};
    }
    pruned := reg;
    var toRemove := removeList;
    while toRemove != {}
      invariant toRemove <= removeList
      invariant pruned.Keys == reg.Keys - (removeList - toRemove)
      invariant forall t :: t in pruned ==> pruned[t] == reg[t]
      decreases toRemove
    {
      var t :| t in toRemove;
      pruned := Remove(pruned, t);
      toRemove := toRemove - {t};
    }
  }
}
