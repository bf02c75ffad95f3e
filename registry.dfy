/**
 * The session registry of the chat server (backendtemp/chat-server.js): the
 * map `activeSessions` from session id to agent, and the logic of the start,
 * message and end requests and of the shutdown signal, without the HTTP
 * transport. All agents share one database.
 */
module Registry {
  import opened Options
  import opened Catalog
  import opened Preferences
  import opened Dialogue

  /** The prefix of a session id made up from the clock, `session_<milliseconds>`. */
  const SessionPrefix: string := "session_"

  /** The body of a successful start reply. */
  datatype StartReply = StartReply(
    sessionId: string, message: Message, needsResponse: bool, step: Step, options: Option<seq<string>>)

  /** The outcome of a message request: the reply body, or one of the three error categories. */
  datatype MessageReply =
    | Replied(message: Message, needsResponse: bool, step: Step, options: Option<seq<string>>,
              restaurants: Option<seq<Restaurant>>, events: Option<seq<EventListing>>)
    | BadRequest
    | NotFound
    | Failed

  /** The reply body built from an agent's response; absent lists become null. */
  function ReplyOf(r: Response): MessageReply {
    Replied(r.message, r.needsResponse, r.step, r.options, r.restaurants, r.events)
  }

  /** `!sessionId || !message`: either is missing or empty. */
  predicate Malformed(sessionId: Option<string>, message: Option<string>) {
    !Truthy(sessionId) || !Truthy(message)
  }

  /** What a message request answers for a session in state `s`, given what the agent's turn returns. */
  function MessageOutcome(response: Option<Response>): (r: MessageReply)
    ensures r.Failed? <==> response.None?
    ensures response.Some? ==> r.Replied? && r.step == response.value.step && r.message == response.value.message
    ensures response.Some? ==> r == Replied(response.value.message, response.value.needsResponse, response.value.step,
                                            response.value.options, response.value.restaurants, response.value.events)
  {
    if response.None? then Failed else ReplyOf(response.value)
  }

  /**
   * For a new session, an agent that greets with generated text is
   * answered on the next message; when the greeting falls back to canned text
   * the next message fails, because the agent is still in `greeting`.
   */
  lemma FirstMessageAfterStart(t: Tables, sessionId: string, stamp: string, storeUp: bool, gen: Reply,
                               input: string, t2: Tables, storeUp2: bool, gen2: Reply)
    requires sessionId != ""
    requires !storeUp || GetUserPreferences(t.preferences, sessionId) == []
    ensures var started := Start(InitialSession, Some(sessionId), stamp, t, storeUp, gen).after;
      MessageOutcome(Respond(started, input, t2, storeUp2, gen2).response).Failed? <==> gen.GenerationFailed?
  {
  }

  class ChatServer {
    var activeSessions: map<string, Agent>
    const db: RestaurantDatabase

    /** Every registered agent is open, valid and uses the shared database; no agent is registered twice. */
    ghost predicate Valid()
      reads this, db, activeSessions.Values
    {
      db.Valid() &&
      (forall id :: id in activeSessions ==>
        activeSessions[id].db == db && !activeSessions[id].closed && activeSessions[id].Valid()) &&
      (forall id1, id2 :: id1 in activeSessions && id2 in activeSessions && activeSessions[id1] == activeSessions[id2] ==> id1 == id2)
    }

    constructor (db: RestaurantDatabase)
      requires db.Valid()
      ensures Valid() && activeSessions == map[] && this.db == db
    {
      this.db := db;
      activeSessions := map[];
    }

    /**
     * `POST /api/chat/start`: the session id is the user id when one is given,
     * otherwise a generated one; a new agent is registered under it, replacing
     * (without closing) any agent registered before, and started with the
     * session id as its user id.
     */
    method StartSession(userId: Option<string>, stamp: string, storeUp: bool, gen: Reply)
      returns (reply: StartReply)
      requires Valid()
      modifies this
      ensures Valid()
      ensures var sessionId := ChosenId(userId, SessionPrefix + stamp);
        var o := Start(InitialSession, Some(sessionId), stamp, db.Snapshot(), storeUp, gen);
        var r := o.response.value;
        sessionId in activeSessions &&
        activeSessions == old(activeSessions)[sessionId := activeSessions[sessionId]] &&
        fresh(activeSessions[sessionId]) && activeSessions[sessionId].State() == o.after &&
        reply == StartReply(sessionId, r.message, r.needsResponse, r.step, r.options)
      ensures var sessionId := ChosenId(userId, SessionPrefix + stamp);
        sessionId in old(activeSessions) ==> !old(activeSessions[sessionId]).closed
    {
      var sessionId := ChosenId(userId, SessionPrefix + stamp);
      var agent := new Agent(db);
      assert forall id :: id in activeSessions ==> activeSessions[id] != agent;
      activeSessions := activeSessions[sessionId := agent];
      var response := agent.StartConversation(Some(sessionId), stamp, storeUp, gen);
      reply := StartReply(sessionId, response.message, response.needsResponse, response.step, response.options);
    }

    /**
     * `POST /api/chat/message`: a missing session id or message is a bad
     * request, an unknown id is not found; otherwise the session's agent takes
     * the turn, and a turn that returns nothing fails. Only that session's
     * state changes.
     */
    method SendMessage(sessionId: Option<string>, message: Option<string>, storeUp: bool, gen: Reply, now: int)
      returns (reply: MessageReply)
      requires Valid()
      modifies db, activeSessions.Values
      ensures Valid() && activeSessions == old(activeSessions)
      ensures Malformed(sessionId, message) ==> reply == BadRequest
      ensures !Malformed(sessionId, message) && sessionId.value !in activeSessions ==> reply == NotFound
      ensures Malformed(sessionId, message) || sessionId.value !in activeSessions ==>
        db.Snapshot() == old(db.Snapshot()) && db.nextId == old(db.nextId) &&
        forall id :: id in activeSessions ==> activeSessions[id].State() == old(activeSessions[id].State())
      ensures !Malformed(sessionId, message) && sessionId.value in activeSessions ==>
        var o := Respond(old(activeSessions[sessionId.value].State()), message.value, old(db.Snapshot()), storeUp, gen);
        reply == MessageOutcome(o.response) &&
        activeSessions[sessionId.value].State() == o.after &&
        db.preferences == old(db.preferences) + SavedRows(o.save, old(db.nextId), now) &&
        db.nextId == old(db.nextId) + |SavedRows(o.save, old(db.nextId), now)| &&
        db.restaurants == old(db.restaurants) && db.events == old(db.events) &&
        forall id :: id in activeSessions && id != sessionId.value ==> activeSessions[id].State() == old(activeSessions[id].State())
    {
      if Malformed(sessionId, message) {
        return BadRequest;
      }
      if sessionId.value !in activeSessions {
        return NotFound;
      }
      var agent := activeSessions[sessionId.value];
      var response := agent.ProcessResponse(message.value, storeUp, gen, now);
      reply := MessageOutcome(response);
      assert forall id :: id in activeSessions && id != sessionId.value ==> activeSessions[id] != agent;
    }

    /** `POST /api/chat/end`: closes and forgets the session if it exists; otherwise nothing happens. */
    method EndSession(sessionId: Option<string>)
      requires Valid()
      modifies this, activeSessions.Values
      ensures Valid()
      ensures sessionId.Some? && sessionId.value in old(activeSessions) ==>
        old(activeSessions[sessionId.value]).closed
      ensures activeSessions == if sessionId.Some? then old(activeSessions) - {sessionId.value} else old(activeSessions)
      ensures forall a :: a in old(activeSessions.Values) ==> a.State() == old(a.State())
    {
      if sessionId.Some? && sessionId.value in activeSessions {
        var agent := activeSessions[sessionId.value];
        agent.Close();
        activeSessions := activeSessions - {sessionId.value};
      }
    }

    /** The shutdown signal: every registered agent is closed, then the map is cleared. */
    method Shutdown()
      requires Valid()
      modifies this, activeSessions.Values
      ensures Valid() && activeSessions == map[]
      ensures forall a :: a in old(activeSessions.Values) ==> a.closed && a.State() == old(a.State())
    {
      var remaining := activeSessions.Values;
      while remaining != {}
        invariant remaining <= old(activeSessions.Values) && activeSessions == old(activeSessions)
        invariant forall a :: a in old(activeSessions.Values) ==> a.State() == old(a.State())
        invariant forall a :: a in old(activeSessions.Values) - remaining ==> a.closed
        decreases remaining
      {
        var agent :| agent in remaining;
        agent.Close();
        remaining := remaining - {agent};
      }
      activeSessions := map[];
    }
  }
}
