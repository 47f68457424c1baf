/** The notification handlers (api/notify/route.ts) over the in-memory store: sending
    a notification to an agent named by its session key, and fetching an agent's
    pending notifications, marking them delivered unless asked not to. */
module NotifyRoute {
  import opened Types
  import opened Store

  /** POST /api/notify: 400 when the target session or the content is missing or
      empty; 404 when no agent holds the target session, with nothing written;
      otherwise 201, one notification to the target (sender resolved from its
      session, task id or null, not delivered) and the target's name. */
  method Post(db: Database, toSession: Option<string>, fromSession: Option<string>, taskId: Option<Id>,
              content: Option<string>, now: int)
    returns (code: int, notification: Option<Notification>, sentTo: Option<string>)
    requires db.Valid()
    modifies db`notifications, db`nextId
    ensures db.Valid()
    ensures !Present(toSession) || !Present(content) ==> code == 400
    ensures Present(toSession) && Present(content) && AgentBySession(db.agents, toSession.value).None? ==> code == 404
    ensures Present(toSession) && Present(content) && AgentBySession(db.agents, toSession.value).Some? ==> code == 201
    ensures code != 201 ==> notification.None? && sentTo.None? && db.notifications == old(db.notifications)
    ensures code == 201 ==>
              var target := AgentBySession(db.agents, toSession.value).value;
              && AddsNotification(old(db.notifications), db.notifications, target.id,
                                  ResolveSession(db.agents, fromSession), taskId, content.value, now)
              && notification == Some(db.notifications[|old(db.notifications)|])
              && sentTo == Some(target.name)
  {
    if !Present(toSession) || !Present(content) {
      return 400, None, None;
    }
    var toAgent := AgentBySession(db.agents, toSession.value);
    if toAgent.None? {
      return 404, None, None;
    }
    var fromAgentId := ResolveSession(db.agents, fromSession);
    var n := db.InsertNotification(toAgent.value.id, fromAgentId, taskId, content.value, now);
    return 201, Some(n), Some(toAgent.value.name);
  }

  /** `searchParams.get("mark_delivered") !== "false"`. */
  function MarkRequested(markDelivered: Option<string>): (r: bool)
    ensures !r <==> markDelivered == Some("false")
  {
    markDelivered != Some("false")
  }

  /** GET /api/notify: 400 without a session, 404 for an unknown one; otherwise 200 and
      exactly the agent's undelivered notifications, oldest first. When marking is on
      (any mark_delivered other than "false") every returned row becomes delivered, no
      other row changes and the agent has nothing pending afterwards; when it is off the
      table is untouched. */
  method Get(db: Database, session: Option<string>, markDelivered: Option<string>)
    returns (code: int, pending: seq<Notification>)
    requires db.Valid()
    modifies db`notifications
    ensures db.Valid()
    ensures !Present(session) ==> code == 400
    ensures Present(session) && AgentBySession(db.agents, session.value).None? ==> code == 404
    ensures Present(session) && AgentBySession(db.agents, session.value).Some? ==> code == 200
    ensures code != 200 ==> pending == [] && db.notifications == old(db.notifications)
    ensures code == 200 ==>
              var agentId := AgentBySession(db.agents, session.value).value.id;
              && pending == Undelivered(old(db.notifications), agentId)
              && (MarkRequested(markDelivered) ==>
                    && db.notifications == MarkAll(old(db.notifications), IdsOf(pending))
                    && Undelivered(db.notifications, agentId) == [])
              && (!MarkRequested(markDelivered) ==> db.notifications == old(db.notifications))
  {
    var mark := MarkRequested(markDelivered);
    if !Present(session) {
      return 400, [];
    }
    var agent := AgentBySession(db.agents, session.value);
    if agent.None? {
      return 404, [];
    }
    pending := db.TakePending(agent.value.id, mark);
    code := 200;
  }

  /** A notification just sent is pending for its target until fetched. */
  lemma SentIsPending(before: seq<Notification>, after: seq<Notification>, target: Id, from: Option<Id>,
                      taskId: Option<Id>, content: string, now: int)
    requires AddsNotification(before, after, target, from, taskId, content, now)
    ensures after[|before|] in Undelivered(after, target)
    ensures Undelivered(after, target)[|Undelivered(after, target)| - 1] == after[|before|]
  {
    var n := after[|before|];
    assert n.mentionedAgentId == target && !n.delivered;
    assert after == before + [n] by {
      assert after == after[..|before|] + [n];
    }
    UndeliveredSnoc(before, n, target);
    var u := Undelivered(before, target);
    assert Undelivered(after, target) == u + [n];
    assert (u + [n])[|u|] == n;
  }

  lemma {:induction false} UndeliveredSnoc(ns: seq<Notification>, n: Notification, agentId: Id)
    ensures Undelivered(ns + [n], agentId)
            == Undelivered(ns, agentId) + (if n.mentionedAgentId == agentId && !n.delivered then [n] else [])
  {
    if ns == [] {
      assert ns + [n] == [n];
      assert [n][1..] == [];
    } else {
      var head := if ns[0].mentionedAgentId == agentId && !ns[0].delivered then [ns[0]] else [];
      var last := if n.mentionedAgentId == agentId && !n.delivered then [n] else [];
      assert (ns + [n])[0] == ns[0] && (ns + [n])[1..] == ns[1..] + [n];
      UndeliveredSnoc(ns[1..], n, agentId);
      calc {
        Undelivered(ns + [n], agentId);
        head + Undelivered(ns[1..] + [n], agentId);
        head + (Undelivered(ns[1..], agentId) + last);
        (head + Undelivered(ns[1..], agentId)) + last;
      }
    }
  }
}
