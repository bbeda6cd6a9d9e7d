/** convex/messages.ts: the chat between a user and a workforce's agents. */
module Messages {
  import opened Base
  import opened Seqs
  import opened Schema
  import opened Store

  /** The `by_workforce` index of `messages`, in creation order. */
  function InWorkforce(ms: seq<Doc<Message>>, workforceId: Id): (r: seq<Doc<Message>>)
    ensures forall m :: m in r <==> m in ms && m.data.workforceId == workforceId
  {
    Filter(ms, (m: Doc<Message>) => m.data.workforceId == workforceId)
  }

  /** The `by_agent` index of `messages`, in creation order. */
  function ByAgent(ms: seq<Doc<Message>>, agentId: Id): (r: seq<Doc<Message>>)
    ensures forall m :: m in r <==> m in ms && m.data.agentId == agentId
  {
    Filter(ms, AgentIs(agentId))
  }

  function AgentIs(agentId: Id): Doc<Message> -> bool {
    (m: Doc<Message>) => m.data.agentId == agentId
  }

  function AgentIsNot(agentId: Id): Doc<Message> -> bool {
    (m: Doc<Message>) => m.data.agentId != agentId
  }

  function AgentNotIn(agentIds: set<Id>): Doc<Message> -> bool {
    (m: Doc<Message>) => m.data.agentId !in agentIds
  }

  /** The messages left once those of one agent are deleted. */
  function WithoutAgent(ms: seq<Doc<Message>>, agentId: Id): (r: seq<Doc<Message>>)
    ensures forall m :: m in r <==> m in ms && m.data.agentId != agentId
  {
    Filter(ms, AgentIsNot(agentId))
  }

  /** The number of messages `listByWorkforce` returns when no limit is given. */
  const DefaultLimit: nat := 50

  /** `listByWorkforce`: the workforce's latest `limit` messages (50 when
      none is given), latest first. */
  function ListByWorkforce(st: Tables, workforceId: Id, limit: Option<nat>): (r: seq<Doc<Message>>)
    ensures var all := InWorkforce(st.messages, workforceId);
            && |r| == (if |all| < limit.GetOr(DefaultLimit) then |all| else limit.GetOr(DefaultLimit))
            && forall i :: 0 <= i < |r| ==> r[i] == all[|all| - 1 - i]
  {
    Newest(InWorkforce(st.messages, workforceId), limit.GetOr(DefaultLimit))
  }

  /** Every listed message belongs to the workforce, and the list never
      exceeds the limit. */
  lemma ListByWorkforceSound(st: Tables, workforceId: Id, limit: Option<nat>)
    ensures |ListByWorkforce(st, workforceId, limit)| <= limit.GetOr(DefaultLimit)
    ensures forall m :: m in ListByWorkforce(st, workforceId, limit) ==> m in st.messages && m.data.workforceId == workforceId
  {
    var r := ListByWorkforce(st, workforceId, limit);
    var all := InWorkforce(st.messages, workforceId);
    forall m | m in r ensures m in all {
      var i :| 0 <= i < |r| && r[i] == m;
      assert all[|all| - 1 - i] == m;
    }
  }

  /** `send`: stores the message as given, without looking up the agent or
      the workforce, and returns its id. */
  function SendEffect(st: Tables, agentId: Id, workforceId: Id, role: MessageRole, content: string, now: int)
    : (o: Outcome<Id>)
    ensures o.result == Ok(st.nextId)
    ensures o.after == st.(messages := st.messages + [Doc(st.nextId, Message(agentId, workforceId, role, content, now))],
                           nextId := st.nextId + 1)
  {
    Outcome(Ok(st.nextId), st.(messages := st.messages + [Doc(st.nextId, Message(agentId, workforceId, role, content, now))],
                               nextId := st.nextId + 1))
  }

  /** A message sent is the first one `listByWorkforce` shows. */
  lemma SendThenListed(st: Tables, agentId: Id, workforceId: Id, role: MessageRole, content: string, now: int, limit: Option<nat>)
    requires limit.GetOr(DefaultLimit) > 0
    ensures var o := SendEffect(st, agentId, workforceId, role, content, now);
            var r := ListByWorkforce(o.after, workforceId, limit);
            |r| > 0 && r[0] == Doc(o.result.value, Message(agentId, workforceId, role, content, now))
  {
    var m := Doc(st.nextId, Message(agentId, workforceId, role, content, now));
    FilterAppend(st.messages, [m], (x: Doc<Message>) => x.data.workforceId == workforceId);
    assert InWorkforce([m], workforceId) == [m] by {
      assert m in InWorkforce([m], workforceId);
    }
  }

  lemma SendKeepsConsistent(st: Tables, agentId: Id, workforceId: Id, role: MessageRole, content: string, now: int)
    requires Consistent(st)
    ensures Consistent(SendEffect(st, agentId, workforceId, role, content, now).after)
  {
    InsertMessage(st, Message(agentId, workforceId, role, content, now));
  }

  /** The mutation `send`. */
  method Send(db: Db, agentId: Id, workforceId: Id, role: MessageRole, content: string) returns (id: Id)
    requires db.Valid()
    modifies db
    ensures db.Valid() && db.clock == old(db.clock)
    ensures Ok(id) == SendEffect(old(db.State()), agentId, workforceId, role, content, old(db.clock)).result
    ensures db.State() == SendEffect(old(db.State()), agentId, workforceId, role, content, old(db.clock)).after
  {
    SendKeepsConsistent(db.State(), agentId, workforceId, role, content, db.clock);
    id := db.nextId;
    db.messages := db.messages + [Doc(id, Message(agentId, workforceId, role, content, db.clock))];
    db.nextId := id + 1;
  }

  /** Deleting every message a list names leaves those of the other agents. */
  lemma DeletedAll(m0: seq<Doc<Message>>, agentId: Id)
    ensures Filter(m0, NotAmong(ByAgent(m0, agentId))) == WithoutAgent(m0, agentId)
  {
    FilterCongruent(m0, NotAmong(ByAgent(m0, agentId)), AgentIsNot(agentId));
  }

  /** The loop `for (const msg of messages) await ctx.db.delete(msg._id)`
      over the `by_agent` index: deletes every message of the agent and no
      other document. */
  method DeleteOfAgent(db: Db, agentId: Id)
    requires Keyed(db.messages, db.nextId)
    modifies db
    ensures db.State() == old(db.State()).(messages := WithoutAgent(old(db.messages), agentId))
    ensures db.clock == old(db.clock)
  {
    ghost var m0 := db.messages;
    var doomed := ByAgent(db.messages, agentId);
    assert doomed[..0] == [];
    FilterKeepsAll(m0, NotAmong(doomed[..0]));
    for j := 0 to |doomed|
      invariant db.messages == Filter(m0, NotAmong(doomed[..j]))
      invariant db.State() == old(db.State()).(messages := db.messages)
      invariant db.clock == old(db.clock)
    {
      DeleteNext(m0, db.nextId, doomed, j);
      db.messages := Delete(db.messages, doomed[j].id);
    }
    assert doomed[..|doomed|] == doomed;
    DeletedAll(m0, agentId);
  }
}
