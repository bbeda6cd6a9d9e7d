/** convex/agents.ts: the AI agents of a workforce. */
module Agents {
  import opened Base
  import opened Seqs
  import opened Schema
  import opened Store
  import Messages

  /** The filter of the `by_workforce` index of `agents`. */
  function InWorkforce(workforceId: Id): Doc<Agent> -> bool {
    (a: Doc<Agent>) => a.data.workforceId == workforceId
  }

  /** `getByWorkforce`: the agents of a workforce, in creation order. */
  function GetByWorkforce(agents: seq<Doc<Agent>>, workforceId: Id): (r: seq<Doc<Agent>>)
    ensures forall a :: a in r <==> a in agents && a.data.workforceId == workforceId
  {
    Filter(agents, InWorkforce(workforceId))
  }

  /** The agent `create` stores: idle, nothing processed yet, never active. */
  function NewAgent(workforceId: Id, name: string, role: string, description: string,
                    systemPrompt: string, tools: seq<string>, now: int): (a: Agent)
    ensures a.workforceId == workforceId && a.name == name && a.role == role
    ensures a.description == description && a.systemPrompt == systemPrompt && a.tools == tools
    ensures a.status == Idle && a.messagesProcessed == 0 && a.lastActive == None && a.createdAt == now
  {
    Agent(workforceId, name, role, description, systemPrompt, tools, Idle, 0, None, now)
  }

  /** `create`: inserts the agent without checking that its workforce
      exists, and returns the new id. */
  function CreateEffect(st: Tables, workforceId: Id, name: string, role: string, description: string,
                        systemPrompt: string, tools: seq<string>, now: int): (o: Outcome<Id>)
    ensures o.result == Ok(st.nextId)
    ensures o.after == st.(agents := st.agents + [Doc(st.nextId, NewAgent(workforceId, name, role, description, systemPrompt, tools, now))],
                           nextId := st.nextId + 1)
  {
    var a := NewAgent(workforceId, name, role, description, systemPrompt, tools, now);
    Outcome(Ok(st.nextId), st.(agents := st.agents + [Doc(st.nextId, a)], nextId := st.nextId + 1))
  }

  /** The created agent is the last one `getByWorkforce` lists for its
      workforce, after the agents it already had. */
  lemma CreateThenListed(st: Tables, workforceId: Id, name: string, role: string, description: string,
                         systemPrompt: string, tools: seq<string>, now: int)
    ensures var o := CreateEffect(st, workforceId, name, role, description, systemPrompt, tools, now);
            GetByWorkforce(o.after.agents, workforceId)
              == GetByWorkforce(st.agents, workforceId) + [Doc(o.result.value, NewAgent(workforceId, name, role, description, systemPrompt, tools, now))]
  {
    var d := Doc(st.nextId, NewAgent(workforceId, name, role, description, systemPrompt, tools, now));
    FilterAppend(st.agents, [d], InWorkforce(workforceId));
    assert Filter([d], InWorkforce(workforceId)) == [d] by {
      assert d in Filter([d], InWorkforce(workforceId));
    }
  }

  lemma CreateKeepsConsistent(st: Tables, workforceId: Id, name: string, role: string, description: string,
                              systemPrompt: string, tools: seq<string>, now: int)
    requires Consistent(st)
    ensures Consistent(CreateEffect(st, workforceId, name, role, description, systemPrompt, tools, now).after)
  {
    InsertAgent(st, NewAgent(workforceId, name, role, description, systemPrompt, tools, now));
  }

  /** The arguments of `update` besides the id; `None` is a field left out,
      which `update` drops before patching. */
  datatype AgentPatch = AgentPatch(
    name: Option<string>,
    role: Option<string>,
    systemPrompt: Option<string>,
    tools: Option<seq<string>>,
    status: Option<AgentStatus>)

  /** The agent after the patch: each supplied field replaced, every other
      field (workforce, description, counters, dates) kept. */
  function Patched(a: Agent, p: AgentPatch): (r: Agent)
    ensures r.name == p.name.GetOr(a.name) && r.role == p.role.GetOr(a.role)
    ensures r.systemPrompt == p.systemPrompt.GetOr(a.systemPrompt) && r.tools == p.tools.GetOr(a.tools)
    ensures r.status == p.status.GetOr(a.status)
    ensures r.(name := a.name, role := a.role, systemPrompt := a.systemPrompt, tools := a.tools, status := a.status) == a
  {
    a.(name := p.name.GetOr(a.name),
       role := p.role.GetOr(a.role),
       systemPrompt := p.systemPrompt.GetOr(a.systemPrompt),
       tools := p.tools.GetOr(a.tools),
       status := p.status.GetOr(a.status))
  }

  /** Applying the same patch twice is applying it once. */
  lemma PatchedIdempotent(a: Agent, p: AgentPatch)
    ensures Patched(Patched(a, p), p) == Patched(a, p)
  {
  }

  /** A patch that supplies nothing changes nothing. */
  lemma PatchedEmpty(a: Agent)
    ensures Patched(a, AgentPatch(None, None, None, None, None)) == a
  {
  }

  /** `update`: throws for a missing agent; otherwise patches that agent
      and no other document. */
  function UpdateEffect(st: Tables, id: Id, p: AgentPatch): (o: Outcome<()>)
    ensures Get(st.agents, id).None? ==> o == Rollback(st, NonexistentDocument(id))
    ensures Get(st.agents, id).Some? ==>
              && o.result.Ok?
              && o.after == st.(agents := o.after.agents)
              && OnlyPatched(st.agents, o.after.agents, id)
              && Get(o.after.agents, id) == Some(Patched(Get(st.agents, id).value, p))
  {
    match Get(st.agents, id)
    case None => Rollback(st, NonexistentDocument(id))
    case Some(a) =>
      GetPut(st.agents, id, Patched(a, p));
      Outcome(Ok(()), st.(agents := Put(st.agents, id, Patched(a, p))))
  }

  lemma UpdateKeepsConsistent(st: Tables, id: Id, p: AgentPatch)
    requires Consistent(st)
    ensures Consistent(UpdateEffect(st, id, p).after)
  {
    if Get(st.agents, id).Some? {
      PutAgent(st, id, Patched(Get(st.agents, id).value, p));
    }
  }

  /** An update never moves an agent to another workforce. */
  lemma UpdateKeepsWorkforce(st: Tables, id: Id, p: AgentPatch, workforceId: Id)
    requires Consistent(st) && Get(st.agents, id).Some?
    ensures |GetByWorkforce(UpdateEffect(st, id, p).after.agents, workforceId)| == |GetByWorkforce(st.agents, workforceId)|
  {
    var a := Get(st.agents, id).value;
    FilterPutSameLength(st.agents, id, Patched(a, p), InWorkforce(workforceId));
  }

  /** Replacing one document by one that passes the same test keeps the
      number of documents that pass it. */
  lemma {:induction false} FilterPutSameLength(t: seq<Doc<Agent>>, id: Id, x: Agent, keep: Doc<Agent> -> bool)
    requires forall d :: d in t && d.id == id ==> keep(d) == keep(Doc(id, x))
    ensures |Filter(Put(t, id, x), keep)| == |Filter(t, keep)|
  {
    if t != [] {
      FilterPutSameLength(t[1..], id, x, keep);
      assert Put(t, id, x) == [Put(t, id, x)[0]] + Put(t[1..], id, x);
    }
  }

  /** `remove`: throws for a missing agent, which also undoes the deletion
      of its messages; otherwise deletes the agent and every message it
      holds, and nothing else. */
  function RemoveEffect(st: Tables, id: Id): (o: Outcome<()>)
    ensures Get(st.agents, id).None? ==> o == Rollback(st, NonexistentDocument(id))
    ensures Get(st.agents, id).Some? ==>
              && o.result.Ok?
              && o.after == st.(agents := o.after.agents, messages := o.after.messages)
              && (forall a :: a in o.after.agents <==> a in st.agents && a.id != id)
              && (forall m :: m in o.after.messages <==> m in st.messages && m.data.agentId != id)
  {
    match Get(st.agents, id)
    case None => Rollback(st, NonexistentDocument(id))
    case Some(_) =>
      Outcome(Ok(()), st.(agents := Delete(st.agents, id), messages := Messages.WithoutAgent(st.messages, id)))
  }

  lemma RemoveKeepsConsistent(st: Tables, id: Id)
    requires Consistent(st)
    ensures Consistent(RemoveEffect(st, id).after)
  {
    if Get(st.agents, id).Some? {
      KeyedFilter(st.agents, st.nextId, IdIsNot(id));
      KeyedFilter(st.messages, st.nextId, Messages.AgentIsNot(id));
      WithAgents(st, Delete(st.agents, id));
      WithMessages(st.(agents := Delete(st.agents, id)), Messages.WithoutAgent(st.messages, id));
    }
  }

  /** After `remove` no message points at the removed agent any more. */
  lemma RemoveLeavesNoMessages(st: Tables, id: Id)
    requires Get(st.agents, id).Some?
    ensures Messages.ByAgent(RemoveEffect(st, id).after.messages, id) == []
  {
    FilterNone(RemoveEffect(st, id).after.messages, Messages.AgentIs(id));
  }

  /** The mutation `create`. */
  method Create(db: Db, workforceId: Id, name: string, role: string, description: string,
                systemPrompt: string, tools: seq<string>) returns (id: Id)
    requires db.Valid()
    modifies db
    ensures db.Valid() && db.clock == old(db.clock)
    ensures Ok(id) == CreateEffect(old(db.State()), workforceId, name, role, description, systemPrompt, tools, old(db.clock)).result
    ensures db.State() == CreateEffect(old(db.State()), workforceId, name, role, description, systemPrompt, tools, old(db.clock)).after
  {
    CreateKeepsConsistent(db.State(), workforceId, name, role, description, systemPrompt, tools, db.clock);
    id := db.nextId;
    db.agents := db.agents + [Doc(id, NewAgent(workforceId, name, role, description, systemPrompt, tools, db.clock))];
    db.nextId := id + 1;
  }

  /** The mutation `update`. */
  method Update(db: Db, id: Id, p: AgentPatch) returns (r: Result<(), Failure>)
    requires db.Valid()
    modifies db
    ensures db.Valid() && db.clock == old(db.clock)
    ensures r == UpdateEffect(old(db.State()), id, p).result
    ensures db.State() == UpdateEffect(old(db.State()), id, p).after
  {
    UpdateKeepsConsistent(db.State(), id, p);
    var a := Get(db.agents, id);
    if a.None? {
      return Err(NonexistentDocument(id));
    }
    db.agents := Put(db.agents, id, Patched(a.value, p));
    r := Ok(());
  }

  /** The mutation `remove`: the agent's messages are deleted first, then
      the agent; when the agent is missing the deletion throws and the
      messages come back. */
  method Remove(db: Db, id: Id) returns (r: Result<(), Failure>)
    requires db.Valid()
    modifies db
    ensures db.Valid() && db.clock == old(db.clock)
    ensures r == RemoveEffect(old(db.State()), id).result
    ensures db.State() == RemoveEffect(old(db.State()), id).after
  {
    var start := db.State();
    RemoveKeepsConsistent(start, id);
    Messages.DeleteOfAgent(db, id);
    if Get(db.agents, id).None? {
      db.Restore(start);
      return Err(NonexistentDocument(id));
    }
    db.agents := Delete(db.agents, id);
    r := Ok(());
  }
}
