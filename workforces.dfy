/** convex/workforces.ts: a user's teams of agents, created empty or staffed
    from a template, limited in number by the user's plan. */
module Workforces {
  import opened Base
  import opened Seqs
  import opened Schema
  import opened Store
  import Users
  import Agents
  import Messages

  /** How many workforces each plan allows. */
  function Limit(plan: Plan): (n: nat)
    ensures n >= 1
    ensures plan == Free ==> n == 1
  {
    match plan
    case Free => 1
    case Pro => 3
    case Enterprise => 999
  }

  /** A higher plan never allows fewer workforces. */
  lemma LimitMonotone()
    ensures Limit(Free) < Limit(Pro) < Limit(Enterprise)
  {
  }

  function OfUser(userId: Id): Doc<Workforce> -> bool {
    (w: Doc<Workforce>) => w.data.userId == userId
  }

  /** The `by_user` index of `workforces`, in creation order. */
  function ByUser(workforces: seq<Doc<Workforce>>, userId: Id): (r: seq<Doc<Workforce>>)
    ensures forall w :: w in r <==> w in workforces && w.data.userId == userId
  {
    Filter(workforces, OfUser(userId))
  }

  /** The agent `create` makes from one blueprint of the template. */
  function Staffer(workforceId: Id, b: AgentBlueprint, now: int): (a: Agent)
    ensures a.workforceId == workforceId && a.name == b.name && a.role == b.role
    ensures a.description == b.description && a.systemPrompt == b.systemPrompt && a.tools == b.tools
    ensures a.status == Idle && a.messagesProcessed == 0 && a.lastActive == None && a.createdAt == now
  {
    Agents.NewAgent(workforceId, b.name, b.role, b.description, b.systemPrompt, b.tools, now)
  }

  /** One agent per blueprint, in the template's order. */
  function Staff(workforceId: Id, blueprints: seq<AgentBlueprint>, now: int): (r: seq<Agent>)
    ensures |r| == |blueprints|
    ensures forall i :: 0 <= i < |r| ==> r[i] == Staffer(workforceId, blueprints[i], now)
  {
    seq(|blueprints|, i requires 0 <= i < |blueprints| => Staffer(workforceId, blueprints[i], now))
  }

  /** The blueprints `create` staffs from: the template's when one is named
      and exists; none when it is not named or has gone. */
  function Blueprints(st: Tables, templateId: Option<Id>): (r: seq<AgentBlueprint>)
    ensures templateId.Some? && Get(st.templates, templateId.value).Some? ==> r == Get(st.templates, templateId.value).value.agents
    ensures templateId.None? || Get(st.templates, templateId.value).None? ==> r == []
  {
    if templateId.Some? then
      match Get(st.templates, templateId.value)
      case Some(t) => t.agents
      case None => []
    else []
  }

  /** The tables after inserting the workforce `w`, then its agents. */
  function Enroll(st: Tables, w: Workforce, staff: seq<Agent>): Tables {
    var st1 := st.(workforces := st.workforces + [Doc(st.nextId, w)], nextId := st.nextId + 1);
    st1.(agents := st1.agents + Docs(st1.nextId, staff), nextId := st1.nextId + |staff|)
  }

  lemma EnrollKeepsConsistent(st: Tables, w: Workforce, staff: seq<Agent>)
    requires Consistent(st)
    ensures Consistent(Enroll(st, w, staff))
  {
    var st1 := st.(workforces := st.workforces + [Doc(st.nextId, w)], nextId := st.nextId + 1);
    InsertWorkforce(st, w);
    InsertAgents(st1, staff);
    assert Enroll(st, w, staff) == st1.(agents := st1.agents + Docs(st1.nextId, staff), nextId := st1.nextId + |staff|);
  }

  /** The tables after a successful `create` by the user `userId`: the new
      workforce, then its agents. */
  function Founded(st: Tables, userId: Id, name: string, templateId: Option<Id>,
                   config: Option<WorkforceConfig>, now: int): Tables
  {
    Enroll(st, Workforce(name, userId, templateId, WorkforceStatus.Active, config, now),
           Staff(st.nextId, Blueprints(st, templateId), now))
  }

  /** `create`: "User not found" for an unknown Clerk id, "Plan limit
      reached" once the user owns as many workforces as the plan allows;
      otherwise the new workforce's id. */
  function CreateEffect(st: Tables, clerkId: string, name: string, templateId: Option<Id>,
                        config: Option<WorkforceConfig>, now: int): (o: Outcome<Id>)
    ensures Users.GetByClerkId(st, clerkId).None? ==> o == Rollback(st, UserNotFound)
    ensures Users.GetByClerkId(st, clerkId).Some? ==>
              var u := Users.GetByClerkId(st, clerkId).value;
              if |ByUser(st.workforces, u.id)| >= Limit(u.data.plan) then o == Rollback(st, PlanLimitReached)
              else o.result == Ok(st.nextId) && o.after == Founded(st, u.id, name, templateId, config, now)
  {
    match Users.GetByClerkId(st, clerkId)
    case None => Rollback(st, UserNotFound)
    case Some(u) =>
      if |ByUser(st.workforces, u.id)| >= Limit(u.data.plan) then Rollback(st, PlanLimitReached)
      else Outcome(Ok(st.nextId), Founded(st, u.id, name, templateId, config, now))
  }

  lemma FoundedKeepsConsistent(st: Tables, userId: Id, name: string, templateId: Option<Id>,
                               config: Option<WorkforceConfig>, now: int)
    requires Consistent(st)
    ensures Consistent(Founded(st, userId, name, templateId, config, now))
  {
    EnrollKeepsConsistent(st, Workforce(name, userId, templateId, WorkforceStatus.Active, config, now),
                          Staff(st.nextId, Blueprints(st, templateId), now));
  }

  lemma CreateKeepsConsistent(st: Tables, clerkId: string, name: string, templateId: Option<Id>,
                              config: Option<WorkforceConfig>, now: int)
    requires Consistent(st)
    ensures Consistent(CreateEffect(st, clerkId, name, templateId, config, now).after)
  {
    var u := Users.GetByClerkId(st, clerkId);
    if u.Some? {
      FoundedKeepsConsistent(st, u.value.id, name, templateId, config, now);
    }
  }

  /** A successful `create` leaves the user with one more workforce and
      never more than the plan allows; other users keep theirs. */
  lemma CreateRespectsLimit(st: Tables, clerkId: string, name: string, templateId: Option<Id>,
                            config: Option<WorkforceConfig>, now: int, other: Id)
    requires CreateEffect(st, clerkId, name, templateId, config, now).result.Ok?
    ensures var u := Users.GetByClerkId(st, clerkId).value;
            var after := CreateEffect(st, clerkId, name, templateId, config, now).after;
            && |ByUser(after.workforces, u.id)| == |ByUser(st.workforces, u.id)| + 1 <= Limit(u.data.plan)
            && (other != u.id ==> ByUser(after.workforces, other) == ByUser(st.workforces, other))
  {
    var u := Users.GetByClerkId(st, clerkId).value;
    var w := Doc(st.nextId, Workforce(name, u.id, templateId, WorkforceStatus.Active, config, now));
    FilterAppend(st.workforces, [w], OfUser(u.id));
    FilterAppend(st.workforces, [w], OfUser(other));
    assert Filter([w], OfUser(u.id)) == [w] by {
      assert w in Filter([w], OfUser(u.id));
    }
    if other != u.id {
      FilterNone([w], OfUser(other));
    }
  }

  /** A user at the plan's limit cannot create another workforce, whatever
      the arguments. */
  lemma CreateAtLimitRefused(st: Tables, clerkId: string, name: string, templateId: Option<Id>,
                             config: Option<WorkforceConfig>, now: int)
    requires Users.GetByClerkId(st, clerkId).Some?
    requires var u := Users.GetByClerkId(st, clerkId).value;
             |ByUser(st.workforces, u.id)| >= Limit(u.data.plan)
    ensures CreateEffect(st, clerkId, name, templateId, config, now) == Rollback(st, PlanLimitReached)
  {
  }

  /** Agents staffed for a workforce are listed for it after the ones it had. */
  lemma StaffListed(agents: seq<Doc<Agent>>, next: nat, workforceId: Id, blueprints: seq<AgentBlueprint>, now: int)
    ensures var staff := Docs(next, Staff(workforceId, blueprints, now));
            Agents.GetByWorkforce(agents + staff, workforceId) == Agents.GetByWorkforce(agents, workforceId) + staff
  {
    var staff := Docs(next, Staff(workforceId, blueprints, now));
    FilterAppend(agents, staff, Agents.InWorkforce(workforceId));
    forall a | a in staff ensures Agents.InWorkforce(workforceId)(a) {
      var i :| 0 <= i < |staff| && staff[i] == a;
    }
    FilterKeepsAll(staff, Agents.InWorkforce(workforceId));
  }

  /** The new workforce's agents are the template's blueprints, one each,
      idle, in the template's order, after any agent that already named
      the fresh id; without a template it gets none. */
  lemma FoundedStaff(st: Tables, userId: Id, name: string, templateId: Option<Id>,
                     config: Option<WorkforceConfig>, now: int)
    ensures var wid := st.nextId;
            Agents.GetByWorkforce(Founded(st, userId, name, templateId, config, now).agents, wid)
              == Agents.GetByWorkforce(st.agents, wid) + Docs(wid + 1, Staff(wid, Blueprints(st, templateId), now))
  {
    var staff := Staff(st.nextId, Blueprints(st, templateId), now);
    StaffListed(st.agents, st.nextId + 1, st.nextId, Blueprints(st, templateId), now);
    assert Founded(st, userId, name, templateId, config, now).agents == st.agents + Docs(st.nextId + 1, staff);
  }

  function NotInWorkforce(workforceId: Id): Doc<Agent> -> bool {
    (a: Doc<Agent>) => a.data.workforceId != workforceId
  }

  /** The tables after a successful `remove`. */
  function Dissolved(st: Tables, id: Id): Tables {
    var staffIds := IdsOf(Agents.GetByWorkforce(st.agents, id));
    st.(workforces := Delete(st.workforces, id),
        agents := Filter(st.agents, NotInWorkforce(id)),
        messages := Filter(st.messages, Messages.AgentNotIn(staffIds)))
  }

  /** `remove`: throws for a missing workforce, which also undoes the
      deletions before it; otherwise deletes the workforce, its agents and
      their messages. Messages that name the workforce but an agent of
      another one stay. */
  function RemoveEffect(st: Tables, id: Id): (o: Outcome<()>)
    ensures Get(st.workforces, id).None? ==> o == Rollback(st, NonexistentDocument(id))
    ensures Get(st.workforces, id).Some? ==>
              && o.result.Ok?
              && o.after == st.(workforces := o.after.workforces, agents := o.after.agents, messages := o.after.messages)
              && (forall w :: w in o.after.workforces <==> w in st.workforces && w.id != id)
              && (forall a :: a in o.after.agents <==> a in st.agents && a.data.workforceId != id)
              && (forall m :: m in o.after.messages <==>
                    m in st.messages && !exists a :: a in st.agents && a.data.workforceId == id && a.id == m.data.agentId)
  {
    match Get(st.workforces, id)
    case None => Rollback(st, NonexistentDocument(id))
    case Some(_) =>
      var after := Dissolved(st, id);
      assert forall m :: m in after.messages <==>
               m in st.messages && !exists a :: a in st.agents && a.data.workforceId == id && a.id == m.data.agentId
      by {
        var staff := Agents.GetByWorkforce(st.agents, id);
        forall m | m in st.messages
          ensures m.data.agentId in IdsOf(staff) <==> exists a :: a in st.agents && a.data.workforceId == id && a.id == m.data.agentId
        {
          if m.data.agentId in IdsOf(staff) {
            var a :| a in staff && a.id == m.data.agentId;
          }
        }
      }
      Outcome(Ok(()), after)
  }

  lemma RemoveKeepsConsistent(st: Tables, id: Id)
    requires Consistent(st)
    ensures Consistent(RemoveEffect(st, id).after)
  {
    if Get(st.workforces, id).Some? {
      var staffIds := IdsOf(Agents.GetByWorkforce(st.agents, id));
      KeyedFilter(st.workforces, st.nextId, IdIsNot(id));
      KeyedFilter(st.agents, st.nextId, NotInWorkforce(id));
      KeyedFilter(st.messages, st.nextId, Messages.AgentNotIn(staffIds));
      var st1 := st.(workforces := Delete(st.workforces, id));
      WithWorkforces(st, st1.workforces);
      var st2 := st1.(agents := Filter(st.agents, NotInWorkforce(id)));
      WithAgents(st1, st2.agents);
      WithMessages(st2, Filter(st.messages, Messages.AgentNotIn(staffIds)));
    }
  }

  /** After `remove` no agent is listed for the workforce. */
  lemma RemoveLeavesNoAgents(st: Tables, id: Id)
    requires Get(st.workforces, id).Some?
    ensures Agents.GetByWorkforce(RemoveEffect(st, id).after.agents, id) == []
  {
    FilterNone(RemoveEffect(st, id).after.agents, Agents.InWorkforce(id));
  }

  /** `updateStatus`: throws for a missing workforce; otherwise sets the
      status of that workforce and changes nothing else. */
  function UpdateStatusEffect(st: Tables, id: Id, status: WorkforceStatus): (o: Outcome<()>)
    ensures Get(st.workforces, id).None? ==> o == Rollback(st, NonexistentDocument(id))
    ensures Get(st.workforces, id).Some? ==>
              && o.result.Ok?
              && o.after == st.(workforces := o.after.workforces)
              && OnlyPatched(st.workforces, o.after.workforces, id)
              && Get(o.after.workforces, id) == Some(Get(st.workforces, id).value.(status := status))
  {
    match Get(st.workforces, id)
    case None => Rollback(st, NonexistentDocument(id))
    case Some(w) =>
      GetPut(st.workforces, id, w.(status := status));
      Outcome(Ok(()), st.(workforces := Put(st.workforces, id, w.(status := status))))
  }

  lemma UpdateStatusKeepsConsistent(st: Tables, id: Id, status: WorkforceStatus)
    requires Consistent(st)
    ensures Consistent(UpdateStatusEffect(st, id, status).after)
  {
    if Get(st.workforces, id).Some? {
      PutWorkforce(st, id, Get(st.workforces, id).value.(status := status));
    }
  }

  /** Setting the status twice is setting it once. */
  lemma UpdateStatusIdempotent(st: Tables, id: Id, status: WorkforceStatus)
    ensures var once := UpdateStatusEffect(st, id, status).after;
            UpdateStatusEffect(once, id, status).after == once
  {
    var w := Get(st.workforces, id);
    if w.Some? {
      var t := Put(st.workforces, id, w.value.(status := status));
      assert Put(t, id, w.value.(status := status)) == t;
    }
  }

  /** What `get` returns: the workforce, its agents and its latest messages. */
  datatype Detail = Detail(workforce: Doc<Workforce>, agents: seq<Doc<Agent>>, recentMessages: seq<Doc<Message>>)

  /** How many messages `get` shows. */
  const RecentLimit: nat := 20

  /** `get`: none for a missing workforce; otherwise the workforce with all
      its agents and at most its 20 latest messages, latest first. */
  function Lookup(st: Tables, id: Id): (r: Option<Detail>)
    ensures r.None? <==> Get(st.workforces, id).None?
    ensures r.Some? ==>
              && r.value.workforce == Doc(id, Get(st.workforces, id).value)
              && (forall a :: a in r.value.agents <==> a in st.agents && a.data.workforceId == id)
              && |r.value.recentMessages| <= RecentLimit
              && (forall m :: m in r.value.recentMessages ==> m in st.messages && m.data.workforceId == id)
    ensures r.Some? ==>
              && r.value.agents == Agents.GetByWorkforce(st.agents, id)
              && r.value.recentMessages == Messages.ListByWorkforce(st, id, Some(RecentLimit))
  {
    match Get(st.workforces, id)
    case None => None
    case Some(w) =>
      Messages.ListByWorkforceSound(st, id, Some(RecentLimit));
      Some(Detail(Doc(id, w), Agents.GetByWorkforce(st.agents, id), Messages.ListByWorkforce(st, id, Some(RecentLimit))))
  }

  /** A workforce just created is found, with the template's agents. */
  lemma FoundedThenLookup(st: Tables, userId: Id, name: string, templateId: Option<Id>,
                          config: Option<WorkforceConfig>, now: int)
    requires Consistent(st)
    ensures var after := Founded(st, userId, name, templateId, config, now);
            var r := Lookup(after, st.nextId);
            && r.Some?
            && r.value.workforce.data == Workforce(name, userId, templateId, WorkforceStatus.Active, config, now)
            && r.value.agents == Agents.GetByWorkforce(st.agents, st.nextId) + Docs(st.nextId + 1, Staff(st.nextId, Blueprints(st, templateId), now))
  {
    var w := Workforce(name, userId, templateId, WorkforceStatus.Active, config, now);
    GetAppend(st.workforces, [Doc(st.nextId, w)], st.nextId);
    FoundedStaff(st, userId, name, templateId, config, now);
  }

  /** One entry of `listByUser`: a workforce with its agents and their number. */
  datatype Summary = Summary(workforce: Doc<Workforce>, agentCount: nat, agents: seq<Doc<Agent>>)

  function Summarize(st: Tables, w: Doc<Workforce>): (r: Summary)
    ensures r.workforce == w && r.agentCount == |r.agents|
    ensures forall a :: a in r.agents <==> a in st.agents && a.data.workforceId == w.id
  {
    var agents := Agents.GetByWorkforce(st.agents, w.id);
    Summary(w, |agents|, agents)
  }

  /** `listByUser`: nothing for an unknown Clerk id; otherwise each of the
      user's workforces, in creation order, with its agents counted. */
  function ListByUser(st: Tables, clerkId: string): (r: seq<Summary>)
    ensures Users.GetByClerkId(st, clerkId).None? ==> r == []
    ensures Users.GetByClerkId(st, clerkId).Some? ==>
              var mine := ByUser(st.workforces, Users.GetByClerkId(st, clerkId).value.id);
              && |r| == |mine|
              && forall i :: 0 <= i < |r| ==> r[i] == Summarize(st, mine[i])
  {
    match Users.GetByClerkId(st, clerkId)
    case None => []
    case Some(u) =>
      var mine := ByUser(st.workforces, u.id);
      seq(|mine|, i requires 0 <= i < |mine| => Summarize(st, mine[i]))
  }

  /** A user never sees more workforces than the plan allows, as long as
      only `create` adds them: after a successful `create` the listing grows
      by one entry, the new workforce, and stays within the limit. */
  lemma CreateThenListed(st: Tables, clerkId: string, name: string, templateId: Option<Id>,
                         config: Option<WorkforceConfig>, now: int)
    requires CreateEffect(st, clerkId, name, templateId, config, now).result.Ok?
    ensures var u := Users.GetByClerkId(st, clerkId).value;
            var after := CreateEffect(st, clerkId, name, templateId, config, now).after;
            var r := ListByUser(after, clerkId);
            && |r| == |ListByUser(st, clerkId)| + 1 <= Limit(u.data.plan)
            && r[|r| - 1].workforce.id == st.nextId
  {
    var u := Users.GetByClerkId(st, clerkId).value;
    var w := Doc(st.nextId, Workforce(name, u.id, templateId, WorkforceStatus.Active, config, now));
    CreateRespectsLimit(st, clerkId, name, templateId, config, now, u.id);
    FilterAppend(st.workforces, [w], OfUser(u.id));
    assert Filter([w], OfUser(u.id)) == [w] by {
      assert w in Filter([w], OfUser(u.id));
    }
  }

  /** The loop of `create` over the template's agents: one insert per
      blueprint, in order. */
  method InsertStaff(db: Db, workforceId: Id, blueprints: seq<AgentBlueprint>)
    modifies db
    ensures db.State() == old(db.State()).(agents := old(db.agents) + Docs(old(db.nextId), Staff(workforceId, blueprints, old(db.clock))),
                                           nextId := old(db.nextId) + |blueprints|)
    ensures db.clock == old(db.clock)
  {
    ghost var start := db.State();
    for i := 0 to |blueprints|
      invariant db.agents == start.agents + Docs(start.nextId, Staff(workforceId, blueprints[..i], db.clock))
      invariant db.nextId == start.nextId + i
      invariant db.State() == start.(agents := db.agents, nextId := db.nextId)
      invariant db.clock == old(db.clock)
    {
      var a := Staffer(workforceId, blueprints[i], db.clock);
      assert Staff(workforceId, blueprints[..i + 1], db.clock) == Staff(workforceId, blueprints[..i], db.clock) + [a];
      DocsSnoc(start.nextId, Staff(workforceId, blueprints[..i], db.clock), a);
      db.agents := db.agents + [Doc(db.nextId, a)];
      db.nextId := db.nextId + 1;
    }
    assert blueprints[..|blueprints|] == blueprints;
  }

  /** The writes of a successful `create`: the workforce, then, when the
      template exists, its agents. */
  method Found(db: Db, userId: Id, name: string, templateId: Option<Id>, config: Option<WorkforceConfig>)
    returns (workforceId: Id)
    modifies db
    ensures workforceId == old(db.nextId)
    ensures db.State() == Founded(old(db.State()), userId, name, templateId, config, old(db.clock))
    ensures db.clock == old(db.clock)
  {
    ghost var st := db.State();
    workforceId := db.nextId;
    db.workforces := db.workforces + [Doc(workforceId, Workforce(name, userId, templateId, WorkforceStatus.Active, config, db.clock))];
    db.nextId := workforceId + 1;
    if templateId.Some? {
      var template := Get(db.templates, templateId.value);
      if template.Some? {
        InsertStaff(db, workforceId, template.value.agents);
        return;
      }
    }
    assert Docs(workforceId + 1, Staff(workforceId, Blueprints(st, templateId), db.clock)) == [];
  }

  /** The mutation `create`. */
  method Create(db: Db, clerkId: string, name: string, templateId: Option<Id>, config: Option<WorkforceConfig>)
    returns (r: Result<Id, Failure>)
    requires db.Valid()
    modifies db
    ensures db.Valid() && db.clock == old(db.clock)
    ensures r == CreateEffect(old(db.State()), clerkId, name, templateId, config, old(db.clock)).result
    ensures db.State() == CreateEffect(old(db.State()), clerkId, name, templateId, config, old(db.clock)).after
  {
    CreateKeepsConsistent(db.State(), clerkId, name, templateId, config, db.clock);
    var user := Users.GetByClerkId(db.State(), clerkId);
    if user.None? {
      return Err(UserNotFound);
    }
    var existing := ByUser(db.workforces, user.value.id);
    if |existing| >= Limit(user.value.data.plan) {
      return Err(PlanLimitReached);
    }
    var id := Found(db, user.value.id, name, templateId, config);
    r := Ok(id);
  }

  /** The mutation `remove`: each agent of the workforce loses its
      messages and is deleted, then the workforce is deleted; when the
      workforce is missing that last deletion throws and everything comes
      back. */
  method Remove(db: Db, id: Id) returns (r: Result<(), Failure>)
    requires db.Valid()
    modifies db
    ensures db.Valid() && db.clock == old(db.clock)
    ensures r == RemoveEffect(old(db.State()), id).result
    ensures db.State() == RemoveEffect(old(db.State()), id).after
  {
    var start := db.State();
    RemoveKeepsConsistent(start, id);
    DeleteStaff(db, id);
    if Get(db.workforces, id).None? {
      db.Restore(start);
      return Err(NonexistentDocument(id));
    }
    db.workforces := Delete(db.workforces, id);
    r := Ok(());
  }

  /** The body of the outer loop of `remove`: the agent's messages, then
      the agent. */
  method Dismiss(db: Db, agentId: Id)
    requires Keyed(db.messages, db.nextId)
    modifies db
    ensures db.State() == old(db.State()).(agents := Delete(old(db.agents), agentId),
                                           messages := Messages.WithoutAgent(old(db.messages), agentId))
    ensures db.clock == old(db.clock)
  {
    Messages.DeleteOfAgent(db, agentId);
    db.agents := Delete(db.agents, agentId);
  }

  /** The outer loop of `remove`: for each agent of the workforce, its
      messages and then the agent itself are deleted. */
  method DeleteStaff(db: Db, id: Id)
    requires Keyed(db.agents, db.nextId) && Keyed(db.messages, db.nextId)
    modifies db
    ensures db.State() == Dissolved(old(db.State()), id).(workforces := old(db.workforces))
    ensures db.clock == old(db.clock)
  {
    ghost var start := db.State();
    var staff := Agents.GetByWorkforce(db.agents, id);
    assert staff[..0] == [];
    FilterKeepsAll(start.agents, NotAmong(staff[..0]));
    FilterKeepsAll(start.messages, Messages.AgentNotIn(IdsOf(staff[..0])));
    for k := 0 to |staff|
      invariant db.agents == Filter(start.agents, NotAmong(staff[..k]))
      invariant db.messages == Filter(start.messages, Messages.AgentNotIn(IdsOf(staff[..k])))
      invariant db.State() == start.(agents := db.agents, messages := db.messages)
      invariant db.clock == old(db.clock)
    {
      StaffStep(start.agents, start.messages, start.nextId, staff, k);
      Dismiss(db, staff[k].id);
    }
    assert staff[..|staff|] == staff;
    StaffGone(start.agents, id);
  }

  /** One turn of the outer loop of `remove`: deleting the messages of the
      next agent extends the set of agents whose messages are gone. */
  lemma MessagesOfNext(m0: seq<Doc<Message>>, staff: seq<Doc<Agent>>, k: nat)
    requires k < |staff|
    ensures Messages.WithoutAgent(Filter(m0, Messages.AgentNotIn(IdsOf(staff[..k]))), staff[k].id)
         == Filter(m0, Messages.AgentNotIn(IdsOf(staff[..k + 1])))
  {
    assert staff[..k + 1] == staff[..k] + [staff[k]];
    assert IdsOf(staff[..k + 1]) == IdsOf(staff[..k]) + {staff[k].id};
    FilterFilter(m0, Messages.AgentNotIn(IdsOf(staff[..k])), Messages.AgentIsNot(staff[k].id),
                 Messages.AgentNotIn(IdsOf(staff[..k + 1])));
  }

  /** One turn of the outer loop of `remove`, for agents and messages. */
  lemma StaffStep(a0: seq<Doc<Agent>>, m0: seq<Doc<Message>>, next: nat, staff: seq<Doc<Agent>>, k: nat)
    requires Keyed(a0, next) && Keyed(m0, next) && k < |staff|
    requires forall a :: a in staff ==> a in a0
    ensures Keyed(Filter(m0, Messages.AgentNotIn(IdsOf(staff[..k]))), next)
    ensures Messages.WithoutAgent(Filter(m0, Messages.AgentNotIn(IdsOf(staff[..k]))), staff[k].id)
         == Filter(m0, Messages.AgentNotIn(IdsOf(staff[..k + 1])))
    ensures Delete(Filter(a0, NotAmong(staff[..k])), staff[k].id) == Filter(a0, NotAmong(staff[..k + 1]))
  {
    KeyedFilter(m0, next, Messages.AgentNotIn(IdsOf(staff[..k])));
    MessagesOfNext(m0, staff, k);
    DeleteNext(a0, next, staff, k);
  }

  /** Deleting every agent the index lists for the workforce leaves those
      of the other workforces. */
  lemma StaffGone(agents: seq<Doc<Agent>>, id: Id)
    ensures Filter(agents, NotAmong(Agents.GetByWorkforce(agents, id))) == Filter(agents, NotInWorkforce(id))
  {
    FilterCongruent(agents, NotAmong(Agents.GetByWorkforce(agents, id)), NotInWorkforce(id));
  }

  /** The mutation `updateStatus`. */
  method UpdateStatus(db: Db, id: Id, status: WorkforceStatus) returns (r: Result<(), Failure>)
    requires db.Valid()
    modifies db
    ensures db.Valid() && db.clock == old(db.clock)
    ensures r == UpdateStatusEffect(old(db.State()), id, status).result
    ensures db.State() == UpdateStatusEffect(old(db.State()), id, status).after
  {
    UpdateStatusKeepsConsistent(db.State(), id, status);
    var w := Get(db.workforces, id);
    if w.None? {
      return Err(NonexistentDocument(id));
    }
    db.workforces := Put(db.workforces, id, w.value.(status := status));
    r := Ok(());
  }
}
