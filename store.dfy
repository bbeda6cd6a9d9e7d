/** The Convex database as seen by one mutation: eight insertion-ordered
    tables, one fresh-id counter and a clock standing in for `Date.now()`.
    Indexed queries (`withIndex(...).eq(...)`) return matches in creation
    order, so they are filters over a table; `.first()` is the first match. */
module Store {
  import opened Base
  import opened Seqs
  import opened Schema

  /** Every table's contents and the next id to hand out. */
  datatype Tables = Tables(
    users: seq<Doc<User>>,
    skills: seq<Doc<Skill>>,
    reviews: seq<Doc<Review>>,
    transactions: seq<Doc<Transaction>>,
    templates: seq<Doc<Template>>,
    workforces: seq<Doc<Workforce>>,
    agents: seq<Doc<Agent>>,
    messages: seq<Doc<Message>>,
    nextId: nat)

  function EmptyTables(): Tables {
    Tables([], [], [], [], [], [], [], [], 0)
  }

  /** What a mutation returns, and the tables once it has committed (the
      tables it started from when it threw). */
  datatype Outcome<R> = Outcome(result: Result<R, Failure>, after: Tables)

  function Rollback<R>(st: Tables, f: Failure): Outcome<R> {
    Outcome(Err(f), st)
  }

  /** `ctx.db.get(id)` on one table. */
  function Get<T>(t: seq<Doc<T>>, id: Id): (r: Option<T>)
    ensures r.Some? ==> Doc(id, r.value) in t
    ensures r.None? ==> forall d :: d in t ==> d.id != id
  {
    if t == [] then None
    else if t[0].id == id then Some(t[0].data)
    else Get(t[1..], id)
  }

  /** `.first()` of a query: the earliest document whose fields satisfy `p`. */
  function First<T>(t: seq<Doc<T>>, p: T -> bool): (r: Option<Doc<T>>)
    ensures r.Some? ==> r.value in t && p(r.value.data)
    ensures r.None? ==> forall d :: d in t ==> !p(d.data)
  {
    if t == [] then None
    else if p(t[0].data) then Some(t[0])
    else First(t[1..], p)
  }

  /** Documents added after the first match do not change it. */
  lemma {:induction false} FirstOfAppend<T>(t: seq<Doc<T>>, u: seq<Doc<T>>, p: T -> bool)
    ensures First(t + u, p) == if First(t, p).Some? then First(t, p) else First(u, p)
  {
    if t == [] {
      assert t + u == u;
    } else {
      assert (t + u)[0] == t[0] && (t + u)[1..] == t[1..] + u;
      FirstOfAppend(t[1..], u, p);
    }
  }

  /** `ctx.db.patch(id, ...)` on a document known to exist: its fields become `x`. */
  function Put<T>(t: seq<Doc<T>>, id: Id, x: T): (r: seq<Doc<T>>)
    ensures |r| == |t|
    ensures forall i :: 0 <= i < |t| ==> r[i] == if t[i].id == id then Doc(id, x) else t[i]
  {
    seq(|t|, i requires 0 <= i < |t| => if t[i].id == id then Doc(id, x) else t[i])
  }

  function IdIsNot<T>(id: Id): Doc<T> -> bool {
    (d: Doc<T>) => d.id != id
  }

  /** `ctx.db.delete(id)` on one table. */
  function Delete<T(!new)>(t: seq<Doc<T>>, id: Id): (r: seq<Doc<T>>)
    ensures forall d :: d in r <==> d in t && d.id != id
  {
    Filter(t, IdIsNot(id))
  }

  /** Keeps the documents that are not among `ds`. */
  function NotAmong<T(==)>(ds: seq<Doc<T>>): Doc<T> -> bool {
    (d: Doc<T>) => d !in ds
  }

  /** The ids of `ds`. */
  function IdsOf<T(==)>(ds: seq<Doc<T>>): (r: set<Id>)
    ensures forall d :: d in ds ==> d.id in r
    ensures forall id :: id in r ==> exists d :: d in ds && d.id == id
  {
    set d | d in ds :: d.id
  }

  /** The documents that inserting `xs` one after another creates, numbered
      from `next`. */
  function Docs<T>(next: nat, xs: seq<T>): (r: seq<Doc<T>>)
    ensures |r| == |xs|
    ensures forall i :: 0 <= i < |xs| ==> r[i] == Doc(next + i, xs[i])
  {
    seq(|xs|, i requires 0 <= i < |xs| => Doc(next + i, xs[i]))
  }

  lemma DocsSnoc<T>(next: nat, xs: seq<T>, x: T)
    ensures Docs(next, xs + [x]) == Docs(next, xs) + [Doc(next + |xs|, x)]
  {
  }

  lemma {:induction false} GetAppend<T>(t: seq<Doc<T>>, u: seq<Doc<T>>, id: Id)
    ensures Get(t + u, id) == if Get(t, id).Some? then Get(t, id) else Get(u, id)
  {
    if t == [] {
      assert t + u == u;
    } else {
      assert (t + u)[0] == t[0] && (t + u)[1..] == t[1..] + u;
      GetAppend(t[1..], u, id);
    }
  }

  /** When `d` is the only document with its id, `get` finds it. */
  lemma {:induction false} GetOnly<T>(t: seq<Doc<T>>, d: Doc<T>)
    requires d in t
    requires forall e :: e in t && e.id == d.id ==> e == d
    ensures Get(t, d.id) == Some(d.data)
  {
    if t[0] != d {
      GetOnly(t[1..], d);
    }
  }

  /** Every id is below `next`, and `get` on the id of a document finds that
      document, so no two documents share an id. */
  ghost predicate Keyed<T>(t: seq<Doc<T>>, next: nat) {
    forall d :: d in t ==> d.id < next && Get(t, d.id) == Some(d.data)
  }

  lemma KeyedSameId<T>(t: seq<Doc<T>>, next: nat, a: Doc<T>, b: Doc<T>)
    requires Keyed(t, next) && a in t && b in t && a.id == b.id
    ensures a == b
  {
  }

  lemma KeyedInsert<T>(t: seq<Doc<T>>, next: nat, x: T)
    requires Keyed(t, next)
    ensures Keyed(t + [Doc(next, x)], next + 1)
  {
    var r := t + [Doc(next, x)];
    forall d | d in r ensures d.id < next + 1 && Get(r, d.id) == Some(d.data) {
      GetAppend(t, [Doc(next, x)], d.id);
    }
  }

  lemma KeyedGrow<T>(t: seq<Doc<T>>, next: nat, next': nat)
    requires Keyed(t, next) && next <= next'
    ensures Keyed(t, next')
  {
  }

  lemma {:induction false} KeyedDocs<T>(t: seq<Doc<T>>, next: nat, xs: seq<T>)
    requires Keyed(t, next)
    ensures Keyed(t + Docs(next, xs), next + |xs|)
  {
    if xs == [] {
      assert t + Docs(next, xs) == t;
    } else {
      var init := xs[..|xs| - 1];
      KeyedDocs(t, next, init);
      DocsSnoc(next, init, xs[|xs| - 1]);
      assert init + [xs[|xs| - 1]] == xs;
      KeyedInsert(t + Docs(next, init), next + |init|, xs[|xs| - 1]);
      assert t + Docs(next, xs) == (t + Docs(next, init)) + [Doc(next + |init|, xs[|xs| - 1])];
    }
  }

  lemma KeyedPut<T>(t: seq<Doc<T>>, next: nat, id: Id, x: T)
    requires Keyed(t, next) && id < next
    ensures Keyed(Put(t, id, x), next)
    ensures forall d :: d in Put(t, id, x) ==> d in t || d == Doc(id, x)
  {
    var r := Put(t, id, x);
    forall d | d in r ensures (d in t && d.id != id) || d == Doc(id, x) {
      var i :| 0 <= i < |r| && r[i] == d;
    }
    forall d | d in r ensures d.id < next && Get(r, d.id) == Some(d.data) {
      forall e | e in r && e.id == d.id ensures e == d {
        if d.id != id {
          KeyedSameId(t, next, d, e);
        }
      }
      GetOnly(r, d);
    }
  }

  lemma KeyedFilter<T(!new)>(t: seq<Doc<T>>, next: nat, keep: Doc<T> -> bool)
    requires Keyed(t, next)
    ensures Keyed(Filter(t, keep), next)
  {
    var r := Filter(t, keep);
    forall d | d in r ensures d.id < next && Get(r, d.id) == Some(d.data) {
      forall e | e in r && e.id == d.id ensures e == d {
        KeyedSameId(t, next, d, e);
      }
      GetOnly(r, d);
    }
  }

  /** The `by_clerk_id` index with `.first()`. */
  function ByClerkId(users: seq<Doc<User>>, clerkId: string): (r: Option<Doc<User>>)
    ensures r.Some? ==> r.value in users && r.value.data.clerkId == clerkId
    ensures r.None? ==> forall u :: u in users ==> u.data.clerkId != clerkId
  {
    if users == [] then None
    else if users[0].data.clerkId == clerkId then Some(users[0])
    else ByClerkId(users[1..], clerkId)
  }

  /** Looking a user's Clerk id up finds that user: no two users share one. */
  ghost predicate ClerkIdsUnique(users: seq<Doc<User>>) {
    forall u :: u in users ==> ByClerkId(users, u.data.clerkId) == Some(u)
  }

  lemma {:induction false} ByClerkIdAppend(t: seq<Doc<User>>, u: seq<Doc<User>>, clerkId: string)
    ensures ByClerkId(t + u, clerkId) == if ByClerkId(t, clerkId).Some? then ByClerkId(t, clerkId) else ByClerkId(u, clerkId)
  {
    if t == [] {
      assert t + u == u;
    } else {
      assert (t + u)[0] == t[0] && (t + u)[1..] == t[1..] + u;
      ByClerkIdAppend(t[1..], u, clerkId);
    }
  }

  lemma {:induction false} ByClerkIdOnly(t: seq<Doc<User>>, d: Doc<User>)
    requires d in t
    requires forall e :: e in t && e.data.clerkId == d.data.clerkId ==> e == d
    ensures ByClerkId(t, d.data.clerkId) == Some(d)
  {
    if t[0] != d {
      ByClerkIdOnly(t[1..], d);
    }
  }

  /** A user whose Clerk id is new keeps the Clerk ids distinct. */
  lemma ClerkIdsUniqueInsert(users: seq<Doc<User>>, d: Doc<User>)
    requires ClerkIdsUnique(users) && ByClerkId(users, d.data.clerkId).None?
    ensures ClerkIdsUnique(users + [d])
  {
    var r := users + [d];
    forall u | u in r ensures ByClerkId(r, u.data.clerkId) == Some(u) {
      ByClerkIdAppend(users, [d], u.data.clerkId);
    }
  }

  /** Patching a user without changing its Clerk id keeps the Clerk ids distinct. */
  lemma ClerkIdsUniquePut(users: seq<Doc<User>>, next: nat, u: Doc<User>, x: User)
    requires Keyed(users, next) && ClerkIdsUnique(users) && u in users && x.clerkId == u.data.clerkId
    ensures ClerkIdsUnique(Put(users, u.id, x))
  {
    var r := Put(users, u.id, x);
    KeyedPut(users, next, u.id, x);
    forall d | d in r ensures ByClerkId(r, d.data.clerkId) == Some(d) {
      forall e | e in r && e.data.clerkId == d.data.clerkId ensures e == d {
        assert ByClerkId(users, u.data.clerkId) == Some(u);
      }
      ByClerkIdOnly(r, d);
    }
  }

  /** The `by_user_skill` index with `.first()`. */
  function ByUserSkill(reviews: seq<Doc<Review>>, userId: Id, skillId: Id): (r: Option<Doc<Review>>)
    ensures r.Some? ==> r.value in reviews && r.value.data.userId == userId && r.value.data.skillId == skillId
    ensures r.None? ==> forall d :: d in reviews ==> d.data.userId != userId || d.data.skillId != skillId
  {
    if reviews == [] then None
    else if reviews[0].data.userId == userId && reviews[0].data.skillId == skillId then Some(reviews[0])
    else ByUserSkill(reviews[1..], userId, skillId)
  }

  /** Ratings are 1 to 5 and a user reviews a skill at most once. */
  ghost predicate ReviewsWellFormed(reviews: seq<Doc<Review>>) {
    forall d :: d in reviews ==>
      && 1 <= d.data.rating <= 5
      && ByUserSkill(reviews, d.data.userId, d.data.skillId) == Some(d)
  }

  lemma {:induction false} ByUserSkillAppend(t: seq<Doc<Review>>, u: seq<Doc<Review>>, userId: Id, skillId: Id)
    ensures ByUserSkill(t + u, userId, skillId)
            == if ByUserSkill(t, userId, skillId).Some? then ByUserSkill(t, userId, skillId) else ByUserSkill(u, userId, skillId)
  {
    if t == [] {
      assert t + u == u;
    } else {
      assert (t + u)[0] == t[0] && (t + u)[1..] == t[1..] + u;
      ByUserSkillAppend(t[1..], u, userId, skillId);
    }
  }

  /** A rating in range from a user who has not reviewed that skill keeps
      the reviews well formed. */
  lemma ReviewsWellFormedInsert(reviews: seq<Doc<Review>>, d: Doc<Review>)
    requires ReviewsWellFormed(reviews) && 1 <= d.data.rating <= 5
    requires ByUserSkill(reviews, d.data.userId, d.data.skillId).None?
    ensures ReviewsWellFormed(reviews + [d])
  {
    var r := reviews + [d];
    forall e | e in r ensures ByUserSkill(r, e.data.userId, e.data.skillId) == Some(e) {
      ByUserSkillAppend(reviews, [d], e.data.userId, e.data.skillId);
    }
  }

  /** A skill is unrated (0) or rated between 1.0 and 5.0 stars. */
  ghost predicate RatingsInRange(skills: seq<Doc<Skill>>) {
    forall s :: s in skills ==> s.data.averageRating == 0 || 10 <= s.data.averageRating <= 50
  }

  /** The invariant every mutation keeps. */
  ghost predicate Consistent(st: Tables) {
    && Keyed(st.users, st.nextId)
    && Keyed(st.skills, st.nextId)
    && Keyed(st.reviews, st.nextId)
    && Keyed(st.transactions, st.nextId)
    && Keyed(st.templates, st.nextId)
    && Keyed(st.workforces, st.nextId)
    && Keyed(st.agents, st.nextId)
    && Keyed(st.messages, st.nextId)
    && ClerkIdsUnique(st.users)
    && ReviewsWellFormed(st.reviews)
    && RatingsInRange(st.skills)
  }

  /** Handing out more ids keeps the invariant. */
  lemma ConsistentGrow(st: Tables, next: nat)
    requires Consistent(st) && st.nextId <= next
    ensures Consistent(st.(nextId := next))
  {
    KeyedGrow(st.users, st.nextId, next);
    KeyedGrow(st.skills, st.nextId, next);
    KeyedGrow(st.reviews, st.nextId, next);
    KeyedGrow(st.transactions, st.nextId, next);
    KeyedGrow(st.templates, st.nextId, next);
    KeyedGrow(st.workforces, st.nextId, next);
    KeyedGrow(st.agents, st.nextId, next);
    KeyedGrow(st.messages, st.nextId, next);
  }

  /** Replacing one table by a keyed one that keeps its own invariant keeps
      the whole invariant (one lemma per table). */
  lemma WithUsers(st: Tables, users: seq<Doc<User>>)
    requires Consistent(st) && Keyed(users, st.nextId) && ClerkIdsUnique(users)
    ensures Consistent(st.(users := users))
  {
  }

  lemma WithSkills(st: Tables, skills: seq<Doc<Skill>>)
    requires Consistent(st) && Keyed(skills, st.nextId) && RatingsInRange(skills)
    ensures Consistent(st.(skills := skills))
  {
  }

  lemma WithReviews(st: Tables, reviews: seq<Doc<Review>>)
    requires Consistent(st) && Keyed(reviews, st.nextId) && ReviewsWellFormed(reviews)
    ensures Consistent(st.(reviews := reviews))
  {
  }

  lemma WithTransactions(st: Tables, transactions: seq<Doc<Transaction>>)
    requires Consistent(st) && Keyed(transactions, st.nextId)
    ensures Consistent(st.(transactions := transactions))
  {
  }

  lemma WithTemplates(st: Tables, templates: seq<Doc<Template>>)
    requires Consistent(st) && Keyed(templates, st.nextId)
    ensures Consistent(st.(templates := templates))
  {
  }

  lemma WithWorkforces(st: Tables, workforces: seq<Doc<Workforce>>)
    requires Consistent(st) && Keyed(workforces, st.nextId)
    ensures Consistent(st.(workforces := workforces))
  {
  }

  lemma WithAgents(st: Tables, agents: seq<Doc<Agent>>)
    requires Consistent(st) && Keyed(agents, st.nextId)
    ensures Consistent(st.(agents := agents))
  {
  }

  lemma WithMessages(st: Tables, messages: seq<Doc<Message>>)
    requires Consistent(st) && Keyed(messages, st.nextId)
    ensures Consistent(st.(messages := messages))
  {
  }

  /** Inserting one row keeps the invariant (one lemma per table). */
  lemma InsertSkill(st: Tables, x: Skill)
    requires Consistent(st) && (x.averageRating == 0 || 10 <= x.averageRating <= 50)
    ensures Consistent(st.(skills := st.skills + [Doc(st.nextId, x)], nextId := st.nextId + 1))
  {
    ConsistentGrow(st, st.nextId + 1);
    KeyedInsert(st.skills, st.nextId, x);
    WithSkills(st.(nextId := st.nextId + 1), st.skills + [Doc(st.nextId, x)]);
  }

  lemma InsertTransaction(st: Tables, x: Transaction)
    requires Consistent(st)
    ensures Consistent(st.(transactions := st.transactions + [Doc(st.nextId, x)], nextId := st.nextId + 1))
  {
    ConsistentGrow(st, st.nextId + 1);
    KeyedInsert(st.transactions, st.nextId, x);
    WithTransactions(st.(nextId := st.nextId + 1), st.transactions + [Doc(st.nextId, x)]);
  }

  lemma InsertWorkforce(st: Tables, x: Workforce)
    requires Consistent(st)
    ensures Consistent(st.(workforces := st.workforces + [Doc(st.nextId, x)], nextId := st.nextId + 1))
  {
    ConsistentGrow(st, st.nextId + 1);
    KeyedInsert(st.workforces, st.nextId, x);
    WithWorkforces(st.(nextId := st.nextId + 1), st.workforces + [Doc(st.nextId, x)]);
  }

  lemma InsertAgent(st: Tables, x: Agent)
    requires Consistent(st)
    ensures Consistent(st.(agents := st.agents + [Doc(st.nextId, x)], nextId := st.nextId + 1))
  {
    ConsistentGrow(st, st.nextId + 1);
    KeyedInsert(st.agents, st.nextId, x);
    WithAgents(st.(nextId := st.nextId + 1), st.agents + [Doc(st.nextId, x)]);
  }

  /** Inserting several agents in a row keeps the invariant. */
  lemma InsertAgents(st: Tables, xs: seq<Agent>)
    requires Consistent(st)
    ensures Consistent(st.(agents := st.agents + Docs(st.nextId, xs), nextId := st.nextId + |xs|))
  {
    ConsistentGrow(st, st.nextId + |xs|);
    KeyedDocs(st.agents, st.nextId, xs);
    WithAgents(st.(nextId := st.nextId + |xs|), st.agents + Docs(st.nextId, xs));
  }

  lemma InsertMessage(st: Tables, x: Message)
    requires Consistent(st)
    ensures Consistent(st.(messages := st.messages + [Doc(st.nextId, x)], nextId := st.nextId + 1))
  {
    ConsistentGrow(st, st.nextId + 1);
    KeyedInsert(st.messages, st.nextId, x);
    WithMessages(st.(nextId := st.nextId + 1), st.messages + [Doc(st.nextId, x)]);
  }

  /** Patching one existing row keeps the invariant (one lemma per table
      that is patched). */
  lemma PutSkill(st: Tables, id: Id, x: Skill)
    requires Consistent(st) && Get(st.skills, id).Some?
    requires x.averageRating == 0 || 10 <= x.averageRating <= 50
    ensures Consistent(st.(skills := Put(st.skills, id, x)))
  {
    assert Doc(id, Get(st.skills, id).value) in st.skills;
    KeyedPut(st.skills, st.nextId, id, x);
    WithSkills(st, Put(st.skills, id, x));
  }

  lemma PutWorkforce(st: Tables, id: Id, x: Workforce)
    requires Consistent(st) && Get(st.workforces, id).Some?
    ensures Consistent(st.(workforces := Put(st.workforces, id, x)))
  {
    assert Doc(id, Get(st.workforces, id).value) in st.workforces;
    KeyedPut(st.workforces, st.nextId, id, x);
    WithWorkforces(st, Put(st.workforces, id, x));
  }

  lemma PutAgent(st: Tables, id: Id, x: Agent)
    requires Consistent(st) && Get(st.agents, id).Some?
    ensures Consistent(st.(agents := Put(st.agents, id, x)))
  {
    assert Doc(id, Get(st.agents, id).value) in st.agents;
    KeyedPut(st.agents, st.nextId, id, x);
    WithAgents(st, Put(st.agents, id, x));
  }

  /** Only the document `id` may differ between `t` and `t'`; order and ids are kept. */
  ghost predicate OnlyPatched<T>(t: seq<Doc<T>>, t': seq<Doc<T>>, id: Id) {
    && |t'| == |t|
    && forall i :: 0 <= i < |t| ==> t'[i].id == t[i].id && (t[i].id != id ==> t'[i] == t[i])
  }

  /** After a patch, reading the document gives the patched fields. */
  lemma {:induction false} GetPut<T>(t: seq<Doc<T>>, id: Id, x: T)
    requires Get(t, id).Some?
    ensures Get(Put(t, id, x), id) == Some(x)
    ensures OnlyPatched(t, Put(t, id, x), id)
  {
    if t[0].id != id {
      GetPut(t[1..], id, x);
      assert Put(t, id, x)[1..] == Put(t[1..], id, x);
    }
  }

  /** Deleting the documents `ds` of `t` one after another by id, then `d`
      too: ids are unique, so each delete removes exactly that document. */
  lemma DeleteAmong<T(!new)>(t: seq<Doc<T>>, next: nat, ds: seq<Doc<T>>, d: Doc<T>)
    requires Keyed(t, next) && d in t
    ensures Delete(Filter(t, NotAmong(ds)), d.id) == Filter(t, NotAmong(ds + [d]))
  {
    forall x | x in t ensures NotAmong(ds + [d])(x) == (NotAmong(ds)(x) && IdIsNot(d.id)(x)) {
      if x.id == d.id {
        KeyedSameId(t, next, x, d);
      }
    }
    FilterFilter(t, NotAmong(ds), IdIsNot(d.id), NotAmong(ds + [d]));
  }

  /** One turn of a loop that deletes the documents `doomed` of `t` in
      order: deleting the next one extends the deleted prefix. */
  lemma DeleteNext<T(!new)>(t: seq<Doc<T>>, next: nat, doomed: seq<Doc<T>>, j: nat)
    requires Keyed(t, next) && j < |doomed|
    requires forall d :: d in doomed ==> d in t
    ensures Delete(Filter(t, NotAmong(doomed[..j])), doomed[j].id) == Filter(t, NotAmong(doomed[..j + 1]))
  {
    DeleteAmong(t, next, doomed[..j], doomed[j]);
    assert doomed[..j + 1] == doomed[..j] + [doomed[j]];
  }

  /** A patch leaves every other document as it was. */
  lemma {:induction false} GetPutOther<T>(t: seq<Doc<T>>, id: Id, x: T, other: Id)
    requires other != id
    ensures Get(Put(t, id, x), other) == Get(t, other)
  {
    if t != [] {
      GetPutOther(t[1..], id, x, other);
      assert Put(t, id, x)[1..] == Put(t[1..], id, x);
    }
  }

  /** The database: the tables a mutation reads and writes, and the clock. */
  class Db {
    var users: seq<Doc<User>>
    var skills: seq<Doc<Skill>>
    var reviews: seq<Doc<Review>>
    var transactions: seq<Doc<Transaction>>
    var templates: seq<Doc<Template>>
    var workforces: seq<Doc<Workforce>>
    var agents: seq<Doc<Agent>>
    var messages: seq<Doc<Message>>
    var nextId: nat
    /** `Date.now()`: fixed during one mutation, moved on by `Tick`. */
    var clock: int

    function State(): Tables
      reads this
    {
      Tables(users, skills, reviews, transactions, templates, workforces, agents, messages, nextId)
    }

    ghost predicate Valid()
      reads this
    {
      Consistent(State())
    }

    constructor ()
      ensures Valid() && State() == EmptyTables() && clock == 0
    {
      users, skills, reviews, transactions := [], [], [], [];
      templates, workforces, agents, messages := [], [], [], [];
      nextId, clock := 0, 0;
    }

    /** Puts back the tables a mutation started from, when it throws. */
    method Restore(st: Tables)
      modifies this
      ensures State() == st && clock == old(clock)
    {
      users, skills, reviews, transactions := st.users, st.skills, st.reviews, st.transactions;
      templates, workforces, agents, messages := st.templates, st.workforces, st.agents, st.messages;
      nextId := st.nextId;
    }

    /** Time passes between mutations. */
    method Tick(elapsed: nat)
      modifies this
      ensures State() == old(State()) && clock == old(clock) + elapsed
    {
      clock := clock + elapsed;
    }
  }
}
