/** convex/users.ts: the user lookup by Clerk id, the idempotent `create`
    that the sign-up hook calls, and `updatePlan`. */
module Users {
  import opened Base
  import opened Schema
  import opened Store

  /** `getByClerkId`: the first user with that Clerk id, or none. */
  function GetByClerkId(st: Tables, clerkId: string): (r: Option<Doc<User>>)
    ensures r.Some? ==> r.value in st.users && r.value.data.clerkId == clerkId
    ensures r.None? ==> forall u :: u in st.users ==> u.data.clerkId != clerkId
  {
    ByClerkId(st.users, clerkId)
  }

  /** What `create` writes for a new user: plan free, no Stripe customer. */
  function NewUser(clerkId: string, email: string, name: Option<string>, imageUrl: Option<string>, now: int): User {
    User(clerkId, email, name, imageUrl, None, Free, now)
  }

  /** `create`: returns the existing user's id without writing, or inserts
      exactly one user. It never throws, and afterwards the Clerk id is known. */
  function CreateEffect(st: Tables, clerkId: string, email: string, name: Option<string>,
                        imageUrl: Option<string>, now: int): (o: Outcome<Id>)
    ensures o.result.Ok?
    ensures GetByClerkId(st, clerkId).Some? ==>
              o.after == st && o.result.value == GetByClerkId(st, clerkId).value.id
    ensures GetByClerkId(st, clerkId).None? ==>
              && o.result.value == st.nextId
              && o.after == st.(users := st.users + [Doc(st.nextId, NewUser(clerkId, email, name, imageUrl, now))],
                                nextId := st.nextId + 1)
  {
    match GetByClerkId(st, clerkId)
    case Some(u) => Outcome(Ok(u.id), st)
    case None =>
      var id := st.nextId;
      Outcome(Ok(id), st.(users := st.users + [Doc(id, NewUser(clerkId, email, name, imageUrl, now))], nextId := id + 1))
  }

  /** After `create`, looking the Clerk id up finds the returned id. */
  lemma CreateThenGet(st: Tables, clerkId: string, email: string, name: Option<string>,
                      imageUrl: Option<string>, now: int)
    ensures var o := CreateEffect(st, clerkId, email, name, imageUrl, now);
            GetByClerkId(o.after, clerkId).Some? && GetByClerkId(o.after, clerkId).value.id == o.result.value
  {
    var o := CreateEffect(st, clerkId, email, name, imageUrl, now);
    if GetByClerkId(st, clerkId).None? {
      ByClerkIdAppend(st.users, [Doc(st.nextId, NewUser(clerkId, email, name, imageUrl, now))], clerkId);
    }
  }

  /** Calling `create` a second time for the same Clerk id, with any other
      details, returns the same id and writes nothing. */
  lemma CreateIdempotent(st: Tables, clerkId: string, email: string, name: Option<string>, imageUrl: Option<string>,
                         email': string, name': Option<string>, imageUrl': Option<string>, now: int, now': int)
    ensures var o := CreateEffect(st, clerkId, email, name, imageUrl, now);
            var o' := CreateEffect(o.after, clerkId, email', name', imageUrl', now');
            o'.after == o.after && o'.result == o.result
  {
    CreateThenGet(st, clerkId, email, name, imageUrl, now);
  }

  /** `create` keeps every invariant; in particular no two users share a Clerk id. */
  lemma CreateKeepsConsistent(st: Tables, clerkId: string, email: string, name: Option<string>,
                              imageUrl: Option<string>, now: int)
    requires Consistent(st)
    ensures Consistent(CreateEffect(st, clerkId, email, name, imageUrl, now).after)
  {
    if GetByClerkId(st, clerkId).None? {
      var d := Doc(st.nextId, NewUser(clerkId, email, name, imageUrl, now));
      ConsistentGrow(st, st.nextId + 1);
      KeyedInsert(st.users, st.nextId, d.data);
      ClerkIdsUniqueInsert(st.users, d);
      WithUsers(st.(nextId := st.nextId + 1), st.users + [d]);
    }
  }

  /** The `updatePlan` patch: the plan, and the Stripe customer id only when a
      non-empty one is given (`...(id && { stripeCustomerId: id })`). */
  function PlanPatched(u: User, plan: Plan, stripeCustomerId: Option<string>): (r: User)
    ensures r.plan == plan
    ensures r.stripeCustomerId == if stripeCustomerId.Some? && stripeCustomerId.value != "" then stripeCustomerId
                                  else u.stripeCustomerId
    ensures r.(plan := u.plan, stripeCustomerId := u.stripeCustomerId) == u
  {
    var customer := if stripeCustomerId.Some? && stripeCustomerId.value != "" then stripeCustomerId else u.stripeCustomerId;
    u.(plan := plan, stripeCustomerId := customer)
  }

  /** `updatePlan`: throws "User not found" for an unknown Clerk id; otherwise
      patches that one user and no other document. */
  function UpdatePlanEffect(st: Tables, clerkId: string, plan: Plan, stripeCustomerId: Option<string>): (o: Outcome<()>)
    ensures GetByClerkId(st, clerkId).None? ==> o == Rollback(st, UserNotFound)
    ensures GetByClerkId(st, clerkId).Some? ==>
              var u := GetByClerkId(st, clerkId).value;
              && o.result.Ok?
              && o.after == st.(users := o.after.users)
              && OnlyPatched(st.users, o.after.users, u.id)
              && Get(o.after.users, u.id) == Some(PlanPatched(u.data, plan, stripeCustomerId))
  {
    match GetByClerkId(st, clerkId)
    case None => Rollback(st, UserNotFound)
    case Some(u) =>
      GetPutFound(st.users, u);
      GetPut(st.users, u.id, PlanPatched(u.data, plan, stripeCustomerId));
      Outcome(Ok(()), st.(users := Put(st.users, u.id, PlanPatched(u.data, plan, stripeCustomerId))))
  }

  lemma GetPutFound(t: seq<Doc<User>>, u: Doc<User>)
    requires u in t
    ensures Get(t, u.id).Some?
  {
  }

  /** `updatePlan` keeps every invariant: the Clerk id is not patched. */
  lemma UpdatePlanKeepsConsistent(st: Tables, clerkId: string, plan: Plan, stripeCustomerId: Option<string>)
    requires Consistent(st)
    ensures Consistent(UpdatePlanEffect(st, clerkId, plan, stripeCustomerId).after)
  {
    if GetByClerkId(st, clerkId).Some? {
      var u := GetByClerkId(st, clerkId).value;
      var x := PlanPatched(u.data, plan, stripeCustomerId);
      KeyedPut(st.users, st.nextId, u.id, x);
      ClerkIdsUniquePut(st.users, st.nextId, u, x);
      WithUsers(st, Put(st.users, u.id, x));
    }
  }

  /** The mutation `create` on the database. */
  method Create(db: Db, clerkId: string, email: string, name: Option<string>, imageUrl: Option<string>)
    returns (r: Result<Id, Failure>)
    requires db.Valid()
    modifies db
    ensures db.Valid() && db.clock == old(db.clock)
    ensures r == CreateEffect(old(db.State()), clerkId, email, name, imageUrl, old(db.clock)).result
    ensures db.State() == CreateEffect(old(db.State()), clerkId, email, name, imageUrl, old(db.clock)).after
  {
    CreateKeepsConsistent(db.State(), clerkId, email, name, imageUrl, db.clock);
    var existing := GetByClerkId(db.State(), clerkId);
    if existing.Some? {
      return Ok(existing.value.id);
    }
    var id := db.nextId;
    db.users := db.users + [Doc(id, NewUser(clerkId, email, name, imageUrl, db.clock))];
    db.nextId := id + 1;
    r := Ok(id);
  }

  /** The mutation `updatePlan` on the database. */
  method UpdatePlan(db: Db, clerkId: string, plan: Plan, stripeCustomerId: Option<string>)
    returns (r: Result<(), Failure>)
    requires db.Valid()
    modifies db
    ensures db.Valid() && db.clock == old(db.clock)
    ensures r == UpdatePlanEffect(old(db.State()), clerkId, plan, stripeCustomerId).result
    ensures db.State() == UpdatePlanEffect(old(db.State()), clerkId, plan, stripeCustomerId).after
  {
    UpdatePlanKeepsConsistent(db.State(), clerkId, plan, stripeCustomerId);
    var user := GetByClerkId(db.State(), clerkId);
    if user.None? {
      return Err(UserNotFound);
    }
    var u := user.value;
    db.users := Put(db.users, u.id, PlanPatched(u.data, plan, stripeCustomerId));
    r := Ok(());
  }
}
