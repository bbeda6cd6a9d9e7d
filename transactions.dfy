/** convex/transactions.ts: paid calls of skills. */
module Transactions {
  import opened Base
  import opened Seqs
  import opened Schema
  import opened Store
  import Users

  function CreatedAt(d: Doc<Transaction>): int {
    d.data.createdAt
  }

  /** The `by_buyer` index: the purchases of one user, in creation order. */
  function Bought(ts: seq<Doc<Transaction>>, userId: Id): (r: seq<Doc<Transaction>>)
    ensures forall d :: d in r <==> d in ts && d.data.buyerId == userId
  {
    Filter(ts, (d: Doc<Transaction>) => d.data.buyerId == userId)
  }

  /** The `by_seller` index: the sales of one user's skills. */
  function Sold(ts: seq<Doc<Transaction>>, userId: Id): (r: seq<Doc<Transaction>>)
    ensures forall d :: d in r <==> d in ts && d.data.sellerId == Some(userId)
  {
    Filter(ts, (d: Doc<Transaction>) => d.data.sellerId == Some(userId))
  }

  /** `listByBuyer`: the purchases of the user with that Clerk id, newest
      first; none for an unknown Clerk id. */
  function ListByBuyer(st: Tables, clerkId: string): (r: seq<Doc<Transaction>>)
    ensures Users.GetByClerkId(st, clerkId).None? ==> r == []
    ensures Users.GetByClerkId(st, clerkId).Some? ==>
              multiset(r) == multiset(Bought(st.transactions, Users.GetByClerkId(st, clerkId).value.id))
    ensures forall i, j :: 0 <= i < j < |r| ==> CreatedAt(r[i]) >= CreatedAt(r[j])
  {
    match Users.GetByClerkId(st, clerkId)
    case None => []
    case Some(u) => SortByKeyDesc(Bought(st.transactions, u.id), CreatedAt)
  }

  /** `listBySeller`: the sales of skills the user authored, newest first;
      none for an unknown Clerk id. */
  function ListBySeller(st: Tables, clerkId: string): (r: seq<Doc<Transaction>>)
    ensures Users.GetByClerkId(st, clerkId).None? ==> r == []
    ensures Users.GetByClerkId(st, clerkId).Some? ==>
              multiset(r) == multiset(Sold(st.transactions, Users.GetByClerkId(st, clerkId).value.id))
    ensures forall i, j :: 0 <= i < j < |r| ==> CreatedAt(r[i]) >= CreatedAt(r[j])
  {
    match Users.GetByClerkId(st, clerkId)
    case None => []
    case Some(u) => SortByKeyDesc(Sold(st.transactions, u.id), CreatedAt)
  }

  /** The tables after user `buyer` paid `amount` for skill `s`: a completed
      transaction in favour of the skill's author, and one more call of the
      skill. */
  function Purchased(st: Tables, skillId: Id, buyer: Id, s: Skill, amount: int, txHash: Option<string>, now: int): Tables {
    st.(transactions := st.transactions + [Doc(st.nextId, Transaction(skillId, buyer, s.authorId, amount, Completed, txHash, now))],
        skills := Put(st.skills, skillId, s.(totalCalls := s.totalCalls + 1)),
        nextId := st.nextId + 1)
  }

  /** `create`: throws for an unknown buyer, then for a missing skill;
      otherwise records the purchase and returns the new transaction's id. */
  function CreateEffect(st: Tables, skillId: Id, buyerClerkId: string, amount: int, txHash: Option<string>, now: int)
    : (o: Outcome<Id>)
    ensures Users.GetByClerkId(st, buyerClerkId).None? ==> o == Rollback(st, BuyerNotFound)
    ensures Users.GetByClerkId(st, buyerClerkId).Some? && Get(st.skills, skillId).None? ==> o == Rollback(st, SkillNotFound)
    ensures Users.GetByClerkId(st, buyerClerkId).Some? && Get(st.skills, skillId).Some? ==>
              && o.result == Ok(st.nextId)
              && o.after == Purchased(st, skillId, Users.GetByClerkId(st, buyerClerkId).value.id, Get(st.skills, skillId).value,
                                      amount, txHash, now)
  {
    match Users.GetByClerkId(st, buyerClerkId)
    case None => Rollback(st, BuyerNotFound)
    case Some(buyer) =>
      match Get(st.skills, skillId)
      case None => Rollback(st, SkillNotFound)
      case Some(s) =>
        var id := st.nextId;
        var tx := Transaction(skillId, buyer.id, s.authorId, amount, Completed, txHash, now);
        Outcome(Ok(id), st.(transactions := st.transactions + [Doc(id, tx)],
                            skills := Put(st.skills, skillId, s.(totalCalls := s.totalCalls + 1)),
                            nextId := id + 1))
  }

  lemma PurchasedKeepsConsistent(st: Tables, skillId: Id, buyer: Id, s: Skill, amount: int, txHash: Option<string>, now: int)
    requires Consistent(st) && Get(st.skills, skillId) == Some(s)
    ensures Consistent(Purchased(st, skillId, buyer, s, amount, txHash, now))
  {
    var tx := Transaction(skillId, buyer, s.authorId, amount, Completed, txHash, now);
    var st1 := st.(transactions := st.transactions + [Doc(st.nextId, tx)], nextId := st.nextId + 1);
    assert Purchased(st, skillId, buyer, s, amount, txHash, now) == st1.(skills := Put(st1.skills, skillId, s.(totalCalls := s.totalCalls + 1)));
    InsertTransaction(st, tx);
    PutSkill(st1, skillId, s.(totalCalls := s.totalCalls + 1));
  }

  lemma CreateKeepsConsistent(st: Tables, skillId: Id, buyerClerkId: string, amount: int, txHash: Option<string>, now: int)
    requires Consistent(st)
    ensures Consistent(CreateEffect(st, skillId, buyerClerkId, amount, txHash, now).after)
  {
    if Users.GetByClerkId(st, buyerClerkId).Some? && Get(st.skills, skillId).Some? {
      PurchasedKeepsConsistent(st, skillId, Users.GetByClerkId(st, buyerClerkId).value.id, Get(st.skills, skillId).value,
                               amount, txHash, now);
    }
  }

  /** A purchase adds one call to the skill bought and leaves every other
      skill as it was. */
  lemma PurchasedCountsOneCall(st: Tables, skillId: Id, buyer: Id, s: Skill, amount: int, txHash: Option<string>, now: int, other: Id)
    requires Get(st.skills, skillId) == Some(s)
    ensures var after := Purchased(st, skillId, buyer, s, amount, txHash, now);
            && Get(after.skills, skillId) == Some(s.(totalCalls := s.totalCalls + 1))
            && (other != skillId ==> Get(after.skills, other) == Get(st.skills, other))
  {
    var after := Purchased(st, skillId, buyer, s, amount, txHash, now);
    assert after.skills == Put(st.skills, skillId, s.(totalCalls := s.totalCalls + 1));
    GetPut(st.skills, skillId, s.(totalCalls := s.totalCalls + 1));
    if other != skillId {
      GetPutOther(st.skills, skillId, s.(totalCalls := s.totalCalls + 1), other);
    }
  }

  /** The new purchase shows in its buyer's list, and in the list of the
      skill's author when the skill has one. */
  lemma CreateThenListed(st: Tables, skillId: Id, buyerClerkId: string, amount: int, txHash: Option<string>, now: int,
                         sellerClerkId: string)
    requires CreateEffect(st, skillId, buyerClerkId, amount, txHash, now).result.Ok?
    ensures var o := CreateEffect(st, skillId, buyerClerkId, amount, txHash, now);
            var d := o.after.transactions[|o.after.transactions| - 1];
            && d.id == o.result.value
            && d in ListByBuyer(o.after, buyerClerkId)
            && (Users.GetByClerkId(st, sellerClerkId).Some? && Get(st.skills, skillId).value.authorId == Some(Users.GetByClerkId(st, sellerClerkId).value.id)
                ==> d in ListBySeller(o.after, sellerClerkId))
  {
    var o := CreateEffect(st, skillId, buyerClerkId, amount, txHash, now);
    var d := o.after.transactions[|o.after.transactions| - 1];
    assert d in o.after.transactions;
    assert Users.GetByClerkId(o.after, buyerClerkId) == Users.GetByClerkId(st, buyerClerkId);
    assert Users.GetByClerkId(o.after, sellerClerkId) == Users.GetByClerkId(st, sellerClerkId);
    var b := Bought(o.after.transactions, Users.GetByClerkId(st, buyerClerkId).value.id);
    assert d in b;
    assert d in multiset(ListByBuyer(o.after, buyerClerkId)) by {
      assert d in multiset(b);
    }
    if Users.GetByClerkId(st, sellerClerkId).Some? && Get(st.skills, skillId).value.authorId == Some(Users.GetByClerkId(st, sellerClerkId).value.id) {
      var s := Sold(o.after.transactions, Users.GetByClerkId(st, sellerClerkId).value.id);
      assert d in s;
      assert d in multiset(ListBySeller(o.after, sellerClerkId)) by {
        assert d in multiset(s);
      }
    }
  }

  /** The arguments of one call of `create`, and the clock when it ran. */
  datatype Purchase = Purchase(skillId: Id, buyerClerkId: string, amount: int, txHash: Option<string>, now: int)

  /** The tables after calling `create` for each purchase in turn; a call
      that throws leaves them as they were. */
  function Replay(st: Tables, ps: seq<Purchase>): Tables
    decreases |ps|
  {
    if ps == [] then st
    else
      var p := ps[0];
      Replay(CreateEffect(st, p.skillId, p.buyerClerkId, p.amount, p.txHash, p.now).after, ps[1..])
  }

  /** One call of `create`, whatever its outcome, keeps every skill and
      lowers no skill's call count. */
  lemma CreateNeverLowersCalls(st: Tables, skillId: Id, buyerClerkId: string, amount: int, txHash: Option<string>, now: int,
                               id: Id)
    requires Get(st.skills, id).Some?
    ensures var after := CreateEffect(st, skillId, buyerClerkId, amount, txHash, now).after;
            Get(after.skills, id).Some? && Get(after.skills, id).value.totalCalls >= Get(st.skills, id).value.totalCalls
  {
    var buyer := Users.GetByClerkId(st, buyerClerkId);
    if buyer.Some? && Get(st.skills, skillId).Some? {
      PurchasedCountsOneCall(st, skillId, buyer.value.id, Get(st.skills, skillId).value, amount, txHash, now, id);
    }
  }

  /** Over any sequence of purchases no skill disappears and no call count
      goes down. */
  lemma {:induction false} ReplayNeverLowersCalls(st: Tables, ps: seq<Purchase>, id: Id)
    requires Get(st.skills, id).Some?
    ensures Get(Replay(st, ps).skills, id).Some?
    ensures Get(Replay(st, ps).skills, id).value.totalCalls >= Get(st.skills, id).value.totalCalls
    decreases |ps|
  {
    if ps != [] {
      var p := ps[0];
      CreateNeverLowersCalls(st, p.skillId, p.buyerClerkId, p.amount, p.txHash, p.now, id);
      ReplayNeverLowersCalls(CreateEffect(st, p.skillId, p.buyerClerkId, p.amount, p.txHash, p.now).after, ps[1..], id);
    }
  }

  /** The writes of `create` once both lookups succeeded: insert the
      transaction, then patch the skill's call count. */
  method Record(db: Db, skillId: Id, buyer: Id, s: Skill, amount: int, txHash: Option<string>) returns (id: Id)
    modifies db
    ensures db.clock == old(db.clock) && id == old(db.nextId)
    ensures db.State() == Purchased(old(db.State()), skillId, buyer, s, amount, txHash, old(db.clock))
  {
    id := db.nextId;
    db.transactions := db.transactions + [Doc(id, Transaction(skillId, buyer, s.authorId, amount, Completed, txHash, db.clock))];
    db.nextId := id + 1;
    db.skills := Put(db.skills, skillId, s.(totalCalls := s.totalCalls + 1));
  }

  /** The mutation `create`. */
  method Create(db: Db, skillId: Id, buyerClerkId: string, amount: int, txHash: Option<string>)
    returns (r: Result<Id, Failure>)
    requires db.Valid()
    modifies db
    ensures db.Valid() && db.clock == old(db.clock)
    ensures r == CreateEffect(old(db.State()), skillId, buyerClerkId, amount, txHash, old(db.clock)).result
    ensures db.State() == CreateEffect(old(db.State()), skillId, buyerClerkId, amount, txHash, old(db.clock)).after
  {
    CreateKeepsConsistent(db.State(), skillId, buyerClerkId, amount, txHash, db.clock);
    var buyer := Users.GetByClerkId(db.State(), buyerClerkId);
    if buyer.None? {
      return Err(BuyerNotFound);
    }
    var skill := Get(db.skills, skillId);
    if skill.None? {
      return Err(SkillNotFound);
    }
    var id := Record(db, skillId, buyer.value.id, skill.value, amount, txHash);
    r := Ok(id);
  }
}
