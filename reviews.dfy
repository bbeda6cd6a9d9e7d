/** convex/reviews.ts: star ratings of skills and the average kept on the
    skill row. */
module Reviews {
  import opened Base
  import opened Seqs
  import opened Schema
  import opened Store
  import Users

  /** The `by_skill` index: the reviews of one skill, in creation order. */
  function OfSkill(reviews: seq<Doc<Review>>, skillId: Id): (r: seq<Doc<Review>>)
    ensures forall d :: d in r <==> d in reviews && d.data.skillId == skillId
  {
    Filter(reviews, (d: Doc<Review>) => d.data.skillId == skillId)
  }

  lemma OfSkillAppend(a: seq<Doc<Review>>, b: seq<Doc<Review>>, skillId: Id)
    ensures OfSkill(a + b, skillId) == OfSkill(a, skillId) + OfSkill(b, skillId)
  {
    FilterAppend(a, b, (d: Doc<Review>) => d.data.skillId == skillId);
  }

  /** `reviews.reduce((sum, r) => sum + r.rating, 0)`: ratings of 1 to 5
      sum to between one and five times their number. */
  function RatingSum(reviews: seq<Doc<Review>>): (r: int)
    ensures (forall d :: d in reviews ==> 1 <= d.data.rating <= 5) ==> |reviews| <= r <= 5 * |reviews|
  {
    if reviews == [] then 0
    else
      assert forall d :: d in reviews[1..] ==> d in reviews;
      reviews[0].data.rating + RatingSum(reviews[1..])
  }

  lemma {:induction false} RatingSumAppend(a: seq<Doc<Review>>, b: seq<Doc<Review>>)
    ensures RatingSum(a + b) == RatingSum(a) + RatingSum(b)
  {
    if a != [] {
      assert (a + b)[0] == a[0] && (a + b)[1..] == a[1..] + b;
      RatingSumAppend(a[1..], b);
    } else {
      assert a + b == b;
    }
  }

  /** `Math.round(sum / count * 10) / 10`, in tenths of a star. */
  /** `Math.round(sum / count * 10) / 10`, in tenths of a star: the tenth
      nearest to the mean, a half rounded up. */
  function RoundTenths(sum: int, count: nat): (r: int)
    requires count > 0
    ensures 20 * sum - count < 2 * count * r <= 20 * sum + count
  {
    var x, d := 20 * sum + count, 2 * count;
    assert x == d * (x / d) + x % d && 0 <= x % d < d;
    x / d
  }

  /** A mean of ratings from 1 to 5 rounds to 1.0 to 5.0 stars. */
  lemma RoundTenthsInRange(sum: int, count: nat)
    requires 0 < count && count <= sum <= 5 * count
    ensures 10 <= RoundTenths(sum, count) <= 50
  {
    var r := RoundTenths(sum, count);
    ScaleMonotone(2 * count, r, 9);
    ScaleMonotone(2 * count, 51, r);
  }

  lemma ScaleMonotone(k: nat, a: int, b: int)
    ensures a <= b ==> k * a <= k * b
  {
  }

  /** The skill row once `rating` has been added on top of the earlier
      reviews `prior`: the count and the mean take the new review twice,
      because the re-read after the insert already holds it and it is then
      added once more. */
  function Rated(s: Skill, prior: seq<Doc<Review>>, rating: int): Skill {
    s.(totalReviews := |prior| + 2, averageRating := RoundTenths(RatingSum(prior) + 2 * rating, |prior| + 2))
  }

  /** The patch `create` computes from the re-read reviews `all`: their
      number plus one, and the mean of their ratings plus `rating` again. */
  function Recount(s: Skill, all: seq<Doc<Review>>, rating: int): Skill {
    s.(totalReviews := |all| + 1, averageRating := RoundTenths(RatingSum(all) + rating, |all| + 1))
  }

  /** The re-read after the insert: the earlier reviews of the skill and
      then the new one. */
  lemma Reread(reviews: seq<Doc<Review>>, review: Doc<Review>, skillId: Id)
    requires review.data.skillId == skillId
    ensures OfSkill(reviews + [review], skillId) == OfSkill(reviews, skillId) + [review]
    ensures RatingSum(OfSkill(reviews + [review], skillId)) == RatingSum(OfSkill(reviews, skillId)) + review.data.rating
  {
    OfSkillAppend(reviews, [review], skillId);
    assert OfSkill([review], skillId) == [review] by {
      assert review in OfSkill([review], skillId);
    }
    RatingSumAppend(OfSkill(reviews, skillId), [review]);
    assert [review][1..] == [];
  }

  /** What the source computes is `Rated` of the reviews before the insert. */
  lemma RecountIsRated(s: Skill, reviews: seq<Doc<Review>>, review: Doc<Review>, skillId: Id)
    requires review.data.skillId == skillId
    ensures Recount(s, OfSkill(reviews + [review], skillId), review.data.rating) == Rated(s, OfSkill(reviews, skillId), review.data.rating)
  {
    Reread(reviews, review, skillId);
  }

  /** Why `create` refuses, in the order the source checks: the rating's
      range, the user, an earlier review by that user, and last the skill,
      whose absence makes the closing patch throw. */
  function Refusal(st: Tables, clerkId: string, skillId: Id, rating: int): (r: Option<Failure>)
    ensures r == Some(RatingOutOfRange) <==> rating < 1 || rating > 5
    ensures r == Some(UserNotFound) <==> 1 <= rating <= 5 && Users.GetByClerkId(st, clerkId).None?
    ensures r == Some(AlreadyReviewed) <==>
              && 1 <= rating <= 5 && Users.GetByClerkId(st, clerkId).Some?
              && ByUserSkill(st.reviews, Users.GetByClerkId(st, clerkId).value.id, skillId).Some?
    ensures r.None? <==>
              && 1 <= rating <= 5 && Users.GetByClerkId(st, clerkId).Some?
              && ByUserSkill(st.reviews, Users.GetByClerkId(st, clerkId).value.id, skillId).None?
              && Get(st.skills, skillId).Some?
    ensures r.Some? && r.value.NonexistentDocument? ==> r.value.id == skillId && Get(st.skills, skillId).None?
  {
    if rating < 1 || rating > 5 then Some(RatingOutOfRange)
    else match Users.GetByClerkId(st, clerkId)
    case None => Some(UserNotFound)
    case Some(u) =>
      if ByUserSkill(st.reviews, u.id, skillId).Some? then Some(AlreadyReviewed)
      else if Get(st.skills, skillId).None? then Some(NonexistentDocument(skillId))
      else None
  }

  /** The tables after user `u` rated skill `s`: one more review, and the
      skill's count and mean updated as `Rated` says. */
  function Recorded(st: Tables, u: Id, skillId: Id, s: Skill, rating: int, comment: Option<string>, now: int): Tables {
    st.(reviews := st.reviews + [Doc(st.nextId, Review(skillId, u, rating, comment, now))],
        skills := Put(st.skills, skillId, Rated(s, OfSkill(st.reviews, skillId), rating)),
        nextId := st.nextId + 1)
  }

  /** `create`: a refusal undoes everything; otherwise the review is stored
      and the skill row is patched. */
  function CreateEffect(st: Tables, clerkId: string, skillId: Id, rating: int, comment: Option<string>, now: int)
    : (o: Outcome<()>)
    ensures Refusal(st, clerkId, skillId, rating).Some? ==> o == Rollback(st, Refusal(st, clerkId, skillId, rating).value)
    ensures Refusal(st, clerkId, skillId, rating).None? ==>
              && o.result == Ok(())
              && o.after == Recorded(st, Users.GetByClerkId(st, clerkId).value.id, skillId, Get(st.skills, skillId).value,
                                     rating, comment, now)
  {
    if rating < 1 || rating > 5 then Rollback(st, RatingOutOfRange)
    else match Users.GetByClerkId(st, clerkId)
    case None => Rollback(st, UserNotFound)
    case Some(u) =>
      if ByUserSkill(st.reviews, u.id, skillId).Some? then Rollback(st, AlreadyReviewed)
      else
        var review := Doc(st.nextId, Review(skillId, u.id, rating, comment, now));
        var all := OfSkill(st.reviews + [review], skillId);
        match Get(st.skills, skillId)
        case None => Rollback(st, NonexistentDocument(skillId))
        case Some(s) =>
          RecountIsRated(s, st.reviews, review, skillId);
          Outcome(Ok(()), st.(reviews := st.reviews + [review],
                              skills := Put(st.skills, skillId, Recount(s, all, rating)),
                              nextId := st.nextId + 1))
  }

  /** The mean stored after a rating in range stays within 1.0 to 5.0 stars. */
  lemma RatedInRange(s: Skill, prior: seq<Doc<Review>>, rating: int)
    requires forall d :: d in prior ==> 1 <= d.data.rating <= 5
    requires 1 <= rating <= 5
    ensures 10 <= Rated(s, prior, rating).averageRating <= 50
  {
    RoundTenthsInRange(RatingSum(prior) + 2 * rating, |prior| + 2);
  }

  lemma RecordedKeepsConsistent(st: Tables, u: Id, skillId: Id, s: Skill, rating: int, comment: Option<string>, now: int)
    requires Consistent(st) && 1 <= rating <= 5
    requires ByUserSkill(st.reviews, u, skillId).None? && Get(st.skills, skillId) == Some(s)
    ensures Consistent(Recorded(st, u, skillId, s, rating, comment, now))
  {
    var review := Doc(st.nextId, Review(skillId, u, rating, comment, now));
    var prior := OfSkill(st.reviews, skillId);
    var s' := Rated(s, prior, rating);
    RatedInRange(s, prior, rating);
    ConsistentGrow(st, st.nextId + 1);
    var st1 := st.(nextId := st.nextId + 1);
    KeyedInsert(st.reviews, st.nextId, review.data);
    ReviewsWellFormedInsert(st.reviews, review);
    WithReviews(st1, st.reviews + [review]);
    var st2 := st1.(reviews := st.reviews + [review]);
    KeyedPut(st.skills, st.nextId + 1, skillId, s');
    WithSkills(st2, Put(st.skills, skillId, s'));
  }

  lemma CreateKeepsConsistent(st: Tables, clerkId: string, skillId: Id, rating: int, comment: Option<string>, now: int)
    requires Consistent(st)
    ensures Consistent(CreateEffect(st, clerkId, skillId, rating, comment, now).after)
  {
    if Refusal(st, clerkId, skillId, rating).None? {
      RecordedKeepsConsistent(st, Users.GetByClerkId(st, clerkId).value.id, skillId, Get(st.skills, skillId).value,
                              rating, comment, now);
    }
  }

  /** After a successful `create` the stored count is one more than the
      skill's reviews, and the stored mean counts the new rating twice. */
  lemma CreateDoubleCounts(st: Tables, clerkId: string, skillId: Id, rating: int, comment: Option<string>, now: int)
    requires CreateEffect(st, clerkId, skillId, rating, comment, now).result.Ok?
    ensures var after := CreateEffect(st, clerkId, skillId, rating, comment, now).after;
            var all := OfSkill(after.reviews, skillId);
            && Get(after.skills, skillId).Some?
            && Get(after.skills, skillId).value.totalReviews == |all| + 1
            && Get(after.skills, skillId).value.averageRating == RoundTenths(RatingSum(all) + rating, |all| + 1)
  {
    var u := Users.GetByClerkId(st, clerkId).value;
    var s := Get(st.skills, skillId).value;
    var after := Recorded(st, u.id, skillId, s, rating, comment, now);
    var review := Doc(st.nextId, Review(skillId, u.id, rating, comment, now));
    assert after.reviews == st.reviews + [review];
    Reread(st.reviews, review, skillId);
    var s' := Rated(s, OfSkill(st.reviews, skillId), rating);
    GetPut(st.skills, skillId, s');
    assert Get(after.skills, skillId) == Some(s');
  }

  /** The first review of a skill shows as two reviews whose mean is that
      rating. */
  lemma FirstReviewCountsTwice(st: Tables, clerkId: string, skillId: Id, rating: int, comment: Option<string>, now: int)
    requires CreateEffect(st, clerkId, skillId, rating, comment, now).result.Ok?
    requires OfSkill(st.reviews, skillId) == []
    ensures var s := Get(CreateEffect(st, clerkId, skillId, rating, comment, now).after.skills, skillId);
            s.Some? && s.value.totalReviews == 2 && s.value.averageRating == 10 * rating
  {
    GetPut(st.skills, skillId, Rated(Get(st.skills, skillId).value, [], rating));
  }

  /** A second rating of 2 after a first of 4 shows as three reviews and
      2.7 stars (the exact mean being 3.0). */
  lemma SecondReviewExample(s: Skill, first: Doc<Review>)
    requires first.data.rating == 4
    ensures Rated(s, [first], 2).totalReviews == 3 && Rated(s, [first], 2).averageRating == 27
  {
    assert RatingSum([first]) == 4 by {
      assert [first][1..] == [];
    }
  }

  /** A user's second review of the same skill is refused. */
  lemma ReviewOnce(st: Tables, clerkId: string, skillId: Id, rating: int, rating': int,
                   comment: Option<string>, comment': Option<string>, now: int, now': int)
    requires CreateEffect(st, clerkId, skillId, rating, comment, now).result.Ok?
    requires 1 <= rating' <= 5
    ensures var after := CreateEffect(st, clerkId, skillId, rating, comment, now).after;
            CreateEffect(after, clerkId, skillId, rating', comment', now') == Rollback(after, AlreadyReviewed)
  {
    var after := CreateEffect(st, clerkId, skillId, rating, comment, now).after;
    var u := Users.GetByClerkId(st, clerkId).value;
    assert Users.GetByClerkId(after, clerkId) == Some(u);
    var review := Doc(st.nextId, Review(skillId, u.id, rating, comment, now));
    ByUserSkillAppend(st.reviews, [review], u.id, skillId);
  }

  /** A review with its author's display name and picture. */
  datatype ReviewView = ReviewView(review: Doc<Review>, userName: string, userImage: Option<string>)

  /** `userName: user?.name ?? "Anonymous"`, `userImage: user?.imageUrl`. */
  function Attach(st: Tables, d: Doc<Review>): ReviewView {
    var user := Get(st.users, d.data.userId);
    ReviewView(d,
               if user.Some? && user.value.name.Some? then user.value.name.value else "Anonymous",
               if user.Some? then user.value.imageUrl else None)
  }

  function Views(st: Tables, ds: seq<Doc<Review>>): (r: seq<ReviewView>)
    ensures |r| == |ds|
    ensures forall i :: 0 <= i < |ds| ==> r[i] == Attach(st, ds[i])
  {
    if ds == [] then [] else [Attach(st, ds[0])] + Views(st, ds[1..])
  }

  /** `listBySkill`: every review of the skill once, with its author's name
      ("Anonymous" when unknown), newest first. */
  function ListBySkill(st: Tables, skillId: Id): (r: seq<ReviewView>)
    ensures multiset(r) == multiset(Views(st, OfSkill(st.reviews, skillId)))
    ensures forall i, j :: 0 <= i < j < |r| ==> r[i].review.data.createdAt >= r[j].review.data.createdAt
    ensures forall v :: v in r <==> v.review in st.reviews && v.review.data.skillId == skillId && v == Attach(st, v.review)
  {
    var views := Views(st, OfSkill(st.reviews, skillId));
    var r := SortByKeyDesc(views, CreatedAt);
    SameMembers(r, views);
    ViewsMembers(st, OfSkill(st.reviews, skillId));
    r
  }

  function CreatedAt(v: ReviewView): int {
    v.review.data.createdAt
  }

  /** A view is in `Views(st, ds)` exactly when it is the view of a review of `ds`. */
  lemma ViewsMembers(st: Tables, ds: seq<Doc<Review>>)
    ensures forall v: ReviewView :: v in Views(st, ds) <==> v.review in ds && v == Attach(st, v.review)
  {
    var views := Views(st, ds);
    forall v: ReviewView | v.review in ds && v == Attach(st, v.review) ensures v in views {
      var i :| 0 <= i < |ds| && ds[i] == v.review;
      assert views[i] == v;
    }
  }

  /** The second half of `create`: insert the review, re-read the skill's
      reviews and patch its count and mean; a missing skill makes the patch
      throw, which takes the insert back. */
  method Record(db: Db, userId: Id, skillId: Id, rating: int, comment: Option<string>)
    returns (r: Result<(), Failure>)
    modifies db
    ensures db.clock == old(db.clock)
    ensures Get(old(db.skills), skillId).None? ==> r == Err(NonexistentDocument(skillId)) && db.State() == old(db.State())
    ensures Get(old(db.skills), skillId).Some? ==>
              && r == Ok(())
              && db.State() == Recorded(old(db.State()), userId, skillId, Get(old(db.skills), skillId).value, rating, comment, old(db.clock))
  {
    var saved := db.State();
    var review := Doc(db.nextId, Review(skillId, userId, rating, comment, db.clock));
    db.reviews := db.reviews + [review];
    db.nextId := db.nextId + 1;
    var all := OfSkill(db.reviews, skillId);
    var s := Get(db.skills, skillId);
    if s.None? {
      db.Restore(saved);
      return Err(NonexistentDocument(skillId));
    }
    assert db.reviews == saved.reviews + [review];
    RecountIsRated(s.value, saved.reviews, review, skillId);
    db.skills := Put(db.skills, skillId, Recount(s.value, all, rating));
    assert db.State() == Recorded(saved, userId, skillId, s.value, rating, comment, db.clock);
    r := Ok(());
  }

  /** The mutation `create`. */
  method Create(db: Db, clerkId: string, skillId: Id, rating: int, comment: Option<string>)
    returns (r: Result<(), Failure>)
    requires db.Valid()
    modifies db
    ensures db.Valid() && db.clock == old(db.clock)
    ensures r == CreateEffect(old(db.State()), clerkId, skillId, rating, comment, old(db.clock)).result
    ensures db.State() == CreateEffect(old(db.State()), clerkId, skillId, rating, comment, old(db.clock)).after
  {
    CreateKeepsConsistent(db.State(), clerkId, skillId, rating, comment, db.clock);
    if rating < 1 || rating > 5 {
      return Err(RatingOutOfRange);
    }
    var user := Users.GetByClerkId(db.State(), clerkId);
    if user.None? {
      return Err(UserNotFound);
    }
    if ByUserSkill(db.reviews, user.value.id, skillId).Some? {
      return Err(AlreadyReviewed);
    }
    r := Record(db, user.value.id, skillId, rating, comment);
  }
}
