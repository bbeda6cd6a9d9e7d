/** convex/skills.ts: the skill registry's queries and mutations. */
module Skills {
  import opened Base
  import opened Seqs
  import opened Schema
  import opened Store
  import opened Slug
  import Users

  /** `getBySlug`: the earliest skill with that slug. Slugs are not unique. */
  function GetBySlug(st: Tables, slug: string): (r: Option<Doc<Skill>>)
    ensures r.Some? ==> r.value in st.skills && r.value.data.slug == slug
    ensures r.None? ==> forall d :: d in st.skills ==> d.data.slug != slug
  {
    First(st.skills, (s: Skill) => s.slug == slug)
  }

  /** Whether `list` narrows to a category: only for a non-empty one
      (`if (args.category)`). */
  predicate NarrowsTo(category: Option<string>) {
    category.Some? && category.value != ""
  }

  /** `list`: the active skills, of the given category when one is given,
      in creation order. */
  function List(st: Tables, category: Option<string>): (r: seq<Doc<Skill>>)
    ensures forall d :: d in r <==>
      && d in st.skills
      && d.data.status == SkillStatus.Active
      && (NarrowsTo(category) ==> d.data.category == category.value)
  {
    var candidates :=
      if NarrowsTo(category) then Filter(st.skills, (d: Doc<Skill>) => d.data.category == category.value)
      else st.skills;
    Filter(candidates, (d: Doc<Skill>) => d.data.status == SkillStatus.Active)
  }

  /** `listAll`: every skill, whatever its status. */
  function ListAll(st: Tables): (r: seq<Doc<Skill>>)
    ensures forall d :: d in r <==> d in st.skills
  {
    st.skills
  }

  /** Without a category, `list` is `listAll` with the inactive skills
      dropped, order kept. */
  lemma ListWithoutCategory(st: Tables, category: Option<string>)
    requires !NarrowsTo(category)
    ensures List(st, category) == Filter(ListAll(st), (d: Doc<Skill>) => d.data.status == SkillStatus.Active)
    ensures IsSubsequence(List(st, category), ListAll(st))
  {
    FilterIsSubsequence(ListAll(st), (d: Doc<Skill>) => d.data.status == SkillStatus.Active);
  }

  /** `get`. */
  function GetById(st: Tables, id: Id): (r: Option<Skill>)
    ensures r.Some? <==> exists d :: d in st.skills && d.id == id
    ensures r.Some? ==> Doc(id, r.value) in st.skills
  {
    Get(st.skills, id)
  }

  /** `listByAuthor`: the skills whose author is the user with that Clerk
      id; nothing for an unknown Clerk id. */
  function ListByAuthor(st: Tables, clerkId: string): (r: seq<Doc<Skill>>)
    ensures Users.GetByClerkId(st, clerkId).None? ==> r == []
    ensures Users.GetByClerkId(st, clerkId).Some? ==>
              forall d :: d in r <==> d in st.skills && d.data.authorId == Some(Users.GetByClerkId(st, clerkId).value.id)
  {
    match Users.GetByClerkId(st, clerkId)
    case None => []
    case Some(u) => Filter(st.skills, (d: Doc<Skill>) => d.data.authorId == Some(u.id))
  }

  /** The arguments of `create`. */
  datatype SkillInput = SkillInput(
    name: string,
    description: string,
    longDescription: Option<string>,
    category: string,
    endpoint: string,
    httpMethod: HttpMethod,
    pricePerCall: int,
    tags: seq<string>,
    exampleInput: Option<string>,
    exampleOutput: Option<string>,
    responseTime: Option<string>)

  /** The skill `create` inserts for `author`: a slug derived from the name,
      the author's name (or e-mail when it has none), active, no calls, no
      reviews. */
  function NewSkill(input: SkillInput, author: Doc<User>, now: int): (s: Skill)
    ensures IsSlug(s.slug) && s.slug == Slugify(input.name)
    ensures s.authorId == Some(author.id)
    ensures s.authorName == if author.data.name.Some? then author.data.name.value else author.data.email
    ensures s.status == SkillStatus.Active && s.totalCalls == 0 && s.totalReviews == 0 && s.averageRating == 0
    ensures s.name == input.name && s.pricePerCall == input.pricePerCall && s.tags == input.tags
  {
    Skill(Slugify(input.name), input.name, input.description, input.longDescription, input.category,
          input.endpoint, input.httpMethod, input.pricePerCall, Some(author.id),
          author.data.name.GetOr(author.data.email), input.tags, input.exampleInput, input.exampleOutput,
          input.responseTime, 0, 0, 0, SkillStatus.Active, now)
  }

  /** `create`: throws for an unknown Clerk id; otherwise inserts exactly one
      skill and returns its id. */
  function CreateEffect(st: Tables, clerkId: string, input: SkillInput, now: int): (o: Outcome<Id>)
    ensures Users.GetByClerkId(st, clerkId).None? ==> o == Rollback(st, SignInRequired)
    ensures Users.GetByClerkId(st, clerkId).Some? ==>
              && o.result == Ok(st.nextId)
              && o.after == st.(skills := st.skills + [Doc(st.nextId, NewSkill(input, Users.GetByClerkId(st, clerkId).value, now))],
                                nextId := st.nextId + 1)
  {
    match Users.GetByClerkId(st, clerkId)
    case None => Rollback(st, SignInRequired)
    case Some(u) =>
      Outcome(Ok(st.nextId), st.(skills := st.skills + [Doc(st.nextId, NewSkill(input, u, now))], nextId := st.nextId + 1))
  }

  lemma CreateKeepsConsistent(st: Tables, clerkId: string, input: SkillInput, now: int)
    requires Consistent(st)
    ensures Consistent(CreateEffect(st, clerkId, input, now).after)
  {
    if Users.GetByClerkId(st, clerkId).Some? {
      var s := NewSkill(input, Users.GetByClerkId(st, clerkId).value, now);
      ConsistentGrow(st, st.nextId + 1);
      KeyedInsert(st.skills, st.nextId, s);
      WithSkills(st.(nextId := st.nextId + 1), st.skills + [Doc(st.nextId, s)]);
    }
  }

  /** Slugs are not checked for uniqueness: two names with the same slug are
      both accepted, and `getBySlug` then finds the earlier skill. */
  lemma CreateDuplicateSlug(st: Tables, clerkId: string, first: SkillInput, second: SkillInput, now: int, now': int)
    requires Users.GetByClerkId(st, clerkId).Some?
    requires Slugify(first.name) == Slugify(second.name)
    requires GetBySlug(st, Slugify(first.name)).None?
    ensures var o := CreateEffect(st, clerkId, first, now);
            var o' := CreateEffect(o.after, clerkId, second, now');
            && o.result.Ok? && o'.result.Ok? && o.result.value != o'.result.value
            && GetBySlug(o'.after, Slugify(second.name)).Some?
            && GetBySlug(o'.after, Slugify(second.name)).value.id == o.result.value
  {
    var slug := Slugify(first.name);
    var o := CreateEffect(st, clerkId, first, now);
    var u := Users.GetByClerkId(st, clerkId).value;
    var d := Doc(st.nextId, NewSkill(first, u, now));
    assert Users.GetByClerkId(o.after, clerkId) == Users.GetByClerkId(st, clerkId);
    var u' := Users.GetByClerkId(o.after, clerkId).value;
    var d' := Doc(st.nextId + 1, NewSkill(second, u', now'));
    FirstOfAppend(st.skills, [d], (s: Skill) => s.slug == slug);
    FirstOfAppend(st.skills + [d], [d'], (s: Skill) => s.slug == slug);
  }

  /** The arguments of `update` besides the id; `None` is an omitted field. */
  datatype SkillPatch = SkillPatch(
    name: Option<string>,
    description: Option<string>,
    longDescription: Option<string>,
    endpoint: Option<string>,
    pricePerCall: Option<int>,
    category: Option<string>,
    tags: Option<seq<string>>,
    status: Option<SkillStatus>)

  /** The fields `update` writes: the supplied ones, nothing else. The slug is
      not derived again when the name changes. */
  function Patched(s: Skill, p: SkillPatch): (r: Skill)
    ensures r.name == p.name.GetOr(s.name) && r.description == p.description.GetOr(s.description)
    ensures r.longDescription == (if p.longDescription.Some? then p.longDescription else s.longDescription)
    ensures r.endpoint == p.endpoint.GetOr(s.endpoint) && r.pricePerCall == p.pricePerCall.GetOr(s.pricePerCall)
    ensures r.category == p.category.GetOr(s.category) && r.tags == p.tags.GetOr(s.tags)
    ensures r.status == p.status.GetOr(s.status)
    ensures r.(name := s.name, description := s.description, longDescription := s.longDescription,
               endpoint := s.endpoint, pricePerCall := s.pricePerCall, category := s.category,
               tags := s.tags, status := s.status) == s
  {
    s.(name := p.name.GetOr(s.name),
       description := p.description.GetOr(s.description),
       longDescription := if p.longDescription.Some? then p.longDescription else s.longDescription,
       endpoint := p.endpoint.GetOr(s.endpoint),
       pricePerCall := p.pricePerCall.GetOr(s.pricePerCall),
       category := p.category.GetOr(s.category),
       tags := p.tags.GetOr(s.tags),
       status := p.status.GetOr(s.status))
  }

  /** Applying the same patch twice is applying it once. */
  lemma PatchedIdempotent(s: Skill, p: SkillPatch)
    ensures Patched(Patched(s, p), p) == Patched(s, p)
  {
  }

  /** A patch that supplies nothing changes nothing. */
  lemma PatchedEmpty(s: Skill)
    ensures Patched(s, SkillPatch(None, None, None, None, None, None, None, None)) == s
  {
  }

  /** `update`: throws for a missing skill; otherwise patches that one skill
      and no other document. */
  function UpdateEffect(st: Tables, id: Id, p: SkillPatch): (o: Outcome<()>)
    ensures Get(st.skills, id).None? ==> o == Rollback(st, NonexistentDocument(id))
    ensures Get(st.skills, id).Some? ==>
              && o.result.Ok?
              && o.after == st.(skills := o.after.skills)
              && OnlyPatched(st.skills, o.after.skills, id)
              && Get(o.after.skills, id) == Some(Patched(Get(st.skills, id).value, p))
  {
    match Get(st.skills, id)
    case None => Rollback(st, NonexistentDocument(id))
    case Some(s) =>
      GetPut(st.skills, id, Patched(s, p));
      Outcome(Ok(()), st.(skills := Put(st.skills, id, Patched(s, p))))
  }

  /** Renaming a skill keeps its slug and counters. */
  lemma UpdateKeepsSlug(st: Tables, id: Id, p: SkillPatch)
    requires Get(st.skills, id).Some?
    ensures var s := Get(st.skills, id).value;
            var s' := Get(UpdateEffect(st, id, p).after.skills, id).value;
            && s'.slug == s.slug && s'.authorId == s.authorId
            && s'.totalCalls == s.totalCalls && s'.totalReviews == s.totalReviews
            && s'.averageRating == s.averageRating
  {
  }

  lemma UpdateKeepsConsistent(st: Tables, id: Id, p: SkillPatch)
    requires Consistent(st)
    ensures Consistent(UpdateEffect(st, id, p).after)
  {
    if Get(st.skills, id).Some? {
      var x := Patched(Get(st.skills, id).value, p);
      KeyedPut(st.skills, st.nextId, id, x);
      assert Doc(id, Get(st.skills, id).value) in st.skills;
      WithSkills(st, Put(st.skills, id, x));
    }
  }

  /** `remove`: throws for a missing skill; otherwise deletes that skill row
      only. Its reviews and transactions stay. */
  function RemoveEffect(st: Tables, id: Id): (o: Outcome<()>)
    ensures Get(st.skills, id).None? ==> o == Rollback(st, NonexistentDocument(id))
    ensures Get(st.skills, id).Some? ==>
              && o.result.Ok?
              && o.after == st.(skills := o.after.skills)
              && (forall d :: d in o.after.skills <==> d in st.skills && d.id != id)
  {
    match Get(st.skills, id)
    case None => Rollback(st, NonexistentDocument(id))
    case Some(_) => Outcome(Ok(()), st.(skills := Delete(st.skills, id)))
  }

  lemma RemoveKeepsConsistent(st: Tables, id: Id)
    requires Consistent(st)
    ensures Consistent(RemoveEffect(st, id).after)
  {
    if Get(st.skills, id).Some? {
      KeyedFilter(st.skills, st.nextId, (d: Doc<Skill>) => d.id != id);
      WithSkills(st, Delete(st.skills, id));
    }
  }

  /** A skill nobody has called or reviewed yet, open for business. */
  predicate Unused(s: Skill) {
    s.status == SkillStatus.Active && s.totalCalls == 0 && s.totalReviews == 0 && s.averageRating == 0
  }

  /** One seeded skill: authored by "clawmart" with no author id, POST,
      active, no calls, no reviews. The descriptions and examples are left
      empty here. */
  function SeedSkill(slug: string, name: string, category: string,
                     price: int, tags: seq<string>, responseTime: string, now: int): (s: Skill)
    ensures Unused(s) && s.authorId == None && s.slug == slug
  {
    Skill(slug, name, "", Some(""), category, "/api/skills/" + slug, POST, price, None, "clawmart",
          tags, Some(""), Some(""), Some(responseTime), 0, 0, 0, SkillStatus.Active, now)
  }

  /** The six skills `seed` inserts, in order. Prices are micro-USD. */
  function SeedSkills(now: int): (r: seq<Skill>)
    ensures |r| == 6 && r[0].slug == "web-summarizer"
    ensures forall i :: 0 <= i < |r| ==> Unused(r[i]) && r[i].authorId == None
  {
    [ SeedSkill("web-summarizer", "Web Summarizer",
                "Research", 3000, ["NLP", "Summarization", "Web"], "~1.2s", now),
      SeedSkill("code-reviewer", "Code Reviewer",
                "Development", 5000, ["Code", "Security", "Review"], "~2.1s", now),
      SeedSkill("sentiment-analyzer", "Sentiment Analyzer",
                "NLP", 1000, ["NLP", "Sentiment", "Emotion"], "~0.4s", now),
      SeedSkill("image-describer", "Image Describer",
                "Vision", 8000, ["Vision", "OCR", "Accessibility"], "~3.2s", now),
      SeedSkill("data-extractor", "Data Extractor",
                "Data", 4000, ["ETL", "Extraction", "Structured Data"], "~1.8s", now),
      SeedSkill("translate-pro", "Translate Pro",
                "NLP", 2000, ["Translation", "NLP", "i18n"], "~0.8s", now) ]
  }

  /** `seed`: nothing happens once a "web-summarizer" skill exists; otherwise
      the six skills are inserted in order. */
  function SeedEffect(st: Tables, now: int): (o: Outcome<string>)
    ensures GetBySlug(st, "web-summarizer").Some? ==> o == Outcome(Ok("Already seeded"), st)
    ensures GetBySlug(st, "web-summarizer").None? ==>
              && o.result == Ok("Seeded 6 skills")
              && o.after == st.(skills := st.skills + Docs(st.nextId, SeedSkills(now)), nextId := st.nextId + 6)
  {
    if GetBySlug(st, "web-summarizer").Some? then Outcome(Ok("Already seeded"), st)
    else Outcome(Ok("Seeded 6 skills"), st.(skills := st.skills + Docs(st.nextId, SeedSkills(now)), nextId := st.nextId + 6))
  }

  /** Seeding twice leaves the tables as seeding once. */
  lemma SeedIdempotent(st: Tables, now: int, now': int)
    ensures SeedEffect(SeedEffect(st, now).after, now').after == SeedEffect(st, now).after
    ensures SeedEffect(SeedEffect(st, now).after, now').result == Ok("Already seeded")
  {
    var after := SeedEffect(st, now).after;
    if GetBySlug(st, "web-summarizer").None? {
      var docs := Docs(st.nextId, SeedSkills(now));
      assert docs[0] in docs;
      FirstOfAppend(st.skills, docs, (s: Skill) => s.slug == "web-summarizer");
    }
  }

  /** Inserting skills nobody has used or rated keeps the invariant. */
  lemma InsertUnused(st: Tables, xs: seq<Skill>)
    requires Consistent(st)
    requires forall i :: 0 <= i < |xs| ==> Unused(xs[i])
    ensures Consistent(st.(skills := st.skills + Docs(st.nextId, xs), nextId := st.nextId + |xs|))
  {
    var skills := st.skills + Docs(st.nextId, xs);
    ConsistentGrow(st, st.nextId + |xs|);
    KeyedDocs(st.skills, st.nextId, xs);
    forall d | d in skills ensures d.data.averageRating == 0 || 10 <= d.data.averageRating <= 50 {
      if d !in st.skills {
        var i :| 0 <= i < |skills| && skills[i] == d;
        assert Unused(xs[i - |st.skills|]);
      }
    }
    WithSkills(st.(nextId := st.nextId + |xs|), skills);
  }

  lemma SeedKeepsConsistent(st: Tables, now: int)
    requires Consistent(st)
    ensures Consistent(SeedEffect(st, now).after)
  {
    if GetBySlug(st, "web-summarizer").None? {
      InsertUnused(st, SeedSkills(now));
    }
  }

  /** The mutation `create`. */
  method Create(db: Db, clerkId: string, input: SkillInput) returns (r: Result<Id, Failure>)
    requires db.Valid()
    modifies db
    ensures db.Valid() && db.clock == old(db.clock)
    ensures r == CreateEffect(old(db.State()), clerkId, input, old(db.clock)).result
    ensures db.State() == CreateEffect(old(db.State()), clerkId, input, old(db.clock)).after
  {
    CreateKeepsConsistent(db.State(), clerkId, input, db.clock);
    var user := Users.GetByClerkId(db.State(), clerkId);
    if user.None? {
      return Err(SignInRequired);
    }
    var id := db.nextId;
    db.skills := db.skills + [Doc(id, NewSkill(input, user.value, db.clock))];
    db.nextId := id + 1;
    r := Ok(id);
  }

  /** The mutation `update`. */
  method Update(db: Db, id: Id, p: SkillPatch) returns (r: Result<(), Failure>)
    requires db.Valid()
    modifies db
    ensures db.Valid() && db.clock == old(db.clock)
    ensures r == UpdateEffect(old(db.State()), id, p).result
    ensures db.State() == UpdateEffect(old(db.State()), id, p).after
  {
    UpdateKeepsConsistent(db.State(), id, p);
    var s := Get(db.skills, id);
    if s.None? {
      return Err(NonexistentDocument(id));
    }
    db.skills := Put(db.skills, id, Patched(s.value, p));
    r := Ok(());
  }

  /** The mutation `remove`. */
  method Remove(db: Db, id: Id) returns (r: Result<(), Failure>)
    requires db.Valid()
    modifies db
    ensures db.Valid() && db.clock == old(db.clock)
    ensures r == RemoveEffect(old(db.State()), id).result
    ensures db.State() == RemoveEffect(old(db.State()), id).after
  {
    RemoveKeepsConsistent(db.State(), id);
    if Get(db.skills, id).None? {
      return Err(NonexistentDocument(id));
    }
    db.skills := Delete(db.skills, id);
    r := Ok(());
  }

  /** The insert loop of `seed`: one document per skill, in order. */
  method InsertSkills(db: Db, xs: seq<Skill>)
    modifies db
    ensures db.State() == old(db.State()).(skills := old(db.skills) + Docs(old(db.nextId), xs), nextId := old(db.nextId) + |xs|)
    ensures db.clock == old(db.clock)
  {
    ghost var start := db.State();
    for i := 0 to |xs|
      invariant db.skills == start.skills + Docs(start.nextId, xs[..i])
      invariant db.nextId == start.nextId + i
      invariant db.State() == start.(skills := db.skills, nextId := db.nextId)
      invariant db.clock == old(db.clock)
    {
      DocsSnoc(start.nextId, xs[..i], xs[i]);
      assert xs[..i + 1] == xs[..i] + [xs[i]];
      db.skills := db.skills + [Doc(db.nextId, xs[i])];
      db.nextId := db.nextId + 1;
    }
    assert xs[..|xs|] == xs;
  }

  /** The mutation `seed`. */
  method Seed(db: Db) returns (r: Result<string, Failure>)
    requires db.Valid()
    modifies db
    ensures db.Valid() && db.clock == old(db.clock)
    ensures r == SeedEffect(old(db.State()), old(db.clock)).result
    ensures db.State() == SeedEffect(old(db.State()), old(db.clock)).after
  {
    SeedKeepsConsistent(db.State(), db.clock);
    if GetBySlug(db.State(), "web-summarizer").Some? {
      return Ok("Already seeded");
    }
    InsertSkills(db, SeedSkills(db.clock));
    r := Ok("Seeded 6 skills");
  }
}
