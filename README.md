# ClawMart in Dafny

ClawMart is a marketplace where authors list "skills" (paid HTTP endpoints
that AI agents call) and users assemble "workforces" of agents from
templates. Its backend is a set of Convex queries and mutations over eight
tables: users, skills, reviews, transactions, templates, workforces, agents
and messages. This project models that backend and the few pure helpers of
the web layer that shape or filter its data. It proves what each operation
does to the tables and to its result.

How the model is organised:

- `Store.Db` is the database. It is a class with one insertion-ordered
  sequence per table, the next fresh id, and a clock standing in for
  `Date.now()`.
- Indexed queries (`withIndex(...).eq(...)`) are filters over a table, and
  keep creation order.
- Convex runs a mutation as one transaction. So each mutation `X` is a method
  `X(db, ...)` with `modifies db`, tied to a pure function `XEffect` that
  gives two things:
  - the result: `Ok(value)` or `Err(failure)`;
  - the tables afterwards, which are the starting tables whenever the
    mutation throws.
- A `...KeepsConsistent` lemma shows that each effect preserves the
  invariant `Store.Consistent`:
  - ids are unique and below the counter;
  - no two users share a Clerk id;
  - at most one review exists per (user, skill) pair;
  - every average rating is 0 (unrated) or between 1.0 and 5.0 stars.
- Further lemmas relate the operations to each other: create-then-list,
  idempotence of the seeds, of the user upsert and of slug derivation,
  cascades, and round-trips of tag lists, ids and prices through their
  text forms.

Numbers are integers:

- prices are in micro-USD (millionths of a dollar);
- ratings are whole stars;
- `averageRating` is in tenths of a star;
- `parseFloat` is read to six decimals.

Convex ids are opaque strings in the source. They are natural numbers here,
and are written in decimal where the API prints one.

Where the specification of the system and its code disagree, the model
follows the code:

- **Review counting.** The specification says the rating aggregate counts
  the reviews before the new one, plus one. The code re-reads the reviews
  after inserting the new one, and still adds one. So the new review is
  counted twice:
  - `Reviews.FirstReviewCountsTwice`: a first review gives `totalReviews == 2`;
  - `Reviews.SecondReviewExample`: ratings 4 then 2 give 3 reviews and
    2.7 stars, not 2 and 3.0.
- **Slug uniqueness.** The specification calls slugs unique. `create` never
  checks this (`Skills.CreateDuplicateSlug`).
- **Enterprise limit.** The specification says the enterprise plan is
  unbounded. The code's limit is 999 (`Workforces.Limit`).
- **Required fields that can be absent.** The schema declares `authorId` and
  `sellerId` required. The seeded skills have no author, and a transaction
  copies the skill's author. Both fields are therefore `Option<Id>`.

## Model

| member | source | states |
|---|---|---|
| Schema.ParsePlan | convex/schema.ts:11-15 | a plan is exactly one of "free", "pro", "enterprise"; any other text is refused |
| Schema.ParseMethod | convex/schema.ts:28 | a skill's method is exactly "GET" or "POST" |
| Schema.ParseSkillStatus | convex/schema.ts:39-43 | a skill status is exactly "active", "pending" or "disabled" |
| Schema.ParseTxStatus | convex/schema.ts:66-70 | a transaction status is exactly "completed", "pending" or "failed" |
| Schema.ParseWorkforceStatus | convex/schema.ts:100-104 | a workforce status is exactly "active", "paused" or "setup" |
| Schema.ParseAgentStatus | convex/schema.ts:123-128 | an agent status is exactly "active", "idle", "error" or "paused" |
| Schema.ParseRole | convex/schema.ts:137 | a message role is exactly "user", "agent" or "system" |
| Store.Get | convex/transactions.ts:50 | `ctx.db.get`: finds the document with that id when there is one, none otherwise |
| Store.First | convex/templates.ts:19 | `.first()`: the earliest document passing the test, none when no document passes |
| Store.ByClerkId | convex/users.ts:7-10 | the `by_clerk_id` lookup: a user with that Clerk id, none when nobody has it |
| Store.ByUserSkill | convex/schema.ts:59 | the `by_user_skill` lookup: a review by that user of that skill, none when there is none |
| Store.Put | convex/workforces.ts:139 | `ctx.db.patch`: the document with that id is replaced, every other one stays, the length is kept |
| Store.Delete | convex/skills.ts:141 | `ctx.db.delete`: exactly the documents with other ids remain |
| Store.GetPut | convex/workforces.ts:139 | after a patch the document reads back patched and only that id changed |
| Store.GetPutOther | convex/transactions.ts:64-66 | a patch leaves every other id reading as before |
| Store.ConsistentGrow | convex/schema.ts:4-143 | handing out more ids keeps the store invariant |
| Store.Db.constructor | convex/schema.ts:4-143 | a fresh database has eight empty tables, satisfies the invariant and starts the clock at 0 |
| Store.Db.Restore | convex/reviews.ts:26-75 | puts back exactly the tables a throwing mutation started from, and leaves the clock alone |
| Store.Db.Tick | convex/reviews.ts:58 | time passes between mutations and changes no table |
| Users.GetByClerkId | convex/users.ts:4-12 | the user found carries that Clerk id; none means no user has it |
| Users.CreateEffect | convex/users.ts:14-33 | never throws; a known Clerk id returns its id and writes nothing; otherwise exactly one user with plan free and the next id is inserted |
| Users.CreateThenGet | convex/users.ts:22-31 | after `create` the Clerk id looks up to the id it returned |
| Users.CreateIdempotent | convex/users.ts:22-26 | a second `create` with the same Clerk id returns the same id and changes nothing, whatever its other details |
| Users.CreateKeepsConsistent | convex/users.ts:22-31 | users created this way never share a Clerk id (the invariant is kept) |
| Users.PlanPatched | convex/users.ts:47-50 | the plan is set; the Stripe customer id changes only when a non-empty one is given; no other field changes |
| Users.UpdatePlanEffect | convex/users.ts:35-52 | unknown Clerk id: "User not found" and nothing written; otherwise only that user is patched |
| Users.UpdatePlanKeepsConsistent | convex/users.ts:41-51 | `updatePlan` keeps the invariant |
| Users.Create | convex/users.ts:14-33 | the mutation's result and new tables are those of `CreateEffect` |
| Users.UpdatePlan | convex/users.ts:35-52 | the mutation's result and new tables are those of `UpdatePlanEffect` |
| Slug.Collapse | convex/skills.ts:85 | the first replace yields only a-z, 0-9 and '-', never two '-' in a row, and keeps every letter and digit of its input, in order, inventing none |
| Slug.TrimDashes | convex/skills.ts:85 | the second replace leaves no '-' at either end and removes nothing but at most one leading and one trailing '-' |
| Slug.Slugify | convex/skills.ts:85 | every derived slug uses only a-z, 0-9 and '-', has no "--" and no '-' at either end, and holds exactly the letters and digits of the lower-cased name, in order |
| Slug.CollapseFromWellFormed | convex/skills.ts:85 | the scan that replaces runs emits a well-formed string, starting with no '-' inside a run |
| Slug.CollapseFromFixed | convex/skills.ts:85 | the scan leaves a well-formed string unchanged |
| Slug.CollapseKeepsAlnum | convex/skills.ts:85 | letters and digits pass through the scan unchanged |
| Slug.CollapseFromKeepsAlnum | convex/skills.ts:85 | the scan of `replace(/[^a-z0-9]+/g, "-")` keeps every letter and digit, in order, and writes nothing else but '-' |
| Slug.CollapseFromRun | convex/skills.ts:85 | a whole run of characters outside [a-z0-9] writes a single '-', or nothing when the scan is already inside a run |
| Slug.CollapseOfWords | convex/skills.ts:85 | two words separated by any run of other characters come out joined by exactly one '-' |
| Slug.SlugifyOfWords | convex/skills.ts:85 | a name that lower-cases to two words around such a run gets the slug word-'-'-word |
| Slug.SlugifyIdempotent | convex/skills.ts:85 | deriving a slug from a slug gives it back |
| Slug.SlugifyExample | convex/skills.ts:157-158 | "Web Summarizer" derives "web-summarizer", the slug the seed stores |
| Slug.SlugifyExamplePunctuation | convex/skills.ts:85 | punctuation at both ends of "(Web)!" leaves no dash: "web" |
| Skills.GetBySlug | convex/skills.ts:4-12 | the skill found carries that slug; none means no skill has it |
| Skills.List | convex/skills.ts:14-32 | exactly the active skills, and only those of the category when a non-empty one is given |
| Skills.ListAll | convex/skills.ts:34-39 | every skill, whatever its status |
| Skills.ListWithoutCategory | convex/skills.ts:26-30 | without a category, `list` is `listAll` with the inactive skills dropped, in order |
| Skills.GetById | convex/skills.ts:41-46 | finds a skill exactly when one has that id |
| Skills.ListByAuthor | convex/skills.ts:48-61 | unknown Clerk id: []; otherwise exactly the skills whose author is that user |
| Skills.NewSkill | convex/skills.ts:85-106 | the stored skill has the derived slug, the caller as author, the user's name or else email as author name, status active and zero counters |
| Skills.CreateEffect | convex/skills.ts:63-109 | unknown Clerk id: "User not found. Please sign in." and nothing written; otherwise exactly one new skill with the next id |
| Skills.CreateKeepsConsistent | convex/skills.ts:79-107 | `create` keeps the invariant |
| Skills.CreateDuplicateSlug | convex/skills.ts:7-10 | two names with the same slug both succeed, and `getBySlug` finds the first |
| Skills.Patched | convex/skills.ts:130-134 | exactly the supplied fields are set; slug, author and counters are never written |
| Skills.PatchedIdempotent | convex/skills.ts:130-134 | applying a patch twice is applying it once |
| Skills.PatchedEmpty | convex/skills.ts:130-134 | a patch that supplies nothing changes nothing |
| Skills.UpdateEffect | convex/skills.ts:111-136 | a missing id throws with nothing written; otherwise only that skill is patched |
| Skills.UpdateKeepsSlug | convex/skills.ts:111-136 | any update, a rename included, keeps the slug, the author and the counters |
| Skills.UpdateKeepsConsistent | convex/skills.ts:111-136 | `update` keeps the invariant |
| Skills.RemoveEffect | convex/skills.ts:138-143 | a missing id throws; otherwise only that skill row goes, and its reviews and transactions stay |
| Skills.RemoveKeepsConsistent | convex/skills.ts:138-143 | `remove` keeps the invariant |
| Skills.SeedSkill | convex/skills.ts:249-256 | a seeded skill is active with zero calls, reviews and rating, keeps the given slug, and has no author id |
| Skills.SeedSkills | convex/skills.ts:155-247 | six skills, the first "web-summarizer", all active, unused and without author id |
| Skills.SeedEffect | convex/skills.ts:145-260 | when "web-summarizer" exists: "Already seeded" and nothing written; otherwise the six skills are appended in order and "Seeded 6 skills" is returned |
| Skills.SeedIdempotent | convex/skills.ts:149-153 | seeding twice leaves the tables as seeding once, and the second call answers "Already seeded" |
| Skills.InsertUnused | convex/skills.ts:248-257 | inserting unused skills keeps the invariant |
| Skills.SeedKeepsConsistent | convex/skills.ts:145-260 | `seed` keeps the invariant |
| Skills.Create | convex/skills.ts:63-109 | the mutation's result and new tables are those of `CreateEffect` |
| Skills.Update | convex/skills.ts:111-136 | the mutation's result and new tables are those of `UpdateEffect` |
| Skills.Remove | convex/skills.ts:138-143 | the mutation's result and new tables are those of `RemoveEffect` |
| Skills.InsertSkills | convex/skills.ts:248-257 | the insert loop appends one document per skill, in order, with consecutive ids |
| Skills.Seed | convex/skills.ts:145-260 | the mutation's result and new tables are those of `SeedEffect` |
| Reviews.OfSkill | convex/reviews.ts:7-10 | the `by_skill` index: exactly the reviews of that skill |
| Reviews.OfSkillAppend | convex/reviews.ts:62-65 | the index over an appended table is the index of each part, in order |
| Reviews.RatingSum | convex/reviews.ts:68 | the `reduce` over ratings of 1 to 5 lies between one and five times their number |
| Reviews.RatingSumAppend | convex/reviews.ts:68 | the sum of ratings over two parts is the sum of their sums |
| Reviews.RoundTenths | convex/reviews.ts:73 | `Math.round(avg * 10) / 10` in tenths: the tenth nearest the mean, a half rounded up |
| Reviews.RoundTenthsInRange | convex/reviews.ts:67-73 | a mean of ratings from 1 to 5 rounds to 1.0 to 5.0 stars |
| Reviews.Reread | convex/reviews.ts:53-65 | the re-read after the insert sees the earlier reviews and then the new one |
| Reviews.RecountIsRated | convex/reviews.ts:62-74 | the patch computed from the re-read equals the earlier reviews plus the new rating counted twice |
| Reviews.Refusal | convex/reviews.ts:34-51 | why `create` refuses, first failing check wins: a rating outside 1..5; else an unknown user; else an earlier review by that user; else a missing skill (the closing patch throws); none exactly when all four pass |
| Reviews.CreateEffect | convex/reviews.ts:26-75 | the refusals come in order (rating out of range, unknown user, already reviewed, missing skill), each with nothing written; otherwise one review is stored and the skill is patched |
| Reviews.RatedInRange | convex/reviews.ts:66-74 | the stored mean stays within 1.0 to 5.0 stars |
| Reviews.RecordedKeepsConsistent | convex/reviews.ts:53-74 | the writes of `create` keep the invariant, including one review per (user, skill) |
| Reviews.CreateKeepsConsistent | convex/reviews.ts:26-75 | `create` keeps the invariant |
| Reviews.CreateDoubleCounts | convex/reviews.ts:62-74 | after success, totalReviews is the number of the skill's stored reviews plus one, and the mean is taken over their ratings plus the new one again |
| Reviews.FirstReviewCountsTwice | convex/reviews.ts:62-74 | a skill's first review yields totalReviews 2 and the rating itself as mean |
| Reviews.SecondReviewExample | convex/reviews.ts:62-74 | a 4 then a 2 give 3 reviews and 27 tenths |
| Reviews.ReviewOnce | convex/reviews.ts:45-51 | a user's second review of the same skill is refused with nothing written |
| Reviews.Views | convex/reviews.ts:11-20 | each review is paired with its author's name ("Anonymous" when absent) and image |
| Reviews.ListBySkill | convex/reviews.ts:4-24 | exactly that skill's reviews with their author info, newest first, a permutation of the index |
| Reviews.ViewsMembers | convex/reviews.ts:11-20 | a view is listed exactly when it is the view of one of the reviews |
| Reviews.Record | convex/reviews.ts:53-74 | the writes of `create`: a missing skill throws with nothing written; otherwise one review is inserted and the skill is patched |
| Reviews.Create | convex/reviews.ts:26-75 | the mutation's result and new tables are those of `CreateEffect` |
| Transactions.Bought | convex/transactions.ts:11-15 | the `by_buyer` index: exactly the user's purchases |
| Transactions.Sold | convex/transactions.ts:27-31 | the `by_seller` index: exactly the sales credited to the user |
| Transactions.ListByBuyer | convex/transactions.ts:4-18 | unknown Clerk id: []; otherwise the user's purchases, newest first |
| Transactions.ListBySeller | convex/transactions.ts:20-34 | unknown Clerk id: []; otherwise the user's sales, newest first |
| Transactions.CreateEffect | convex/transactions.ts:36-70 | unknown buyer: "Buyer not found"; then missing skill: "Skill not found", each with nothing written; otherwise one completed transaction, credited to the skill's author, for the caller's amount, plus one call |
| Transactions.PurchasedKeepsConsistent | convex/transactions.ts:53-66 | the writes of `create` keep the invariant |
| Transactions.CreateKeepsConsistent | convex/transactions.ts:36-70 | `create` keeps the invariant |
| Transactions.PurchasedCountsOneCall | convex/transactions.ts:64-66 | the skill bought gains exactly one call and nothing else; every other skill is unchanged |
| Transactions.CreateNeverLowersCalls | convex/transactions.ts:36-70 | one `create`, whatever its outcome, removes no skill and lowers no call count |
| Transactions.ReplayNeverLowersCalls | convex/transactions.ts:64-66 | over any sequence of purchases no skill's call count goes down |
| Transactions.CreateThenListed | convex/transactions.ts:53-61 | the new purchase shows in its buyer's list and, when the skill has an author, in the author's sales |
| Transactions.Record | convex/transactions.ts:53-66 | the writes of `create`: insert the transaction, then patch the call count |
| Transactions.Create | convex/transactions.ts:36-70 | the mutation's result and new tables are those of `CreateEffect` |
| Messages.InWorkforce | convex/messages.ts:7-10 | the `by_workforce` index: exactly the workforce's messages |
| Messages.ByAgent | convex/agents.ts:61-64 | the `by_agent` index: exactly the agent's messages |
| Messages.WithoutAgent | convex/agents.ts:65 | exactly the messages of other agents remain |
| Messages.ListByWorkforce | convex/messages.ts:4-13 | the workforce's latest `limit` messages (50 when none is given), latest first |
| Seqs.Newest | convex/messages.ts:10-11 | `.order("desc").take(n)`: the last n documents (all when fewer), latest first |
| Messages.ListByWorkforceSound | convex/messages.ts:4-13 | never more than the limit, and only the workforce's messages |
| Messages.SendEffect | convex/messages.ts:15-28 | never throws; appends exactly one message with the given fields and returns its id |
| Messages.SendThenListed | convex/messages.ts:15-28 | a message just sent is the first one `listByWorkforce` shows |
| Messages.SendKeepsConsistent | convex/messages.ts:22-27 | `send` keeps the invariant |
| Messages.Send | convex/messages.ts:15-28 | the mutation's result and new tables are those of `SendEffect` |
| Messages.DeletedAll | convex/agents.ts:61-65 | deleting every message the index names leaves exactly the other agents' messages |
| Messages.DeleteOfAgent | convex/agents.ts:65 | the delete loop leaves exactly the other agents' messages, and touches no other table |
| Agents.GetByWorkforce | convex/agents.ts:4-12 | exactly the agents of that workforce |
| Agents.NewAgent | convex/agents.ts:49-54 | the stored agent has the given fields, status idle, 0 messages, never active |
| Agents.CreateEffect | convex/agents.ts:39-56 | never throws; appends exactly one agent and returns its id |
| Agents.CreateThenListed | convex/agents.ts:39-56 | a new agent is listed last for its workforce |
| Agents.CreateKeepsConsistent | convex/agents.ts:39-56 | `create` keeps the invariant |
| Agents.Patched | convex/agents.ts:31-35 | exactly the supplied fields among name, role, prompt, tools and status are set; the rest never changes |
| Agents.PatchedIdempotent | convex/agents.ts:31-35 | applying a patch twice is applying it once |
| Agents.PatchedEmpty | convex/agents.ts:31-35 | a patch that supplies nothing changes nothing |
| Agents.UpdateEffect | convex/agents.ts:14-37 | a missing id throws with nothing written; otherwise only that agent is patched |
| Agents.UpdateKeepsConsistent | convex/agents.ts:14-37 | `update` keeps the invariant |
| Agents.UpdateKeepsWorkforce | convex/agents.ts:14-37 | after an update every workforce has as many agents as before |
| Agents.RemoveEffect | convex/agents.ts:58-68 | a missing id throws; otherwise the agent and exactly its messages go, nothing else |
| Agents.RemoveKeepsConsistent | convex/agents.ts:58-68 | `remove` keeps the invariant |
| Agents.RemoveLeavesNoMessages | convex/agents.ts:58-68 | after `remove` no message names the agent |
| Agents.Create | convex/agents.ts:39-56 | the mutation's result and new tables are those of `CreateEffect` |
| Agents.Update | convex/agents.ts:14-37 | the mutation's result and new tables are those of `UpdateEffect` |
| Agents.Remove | convex/agents.ts:58-68 | the mutation's result and new tables are those of `RemoveEffect` |
| Workforces.Limit | convex/workforces.ts:74 | every plan allows at least one workforce, the free plan exactly one |
| Workforces.LimitMonotone | convex/workforces.ts:74 | free < pro < enterprise |
| Workforces.ByUser | convex/workforces.ts:12-15 | the `by_user` index: exactly the user's workforces |
| Workforces.Staffer | convex/workforces.ts:93-103 | an agent copied from a blueprint: same name, role, description, prompt and tools, idle, 0 messages |
| Workforces.Staff | convex/workforces.ts:92-104 | one agent per blueprint, in blueprint order |
| Workforces.Blueprints | convex/workforces.ts:89-91 | the template's blueprints when a template id is given and found, none otherwise |
| Workforces.EnrollKeepsConsistent | convex/workforces.ts:79-104 | inserting a workforce and then its agents keeps the invariant |
| Workforces.CreateEffect | convex/workforces.ts:48-110 | unknown user: "User not found"; at or over the plan's limit: "Plan limit reached"; each with nothing written; otherwise the active workforce and its agents are inserted |
| Workforces.FoundedKeepsConsistent | convex/workforces.ts:79-106 | the writes of `create` keep the invariant |
| Workforces.CreateKeepsConsistent | convex/workforces.ts:48-110 | `create` keeps the invariant |
| Workforces.CreateRespectsLimit | convex/workforces.ts:70-86 | a successful create gives the owner one more workforce, never beyond the limit, and nobody else's list changes |
| Workforces.CreateAtLimitRefused | convex/workforces.ts:75-77 | an owner at the limit is refused and nothing changes |
| Workforces.StaffListed | convex/workforces.ts:92-104 | the new agents are listed for the workforce after the ones it had, in blueprint order |
| Workforces.FoundedStaff | convex/workforces.ts:79-106 | the new workforce's agents are exactly those copied from the template's blueprints |
| Workforces.RemoveEffect | convex/workforces.ts:112-131 | a missing id throws; otherwise the workforce, its agents and exactly their messages go, and other messages stay |
| Workforces.RemoveKeepsConsistent | convex/workforces.ts:112-131 | `remove` keeps the invariant |
| Workforces.RemoveLeavesNoAgents | convex/workforces.ts:112-131 | after `remove` no agent is listed for the workforce |
| Workforces.UpdateStatusEffect | convex/workforces.ts:133-141 | a missing id throws; otherwise only that workforce's status changes |
| Workforces.UpdateStatusKeepsConsistent | convex/workforces.ts:133-141 | `updateStatus` keeps the invariant |
| Workforces.UpdateStatusIdempotent | convex/workforces.ts:139 | setting the same status twice is setting it once |
| Workforces.Lookup | convex/workforces.ts:30-46 | none exactly for a missing workforce; otherwise it with exactly its agents in index order and its 20 latest messages, latest first (`listByWorkforce` with limit 20) |
| Workforces.FoundedThenLookup | convex/workforces.ts:79-106 | a workforce just created is found, active, with the template's agents |
| Workforces.Summarize | convex/workforces.ts:17-24 | `agentCount` is the number of the workforce's agents |
| Workforces.ListByUser | convex/workforces.ts:4-28 | unknown user: []; otherwise one summary per workforce of the user, in order |
| Workforces.CreateThenListed | convex/workforces.ts:48-110 | after a create the owner's list grows by one, within the limit, ending with the new workforce |
| Workforces.InsertStaff | convex/workforces.ts:92-104 | the agent insert loop appends one agent per blueprint with consecutive ids |
| Workforces.Found | convex/workforces.ts:79-106 | inserts the workforce and then its agents |
| Workforces.Create | convex/workforces.ts:48-110 | the mutation's result and new tables are those of `CreateEffect` |
| Workforces.Dismiss | convex/workforces.ts:121-127 | one turn of the outer loop: the agent and exactly its messages go |
| Workforces.DeleteStaff | convex/workforces.ts:116-128 | the nested loops delete the workforce's agents and exactly their messages |
| Workforces.StaffStep | convex/workforces.ts:120-128 | the loop invariant advances by one agent |
| Workforces.StaffGone | convex/workforces.ts:116-128 | deleting the listed agents leaves exactly the agents of other workforces |
| Workforces.Remove | convex/workforces.ts:112-131 | the mutation's result and new tables are those of `RemoveEffect` |
| Workforces.UpdateStatus | convex/workforces.ts:133-141 | the mutation's result and new tables are those of `UpdateStatusEffect` |
| Templates.List | convex/templates.ts:4-8 | every template, in creation order |
| Templates.Lookup | convex/templates.ts:10-15 | finds a template exactly when one has that id |
| Templates.SeedTemplates | convex/templates.ts:22-215 | five templates |
| Templates.SeedTemplatesWellStaffed | convex/templates.ts:29-213 | every seeded template has 4 or 5 blueprints of three tools each; only the real estate one has 5 |
| Templates.StockedKeepsConsistent | convex/templates.ts:217-219 | inserting templates keeps the invariant |
| Templates.SeedEffect | convex/templates.ts:17-222 | with any template present: "already seeded" and nothing written; otherwise the five templates are inserted in order and "seeded" is returned |
| Templates.SeedIdempotent | convex/templates.ts:19-20 | seeding twice leaves the tables as seeding once |
| Templates.SeedKeepsConsistent | convex/templates.ts:17-222 | `seed` keeps the invariant |
| Templates.InsertTemplates | convex/templates.ts:217-219 | the insert loop appends the templates in order with consecutive ids |
| Templates.Seed | convex/templates.ts:17-222 | the mutation's result and new tables are those of `SeedEffect` |
| Text.Lower | src/app/skills/page.tsx:49-53 | `toLowerCase` keeps the length and lowers each ASCII capital |
| Text.LowerIdempotent | src/app/skills/page.tsx:49-53 | lower-casing twice is lower-casing once |
| Text.Contains | src/app/skills/page.tsx:50-52 | `includes` holds exactly when the query occurs at some index |
| Text.Trim | src/app/dashboard/skills/submit/page.tsx:78 | the result is the piece of the input that `trim` keeps: no white space at its ends, only white space around it |
| Text.TrimOfTrimmed | src/app/dashboard/skills/submit/page.tsx:78 | a string with no white space at its ends trims to itself |
| Text.Split | src/app/dashboard/skills/submit/page.tsx:77 | `split(",")` gives at least one piece and no piece holds a comma |
| Text.SplitJoin | src/app/dashboard/skills/submit/page.tsx:77 | splitting undoes joining with commas |
| Numbers.NatToString | src/app/api/skills/route.ts:56 | the decimal form of a number: digits only, no leading zero |
| Numbers.DigitsValueOfNatToString | src/app/api/skills/route.ts:56 | reading back the decimal form gives the number |
| Numbers.NatToStringInjective | src/app/api/skills/route.ts:56 | different ids are written differently |
| Numbers.ParseDecimal | src/app/dashboard/skills/submit/page.tsx:75 | `parseFloat` after white space and an optional sign: NaN exactly when no digit stands before or right after the point; otherwise the unsigned reading, negated after a '-' |
| Numbers.ParseDecimalMeaning | src/app/dashboard/skills/submit/page.tsx:75 | a number `parseFloat` reads is the sign times the whole digits plus the first six decimals, in millionths |
| Numbers.ParseDecimalOfNat | src/app/dashboard/skills/submit/page.tsx:75 | `parseFloat` of a whole number written out gives that number |
| Numbers.ParseDecimalOfFixed | src/app/dashboard/skills/submit/page.tsx:75 | a price written as digits, a point and six decimals parses back to its value |
| Numbers.ParseDecimalNaN | src/app/dashboard/skills/submit/page.tsx:75 | text whose first non-space character is not a digit, sign or point parses to NaN |
| Numbers.ParseThousandths | src/app/dashboard/skills/submit/page.tsx:49 | "0.00d" parses to d thousandths of a dollar, so the default "0.005" is 5000 micro-USD |
| SubmitForm.InitialForm | src/app/dashboard/skills/submit/page.tsx:42-54 | the form starts with one of the listed categories, POST and an empty name |
| SubmitForm.Optional | src/app/dashboard/skills/submit/page.tsx:71 | an empty field is sent as absent, any other as itself |
| SubmitForm.Price | src/app/dashboard/skills/submit/page.tsx:75 | the parsed price, or 0.005 when it is NaN or zero; never zero |
| SubmitForm.InitialPriceIsDefault | src/app/dashboard/skills/submit/page.tsx:49 | the form's initial price is the fallback price |
| SubmitForm.PriceOfThousandths | src/app/dashboard/skills/submit/page.tsx:75 | a price typed as "0.00d" is kept as d thousandths, except that "0.000" falls back to 0.005 |
| SubmitForm.TrimAll | src/app/dashboard/skills/submit/page.tsx:78 | each piece trimmed, in order |
| SubmitForm.TrimmedAreTags | src/app/dashboard/skills/submit/page.tsx:76-79 | trimmed comma-free pieces that are not empty are tags |
| SubmitForm.ParseTags | src/app/dashboard/skills/submit/page.tsx:76-79 | every parsed tag is non-empty, comma-free and has no white space at its ends |
| SubmitForm.ParseTagsEmpty | src/app/dashboard/skills/submit/page.tsx:76-79 | an empty tags field gives no tag |
| SubmitForm.ParseTagsOfJoin | src/app/dashboard/skills/submit/page.tsx:76-79 | tags joined with commas parse back to themselves, in order |
| SubmitForm.HandleSubmit | src/app/dashboard/skills/submit/page.tsx:56-83 | without a user nothing happens; an empty name, description or endpoint blocks the call; a signed-in user with all three filled in always gets the call, and it carries the form's fields, the parsed tags, the price and absent empty optionals |
| SubmitForm.InitialFormMissingFields | src/app/dashboard/skills/submit/page.tsx:42-63 | the untouched form cannot be submitted |
| SubmitForm.SubmittedThenCreated | src/app/dashboard/skills/submit/page.tsx:67-83 | a submission by a known user creates one active skill with the derived slug, a non-zero price and well-formed tags |
| SkillsApi.CategoryArg | src/app/api/skills/route.ts:14 | an empty or missing parameter means no category |
| SkillsApi.DetailKey | src/app/api/skills/route.ts:56 | the slug when it is non-empty, else the id; never empty |
| SkillsApi.Present | src/app/api/skills/route.ts:42-57 | each listing field is copied from the skill; the endpoint and detail URL are prefixed with the site, currency "USDC" and chain "Base" |
| SkillsApi.Respond | src/app/api/skills/route.ts:13-75 | a throw gives 500 "Internal error"; a non-OK answer 502 "Failed to fetch skills"; otherwise 200 with x402/ClawMart, count = number of listings = number of rows, in order |
| SkillsApi.WrappingIrrelevant | src/app/api/skills/route.ts:39 | rows wrapped in `value` or bare give the same reply |
| SkillsApi.ServedListing | src/app/api/skills/route.ts:14-57 | served from the backend, a listing is present exactly when an active skill of the requested category has it |
| Browse.StrLeTotalPreorder | src/app/skills/page.tsx:42 | the string order used by `sort()` is total and transitive |
| Browse.StrLeAntisymmetric | src/app/skills/page.tsx:42 | two strings each before the other are equal |
| Browse.CategoryColumn | src/app/skills/page.tsx:42 | exactly the categories of the rows |
| Browse.SortStrings | src/app/skills/page.tsx:42 | sorting distinct strings keeps them distinct, keeps the members, and sorts them |
| Browse.Categories | src/app/skills/page.tsx:41-43 | empty while loading; otherwise each category of the rows once, in sorted order |
| Browse.CategoriesIncreasing | src/app/skills/page.tsx:41-43 | the category list is strictly increasing |
| Browse.Matches | src/app/skills/page.tsx:47-53 | an empty query matches; otherwise the lower-cased query occurs in the lower-cased name, description or some tag |
| Browse.Search | src/app/skills/page.tsx:46-55 | exactly the rows whose lower-cased name, description or some tag contains the lower-cased query |
| Browse.SearchEmpty | src/app/skills/page.tsx:48 | an empty query keeps every row, in order |
| Browse.SearchKeepsOrder | src/app/skills/page.tsx:46-55 | searching drops rows and never reorders them |
| Browse.SearchFindsByName | src/app/skills/page.tsx:49-51 | a query equal to the name in any letter case finds the skill |
| Browse.Arrange | src/app/skills/page.tsx:56-70 | the sort is a permutation of its input |
| Browse.ArrangeOrders | src/app/skills/page.tsx:56-70 | each option orders as labelled: price up, price down, rating down, newest first, most calls first |
| Browse.Shown | src/app/skills/page.tsx:46-70 | the grid is a permutation of the matching rows |
| Browse.ShownFromList | src/app/skills/page.tsx:39-70 | a skill is shown exactly when it is active, in the chosen category and matches the search |
| Browse.Pills | src/app/skills/page.tsx:153-155 | the categories, with the active one first when it is set and missing; no duplicates added |
| Browse.PillsOfCategories | src/app/skills/page.tsx:153-155 | the active category always has a pill, and no pill appears twice |
| AgentCatalog.AgentSkills | src/lib/agents.ts:22-155 | six entries |
| AgentCatalog.Own | src/lib/agents.ts:22-155 | each entry's endpoint is "/api/skills/" + its id and its author "clawmart" |
| AgentCatalog.Find | src/lib/agents.ts:158 | `find`: the first entry with that id, none when no entry has it |
| AgentCatalog.GetSkillById | src/lib/agents.ts:157-159 | a found entry is in the table with that id; none exactly when no entry has it |
| AgentCatalog.Initials | src/lib/agents.ts:22-155 | the ids begin with six different letters |
| AgentCatalog.IdsDistinct | src/lib/agents.ts:22-155 | no two entries share an id |
| AgentCatalog.GetSkillByIdOfEntry | src/lib/agents.ts:157-159 | every entry is found under its own id |
| AgentCatalog.Column | src/lib/agents.ts:161 | the categories of the entries, in order |
| AgentCatalog.ColumnMembers | src/lib/agents.ts:161 | a category is in the column exactly when some entry has it |
| AgentCatalog.CategoriesOf | src/lib/agents.ts:161 | each category once, exactly those of the entries |
| AgentCatalog.Categories | src/lib/agents.ts:161 | no duplicates, exactly the table's categories |
| AgentCatalog.ColumnListed | src/lib/agents.ts:29-139 | the table's categories in order are Research, Development, NLP, Vision, Data, NLP |
| AgentCatalog.CategoriesListed | src/lib/agents.ts:161 | `categories` is [Research, Development, NLP, Vision, Data] |
| AgentCatalog.ThousandthsAgree | src/lib/agents.ts:30-31 | a "$0.00d" label reads back as d thousandths of a dollar |
| AgentCatalog.LabelsInThousandths | src/lib/agents.ts:22-155 | every label in the table is "$0.00" and one digit, matching its raw price |
| AgentCatalog.PricesAgree | src/lib/agents.ts:22-155 | every price label is a dollar sign followed by text that `parseFloat` reads as the raw price |
| AgentCatalog.AgreesWithSeed | src/lib/agents.ts:22-155 | the catalogue lists the six seeded skills in seed order, with the same slug, name, category, price, tags, endpoint, method, response time and author |

## Left out

- User interface: all JSX, React state, toasts, navigation and the loading state. The browse page's `skills === undefined` appears only as the `None` case of `Browse.Categories`.
- Stripe, Clerk and the x402 payment flow: checkout, webhooks, signature checks, middleware and `auth.protect()`. These are calls into foreign services.
- The `fetch` to the Convex query endpoint in the listing route. It becomes an input: it threw, answered not-OK with a text, or answered with rows. The `Cache-Control` header and the revalidation hint are not modelled.
- Concurrency. Convex serialises mutations, so each mutation is one atomic step and interleavings are not modelled.
- Floating point:
  - prices are micro-USD integers;
  - `Math.round(avg * 10) / 10` is exact rounding in tenths, a half rounding up, without IEEE error;
  - `parseFloat` reads plain decimal notation only (no exponent, no "Infinity"), and digits past the sixth decimal are dropped.
- Review ratings are integers. The schema's `rating: v.number()` also admits fractions such as 4.5, and NaN, which passes the `< 1 || > 5` test and would make the average NaN. The model covers neither. The only caller, the star picker of `src/components/skill-reviews.tsx`, sends whole stars from 1 to 5.
- Slug.CollapseFrom: its letter-keeping and shape properties are separate lemmas (`CollapseFromWellFormed`, `CollapseFromKeepsAlnum`), not its own ensures, so the example lemmas over concrete names stay cheap to check.
- Lower-casing (`toLowerCase`) covers ASCII letters only. Other characters pass through unchanged.
- Browse.Categories: JavaScript's default `sort()` compares UTF-16 code units. The model compares code points, which agree on ASCII and the Basic Multilingual Plane.
- Seqs.Sort: JavaScript's sort is stable. The model's insertion sort is stable too, but stability is not stated or proved; only sortedness and permutation are.
- Seed and catalogue prose: descriptions, long descriptions, system prompts, example inputs and outputs. These are short placeholders or omitted, because only counts, order and structure matter to the properties.
- AgentCatalog: `description`, `longDescription`, `exampleInput` and `exampleOutput` of the catalogue entries are omitted. Prices are the raw micro-USD value plus the label text, and ratings are in tenths.
- Messages.ListByWorkforce: `limit` is a natural number. The source declares it `v.optional(v.number())`, so a negative or fractional limit could reach `take`; the model does not cover that. The one caller in the core, `workforces.get`, passes 20.
- The `search_name` full-text index and the `by_email` and `by_stripe_customer_id` indexes. No core operation uses them.
- The `status` argument of `skills.list`. The source accepts it and ignores it, so the model has no such argument.
- Convex ids are opaque strings; the model uses natural numbers from one counter shared by all tables. The listing's `detailUrl` fallback writes the id in decimal.
- Workforces.Limit: its contract states only the free plan's value (1) and that every limit is at least 1. `Workforces.LimitMonotone` adds the ordering. The values 3 and 999 appear in its body, not its contract.
