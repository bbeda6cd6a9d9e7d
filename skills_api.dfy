/** src/app/api/skills/route.ts: `GET /api/skills`, the public listing that
    agents read. It forwards the optional category to the `skills:list`
    query and reshapes the rows it gets back. */
module SkillsApi {
  import opened Base
  import opened Schema
  import opened Store
  import Numbers
  import Skills

  /** The site every published URL is rooted at. */
  const Site: string := "https://clawmart.co"

  /** `searchParams.get("category") || undefined`: a missing or empty
      parameter asks for every category. */
  function CategoryArg(param: Option<string>): (r: Option<string>)
    ensures r.Some? <==> param.Some? && param.value != []
    ensures r.Some? ==> r.value == param.value
  {
    if param.Some? && param.value != [] then param else None
  }

  /** The JSON the query endpoint answered with: `{ value: rows }`, or the
      rows themselves. */
  datatype Payload = Wrapped(value: seq<Doc<Skill>>) | Bare(rows: seq<Doc<Skill>>)

  /** `data.value || data`. */
  function Rows(p: Payload): seq<Doc<Skill>> {
    match p
    case Wrapped(value) => value
    case Bare(rows) => rows
  }

  /** How the call to the query endpoint ended: it threw (network failure,
      unparsable JSON), answered with a non-2xx status and this text, or
      answered with a payload. */
  datatype Fetched = Threw(reason: string) | NotOk(text: string) | Answered(payload: Payload)

  /** One skill as the listing shows it. */
  datatype Listing = Listing(
    slug: string,
    name: string,
    description: string,
    category: string,
    endpoint: string,
    httpMethod: HttpMethod,
    pricePerCall: int,
    currency: string,
    chain: string,
    tags: seq<string>,
    responseTime: Option<string>,
    rating: int,
    totalCalls: nat,
    detailUrl: string)

  datatype Body =
    | Catalogue(protocol: string, marketplace: string, count: nat, skills: seq<Listing>)
    | Problem(error: string, detail: string)

  datatype Reply = Reply(status: nat, body: Body)

  /** `s.slug || s._id`: the path segment of a skill's detail page; the
      document id is written in decimal. */
  function DetailKey(d: Doc<Skill>): (k: string)
    ensures k != []
    ensures d.data.slug != [] ==> k == d.data.slug
    ensures d.data.slug == [] ==> k == Numbers.NatToString(d.id)
  {
    if d.data.slug != [] then d.data.slug else Numbers.NatToString(d.id)
  }

  /** The listing entry of one row: the endpoint made absolute, the price
      quoted in USDC on Base, the average rating as `rating`. */
  function Present(d: Doc<Skill>): (l: Listing)
    ensures l.slug == d.data.slug && l.name == d.data.name && l.category == d.data.category
    ensures l.description == d.data.description && l.httpMethod == d.data.httpMethod
    ensures l.tags == d.data.tags && l.responseTime == d.data.responseTime
    ensures l.endpoint == Site + d.data.endpoint
    ensures l.pricePerCall == d.data.pricePerCall && l.currency == "USDC" && l.chain == "Base"
    ensures l.rating == d.data.averageRating && l.totalCalls == d.data.totalCalls
    ensures l.detailUrl == Site + "/skills/" + DetailKey(d)
  {
    Listing(d.data.slug, d.data.name, d.data.description, d.data.category,
            Site + d.data.endpoint, d.data.httpMethod, d.data.pricePerCall, "USDC", "Base",
            d.data.tags, d.data.responseTime, d.data.averageRating, d.data.totalCalls,
            Site + "/skills/" + DetailKey(d))
  }

  /** The handler's reply: 500 "Internal error" when anything threw, 502
      "Failed to fetch skills" with the upstream text on a non-2xx answer,
      and otherwise 200 with one listing per row, in order, and their count. */
  function Respond(fetched: Fetched): (r: Reply)
    ensures fetched.Threw? ==> r == Reply(500, Problem("Internal error", fetched.reason))
    ensures fetched.NotOk? ==> r == Reply(502, Problem("Failed to fetch skills", fetched.text))
    ensures fetched.Answered? ==>
              var rows := Rows(fetched.payload);
              && r.status == 200 && r.body.Catalogue?
              && r.body.protocol == "x402" && r.body.marketplace == "ClawMart"
              && r.body.count == |r.body.skills| == |rows|
              && forall i :: 0 <= i < |rows| ==> r.body.skills[i] == Present(rows[i])
  {
    match fetched
    case Threw(reason) => Reply(500, Problem("Internal error", reason))
    case NotOk(text) => Reply(502, Problem("Failed to fetch skills", text))
    case Answered(payload) =>
      var rows := Rows(payload);
      var listings := seq(|rows|, i requires 0 <= i < |rows| => Present(rows[i]));
      Reply(200, Catalogue("x402", "ClawMart", |listings|, listings))
  }

  /** Whether the endpoint wraps its rows in `{ value }` or not, the
      listing is the same. */
  lemma WrappingIrrelevant(rows: seq<Doc<Skill>>)
    ensures Respond(Answered(Wrapped(rows))) == Respond(Answered(Bare(rows)))
  {
  }

  /** Served from a backend whose state is `st`, the listing holds exactly
      the active skills of the requested category (all categories when the
      parameter is missing or empty), each under its own slug and with a
      detail URL on the site. */
  lemma ServedListing(st: Tables, param: Option<string>)
    ensures var r := Respond(Answered(Wrapped(Skills.List(st, CategoryArg(param)))));
            && r.status == 200 && r.body.Catalogue?
            && r.body.count == |Skills.List(st, CategoryArg(param))|
            && (forall l :: l in r.body.skills <==>
                  exists d :: && d in st.skills && d.data.status == SkillStatus.Active
                              && (param.Some? && param.value != [] ==> d.data.category == param.value)
                              && l == Present(d))
  {
    var rows := Skills.List(st, CategoryArg(param));
    var r := Respond(Answered(Wrapped(rows)));
    forall l | l in r.body.skills
      ensures exists d :: && d in st.skills && d.data.status == SkillStatus.Active
                          && (param.Some? && param.value != [] ==> d.data.category == param.value)
                          && l == Present(d)
    {
      var i :| 0 <= i < |r.body.skills| && r.body.skills[i] == l;
      assert rows[i] in rows;
    }
    forall d | && d in st.skills && d.data.status == SkillStatus.Active
               && (param.Some? && param.value != [] ==> d.data.category == param.value)
      ensures Present(d) in r.body.skills
    {
      var i :| 0 <= i < |rows| && rows[i] == d;
      assert r.body.skills[i] == Present(d);
    }
  }
}
