/** convex/templates.ts: the workforce templates a user can start from. */
module Templates {
  import opened Base
  import opened Seqs
  import opened Schema
  import opened Store

  /** `list`: every template, in creation order. */
  function List(st: Tables): (r: seq<Doc<Template>>)
    ensures forall t :: t in r <==> t in st.templates
    ensures |r| == |st.templates|
  {
    st.templates
  }

  /** `get`: the template with that id, or none. */
  function Lookup(st: Tables, id: Id): (r: Option<Template>)
    ensures r.Some? <==> exists t :: t in st.templates && t.id == id
    ensures r.Some? ==> Doc(id, r.value) in st.templates
  {
    Get(st.templates, id)
  }

  /** One agent of a seeded template; its description and system prompt
      are prose and are left empty here. */
  function Blueprint(name: string, role: string, tools: seq<string>): (b: AgentBlueprint)
    ensures b.name == name && b.role == role && b.tools == tools
  {
    AgentBlueprint(name, role, "", "", tools)
  }

  function SalesTeam(): Template {
    Template("Sales Team", "Sales", "", "TrendingUp", "from-blue-500 to-cyan-500", [
      Blueprint("Lead Researcher", "Research & Intelligence", ["web_search", "company_lookup", "linkedin_search"]),
      Blueprint("Outreach Writer", "Communication", ["email_draft", "template_library", "personalization"]),
      Blueprint("CRM Manager", "Operations", ["crm_update", "pipeline_tracker", "task_creator"]),
      Blueprint("Meeting Prep Agent", "Strategy", ["calendar_read", "company_lookup", "document_generator"])])
  }

  function MarketingAgency(): Template {
    Template("Marketing Agency", "Marketing", "", "Megaphone", "from-purple-500 to-pink-500", [
      Blueprint("Content Writer", "Content Creation", ["content_generator", "seo_optimizer", "brand_guide"]),
      Blueprint("SEO Analyst", "Search Optimization", ["keyword_research", "rank_tracker", "site_audit"]),
      Blueprint("Social Media Manager", "Social Media", ["post_scheduler", "analytics_reader", "image_generator"]),
      Blueprint("Analytics Reporter", "Data & Reporting", ["analytics_dashboard", "report_generator", "data_visualizer"])])
  }

  function RealEstateTeam(): Template {
    Template("Real Estate Team", "Real Estate", "", "Building", "from-green-500 to-emerald-500", [
      Blueprint("Deal Analyzer", "Analysis", ["property_lookup", "financial_calculator", "comp_analyzer"]),
      Blueprint("Market Researcher", "Research", ["market_data", "demographic_analyzer", "news_monitor"]),
      Blueprint("Outreach Agent", "Client Relations", ["email_sender", "calendar_manager", "crm_update"]),
      Blueprint("Document Drafter", "Documentation", ["document_generator", "template_library", "e_sign"]),
      Blueprint("Property Scout", "Sourcing", ["mls_search", "alert_manager", "property_matcher"])])
  }

  function CustomerSupport(): Template {
    Template("Customer Support", "Customer Support", "", "Headphones", "from-orange-500 to-yellow-500", [
      Blueprint("Frontline Support", "Tier 1 Support", ["knowledge_base", "ticket_manager", "canned_responses"]),
      Blueprint("Technical Support", "Tier 2 Support", ["debug_tools", "system_logs", "knowledge_base"]),
      Blueprint("Knowledge Manager", "Documentation", ["content_editor", "analytics_reader", "article_publisher"]),
      Blueprint("Customer Success", "Retention", ["health_monitor", "email_sender", "survey_creator"])])
  }

  function LegalCompliance(): Template {
    Template("Legal & Compliance", "Legal", "", "Scale", "from-red-500 to-rose-500", [
      Blueprint("Legal Researcher", "Research", ["legal_database", "case_search", "citation_manager"]),
      Blueprint("Document Drafter", "Documentation", ["template_library", "document_generator", "clause_library"]),
      Blueprint("Client Intake Agent", "Client Management", ["intake_form", "calendar_manager", "conflict_checker"]),
      Blueprint("Compliance Monitor", "Compliance", ["regulatory_feed", "audit_tracker", "alert_manager"])])
  }

  /** The five templates `seed` inserts, in order. */
  function SeedTemplates(): (r: seq<Template>)
    ensures |r| == 5
  {
    [SalesTeam(), MarketingAgency(), RealEstateTeam(), CustomerSupport(), LegalCompliance()]
  }

  /** A template of four or five agents with three tools each. */
  predicate WellStaffed(t: Template) {
    && 4 <= |t.agents| <= 5
    && forall i :: 0 <= i < |t.agents| ==> |t.agents[i].tools| == 3
  }

  /** Every seeded template is well staffed; only the real estate one has
      five agents. */
  lemma SeedTemplatesWellStaffed()
    ensures forall i :: 0 <= i < 5 ==> WellStaffed(SeedTemplates()[i])
    ensures forall i :: 0 <= i < 5 ==> (|SeedTemplates()[i].agents| == 5 <==> i == 2)
  {
    assert WellStaffed(SalesTeam());
    assert WellStaffed(MarketingAgency());
    assert WellStaffed(RealEstateTeam());
    assert WellStaffed(CustomerSupport());
    assert WellStaffed(LegalCompliance());
  }

  /** The tables after inserting the templates `xs`, in order. */
  function Stocked(st: Tables, xs: seq<Template>): Tables {
    st.(templates := st.templates + Docs(st.nextId, xs), nextId := st.nextId + |xs|)
  }

  lemma StockedKeepsConsistent(st: Tables, xs: seq<Template>)
    requires Consistent(st)
    ensures Consistent(Stocked(st, xs))
  {
    ConsistentGrow(st, st.nextId + |xs|);
    KeyedDocs(st.templates, st.nextId, xs);
    WithTemplates(st.(nextId := st.nextId + |xs|), st.templates + Docs(st.nextId, xs));
  }

  function AnyTemplate(t: Template): bool {
    true
  }

  /** `seed`: nothing happens once any template exists; otherwise the five
      templates are inserted in order. */
  function SeedEffect(st: Tables): (o: Outcome<string>)
    ensures st.templates != [] ==> o == Outcome(Ok("already seeded"), st)
    ensures st.templates == [] ==>
              && o.result == Ok("seeded")
              && o.after == Stocked(st, SeedTemplates())
              && o.after.templates == Docs(st.nextId, SeedTemplates()) && o.after.nextId == st.nextId + 5
  {
    if First(st.templates, AnyTemplate).Some? then Outcome(Ok("already seeded"), st)
    else Outcome(Ok("seeded"), Stocked(st, SeedTemplates()))
  }

  /** Seeding twice leaves the tables as seeding once. */
  lemma SeedIdempotent(st: Tables)
    ensures SeedEffect(SeedEffect(st).after).after == SeedEffect(st).after
    ensures SeedEffect(SeedEffect(st).after).result == Ok("already seeded")
  {
  }

  lemma SeedKeepsConsistent(st: Tables)
    requires Consistent(st)
    ensures Consistent(SeedEffect(st).after)
  {
    if st.templates == [] {
      StockedKeepsConsistent(st, SeedTemplates());
    }
  }

  /** The insert loop of `seed`: one document per template, in order. */
  method InsertTemplates(db: Db, xs: seq<Template>)
    modifies db
    ensures db.State() == Stocked(old(db.State()), xs)
    ensures db.clock == old(db.clock)
  {
    ghost var start := db.State();
    for i := 0 to |xs|
      invariant db.templates == start.templates + Docs(start.nextId, xs[..i])
      invariant db.nextId == start.nextId + i
      invariant db.State() == start.(templates := db.templates, nextId := db.nextId)
      invariant db.clock == old(db.clock)
    {
      DocsSnoc(start.nextId, xs[..i], xs[i]);
      assert xs[..i + 1] == xs[..i] + [xs[i]];
      db.templates := db.templates + [Doc(db.nextId, xs[i])];
      db.nextId := db.nextId + 1;
    }
    assert xs[..|xs|] == xs;
  }

  /** The mutation `seed`. */
  method Seed(db: Db) returns (r: Result<string, Failure>)
    requires db.Valid()
    modifies db
    ensures db.Valid() && db.clock == old(db.clock)
    ensures r == SeedEffect(old(db.State())).result
    ensures db.State() == SeedEffect(old(db.State())).after
  {
    SeedKeepsConsistent(db.State());
    if First(db.templates, AnyTemplate).Some? {
      return Ok("already seeded");
    }
    InsertTemplates(db, SeedTemplates());
    r := Ok("seeded");
  }
}
