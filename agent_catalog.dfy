/** src/lib/agents.ts: the static catalogue of the marketplace's own skills
    that the landing and detail pages show, its lookup by id and its
    category list. */
module AgentCatalog {
  import opened Base
  import opened Seqs
  import opened Schema
  import Numbers
  import Skills

  /** One catalogue entry. `pricePerCall` is the label shown ("$0.003"),
      `priceRaw` the same price in micro-USD and `rating` is in tenths of a
      star. */
  datatype Entry = Entry(
    id: string,
    name: string,
    category: string,
    pricePerCall: string,
    priceRaw: int,
    endpoint: string,
    httpMethod: HttpMethod,
    rating: int,
    reviews: nat,
    calls: string,
    author: string,
    tags: seq<string>,
    responseTime: string,
    uptime: string)

  /** An entry of the marketplace's own, served under /api/skills/<id>. */
  function Own(id: string, name: string, category: string, price: string, priceRaw: int,
               rating: int, reviews: nat, calls: string, tags: seq<string>,
               responseTime: string, uptime: string): (e: Entry)
    ensures e.id == id && e.endpoint == "/api/skills/" + id && e.author == "clawmart"
  {
    Entry(id, name, category, price, priceRaw, "/api/skills/" + id, POST, rating, reviews, calls,
          "clawmart", tags, responseTime, uptime)
  }

  function WebSummarizer(): Entry {
    Own("web-summarizer", "Web Summarizer", "Research", "$0.003", 3000, 48, 142, "28.4K",
        ["NLP", "Summarization", "Web"], "~1.2s", "99.9%")
  }

  function CodeReviewer(): Entry {
    Own("code-reviewer", "Code Reviewer", "Development", "$0.005", 5000, 49, 89, "15.2K",
        ["Code", "Security", "Review"], "~2.1s", "99.8%")
  }

  function SentimentAnalyzer(): Entry {
    Own("sentiment-analyzer", "Sentiment Analyzer", "NLP", "$0.001", 1000, 47, 256, "52.1K",
        ["NLP", "Sentiment", "Emotion"], "~0.4s", "99.95%")
  }

  function ImageDescriber(): Entry {
    Own("image-describer", "Image Describer", "Vision", "$0.008", 8000, 46, 67, "8.9K",
        ["Vision", "OCR", "Accessibility"], "~3.2s", "99.7%")
  }

  function DataExtractor(): Entry {
    Own("data-extractor", "Data Extractor", "Data", "$0.004", 4000, 48, 118, "21.7K",
        ["ETL", "Extraction", "Structured Data"], "~1.8s", "99.9%")
  }

  function TranslatePro(): Entry {
    Own("translate-pro", "Translate Pro", "NLP", "$0.002", 2000, 47, 203, "44.3K",
        ["Translation", "NLP", "i18n"], "~0.8s", "99.9%")
  }

  /** `agentSkills`. */
  function AgentSkills(): (r: seq<Entry>)
    ensures |r| == 6
  {
    [WebSummarizer(), CodeReviewer(), SentimentAnalyzer(), ImageDescriber(), DataExtractor(), TranslatePro()]
  }

  /** `entries.find((s) => s.id === id)`, scanning from index `from`:
      the first entry there with that id. */
  function Find(entries: seq<Entry>, id: string, from: nat): (r: Option<Entry>)
    requires from <= |entries|
    ensures r.None? <==> forall i :: from <= i < |entries| ==> entries[i].id != id
    ensures r.Some? ==> exists i :: && from <= i < |entries| && entries[i] == r.value && r.value.id == id
                                    && forall k :: from <= k < i ==> entries[k].id != id
    decreases |entries| - from
  {
    if from == |entries| then None
    else if entries[from].id == id then Some(entries[from])
    else Find(entries, id, from + 1)
  }

  /** `getSkillById`. */
  function GetSkillById(id: string): (r: Option<Entry>)
    ensures r.Some? ==> r.value in AgentSkills() && r.value.id == id
    ensures r.None? <==> forall e :: e in AgentSkills() ==> e.id != id
  {
    Find(AgentSkills(), id, 0)
  }

  /** The ids begin with six different letters. */
  lemma Initials(initials: string)
    requires initials == "wcsidt"
    ensures forall i :: 0 <= i < 6 ==> AgentSkills()[i].id != [] && AgentSkills()[i].id[0] == initials[i]
  {
    var t := AgentSkills();
    forall i | 0 <= i < 6 ensures t[i].id != [] && t[i].id[0] == initials[i] {
    }
  }

  /** No two entries share an id. */
  lemma IdsDistinct()
    ensures forall a, b :: 0 <= a < b < |AgentSkills()| ==> AgentSkills()[a].id != AgentSkills()[b].id
  {
    var initials := "wcsidt";
    Initials(initials);
    forall a, b | 0 <= a < b < 6 ensures AgentSkills()[a].id != AgentSkills()[b].id {
      assert initials[a] != initials[b];
    }
  }

  /** Every entry is found under its own id. */
  lemma GetSkillByIdOfEntry(e: Entry)
    requires e in AgentSkills()
    ensures GetSkillById(e.id) == Some(e)
  {
    IdsDistinct();
    var i :| 0 <= i < |AgentSkills()| && AgentSkills()[i] == e;
    assert AgentSkills()[i].id == e.id;
  }

  /** `entries.map((s) => s.category)`. */
  function Column(entries: seq<Entry>): (r: seq<string>)
    ensures |r| == |entries|
    ensures forall i :: 0 <= i < |r| ==> r[i] == entries[i].category
  {
    if entries == [] then [] else [entries[0].category] + Column(entries[1..])
  }

  /** A category is in the column exactly when some entry has it. */
  lemma ColumnMembers(entries: seq<Entry>)
    ensures forall c :: c in Column(entries) <==> exists e :: e in entries && e.category == c
  {
    var col := Column(entries);
    forall c ensures c in col <==> exists e :: e in entries && e.category == c {
      if c in col {
        var i :| 0 <= i < |col| && col[i] == c;
        assert entries[i] in entries;
      }
      if exists e :: e in entries && e.category == c {
        var e :| e in entries && e.category == c;
        var i :| 0 <= i < |entries| && entries[i] == e;
        assert col[i] == c;
      }
    }
  }

  /** `[...new Set(agentSkills.map((s) => s.category))]`: each category once,
      in order of first appearance. */
  function Categories(): (r: seq<string>)
    ensures NoDuplicates(r)
    ensures forall c :: c in r <==> exists e :: e in AgentSkills() && e.category == c
  {
    CategoriesOf(AgentSkills())
  }

  /** Each category of `entries` once, in order of first appearance. */
  function CategoriesOf(entries: seq<Entry>): (r: seq<string>)
    ensures NoDuplicates(r)
    ensures forall c :: c in r <==> exists e :: e in entries && e.category == c
  {
    ColumnMembers(entries);
    Distinct(Column(entries))
  }

  lemma ColumnListed(expected: seq<string>)
    requires expected == ["Research", "Development", "NLP", "Vision", "Data", "NLP"]
    ensures Column(AgentSkills()) == expected
  {
    var c := Column(AgentSkills());
    forall i | 0 <= i < 6 ensures c[i] == expected[i] {
    }
  }

  /** The five categories have five different lengths. */
  lemma FiveDistinct(five: seq<string>)
    requires five == ["Research", "Development", "NLP", "Vision", "Data"]
    ensures NoDuplicates(five)
  {
    forall i, j | 0 <= i < j < 5 ensures five[i] != five[j] {
      assert |five[i]| != |five[j]|;
    }
  }

  /** The catalogue spans five categories, NLP holding two entries. */
  lemma CategoriesListed()
    ensures Categories() == ["Research", "Development", "NLP", "Vision", "Data"]
  {
    var five := ["Research", "Development", "NLP", "Vision", "Data"];
    ColumnListed(five + [five[2]]);
    DistinctOfAppend(five, five[2]);
    FiveDistinct(five);
    DistinctOfDistinct(five);
  }

  /** A price label is a dollar sign followed by what `parseFloat` reads
      as the raw price. */
  predicate PriceAgrees(e: Entry) {
    e.pricePerCall != [] && e.pricePerCall[0] == '$' && Numbers.ParseDecimal(e.pricePerCall[1..]) == Some(e.priceRaw)
  }

  /** The catalogue's labels are all "$0.00" and one digit, and the raw
      price is that many thousandths. */
  predicate ThousandthsLabel(e: Entry) {
    && |e.pricePerCall| == 6 && e.pricePerCall[..5] == "$0.00" && Numbers.IsDigit(e.pricePerCall[5])
    && e.priceRaw == Numbers.DigitValue(e.pricePerCall[5]) * 1000
  }

  /** A label "$0.00d" reads back as d thousandths of a dollar. */
  lemma ThousandthsAgree(e: Entry)
    requires ThousandthsLabel(e)
    ensures PriceAgrees(e)
  {
    var shown, d := e.pricePerCall, e.pricePerCall[5];
    assert shown == shown[..5] + [d];
    assert shown[1..] == "0.00" + [d] by {
      assert shown[1..] == shown[..5][1..] + [d];
      assert "$0.00"[1..] == "0.00";
    }
    Numbers.ParseThousandths(d);
  }

  lemma LabelsInThousandths()
    ensures forall e :: e in AgentSkills() ==> ThousandthsLabel(e)
  {
    var t := AgentSkills();
    forall i | 0 <= i < |t| ensures ThousandthsLabel(t[i]) {
    }
  }

  /** Every price label is a dollar sign followed by the raw price. */
  lemma PricesAgree()
    ensures forall e :: e in AgentSkills() ==> PriceAgrees(e)
  {
    LabelsInThousandths();
    forall e | e in AgentSkills() ensures PriceAgrees(e) {
      ThousandthsAgree(e);
    }
  }

  /** The catalogue describes the same six skills the backend's `seed`
      inserts, in the same order: same slug, name, category, price, tags,
      endpoint, response time and author. */
  lemma AgreesWithSeed(now: int)
    ensures var t := AgentSkills();
            var seeded := Skills.SeedSkills(now);
            forall i :: 0 <= i < 6 ==>
              && t[i].id == seeded[i].slug && t[i].name == seeded[i].name
              && t[i].category == seeded[i].category && t[i].priceRaw == seeded[i].pricePerCall
              && t[i].tags == seeded[i].tags && t[i].endpoint == seeded[i].endpoint
              && t[i].httpMethod == seeded[i].httpMethod
              && Some(t[i].responseTime) == seeded[i].responseTime && t[i].author == seeded[i].authorName
  {
  }
}
