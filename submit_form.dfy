/** src/app/dashboard/skills/submit/page.tsx: turning the skill submission
    form into the arguments of the `skills.create` mutation. */
module SubmitForm {
  import opened Base
  import opened Seqs
  import opened Text
  import opened Numbers
  import opened Schema
  import opened Store
  import Slug
  import Users
  import Skills

  /** The categories the form offers. */
  const Categories: seq<string> :=
    ["Research", "Development", "NLP", "Vision", "Data", "Finance", "Marketing", "Security", "Other"]

  /** The form's fields, as the user typed them. */
  datatype Form = Form(
    name: string,
    description: string,
    longDescription: string,
    category: string,
    endpoint: string,
    httpMethod: HttpMethod,
    pricePerCall: string,
    tags: string,
    exampleInput: string,
    exampleOutput: string,
    responseTime: string)

  /** The form as it first appears: category "Other", POST, price "0.005". */
  function InitialForm(): (f: Form)
    ensures f.category in Categories && f.httpMethod == POST && f.name == ""
  {
    Form("", "", "", "Other", "", POST, "0.005", "", "", "", "")
  }

  /** `s || undefined`: an empty field is left out. */
  function Optional(s: string): (r: Option<string>)
    ensures r.None? <==> s == []
    ensures r.Some? ==> r.value == s
  {
    if s == [] then None else Some(s)
  }

  /** The price sent when the field does not parse or parses to zero. */
  const DefaultPrice: int := 5000

  /** `parseFloat(form.pricePerCall) || 0.005`, in millionths. */
  function Price(s: string): (p: int)
    ensures p != 0
    ensures ParseDecimal(s).Some? && ParseDecimal(s).value != 0 ==> p == ParseDecimal(s).value
    ensures ParseDecimal(s).None? || ParseDecimal(s).value == 0 ==> p == DefaultPrice
  {
    match ParseDecimal(s)
    case Some(v) => if v != 0 then v else DefaultPrice
    case None => DefaultPrice
  }

  /** The form's initial price is the fallback price itself. */
  lemma InitialPriceIsDefault()
    ensures Price(InitialForm().pricePerCall) == DefaultPrice
  {
    PriceOfThousandths(InitialForm().pricePerCall, '5');
  }

  /** "0.00d" keeps its own value, d thousandths, unless d is 0. */
  lemma PriceOfThousandths(p: string, d: char)
    requires IsDigit(d) && p == "0.00" + [d]
    ensures d != '0' ==> Price(p) == DigitValue(d) * 1000
    ensures d == '0' ==> Price(p) == DefaultPrice
  {
    ParsedThousandths(p, d);
    PriceOfParsed(p, d);
  }

  /** "0.00d", passed as `p`, parses to d thousandths. */
  lemma ParsedThousandths(p: string, d: char)
    requires IsDigit(d) && p == "0.00" + [d]
    ensures ParseDecimal(p) == Some(DigitValue(d) * 1000)
  {
    ParseThousandths(d);
  }

  /** Text that parses to `d` thousandths keeps that price unless `d` is 0. */
  lemma PriceOfParsed(p: string, d: char)
    requires IsDigit(d) && ParseDecimal(p) == Some(DigitValue(d) * 1000)
    ensures d != '0' ==> Price(p) == DigitValue(d) * 1000
    ensures d == '0' ==> Price(p) == DefaultPrice
  {
  }

  /** A tag as the form keeps it: non-empty, no comma, no white space at
      either end. */
  predicate IsTag(t: string) {
    t != [] && ',' !in t && !IsSpace(t[0]) && !IsSpace(t[|t| - 1])
  }

  /** `.map((t) => t.trim())` */
  function TrimAll(pieces: seq<string>): (r: seq<string>)
    ensures |r| == |pieces|
    ensures forall i :: 0 <= i < |r| ==> r[i] == Trim(pieces[i])
  {
    seq(|pieces|, i requires 0 <= i < |pieces| => Trim(pieces[i]))
  }

  function NonEmpty(t: string): bool {
    t != []
  }

  /** A piece of a string holds no character the string lacks. */
  lemma TrimKeepsOut(s: string, c: char)
    requires c !in s
    ensures c !in Trim(s)
  {
    var r := Trim(s);
    var i :| OccursAt(s, r, i);
    forall k | 0 <= k < |r| ensures r[k] != c {
      assert r[k] == s[i + k];
    }
  }

  /** Trimmed comma-free pieces that are not empty are tags. */
  lemma TrimmedAreTags(pieces: seq<string>)
    requires forall i :: 0 <= i < |pieces| ==> ',' !in pieces[i]
    ensures forall t :: t in TrimAll(pieces) && NonEmpty(t) ==> IsTag(t)
  {
    var trimmed := TrimAll(pieces);
    forall t | t in trimmed && NonEmpty(t) ensures IsTag(t) {
      var i :| 0 <= i < |trimmed| && trimmed[i] == t;
      TrimKeepsOut(pieces[i], ',');
    }
  }

  /** `tags.split(",").map((t) => t.trim()).filter(Boolean)`. */
  function ParseTags(s: string): (r: seq<string>)
    ensures forall t :: t in r ==> IsTag(t)
  {
    TrimmedAreTags(Split(s));
    Filter(TrimAll(Split(s)), NonEmpty)
  }

  /** An empty tags field gives no tag. */
  lemma ParseTagsEmpty()
    ensures ParseTags("") == []
  {
    assert Split("") == [[]];
    assert Trim([]) == [];
    assert TrimAll([[]]) == [[]];
  }

  lemma TrimAllOfTags(tags: seq<string>)
    requires forall i :: 0 <= i < |tags| ==> IsTag(tags[i])
    ensures TrimAll(tags) == tags
  {
    forall i | 0 <= i < |tags| ensures TrimAll(tags)[i] == tags[i] {
      TrimOfTrimmed(tags[i]);
    }
  }

  /** Joining tags with commas and parsing the field gives them back. */
  lemma ParseTagsOfJoin(tags: seq<string>)
    requires |tags| >= 1
    requires forall i :: 0 <= i < |tags| ==> IsTag(tags[i])
    ensures ParseTags(Join(tags)) == tags
  {
    SplitJoin(tags);
    TrimAllOfTags(tags);
    FilterKeepsAll(tags, NonEmpty);
  }

  /** What pressing submit does. */
  datatype Submission =
    | Ignored
    | MissingFields
    | Submitted(clerkId: string, input: Skills.SkillInput)

  /** `handleSubmit`: nothing without a signed-in user; "Please fill in all
      required fields" when the name, description or endpoint is empty;
      otherwise `skills.create` with the parsed fields, empty optional
      fields left out. */
  function HandleSubmit(user: Option<string>, form: Form): (r: Submission)
    ensures user.None? ==> r == Ignored
    ensures user.Some? && (form.name == [] || form.description == [] || form.endpoint == []) ==> r == MissingFields
    ensures user.Some? && form.name != [] && form.description != [] && form.endpoint != [] ==> r.Submitted?
    ensures r.Submitted? ==>
              && user == Some(r.clerkId)
              && form.name != [] && form.description != [] && form.endpoint != []
              && r.input.name == form.name && r.input.description == form.description
              && r.input.endpoint == form.endpoint && r.input.category == form.category
              && r.input.httpMethod == form.httpMethod
              && r.input.pricePerCall == Price(form.pricePerCall)
              && r.input.tags == ParseTags(form.tags)
              && r.input.longDescription == Optional(form.longDescription)
              && r.input.exampleInput == Optional(form.exampleInput)
              && r.input.exampleOutput == Optional(form.exampleOutput)
              && r.input.responseTime == Optional(form.responseTime)
  {
    if user.None? then Ignored
    else if form.name == [] || form.description == [] || form.endpoint == [] then MissingFields
    else
      Submitted(user.value, Skills.SkillInput(
        form.name, form.description, Optional(form.longDescription), form.category,
        form.endpoint, form.httpMethod, Price(form.pricePerCall), ParseTags(form.tags),
        Optional(form.exampleInput), Optional(form.exampleOutput), Optional(form.responseTime)))
  }

  /** The untouched form cannot be submitted. */
  lemma InitialFormMissingFields(user: string)
    ensures HandleSubmit(Some(user), InitialForm()) == MissingFields
  {
  }

  /** A submission by a known user creates one active skill whose slug
      comes from the name, whose price is never zero and whose tags are all
      well formed. */
  lemma SubmittedThenCreated(st: Tables, user: string, form: Form, now: int)
    requires HandleSubmit(Some(user), form).Submitted?
    requires Users.GetByClerkId(st, user).Some?
    ensures var o := Skills.CreateEffect(st, user, HandleSubmit(Some(user), form).input, now);
            && o.result == Ok(st.nextId)
            && |o.after.skills| == |st.skills| + 1
            && var s := o.after.skills[|st.skills|];
               && s.id == st.nextId
               && s.data.slug == Slug.Slugify(form.name) && Slug.IsSlug(s.data.slug)
               && s.data.pricePerCall != 0
               && s.data.status == SkillStatus.Active
               && (forall t :: t in s.data.tags ==> IsTag(t))
  {
  }
}
