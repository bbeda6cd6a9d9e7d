/** src/app/skills/page.tsx: the browse page's derived data. From the rows
    of `skills.list` it computes the category list, the rows matching the
    search box, their order under the chosen sort, and the category pills. */
module Browse {
  import opened Base
  import opened Seqs
  import opened Text
  import opened Schema
  import opened Store
  import Skills

  /** `a <= b` in the order `Array.prototype.sort` uses for strings:
      character by character, a proper prefix first. */
  predicate StrLe(a: string, b: string)
    decreases |a|
  {
    a == [] || (b != [] && (a[0] < b[0] || (a[0] == b[0] && StrLe(a[1..], b[1..]))))
  }

  lemma {:induction false} StrLeTotal(a: string, b: string)
    ensures StrLe(a, b) || StrLe(b, a)
    decreases |a|
  {
    if a != [] && b != [] && a[0] == b[0] {
      StrLeTotal(a[1..], b[1..]);
    }
  }

  lemma {:induction false} StrLeTransitive(a: string, b: string, c: string)
    requires StrLe(a, b) && StrLe(b, c)
    ensures StrLe(a, c)
    decreases |a|
  {
    if a != [] && a[0] == b[0] && b[0] == c[0] {
      StrLeTransitive(a[1..], b[1..], c[1..]);
    }
  }

  lemma {:induction false} StrLeAntisymmetric(a: string, b: string)
    requires StrLe(a, b) && StrLe(b, a)
    ensures a == b
    decreases |a|
  {
    if a != [] {
      StrLeAntisymmetric(a[1..], b[1..]);
      assert a == [a[0]] + a[1..] && b == [b[0]] + b[1..];
    }
  }

  /** The string order is a valid comparator. */
  lemma StrLeTotalPreorder()
    ensures TotalPreorder(StrLe)
  {
    forall a, b ensures StrLe(a, b) || StrLe(b, a) {
      StrLeTotal(a, b);
    }
    forall a, b, c | StrLe(a, b) && StrLe(b, c) ensures StrLe(a, c) {
      StrLeTransitive(a, b, c);
    }
  }

  /** An element occurs at most once in a sequence without duplicates. */
  lemma {:induction false} NoDuplicatesCount<T>(s: seq<T>, x: T)
    requires NoDuplicates(s)
    ensures multiset(s)[x] <= 1
  {
    if s != [] {
      NoDuplicatesCount(s[1..], x);
      assert s == [s[0]] + s[1..];
      assert s[0] !in s[1..];
    }
  }

  /** Reordering keeps a sequence free of duplicates. */
  lemma PermutationNoDuplicates<T>(s: seq<T>, r: seq<T>)
    requires multiset(s) == multiset(r) && NoDuplicates(s)
    ensures NoDuplicates(r)
  {
    forall i, j | 0 <= i < j < |r| ensures r[i] != r[j] {
      NoDuplicatesCount(s, r[i]);
      assert r == r[..j] + r[j..];
      assert r[i] in r[..j] && r[j] in r[j..];
      assert multiset(r)[r[j]] >= multiset(r[j..])[r[j]] >= 1;
      assert multiset(r[..j])[r[i]] >= 1;
    }
  }

  /** `skills.map((s) => s.category)`. */
  function CategoryColumn(skills: seq<Doc<Skill>>): (r: seq<string>)
    ensures forall c :: c in r <==> exists d :: d in skills && d.data.category == c
  {
    if skills == [] then [] else [skills[0].data.category] + CategoryColumn(skills[1..])
  }

  /** Sorting a sequence without duplicates under the string order. */
  lemma SortStrings(d: seq<string>)
    requires NoDuplicates(d)
    ensures var r := Sort(d, StrLe);
            && Sorted(r, StrLe) && NoDuplicates(r)
            && forall x :: x in r <==> x in d
  {
    var r := Sort(d, StrLe);
    StrLeTotalPreorder();
    SortSorted(d, StrLe);
    PermutationNoDuplicates(d, r);
    assert forall x :: x in r <==> x in multiset(r);
  }

  /** `[...new Set(skills.map((s) => s.category))].sort()`, and `[]` while
      the rows are still loading. */
  function Categories(rows: Option<seq<Doc<Skill>>>): (r: seq<string>)
    ensures rows.None? ==> r == []
    ensures rows.Some? ==> forall c :: c in r <==> exists d :: d in rows.value && d.data.category == c
    ensures NoDuplicates(r)
    ensures Sorted(r, StrLe)
  {
    match rows
    case None => []
    case Some(skills) =>
      var d := Distinct(CategoryColumn(skills));
      SortStrings(d);
      Sort(d, StrLe)
  }

  /** Sorted without duplicates means strictly increasing. */
  lemma CategoriesIncreasing(rows: Option<seq<Doc<Skill>>>)
    ensures var r := Categories(rows);
            forall i, j :: 0 <= i < j < |r| ==> StrLe(r[i], r[j]) && !StrLe(r[j], r[i])
  {
    var r := Categories(rows);
    forall i, j | 0 <= i < j < |r| ensures !StrLe(r[j], r[i]) {
      if StrLe(r[j], r[i]) {
        StrLeAntisymmetric(r[i], r[j]);
      }
    }
  }

  /** The search box's test: an empty query matches everything; otherwise
      the lower-cased query must occur in the lower-cased name, description
      or one of the tags. */
  predicate Matches(s: Skill, query: string)
    ensures Matches(s, query) <==>
              || query == []
              || (exists i :: OccursAt(Lower(s.name), Lower(query), i))
              || (exists i :: OccursAt(Lower(s.description), Lower(query), i))
              || (exists t, i :: t in s.tags && OccursAt(Lower(t), Lower(query), i))
  {
    var q := Lower(query);
    || query == []
    || Contains(Lower(s.name), q)
    || Contains(Lower(s.description), q)
    || exists t :: t in s.tags && Contains(Lower(t), q)
  }

  function MatchesQuery(query: string): Doc<Skill> -> bool {
    (d: Doc<Skill>) => Matches(d.data, query)
  }

  /** `skills.filter(...)` with the search test. */
  function Search(rows: seq<Doc<Skill>>, query: string): (r: seq<Doc<Skill>>)
    ensures forall d :: d in r <==> d in rows && Matches(d.data, query)
  {
    Filter(rows, MatchesQuery(query))
  }

  /** An empty search keeps every row, in order. */
  lemma SearchEmpty(rows: seq<Doc<Skill>>)
    ensures Search(rows, "") == rows
  {
    FilterKeepsAll(rows, MatchesQuery(""));
  }

  /** Searching drops rows but never reorders them. */
  lemma SearchKeepsOrder(rows: seq<Doc<Skill>>, query: string)
    ensures IsSubsequence(Search(rows, query), rows)
  {
    FilterIsSubsequence(rows, MatchesQuery(query));
  }

  /** A query of the name itself, in any letter case, finds the skill. */
  lemma SearchFindsByName(rows: seq<Doc<Skill>>, d: Doc<Skill>, query: string)
    requires d in rows && Lower(query) == Lower(d.data.name)
    ensures d in Search(rows, query)
  {
    assert Lower(d.data.name) <= Lower(d.data.name);
  }

  datatype SortOption = Popular | PriceLow | PriceHigh | Rating | Newest

  /** The comparator of each option, as a key sorted largest first:
      `a.pricePerCall - b.pricePerCall` sorts by the negated price. */
  function Key(option: SortOption): Doc<Skill> -> int {
    match option
    case Popular => (d: Doc<Skill>) => d.data.totalCalls
    case PriceLow => (d: Doc<Skill>) => 0 - d.data.pricePerCall
    case PriceHigh => (d: Doc<Skill>) => d.data.pricePerCall
    case Rating => (d: Doc<Skill>) => d.data.averageRating
    case Newest => (d: Doc<Skill>) => d.data.createdAt
  }

  /** The `.sort(...)` under the chosen option. */
  function Arrange(rows: seq<Doc<Skill>>, option: SortOption): (r: seq<Doc<Skill>>)
    ensures multiset(r) == multiset(rows)
  {
    SortByKeyDesc(rows, Key(option))
  }

  /** `a` may come before `b` under the option, as its label says. */
  predicate InOrder(option: SortOption, a: Doc<Skill>, b: Doc<Skill>) {
    match option
    case Popular => a.data.totalCalls >= b.data.totalCalls
    case PriceLow => a.data.pricePerCall <= b.data.pricePerCall
    case PriceHigh => a.data.pricePerCall >= b.data.pricePerCall
    case Rating => a.data.averageRating >= b.data.averageRating
    case Newest => a.data.createdAt >= b.data.createdAt
  }

  /** Each option orders the rows as its label says. */
  lemma ArrangeOrders(rows: seq<Doc<Skill>>, option: SortOption)
    ensures var r := Arrange(rows, option);
            forall i, j :: 0 <= i < j < |r| ==> InOrder(option, r[i], r[j])
  {
    var r := Arrange(rows, option);
    assert forall i, j :: 0 <= i < j < |r| ==> Key(option)(r[i]) >= Key(option)(r[j]);
  }

  /** What the grid shows: the matching rows, in the chosen order. */
  function Shown(rows: seq<Doc<Skill>>, query: string, option: SortOption): (r: seq<Doc<Skill>>)
    ensures multiset(r) == multiset(Search(rows, query))
  {
    Arrange(Search(rows, query), option)
  }

  /** Every shown row is an active listed skill that matches the search,
      and every such skill is shown. */
  lemma ShownFromList(st: Tables, category: Option<string>, query: string, option: SortOption)
    ensures forall d :: d in Shown(Skills.List(st, category), query, option) <==>
              && d in st.skills && d.data.status == SkillStatus.Active
              && (Skills.NarrowsTo(category) ==> d.data.category == category.value)
              && Matches(d.data, query)
  {
    var rows := Skills.List(st, category);
    var found := Search(rows, query);
    var r := Shown(rows, query, option);
    forall d ensures d in r <==> d in found {
      assert d in r <==> d in multiset(r);
    }
  }

  /** The category pills after "All": the categories, with the active one
      in front when it is set and not among them. */
  function Pills(active: Option<string>, categories: seq<string>): (r: seq<string>)
    ensures forall c :: c in r <==> c in categories || (active.Some? && active.value != [] && c == active.value)
    ensures active.Some? && active.value != [] && active.value !in categories ==> r[0] == active.value && r[1..] == categories
    ensures !(active.Some? && active.value != [] && active.value !in categories) ==> r == categories
    ensures NoDuplicates(categories) ==> NoDuplicates(r)
  {
    if active.Some? && active.value != [] && active.value !in categories then [active.value] + categories
    else categories
  }

  /** The active category always has a pill, and no pill appears twice. */
  lemma PillsOfCategories(active: string, rows: Option<seq<Doc<Skill>>>)
    requires active != []
    ensures var p := Pills(Some(active), Categories(rows));
            active in p && NoDuplicates(p) && |p| <= |Categories(rows)| + 1
  {
  }
}
