/** Slug derivation of convex/skills.ts:
    `name.toLowerCase().replace(/[^a-z0-9]+/g, "-").replace(/(^-|-$)/g, "")`. */
module Slug {
  import opened Seqs
  import opened Text

  predicate IsAlnum(c: char) {
    'a' <= c <= 'z' || '0' <= c <= '9'
  }

  /** No two adjacent '-' characters. */
  predicate NoDoubleDash(s: string) {
    forall i :: 0 <= i < |s| - 1 ==> !(s[i] == '-' && s[i + 1] == '-')
  }

  /** Only a-z, 0-9 and '-', never two '-' in a row. */
  predicate WellFormed(s: string) {
    && (forall i :: 0 <= i < |s| ==> IsAlnum(s[i]) || s[i] == '-')
    && NoDoubleDash(s)
  }

  /** What a slug looks like: well formed, and no '-' at either end. */
  predicate IsSlug(s: string) {
    WellFormed(s) && (s == [] || (s[0] != '-' && s[|s| - 1] != '-'))
  }

  /** `replace(/[^a-z0-9]+/g, "-")`, scanning left to right; `inRun` says
      that the previous character was outside [a-z0-9] and already produced
      the '-' of its run. */
  function CollapseFrom(s: string, inRun: bool): string
  {
    if s == [] then []
    else if IsAlnum(s[0]) then [s[0]] + CollapseFrom(s[1..], false)
    else if inRun then CollapseFrom(s[1..], true)
    else "-" + CollapseFrom(s[1..], true)
  }

  /** The scan emits only a-z, 0-9 and '-', never two '-' in a row, and no
      '-' first when it starts inside a run. */
  lemma {:induction false} CollapseFromWellFormed(s: string, inRun: bool)
    ensures WellFormed(CollapseFrom(s, inRun))
    ensures inRun ==> CollapseFrom(s, inRun) == [] || CollapseFrom(s, inRun)[0] != '-'
  {
    if s != [] {
      CollapseFromWellFormed(s[1..], !IsAlnum(s[0]));
    }
  }

  /** Every maximal run of characters outside [a-z0-9] becomes one '-';
      the letters and digits stay, in order. */
  function Collapse(s: string): (r: string)
    ensures WellFormed(r)
    ensures Filter(r, IsAlnum) == Filter(s, IsAlnum)
  {
    CollapseFromWellFormed(s, false);
    CollapseFromKeepsAlnum(s, false);
    CollapseFrom(s, false)
  }

  /** `replace(/(^-|-$)/g, "")`: one leading and one trailing '-' go, and
      nothing else. */
  function TrimDashes(s: string): (r: string)
    requires WellFormed(s)
    ensures IsSlug(r)
    ensures s == r || s == "-" + r || s == r + "-" || s == "-" + r + "-"
  {
    var a := if s != [] && s[0] == '-' then s[1..] else s;
    assert WellFormed(a);
    assert s == a || s == "-" + a;
    if a != [] && a[|a| - 1] == '-' then
      assert a == a[..|a| - 1] + "-";
      a[..|a| - 1]
    else a
  }

  /** The slug stored with a skill created under `name`: exactly the
      letters and digits of the lower-cased name, in order, with a lone
      '-' between some of them. */
  function Slugify(name: string): (r: string)
    ensures IsSlug(r)
    ensures Filter(r, IsAlnum) == Filter(Lower(name), IsAlnum)
  {
    var c := Collapse(Lower(name));
    var r := TrimDashes(c);
    assert Filter("-", IsAlnum) == [] by { assert "-"[1..] == []; }
    FilterAppend("-", r, IsAlnum);
    FilterAppend(r, "-", IsAlnum);
    FilterAppend("-" + r, "-", IsAlnum);
    r
  }

  /** The scan keeps every letter and digit, in order, and invents none:
      all it writes besides them is '-'. */
  lemma {:induction false} CollapseFromKeepsAlnum(s: string, inRun: bool)
    ensures Filter(CollapseFrom(s, inRun), IsAlnum) == Filter(s, IsAlnum)
    decreases |s|
  {
    if s != [] {
      var rest := CollapseFrom(s[1..], !IsAlnum(s[0]));
      CollapseFromKeepsAlnum(s[1..], !IsAlnum(s[0]));
      assert Filter(s, IsAlnum) == (if IsAlnum(s[0]) then [s[0]] else []) + Filter(s[1..], IsAlnum);
      if IsAlnum(s[0]) {
        FilterAppend([s[0]], rest, IsAlnum);
        assert Filter([s[0]], IsAlnum) == [s[0]] by { assert [s[0]][1..] == []; }
      } else if !inRun {
        FilterAppend("-", rest, IsAlnum);
        assert Filter("-", IsAlnum) == [] by { assert "-"[1..] == []; }
      }
    }
  }

  lemma {:induction false} CollapseFromFixed(s: string, inRun: bool)
    requires WellFormed(s)
    requires inRun ==> s == [] || s[0] != '-'
    ensures CollapseFrom(s, inRun) == s
  {
    if s != [] {
      assert WellFormed(s[1..]);
      if IsAlnum(s[0]) {
        CollapseFromFixed(s[1..], false);
      } else {
        CollapseFromFixed(s[1..], true);
        assert s == "-" + s[1..];
      }
    }
  }

  /** Deriving a slug from a slug gives it back unchanged. */
  lemma SlugifyIdempotent(name: string)
    ensures Slugify(Slugify(name)) == Slugify(name)
  {
    var y := Slugify(name);
    assert Lower(y) == y;
    CollapseFromFixed(y, false);
  }

  /** Letters and digits pass through the scan unchanged and end any run. */
  lemma {:induction false} CollapseKeepsAlnum(a: string, b: string, inRun: bool)
    requires forall i :: 0 <= i < |a| ==> IsAlnum(a[i])
    requires a != [] || !inRun
    ensures CollapseFrom(a + b, inRun) == a + CollapseFrom(b, false)
  {
    if a == [] {
      assert a + b == b;
    } else {
      assert (a + b)[0] == a[0] && (a + b)[1..] == a[1..] + b;
      CollapseKeepsAlnum(a[1..], b, false);
      assert a == [a[0]] + a[1..];
    }
  }

  /** A run of characters outside [a-z0-9] writes one '-', or nothing when
      the scan is already inside a run. */
  lemma {:induction false} CollapseFromRun(n: string, b: string, inRun: bool)
    requires n != [] && forall i :: 0 <= i < |n| ==> !IsAlnum(n[i])
    ensures CollapseFrom(n + b, inRun) == (if inRun then "" else "-") + CollapseFrom(b, true)
    decreases |n|
  {
    assert (n + b)[0] == n[0] && (n + b)[1..] == n[1..] + b;
    if |n| == 1 {
      assert n[1..] + b == b;
    } else {
      CollapseFromRun(n[1..], b, true);
    }
  }

  /** Two words separated by any run of other characters come out joined
      by exactly one '-'. */
  lemma CollapseOfWords(a: string, n: string, b: string)
    requires a != [] && forall i :: 0 <= i < |a| ==> IsAlnum(a[i])
    requires n != [] && forall i :: 0 <= i < |n| ==> !IsAlnum(n[i])
    requires b != [] && forall i :: 0 <= i < |b| ==> IsAlnum(b[i])
    ensures Collapse(a + n + b) == a + "-" + b
  {
    assert a + n + b == a + (n + b);
    CollapseKeepsAlnum(a, n + b, false);
    CollapseFromRun(n, b, false);
    CollapseKeepsAlnum(b, [], true);
    assert b + [] == b;
  }

  /** A name that lower-cases to two words around a run of other
      characters gets their slug joined by one '-'. */
  lemma SlugifyOfWords(name: string, a: string, n: string, b: string)
    requires Lower(name) == a + n + b
    requires a != [] && forall i :: 0 <= i < |a| ==> IsAlnum(a[i])
    requires n != [] && forall i :: 0 <= i < |n| ==> !IsAlnum(n[i])
    requires b != [] && forall i :: 0 <= i < |b| ==> IsAlnum(b[i])
    ensures Slugify(name) == a + "-" + b
  {
    CollapseOfWords(a, n, b);
    var c := a + "-" + b;
    assert c[0] == a[0] && c[|c| - 1] == b[|b| - 1];
  }

  /** Scanning "web summarizer": the letters pass, the space becomes '-'. */
  lemma CollapseName(w: string, space: string, rest: string)
    requires w == "web" && space == " " && rest == "summarizer"
    ensures CollapseFrom(w + space + rest, false) == w + "-" + rest
  {
    CollapseKeepsAlnum(rest, [], true);
    assert rest + [] == rest;
    assert (space + rest)[1..] == rest;
    assert CollapseFrom(space + rest, false) == "-" + rest;
    CollapseKeepsAlnum(w, space + rest, false);
    assert w + space + rest == w + (space + rest);
  }

  lemma LowerName()
    ensures Lower("Web Summarizer") == "web summarizer"
  {
    var l := Lower("Web Summarizer");
    forall i | 0 <= i < |l| ensures l[i] == "web summarizer"[i] { }
  }

  lemma CollapseExample()
    ensures Collapse("web summarizer") == "web-summarizer"
  {
    CollapseName("web", " ", "summarizer");
    assert "web" + " " + "summarizer" == "web summarizer";
    assert "web" + "-" + "summarizer" == "web-summarizer";
  }

  lemma TrimDashesExample(s: string)
    requires s == "web-summarizer"
    ensures WellFormed(s) && TrimDashes(s) == s
  {
    assert s[0] == 'w' && s[|s| - 1] == 'r';
  }

  /** The seeded skill's slug is the one its name derives. */
  lemma SlugifyExample()
    ensures Slugify("Web Summarizer") == "web-summarizer"
  {
    LowerName();
    CollapseExample();
    TrimDashesExample("web-summarizer");
  }

  /** Scanning "(web)!": each run of punctuation becomes one '-'. */
  lemma CollapsePunctuation(w: string, tail: string)
    requires w == "web" && tail == ")!"
    ensures CollapseFrom("(" + w + tail, false) == "-" + w + "-"
  {
    assert CollapseFrom(tail, false) == "-" by {
      assert tail[1..] == "!" && "!"[1..] == [];
    }
    CollapseKeepsAlnum(w, tail, true);
    assert ("(" + w + tail)[1..] == w + tail;
  }

  lemma LowerPunctuation()
    ensures Lower("(Web)!") == "(" + "web" + ")!"
  {
    var l := Lower("(Web)!");
    forall i | 0 <= i < |l| ensures l[i] == "(web)!"[i] { }
  }

  /** Trimming "-web-" drops both dashes. */
  lemma TrimDashesPunctuation(c: string)
    requires c == "-" + "web" + "-"
    ensures WellFormed(c) && TrimDashes(c) == "web"
  {
    assert c[0] == '-' && c[1..] == "web-" && "web-"[..3] == "web";
  }

  /** Punctuation at either end of a name does not show in the slug. */
  lemma SlugifyExamplePunctuation()
    ensures Slugify("(Web)!") == "web"
  {
    LowerPunctuation();
    CollapsePunctuation("web", ")!");
    TrimDashesPunctuation("-" + "web" + "-");
  }
}
