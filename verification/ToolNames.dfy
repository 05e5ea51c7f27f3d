/** Slugs, the truncated slugs of advertised tool names, and parsing such a name back. */
module ToolNames {
  import opened Wrappers
  import opened Prefixes

  predicate IsLower(c: char) {
    'a' <= c <= 'z' || '0' <= c <= '9'
  }

  predicate IsAlphanumeric(c: char) {
    IsLower(c) || 'A' <= c <= 'Z'
  }

  function ToLower(c: char): char {
    if 'A' <= c <= 'Z' then c - 'A' + 'a' else c
  }

  function Last(s: string): char
    requires s != ""
  {
    s[|s| - 1]
  }

  predicate EndsWith(s: string, c: char) {
    s != "" && Last(s) == c
  }

  /** The characters a slug keeps are the letters and digits of ASCII by their codes; a capital becomes its small letter. */
  lemma Characters(c: char)
    ensures IsLower(c) <==> 97 <= c as int <= 122 || 48 <= c as int <= 57
    ensures IsAlphanumeric(c) <==> IsLower(c) || 65 <= c as int <= 90
    ensures ToLower(c) as int == if 65 <= c as int <= 90 then c as int + 32 else c as int
  {}

  // ---------------------------------------------------------------- slugify

  function PushDash(s: string): string {
    if EndsWith(s, '-') then s else s + "-"
  }

  /** The string the loop has built, one dash for each run of other characters. */
  function Dashed(value: string): string {
    if value == "" then ""
    else
      var s, c := Dashed(value[..|value| - 1]), Last(value);
      if IsAlphanumeric(c) then s + [ToLower(c)] else PushDash(s)
  }

  function TrimStart(s: string): string {
    if s != "" && s[0] == '-' then TrimStart(s[1..]) else s
  }

  function TrimEnd(s: string): string {
    if EndsWith(s, '-') then TrimEnd(s[..|s| - 1]) else s
  }

  function Slugify(value: string): string {
    TrimEnd(TrimStart(Dashed(value)))
  }

  method MakeSlug(value: string) returns (slug: string)
    ensures slug == Slugify(value)
  {
    slug := "";
    var previousDash := false;
    for i := 0 to |value|
      invariant slug == Dashed(value[..i]) && previousDash == EndsWith(slug, '-')
    {
      TakeNext(value, i);
      var ch := value[i];
      if IsAlphanumeric(ch) {
        slug := slug + [ToLower(ch)];
        previousDash := false;
      } else if !previousDash {
        slug := slug + "-";
        previousDash := true;
      }
    }
    TakeAll(value);
    slug := TrimEnd(TrimStart(slug));
  }

  // ---------------------------------------------------------------- what a slug looks like

  /** Lower-case letters and digits, with single dashes inside. */
  predicate IsSlug(s: string) {
    && (forall i :: 0 <= i < |s| ==> IsLower(s[i]) || s[i] == '-')
    && (forall i :: 0 <= i < |s| - 1 ==> s[i] != '-' || s[i + 1] != '-')
    && (s != "" ==> s[0] != '-' && Last(s) != '-')
  }

  /** The string without its leading dash: what the loop would build if it never began with one. */
  function Inner(value: string): string {
    if value == "" then ""
    else
      var s, c := Inner(value[..|value| - 1]), Last(value);
      if IsAlphanumeric(c) then s + [ToLower(c)] else Closed(s)
  }

  function Closed(s: string): string {
    if s == "" then "" else PushDash(s)
  }

  predicate IsOpenSlug(s: string) {
    && (forall i :: 0 <= i < |s| ==> IsLower(s[i]) || s[i] == '-')
    && (forall i :: 0 <= i < |s| - 1 ==> s[i] != '-' || s[i + 1] != '-')
    && (s != "" ==> s[0] != '-')
  }

  lemma {:induction false} InnerIsOpen(value: string)
    ensures IsOpenSlug(Inner(value))
  {
    if value != "" {
      InnerIsOpen(value[..|value| - 1]);
    }
  }

  lemma {:induction false} DashedIsInner(value: string)
    ensures Dashed(value) == Inner(value) || Dashed(value) == "-" + Inner(value)
    ensures Dashed(value) == "" ==> value == ""
  {
    if value != "" {
      DashedIsInner(value[..|value| - 1]);
    }
  }

  lemma SlugifyIsInner(value: string)
    ensures Slugify(value) == TrimEnd(Inner(value))
  {
    DashedIsInner(value);
    InnerIsOpen(value);
    var s := Inner(value);
    assert TrimStart(s) == s;
    if Dashed(value) == "-" + s {
      assert ("-" + s)[1..] == s;
    }
  }

  lemma TrimOpen(s: string)
    requires IsOpenSlug(s)
    ensures TrimEnd(s) == if EndsWith(s, '-') then s[..|s| - 1] else s
    ensures IsSlug(TrimEnd(s))
    ensures Closed(TrimEnd(s)) == Closed(s)
  {
    if EndsWith(s, '-') {
      var init := s[..|s| - 1];
      assert init != "" ==> s[|init| - 1] != '-';
      assert TrimEnd(s) == TrimEnd(init) == init;
      assert s == init + "-";
    }
  }

  /** Every slug is made of a-z, 0-9 and single inner dashes. */
  lemma SlugifyIsSlug(value: string)
    ensures IsSlug(Slugify(value))
  {
    SlugifyIsInner(value);
    InnerIsOpen(value);
    TrimOpen(Inner(value));
  }

  lemma {:induction false} InnerOfSlug(s: string)
    requires IsOpenSlug(s)
    ensures Inner(s) == s
  {
    if s != "" {
      var t := s[..|s| - 1];
      InnerOfSlug(t);
      assert s == t + [Last(s)];
    }
  }

  /** Slugs are exactly the fixed points, so slugify is idempotent. */
  lemma SlugifyFixes(s: string)
    ensures Slugify(s) == s <==> IsSlug(s)
    ensures Slugify(Slugify(s)) == Slugify(s)
  {
    SlugifyIsSlug(s);
    if IsSlug(s) {
      SlugIsKept(s);
    }
    SlugIsKept(Slugify(s));
  }

  lemma SlugIsKept(s: string)
    requires IsSlug(s)
    ensures Slugify(s) == s
  {
    SlugifyIsInner(s);
    InnerOfSlug(s);
    TrimOpen(s);
  }

  // ---------------------------------------------------------------- which slug a name gets

  function Joined(a: string, b: string): string {
    if a == "" then b else if b == "" then a else a + "-" + b
  }

  function LowerAll(s: string): string {
    if s == "" then "" else LowerAll(s[..|s| - 1]) + [ToLower(Last(s))]
  }

  predicate IsWord(s: string) {
    forall i :: 0 <= i < |s| ==> IsAlphanumeric(s[i])
  }

  lemma InnerNext(s: string, d: char)
    ensures Inner(s + [d]) == if IsAlphanumeric(d) then Inner(s) + [ToLower(d)] else Closed(Inner(s))
  {}

  lemma SplitLast(x: string, c: char, y: string)
    requires y != ""
    ensures y == y[..|y| - 1] + [Last(y)]
    ensures x + [c] + y == (x + [c] + y[..|y| - 1]) + [Last(y)]
  {}

  lemma {:induction false} InnerJoins(x: string, c: char, y: string)
    requires !IsAlphanumeric(c)
    ensures Inner(x + [c] + y) == Closed(Inner(x)) + Inner(y)
    decreases |y|
  {
    if y == "" {
      assert x + [c] + y == x + [c];
      InnerNext(x, c);
    } else {
      var t, d := y[..|y| - 1], Last(y);
      SplitLast(x, c, y);
      InnerJoins(x, c, t);
      InnerNext(x + [c] + t, d);
      InnerNext(t, d);
      CloseLast(Closed(Inner(x)), Inner(t));
    }
  }

  lemma CloseLast(a: string, b: string)
    ensures a == "" || EndsWith(a, '-') ==> Closed(a + b) == a + Closed(b)
  {}

  /** A name splits at any other character: its slug joins the slugs of both sides. */
  lemma SlugifyJoins(x: string, c: char, y: string)
    requires !IsAlphanumeric(c)
    ensures Slugify(x + [c] + y) == Joined(Slugify(x), Slugify(y))
  {
    SlugifyIsInner(x);
    SlugifyIsInner(y);
    SlugifyIsInner(x + [c] + y);
    InnerJoins(x, c, y);
    InnerIsOpen(x);
    InnerIsOpen(y);
    InnerIsOpen(x + [c] + y);
    TrimJoined(Inner(x), Inner(y));
  }

  lemma TrimJoined(a: string, b: string)
    requires IsOpenSlug(a) && IsOpenSlug(b) && IsOpenSlug(Closed(a) + b)
    ensures TrimEnd(Closed(a) + b) == Joined(TrimEnd(a), TrimEnd(b))
  {
    TrimOpen(a);
    TrimOpen(b);
    if b == "" {
      assert Closed(a) + b == Closed(a);
      TrimOpen(Closed(a));
    } else {
      TrimConcat(Closed(a), b);
      TrimNonEmpty(b);
      if a != "" {
        TrimNonEmpty(a);
        assert Closed(a) == TrimEnd(a) + "-";
      }
    }
  }

  lemma TrimNonEmpty(s: string)
    requires IsOpenSlug(s) && s != ""
    ensures TrimEnd(s) != ""
  {}

  lemma TrimConcat(a: string, b: string)
    requires IsOpenSlug(a + b) && IsOpenSlug(b) && b != ""
    ensures TrimEnd(a + b) == a + TrimEnd(b)
  {}

  /** A name of letters and digits only is its own slug, in lower case. */
  lemma {:induction false} SlugifyWord(w: string)
    requires IsWord(w)
    ensures Slugify(w) == LowerAll(w)
  {
    InnerOfWord(w);
    SlugifyIsInner(w);
    InnerIsOpen(w);
    TrimOpen(Inner(w));
  }

  lemma {:induction false} InnerOfWord(w: string)
    requires IsWord(w)
    ensures Inner(w) == LowerAll(w) && !EndsWith(LowerAll(w), '-')
  {
    if w != "" {
      InnerOfWord(w[..|w| - 1]);
    }
  }

  lemma {:induction false} SlugEmptyIff(value: string)
    ensures Slugify(value) == "" <==> forall i :: 0 <= i < |value| ==> !IsAlphanumeric(value[i])
  {
    SlugifyIsInner(value);
    InnerIsOpen(value);
    TrimOpen(Inner(value));
    InnerEmptyIff(value);
  }

  lemma {:induction false} InnerEmptyIff(value: string)
    ensures Inner(value) == "" <==> forall i :: 0 <= i < |value| ==> !IsAlphanumeric(value[i])
  {
    if value != "" {
      InnerEmptyIff(value[..|value| - 1]);
    }
  }

  // ---------------------------------------------------------------- tool names

  const SEPARATOR := "__"
  const SEARCH_TOOL := "search_knowledge"
  const MAX_TOOL_NAME: nat := 64

  /** What the tool names leave for the slug. */
  const MAX_SLUG: nat := MAX_TOOL_NAME - (|SEPARATOR| + |SEARCH_TOOL|)

  function McpSlug(slug: string): string {
    if |slug| > MAX_SLUG then slug[..MAX_SLUG] else slug
  }

  function BuildToolName(slug: string, tool: string): string {
    slug + SEPARATOR + tool
  }

  /** Where the first separator starts. */
  function FindSeparator(s: string): Option<nat> {
    if |s| < 2 then None
    else if s[0] == '_' && s[1] == '_' then Some(0)
    else
      match FindSeparator(s[1..])
      case None => None
      case Some(n) => Some(n + 1)
  }

  lemma {:induction false} FindSeparatorBound(s: string)
    ensures FindSeparator(s).Some? ==> FindSeparator(s).value + 2 <= |s|
  {
    if |s| >= 2 {
      FindSeparatorBound(s[1..]);
    }
  }

  function ParseToolName(name: string): Option<(string, string)> {
    FindSeparatorBound(name);
    match FindSeparator(name)
    case None => None
    case Some(n) =>
      if n == 0 || n + 2 == |name| then None else Some((name[..n], name[n + 2..]))
  }

  /** No separator inside, and none that the end could start. */
  predicate Separable(slug: string) {
    && (forall i :: 0 <= i < |slug| - 1 ==> slug[i] != '_' || slug[i + 1] != '_')
    && !EndsWith(slug, '_')
  }

  lemma {:induction false} FindAfter(slug: string, tool: string)
    ensures FindSeparator(BuildToolName(slug, tool)) == Some(|slug|) <==> Separable(slug)
    ensures FindSeparator(BuildToolName(slug, tool)).Some?
  {
    var name := BuildToolName(slug, tool);
    if slug != "" {
      assert name[1..] == BuildToolName(slug[1..], tool);
      FindAfter(slug[1..], tool);
      assert name[0] == slug[0] && name[1] == (if |slug| > 1 then slug[1] else '_');
      SeparableTail(slug);
    }
  }

  lemma SeparableTail(slug: string)
    requires slug != ""
    ensures Separable(slug) <==> Separable(slug[1..]) && (slug[0] != '_' || (|slug| > 1 && slug[1] != '_'))
  {}

  /** A built name parses back to its parts exactly when both are there and the slug cannot be mistaken. */
  lemma RoutesBackIff(slug: string, tool: string)
    ensures ParseToolName(BuildToolName(slug, tool)) == Some((slug, tool)) <==> slug != "" && tool != "" && Separable(slug)
  {
    var name := BuildToolName(slug, tool);
    FindAfter(slug, tool);
    FindSeparatorBound(name);
    if Separable(slug) {
      assert name[..|slug|] == slug && name[|slug| + 2..] == tool;
    } else {
      var n := FindSeparator(name).value;
      assert |name[..n]| == n;
    }
  }

  /** The advertised search tool of any Orb fits the limit, and routes back exactly if its name has a letter or digit. */
  lemma AdvertisedToolRoutesBackIff(name: string)
    ensures var slug := McpSlug(Slugify(name));
            && BuildToolName(slug, "search_knowledge") == slug + "__search_knowledge"
            && |slug + "__search_knowledge"| <= 64 && (|Slugify(name) + "__search_knowledge"| <= 64 ==> slug == Slugify(name))
            && (ParseToolName(slug + "__search_knowledge") == Some((slug, "search_knowledge")) <==> exists i :: 0 <= i < |name| && IsAlphanumeric(name[i]))
  {
    var slug := McpSlug(Slugify(name));
    SlugifyIsSlug(name);
    SlugEmptyIff(name);
    assert slug <= Slugify(name);
    assert Separable(slug);
    RoutesBackIff(slug, SEARCH_TOOL);
    AdvertisedName(slug);
  }

  lemma AdvertisedName(slug: string)
    ensures BuildToolName(slug, SEARCH_TOOL) == BuildToolName(slug, "search_knowledge") == slug + "__search_knowledge"
    ensures |"__search_knowledge"| == 18 && MAX_SLUG == 46
  {
    assert SEPARATOR + SEARCH_TOOL == "__search_knowledge";
    assert BuildToolName(slug, SEARCH_TOOL) == slug + (SEPARATOR + SEARCH_TOOL);
  }

  /** Two Orbs get the same truncated slug exactly if their slugs agree as far as it goes. */
  lemma McpSlugsCollideIff(a: string, b: string)
    ensures McpSlug(a) == McpSlug(b) <==> a == b || (|a| >= 46 && |b| >= 46 && a[..46] == b[..46])
  {}
}
