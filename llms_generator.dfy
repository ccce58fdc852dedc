/** The llms.txt generator: which sitemap URLs are kept, the section each
    one lands in, the label it is listed under, the order of the sitemap
    records, and the Markdown file built from them. */
module LlmsGenerator {
  import opened Text
  import Urls

  // ---------------------------------------------------------------------------
  // The URL patterns

  /** The shapes of the regular expressions the generator searches with, each
      matched against the lower-cased text. */
  datatype Pattern =
    | Substring(alts: seq<string>)            // a literal, or `/docs?/` as its two spellings
    | Extension(exts: seq<string>)            // `\.(xml|json|…)$`
    | WordRunBetween(pre: string, post: string) // `/category/\w+/page/`
    | DigitAfter(pre: string)                 // `/page/\d+`

  predicate IsWordChar(c: char) {
    IsAsciiLetter(c) || IsDigit(c) || c == '_'
  }

  /** `re.search(pattern, s)` finds a match; `$` matches at the end or just
      before a final newline. */
  predicate Matches(p: Pattern, s: string) {
    match p
    case Substring(alts) => exists k :: 0 <= k < |alts| && Contains(s, alts[k])
    case Extension(exts) =>
      exists k :: 0 <= k < |exts| && (EndsWith(s, "." + exts[k]) || EndsWith(s, "." + exts[k] + "\n"))
    case WordRunBetween(pre, post) =>
      exists i, j :: 0 <= i && i + |pre| < j <= |s| && StartsWith(s[i..], pre) && StartsWith(s[j..], post)
        && forall m :: i + |pre| <= m < j ==> IsWordChar(s[m])
    case DigitAfter(pre) =>
      exists i :: 0 <= i && i + |pre| < |s| && StartsWith(s[i..], pre) && IsDigit(s[i + |pre|])
  }

  const SkipPatterns: seq<Pattern> := [
    Substring(["/wp-"]), Substring(["/admin"]), Substring(["/login"]), Substring(["/logout"]),
    Substring(["/register"]), Substring(["/cart"]), Substring(["/checkout"]), Substring(["/account"]),
    Substring(["/user/"]),
    Extension(["xml", "json", "rss", "atom", "pdf", "jpg", "png", "css", "js"]),
    Substring(["/tag/"]), WordRunBetween("/category/", "/page/"), DigitAfter("/page/")]

  /** The section names. */
  const Tools := "Strumenti"
  const Calculators := "Calcolatori"
  const Finance := "Strumenti Finanziari"
  const Health := "Salute & Benessere"
  const Maths := "Matematica"
  const Apps := "Applicazioni"
  const TopLevel := "Pagine Principali"
  const Docs := "Documentazione"
  const Guides := "Guide"
  const Tutorials := "Tutorial"
  const Blog := "Blog & Articoli"
  const Articles := "Articoli"
  const Posts := "Post"
  const Products := "Prodotti"
  const Services := "Servizi"
  const About := "Chi Siamo"
  const Contacts := "Contatti"
  const Other := "Altro"
  const Privacy := "Privacy & Legal"
  const Terms := "Termini"

  /** The marker of the root page, which is listed apart from the sections. */
  const Homepage := "_homepage"

  const CategoryPatterns: seq<(Pattern, string)> := [
    (Substring(["/blog/"]), Blog),
    (Substring(["/article"]), Articles),
    (Substring(["/post/"]), Posts),
    (Substring(["/finance/"]), Finance),
    (Substring(["/health/"]), Health),
    (Substring(["/math/"]), Maths),
    (Substring(["/calcul"]), Calculators),
    (Substring(["/tool"]), Tools),
    (Substring(["/app/"]), Apps),
    (Substring(["/doc/", "/docs/"]), Docs),
    (Substring(["/guide/"]), Guides),
    (Substring(["/tutorial"]), Tutorials),
    (Substring(["/product"]), Products),
    (Substring(["/service"]), Services),
    (Substring(["/about"]), About),
    (Substring(["/contact"]), Contacts),
    (Substring(["/privacy"]), Privacy),
    (Substring(["/terms"]), Terms)]

  /** Whether any of `ps` matches `s`, tried in order. */
  function AnyMatch(ps: seq<Pattern>, s: string): (r: bool)
    ensures r <==> exists k :: 0 <= k < |ps| && Matches(ps[k], s)
    decreases |ps|
  {
    if ps == [] then false
    else if Matches(ps[0], s) then true
    else
      var r := AnyMatch(ps[1..], s);
      assert forall k :: 1 <= k < |ps| ==> ps[k] == ps[1..][k - 1];
      r
  }

  /** `should_skip`: some skip pattern matches the URL, ignoring ASCII case. */
  function ShouldSkip(url: string): bool {
    AnyMatch(SkipPatterns, LowerStr(url))
  }

  lemma LowerStrTwice(s: string)
    ensures LowerStr(LowerStr(s)) == LowerStr(s)
  {
    var t := LowerStr(s);
    forall i | 0 <= i < |s|
      ensures LowerStr(t)[i] == t[i]
    {
      assert !IsAsciiUpper(t[i]);
    }
  }

  /** The skip test ignores ASCII case. */
  lemma ShouldSkipIgnoresCase(url: string)
    ensures ShouldSkip(url) == ShouldSkip(LowerStr(url))
  {
    LowerStrTwice(url);
  }

  /** Admin pages and PDF files, in any letter case, are skipped. */
  lemma ShouldSkipAdminAndPdf(url: string)
    ensures Contains(LowerStr(url), "/admin") ==> ShouldSkip(url)
    ensures EndsWith(LowerStr(url), ".pdf") ==> ShouldSkip(url)
  {
    var s := LowerStr(url);
    if Contains(s, "/admin") {
      assert SkipPatterns[1].alts[0] == "/admin";
      assert Matches(SkipPatterns[1], s);
    }
    if EndsWith(s, ".pdf") {
      assert SkipPatterns[9].exts[4] == "pdf";
      assert Matches(SkipPatterns[9], s);
    }
  }

  /** The category of the first pattern of `ps` that matches `s`. */
  function FirstCategory(ps: seq<(Pattern, string)>, s: string): (r: Option<string>)
    ensures r.None? <==> forall k :: 0 <= k < |ps| ==> !Matches(ps[k].0, s)
    ensures r.Some? ==> exists k :: (0 <= k < |ps| && Matches(ps[k].0, s) && r.value == ps[k].1 &&
      forall m :: 0 <= m < k ==> !Matches(ps[m].0, s))
    decreases |ps|
  {
    if ps == [] then None
    else if Matches(ps[0].0, s) then Some(ps[0].1)
    else
      var r := FirstCategory(ps[1..], s);
      assert forall k :: 1 <= k < |ps| ==> ps[k] == ps[1..][k - 1];
      r
  }


  /** `urlparse(url).path.lower()`. */
  function LowerPath(url: string): string {
    LowerStr(Urls.Path(url))
  }

  /** `categorize_url`: the first matching pattern decides; failing that the
      root is the homepage, a path of one segment a main page, and anything
      else "Altro". */
  function Categorize(url: string): (r: string)
    ensures FirstCategory(CategoryPatterns, LowerPath(url)).Some? ==>
      r == FirstCategory(CategoryPatterns, LowerPath(url)).value
    ensures r == Homepage <==>
      FirstCategory(CategoryPatterns, LowerPath(url)).None? && LowerPath(url) in ["/", ""]
    ensures FirstCategory(CategoryPatterns, LowerPath(url)).None? && LowerPath(url) !in ["/", ""] ==>
      (r == TopLevel <==> |Urls.NonEmpty(Urls.SplitSlash(LowerPath(url)))| == 1) && (r != TopLevel ==> r == Other)
  {
    var path := LowerPath(url);
    match FirstCategory(CategoryPatterns, path)
    case Some(c) => CategoryNamed(c); c
    case None =>
      if path in ["/", ""] then Homepage
      else if |Urls.NonEmpty(Urls.SplitSlash(path))| == 1 then TopLevel
      else Other
  }

  /** No pattern's category is the homepage marker. */
  lemma CategoryNamed(c: string)
    requires exists k :: 0 <= k < |CategoryPatterns| && CategoryPatterns[k].1 == c
    ensures c != Homepage && c in PriorityOrder
  {
    var k :| 0 <= k < |CategoryPatterns| && CategoryPatterns[k].1 == c;
    assert c == CategoryPatterns[k].1;
    assert c[0] != '_' && c in PriorityOrder by {
      PatternCategories(k);
    }
  }

  /** Where each pattern's category sits in `priority_order`. */
  const PatternRank: seq<nat> := [10, 11, 12, 2, 3, 4, 1, 0, 5, 7, 8, 9, 13, 14, 15, 16, 18, 19]

  lemma PatternCategories(k: nat)
    requires k < |CategoryPatterns|
    ensures CategoryPatterns[k].1[0] != '_' && CategoryPatterns[k].1 in PriorityOrder
  {
    assert CategoryPatterns[k].1 == PriorityOrder[PatternRank[k]];
    HomepageUnranked();
  }

  /** The homepage marker is not a section name. */
  lemma HomepageUnranked()
    ensures forall i :: 0 <= i < |PriorityOrder| ==> PriorityOrder[i][0] != '_'
  {
  }

  // ---------------------------------------------------------------------------
  // The label

  /** Every `a` in `s` replaced by `b`. */
  function SwapChar(s: string, a: char, b: char): (r: string)
    ensures |r| == |s| && forall i :: 0 <= i < |s| ==> r[i] == if s[i] == a then b else s[i]
  {
    seq(|s|, i requires 0 <= i < |s| => if s[i] == a then b else s[i])
  }

  /** `s.replace(a, b)` for single characters. */
  lemma {:induction false} ReplaceChar(s: string, a: char, b: char)
    ensures Replace(s, [a], [b]) == SwapChar(s, a, b)
    decreases |s|
  {
    if s != [] {
      ReplaceChar(s[1..], a, b);
      assert SwapChar(s, a, b) == [if s[0] == a then b else s[0]] + SwapChar(s[1..], a, b);
    }
  }

  /** `.replace("-", " ").replace("_", " ").title()`: dashes and underscores
      become spaces, a letter after a letter is lower-cased, and any other
      letter is upper-cased. */
  function Slug(s: string): (r: string)
    ensures |r| == |s|
    ensures forall i :: 0 <= i < |r| ==> r[i] != '-' && r[i] != '_'
    ensures forall i :: 0 <= i < |s| ==>
      r[i] == (if s[i] == '-' || s[i] == '_' then ' '
               else if IsAsciiLetter(s[i]) && i > 0 && IsAsciiLetter(s[i - 1]) then Lower(s[i])
               else if IsAsciiLetter(s[i]) then Upper(s[i])
               else s[i])
  {
    ReplaceChar(s, '-', ' ');
    ReplaceChar(SwapChar(s, '-', ' '), '_', ' ');
    var t := Replace(Replace(s, "-", " "), "_", " ");
    assert t == SwapChar(SwapChar(s, '-', ' '), '_', ' ');
    forall i | 0 <= i < |t| ensures Title(t)[i] != '-' && Title(t)[i] != '_' {
      TitleAt(t, i);
    }
    forall i | 0 <= i < |s|
      ensures Title(t)[i] == (if s[i] == '-' || s[i] == '_' then ' '
                              else if IsAsciiLetter(s[i]) && i > 0 && IsAsciiLetter(s[i - 1]) then Lower(s[i])
                              else if IsAsciiLetter(s[i]) then Upper(s[i])
                              else s[i])
    {
      TitleAt(t, i);
      if i > 0 {
        assert IsAsciiLetter(t[i - 1]) == IsAsciiLetter(s[i - 1]);
      }
    }
    Title(t)
  }

  /** `s.split("/")[-1]`: the text after the last '/'. */
  function LastSegment(s: string): (r: string)
    ensures |r| <= |s| && r == s[|s| - |r|..] && '/' !in r
  {
    match Urls.LastSlash(s)
    case None => s
    case Some(i) => s[i + 1..]
  }

  /** `"/".join(s.split("/")[-2:])`: the text after the last but one '/', or
      all of `s` when it holds at most one. */
  function LastTwoSegments(s: string): (r: string)
    ensures |r| <= |s| && r == s[|s| - |r|..] && EndsWith(r, LastSegment(s))
  {
    match Urls.LastSlash(s)
    case None => s
    case Some(i) =>
      match Urls.LastSlash(s[..i])
      case None => s
      case Some(j) => assert s[j + 1..][i - j..] == s[i + 1..]; s[j + 1..]
  }

  /** The label of a non-empty path stripped of its slashes: the last
      segment as a title, or the last two when the last is a number. */
  function PathLabel(path: string): (r: string)
    requires path != [] && path[|path| - 1] != '/'
    ensures r != []
    ensures forall i :: 0 <= i < |r| ==> r[i] != '-' && r[i] != '_'
    ensures !IsDigits(Slug(LastSegment(path))) ==> |r| == |LastSegment(path)|
    ensures IsDigits(Slug(LastSegment(path))) ==> |r| == |LastTwoSegments(path)|
    ensures r == Slug(if IsDigits(Slug(LastSegment(path))) then LastTwoSegments(path) else LastSegment(path))
  {
    var title := Slug(LastSegment(path));
    if IsDigits(title) then Slug(LastTwoSegments(path)) else title
  }

  /** `url_to_label`: "Homepage" for the root, otherwise the label of the
      path. The fallback to the path is never taken: the label is never
      empty. */
  function UrlToLabel(url: string): (r: string)
    ensures StripSlashes(Urls.Path(url)) == [] ==> r == "Homepage"
    ensures StripSlashes(Urls.Path(url)) != [] ==> r == PathLabel(StripSlashes(Urls.Path(url)))
  {
    var path := StripSlashes(Urls.Path(url));
    if path == [] then "Homepage"
    else
      var title := PathLabel(path);
      if title == [] then path else title
  }

  // ---------------------------------------------------------------------------
  // Ordering the sitemap records

  /** A sitemap record: its `loc`, an optional title, and its priority as an
      integer sort key. */
  datatype UrlRecord = UrlRecord(url: string, title: Option<string>, priority: int)

  /** `x` placed before the first record whose priority it is at least. */
  function Insert(x: UrlRecord, s: seq<UrlRecord>): (r: seq<UrlRecord>)
    ensures |r| == |s| + 1
    decreases |s|
  {
    if s == [] || x.priority >= s[0].priority then [x] + s
    else [s[0]] + Insert(x, s[1..])
  }

  /** `sorted(urls, key=lambda x: -x["priority"])`. */
  function SortByPriority(xs: seq<UrlRecord>): (r: seq<UrlRecord>)
    ensures |r| == |xs|
    decreases |xs|
  {
    if xs == [] then [] else Insert(xs[0], SortByPriority(xs[1..]))
  }

  predicate SortedDesc(s: seq<UrlRecord>) {
    forall i, j :: 0 <= i < j < |s| ==> s[i].priority >= s[j].priority
  }

  /** The records of priority `p`, in their order. */
  function WithPriority(s: seq<UrlRecord>, p: int): seq<UrlRecord>
    decreases |s|
  {
    if s == [] then [] else (if s[0].priority == p then [s[0]] else []) + WithPriority(s[1..], p)
  }

  lemma {:induction false} InsertMembers(x: UrlRecord, s: seq<UrlRecord>)
    ensures multiset(Insert(x, s)) == multiset(s) + multiset{x}
    ensures forall y :: y in Insert(x, s) <==> y == x || y in s
    decreases |s|
  {
    if s != [] && x.priority < s[0].priority {
      InsertMembers(x, s[1..]);
      assert s == [s[0]] + s[1..];
    }
  }

  lemma {:induction false} InsertSorted(x: UrlRecord, s: seq<UrlRecord>)
    requires SortedDesc(s)
    ensures SortedDesc(Insert(x, s))
    decreases |s|
  {
    if s != [] && x.priority < s[0].priority {
      InsertSorted(x, s[1..]);
      InsertMembers(x, s[1..]);
      var t := Insert(x, s[1..]);
      forall k | 0 <= k < |t| ensures s[0].priority >= t[k].priority {
        assert t[k] in t;
        if t[k] != x {
          var m :| 0 <= m < |s[1..]| && s[1..][m] == t[k];
          assert s[1..][m] == s[m + 1];
        }
      }
      assert Insert(x, s) == [s[0]] + t;
    }
  }

  /** Inserting `x` puts it before every record of its own priority. */
  lemma {:induction false} InsertStable(x: UrlRecord, s: seq<UrlRecord>, p: int)
    ensures WithPriority(Insert(x, s), p) == (if x.priority == p then [x] else []) + WithPriority(s, p)
    decreases |s|
  {
    if s != [] && x.priority < s[0].priority {
      InsertStable(x, s[1..], p);
      assert Insert(x, s)[1..] == Insert(x, s[1..]);
    }
  }

  /** The order is by descending priority, the records are those given, and
      records of equal priority keep their input order: this pins down the
      stable sort completely. */
  lemma {:induction false} SortByPrioritySpec(xs: seq<UrlRecord>)
    ensures SortedDesc(SortByPriority(xs))
    ensures multiset(SortByPriority(xs)) == multiset(xs)
    ensures forall p :: WithPriority(SortByPriority(xs), p) == WithPriority(xs, p)
    decreases |xs|
  {
    if xs != [] {
      SortByPrioritySpec(xs[1..]);
      InsertSorted(xs[0], SortByPriority(xs[1..]));
      InsertMembers(xs[0], SortByPriority(xs[1..]));
      assert xs == [xs[0]] + xs[1..];
      forall p ensures WithPriority(SortByPriority(xs), p) == WithPriority(xs, p) {
        InsertStable(xs[0], SortByPriority(xs[1..]), p);
      }
    }
  }

  // ---------------------------------------------------------------------------
  // The sections

  /** `priority_order`: the order of the sections. */
  const PriorityOrder: seq<string> := [
    Tools, Calculators, Finance, Health, Maths, Apps, TopLevel, Docs, Guides, Tutorials,
    Blog, Articles, Posts, Products, Services, About, Contacts, Other, Privacy, Terms]

  /** The categories listed under "## Optional". */
  const OptionalCategories: seq<string> := [Privacy, Terms, Contacts, Other]

  /** Every category a URL can get is the homepage marker or one of
      `priority_order`: the `remaining` list of the generator is always empty. */
  lemma CategoryKnown(url: string)
    ensures Categorize(url) == Homepage || Categorize(url) in PriorityOrder
  {
    var path := LowerPath(url);
    match FirstCategory(CategoryPatterns, path)
    case Some(c) => CategoryNamed(c);
    case None =>
      FallbacksRanked();
  }

  lemma FallbacksRanked()
    ensures TopLevel in PriorityOrder && Other in PriorityOrder
  {
    assert PriorityOrder[6] == TopLevel;
    assert PriorityOrder[17] == Other;
  }

  // ---------------------------------------------------------------------------
  // Collecting the records into categories

  /** An entry of a section: the normalised URL, its label and its priority. */
  datatype Entry = Entry(url: string, caption: string, priority: int)

  /** The `categorized` dict and the `seen` set of the collecting loop. */
  datatype Groups = Groups(cats: map<string, seq<Entry>>, seen: set<string>)

  /** A URL that does not start with "http" is resolved against the base URL. */
  function Normalize(baseUrl: string, url: string): string {
    if StartsWith(url, "http") then url else Urls.Resolve(baseUrl, url)
  }

  /** The URL is on the site's domain and not skipped. */
  predicate Kept(domain: string, url: string) {
    Contains(Urls.Netloc(url), domain) && !ShouldSkip(url)
  }

  /** `url_data.get("title") or url_to_label(url, domain)`. */
  function LabelFor(rec: UrlRecord, url: string): string {
    if rec.title.Some? && rec.title.value != [] then rec.title.value else UrlToLabel(url)
  }

  /** The entries collected so far for category `c`. */
  function Bucket(cats: map<string, seq<Entry>>, c: string): seq<Entry> {
    if c in cats then cats[c] else []
  }

  /** What one record contributes: its entry (whose URL is the normalised
      one), whether it is kept, and the category it would go to. */
  datatype Candidate = Candidate(kept: bool, category: string, entry: Entry)

  function Assess(baseUrl: string, domain: string, rec: UrlRecord): Candidate {
    var u := Normalize(baseUrl, rec.url);
    Candidate(Kept(domain, u), Categorize(u), Entry(u, LabelFor(rec, u), rec.priority))
  }

  function Assessed(recs: seq<UrlRecord>, baseUrl: string, domain: string): (r: seq<Candidate>)
    ensures |r| == |recs|
    ensures forall k :: 0 <= k < |recs| ==> r[k] == Assess(baseUrl, domain, recs[k])
  {
    seq(|recs|, k requires 0 <= k < |recs| => Assess(baseUrl, domain, recs[k]))
  }

  /** One pass of the collecting loop: a kept URL not seen before is appended
      to the bucket of its category. */
  function Admit(g: Groups, cand: Candidate): Groups {
    if !cand.kept || cand.entry.url in g.seen then g
    else Groups(g.cats[cand.category := Bucket(g.cats, cand.category) + [cand.entry]], g.seen + {cand.entry.url})
  }

  /** The groups after the loop has read `cands`. */
  function Collect(cands: seq<Candidate>): Groups
    decreases |cands|
  {
    if cands == [] then Groups(map[], {})
    else Admit(Collect(cands[..|cands| - 1]), cands[|cands| - 1])
  }

  lemma CollectSnoc(cands: seq<Candidate>, i: nat)
    requires i < |cands|
    ensures Collect(cands[..i + 1]) == Admit(Collect(cands[..i]), cands[i])
  {
    var t := cands[..i + 1];
    assert t[..|t| - 1] == cands[..i] && t[|t| - 1] == cands[i];
  }

  /** `CollectSnoc` for the candidates of `recs`. */
  lemma AssessedSnoc(recs: seq<UrlRecord>, baseUrl: string, domain: string, i: nat)
    requires i < |recs|
    ensures var cands := Assessed(recs, baseUrl, domain);
      Collect(cands[..i + 1]) == Admit(Collect(cands[..i]), Assess(baseUrl, domain, recs[i]))
  {
    CollectSnoc(Assessed(recs, baseUrl, domain), i);
  }

  /** Entry `i` of bucket `c` is the entry of candidate `k`, which was kept
      and belongs to `c`. */
  predicate From(g: Groups, cands: seq<Candidate>, c: string, i: int, k: int)
    requires c in g.cats && 0 <= i < |g.cats[c]|
  {
    0 <= k < |cands| && cands[k].kept && cands[k].category == c && cands[k].entry == g.cats[c][i]
  }

  /** No URL sits in two places of the buckets. */
  predicate UrlsUnique(cats: map<string, seq<Entry>>) {
    forall c, d, i, j ::
      (c in cats && d in cats && 0 <= i < |cats[c]| && 0 <= j < |cats[d]| && (c, i) != (d, j))
      ==> cats[c][i].url != cats[d][j].url
  }

  /** Every bucket is non-empty and holds entries of kept candidates of its
      own category, recorded as seen; no URL is listed twice, in one
      category or across two. */
  ghost predicate WellGrouped(g: Groups, cands: seq<Candidate>) {
    (forall c :: c in g.cats ==> g.cats[c] != [])
    && (forall c, i :: c in g.cats && 0 <= i < |g.cats[c]| ==>
          g.cats[c][i].url in g.seen && exists k :: From(g, cands, c, i, k))
    && UrlsUnique(g.cats)
  }

  lemma AdmitWellGrouped(g: Groups, cands: seq<Candidate>, cand: Candidate)
    requires WellGrouped(g, cands)
    ensures WellGrouped(Admit(g, cand), cands + [cand])
  {
    var cands' := cands + [cand];
    var g' := Admit(g, cand);
    var c := cand.category;
    var b := Bucket(g.cats, c);
    var added := cand.kept && cand.entry.url !in g.seen;
    forall d, i | d in g'.cats && 0 <= i < |g'.cats[d]|
      ensures g'.cats[d][i].url in g'.seen && exists k :: From(g', cands', d, i, k)
      ensures !(added && d == c && i == |b|) ==> d in g.cats && i < |g.cats[d]| && g'.cats[d][i] == g.cats[d][i]
    {
      if added && d == c && i == |b| {
        assert From(g', cands', d, i, |cands|);
      } else {
        assert g'.cats[d][i] == g.cats[d][i];
        var k :| From(g, cands, d, i, k);
        assert From(g', cands', d, i, k);
      }
    }
    forall d, e, i, j |
      d in g'.cats && e in g'.cats && 0 <= i < |g'.cats[d]| && 0 <= j < |g'.cats[e]| && (d, i) != (e, j)
      ensures g'.cats[d][i].url != g'.cats[e][j].url
    {
      if added && d == c && i == |b| {
        assert g'.cats[e][j] == g.cats[e][j] && g.cats[e][j].url in g.seen;
      } else if added && e == c && j == |b| {
        assert g'.cats[d][i] == g.cats[d][i] && g.cats[d][i].url in g.seen;
      } else {
        assert g'.cats[d][i] == g.cats[d][i] && g'.cats[e][j] == g.cats[e][j];
        assert UrlsUnique(g.cats);
      }
    }
  }

  /** The collected groups are well formed. */
  lemma {:induction false} CollectWellGrouped(cands: seq<Candidate>)
    ensures WellGrouped(Collect(cands), cands)
    decreases |cands|
  {
    if cands != [] {
      var init := cands[..|cands| - 1];
      CollectWellGrouped(init);
      AdmitWellGrouped(Collect(init), init, cands[|cands| - 1]);
      assert init + [cands[|cands| - 1]] == cands;
    }
  }

  /** The candidate an entry of the collected groups comes from. */
  lemma CollectOrigin(cands: seq<Candidate>, c: string, i: int) returns (k: int)
    requires c in Collect(cands).cats && 0 <= i < |Collect(cands).cats[c]|
    ensures From(Collect(cands), cands, c, i, k)
  {
    CollectWellGrouped(cands);
    var g := Collect(cands);
    assert g.cats[c][i].url in g.seen && exists k :: From(g, cands, c, i, k);
    k :| From(g, cands, c, i, k);
  }

  /** A kept candidate's URL is seen, and every seen URL is listed. */
  lemma {:induction false} CollectComplete(cands: seq<Candidate>)
    ensures forall k :: 0 <= k < |cands| && cands[k].kept ==> cands[k].entry.url in Collect(cands).seen
    ensures forall u :: u in Collect(cands).seen ==>
      exists c, i :: c in Collect(cands).cats && 0 <= i < |Collect(cands).cats[c]| && Collect(cands).cats[c][i].url == u
    decreases |cands|
  {
    if cands != [] {
      var init := cands[..|cands| - 1];
      var last := cands[|cands| - 1];
      CollectComplete(init);
      var g0 := Collect(init);
      var g := Collect(cands);
      forall u | u in g.seen
        ensures exists c, i :: c in g.cats && 0 <= i < |g.cats[c]| && g.cats[c][i].url == u
      {
        if u in g0.seen {
          var c, i :| c in g0.cats && 0 <= i < |g0.cats[c]| && g0.cats[c][i].url == u;
          assert g.cats[c][i] == g0.cats[c][i];
        } else {
          var c := last.category;
          assert g.cats[c][|g.cats[c]| - 1].url == u;
        }
      }
      forall k | 0 <= k < |cands| && cands[k].kept
        ensures cands[k].entry.url in g.seen
      {
        if k < |init| {
          assert init[k] == cands[k];
        }
      }
    }
  }

  /** Where a kept candidate's URL is listed. */
  lemma CollectListed(cands: seq<Candidate>, k: int) returns (c: string, i: int)
    requires 0 <= k < |cands| && cands[k].kept
    ensures c in Collect(cands).cats && 0 <= i < |Collect(cands).cats[c]|
    ensures Collect(cands).cats[c][i].url == cands[k].entry.url
  {
    CollectComplete(cands);
    c, i :| c in Collect(cands).cats && 0 <= i < |Collect(cands).cats[c]| && Collect(cands).cats[c][i].url == cands[k].entry.url;
  }

  /** Non-increasing priorities over a sequence of candidates. */
  predicate PrioritiesDesc(cands: seq<Candidate>) {
    forall k1, k2 :: 0 <= k1 < k2 < |cands| ==> cands[k1].entry.priority >= cands[k2].entry.priority
  }

  /** Non-increasing priorities within every bucket. */
  predicate BucketsDesc(g: Groups) {
    forall c, i, j :: c in g.cats && 0 <= i < j < |g.cats[c]| ==> g.cats[c][i].priority >= g.cats[c][j].priority
  }

  /** Each bucket keeps the order of the candidates: read in descending
      priority, every bucket is in descending priority. */
  lemma {:induction false} CollectOrdered(cands: seq<Candidate>)
    requires PrioritiesDesc(cands)
    ensures BucketsDesc(Collect(cands))
    decreases |cands|
  {
    if cands != [] {
      var init := cands[..|cands| - 1];
      var last := cands[|cands| - 1];
      assert PrioritiesDesc(init);
      CollectOrdered(init);
      var g0 := Collect(init);
      var g := Collect(cands);
      if last.kept && last.entry.url !in g0.seen {
        var c := last.category;
        var b := Bucket(g0.cats, c);
        forall i | 0 <= i < |b|
          ensures b[i].priority >= last.entry.priority
        {
          assert c in g0.cats;
          var k := CollectOrigin(init, c, i);
          assert init[k] == cands[k];
        }
        assert g.cats[c] == b + [last.entry];
      }
    }
  }

  // ---------------------------------------------------------------------------
  // The collected records, in terms of the URL functions

  lemma AssessKept(baseUrl: string, domain: string, rec: UrlRecord)
    ensures var cand := Assess(baseUrl, domain, rec);
      cand.kept ==> Kept(domain, cand.entry.url) && Categorize(cand.entry.url) == cand.category
  {
  }

  /** Every listed URL is on the domain, not skipped, and in the bucket of its
      own category; no URL is listed twice. */
  lemma CollectRecords(recs: seq<UrlRecord>, baseUrl: string, domain: string)
    ensures var g := Collect(Assessed(recs, baseUrl, domain));
      forall c, i :: c in g.cats && 0 <= i < |g.cats[c]| ==>
        Kept(domain, g.cats[c][i].url) && Categorize(g.cats[c][i].url) == c
    ensures UrlsUnique(Collect(Assessed(recs, baseUrl, domain)).cats)
  {
    var cands := Assessed(recs, baseUrl, domain);
    var g := Collect(cands);
    CollectWellGrouped(cands);
    forall c, i | c in g.cats && 0 <= i < |g.cats[c]|
      ensures Kept(domain, g.cats[c][i].url) && Categorize(g.cats[c][i].url) == c
    {
      var k := CollectOrigin(cands, c, i);
      AssessKept(baseUrl, domain, recs[k]);
    }
  }

  /** A record whose normalised URL is on the domain and not skipped is
      listed. */
  lemma RecordsListed(recs: seq<UrlRecord>, baseUrl: string, domain: string, k: nat)
    requires k < |recs| && Kept(domain, Normalize(baseUrl, recs[k].url))
    ensures var g := Collect(Assessed(recs, baseUrl, domain));
      exists c, i :: c in g.cats && 0 <= i < |g.cats[c]| && g.cats[c][i].url == Normalize(baseUrl, recs[k].url)
  {
    var cands := Assessed(recs, baseUrl, domain);
    assert cands[k].kept && cands[k].entry.url == Normalize(baseUrl, recs[k].url);
    var c, i := CollectListed(cands, k);
  }

  /** Records sorted by descending priority give buckets in descending
      priority. */
  lemma RecordsOrdered(recs: seq<UrlRecord>, baseUrl: string, domain: string)
    requires SortedDesc(recs)
    ensures BucketsDesc(Collect(Assessed(recs, baseUrl, domain)))
  {
    var cands := Assessed(recs, baseUrl, domain);
    forall k1, k2 | 0 <= k1 < k2 < |cands|
      ensures cands[k1].entry.priority >= cands[k2].entry.priority
    {
    }
    CollectOrdered(cands);
  }

  /** Two entries of one bucket come from candidates in the order the
      entries are listed. */
  lemma {:induction false} CollectKeepsOrder(cands: seq<Candidate>, c: string, i: int, j: int)
    returns (k1: int, k2: int)
    requires c in Collect(cands).cats && 0 <= i < j < |Collect(cands).cats[c]|
    ensures k1 < k2 && From(Collect(cands), cands, c, i, k1) && From(Collect(cands), cands, c, j, k2)
    decreases |cands|
  {
    var init := cands[..|cands| - 1];
    var last := cands[|cands| - 1];
    var g0 := Collect(init);
    var g := Collect(cands);
    if last.kept && last.entry.url !in g0.seen && last.category == c && j == |Bucket(g0.cats, c)| {
      assert c in g0.cats && g.cats[c][i] == g0.cats[c][i];
      k1 := CollectOrigin(init, c, i);
      k2 := |cands| - 1;
      assert cands[k1] == init[k1];
    } else {
      assert c in g0.cats && j < |g0.cats[c]| && g.cats[c][i] == g0.cats[c][i] && g.cats[c][j] == g0.cats[c][j];
      k1, k2 := CollectKeepsOrder(init, c, i, j);
      assert cands[k1] == init[k1] && cands[k2] == init[k2];
    }
  }

  lemma {:induction false} WithPriorityConcat(a: seq<UrlRecord>, b: seq<UrlRecord>, p: int)
    ensures WithPriority(a + b, p) == WithPriority(a, p) + WithPriority(b, p)
    decreases |a|
  {
    if a == [] {
      assert a + b == b;
    } else {
      WithPriorityConcat(a[1..], b, p);
      var ab := a + b;
      assert ab[0] == a[0] && ab[1..] == a[1..] + b;
      assert WithPriority(ab, p) == (if a[0].priority == p then [a[0]] else []) + WithPriority(a[1..] + b, p);
    }
  }

  /** A record of priority `p` is the element of `WithPriority(s, p)` that
      follows the ones before it. */
  lemma WithPriorityIndex(s: seq<UrlRecord>, k: int, p: int)
    requires 0 <= k < |s| && s[k].priority == p
    ensures |WithPriority(s[..k], p)| < |WithPriority(s, p)|
    ensures WithPriority(s, p)[|WithPriority(s[..k], p)|] == s[k]
  {
    assert s == s[..k] + s[k..];
    WithPriorityConcat(s[..k], s[k..], p);
    assert s[k..][1..] == s[k + 1..];
  }

  /** Of two records of priority `p`, the earlier one has fewer records of
      priority `p` before it. */
  lemma WithPriorityBefore(s: seq<UrlRecord>, k1: int, k2: int, p: int)
    requires 0 <= k1 < k2 <= |s| && s[k1].priority == p
    ensures |WithPriority(s[..k1], p)| < |WithPriority(s[..k2], p)|
  {
    assert s[..k2] == s[..k1] + s[k1..k2];
    WithPriorityConcat(s[..k1], s[k1..k2], p);
    assert s[k1..k2][0] == s[k1];
  }

  /** Within a bucket, two entries of equal priority are listed in the order
      of their records in the sitemap: entry `i` comes from the `a`-th
      record of that priority and entry `j` from the `b`-th, with `a < b`. */
  lemma TiesKeepRecordOrder(recs: seq<UrlRecord>, baseUrl: string, domain: string, c: string, i: int, j: int)
    returns (a: int, b: int)
    requires var cats := Collect(Assessed(SortByPriority(recs), baseUrl, domain)).cats;
      c in cats && 0 <= i < j < |cats[c]| && cats[c][i].priority == cats[c][j].priority
    ensures var cats := Collect(Assessed(SortByPriority(recs), baseUrl, domain)).cats;
      var w := WithPriority(recs, cats[c][i].priority);
      0 <= a < b < |w|
      && cats[c][i] == Assess(baseUrl, domain, w[a]).entry
      && cats[c][j] == Assess(baseUrl, domain, w[b]).entry
  {
    var sorted := SortByPriority(recs);
    var cands := Assessed(sorted, baseUrl, domain);
    var cats: map<string, seq<Entry>> := Collect(cands).cats;
    var p := cats[c][i].priority;
    var k1, k2 := CollectKeepsOrder(cands, c, i, j);
    assert sorted[k1].priority == p && sorted[k2].priority == p;
    a, b := |WithPriority(sorted[..k1], p)|, |WithPriority(sorted[..k2], p)|;
    WithPriorityIndex(sorted, k1, p);
    WithPriorityIndex(sorted, k2, p);
    WithPriorityBefore(sorted, k1, k2, p);
    SortByPrioritySpec(recs);
    assert WithPriority(sorted, p) == WithPriority(recs, p);
  }
}
