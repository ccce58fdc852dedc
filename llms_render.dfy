// Writing llms.txt: the header, the homepage line, the main sections in a fixed
// order of importance and the "Optional" section, from the groups collected
// by LlmsGenerator.

module LlmsRender {
  import opened Text
  import Urls
  import GeoAudit
  import opened LlmsGenerator

  // ---------------------------------------------------------------------------
  // Defaults

  /** The part of `s` before its first '.', or all of `s`. */
  function BeforeDot(s: string): (r: string)
    ensures StartsWith(s, r) && '.' !in r
  {
    match Find(s, ".")
    case None =>
      assert forall k :: 0 <= k < |s| ==> s[k] != '.' by {
        forall k | 0 <= k < |s|
          ensures s[k] != '.'
        {
          if s[k] == '.' {
            assert StartsWith(s[k..], ".");
          }
        }
      }
      s
    case Some(i) =>
      assert forall k :: 0 <= k < i ==> s[k] != '.' by {
        forall k | 0 <= k < i
          ensures s[k] != '.'
        {
          assert !StartsWith(s[k..], ".");
        }
      }
      s[..i]
  }

  /** `domain.replace("www.", "").split(".")[0].title()`. */
  function DefaultSiteName(domain: string): string {
    Title(BeforeDot(Replace(domain, "www.", "")))
  }

  /** The default site name is a single label of the domain: it holds no dot
      and is as long as the part of the domain before its first dot. */
  lemma DefaultSiteNameNoDot(domain: string)
    ensures var r := DefaultSiteName(domain);
      '.' !in r && |r| == |BeforeDot(Replace(domain, "www.", ""))|
  {
    var s := BeforeDot(Replace(domain, "www.", ""));
    var r := DefaultSiteName(domain);
    forall i | 0 <= i < |s|
      ensures r[i] != '.'
    {
      TitleAt(s, i);
      assert s[i] != '.';
    }
  }

  /** A given (non-empty) site name wins over the default. */
  function SiteNameFor(domain: string, siteName: string): string {
    if siteName != [] then siteName else DefaultSiteName(domain)
  }

  function DescriptionFor(siteName: string, baseUrl: string, description: string): string {
    if description != [] then description
    else "Sito web " + siteName + " disponibile su " + baseUrl
  }

  // ---------------------------------------------------------------------------
  // Python slices

  /** `s[:n]`: the first `n` elements, or all but the last `-n` when `n` is
      negative. */
  function Take<T>(s: seq<T>, n: int): (r: seq<T>)
    ensures |r| <= |s| && r == s[..|r|]
    ensures 0 <= n <= |s| ==> |r| == n
    ensures n > |s| ==> r == s
    ensures n < 0 ==> |r| == if |s| + n >= 0 then |s| + n else 0
  {
    if n >= 0 then (if n <= |s| then s[..n] else s)
    else if |s| + n >= 0 then s[..|s| + n]
    else []
  }

  // ---------------------------------------------------------------------------
  // The lines of llms.txt

  const GeneratedPrefix := "Sito generato automaticamente " + "da GEO Optimizer il "
  const BaseUrlPrefix := "URL base: "
  const HomepagePrefix := "La homepage principale è disponibile su: ["
  const OptionalHeading := "## Optional"
  const OptionalLimit := 5

  function HeaderLines(siteName: string, description: string, baseUrl: string, date: string): seq<string> {
    ["# " + siteName, "", "> " + description, "", GeneratedPrefix + date + ".", BaseUrlPrefix + baseUrl, ""]
  }

  function HomeLine(siteName: string, e: Entry): string {
    HomepagePrefix + siteName + "](" + e.url + ")"
  }

  function ItemLine(e: Entry): string {
    "- [" + e.caption + "](" + e.url + ")"
  }

  function OptionalItemLine(e: Entry, category: string): string {
    ItemLine(e) + ": " + category
  }

  function HomeLinks(siteName: string, items: seq<Entry>): (r: seq<string>)
    ensures |r| == |items|
    decreases |items|
  {
    if items == [] then []
    else HomeLinks(siteName, items[..|items| - 1]) + [HomeLine(siteName, items[|items| - 1])]
  }

  /** The homepage paragraph: a line for the first homepage entry, then a
      blank line; nothing when there is no homepage bucket. */
  function HomeLines(cats: map<string, seq<Entry>>, siteName: string): seq<string> {
    if Homepage in cats then HomeLinks(siteName, Take(cats[Homepage], 1)) + [""] else []
  }

  function ItemLines(items: seq<Entry>): (r: seq<string>)
    ensures |r| == |items|
    decreases |items|
  {
    if items == [] then [] else ItemLines(items[..|items| - 1]) + [ItemLine(items[|items| - 1])]
  }

  function OptionalItemLines(items: seq<Entry>, category: string): (r: seq<string>)
    ensures |r| == |items|
    decreases |items|
  {
    if items == [] then []
    else OptionalItemLines(items[..|items| - 1], category) + [OptionalItemLine(items[|items| - 1], category)]
  }

  /** `[c for c in order if c in cats and c != "_homepage"]`. */
  function Present(cats: map<string, seq<Entry>>, order: seq<string>): (r: seq<string>)
    ensures forall c :: c in r <==> c in order && c in cats && c != Homepage
    ensures |r| <= |order|
  {
    if order == [] then []
    else if order[0] in cats && order[0] != Homepage then [order[0]] + Present(cats, order[1..])
    else Present(cats, order[1..])
  }

  /** The categories of `cs` not in `optional`, in their order. */
  function MainOf(cs: seq<string>, optional: seq<string>): (r: seq<string>)
    ensures forall c :: c in r <==> c in cs && c !in optional
    decreases |cs|
  {
    if cs == [] then []
    else if cs[|cs| - 1] in optional then MainOf(cs[..|cs| - 1], optional)
    else MainOf(cs[..|cs| - 1], optional) + [cs[|cs| - 1]]
  }

  /** The categories of `cs` in `optional`, in their order. */
  function OptionalOf(cs: seq<string>, optional: seq<string>): (r: seq<string>)
    ensures forall c :: c in r <==> c in cs && c in optional
    decreases |cs|
  {
    if cs == [] then []
    else if cs[|cs| - 1] in optional then OptionalOf(cs[..|cs| - 1], optional) + [cs[|cs| - 1]]
    else OptionalOf(cs[..|cs| - 1], optional)
  }

  /** A main section: heading, blank, one line per item, blank; nothing for
      no items. */
  function SectionLines(category: string, items: seq<Entry>): seq<string> {
    if items == [] then [] else ["## " + category, ""] + ItemLines(items) + [""]
  }

  /** The main sections of the first `n` categories of `cs`, each cut to
      `max` items. */
  function MainPrefix(cats: map<string, seq<Entry>>, cs: seq<string>, n: nat, max: int): seq<string>
    requires n <= |cs|
  {
    if n == 0 then []
    else MainPrefix(cats, cs, n - 1, max) + SectionLines(cs[n - 1], Take(Bucket(cats, cs[n - 1]), max))
  }

  function MainLines(cats: map<string, seq<Entry>>, cs: seq<string>, max: int): seq<string> {
    MainPrefix(cats, cs, |cs|, max)
  }

  /** The optional lines of the first `n` categories of `cs`, each cut to
      five items. */
  function OptionalPrefix(cats: map<string, seq<Entry>>, cs: seq<string>, n: nat): seq<string>
    requires n <= |cs|
  {
    if n == 0 then []
    else OptionalPrefix(cats, cs, n - 1) + OptionalItemLines(Take(Bucket(cats, cs[n - 1]), OptionalLimit), cs[n - 1])
  }

  function OptionalBody(cats: map<string, seq<Entry>>, cs: seq<string>): seq<string> {
    OptionalPrefix(cats, cs, |cs|)
  }

  /** The "Optional" section, present exactly when there are optional
      categories. */
  function OptionalLines(cats: map<string, seq<Entry>>, cs: seq<string>): seq<string>
  {
    if cs == [] then [] else [OptionalHeading, ""] + OptionalBody(cats, cs) + [""]
  }

  /** All lines of llms.txt for the collected groups. */
  function Document(cats: map<string, seq<Entry>>, siteName: string, description: string, baseUrl: string,
                    date: string, max: int): seq<string>
  {
    var cs := Present(cats, PriorityOrder);
    HeaderLines(siteName, description, baseUrl, date)
    + HomeLines(cats, siteName)
    + MainLines(cats, MainOf(cs, OptionalCategories), max)
    + OptionalLines(cats, OptionalOf(cs, OptionalCategories))
  }

  /** The groups `generate_llms_txt` collects from the sitemap records. */
  function Grouped(baseUrl: string, recs: seq<UrlRecord>): map<string, seq<Entry>> {
    Collect(Assessed(SortByPriority(recs), baseUrl, Urls.Netloc(baseUrl))).cats
  }

  /** The text `generate_llms_txt` returns. */
  function LlmsTxt(baseUrl: string, recs: seq<UrlRecord>, siteName: string, description: string,
                   date: string, max: int): string
  {
    var site := SiteNameFor(Urls.Netloc(baseUrl), siteName);
    var desc := DescriptionFor(site, baseUrl, description);
    Join("\n", Document(Grouped(baseUrl, recs), site, desc, baseUrl, date, max))
  }

  // ---------------------------------------------------------------------------
  // What the generated file guarantees

  lemma JoinFirst(sep: string, parts: seq<string>)
    requires parts != []
    ensures |parts| == 1 ==> Join(sep, parts) == parts[0]
    ensures |parts| > 1 ==> Join(sep, parts) == parts[0] + sep + Join(sep, parts[1..])
    ensures StartsWith(Join(sep, parts), parts[0])
  {
  }

  /** A file that opens with "# title", a blank line and "> description"
      passes the H1 and description checks of the llms.txt audit. */
  lemma OpeningPassesAudit(lines: seq<string>, title: string, description: string)
    requires |lines| >= 3 && lines[0] == "# " + title && lines[2] == "> " + description
    ensures var r := GeoAudit.AuditLlms(GeoAudit.Response(200, Join("\n", lines)));
      r.found && r.hasH1 && r.hasDescription
  {
    var t := Join("\n", lines);
    var i := ThirdLineAt(lines);
    assert StartsWith(t, "# ") by { assert t[..2] == lines[0][..2]; }
    assert StartsWith(t[i..], "> ") by { assert t[i..][..2] == lines[2][..2]; }
    HeadingAndQuoteFound(t, i);
  }

  /** Where the third line of a joined text begins. */
  lemma ThirdLineAt(lines: seq<string>) returns (i: nat)
    requires |lines| >= 3
    ensures var t := Join("\n", lines);
      0 < i <= |t| && t[i - 1] == '\n' && StartsWith(t[i..], lines[2]) && StartsWith(t, lines[0])
  {
    var t := Join("\n", lines);
    JoinFirst("\n", lines);
    JoinFirst("\n", lines[1..]);
    JoinFirst("\n", lines[2..]);
    var rest := Join("\n", lines[2..]);
    assert t == lines[0] + "\n" + (lines[1] + "\n" + rest);
    assert lines[1] + "\n" + rest == lines[1] + ("\n" + rest);
    i := |lines[0]| + |lines[1]| + 2;
    assert t[i..] == rest;
    assert t[i - 1] == '\n';
  }

  lemma HeadingAndQuoteFound(t: string, i: nat)
    requires StartsWith(t, "# ") && 0 < i <= |t| && t[i - 1] == '\n' && StartsWith(t[i..], "> ")
    ensures var r := GeoAudit.AuditLlms(GeoAudit.Response(200, t));
      r.found && r.hasH1 && r.hasDescription
  {
    var j := LineStartsWith(t, "> ", i);
    assert t[0..] == t;
    var h := LineStartsWith(t, "# ", 0);
  }

  /** Whatever the groups, the document passes the audit's H1 and
      description checks. */
  lemma DocumentPassesAudit(cats: map<string, seq<Entry>>, siteName: string, description: string,
                            baseUrl: string, date: string, max: int)
    ensures var r := GeoAudit.AuditLlms(GeoAudit.Response(200, Join("\n", Document(cats, siteName, description, baseUrl, date, max))));
      r.found && r.hasH1 && r.hasDescription
  {
    var lines := Document(cats, siteName, description, baseUrl, date, max);
    assert lines[..7] == HeaderLines(siteName, description, baseUrl, date);
    OpeningPassesAudit(lines, siteName, description);
  }

  /** The generated llms.txt passes the audit's H1 and description checks. */
  lemma GeneratedPassesAudit(baseUrl: string, recs: seq<UrlRecord>, siteName: string, description: string,
                             date: string, max: int)
    ensures var r := GeoAudit.AuditLlms(GeoAudit.Response(200, LlmsTxt(baseUrl, recs, siteName, description, date, max)));
      r.found && r.hasH1 && r.hasDescription
  {
    var site := SiteNameFor(Urls.Netloc(baseUrl), siteName);
    DocumentPassesAudit(Grouped(baseUrl, recs), site, DescriptionFor(site, baseUrl, description), baseUrl, date, max);
  }

  /** Every key is the homepage marker or a category of `priority_order`. */
  predicate KnownKeys(cats: map<string, seq<Entry>>) {
    forall c :: c in cats ==> c == Homepage || c in PriorityOrder
  }

  /** A key of the collected groups is the category of a URL. */
  lemma GroupedKeyKnown(baseUrl: string, recs: seq<UrlRecord>, c: string)
    requires c in Grouped(baseUrl, recs)
    ensures c == Homepage || c in PriorityOrder
  {
    var sorted := SortByPriority(recs);
    var domain := Urls.Netloc(baseUrl);
    var cands := Assessed(sorted, baseUrl, domain);
    var cats: map<string, seq<Entry>> := Collect(cands).cats;
    CollectWellGrouped(cands);
    var k := CollectOrigin(cands, c, 0);
    var u := cats[c][0].url;
    assert cands[k].category == c;
    AssessKept(baseUrl, domain, sorted[k]);
    CategoryKnown(u);
  }

  /** The groups collected from the records have known keys. */
  lemma GroupedKnown(baseUrl: string, recs: seq<UrlRecord>)
    ensures KnownKeys(Grouped(baseUrl, recs))
  {
    forall c | c in Grouped(baseUrl, recs)
      ensures c == Homepage || c in PriorityOrder
    {
      GroupedKeyKnown(baseUrl, recs, c);
    }
  }

  /** The groups collected from the records hold no URL twice. */
  lemma GroupedUnique(baseUrl: string, recs: seq<UrlRecord>)
    ensures UrlsUnique(Grouped(baseUrl, recs))
  {
    CollectRecords(SortByPriority(recs), baseUrl, Urls.Netloc(baseUrl));
  }

  /** Every collected category except the homepage marker gets a place in
      the file, main or optional: the `remaining` list, whose sort is not
      modelled, is always empty. */
  lemma EveryCategoryPlaced(baseUrl: string, recs: seq<UrlRecord>)
    ensures var cats := Grouped(baseUrl, recs);
      forall c :: c in cats && c != Homepage ==> c in Present(cats, PriorityOrder)
  {
    GroupedKnown(baseUrl, recs);
  }

  /** The entries listed for `cs`, each category cut to its first `n`. */
  function Listed(cats: map<string, seq<Entry>>, cs: seq<string>, n: int): seq<Entry>
    decreases |cs|
  {
    if cs == [] then []
    else Listed(cats, cs[..|cs| - 1], n) + Take(Bucket(cats, cs[|cs| - 1]), n)
  }

  predicate DistinctUrls(es: seq<Entry>) {
    forall i, j :: 0 <= i < j < |es| ==> es[i].url != es[j].url
  }

  predicate DistinctNames(cs: seq<string>) {
    forall i, j :: 0 <= i < j < |cs| ==> cs[i] != cs[j]
  }

  /** Where a listed entry comes from. */
  lemma {:induction false} ListedFrom(cats: map<string, seq<Entry>>, cs: seq<string>, n: int, k: int)
    returns (c: string, i: int)
    requires 0 <= k < |Listed(cats, cs, n)|
    ensures c in cs && c in cats && 0 <= i < |cats[c]| && Listed(cats, cs, n)[k] == cats[c][i]
    decreases |cs|
  {
    var init := cs[..|cs| - 1];
    var front := Listed(cats, init, n);
    if k < |front| {
      c, i := ListedFrom(cats, init, n, k);
    } else {
      c, i := cs[|cs| - 1], k - |front|;
    }
  }

  /** The entries listed for distinct categories have distinct URLs. */
  lemma {:induction false} ListedDistinct(cats: map<string, seq<Entry>>, cs: seq<string>, n: int)
    requires DistinctNames(cs) && UrlsUnique(cats)
    ensures DistinctUrls(Listed(cats, cs, n))
    decreases |cs|
  {
    if cs != [] {
      var init := cs[..|cs| - 1];
      var last := cs[|cs| - 1];
      ListedDistinct(cats, init, n);
      var front := Listed(cats, init, n);
      var back := Take(Bucket(cats, last), n);
      var all := Listed(cats, cs, n);
      assert all == front + back;
      forall i, j | 0 <= i < j < |all|
        ensures all[i].url != all[j].url
      {
        if j >= |front| {
          assert last in cats;
          if i >= |front| {
            assert all[i] == cats[last][i - |front|] && all[j] == cats[last][j - |front|];
          } else {
            var c, i' := ListedFrom(cats, init, n, i);
            assert c != last;
            assert all[j] == cats[last][j - |front|];
          }
        }
      }
    }
  }

  lemma ListedApartAt(cats: map<string, seq<Entry>>, cs: seq<string>, n: int, ds: seq<string>, m: int, i: int, j: int)
    requires (forall c :: c in cs ==> c !in ds) && UrlsUnique(cats)
    requires 0 <= i < |Listed(cats, cs, n)| && 0 <= j < |Listed(cats, ds, m)|
    ensures Listed(cats, cs, n)[i].url != Listed(cats, ds, m)[j].url
  {
    var c, i' := ListedFrom(cats, cs, n, i);
    var d, j' := ListedFrom(cats, ds, m, j);
    assert c != d;
  }

  /** Two lists drawn from disjoint categories have no URL in common. */
  lemma ListedApart(cats: map<string, seq<Entry>>, cs: seq<string>, n: int, ds: seq<string>, m: int)
    requires (forall c :: c in cs ==> c !in ds) && UrlsUnique(cats)
    requires DistinctUrls(Listed(cats, cs, n)) && DistinctUrls(Listed(cats, ds, m))
    ensures DistinctUrls(Listed(cats, cs, n) + Listed(cats, ds, m))
  {
    var a := Listed(cats, cs, n);
    var b := Listed(cats, ds, m);
    forall i, j | 0 <= i < |a| && 0 <= j < |b|
      ensures a[i].url != b[j].url
    {
      ListedApartAt(cats, cs, n, ds, m, i, j);
    }
    ConcatDistinct(a, b);
  }

  /** Two lists without a repeated URL and without a URL in common make a
      list without a repeated URL. */
  lemma ConcatDistinct(a: seq<Entry>, b: seq<Entry>)
    requires DistinctUrls(a) && DistinctUrls(b)
    requires forall i, j :: 0 <= i < |a| && 0 <= j < |b| ==> a[i].url != b[j].url
    ensures DistinctUrls(a + b)
  {
    var all := a + b;
    forall i, j | 0 <= i < j < |all|
      ensures all[i].url != all[j].url
    {
      if j < |a| {
        assert all[i] == a[i] && all[j] == a[j];
      } else if i < |a| {
        assert all[i] == a[i] && all[j] == b[j - |a|];
      } else {
        assert all[i] == b[i - |a|] && all[j] == b[j - |a|];
      }
    }
  }

  lemma {:induction false} PresentDistinct(cats: map<string, seq<Entry>>, order: seq<string>)
    requires DistinctNames(order)
    ensures DistinctNames(Present(cats, order))
  {
    if order != [] {
      PresentDistinct(cats, order[1..]);
    }
  }

  lemma {:induction false} MainDistinct(cs: seq<string>, optional: seq<string>)
    requires DistinctNames(cs)
    ensures DistinctNames(MainOf(cs, optional)) && DistinctNames(OptionalOf(cs, optional))
    decreases |cs|
  {
    if cs != [] {
      MainDistinct(cs[..|cs| - 1], optional);
    }
  }

  /** `x` occurs in `s` at some position before an occurrence of `y`. */
  ghost predicate Precedes(s: seq<string>, x: string, y: string) {
    exists a, b :: 0 <= a < b < |s| && s[a] == x && s[b] == y
  }

  /** `r` lists some elements of `s` in the order `s` has them. */
  ghost predicate KeepsOrder(r: seq<string>, s: seq<string>) {
    forall i, j :: 0 <= i < j < |r| ==> Precedes(s, r[i], r[j])
  }

  /** Where two elements of an order-keeping list sit in the list they come
      from. */
  lemma OrderAt(r: seq<string>, s: seq<string>, i: int, j: int) returns (a: int, b: int)
    requires KeepsOrder(r, s) && 0 <= i < j < |r|
    ensures 0 <= a < b < |s| && s[a] == r[i] && s[b] == r[j]
  {
    assert Precedes(s, r[i], r[j]);
    a, b :| 0 <= a < b < |s| && s[a] == r[i] && s[b] == r[j];
  }

  /** `important_categories` follows `priority_order`. */
  lemma {:induction false} PresentOrdered(cats: map<string, seq<Entry>>, order: seq<string>)
    ensures KeepsOrder(Present(cats, order), order)
    decreases |order|
  {
    if order != [] {
      var tail := order[1..];
      var rest := Present(cats, tail);
      PresentOrdered(cats, tail);
      var r := Present(cats, order);
      forall i, j | 0 <= i < j < |r|
        ensures Precedes(order, r[i], r[j])
      {
        if order[0] in cats && order[0] != Homepage {
          assert r == [order[0]] + rest;
          if i == 0 {
            assert r[j] == rest[j - 1] && rest[j - 1] in rest;
            var b :| 0 <= b < |tail| && tail[b] == r[j];
            assert order[0] == r[i] && order[b + 1] == r[j];
          } else {
            assert r[i] == rest[i - 1] && r[j] == rest[j - 1];
            var a, b := OrderAt(rest, tail, i - 1, j - 1);
            assert order[a + 1] == r[i] && order[b + 1] == r[j];
          }
        } else {
          var a, b := OrderAt(rest, tail, i, j);
          assert order[a + 1] == r[i] && order[b + 1] == r[j];
        }
      }
    }
  }

  /** Keeping the order of `s` survives one more element of `s`, kept or
      not. */
  lemma KeepsOrderSnoc(r: seq<string>, s: seq<string>, x: string)
    requires KeepsOrder(r, s) && forall c :: c in r ==> c in s
    ensures KeepsOrder(r, s + [x]) && KeepsOrder(r + [x], s + [x])
  {
    var s' := s + [x];
    forall i, j | 0 <= i < j < |r|
      ensures Precedes(s', r[i], r[j])
    {
      var a, b := OrderAt(r, s, i, j);
      assert s'[a] == s[a] && s'[b] == s[b];
    }
    var r' := r + [x];
    forall i, j | 0 <= i < j < |r'|
      ensures Precedes(s', r'[i], r'[j])
    {
      if j < |r| {
        var a, b := OrderAt(r, s, i, j);
        assert s'[a] == r'[i] && s'[b] == r'[j];
      } else {
        assert r'[i] == r[i] && r[i] in r;
        var a :| 0 <= a < |s| && s[a] == r[i];
        assert s'[a] == r'[i] && s'[|s|] == r'[j];
      }
    }
  }

  /** The main and the optional categories keep the order of the list they
      are split from. */
  lemma {:induction false} SplitOrdered(cs: seq<string>, optional: seq<string>)
    ensures KeepsOrder(MainOf(cs, optional), cs) && KeepsOrder(OptionalOf(cs, optional), cs)
    decreases |cs|
  {
    if cs != [] {
      var init := cs[..|cs| - 1];
      var last := cs[|cs| - 1];
      SplitOrdered(init, optional);
      assert cs == init + [last];
      KeepsOrderSnoc(MainOf(init, optional), init, last);
      KeepsOrderSnoc(OptionalOf(init, optional), init, last);
    }
  }

  lemma PriorityOrderDistinct()
    ensures DistinctNames(PriorityOrder)
  {
    var po := PriorityOrder;
    forall i, j | 0 <= i < j < |po| ensures po[i] != po[j] {
      NameApart(po, i, j);
    }
  }

  lemma NameApart(po: seq<string>, i: int, j: int)
    requires po == PriorityOrder && 0 <= i < j < |po|
    ensures po[i] != po[j]
  {
    assert |po[i]| != |po[j]| || po[i][0] != po[j][0];
  }

  // ---------------------------------------------------------------------------
  // The link lines of the file

  /** The lines that list a page: those starting with "- [". */
  function LinkLines(lines: seq<string>): seq<string>
    decreases |lines|
  {
    if lines == [] then []
    else LinkLines(lines[..|lines| - 1]) + (if StartsWith(lines[|lines| - 1], "- [") then [lines[|lines| - 1]] else [])
  }

  /** `lines` shows the entries `es`, one per line: line `k` starts with the
      link `- [label](url)` of entry `k`. */
  predicate Shows(lines: seq<string>, es: seq<Entry>) {
    |lines| == |es| && forall k :: 0 <= k < |lines| ==> StartsWith(lines[k], ItemLine(es[k]))
  }

  lemma {:induction false} LinkLinesConcat(a: seq<string>, b: seq<string>)
    ensures LinkLines(a + b) == LinkLines(a) + LinkLines(b)
    decreases |b|
  {
    if b == [] {
      assert a + b == a;
    } else {
      LinkLinesConcat(a, b[..|b| - 1]);
      assert (a + b)[..|a + b| - 1] == a + b[..|b| - 1];
    }
  }

  /** Lines none of which starts with "- [" hold no link line. */
  lemma {:induction false} NoLinkLines(lines: seq<string>)
    requires forall k :: 0 <= k < |lines| ==> |lines[k]| == 0 || lines[k][0] != '-'
    ensures LinkLines(lines) == []
    decreases |lines|
  {
    if lines != [] {
      NoLinkLines(lines[..|lines| - 1]);
    }
  }

  /** Lines that all start with "- [" are all link lines. */
  lemma {:induction false} AllLinkLines(lines: seq<string>)
    requires forall k :: 0 <= k < |lines| ==> StartsWith(lines[k], "- [")
    ensures LinkLines(lines) == lines
    decreases |lines|
  {
    if lines != [] {
      AllLinkLines(lines[..|lines| - 1]);
    }
  }

  /** Lines without links around a block leave the block's link lines. */
  lemma LinkLinesAround(a: seq<string>, b: seq<string>, c: seq<string>)
    requires LinkLines(a) == [] && LinkLines(c) == []
    ensures LinkLines(a + b + c) == LinkLines(b)
  {
    LinkLinesConcat(a, b);
    LinkLinesConcat(a + b, c);
  }

  lemma ShowsConcat(a: seq<string>, es: seq<Entry>, b: seq<string>, fs: seq<Entry>)
    requires Shows(a, es) && Shows(b, fs)
    ensures Shows(a + b, es + fs)
  {
    forall k | 0 <= k < |a + b|
      ensures StartsWith((a + b)[k], ItemLine((es + fs)[k]))
    {
      if k < |a| {
        assert (a + b)[k] == a[k] && (es + fs)[k] == es[k];
      } else {
        assert (a + b)[k] == b[k - |a|] && (es + fs)[k] == fs[k - |a|];
      }
    }
  }

  lemma {:induction false} ItemLinesConcat(a: seq<Entry>, b: seq<Entry>)
    ensures ItemLines(a + b) == ItemLines(a) + ItemLines(b)
    decreases |b|
  {
    if b == [] {
      assert a + b == a;
    } else {
      ItemLinesConcat(a, b[..|b| - 1]);
      assert (a + b)[..|a + b| - 1] == a + b[..|b| - 1];
    }
  }

  /** A section's list shows its items, and is all link lines. */
  lemma ItemLinesShow(items: seq<Entry>)
    ensures Shows(ItemLines(items), items) && LinkLines(ItemLines(items)) == ItemLines(items)
  {
    var ls := ItemLines(items);
    forall k | 0 <= k < |ls|
      ensures StartsWith(ls[k], ItemLine(items[k])) && StartsWith(ls[k], "- [")
    {
      ItemLinesAt(items, k);
    }
    AllLinkLines(ls);
  }

  /** An optional category's list shows its items, and is all link lines. */
  lemma OptionalItemLinesShow(items: seq<Entry>, category: string)
    ensures Shows(OptionalItemLines(items, category), items)
    ensures LinkLines(OptionalItemLines(items, category)) == OptionalItemLines(items, category)
  {
    var ls := OptionalItemLines(items, category);
    forall k | 0 <= k < |ls|
      ensures StartsWith(ls[k], ItemLine(items[k])) && StartsWith(ls[k], "- [")
    {
      OptionalItemLinesAt(items, category, k);
      assert ls[k][..|ItemLine(items[k])|] == ItemLine(items[k]);
    }
    AllLinkLines(ls);
  }

  /** The link lines of a main section are its item lines. */
  lemma SectionLinks(category: string, items: seq<Entry>)
    ensures LinkLines(SectionLines(category, items)) == ItemLines(items)
  {
    if items != [] {
      var head: seq<string> := ["## " + category, ""];
      var body := ItemLines(items);
      assert SectionLines(category, items) == head + body + [""];
      assert ("## " + category)[0] == '#';
      NoLinkLines(head);
      NoLinkLines([""]);
      ItemLinesShow(items);
      LinkLinesAround(head, body, [""]);
    }
  }

  lemma ListedSnoc(cats: map<string, seq<Entry>>, cs: seq<string>, n: nat, m: int)
    requires n < |cs|
    ensures Listed(cats, cs[..n + 1], m) == Listed(cats, cs[..n], m) + Take(Bucket(cats, cs[n]), m)
  {
    assert cs[..n + 1][..n] == cs[..n];
  }

  /** The link lines of the first `n` main sections are the item lines of
      the entries listed for their categories. */
  lemma {:induction false} MainPrefixLinks(cats: map<string, seq<Entry>>, cs: seq<string>, n: nat, max: int)
    requires n <= |cs|
    ensures LinkLines(MainPrefix(cats, cs, n, max)) == ItemLines(Listed(cats, cs[..n], max))
  {
    if n > 0 {
      var items := Take(Bucket(cats, cs[n - 1]), max);
      MainPrefixLinks(cats, cs, n - 1, max);
      LinkLinesConcat(MainPrefix(cats, cs, n - 1, max), SectionLines(cs[n - 1], items));
      SectionLinks(cs[n - 1], items);
      ListedSnoc(cats, cs, n - 1, max);
      ItemLinesConcat(Listed(cats, cs[..n - 1], max), items);
    }
  }

  /** The first `n` optional categories' lines show the entries listed for
      them. */
  lemma {:induction false} OptionalPrefixShows(cats: map<string, seq<Entry>>, cs: seq<string>, n: nat)
    requires n <= |cs|
    ensures Shows(OptionalPrefix(cats, cs, n), Listed(cats, cs[..n], OptionalLimit))
  {
    if n > 0 {
      var items := Take(Bucket(cats, cs[n - 1]), OptionalLimit);
      OptionalPrefixShows(cats, cs, n - 1);
      OptionalItemLinesShow(items, cs[n - 1]);
      ShowsConcat(OptionalPrefix(cats, cs, n - 1), Listed(cats, cs[..n - 1], OptionalLimit),
                  OptionalItemLines(items, cs[n - 1]), items);
      ListedSnoc(cats, cs, n - 1, OptionalLimit);
    } else {
      assert cs[..0] == [];
    }
  }

  /** The optional categories' lines are all link lines. */
  lemma {:induction false} OptionalPrefixLinks(cats: map<string, seq<Entry>>, cs: seq<string>, n: nat)
    requires n <= |cs|
    ensures LinkLines(OptionalPrefix(cats, cs, n)) == OptionalPrefix(cats, cs, n)
  {
    if n > 0 {
      var items := Take(Bucket(cats, cs[n - 1]), OptionalLimit);
      OptionalPrefixLinks(cats, cs, n - 1);
      OptionalItemLinesShow(items, cs[n - 1]);
      LinkLinesConcat(OptionalPrefix(cats, cs, n - 1), OptionalItemLines(items, cs[n - 1]));
    }
  }

  /** The "Optional" section's link lines show the entries listed for the
      optional categories. */
  lemma OptionalLinks(cats: map<string, seq<Entry>>, cs: seq<string>)
    ensures Shows(LinkLines(OptionalLines(cats, cs)), Listed(cats, cs, OptionalLimit))
  {
    OptionalPrefixShows(cats, cs, |cs|);
    OptionalPrefixLinks(cats, cs, |cs|);
    assert cs[..|cs|] == cs;
    if cs == [] {
      assert LinkLines([]) == [];
    } else {
      var head: seq<string> := [OptionalHeading, ""];
      NoLinkLines(head);
      NoLinkLines([""]);
      LinkLinesAround(head, OptionalBody(cats, cs), [""]);
    }
  }

  /** The header and the homepage paragraph hold no link line. */
  lemma OpeningNoLinks(cats: map<string, seq<Entry>>, siteName: string, description: string, baseUrl: string,
                       date: string)
    ensures LinkLines(HeaderLines(siteName, description, baseUrl, date) + HomeLines(cats, siteName)) == []
  {
    var head := HeaderLines(siteName, description, baseUrl, date);
    assert ("# " + siteName)[0] == '#' && ("> " + description)[0] == '>';
    assert GeneratedPrefix[0] == 'S' && BaseUrlPrefix[0] == 'U';
    assert (GeneratedPrefix + date + ".")[0] == 'S' && (BaseUrlPrefix + baseUrl)[0] == 'U';
    NoLinkLines(head);
    var home := HomeLines(cats, siteName);
    if Homepage in cats {
      var items := Take(cats[Homepage], 1);
      assert home == HomeLinks(siteName, items) + [""];
      forall k | 0 <= k < |home|
        ensures |home[k]| == 0 || home[k][0] != '-'
      {
        if k < |items| {
          HomeLinksAt(siteName, items, k);
          assert HomepagePrefix[0] == 'L';
          assert home[k] == HomeLine(siteName, items[k]) && HomeLine(siteName, items[k])[0] == 'L';
        }
      }
    }
    NoLinkLines(home);
    LinkLinesConcat(head, home);
  }

  /** The link lines of the document are those of its main sections, then
      those of its "Optional" section. */
  lemma DocumentLinkParts(cats: map<string, seq<Entry>>, siteName: string, description: string, baseUrl: string,
                          date: string, max: int)
    ensures var cs := Present(cats, PriorityOrder);
      LinkLines(Document(cats, siteName, description, baseUrl, date, max))
      == LinkLines(MainLines(cats, MainOf(cs, OptionalCategories), max))
         + LinkLines(OptionalLines(cats, OptionalOf(cs, OptionalCategories)))
  {
    var cs := Present(cats, PriorityOrder);
    var opening := HeaderLines(siteName, description, baseUrl, date) + HomeLines(cats, siteName);
    var mainLines := MainLines(cats, MainOf(cs, OptionalCategories), max);
    var optLines := OptionalLines(cats, OptionalOf(cs, OptionalCategories));
    assert Document(cats, siteName, description, baseUrl, date, max) == opening + mainLines + optLines;
    OpeningNoLinks(cats, siteName, description, baseUrl, date);
    LinkLinesAfter(opening, mainLines, optLines);
  }

  /** Lines without links before two blocks leave the blocks' link lines. */
  lemma LinkLinesAfter(a: seq<string>, b: seq<string>, c: seq<string>)
    requires LinkLines(a) == []
    ensures LinkLines(a + b + c) == LinkLines(b) + LinkLines(c)
  {
    LinkLinesConcat(a, b);
    LinkLinesConcat(a + b, c);
  }

  /** The link lines of the document show, one per line, the entries listed
      for the main sections, then those listed in the "Optional" section. */
  lemma DocumentLinks(cats: map<string, seq<Entry>>, siteName: string, description: string, baseUrl: string,
                      date: string, max: int)
    ensures var cs := Present(cats, PriorityOrder);
      Shows(LinkLines(Document(cats, siteName, description, baseUrl, date, max)),
            Listed(cats, MainOf(cs, OptionalCategories), max) + Listed(cats, OptionalOf(cs, OptionalCategories), OptionalLimit))
  {
    var cs := Present(cats, PriorityOrder);
    var main := MainOf(cs, OptionalCategories);
    var opt := OptionalOf(cs, OptionalCategories);
    DocumentLinkParts(cats, siteName, description, baseUrl, date, max);
    MainPrefixLinks(cats, main, |main|, max);
    assert main[..|main|] == main;
    ItemLinesShow(Listed(cats, main, max));
    OptionalLinks(cats, opt);
    ShowsConcat(LinkLines(MainLines(cats, main, max)), Listed(cats, main, max),
                LinkLines(OptionalLines(cats, opt)), Listed(cats, opt, OptionalLimit));
  }

  /** No listed entry has the homepage line's URL. */
  lemma HomeApart(cats: map<string, seq<Entry>>, max: int)
    requires UrlsUnique(cats) && Homepage in cats && cats[Homepage] != []
    ensures var cs := Present(cats, PriorityOrder);
      var es := Listed(cats, MainOf(cs, OptionalCategories), max) + Listed(cats, OptionalOf(cs, OptionalCategories), OptionalLimit);
      forall k :: 0 <= k < |es| ==> es[k].url != cats[Homepage][0].url
  {
    var cs := Present(cats, PriorityOrder);
    var main: seq<Entry> := Listed(cats, MainOf(cs, OptionalCategories), max);
    var opt: seq<Entry> := Listed(cats, OptionalOf(cs, OptionalCategories), OptionalLimit);
    forall k | 0 <= k < |main + opt|
      ensures (main + opt)[k].url != cats[Homepage][0].url
    {
      if k < |main| {
        var c, i := ListedFrom(cats, MainOf(cs, OptionalCategories), max, k);
        assert (main + opt)[k] == cats[c][i] && c != Homepage;
      } else {
        var c, i := ListedFrom(cats, OptionalOf(cs, OptionalCategories), OptionalLimit, k - |main|);
        assert (main + opt)[k] == cats[c][i] && c != Homepage;
      }
    }
  }

  /** For groups without a URL twice, the link lines of the document show
      entries with pairwise different URLs, none of them the homepage's. */
  lemma DocumentDistinct(cats: map<string, seq<Entry>>, siteName: string, description: string, baseUrl: string,
                         date: string, max: int)
    requires UrlsUnique(cats)
    ensures var cs := Present(cats, PriorityOrder);
      var es := Listed(cats, MainOf(cs, OptionalCategories), max) + Listed(cats, OptionalOf(cs, OptionalCategories), OptionalLimit);
      Shows(LinkLines(Document(cats, siteName, description, baseUrl, date, max)), es)
      && DistinctUrls(es)
      && (Homepage in cats && cats[Homepage] != [] ==> forall k :: 0 <= k < |es| ==> es[k].url != cats[Homepage][0].url)
  {
    var cs := Present(cats, PriorityOrder);
    PriorityOrderDistinct();
    PresentDistinct(cats, PriorityOrder);
    MainDistinct(cs, OptionalCategories);
    var main := MainOf(cs, OptionalCategories);
    var opt := OptionalOf(cs, OptionalCategories);
    ListedDistinct(cats, main, max);
    ListedDistinct(cats, opt, OptionalLimit);
    ListedApart(cats, main, max, opt, OptionalLimit);
    DocumentLinks(cats, siteName, description, baseUrl, date, max);
    if Homepage in cats && cats[Homepage] != [] {
      HomeApart(cats, max);
    }
  }

  /** The generated llms.txt is its line list joined by "\n"; in that list
      every listed page has one entry starting with "- [", with no URL
      twice. */
  lemma GeneratedDistinct(baseUrl: string, recs: seq<UrlRecord>, siteName: string, description: string,
                          date: string, max: int)
    ensures var cats := Grouped(baseUrl, recs);
      var site := SiteNameFor(Urls.Netloc(baseUrl), siteName);
      var lines := Document(cats, site, DescriptionFor(site, baseUrl, description), baseUrl, date, max);
      var cs := Present(cats, PriorityOrder);
      var es := Listed(cats, MainOf(cs, OptionalCategories), max) + Listed(cats, OptionalOf(cs, OptionalCategories), OptionalLimit);
      LlmsTxt(baseUrl, recs, siteName, description, date, max) == Join("\n", lines)
      && Shows(LinkLines(lines), es) && DistinctUrls(es)
  {
    var site := SiteNameFor(Urls.Netloc(baseUrl), siteName);
    GroupedUnique(baseUrl, recs);
    DocumentDistinct(Grouped(baseUrl, recs), site, DescriptionFor(site, baseUrl, description), baseUrl, date, max);
  }

  /** Line `i` of a main section's list is the link line of item `i`. */
  lemma {:induction false} ItemLinesAt(items: seq<Entry>, i: int)
    requires 0 <= i < |items|
    ensures ItemLines(items)[i] == ItemLine(items[i])
    decreases |items|
  {
    if i < |items| - 1 {
      ItemLinesAt(items[..|items| - 1], i);
    }
  }

  /** Line `i` of an optional category's list is item `i`'s link line
      followed by its category. */
  lemma {:induction false} OptionalItemLinesAt(items: seq<Entry>, category: string, i: int)
    requires 0 <= i < |items|
    ensures OptionalItemLines(items, category)[i] == ItemLine(items[i]) + ": " + category
    decreases |items|
  {
    if i < |items| - 1 {
      OptionalItemLinesAt(items[..|items| - 1], category, i);
    }
  }

  /** Line `i` of the homepage paragraph is the homepage line of item `i`. */
  lemma {:induction false} HomeLinksAt(siteName: string, items: seq<Entry>, i: int)
    requires 0 <= i < |items|
    ensures HomeLinks(siteName, items)[i] == HomeLine(siteName, items[i])
    decreases |items|
  {
    if i < |items| - 1 {
      HomeLinksAt(siteName, items[..|items| - 1], i);
    }
  }

  /** All main sections together are no longer than `max + 3` lines per
      category. */
  lemma MainLinesBound(cats: map<string, seq<Entry>>, cs: seq<string>, max: int)
    requires max >= 0
    ensures |MainLines(cats, cs, max)| <= |cs| * (max + 3)
  {
    MainPrefixBound(cats, cs, |cs|, max);
  }

  lemma {:induction false} MainPrefixBound(cats: map<string, seq<Entry>>, cs: seq<string>, n: nat, max: int)
    requires max >= 0 && n <= |cs|
    ensures |MainPrefix(cats, cs, n, max)| <= n * (max + 3)
  {
    if n > 0 {
      MainPrefixBound(cats, cs, n - 1, max);
      SectionBound(cs[n - 1], Bucket(cats, cs[n - 1]), max);
      MulStep(n, max + 3);
    }
  }

  lemma SectionBound(category: string, items: seq<Entry>, max: int)
    requires max >= 0
    ensures |SectionLines(category, Take(items, max))| <= max + 3
  {
  }

  lemma MulStep(n: int, k: int)
    requires n >= 1
    ensures (n - 1) * k + k == n * k
  {
  }

  /** The Optional body is at most five lines per optional category. */
  lemma OptionalBodyBound(cats: map<string, seq<Entry>>, cs: seq<string>)
    ensures |OptionalBody(cats, cs)| <= |cs| * OptionalLimit
  {
    OptionalPrefixBound(cats, cs, |cs|);
  }

  lemma {:induction false} OptionalPrefixBound(cats: map<string, seq<Entry>>, cs: seq<string>, n: nat)
    requires n <= |cs|
    ensures |OptionalPrefix(cats, cs, n)| <= n * OptionalLimit
  {
    if n > 0 {
      OptionalPrefixBound(cats, cs, n - 1);
    }
  }

  lemma {:induction false} MainPrefixGrows(cats: map<string, seq<Entry>>, cs: seq<string>, n: nat, m: nat, max: int)
    requires n <= m <= |cs|
    ensures |MainPrefix(cats, cs, n, max)| <= |MainPrefix(cats, cs, m, max)|
    ensures MainPrefix(cats, cs, m, max)[..|MainPrefix(cats, cs, n, max)|] == MainPrefix(cats, cs, n, max)
    decreases m
  {
    if n < m {
      MainPrefixGrows(cats, cs, n, m - 1, max);
      var p := MainPrefix(cats, cs, m - 1, max);
      var sec := SectionLines(cs[m - 1], Take(Bucket(cats, cs[m - 1]), max));
      assert MainPrefix(cats, cs, m, max) == p + sec;
      assert (p + sec)[..|MainPrefix(cats, cs, n, max)|] == p[..|MainPrefix(cats, cs, n, max)|];
    }
  }

  /** The section of category `k` sits in the main part of the file, after
      the sections before it; it opens with its heading and lists at most
      `max` pages. */
  lemma MainSectionAt(cats: map<string, seq<Entry>>, cs: seq<string>, max: int, k: int)
    requires 0 <= k < |cs|
    ensures var sec := SectionLines(cs[k], Take(Bucket(cats, cs[k]), max));
      var p := MainPrefix(cats, cs, k, max);
      var m := MainLines(cats, cs, max);
      |p| + |sec| <= |m| && m[..|p| + |sec|] == p + sec
      && (sec != [] ==> sec[0] == "## " + cs[k])
      && (max >= 0 ==> |LinkLines(sec)| <= max)
  {
    MainSliceAt(cats, cs, max, k);
    SectionLinkCount(cs[k], Bucket(cats, cs[k]), max);
  }

  lemma MainSliceAt(cats: map<string, seq<Entry>>, cs: seq<string>, max: int, k: int)
    requires 0 <= k < |cs|
    ensures var sec := SectionLines(cs[k], Take(Bucket(cats, cs[k]), max));
      var p := MainPrefix(cats, cs, k, max);
      var m := MainLines(cats, cs, max);
      |p| + |sec| <= |m| && m[..|p| + |sec|] == p + sec
  {
    MainPrefixGrows(cats, cs, k + 1, |cs|, max);
    MainPrefixNext(cats, cs, k, max);
    PrefixThenBlock(MainLines(cats, cs, max), MainPrefix(cats, cs, k + 1, max), MainPrefix(cats, cs, k, max),
                    SectionLines(cs[k], Take(Bucket(cats, cs[k]), max)));
  }

  lemma MainPrefixNext(cats: map<string, seq<Entry>>, cs: seq<string>, k: nat, max: int)
    requires k < |cs|
    ensures MainPrefix(cats, cs, k + 1, max) == MainPrefix(cats, cs, k, max) + SectionLines(cs[k], Take(Bucket(cats, cs[k]), max))
  {
  }

  /** A prefix of `m` made of `p` and then `sec`. */
  lemma PrefixThenBlock<T>(m: seq<T>, q: seq<T>, p: seq<T>, sec: seq<T>)
    requires |q| <= |m| && m[..|q|] == q && q == p + sec
    ensures |p| + |sec| <= |m| && m[..|p| + |sec|] == p + sec
  {
  }

  /** A section cut to `max` items opens with its heading and has at most
      `max` link lines. */
  lemma SectionLinkCount(category: string, bucket: seq<Entry>, max: int)
    ensures var sec := SectionLines(category, Take(bucket, max));
      (sec != [] ==> sec[0] == "## " + category) && (max >= 0 ==> |LinkLines(sec)| <= max)
  {
    SectionLinks(category, Take(bucket, max));
  }

  lemma {:induction false} OptionalPrefixGrows(cats: map<string, seq<Entry>>, cs: seq<string>, n: nat, m: nat)
    requires n <= m <= |cs|
    ensures |OptionalPrefix(cats, cs, n)| <= |OptionalPrefix(cats, cs, m)|
    ensures OptionalPrefix(cats, cs, m)[..|OptionalPrefix(cats, cs, n)|] == OptionalPrefix(cats, cs, n)
    decreases m
  {
    if n < m {
      OptionalPrefixGrows(cats, cs, n, m - 1);
      var p := OptionalPrefix(cats, cs, m - 1);
      var part := OptionalItemLines(Take(Bucket(cats, cs[m - 1]), OptionalLimit), cs[m - 1]);
      assert OptionalPrefix(cats, cs, m) == p + part;
      assert (p + part)[..|OptionalPrefix(cats, cs, n)|] == p[..|OptionalPrefix(cats, cs, n)|];
    }
  }

  /** The lines of optional category `k` follow, in the "Optional" section,
      those of the categories before it: at most five lines, each naming the
      category at its end. */
  lemma OptionalPartAt(cats: map<string, seq<Entry>>, cs: seq<string>, k: int)
    requires 0 <= k < |cs|
    ensures var part := OptionalItemLines(Take(Bucket(cats, cs[k]), OptionalLimit), cs[k]);
      var p := OptionalPrefix(cats, cs, k);
      var body := OptionalBody(cats, cs);
      |p| + |part| <= |body| && body[..|p| + |part|] == p + part
      && |part| <= OptionalLimit
      && forall t :: 0 <= t < |part| ==> EndsWith(part[t], ": " + cs[k])
  {
    OptionalSliceAt(cats, cs, k);
    OptionalItemLinesEnd(Take(Bucket(cats, cs[k]), OptionalLimit), cs[k]);
  }

  lemma OptionalSliceAt(cats: map<string, seq<Entry>>, cs: seq<string>, k: int)
    requires 0 <= k < |cs|
    ensures var part := OptionalItemLines(Take(Bucket(cats, cs[k]), OptionalLimit), cs[k]);
      var p := OptionalPrefix(cats, cs, k);
      var body := OptionalBody(cats, cs);
      |p| + |part| <= |body| && body[..|p| + |part|] == p + part
  {
    OptionalPrefixGrows(cats, cs, k + 1, |cs|);
    OptionalPrefixNext(cats, cs, k);
    PrefixThenBlock(OptionalBody(cats, cs), OptionalPrefix(cats, cs, k + 1), OptionalPrefix(cats, cs, k),
                    OptionalItemLines(Take(Bucket(cats, cs[k]), OptionalLimit), cs[k]));
  }

  lemma OptionalPrefixNext(cats: map<string, seq<Entry>>, cs: seq<string>, k: nat)
    requires k < |cs|
    ensures OptionalPrefix(cats, cs, k + 1)
      == OptionalPrefix(cats, cs, k) + OptionalItemLines(Take(Bucket(cats, cs[k]), OptionalLimit), cs[k])
  {
  }

  lemma OptionalItemLinesEnd(items: seq<Entry>, category: string)
    ensures var ls := OptionalItemLines(items, category);
      forall t :: 0 <= t < |ls| ==> EndsWith(ls[t], ": " + category)
  {
    var ls := OptionalItemLines(items, category);
    forall t | 0 <= t < |ls|
      ensures EndsWith(ls[t], ": " + category)
    {
      OptionalItemLinesAt(items, category, t);
      assert ls[t] == ItemLine(items[t]) + (": " + category);
    }
  }

  /** The "## Optional" heading is written exactly when some optional
      category has been collected, and then it opens the tail of the file. */
  lemma OptionalShown(cats: map<string, seq<Entry>>)
    ensures var opt := OptionalOf(Present(cats, PriorityOrder), OptionalCategories);
      (opt != [] <==> exists c :: c in OptionalCategories && c in cats)
      && (opt != [] ==> OptionalLines(cats, opt)[0] == OptionalHeading)
      && (opt == [] ==> OptionalLines(cats, opt) == [])
  {
    var cs := Present(cats, PriorityOrder);
    var opt := OptionalOf(cs, OptionalCategories);
    if c :| c in OptionalCategories && c in cats {
      assert c in PriorityOrder && c != Homepage;
      assert c in cs;
      assert c in opt;
    }
    if opt != [] {
      assert opt[0] in opt;
    }
  }

  // ---------------------------------------------------------------------------
  // generate_llms_txt, step by step

  /** One pass of the collecting loop on record `rec`: the URL is normalised,
      the record is dropped when off the domain, skipped or already seen, and
      otherwise its entry is appended to the bucket of its category. */
  method AdmitRecord(cats: map<string, seq<Entry>>, seen: set<string>, rec: UrlRecord, baseUrl: string, domain: string)
    returns (cats': map<string, seq<Entry>>, seen': set<string>)
    ensures Groups(cats', seen') == Admit(Groups(cats, seen), Assess(baseUrl, domain, rec))
  {
    cats', seen' := cats, seen;
    var url := rec.url;
    if !StartsWith(url, "http") {
      url := Urls.Resolve(baseUrl, url);
    }
    if !Contains(Urls.Netloc(url), domain) {
      return;
    }
    if ShouldSkip(url) {
      return;
    }
    if url in seen {
      return;
    }
    seen' := seen + {url};
    var category := Categorize(url);
    var caption := if rec.title.Some? && rec.title.value != [] then rec.title.value else UrlToLabel(url);
    cats' := cats[category := Bucket(cats, category) + [Entry(url, caption, rec.priority)]];
  }

  /** The collecting loop: records are read in the given order and each one
      goes through `AdmitRecord`. */
  method CollectGroups(recs: seq<UrlRecord>, baseUrl: string, domain: string)
    returns (cats: map<string, seq<Entry>>)
    ensures cats == Collect(Assessed(recs, baseUrl, domain)).cats
  {
    cats := map[];
    var seen: set<string> := {};
    var i := 0;
    while i < |recs|
      invariant 0 <= i <= |recs|
      invariant Groups(cats, seen) == Collect(Assessed(recs, baseUrl, domain)[..i])
    {
      AssessedSnoc(recs, baseUrl, domain, i);
      cats, seen := AdmitRecord(cats, seen, recs[i], baseUrl, domain);
      i := i + 1;
    }
    assert Assessed(recs, baseUrl, domain)[..|recs|] == Assessed(recs, baseUrl, domain);
  }

  method AppendHome(lines: seq<string>, cats: map<string, seq<Entry>>, siteName: string) returns (out: seq<string>)
    ensures out == lines + HomeLines(cats, siteName)
  {
    out := lines;
    if Homepage in cats {
      var items := Take(cats[Homepage], 1);
      var k := 0;
      while k < |items|
        invariant 0 <= k <= |items|
        invariant out == lines + HomeLinks(siteName, items[..k])
      {
        assert items[..k + 1][..k] == items[..k];
        out := out + [HomeLine(siteName, items[k])];
        k := k + 1;
      }
      assert items[..|items|] == items;
      out := out + [""];
    }
  }

  /** The loop that puts the secondary categories aside. */
  method SplitOptional(cs: seq<string>, optional: seq<string>) returns (main: seq<string>, opt: seq<string>)
    ensures main == MainOf(cs, optional) && opt == OptionalOf(cs, optional)
  {
    main, opt := [], [];
    var k := 0;
    while k < |cs|
      invariant 0 <= k <= |cs|
      invariant main == MainOf(cs[..k], optional) && opt == OptionalOf(cs[..k], optional)
    {
      assert cs[..k + 1][..k] == cs[..k];
      if cs[k] in optional {
        opt := opt + [cs[k]];
      } else {
        main := main + [cs[k]];
      }
      k := k + 1;
    }
    assert cs[..|cs|] == cs;
  }

  method AppendItems(lines: seq<string>, items: seq<Entry>) returns (out: seq<string>)
    ensures out == lines + ItemLines(items)
  {
    out := lines;
    var k := 0;
    while k < |items|
      invariant 0 <= k <= |items|
      invariant out == lines + ItemLines(items[..k])
    {
      assert items[..k + 1][..k] == items[..k];
      out := out + [ItemLine(items[k])];
      k := k + 1;
    }
    assert items[..|items|] == items;
  }

  /** One main section: heading, blank line, the items and a blank line;
      nothing when the cut leaves no items. */
  method AppendSection(lines: seq<string>, category: string, items: seq<Entry>) returns (out: seq<string>)
    ensures out == lines + SectionLines(category, items)
  {
    if items == [] {
      return lines;
    }
    out := lines + ["## " + category, ""];
    out := AppendItems(out, items);
    out := out + [""];
  }

  lemma MainPrefixStep(lines: seq<string>, cats: map<string, seq<Entry>>, cs: seq<string>, k: nat, max: int)
    requires k < |cs|
    ensures lines + MainPrefix(cats, cs, k + 1, max)
      == lines + MainPrefix(cats, cs, k, max) + SectionLines(cs[k], Take(Bucket(cats, cs[k]), max))
  {
  }

  /** The main sections, each cut to `max` items. */
  method AppendMain(lines: seq<string>, cats: map<string, seq<Entry>>, cs: seq<string>, max: int)
    returns (out: seq<string>)
    ensures out == lines + MainLines(cats, cs, max)
  {
    out := lines;
    var k := 0;
    while k < |cs|
      invariant 0 <= k <= |cs|
      invariant out == lines + MainPrefix(cats, cs, k, max)
    {
      out := AppendSection(out, cs[k], Take(Bucket(cats, cs[k]), max));
      assert out == lines + MainPrefix(cats, cs, k + 1, max) by {
        MainPrefixStep(lines, cats, cs, k, max);
      }
      k := k + 1;
    }
  }

  method AppendOptionalItems(lines: seq<string>, items: seq<Entry>, category: string) returns (out: seq<string>)
    ensures out == lines + OptionalItemLines(items, category)
  {
    out := lines;
    var k := 0;
    while k < |items|
      invariant 0 <= k <= |items|
      invariant out == lines + OptionalItemLines(items[..k], category)
    {
      assert items[..k + 1][..k] == items[..k];
      out := out + [OptionalItemLine(items[k], category)];
      k := k + 1;
    }
    assert items[..|items|] == items;
  }

  /** The "Optional" section, each category cut to five items. */
  method AppendOptional(lines: seq<string>, cats: map<string, seq<Entry>>, cs: seq<string>)
    returns (out: seq<string>)
    ensures out == lines + OptionalLines(cats, cs)
  {
    out := lines;
    if cs != [] {
      out := out + [OptionalHeading, ""];
      out := AppendOptionalBody(out, cats, cs);
      out := out + [""];
    }
  }

  /** The loop over the optional categories. */
  method AppendOptionalBody(lines: seq<string>, cats: map<string, seq<Entry>>, cs: seq<string>)
    returns (out: seq<string>)
    ensures out == lines + OptionalBody(cats, cs)
  {
    out := lines;
    var k := 0;
    while k < |cs|
      invariant 0 <= k <= |cs|
      invariant out == lines + OptionalPrefix(cats, cs, k)
    {
      out := AppendOptionalItems(out, Take(Bucket(cats, cs[k]), OptionalLimit), cs[k]);
      assert out == lines + OptionalPrefix(cats, cs, k + 1) by {
        OptionalPrefixStep(lines, cats, cs, k);
      }
      k := k + 1;
    }
  }

  lemma OptionalPrefixStep(head: seq<string>, cats: map<string, seq<Entry>>, cs: seq<string>, k: nat)
    requires k < |cs|
    ensures head + OptionalPrefix(cats, cs, k + 1)
      == head + OptionalPrefix(cats, cs, k) + OptionalItemLines(Take(Bucket(cats, cs[k]), OptionalLimit), cs[k])
  {
  }

  /** `generate_llms_txt`: the llms.txt text for the site at `baseUrl` and
      its sitemap records; an empty `siteName` or `description` asks for
      the default, and `date` stands for today's date. */
  method GenerateLlmsTxt(baseUrl: string, recs: seq<UrlRecord>, siteName: string, description: string,
                         date: string, max: int) returns (text: string)
    ensures text == LlmsTxt(baseUrl, recs, siteName, description, date, max)
  {
    var domain := Urls.Netloc(baseUrl);
    var site := siteName;
    if site == [] {
      site := DefaultSiteName(domain);
    }
    var desc := description;
    if desc == [] {
      desc := "Sito web " + site + " disponibile su " + baseUrl;
    }
    var cats := CollectGroups(SortByPriority(recs), baseUrl, domain);
    var lines := HeaderLines(site, desc, baseUrl, date);
    lines := AppendHome(lines, cats, site);
    var all := Present(cats, PriorityOrder);
    var main, optional := SplitOptional(all, OptionalCategories);
    lines := AppendMain(lines, cats, main, max);
    lines := AppendOptional(lines, cats, optional);
    text := Join("\n", lines);
  }
}
