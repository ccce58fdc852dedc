# geo-optimizer scripts, modelled in Dafny

This project models the pure core of three command-line tools. They help a
website get cited by AI search engines.

- `scripts/geo_audit.py` is the GEO audit. It covers:
  - the robots.txt parser and its AI-crawler classification;
  - the llms.txt line checks;
  - the weighted 0–100 GEO score, its band and its progress bar.
- `scripts/generate_llms_txt.py` is the llms.txt generator. It covers:
  - the skip rule, the URL categoriser and the URL-to-label rule;
  - the whole `generate_llms_txt` pipeline: normalise, filter by domain and
    skip patterns, deduplicate, group by category, then render Markdown with
    ordered, capped sections and an `## Optional` tail.
- `scripts/schema_injector.py` is the JSON-LD schema injector. It covers:
  - `fill_template` (serialise, replace the placeholders, parse again);
  - `schema_to_html_tag`;
  - `generate_faq_schema`;
  - the missing-schema rule of `analyze_html_file`;
  - the `<head>` insertion of `inject_schema_into_html`.

The modules are:

- `Text` (`text.dfy`): the Python `str` built-ins the scripts call.
  - Includes `startswith`, `in`, `replace`, `lower`, `strip`, `splitlines`,
    `split()`, `title` and `isdigit`.
- `Urls` (`urls.dfy`): `urllib.parse.urlparse` and `urljoin`.
- `JsonCodec` (`json.dfy`): a JSON tree with `json.dumps` (compact, default
  and `indent=2` layouts, with or without `ensure_ascii`) and `json.loads`.
- `JsonRoundTrip` (`json_roundtrip.dfy`): proves that `loads(dumps(j))` gives
  back `Canon(j)`, the dictionary form of `j`, in which a later duplicate key
  overrides an earlier one. When no object of `j` repeats a key, the result
  is `j` itself.
- `TemplateFill` (`template_fill.dfy`): placeholder substitution on the text
  and on the tree, and the proof that the two agree.
- `GeoAudit` (`geo_audit.dfy`).
- `LlmsGenerator` (`llms_generator.dfy`): the skip patterns, categories,
  labels, the stable priority sort, and the collecting step as a
  specification.
- `LlmsRender` (`llms_render.dfy`): the rendered document, the loops of
  `generate_llms_txt` proved against it, and what the generated file
  guarantees.
- `SchemaInjector` (`schema_injector.dfy`).

The modules follow the source's own style:

- Code that loops and mutates is modelled with `method`s proved against
  specification functions. This covers the robots parse and classification,
  the score accumulation, the collecting and rendering loops of
  `generate_llms_txt`, the `fill_template` loop, the FAQ loop and the
  found/missing loops.
- The file system that `inject_schema_into_html` rewrites is a `class Site`
  with a map of files.
- The rest is modelled with functions and lemmas.

## Model

| member | source | states |
|---|---|---|
| GeoAudit.ParseRobots | scripts/geo_audit.py:121-139 | The line loop leaves exactly the agents and the Disallow lists of the directive fold `Parse` over the stripped lines of `splitlines()`. |
| GeoAudit.ParseSnoc | scripts/geo_audit.py:126-139 | Reading one more line is one more step of the fold. |
| GeoAudit.KeywordValue | scripts/geo_audit.py:130-136 | When the lower-cased line starts with a keyword ending in its only colon, the value is the part after the keyword: `split(":", 1)[1]`. |
| GeoAudit.ParseAgents | scripts/geo_audit.py:123-134 | After the parse, each agent is listed once. It has a Disallow list exactly when it is listed. The current agent is the one named by the last User-agent line seen. |
| GeoAudit.ParseNamed | scripts/geo_audit.py:130-134 | An agent has a Disallow list if and only if some User-agent line names it. |
| GeoAudit.DisallowsUnnamed | scripts/geo_audit.py:135-139 | An agent no User-agent line names owns no Disallow path: Disallow lines before any User-agent are dropped. |
| GeoAudit.ParseDisallows | scripts/geo_audit.py:135-139 | An agent's list is every Disallow path met while it was the most recent User-agent, in file order, with repeated groups accumulating. |
| GeoAudit.FindAgent | scripts/geo_audit.py:144-148 | Returns none if and only if no agent matches the bot case-insensitively; otherwise returns the first agent that matches. |
| GeoAudit.FindFirstAgent | scripts/geo_audit.py:144-148 | The `for … break` search returns what `FindAgent` returns. |
| GeoAudit.Select | scripts/geo_audit.py:142-169 | A classification list is never longer than the bot list. |
| GeoAudit.SelectMembers | scripts/geo_audit.py:150-168 | A bot is in a list if and only if it is one of the bots and its access (missing, blocked on "/" or "/*", else allowed) is that list's. |
| GeoAudit.SelectSnoc | scripts/geo_audit.py:142-169 | Classifying one more bot appends it to exactly the list of its access and leaves the other lists as they were. |
| GeoAudit.SelectPartition | scripts/geo_audit.py:142-169 | The three lists together are exactly as long as the bot list, so every AI bot is counted once. |
| GeoAudit.ClassifyBots | scripts/geo_audit.py:142-169 | The append loop builds the allowed, missing and blocked lists, in AI_BOTS order. |
| GeoAudit.AuditRobots | scripts/geo_audit.py:93-181 | A failed fetch, or a reply with status 400 to 599, gives found=false with empty lists. Otherwise found holds, the lists are the classification of the parsed file, and citation_bots_ok is the all-citation-bots test. |
| GeoAudit.CitationVerdict | scripts/geo_audit.py:172-173 | citation_bots_ok holds if and only if OAI-SearchBot, ClaudeBot and PerplexityBot are each allowed by the file. |
| GeoAudit.AiBotsDistinct | scripts/geo_audit.py:27-41 | The AI_BOTS names are distinct, as the keys of a dict are. |
| GeoAudit.IndexOf | scripts/geo_audit.py:242 | The search for a character returns its first position at or after the start, or the length when it is absent. |
| GeoAudit.LinkFromSpec | scripts/geo_audit.py:242 | The scan from one `[` finds a link exactly when some `[text](target)` (non-empty text without `]`, non-empty target without `)`) starts there. |
| GeoAudit.LinksSpec | scripts/geo_audit.py:242-244 | has_links holds if and only if the text contains a `[text](target)` link. |
| GeoAudit.AuditLlms | scripts/geo_audit.py:184-249 | A failed fetch, or a reply with status 400 to 599, gives the all-false result. Otherwise: found holds; word_count is the number of whitespace-separated words; a file opening with "# ", "> " or "## " sets has_h1, has_description or has_sections; has_links holds if and only if a link exists. |
| GeoAudit.ErrorStatusBounds | scripts/geo_audit.py:199-202 | The statuses 400 and 599 give the all-false result; 399 and 600 are read as found. |
| GeoAudit.FirstLineFound | scripts/geo_audit.py:211-228 | A prefix without a line break at the start of the text is a prefix of its first line. |
| GeoAudit.HeadingsFound | scripts/geo_audit.py:217-235 | A text that opens with "# ", "> " or "## " has a line with that prefix. |
| GeoAudit.H1AfterNewline | scripts/geo_audit.py:217-219 | A "# " just after a newline starts a line, so the H1 check sees it. |
| GeoAudit.RobotsPoints | scripts/geo_audit.py:451-457 | The robots part is at most 20. Beyond the 5 for found, it adds exactly 0, 8 or 15, never both 8 and 15. |
| GeoAudit.LlmsPoints | scripts/geo_audit.py:459-464 | The llms.txt part is at most 20, and 0 when llms.txt was not found, so the h1/sections/links points need found. |
| GeoAudit.SchemaPoints | scripts/geo_audit.py:466-469 | The schema part is at most 25. |
| GeoAudit.MetaPoints | scripts/geo_audit.py:471-475 | The meta part is at most 20. |
| GeoAudit.ContentPoints | scripts/geo_audit.py:477-480 | The content part is at most 15. |
| GeoAudit.RawScore | scripts/geo_audit.py:447-482 | The unclamped sum is at most 100, so `min(score, 100)` never clamps. |
| GeoAudit.ComputeGeoScore | scripts/geo_audit.py:447-482 | The `score +=` accumulation returns the clamped sum of the five parts. |
| GeoAudit.PerfectScore | scripts/geo_audit.py:447-482 | With every flag set (og:image aside), the score is exactly 100. |
| GeoAudit.OgImageIgnored | scripts/geo_audit.py:471-475 | og:image never changes the meta points. |
| GeoAudit.OgPairPoints | scripts/geo_audit.py:475 | The 4 Open Graph points are added exactly when og:title and og:description are both present; either one alone earns nothing. |
| GeoAudit.BandOf | scripts/geo_audit.py:535-542 | Each band holds exactly on its own score range: "excellent" for score ≥ 80, "good" for 60 ≤ score < 80, "sufficient" for 40 ≤ score < 60, "critical" for score < 40. |
| GeoAudit.BandMonotone | scripts/geo_audit.py:535-542 | A higher score never gets a lower band. |
| GeoAudit.Repeat | scripts/geo_audit.py:532 | `c * n` has max(n, 0) copies of c and nothing else. |
| GeoAudit.Bar | scripts/geo_audit.py:529-532 | For a score in 0..100 the bar is 20 cells; cell i is filled if and only if i < score/5, and empty otherwise. |
| LlmsGenerator.AnyMatch | scripts/generate_llms_txt.py:121-126 | True if and only if some pattern matches: the first-match loop. |
| LlmsGenerator.ShouldSkipIgnoresCase | scripts/generate_llms_txt.py:121-126 | The skip test does not depend on letter case (`re.IGNORECASE`). |
| LlmsGenerator.ShouldSkipAdminAndPdf | scripts/generate_llms_txt.py:56-61 | A URL containing "/admin", or ending in ".pdf", in any case, is skipped. |
| LlmsGenerator.FirstCategory | scripts/generate_llms_txt.py:134-136 | Returns none if and only if no pattern matches; otherwise returns the category of the first matching entry. |
| LlmsGenerator.Categorize | scripts/generate_llms_txt.py:129-146 | The category of the first matching pattern wins. With no match, the result is "_homepage" if and only if the lower-cased path is "/" or "". Otherwise it is "Pagine Principali" if and only if the path has exactly one non-empty segment, and "Altro" if not. |
| LlmsGenerator.CategoryNamed | scripts/generate_llms_txt.py:257-266 | Every pattern category is ranked in `priority_order` and is not "_homepage". |
| LlmsGenerator.PatternCategories | scripts/generate_llms_txt.py:35-54 | No CATEGORY_PATTERNS category starts with "_", and each is in `priority_order`. |
| LlmsGenerator.HomepageUnranked | scripts/generate_llms_txt.py:257-266 | No `priority_order` name starts with "_", so the homepage bucket is never a section. |
| LlmsGenerator.CategoryKnown | scripts/generate_llms_txt.py:129-146 | Every URL's category is "_homepage" or in `priority_order`. |
| LlmsGenerator.FallbacksRanked | scripts/generate_llms_txt.py:142-146 | The fallbacks "Pagine Principali" and "Altro" are ranked. |
| LlmsGenerator.SwapChar | scripts/generate_llms_txt.py:175 | Every occurrence of one character becomes the other; nothing else changes. |
| LlmsGenerator.ReplaceChar | scripts/generate_llms_txt.py:175 | `str.replace` of one character by another is that character swap. |
| LlmsGenerator.Slug | scripts/generate_llms_txt.py:175 | The slug keeps its length. Each "-" or "_" becomes a space. A letter after a letter is lower-cased; any other letter is upper-cased. Every other character is kept. |
| LlmsGenerator.LastSegment | scripts/generate_llms_txt.py:172-173 | `parts[-1]` is a slash-free suffix of the path. |
| LlmsGenerator.LastTwoSegments | scripts/generate_llms_txt.py:178 | `"/".join(parts[-2:])` is a suffix of the path ending with the last segment. |
| LlmsGenerator.PathLabel | scripts/generate_llms_txt.py:171-180 | The label is the slug of the last segment, or the slug of the last two segments when the first slug is all digits. It is never empty and has no "-" or "_". |
| LlmsGenerator.UrlToLabel | scripts/generate_llms_txt.py:165-180 | A path that is empty after stripping "/" gives "Homepage"; any other path gives the label of the stripped path. |
| LlmsGenerator.Insert | scripts/generate_llms_txt.py:205 | Inserting one record adds exactly one element. |
| LlmsGenerator.SortByPriority | scripts/generate_llms_txt.py:205 | The sort keeps the number of records. |
| LlmsGenerator.InsertMembers | scripts/generate_llms_txt.py:205 | Insertion adds exactly the new record to the multiset. |
| LlmsGenerator.InsertSorted | scripts/generate_llms_txt.py:205 | Insertion into a list sorted by descending priority keeps it sorted. |
| LlmsGenerator.InsertStable | scripts/generate_llms_txt.py:205 | Insertion puts the new record before the existing records of equal priority. |
| LlmsGenerator.SortByPrioritySpec | scripts/generate_llms_txt.py:205 | `sorted(urls, key=-priority)` is sorted by descending priority, a permutation of the input, and stable: records of equal priority keep their input order. |
| LlmsGenerator.Assessed | scripts/generate_llms_txt.py:205-228 | One verdict per record, in order, each the record's normalised URL, kept flag, category and label. |
| LlmsGenerator.CollectSnoc | scripts/generate_llms_txt.py:205-234 | Collecting one more record is one more admission step. |
| LlmsGenerator.AdmitWellGrouped | scripts/generate_llms_txt.py:212-234 | Admitting one record keeps the groups well formed. Buckets are non-empty; every entry comes from a kept record of its category and is in `seen`; no URL appears twice. |
| LlmsGenerator.CollectWellGrouped | scripts/generate_llms_txt.py:202-234 | The collecting loop yields well-formed groups. |
| LlmsGenerator.CollectOrigin | scripts/generate_llms_txt.py:225-234 | Every bucket entry comes from some kept record of that category. |
| LlmsGenerator.CollectComplete | scripts/generate_llms_txt.py:212-234 | Every kept URL ends up in `seen`, and every URL in `seen` is listed in some bucket. |
| LlmsGenerator.CollectListed | scripts/generate_llms_txt.py:212-234 | A kept record's URL is listed in some bucket. |
| LlmsGenerator.CollectOrdered | scripts/generate_llms_txt.py:205-234 | Records read in descending priority give buckets in descending priority. |
| LlmsGenerator.AssessKept | scripts/generate_llms_txt.py:208-225 | A kept record's URL is on the domain, not skipped, and categorised as its bucket says. |
| LlmsGenerator.CollectRecords | scripts/generate_llms_txt.py:202-234 | Every listed URL's netloc contains the domain; it is not skipped; it sits in the bucket of its own category; no URL is listed twice. |
| LlmsGenerator.RecordsListed | scripts/generate_llms_txt.py:208-234 | A record whose normalised URL is on the domain and not skipped is listed. |
| LlmsGenerator.RecordsOrdered | scripts/generate_llms_txt.py:205-234 | Records sorted by descending priority give buckets sorted by descending priority. |
| LlmsGenerator.CollectKeepsOrder | scripts/generate_llms_txt.py:204-234 | Two entries of one bucket come from records read in the order the entries are listed. |
| LlmsGenerator.TiesKeepRecordOrder | scripts/generate_llms_txt.py:204-234 | Within a bucket, two entries of equal priority come from records of that priority in their sitemap order, because the sort is stable. |
| LlmsRender.BeforeDot | scripts/generate_llms_txt.py:196 | `split(".")[0]` is a dot-free prefix. |
| LlmsRender.DefaultSiteNameNoDot | scripts/generate_llms_txt.py:195-196 | The default site name has no dot and is as long as the first label of the domain without "www.". |
| LlmsRender.Take | scripts/generate_llms_txt.py:288 | `s[:n]` is a prefix of s: of length n for 0 ≤ n ≤ len(s), all of s beyond, and shorter by -n for negative n. |
| LlmsRender.HomeLinks | scripts/generate_llms_txt.py:252-253 | One homepage line per item. |
| LlmsRender.HomeLinksAt | scripts/generate_llms_txt.py:252-253 | Line i of the homepage paragraph is `La homepage principale è disponibile su: [site](url)` of item i, so it is not a "- [" line. |
| LlmsRender.ItemLines | scripts/generate_llms_txt.py:294-295 | One link line per item. |
| LlmsRender.OptionalItemLines | scripts/generate_llms_txt.py:304-305 | One optional link line per item. |
| LlmsRender.ItemLinesAt | scripts/generate_llms_txt.py:294-295 | Line i of a section is `- [label](url)` of item i. |
| LlmsRender.OptionalItemLinesAt | scripts/generate_llms_txt.py:304-305 | Line i of an optional category is `- [label](url): category` of item i. |
| LlmsRender.Present | scripts/generate_llms_txt.py:269 | A category is in `important_categories` if and only if it is in `priority_order`, collected and not "_homepage". |
| LlmsRender.MainOf | scripts/generate_llms_txt.py:274-284 | A category is a main section if and only if it is not one of the four optional ones. |
| LlmsRender.OptionalOf | scripts/generate_llms_txt.py:274-284 | A category goes to Optional if and only if it is one of "Privacy & Legal", "Termini", "Contatti", "Altro". |
| LlmsRender.PresentOrdered | scripts/generate_llms_txt.py:269 | `important_categories` lists its categories in `priority_order`'s order. |
| LlmsRender.SplitOrdered | scripts/generate_llms_txt.py:274-284 | The main and the optional category lists each keep the order of `important_categories`. |
| LlmsRender.JoinFirst | scripts/generate_llms_txt.py:308 | `"\n".join` starts with the first line and unfolds one line at a time. |
| LlmsRender.OpeningPassesAudit | scripts/generate_llms_txt.py:239-243 | Lines whose first is "# title" and whose third is "> description" pass the audit's H1 and description checks. |
| LlmsRender.DocumentPassesAudit | scripts/generate_llms_txt.py:237-308 | Whatever was collected, the rendered file is found and has its H1 and its description according to the audit. |
| LlmsRender.GeneratedPassesAudit | scripts/generate_llms_txt.py:183-308 | The output of `generate_llms_txt` (default or given site name and description) passes the audit's H1 and description checks. |
| LlmsRender.GroupedKeyKnown | scripts/generate_llms_txt.py:225-230 | Every collected category is "_homepage" or in `priority_order`. |
| LlmsRender.GroupedKnown | scripts/generate_llms_txt.py:225-230 | All collected keys are known. |
| LlmsRender.GroupedUnique | scripts/generate_llms_txt.py:220-234 | No URL is collected twice. |
| LlmsRender.EveryCategoryPlaced | scripts/generate_llms_txt.py:269-272 | Every collected category except "_homepage" is an important category, so `remaining` is always empty. |
| LlmsRender.ListedFrom | scripts/generate_llms_txt.py:286-305 | Each listed entry is an entry of the bucket of one of the listed categories. |
| LlmsRender.ListedDistinct | scripts/generate_llms_txt.py:286-305 | Distinct categories over groups without repeated URLs list every URL at most once. |
| LlmsRender.ListedApartAt | scripts/generate_llms_txt.py:286-305 | Entries listed under two disjoint category lists have different URLs. |
| LlmsRender.ListedApart | scripts/generate_llms_txt.py:286-305 | The main and optional listings together still show each URL at most once. |
| LlmsRender.PresentDistinct | scripts/generate_llms_txt.py:269 | `important_categories` has no repeats. |
| LlmsRender.MainDistinct | scripts/generate_llms_txt.py:274-284 | The main and optional category lists have no repeats. |
| LlmsRender.PriorityOrderDistinct | scripts/generate_llms_txt.py:257-266 | `priority_order` names each category once. |
| LlmsRender.DocumentLinks | scripts/generate_llms_txt.py:237-306 | The lines starting with "- [" are exactly one per listed entry, in order: the main sections' entries, then the Optional ones, line k starting with `- [label](url)` of entry k. The header and homepage lines are not among them. |
| LlmsRender.DocumentDistinct | scripts/generate_llms_txt.py:237-306 | For groups without repeated URLs, the lines starting with "- [" show entries with pairwise different URLs, none of them the homepage line's URL. |
| LlmsRender.GeneratedDistinct | scripts/generate_llms_txt.py:202-308 | The generated llms.txt is the document's line list joined by "\n". Of that list, the entries starting with "- [" show one listed page each, with pairwise different URLs. A title or URL holding "\n" would still split a physical line of the file. |
| LlmsRender.MainLinesBound | scripts/generate_llms_txt.py:286-296 | All main sections together are at most max+3 lines per category. |
| LlmsRender.MainSectionAt | scripts/generate_llms_txt.py:286-296 | The section of the k-th main category follows the sections before it in the file. It opens with "## category" and has at most `max_urls_per_section` lines starting with "- [". |
| LlmsRender.SectionBound | scripts/generate_llms_txt.py:288-296 | One main section is at most max+3 lines. |
| LlmsRender.OptionalBodyBound | scripts/generate_llms_txt.py:302-305 | The Optional body is at most 5 lines per optional category. |
| LlmsRender.OptionalPartAt | scripts/generate_llms_txt.py:302-305 | The lines of the k-th optional category follow those of the categories before it. There are at most 5, and each ends with ": category". |
| LlmsRender.OptionalShown | scripts/generate_llms_txt.py:274-306 | "## Optional" is written if and only if some optional category was collected. |
| LlmsRender.AdmitRecord | scripts/generate_llms_txt.py:205-234 | One pass of the loop body: its `continue`s drop an off-domain, skipped or already seen URL; otherwise the URL joins `seen` and its entry is appended to its category. The result is exactly one admission step. |
| LlmsRender.CollectGroups | scripts/generate_llms_txt.py:202-234 | The loop over the records builds exactly the collected groups. |
| LlmsRender.AppendHome | scripts/generate_llms_txt.py:250-254 | Appends the homepage line for the first homepage entry and a blank line, or nothing. |
| LlmsRender.SplitOptional | scripts/generate_llms_txt.py:274-284 | The split loop yields the main and optional category lists. |
| LlmsRender.AppendItems | scripts/generate_llms_txt.py:294-295 | Appends one link line per item. |
| LlmsRender.AppendSection | scripts/generate_llms_txt.py:288-296 | Appends a section, or nothing for an empty bucket. |
| LlmsRender.AppendMain | scripts/generate_llms_txt.py:286-296 | The section loop appends every main section, each cut to max items. |
| LlmsRender.AppendOptionalItems | scripts/generate_llms_txt.py:304-305 | Appends one optional line per item. |
| LlmsRender.AppendOptional | scripts/generate_llms_txt.py:299-306 | Appends the Optional section, or nothing. |
| LlmsRender.AppendOptionalBody | scripts/generate_llms_txt.py:302-305 | The category loop appends, in order, each optional category's lines, cut to the optional limit. |
| LlmsRender.GenerateLlmsTxt | scripts/generate_llms_txt.py:183-308 | The whole procedure returns the llms.txt text of the specification, for which the properties above hold. |
| JsonRoundTrip.LoadsDumps | scripts/schema_injector.py:204-207 | `json.loads(json.dumps(j))` gives back the dictionary form `Canon(j)` in every layout, and j itself when no object repeats a key. |
| JsonCodec.CanonDistinct | scripts/schema_injector.py:204-207 | A value whose objects have distinct keys is its own dictionary form. |
| TemplateFill.FillAsWritten | scripts/schema_injector.py:202-207 | For an ASCII template, plain keys and values without `"` or `\` (or control characters), dumps-replace-loads equals replacing `{{key}}` inside the string leaves of the tree. |
| TemplateFill.ReplaceEachCompact | scripts/schema_injector.py:204-206 | Under the same conditions the replaced text is the serialisation of the filled tree. |
| TemplateFill.FillEscaped | scripts/schema_injector.py:202-207 | With values escaped as JSON string content, the round trip equals leaf-wise replacement for every template and value. |
| SchemaInjector.FillTemplate | scripts/schema_injector.py:202-207 | The replace loop computes `loads` of the replaced text. Under the safe-value condition this is the leaf-wise filled template. |
| SchemaInjector.FillTemplateQuoteFails | scripts/schema_injector.py:202-207 | For the template `{"k": "{{k}}"}` and the value `"`, the replaced text does not parse. |
| SchemaInjector.FillTemplateEscaped | scripts/schema_injector.py:202-207 | The escaping loop always parses, to the leaf-wise filled template. |
| SchemaInjector.SchemaToHtmlTag | scripts/schema_injector.py:210-213 | The tag opens with `<script type="application/ld+json">\n` and closes with `\n</script>`; the text between parses back to the schema. |
| SchemaInjector.Lookup | scripts/schema_injector.py:301-302 | `dict.get` is none if and only if no member has the key; otherwise it is a member's value. |
| SchemaInjector.FieldFallback | scripts/schema_injector.py:301-302 | The question (answer) falls back from "question" ("answer") to "q" ("a") to "". |
| SchemaInjector.Iterate | scripts/schema_injector.py:300 | A list iterates over its items; a null, bool or number cannot be iterated. |
| SchemaInjector.Questions | scripts/schema_injector.py:300-310 | Gives one Question per item, in order, if and only if every item is an object. |
| SchemaInjector.GenerateFaqSchema | scripts/schema_injector.py:284-312 | The append loop computes the FAQ outcome: an abort for unrecognised input, a failure on a non-object item, or the FAQPage tree. |
| SchemaInjector.FaqOnePerItem | scripts/schema_injector.py:294-312 | A built FAQPage has exactly one mainEntity Question per input item, item k's at position k. |
| SchemaInjector.FaqListInput | scripts/schema_injector.py:286-292 | A list input is never unrecognised; it is built if and only if all items are objects. |
| SchemaInjector.ScriptTypes | scripts/schema_injector.py:234-238 | An object contributes its "@type" (or "?"); a scalar contributes nothing. |
| SchemaInjector.ItemTypesRun | scripts/schema_injector.py:234-236 | A list contributes the `@type` (or "?") of each item of its leading run of objects, in order, and the run stops only at the end of the list or at an item that is not an object (where `item.get` raises). |
| SchemaInjector.FoundTypes | scripts/schema_injector.py:229-240 | The script loop collects exactly the found types of all parsed scripts, in script order. |
| SchemaInjector.AppendScriptTypes | scripts/schema_injector.py:232-240 | One script adds its list items' types, its own type when it is an object, and nothing otherwise. |
| SchemaInjector.AppendItemTypes | scripts/schema_injector.py:235-236 | The item loop appends exactly the types of the leading run of objects. |
| SchemaInjector.MissingSchemas | scripts/schema_injector.py:242-248 | The missing list keeps "website", "webapp" and "faq", in that order, each exactly when its type is not found. |
| SchemaInjector.KindsKept | scripts/schema_injector.py:242-248 | A kind is reported if and only if its flag is set; at most three kinds are reported. |
| SchemaInjector.InsertIntoHead | scripts/schema_injector.py:269-276 | With "</head>", only its first occurrence gets the tag before it. Otherwise, with "<head>", the tag goes after the first one. With neither, the result is none. The rest of the content is unchanged. |
| SchemaInjector.Site.constructor | scripts/schema_injector.py:257-260 | The site starts with the given files. |
| SchemaInjector.Site.InjectSchemaIntoHtml | scripts/schema_injector.py:257-281 | The backup is written first when asked. The page is rewritten with the tag if and only if it has a head, and the result says so. Nothing else changes. |
| Urls.ResolveRelativeKeepsNetloc | scripts/generate_llms_txt.py:209-213 | A relative sitemap URL resolved with `urljoin` keeps the base URL's netloc, so it passes the domain test. |
| Text.WordsCount | scripts/geo_audit.py:212 | `len(content.split())` is the number of word starts. |
| Text.TitleAt | scripts/generate_llms_txt.py:175 | `str.title` upper-cases a letter after a non-letter and lower-cases a letter after a letter. |

## Left out

- HTTP is not modelled: `fetch_url`, `fetch_sitemap`, `discover_sitemap`, `fetch_page_title`. A fetch is a value `Fetch` (no response, or a status and a text), and sitemap records are a parameter.
- The `fetch_titles` option of `generate_llms_txt` is not modelled: the script never uses it.
- argparse `main` flows, console output and the "next steps" list are not modelled. Only the score band and the bar of `main` are modelled.
- The `if r.status_code == 404` branches of the audits are not modelled as reachable. A `requests` response is false exactly for a status from 400 to 599, so `not r` has already returned.
- The BeautifulSoup parsing in `audit_schema`, `audit_meta_tags`, `audit_content_quality` and `analyze_html_file` is not modelled. The score takes their flags as inputs; `analyze_html_file` takes each JSON-LD script as already parsed (or failed); the `has_head` flag is left out.
- Regular expressions are replaced by explicit predicates, one per pattern of SKIP_PATTERNS and CATEGORY_PATTERNS. The statistics regex of `audit_content_quality` is left out.
- `lower`, `title`, `isdigit` and `\w` are ASCII-only. Unicode case mapping and Unicode digits are not modelled. `str.split()` and `strip()` use Python's full whitespace set.
- `\d` in the skip pattern `/page/\d+` matches an ASCII digit only; Python's `re` also matches other Unicode digits.
- The `ValueError` that `urlparse` and `urljoin` raise on an unbalanced "[" in the netloc ("Invalid IPv6 URL") is not modelled. `generate_llms_txt` does not catch it (scripts/generate_llms_txt.py:208-213), so such a sitemap URL aborts the script.
- JsonCodec.Loads: returns none for floats, exponents, NaN and Infinity, and lone surrogate escapes. Python's `json.loads` accepts them. The injector's schema templates hold only integers, such as the `"position": 1` at scripts/schema_injector.py:115.
- Sitemap priorities are integers, not floats, and a record's priority is always present: the 0.5 default is left to the caller.
- `datetime.now()` is not modelled: the date is a parameter.
- The `sorted(remaining)` of `generate_llms_txt` is not modelled. `EveryCategoryPlaced` proves `remaining` is always empty.
- The Astro snippet text of `schema_injector.py` and the schema templates' text are not modelled: they are static text.
- File reads and writes are not modelled. `Site` holds the files as a map, and the injection writes to it.
- tests/test_coverage_m1.py is not part of this model.
- GeoAudit.AuditLlms: proves has_h1, has_description and has_sections in one direction only, when the file opens with the prefix. A prefix on a later line is handled by `H1AfterNewline` for "# " only.
- LlmsRender.ItemLines: states only the number of lines; the content of each line is `ItemLinesAt`.
- LlmsRender.HomeLinks: states only the number of lines; the content of each line is `HomeLinksAt`.
- LlmsGenerator.Kept: the domain test is a substring test on the netloc, as written, so "evilexample.com" passes for "example.com". This is not claimed as a defect.
- SchemaInjector.FillTemplate: values are strings; `str(value)` of non-string values is not modelled.

## Findings

| source | as written | input that shows it | evidently intended | confidence | as-written member | corrected member |
|---|---|---|---|---|---|---|
| scripts/schema_injector.py:202-207 | `fill_template` puts the raw value into the serialised JSON text, then parses the text again | the template `{"k": "{{k}}"}` with the value `"`: the text becomes `{"k": """}` and `json.loads` fails | the value replaces the placeholder inside the string leaf, escaped as JSON string content | not executed | SchemaInjector.FillTemplateQuoteFails | SchemaInjector.FillTemplateEscaped |
