/** The audit's scoring and the text checks behind it: the robots.txt parser
    and the classification of the known AI crawlers, the llms.txt line
    checks, the weighted GEO score and its band and bar. */
module GeoAudit {
  import opened Text

  // ---------------------------------------------------------------------------
  // Fetching

  /** What `fetch_url` hands back: no response (the error case), or a
      response with its status code and body. */
  datatype Fetch = NoResponse | Response(status: int, text: string)

  /** `err or not r` is false: a response is truthy exactly when its status
      is not a client or server error, that is outside 400..599. */
  predicate Usable(f: Fetch) {
    f.Response? && (f.status < 400 || f.status >= 600)
  }

  // ---------------------------------------------------------------------------
  // robots.txt: the line parser

  datatype Directive = UserAgent(agent: string) | Disallow(path: string) | Ignored

  /** `line.split(":", 1)[1]`: what follows the first ':'. */
  function AfterColon(line: string): string {
    match Find(line, ":")
    case Some(i) => line[i + 1..]
    case None => []
  }

  /** What one line of robots.txt says: blank lines, comments and every other
      directive (Allow included) say nothing. */
  function LineDirective(raw: string): Directive {
    var line := Strip(raw);
    if line == [] || StartsWith(line, "#") then Ignored
    else if StartsWith(LowerStr(line), "user-agent:") then UserAgent(Strip(AfterColon(line)))
    else if StartsWith(LowerStr(line), "disallow:") then Disallow(Strip(AfterColon(line)))
    else Ignored
  }

  /** The keyword matches case-insensitively and its own ':' is the first
      one, so the value is the rest of the line after the keyword. */
  lemma KeywordValue(line: string, kw: string)
    requires kw != [] && kw[|kw| - 1] == ':' && forall i :: 0 <= i < |kw| - 1 ==> kw[i] != ':'
    requires StartsWith(LowerStr(line), kw)
    ensures AfterColon(line) == line[|kw|..]
  {
    var n := |kw| - 1;
    var low := LowerStr(line);
    assert low[..|kw|] == kw;
    assert low[n] == ':';
    assert line[n] == ':';
    assert StartsWith(line[n..], ":");
    assert Contains(line, ":");
    var i := Find(line, ":").value;
    assert i <= n;
    assert line[i..i + 1] == ":";
    assert line[i] == ':' && low[i] == ':';
    assert low[..|kw|][i] == kw[i];
    assert i == n;
  }

  /** What each line of `lines` says, line by line. */
  function Directives(lines: seq<string>): (ds: seq<Directive>)
    ensures |ds| == |lines| && forall i :: 0 <= i < |lines| ==> ds[i] == LineDirective(lines[i])
  {
    seq(|lines|, i requires 0 <= i < |lines| => LineDirective(lines[i]))
  }

  /** The parser's state: the agents in the order they were first named, the
      Disallow paths of each, and the agent of the latest User-agent line. */
  datatype Rules = Rules(agents: seq<string>, paths: map<string, seq<string>>, current: Option<string>)

  function Step(st: Rules, d: Directive): Rules {
    match d
    case UserAgent(a) =>
      if a in st.paths then st.(current := Some(a))
      else Rules(st.agents + [a], st.paths[a := []], Some(a))
    case Disallow(p) =>
      if st.current.Some? && st.current.value in st.paths then
        st.(paths := st.paths[st.current.value := st.paths[st.current.value] + [p]])
      else st
    case Ignored => st
  }

  /** The state after the parser has read the lines saying `ds`. */
  function Parse(ds: seq<Directive>): Rules
    decreases |ds|
  {
    if ds == [] then Rules([], map[], None)
    else Step(Parse(ds[..|ds| - 1]), ds[|ds| - 1])
  }

  lemma ParseSnoc(ds: seq<Directive>, i: nat)
    requires i < |ds|
    ensures Parse(ds[..i + 1]) == Step(Parse(ds[..i]), ds[i])
  {
    var s := ds[..i + 1];
    assert s[..|s| - 1] == ds[..i] && s[|s| - 1] == ds[i];
  }

  /** The robots.txt loop: `current_agents` and `agent_rules` updated line by
      line. `current_agents` never holds more than one agent. */
  method ParseRobots(content: string) returns (agents: seq<string>, paths: map<string, seq<string>>)
    ensures var st := Parse(Directives(SplitLines(content))); agents == st.agents && paths == st.paths
  {
    var lines := SplitLines(content);
    ghost var ds := Directives(lines);
    var current: seq<string> := [];
    agents, paths := [], map[];
    var i := 0;
    while i < |lines|
      invariant 0 <= i <= |lines| && |current| <= 1
      invariant Parse(ds[..i]) == Rules(agents, paths, if current == [] then None else Some(current[0]))
    {
      ParseSnoc(ds, i);
      match LineDirective(lines[i]) {
        case UserAgent(agent) =>
          current := [agent];
          if agent !in paths {
            agents := agents + [agent];
            paths := paths[agent := []];
          }
        case Disallow(path) =>
          if current != [] && current[0] in paths {
            paths := paths[current[0] := paths[current[0]] + [path]];
          }
        case Ignored =>
      }
      ghost var cur := if current == [] then None else Some(current[0]);
      assert Parse(ds[..i + 1]) == Rules(agents, paths, cur);
      i := i + 1;
    }
    assert ds[..i] == ds;
  }

  /** The agent named by the latest User-agent line. */
  function Owner(ds: seq<Directive>): Option<string>
    decreases |ds|
  {
    if ds == [] then None
    else match ds[|ds| - 1]
      case UserAgent(a) => Some(a)
      case _ => Owner(ds[..|ds| - 1])
  }

  /** The paths of the Disallow lines that follow a User-agent line for `a`
      with no other User-agent line in between, in file order. */
  function DisallowsFor(ds: seq<Directive>, a: string): seq<string>
    decreases |ds|
  {
    if ds == [] then []
    else
      var before := ds[..|ds| - 1];
      match ds[|ds| - 1]
      case Disallow(p) => DisallowsFor(before, a) + (if Owner(before) == Some(a) then [p] else [])
      case _ => DisallowsFor(before, a)
  }

  predicate Distinct(s: seq<string>) {
    forall i, j :: 0 <= i < j < |s| ==> s[i] != s[j]
  }

  /** Each agent is listed once, the listed agents are exactly the keys of
      the rule map, and the latest agent named has an entry. */
  lemma {:induction false} ParseAgents(ds: seq<Directive>)
    ensures var st := Parse(ds);
      Distinct(st.agents) && (forall a :: a in st.agents <==> a in st.paths) &&
      st.current == Owner(ds) && (st.current.Some? ==> st.current.value in st.paths)
    decreases |ds|
  {
    if ds != [] {
      ParseAgents(ds[..|ds| - 1]);
    }
  }

  /** An agent has an entry exactly when some User-agent line names it. */
  lemma {:induction false} ParseNamed(ds: seq<Directive>, a: string)
    ensures a in Parse(ds).paths <==> UserAgent(a) in ds
    decreases |ds|
  {
    if ds != [] {
      var before := ds[..|ds| - 1];
      ParseNamed(before, a);
      assert ds == before + [ds[|ds| - 1]];
    }
  }

  /** No Disallow path is credited to an agent before some line names it. */
  lemma {:induction false} DisallowsUnnamed(ds: seq<Directive>, a: string)
    requires UserAgent(a) !in ds
    ensures DisallowsFor(ds, a) == [] && Owner(ds) != Some(a)
    decreases |ds|
  {
    if ds != [] {
      var before := ds[..|ds| - 1];
      assert ds == before + [ds[|ds| - 1]];
      DisallowsUnnamed(before, a);
    }
  }

  /** The entry of an agent holds every Disallow path of every group for that
      agent, in file order (repeated groups accumulate), and nothing else; a
      Disallow line with no User-agent line before it is dropped. */
  lemma {:induction false} ParseDisallows(ds: seq<Directive>, a: string)
    requires a in Parse(ds).paths
    ensures Parse(ds).paths[a] == DisallowsFor(ds, a)
    decreases |ds|
  {
    var before := ds[..|ds| - 1];
    ParseAgents(before);
    ParseNamed(before, a);
    if a in Parse(before).paths {
      ParseDisallows(before, a);
    } else {
      DisallowsUnnamed(before, a);
    }
  }

  // ---------------------------------------------------------------------------
  // robots.txt: the AI crawlers

  const AiBots: seq<string> := ["GPTBot", "OAI-SearchBot", "ChatGPT-User", "anthropic-ai", "ClaudeBot",
    "claude-web", "PerplexityBot", "Perplexity-User", "Google-Extended", "Applebot-Extended",
    "cohere-ai", "DuckAssistBot", "Bytespider"]

  /** The crawlers whose access decides whether the site can be cited. */
  const CitationBots: seq<string> := ["OAI-SearchBot", "ClaudeBot", "PerplexityBot"]

  predicate SameAgent(agent: string, bot: string) {
    LowerStr(agent) == LowerStr(bot)
  }

  /** The first agent, in the order the parser met them, that names `bot`
      up to letter case. */
  function FindAgent(agents: seq<string>, bot: string): (r: Option<string>)
    ensures r.None? <==> forall j :: 0 <= j < |agents| ==> !SameAgent(agents[j], bot)
    ensures r.Some? ==> exists i :: (0 <= i < |agents| && agents[i] == r.value && SameAgent(agents[i], bot) &&
      forall j :: 0 <= j < i ==> !SameAgent(agents[j], bot))
    decreases |agents|
  {
    if agents == [] then None
    else if SameAgent(agents[0], bot) then Some(agents[0])
    else
      var r := FindAgent(agents[1..], bot);
      assert forall j :: 1 <= j < |agents| ==> agents[j] == agents[1..][j - 1];
      r
  }

  datatype Access = Missing | Blocked | Allowed

  // A Disallow of "/" or "/*" shuts the agent out of the whole site.
  predicate BlocksAll(disallows: seq<string>) {
    exists j :: 0 <= j < |disallows| && (disallows[j] == "/" || disallows[j] == "/*")
  }

  function AccessOf(agents: seq<string>, paths: map<string, seq<string>>, bot: string): Access {
    match FindAgent(agents, bot)
    case None => Missing
    case Some(a) =>
      if a in paths && BlocksAll(paths[a]) then Blocked else Allowed
  }

  /** The bots of `bots` with access `s`, in their order. */
  function Select(bots: seq<string>, agents: seq<string>, paths: map<string, seq<string>>, s: Access): (r: seq<string>)
    ensures |r| <= |bots|
    decreases |bots|
  {
    if bots == [] then []
    else
      var b := bots[|bots| - 1];
      Select(bots[..|bots| - 1], agents, paths, s) + (if AccessOf(agents, paths, b) == s then [b] else [])
  }

  /** A bot is in the list for `s` exactly when it is one of `bots` and its
      access is `s`. */
  lemma {:induction false} SelectMembers(bots: seq<string>, agents: seq<string>, paths: map<string, seq<string>>,
                                         s: Access, b: string)
    ensures b in Select(bots, agents, paths, s) <==> b in bots && AccessOf(agents, paths, b) == s
    decreases |bots|
  {
    if bots != [] {
      var before := bots[..|bots| - 1];
      SelectMembers(before, agents, paths, s, b);
      assert bots == before + [bots[|bots| - 1]];
    }
  }

  lemma SelectSnoc(bots: seq<string>, i: nat, agents: seq<string>, paths: map<string, seq<string>>, s: Access)
    requires i < |bots|
    ensures AccessOf(agents, paths, bots[i]) == s ==>
      Select(bots[..i + 1], agents, paths, s) == Select(bots[..i], agents, paths, s) + [bots[i]]
    ensures AccessOf(agents, paths, bots[i]) != s ==>
      Select(bots[..i + 1], agents, paths, s) == Select(bots[..i], agents, paths, s)
  {
    var t := bots[..i + 1];
    assert t[..|t| - 1] == bots[..i] && t[|t| - 1] == bots[i];
  }

  /** Every bot lands in exactly one of the three lists. */
  lemma {:induction false} SelectPartition(bots: seq<string>, agents: seq<string>, paths: map<string, seq<string>>)
    ensures |Select(bots, agents, paths, Allowed)| + |Select(bots, agents, paths, Blocked)|
      + |Select(bots, agents, paths, Missing)| == |bots|
    decreases |bots|
  {
    if bots != [] {
      SelectPartition(bots[..|bots| - 1], agents, paths);
    }
  }

  /** The inner search: the agents in the order they were first named,
      compared with `bot` in lower case, stopping at the first match. */
  method FindFirstAgent(agents: seq<string>, bot: string) returns (found: Option<string>)
    ensures found == FindAgent(agents, bot)
  {
    found := None;
    var k := 0;
    while k < |agents|
      invariant 0 <= k <= |agents|
      invariant forall j :: 0 <= j < k ==> !SameAgent(agents[j], bot)
    {
      if LowerStr(agents[k]) == LowerStr(bot) {
        found := Some(agents[k]);
        break;
      }
      k := k + 1;
    }
  }

  /** The classification loop over AI_BOTS: the first agent matching each bot
      is looked up, and the bot is appended to one of the lists. */
  method ClassifyBots(bots: seq<string>, agents: seq<string>, paths: map<string, seq<string>>)
    returns (allowed: seq<string>, missing: seq<string>, blocked: seq<string>)
    ensures allowed == Select(bots, agents, paths, Allowed)
    ensures missing == Select(bots, agents, paths, Missing)
    ensures blocked == Select(bots, agents, paths, Blocked)
  {
    allowed, missing, blocked := [], [], [];
    var i := 0;
    while i < |bots|
      invariant 0 <= i <= |bots|
      invariant allowed == Select(bots[..i], agents, paths, Allowed)
      invariant missing == Select(bots[..i], agents, paths, Missing)
      invariant blocked == Select(bots[..i], agents, paths, Blocked)
    {
      var bot := bots[i];
      var found := FindFirstAgent(agents, bot);
      ghost var access := AccessOf(agents, paths, bot);
      SelectSnoc(bots, i, agents, paths, Allowed);
      SelectSnoc(bots, i, agents, paths, Missing);
      SelectSnoc(bots, i, agents, paths, Blocked);
      if found.None? {
        assert access == Missing;
        missing := missing + [bot];
      } else {
        var disallows := if found.value in paths then paths[found.value] else [];
        if found.value in paths && BlocksAll(disallows) {
          assert access == Blocked;
          blocked := blocked + [bot];
        } else {
          assert access == Allowed;
          allowed := allowed + [bot];
        }
      }
      assert allowed == Select(bots[..i + 1], agents, paths, Allowed);
      assert missing == Select(bots[..i + 1], agents, paths, Missing);
      assert blocked == Select(bots[..i + 1], agents, paths, Blocked);
      i := i + 1;
    }
    assert bots[..i] == bots;
  }

  /** `citation_bots_ok`: every citation bot is allowed. */
  predicate CitationOk(allowed: seq<string>) {
    forall b :: b in CitationBots ==> b in allowed
  }

  datatype RobotsResult = RobotsResult(found: bool, allowed: seq<string>, missing: seq<string>,
                                       blocked: seq<string>, citationOk: bool)

  const NoRobots := RobotsResult(false, [], [], [], false)

  /** `audit_robots_txt` without its output: nothing is found when there is no
      usable response or the status is 404; otherwise the body is parsed and
      every known crawler classified. */
  method AuditRobots(fetch: Fetch) returns (r: RobotsResult)
    ensures !Usable(fetch) || fetch.status == 404 ==> r == NoRobots
    ensures Usable(fetch) && fetch.status != 404 ==>
      (var st := Parse(Directives(SplitLines(fetch.text)));
       r.found &&
       r.allowed == Select(AiBots, st.agents, st.paths, Allowed) &&
       r.missing == Select(AiBots, st.agents, st.paths, Missing) &&
       r.blocked == Select(AiBots, st.agents, st.paths, Blocked) &&
       r.citationOk == CitationOk(r.allowed))
  {
    if !Usable(fetch) || fetch.status == 404 {
      return NoRobots;
    }
    var agents, paths := ParseRobots(fetch.text);
    var allowed, missing, blocked := ClassifyBots(AiBots, agents, paths);
    r := RobotsResult(true, allowed, missing, blocked, CitationOk(allowed));
  }

  /** The three citation bots are among the known crawlers, so the citation
      verdict is decided by their own access alone. */
  lemma CitationVerdict(agents: seq<string>, paths: map<string, seq<string>>)
    ensures CitationOk(Select(AiBots, agents, paths, Allowed)) <==>
      forall b :: b in CitationBots ==> AccessOf(agents, paths, b) == Allowed
  {
    assert CitationBots[0] == AiBots[1] && CitationBots[1] == AiBots[4] && CitationBots[2] == AiBots[6];
    forall b | b in CitationBots
      ensures b in Select(AiBots, agents, paths, Allowed) <==> AccessOf(agents, paths, b) == Allowed
    {
      SelectMembers(AiBots, agents, paths, Allowed, b);
    }
  }

  /** The known crawlers are distinct, so each lands in one list once. */
  lemma AiBotsDistinct()
    ensures Distinct(AiBots)
  {
  }

  // ---------------------------------------------------------------------------
  // llms.txt checks

  /** Some line of `content` starts with `prefix`. */
  predicate SomeLineStarts(content: string, prefix: string) {
    var lines := SplitLines(content);
    exists j :: 0 <= j < |lines| && StartsWith(lines[j], prefix)
  }

  /** Index of the first `c` in `s` at or after `from`, or `|s|`. */
  function IndexOf(s: string, c: char, from: nat): (k: nat)
    ensures from <= |s| ==> from <= k <= |s|
    ensures from > |s| ==> k == |s|
    ensures k < |s| ==> s[k] == c
    ensures forall m :: from <= m < k ==> s[m] != c
    decreases |s| - from
  {
    if from >= |s| then |s|
    else if s[from] == c then from
    else IndexOf(s, c, from + 1)
  }

  /** A markdown link `[text](target)` occupies `s[i..k + 1]`: '[' at `i`,
      the first ']' after it at `j` with text between, "(" right after, and
      the first ')' after that at `k` with a target between. */
  predicate LinkAt(s: string, i: int, j: int, k: int) {
    0 <= i && i + 1 < j && j + 2 < k < |s| && s[i] == '[' && s[j] == ']' && s[j + 1] == '(' && s[k] == ')'
    && (forall m :: i < m < j ==> s[m] != ']') && (forall m :: j + 1 < m < k ==> s[m] != ')')
  }

  /** Whether the link pattern matches at `i`, searched the way the pattern
      reads: up to the first ']' and then up to the first ')'. */
  predicate LinkFrom(s: string, i: nat)
    requires i < |s|
  {
    var j := IndexOf(s, ']', i + 1);
    var k := IndexOf(s, ')', j + 2);
    s[i] == '[' && i + 1 < j && j + 1 < |s| && s[j + 1] == '(' && j + 2 < k < |s|
  }

  lemma LinkFromSpec(s: string, i: nat)
    requires i < |s|
    ensures LinkFrom(s, i) <==> exists j, k :: LinkAt(s, i, j, k)
  {
    var j := IndexOf(s, ']', i + 1);
    var k := IndexOf(s, ')', j + 2);
    if LinkFrom(s, i) {
      assert LinkAt(s, i, j, k);
    }
    if exists j', k' :: LinkAt(s, i, j', k') {
      var j', k' :| LinkAt(s, i, j', k');
      assert j' == j;
      assert k' == k;
    }
  }

  /** `re.findall(r"\[([^\]]+)\]\(([^)]+)\)", content)` finds something. */
  predicate HasLinks(s: string) {
    exists i :: 0 <= i < |s| && LinkFrom(s, i)
  }

  datatype LlmsResult = LlmsResult(found: bool, hasH1: bool, hasDescription: bool, hasSections: bool,
                                   hasLinks: bool, wordCount: nat)

  const NoLlms := LlmsResult(false, false, false, false, false, 0)

  /** `audit_llms_txt` without its output. */
  function AuditLlms(fetch: Fetch): (r: LlmsResult)
    ensures !Usable(fetch) || fetch.status == 404 ==> r == NoLlms
    ensures Usable(fetch) && fetch.status != 404 ==>
      (r.found &&
       r.wordCount == WordStarts(fetch.text, true) &&
       (StartsWith(fetch.text, "# ") ==> r.hasH1) &&
       (StartsWith(fetch.text, "> ") ==> r.hasDescription) &&
       (StartsWith(fetch.text, "## ") ==> r.hasSections) &&
       (r.hasLinks <==> exists i, j, k :: LinkAt(fetch.text, i, j, k)))
  {
    if !Usable(fetch) || fetch.status == 404 then NoLlms
    else
      var content := fetch.text;
      WordsCount(content);
      LinksSpec(content);
      HeadingsFound(content);
      LlmsResult(true, SomeLineStarts(content, "# "), SomeLineStarts(content, "> "),
                 SomeLineStarts(content, "## "), HasLinks(content), |Words(content)|)
  }

  /** Only a client or server error status (400..599) makes the file count as
      missing: 399 and 600 are read. */
  lemma ErrorStatusBounds(t: string)
    ensures AuditLlms(Response(399, t)).found && AuditLlms(Response(600, t)).found
    ensures AuditLlms(Response(400, t)) == NoLlms && AuditLlms(Response(599, t)) == NoLlms
  {
  }

  lemma FirstLineFound(content: string, prefix: string)
    requires prefix != [] && NoBreak(prefix)
    ensures StartsWith(content, prefix) ==> SomeLineStarts(content, prefix)
  {
    if StartsWith(content, prefix) {
      FirstLineStartsWith(content, prefix);
    }
  }

  /** A file that opens with a heading, blockquote or section line has one. */
  lemma HeadingsFound(content: string)
    ensures StartsWith(content, "# ") ==> SomeLineStarts(content, "# ")
    ensures StartsWith(content, "> ") ==> SomeLineStarts(content, "> ")
    ensures StartsWith(content, "## ") ==> SomeLineStarts(content, "## ")
  {
    var h1, q, h2 := "# ", "> ", "## ";
    assert NoBreak(h1) by { assert h1[0] == '#' && h1[1] == ' '; }
    assert NoBreak(q) by { assert q[0] == '>' && q[1] == ' '; }
    assert NoBreak(h2) by { assert h2[0] == '#' && h2[1] == '#' && h2[2] == ' '; }
    FirstLineFound(content, h1);
    FirstLineFound(content, q);
    FirstLineFound(content, h2);
  }

  lemma LinksSpec(s: string)
    ensures HasLinks(s) <==> exists i, j, k :: LinkAt(s, i, j, k)
  {
    if HasLinks(s) {
      var i :| 0 <= i < |s| && LinkFrom(s, i);
      LinkFromSpec(s, i);
    }
    if exists i, j, k :: LinkAt(s, i, j, k) {
      var i, j, k :| LinkAt(s, i, j, k);
      LinkFromSpec(s, i);
    }
  }

  /** A line starting with "# " anywhere after a "\n" is found as an H1. */
  lemma H1AfterNewline(content: string, i: nat)
    requires 0 < i <= |content| && content[i - 1] == '\n' && StartsWith(content[i..], "# ")
    ensures SomeLineStarts(content, "# ")
  {
    var j := LineStartsWith(content, "# ", i);
  }

  // ---------------------------------------------------------------------------
  // The score

  datatype SchemaFlags = SchemaFlags(hasWebsite: bool, hasWebapp: bool, hasFaq: bool)
  datatype MetaFlags = MetaFlags(hasTitle: bool, hasDescription: bool, hasCanonical: bool,
                                 hasOgTitle: bool, hasOgDescription: bool, hasOgImage: bool)
  datatype ContentFlags = ContentFlags(hasH1: bool, hasNumbers: bool, hasLinks: bool)

  /** `if b: score += n`. */
  function Points(b: bool, n: nat): nat { if b then n else 0 }

  /** robots.txt: 5 for being found, then 15 when the citation bots are
      allowed or else 8 when any bot is. */
  function RobotsPoints(r: RobotsResult): (p: nat)
    ensures p <= 20
    ensures p - Points(r.found, 5) in {0, 8, 15}
  {
    Points(r.found, 5) + (if r.citationOk then 15 else if r.allowed != [] then 8 else 0)
  }

  /** llms.txt: 10 for being found, and 3/4/3 for its title, sections and
      links only then. */
  function LlmsPoints(l: LlmsResult): (p: nat)
    ensures p <= 20
    ensures !l.found ==> p == 0
  {
    if l.found then 10 + Points(l.hasH1, 3) + Points(l.hasSections, 4) + Points(l.hasLinks, 3) else 0
  }

  function SchemaPoints(s: SchemaFlags): (p: nat)
    ensures p <= 25
  {
    Points(s.hasWebsite, 10) + Points(s.hasWebapp, 8) + Points(s.hasFaq, 7)
  }

  /** Meta tags: the 4 Open Graph points need both og:title and
      og:description; og:image earns nothing. */
  function MetaPoints(m: MetaFlags): (p: nat)
    ensures p <= 20
  {
    Points(m.hasTitle, 5) + Points(m.hasDescription, 8) + Points(m.hasCanonical, 3)
      + Points(m.hasOgTitle && m.hasOgDescription, 4)
  }

  function ContentPoints(c: ContentFlags): (p: nat)
    ensures p <= 15
  {
    Points(c.hasH1, 4) + Points(c.hasNumbers, 6) + Points(c.hasLinks, 5)
  }

  /** The sum of the five sections, before `min(score, 100)`. */
  function RawScore(r: RobotsResult, l: LlmsResult, s: SchemaFlags, m: MetaFlags, c: ContentFlags): (p: nat)
    ensures p <= 100
  {
    RobotsPoints(r) + LlmsPoints(l) + SchemaPoints(s) + MetaPoints(m) + ContentPoints(c)
  }

  function Min(a: int, b: int): int { if a < b then a else b }

  /** `compute_geo_score`: the points added up step by step, then capped at
      100 (by `RawScore`'s bound, a cap that never applies). */
  method ComputeGeoScore(robots: RobotsResult, llms: LlmsResult, schema: SchemaFlags, meta: MetaFlags,
                         content: ContentFlags) returns (score: int)
    ensures score == Min(RawScore(robots, llms, schema, meta, content), 100)
  {
    score := 0;
    score := score + Points(robots.found, 5);
    if robots.citationOk { score := score + 15; }
    else if robots.allowed != [] { score := score + 8; }
    assert score == RobotsPoints(robots);
    if llms.found {
      score := score + 10;
      score := score + Points(llms.hasH1, 3);
      score := score + Points(llms.hasSections, 4);
      score := score + Points(llms.hasLinks, 3);
    }
    assert score == RobotsPoints(robots) + LlmsPoints(llms);
    score := score + Points(schema.hasWebsite, 10);
    score := score + Points(schema.hasWebapp, 8);
    score := score + Points(schema.hasFaq, 7);
    assert score == RobotsPoints(robots) + LlmsPoints(llms) + SchemaPoints(schema);
    score := score + Points(meta.hasTitle, 5);
    score := score + Points(meta.hasDescription, 8);
    score := score + Points(meta.hasCanonical, 3);
    score := score + Points(meta.hasOgTitle && meta.hasOgDescription, 4);
    assert score == RobotsPoints(robots) + LlmsPoints(llms) + SchemaPoints(schema) + MetaPoints(meta);
    score := score + Points(content.hasH1, 4);
    score := score + Points(content.hasNumbers, 6);
    score := score + Points(content.hasLinks, 5);
    assert score == RawScore(robots, llms, schema, meta, content);
    score := Min(score, 100);
  }

  /** The section maxima add up to exactly 100: a site that passes every
      check scores 100. */
  lemma PerfectScore(r: RobotsResult, l: LlmsResult)
    requires r.found && r.citationOk && l.found && l.hasH1 && l.hasSections && l.hasLinks
    ensures RawScore(r, l, SchemaFlags(true, true, true), MetaFlags(true, true, true, true, true, false),
                     ContentFlags(true, true, true)) == 100
  {
  }

  /** og:image never changes the score. */
  lemma OgImageIgnored(m: MetaFlags, b: bool)
    ensures MetaPoints(m.(hasOgImage := b)) == MetaPoints(m)
  {
  }

  /** The 4 Open Graph points are earned exactly when og:title and
      og:description are both present; one of them alone earns nothing. */
  lemma OgPairPoints(m: MetaFlags)
    ensures MetaPoints(m) == MetaPoints(m.(hasOgTitle := false)) + (if m.hasOgTitle && m.hasOgDescription then 4 else 0)
    ensures MetaPoints(m.(hasOgTitle := false)) == MetaPoints(m.(hasOgDescription := false))
  {
  }

  // ---------------------------------------------------------------------------
  // Band and bar

  datatype Band = Critical | Sufficient | Good | Excellent

  function Rank(b: Band): nat {
    match b
    case Critical => 0
    case Sufficient => 1
    case Good => 2
    case Excellent => 3
  }

  /** The verdict printed under the score. */
  function BandOf(score: int): (b: Band)
    ensures b == Excellent <==> score >= 80
    ensures b == Good <==> 60 <= score < 80
    ensures b == Sufficient <==> 40 <= score < 60
    ensures b == Critical <==> score < 40
  {
    if score >= 80 then Excellent
    else if score >= 60 then Good
    else if score >= 40 then Sufficient
    else Critical
  }

  /** A higher score never gets a lower verdict. */
  lemma BandMonotone(s: int, t: int)
    requires s <= t
    ensures Rank(BandOf(s)) <= Rank(BandOf(t))
  {
  }

  /** `c * n`: empty for `n <= 0`. */
  function Repeat(c: char, n: int): (r: string)
    ensures |r| == if n <= 0 then 0 else n
    ensures forall i :: 0 <= i < |r| ==> r[i] == c
  {
    if n <= 0 then [] else seq(n, _ => c)
  }

  /** `int(score / 5)`: the quotient truncated toward zero. */
  function Fifth(score: int): int {
    if score >= 0 then score / 5 else -((-score) / 5)
  }

  /** The 20-cell bar: one filled cell per 5 points, the rest empty. */
  function Bar(score: int): (r: string)
    ensures 0 <= score <= 100 ==> |r| == 20
    ensures 0 <= score <= 100 ==>
      forall i :: 0 <= i < 20 ==> (r[i] == '\U{2588}' <==> i < score / 5) && (r[i] == '\U{2591}' <==> i >= score / 5)
  {
    var filled := Fifth(score);
    Repeat('\U{2588}', filled) + Repeat('\U{2591}', 20 - filled)
  }
}
