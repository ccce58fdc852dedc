/** The transforms of the schema injector: filling a JSON-LD template,
    writing a schema as an HTML script tag, building an FAQPage from a list of
    questions, deciding which schemas a page lacks, and inserting a tag into
    the page's `<head>`. */
module SchemaInjector {
  import opened Text
  import opened JsonCodec
  import opened JsonRoundTrip
  import opened TemplateFill

  // ---------------------------------------------------------------------------
  // fill_template

  /** `fill_template(template, values)` as written: the template is written
      with `json.dumps`, each `{{key}}` of that text is replaced by the value
      as it is, and the text is read back (`None` where `json.loads`
      raises). Values are strings: `str(v) if v else ""` is `v` itself. */
  method FillTemplate(template: Json, values: seq<(string, string)>) returns (r: Option<Json>)
    ensures r == Loads(ReplaceEach(Dumps(template, Default, 0), values))
    ensures AsciiJson(template) && PlainKeys(values) && SafeValues(values) ==>
      r == Some(Canon(Fill(template, values)))
  {
    var text := Dumps(template, Default, 0);
    var i := 0;
    while i < |values|
      invariant 0 <= i <= |values|
      invariant text == ReplaceEach(Dumps(template, Default, 0), values[..i])
    {
      var (key, v) := values[i];
      assert values[..i + 1][..i] == values[..i];
      text := Replace(text, Placeholder(key), v);
      i := i + 1;
    }
    assert values[..i] == values;
    r := Loads(text);
    if AsciiJson(template) && PlainKeys(values) && SafeValues(values) {
      FillAsWritten(template, values);
    }
  }

  /** The same loop with each value escaped as `json.dumps` escapes the
      inside of a string: the template comes back with the values in its
      strings whatever characters they hold. */
  method FillTemplateEscaped(template: Json, values: seq<(string, string)>) returns (r: Option<Json>)
    requires PlainKeys(values)
    ensures r == Some(Canon(Fill(template, values)))
  {
    var text := Dumps(template, Default, 0);
    var i := 0;
    while i < |values|
      invariant 0 <= i <= |values|
      invariant text == ReplaceEachEscaped(Dumps(template, Default, 0), values[..i])
    {
      var (key, v) := values[i];
      assert values[..i + 1][..i] == values[..i];
      text := Replace(text, Placeholder(key), Esc(v, true));
      i := i + 1;
    }
    assert values[..i] == values;
    FillEscaped(template, values);
    r := Loads(text);
  }

  /** A one-member template `{k: "{{k}}"}`. */
  function KeyTemplate(k: string): Json {
    JObj([Member(k, JStr(Placeholder(k)))])
  }

  lemma KeyTemplateText(k: string)
    requires Plain(k)
    ensures Dumps(KeyTemplate(k), Default, 0) == "{" + ("\"" + k + "\": \"") + (Placeholder(k) + "\"}")
  {
    var p := Placeholder(k);
    PlaceholderPattern(k);
    EscPlain(k, true);
    EscPlain(p, true);
    OneMemberText(Member(k, JStr(p)));
    StrMemberText(k, p);
    var a := "\"" + k + "\": \"";
    assert "{" + (a + (p + "\"")) + "}" == "{" + a + (p + "\"}");
  }

  /** A one-member object is written as its member between braces. */
  lemma OneMemberText(m: Member)
    ensures Dumps(JObj([m]), Default, 0) == "{" + DumpsMember(m, Default, 1) + "}"
  {
    assert DumpsMembers([m], Default, 1) == DumpsMember(m, Default, 1);
    assert Newline(Default, 1) == [] && Newline(Default, 0) == [];
  }

  /** A member whose key and string value need no escaping. */
  lemma StrMemberText(k: string, v: string)
    requires Esc(k, true) == k && Esc(v, true) == v
    ensures DumpsMember(Member(k, JStr(v)), Default, 1) == "\"" + k + "\": \"" + (v + "\"")
  {
    var q := "\"";
    var head, tail := q + k + q, q + v + q;
    assert DumpsMember(Member(k, JStr(v)), Default, 1) == head + ": " + tail;
    MemberGlue(q, k, v);
  }

  lemma MemberGlue(q: string, k: string, v: string)
    requires q == "\""
    ensures q + k + q + ": " + (q + v + q) == "\"" + k + "\": \"" + (v + "\"")
  {
    assert "\": \"" == q + ": " + q;
  }

  lemma ReplaceAtStart(p: string, b: string, v: string)
    requires p != []
    ensures Replace(p + b, p, v) == v + Replace(b, p, v)
  {
    var s := p + b;
    assert s[..|p|] == p && s[|p|..] == b;
  }

  /** The text `fill_template` builds from that template and the value '"'. */
  lemma KeyTemplateReplaced(k: string)
    requires Plain(k) && '{' !in k
    ensures ReplaceEach(Dumps(KeyTemplate(k), Default, 0), [(k, "\"")]) == "{" + ("\"" + k + "\": \"") + "\"\"}"
  {
    var p := Placeholder(k);
    var a, b := "\"" + k + "\": \"", "\"}";
    KeyTemplateText(k);
    PlaceholderPattern(k);
    var text := Dumps(KeyTemplate(k), Default, 0);
    ReplaceEachOne(text, k, "\"");
    assert text == "{" + (a + (p + b));
    assert '{' !in a && a[0] == '"';
    ReplaceBetween(a, p, b, "\"");
    assert "{" + (a + ("\"" + b)) == "{" + a + "\"\"}";
  }

  /** A single substitution is one `str.replace`. */
  lemma ReplaceEachOne(text: string, k: string, v: string)
    ensures ReplaceEach(text, [(k, v)]) == Replace(text, Placeholder(k), v)
  {
    assert [(k, v)][..0] == [];
  }

  /** In `{a{{k}}b`, with no brace in `a` or `b`, only the placeholder
      changes. */
  lemma ReplaceBetween(a: string, p: string, b: string, v: string)
    requires Pattern(p) && '{' !in a && '{' !in b && a != [] && a[0] != '{'
    ensures Replace("{" + (a + (p + b)), p, v) == "{" + (a + (v + b))
  {
    SkipBrace(a + (p + b), p, v);
    SkipNoBrace(a, p + b, p, v);
    ReplaceAtStart(p, b, v);
    SkipNoBrace(b, [], p, v);
    assert b + [] == b;
    assert Replace([], p, v) == [];
  }

  /** `json.loads` raises on that text: the value ends at the second '"' and
      the third is neither ',' nor '}'. */
  lemma KeyTextFails(k: string)
    requires Plain(k)
    ensures Loads("{" + ("\"" + k + "\": \"") + "\"\"}") == None
  {
    var text := "{" + ("\"" + k + "\": \"") + "\"\"}";
    var x := "\"" + (k + "\"" + ": \"\"\"}");
    assert text == "{" + x;
    assert text[1..] == x;
    SkipWsStops(text);
    TokenObject(text);
    MemberThenQuote(k);
  }

  /** After the member `"k": ""` comes a third '"', which neither closes the
      object nor announces another member. */
  lemma MemberThenQuote(k: string)
    requires Plain(k)
    ensures ParseObject("\"" + (k + "\"" + ": \"\"\"}")) == None
  {
    var after, close := ": \"\"\"}", "\"}";
    var x := "\"" + (k + "\"" + after);
    EscPlain(k, true);
    ParseEsc(k, true, after);
    assert x[0] == '"' && x[1..] == k + "\"" + after;
    EmptyThenQuote();
    MembersUnfold(x, k, after, JStr([]), close);
    QuoteNotMore(Member(k, JStr([])));
    ObjectOfMembers(x);
  }

  lemma QuoteNotMore(m: Member)
    ensures MoreMembers(m, "\"}") == None
  {
    SkipWsStops("\"}");
  }

  lemma ObjectOfMembers(x: string)
    requires x != [] && x[0] == '"'
    ensures ParseMembers(x) == None ==> ParseObject(x) == None
  {
    SkipWsStops(x);
  }

  /** The value in `: """}` is the empty string, and `"}` follows it. */
  lemma EmptyThenQuote()
    ensures ParseValue(": \"\"\"}"[1..]) == Some((JStr([]), "\"}"))
  {
    var t := "\"\"\"}";
    assert ": \"\"\"}"[1..] == " " + t;
    assert (" " + t)[1..] == t;
    SkipWsStops(t);
    assert SkipWs(" " + t) == t;
    NotLiteral(t);
    assert t[1..] == "\"" + "\"}";
    assert ("\"" + "\"}")[1..] == "\"}";
    assert ParseStr("\"" + "\"}") == Some(([], "\"}"));
  }

  /** A value holding '"' ends the string early: for a template `{k: "{{k}}"}`
      `json.loads` raises on the text `fill_template` builds. */
  lemma FillTemplateQuoteFails(k: string)
    requires Plain(k) && '{' !in k
    ensures Loads(ReplaceEach(Dumps(KeyTemplate(k), Default, 0), [(k, "\"")])) == None
    ensures !SafeValues([(k, "\"")])
  {
    KeyTemplateReplaced(k);
    KeyTextFails(k);
    var v := "\"";
    assert v[0] == '"' && !SafeValue(v);
    assert [(k, v)][0].1 == v;
  }

  // ---------------------------------------------------------------------------
  // schema_to_html_tag

  const ScriptOpen := "<script type=\"application/ld+json\">\n"
  const ScriptClose := "\n</script>"

  /** `schema_to_html_tag`: the schema written with `indent=2` and
      `ensure_ascii=False` between the script tags; what lies between them
      reads back as the schema. */
  function SchemaToHtmlTag(schema: Json): (r: string)
    ensures StartsWith(r, ScriptOpen) && EndsWith(r, ScriptClose)
    ensures |r| > |ScriptOpen| + |ScriptClose|
    ensures Loads(r[|ScriptOpen|..|r| - |ScriptClose|]) == Some(Canon(schema))
  {
    var body := Dumps(schema, Pretty, 0);
    var r := ScriptOpen + body + ScriptClose;
    assert r[..|ScriptOpen|] == ScriptOpen;
    assert r[|r| - |ScriptClose|..] == ScriptClose;
    assert r[|ScriptOpen|..|r| - |ScriptClose|] == body;
    LoadsDumps(schema, Pretty);
    r
  }

  // ---------------------------------------------------------------------------
  // generate_faq_schema

  datatype FaqOutcome =
    | Built(schema: Json)
    /** The input is neither a list nor a dict with "faqs": the script exits. */
    | Unrecognized
    /** Iterating the items, or `item.get` on one of them, raises. */
    | Raised

  /** `d.get(key)` on a dictionary read by `json.loads`: the value of the
      last member with that key. */
  function Lookup(members: seq<Member>, key: string): (r: Option<Json>)
    ensures r.None? <==> forall i :: 0 <= i < |members| ==> members[i].key != key
    ensures r.Some? ==> exists i :: 0 <= i < |members| && members[i].key == key && members[i].value == r.value
    decreases |members|
  {
    if members == [] then None
    else if members[|members| - 1].key == key then Some(members[|members| - 1].value)
    else Lookup(members[..|members| - 1], key)
  }

  /** `item.get(key, item.get(alt, ""))`. */
  function Field(members: seq<Member>, key: string, alt: string): Json {
    match Lookup(members, key)
    case Some(v) => v
    case None =>
      match Lookup(members, alt)
      case Some(v) => v
      case None => JStr([])
  }

  function Question(q: Json, a: Json): Json {
    JObj([Member("@type", JStr("Question")), Member("name", q),
          Member("acceptedAnswer", JObj([Member("@type", JStr("Answer")), Member("text", a)]))])
  }

  function FaqPage(entities: seq<Json>): Json {
    JObj([Member("@context", JStr("https://schema.org")), Member("@type", JStr("FAQPage")),
          Member("mainEntity", JArr(entities))])
  }

  /** The Question one FAQ entry becomes. */
  function QuestionOf(item: Json): Json
    requires item.JObj?
  {
    Question(Field(item.members, "question", "q"), Field(item.members, "answer", "a"))
  }

  /** What `for item in v` visits: a list's elements, a dict's keys, a
      string's characters; `None` where the value is not iterable. */
  function Iterate(v: Json): (r: Option<seq<Json>>)
    ensures v.JArr? ==> r == Some(v.items)
    ensures (v.JNull? || v.JBool? || v.JNum?) <==> r.None?
  {
    match v
    case JArr(items) => Some(items)
    case JObj(members) => Some(seq(|members|, i requires 0 <= i < |members| => JStr(members[i].key)))
    case JStr(s) => Some(seq(|s|, i requires 0 <= i < |s| => JStr([s[i]])))
    case _ => None
  }

  /** The accepted inputs: a list, or a dict with a "faqs" key. */
  predicate Recognized(data: Json) {
    data.JArr? || (data.JObj? && Lookup(data.members, "faqs").Some?)
  }

  function FaqSource(data: Json): Json
    requires Recognized(data)
  {
    if data.JArr? then data else Lookup(data.members, "faqs").value
  }

  /** One Question per item, in order, or `None` when some item is not a
      dict (`item.get` raises). */
  function Questions(items: seq<Json>): (r: Option<seq<Json>>)
    ensures r.Some? <==> forall i :: 0 <= i < |items| ==> items[i].JObj?
    ensures r.Some? ==> |r.value| == |items| &&
                        forall i :: 0 <= i < |items| ==> r.value[i] == QuestionOf(items[i])
    decreases |items|
  {
    if items == [] then Some([])
    else if !items[0].JObj? then None
    else
      match Questions(items[1..])
      case None => None
      case Some(qs) => Some([QuestionOf(items[0])] + qs)
  }

  /** What `generate_faq_schema(data)` does. */
  function FaqSchema(data: Json): FaqOutcome {
    if !Recognized(data) then Unrecognized
    else
      match Iterate(FaqSource(data))
      case None => Raised
      case Some(items) =>
        match Questions(items)
        case None => Raised
        case Some(qs) => Built(FaqPage(qs))
  }

  /** `generate_faq_schema`: the loop appends one Question per item. */
  method GenerateFaqSchema(data: Json) returns (r: FaqOutcome)
    ensures r == FaqSchema(data)
  {
    if !Recognized(data) {
      return Unrecognized;
    }
    var it := Iterate(FaqSource(data));
    if it.None? {
      return Raised;
    }
    var items := it.value;
    var entities: seq<Json> := [];
    var i := 0;
    while i < |items|
      invariant 0 <= i <= |items| && |entities| == i
      invariant forall k :: 0 <= k < i ==> items[k].JObj? && entities[k] == QuestionOf(items[k])
    {
      if !items[i].JObj? {
        assert Questions(items).None?;
        return Raised;
      }
      entities := entities + [QuestionOf(items[i])];
      i := i + 1;
    }
    assert Questions(items).Some?;
    assert forall k :: 0 <= k < |items| ==> Questions(items).value[k] == entities[k];
    assert Questions(items).value == entities;
    r := Built(FaqPage(entities));
  }

  /** One Question per item, in input order, with the "question"/"q" and
      "answer"/"a" fallbacks. */
  lemma FaqOnePerItem(data: Json, k: nat)
    requires FaqSchema(data).Built?
    ensures Recognized(data) && Iterate(FaqSource(data)).Some?
    ensures var items := Iterate(FaqSource(data)).value;
            var entities := FaqSchema(data).schema.members[2].value.items;
            |entities| == |items| &&
            (k < |items| ==> items[k].JObj? && entities[k] == QuestionOf(items[k]))
  {
  }

  /** The question text falls back from "question" to "q" to "". */
  lemma FieldFallback(members: seq<Member>, key: string, alt: string)
    ensures Lookup(members, key).Some? ==> Field(members, key, alt) == Lookup(members, key).value
    ensures Lookup(members, key).None? && Lookup(members, alt).Some? ==>
      Field(members, key, alt) == Lookup(members, alt).value
    ensures Lookup(members, key).None? && Lookup(members, alt).None? ==> Field(members, key, alt) == JStr([])
  {
  }

  /** A list input is always accepted; it is built exactly when every item is
      a dict. */
  lemma FaqListInput(items: seq<Json>)
    ensures FaqSchema(JArr(items)).Built? <==> forall i :: 0 <= i < |items| ==> items[i].JObj?
    ensures FaqSchema(JArr(items)) != Unrecognized
  {
  }

  // ---------------------------------------------------------------------------
  // analyze_html_file: found types and the missing-schema rule

  /** `d.get("@type", "?")`. */
  function TypeOf(members: seq<Member>): Json {
    match Lookup(members, "@type")
    case Some(v) => v
    case None => JStr("?")
  }

  /** What one script contributes to `found_types`: a list's items' types up
      to the first item that is not a dict (the exception ends the script,
      the earlier appends stay), a dict's type, and nothing otherwise
      (`data.get` raises). */
  function ScriptTypes(data: Json): (r: seq<Json>)
    ensures data.JObj? ==> r == [TypeOf(data.members)]
    ensures !data.JObj? && !data.JArr? ==> r == []
  {
    match data
    case JObj(members) => [TypeOf(members)]
    case JArr(items) => ItemTypes(items)
    case _ => []
  }

  function ItemTypes(items: seq<Json>): (r: seq<Json>)
    ensures |r| <= |items|
    decreases |items|
  {
    if items == [] || !items[0].JObj? then []
    else [TypeOf(items[0].members)] + ItemTypes(items[1..])
  }

  /** The list's types are those of its leading run of objects, and the run
      ends at the list's end or at an item that is not an object. */
  lemma {:induction false} ItemTypesRun(items: seq<Json>)
    ensures var r := ItemTypes(items);
      (forall k :: 0 <= k < |r| ==> items[k].JObj? && r[k] == TypeOf(items[k].members)) &&
      (|r| < |items| ==> !items[|r|].JObj?)
    decreases |items|
  {
    if items != [] && items[0].JObj? {
      var r, rest := ItemTypes(items), ItemTypes(items[1..]);
      ItemTypesRun(items[1..]);
      assert r == [TypeOf(items[0].members)] + rest;
      forall k | 0 < k < |r| ensures items[k].JObj? && r[k] == TypeOf(items[k].members) {
        assert items[k] == items[1..][k - 1] && r[k] == rest[k - 1];
      }
      if |r| < |items| {
        assert items[|r|] == items[1..][|rest|];
      }
    }
  }

  /** The types of all scripts, in order; `None` for a script whose text is
      missing or not JSON (the exception is swallowed). */
  function AllTypes(scripts: seq<Option<Json>>): seq<Json>
    decreases |scripts|
  {
    if scripts == [] then []
    else
      var last := scripts[|scripts| - 1];
      AllTypes(scripts[..|scripts| - 1]) + (if last.Some? then ScriptTypes(last.value) else [])
  }

  /** The loop of `analyze_html_file` that collects `found_types`. */
  method FoundTypes(scripts: seq<Option<Json>>) returns (found: seq<Json>)
    ensures found == AllTypes(scripts)
  {
    found := [];
    var i := 0;
    while i < |scripts|
      invariant 0 <= i <= |scripts|
      invariant found == AllTypes(scripts[..i])
    {
      found := AppendScriptTypes(found, scripts[i]);
      assert found == AllTypes(scripts[..i + 1]) by {
        AllTypesStep(scripts, i);
      }
      i := i + 1;
    }
    assert scripts[..i] == scripts;
  }

  /** One script of the loop: a list contributes its items' types, a dict
      its own type, anything else (or text that is not JSON) nothing. */
  method AppendScriptTypes(found: seq<Json>, script: Option<Json>) returns (out: seq<Json>)
    ensures out == found + (if script.Some? then ScriptTypes(script.value) else [])
  {
    out := found;
    if script.Some? {
      var data := script.value;
      if data.JArr? {
        out := AppendItemTypes(out, data.items);
      } else if data.JObj? {
        out := out + [TypeOf(data.members)];
      }
    }
  }

  /** The inner loop over a list's items; a non-object item raises, which
      ends the loop and keeps the types already appended. */
  method AppendItemTypes(found: seq<Json>, items: seq<Json>) returns (out: seq<Json>)
    ensures out == found + ItemTypes(items)
  {
    ghost var types := ItemTypes(items);
    out := found;
    var j := 0;
    while j < |items|
      invariant 0 <= j <= |types|
      invariant out == found + types[..j]
    {
      if !items[j].JObj? {
        break;
      }
      var t := TypeOf(items[j].members);
      ItemTypesAt(items, j);
      out := out + [t];
      assert out == found + types[..j + 1] by {
        SnocPrefix(found, types, j, t);
      }
      j := j + 1;
    }
    ItemTypesEnd(items, j);
  }

  lemma ItemTypesAt(items: seq<Json>, j: nat)
    requires j <= |ItemTypes(items)| && j < |items| && items[j].JObj?
    ensures j < |ItemTypes(items)| && ItemTypes(items)[j] == TypeOf(items[j].members)
  {
    ItemTypesRun(items);
  }

  lemma ItemTypesEnd(items: seq<Json>, j: nat)
    requires j <= |ItemTypes(items)| && j <= |items|
    requires j < |items| ==> !items[j].JObj?
    ensures ItemTypes(items)[..j] == ItemTypes(items)
  {
    ItemTypesRun(items);
  }

  lemma SnocPrefix<T>(a: seq<T>, s: seq<T>, j: nat, t: T)
    requires j < |s| && s[j] == t
    ensures a + s[..j] + [t] == a + s[..j + 1]
  {
    assert s[..j + 1] == s[..j] + [t];
  }

  lemma AllTypesStep(scripts: seq<Option<Json>>, i: nat)
    requires i < |scripts|
    ensures AllTypes(scripts[..i + 1]) ==
      AllTypes(scripts[..i]) + (if scripts[i].Some? then ScriptTypes(scripts[i].value) else [])
  {
    assert scripts[..i + 1][..i] == scripts[..i];
  }

  const SchemaKinds := ["website", "webapp", "faq"]
  const SchemaTypes := ["WebSite", "WebApplication", "FAQPage"]

  /** The missing-schema rule: each of "website", "webapp" and "faq" whose
      type is not among the found types, in that order. */
  method MissingSchemas(found: seq<Json>) returns (missing: seq<string>)
    ensures forall k :: 0 <= k < 3 ==> (SchemaKinds[k] in missing <==> JStr(SchemaTypes[k]) !in found)
    ensures missing == KindsKept([JStr("WebSite") !in found, JStr("WebApplication") !in found, JStr("FAQPage") !in found])
  {
    missing := [];
    ghost var keep := [JStr("WebSite") !in found, JStr("WebApplication") !in found, JStr("FAQPage") !in found];
    if JStr("WebSite") !in found {
      missing := missing + ["website"];
    }
    if JStr("WebApplication") !in found {
      missing := missing + ["webapp"];
    }
    if JStr("FAQPage") !in found {
      missing := missing + ["faq"];
    }
    assert missing == KindsKept(keep);
  }

  /** The kinds selected by `keep`, in their fixed order. */
  function KindsKept(keep: seq<bool>): (r: seq<string>)
    requires |keep| == 3
    ensures |r| <= 3
    ensures forall k :: 0 <= k < 3 ==> (SchemaKinds[k] in r <==> keep[k])
  {
    (if keep[0] then ["website"] else []) + (if keep[1] then ["webapp"] else []) + (if keep[2] then ["faq"] else [])
  }

  // ---------------------------------------------------------------------------
  // inject_schema_into_html

  /** The `<head>` insertion: before the first "</head>" when there is one,
      else after the first "<head>"; `None` when the page has neither. */
  function InsertIntoHead(content: string, tag: string): (r: Option<string>)
    ensures r.None? <==> !Contains(content, "</head>") && !Contains(content, "<head>")
    ensures Contains(content, "</head>") ==>
      exists i :: FirstAt(content, "</head>", i) &&
        r == Some(content[..i] + ("\n  " + tag + "\n</head>") + content[i + 7..])
    ensures !Contains(content, "</head>") && Contains(content, "<head>") ==>
      exists i :: FirstAt(content, "<head>", i) &&
        r == Some(content[..i] + ("<head>\n  " + tag) + content[i + 6..])
    ensures r.Some? ==>
      |r.value| == |content| + |tag| + (if Contains(content, "</head>") then 4 else 3)
  {
    if Contains(content, "</head>") then
      assert |"</head>"| == 7 && |"\n  "| == 3 && |"\n</head>"| == 8;
      Some(ReplaceFirst(content, "</head>", "\n  " + tag + "\n</head>"))
    else if Contains(content, "<head>") then
      assert |"<head>"| == 6 && |"<head>\n  "| == 9;
      Some(ReplaceFirst(content, "<head>", "<head>\n  " + tag))
    else None
  }

  /** The files the injector reads and writes. */
  class Site {
    var files: map<string, string>

    constructor(files0: map<string, string>)
      ensures files == files0
    {
      files := files0;
    }

    /** `inject_schema_into_html(path, tag, backup)`: the backup is written
        first; the page is rewritten only when it has a head. */
    method InjectSchemaIntoHtml(path: string, tag: string, backup: bool) returns (ok: bool)
      requires path in files
      modifies this
      ensures var content := old(files[path]);
        var saved := if backup then old(files)[path + ".bak" := content] else old(files);
        ok == InsertIntoHead(content, tag).Some? &&
        files == (if ok then saved[path := InsertIntoHead(content, tag).value] else saved)
    {
      var content := files[path];
      if backup {
        files := files[path + ".bak" := content];
      }
      var inserted := InsertIntoHead(content, tag);
      if inserted.None? {
        return false;
      }
      files := files[path := inserted.value];
      return true;
    }
  }
}
