/** `fill_template` works on the TEXT of a template: it writes the template
    with `json.dumps`, replaces every `{{key}}` in that text with the raw value
    and reads the result back with `json.loads`. This module relates that text
    substitution to a substitution inside the template's strings (`Subst`):
    when the replacement text is the escaped form of the value, replacing in
    the written text is the same as writing the substituted template. */
module TemplateFill {
  import opened Text
  import opened JsonCodec
  import opened JsonRoundTrip

  /** A character that `json.dumps` writes as itself and that is not '"' or
      '\\'. */
  predicate PlainChar(c: char) { ' ' <= c <= '~' && c != '"' && c != '\\' }

  predicate Plain(s: string) {
    forall i :: 0 <= i < |s| ==> PlainChar(s[i])
  }

  /** The text `fill_template` looks for: `{{key}}`. */
  function Placeholder(key: string): (p: string)
    ensures |p| == |key| + 4 && p[0] == '{' && p[1] == '{'
  {
    "{{" + key + "}}"
  }

  /** What the substitution lemmas need of a placeholder: two opening braces,
      then only plain characters. */
  predicate Pattern(p: string) {
    |p| >= 2 && p[0] == '{' && p[1] == '{' && Plain(p)
  }

  lemma PlaceholderPattern(key: string)
    requires Plain(key)
    ensures Pattern(Placeholder(key))
  {
    var p := Placeholder(key);
    forall i | 0 <= i < |p| ensures PlainChar(p[i]) {
      if 2 <= i < |key| + 2 {
        assert p[i] == key[i - 2];
      }
    }
  }

  lemma Assoc4(a: string, b: string, c: string, d: string)
    ensures a + (b + c + d) == (a + b) + c + d
  {
  }

  lemma Nest(a: string, b: string, c: string, d: string, e: string, r: string)
    ensures a + b + c + d + e + r == a + (b + (c + (d + e + r)))
  {
  }

  // ---------------------------------------------------------------------------
  // Escaping

  lemma EscPlainChar(c: char, a: bool)
    requires PlainChar(c)
    ensures EscChar(c, a) == [c]
  {
    assert ShortEscape(c).None?;
  }

  lemma {:induction false} EscPlain(s: string, a: bool)
    requires Plain(s)
    ensures Esc(s, a) == s
    decreases |s|
  {
    if s != [] {
      EscPlainChar(s[0], a);
      EscPlain(s[1..], a);
      assert [s[0]] + s[1..] == s;
    }
  }

  lemma EscCons(c: char, t: string, a: bool)
    ensures Esc([c] + t, a) == EscChar(c, a) + Esc(t, a)
  {
    var s := [c] + t;
    assert s[0] == c && s[1..] == t;
  }

  lemma {:induction false} EscAppend(x: string, y: string, a: bool)
    ensures Esc(x + y, a) == Esc(x, a) + Esc(y, a)
    decreases |x|
  {
    if x == [] {
      assert x + y == y;
    } else {
      var e := EscChar(x[0], a);
      assert x + y == [x[0]] + (x[1..] + y);
      EscCons(x[0], x[1..] + y, a);
      EscAppend(x[1..], y, a);
      assert e + (Esc(x[1..], a) + Esc(y, a)) == (e + Esc(x[1..], a)) + Esc(y, a);
    }
  }

  lemma HexCharNotBrace(d: nat)
    requires d < 16
    ensures HexChar(d) != '{'
  {
  }

  lemma UnicodeEscapeShape(n: nat)
    requires n < 0x10000
    ensures forall i :: 1 <= i < 6 ==> UnicodeEscape(n)[i] != '{'
  {
    var r1 := n % 0x1000;
    var r2 := r1 % 0x100;
    HexCharNotBrace(n / 0x1000);
    HexCharNotBrace(r1 / 0x100);
    HexCharNotBrace(r2 / 0x10);
    HexCharNotBrace(r2 % 0x10);
    var u := UnicodeEscape(n);
    assert u[2..] == Hex4(n);
    forall i | 2 <= i < 6 ensures u[i] != '{' {
      assert u[i] == Hex4(n)[i - 2];
    }
  }

  /** What `EscChar` writes after its first character belongs to an escape
      sequence and is never '{'; a first character other than '\\' is the
      character itself. */
  lemma EscCharShape(c: char, a: bool)
    ensures forall i :: 1 <= i < |EscChar(c, a)| ==> EscChar(c, a)[i] != '{'
    ensures EscChar(c, a)[0] != '\\' ==> EscChar(c, a) == [c]
  {
    var e := EscChar(c, a);
    if ShortEscape(c).Some? {
      assert e == ['\\', ShortEscape(c).value];
    } else if c < ' ' {
      UnicodeEscapeShape(c as int);
    } else if !a || c < '\U{7F}' {
    } else if (c as int) < 0x10000 {
      UnicodeEscapeShape(c as int);
    } else {
      var v := c as int - 0x10000;
      var hi, lo := UnicodeEscape(0xD800 + v / 0x400), UnicodeEscape(0xDC00 + v % 0x400);
      UnicodeEscapeShape(0xD800 + v / 0x400);
      UnicodeEscapeShape(0xDC00 + v % 0x400);
      assert e == hi + lo;
      forall i | 1 <= i < |e| ensures e[i] != '{' {
        if i < 6 { assert e[i] == hi[i]; } else { assert e[i] == lo[i - 6]; }
      }
    }
  }

  /** A plain text `q` starts the written string only where it starts the
      string itself: the written form of any other character begins with
      '\\', and the closing quote is not plain. */
  lemma {:induction false} EscPrefix(s: string, q: string, a: bool, r: string)
    requires Plain(q)
    ensures StartsWith(Esc(s, a) + "\"" + r, q) ==> StartsWith(s, q)
    decreases |q|
  {
    var x := Esc(s, a) + "\"" + r;
    if q != [] && StartsWith(x, q) {
      assert x[..|q|][0] == x[0] == q[0];
      if s != [] {
        var e := EscChar(s[0], a);
        var y := Esc(s[1..], a) + "\"" + r;
        assert x == e + y;
        EscCharShape(s[0], a);
        assert e == [s[0]];
        ConsPrefix(x, y, s[0], q);
        PlainTail(q);
        EscPrefix(s[1..], q[1..], a, r);
        ConsStarts(s, q);
      }
    }
  }

  lemma PlainTail(q: string)
    requires Plain(q) && q != []
    ensures Plain(q[1..])
  {
    forall i | 0 <= i < |q[1..]| ensures PlainChar(q[1..][i]) { assert q[1..][i] == q[i + 1]; }
  }

  lemma ConsPrefix(x: string, y: string, c: char, q: string)
    requires x == [c] + y && q != [] && StartsWith(x, q)
    ensures q[0] == c && StartsWith(y, q[1..])
  {
    assert x[..|q|][0] == c;
    assert y[..|q| - 1] == x[..|q|][1..];
  }

  lemma ConsStarts(s: string, q: string)
    requires s != [] && q != [] && s[0] == q[0] && StartsWith(s[1..], q[1..])
    ensures StartsWith(s, q)
  {
    assert s[..|q|] == [s[0]] + s[1..][..|q| - 1];
  }

  // ---------------------------------------------------------------------------
  // Replacing in written strings

  /** Text without '{' is passed over by the replacement. */
  lemma SkipNoBrace(a: string, b: string, p: string, v: string)
    requires Pattern(p) && '{' !in a
    ensures Replace(a + b, p, v) == a + Replace(b, p, v)
  {
    ReplaceSkipFirstChar(a, b, p, v);
  }

  /** A single '{' not followed by '{' is passed over too. */
  lemma SkipBrace(y: string, p: string, v: string)
    requires Pattern(p) && y != [] && y[0] != '{'
    ensures Replace("{" + y, p, v) == "{" + Replace(y, p, v)
  {
    var x := "{" + y;
    assert x[1] == y[0];
    if |p| <= |x| {
      assert x[..|p|][1] == x[1];
    }
    forall i | 0 <= i < 1 ensures !StartsWith(("{" + y)[i..], p) {
      assert ("{" + y)[0..] == x;
    }
    ReplaceSkip("{", y, p, v);
  }

  /** Where the placeholder does not start a string's text, the written
      first character is passed over whole. */
  lemma ReplaceEscMiss(s: string, p: string, ev: string, a: bool, r: string)
    requires Pattern(p) && s != [] && !StartsWith(s, p)
    ensures Replace(Esc(s, a) + "\"" + r, p, ev)
      == EscChar(s[0], a) + Replace(Esc(s[1..], a) + "\"" + r, p, ev)
  {
    var e := EscChar(s[0], a);
    var y := Esc(s[1..], a) + "\"" + r;
    var x := Esc(s, a) + "\"" + r;
    assert x == e + y;
    EscPrefix(s, p, a, r);
    EscCharShape(s[0], a);
    forall i | 0 <= i < |e| ensures !StartsWith((e + y)[i..], p) {
      if i > 0 {
        assert (e + y)[i..][0] == e[i];
      } else {
        assert (e + y)[0..] == x;
      }
    }
    ReplaceSkip(e, y, p, ev);
  }

  /** Where the placeholder starts a string's text, it is replaced. */
  lemma ReplaceEscHit(s: string, p: string, ev: string, a: bool, r: string)
    requires Pattern(p) && StartsWith(s, p)
    ensures Replace(Esc(s, a) + "\"" + r, p, ev) == ev + Replace(Esc(s[|p|..], a) + "\"" + r, p, ev)
  {
    var rest := s[|p|..];
    assert s == p + rest;
    EscAppend(p, rest, a);
    EscPlain(p, a);
    var y := Esc(rest, a) + "\"" + r;
    var x := Esc(s, a) + "\"" + r;
    assert x == p + y;
    assert x[..|p|] == p && x[|p|..] == y;
  }

  /** Replacing in the written form of a string, up to and including its
      closing quote, writes the replaced string, provided the replacement is
      the written form of the value. */
  lemma {:induction false} ReplaceEsc(s: string, p: string, v: string, a: bool, r: string)
    requires Pattern(p)
    ensures Replace(Esc(s, a) + "\"" + r, p, Esc(v, a))
      == Esc(Replace(s, p, v), a) + "\"" + Replace(r, p, Esc(v, a))
    decreases |s|, 1
  {
    if s == [] {
      assert Esc(s, a) + "\"" + r == "\"" + r;
      SkipNoBrace("\"", r, p, Esc(v, a));
    } else if StartsWith(s, p) {
      ReplaceEscHitStep(s, p, v, a, r);
    } else {
      ReplaceEscMissStep(s, p, v, a, r);
    }
  }

  lemma {:induction false} ReplaceEscHitStep(s: string, p: string, v: string, a: bool, r: string)
    requires Pattern(p) && StartsWith(s, p)
    ensures Replace(Esc(s, a) + "\"" + r, p, Esc(v, a))
      == Esc(Replace(s, p, v), a) + "\"" + Replace(r, p, Esc(v, a))
    decreases |s|, 0
  {
    var ev := Esc(v, a);
    var rest := s[|p|..];
    ReplaceEscHit(s, p, ev, a, r);
    ReplaceEsc(rest, p, v, a, r);
    assert Replace(s, p, v) == v + Replace(rest, p, v);
    EscAppend(v, Replace(rest, p, v), a);
    Assoc4(ev, Esc(Replace(rest, p, v), a), "\"", Replace(r, p, ev));
  }

  lemma {:induction false} ReplaceEscMissStep(s: string, p: string, v: string, a: bool, r: string)
    requires Pattern(p) && s != [] && !StartsWith(s, p)
    ensures Replace(Esc(s, a) + "\"" + r, p, Esc(v, a))
      == Esc(Replace(s, p, v), a) + "\"" + Replace(r, p, Esc(v, a))
    decreases |s|, 0
  {
    var ev := Esc(v, a);
    ReplaceEscMiss(s, p, ev, a, r);
    ReplaceEsc(s[1..], p, v, a, r);
    assert Replace(s, p, v) == [s[0]] + Replace(s[1..], p, v);
    EscCons(s[0], Replace(s[1..], p, v), a);
    Assoc4(EscChar(s[0], a), Esc(Replace(s[1..], p, v), a), "\"", Replace(r, p, ev));
  }

  lemma ReplaceQuote(s: string, p: string, v: string, a: bool, r: string)
    requires Pattern(p)
    ensures Replace(Quote(s, a) + r, p, Esc(v, a)) == Quote(Replace(s, p, v), a) + Replace(r, p, Esc(v, a))
  {
    var ev := Esc(v, a);
    var y := Esc(s, a) + "\"" + r;
    assert Quote(s, a) + r == "\"" + y;
    SkipNoBrace("\"", y, p, ev);
    ReplaceEsc(s, p, v, a, r);
    Assoc4("\"", Esc(Replace(s, p, v), a), "\"", Replace(r, p, ev));
  }

  // ---------------------------------------------------------------------------
  // Substitution inside a value

  /** `p` replaced by `v` in every string of `j`, keys included. */
  function Subst(j: Json, p: string, v: string): Json
    requires p != []
    decreases j
  {
    match j
    case JStr(s) => JStr(Replace(s, p, v))
    case JArr(items) => JArr(SubstItems(items, p, v))
    case JObj(members) => JObj(SubstMembers(members, p, v))
    case _ => j
  }

  function SubstItems(items: seq<Json>, p: string, v: string): (r: seq<Json>)
    requires p != []
    ensures |r| == |items|
    decreases items
  {
    if items == [] then [] else [Subst(items[0], p, v)] + SubstItems(items[1..], p, v)
  }

  function SubstMembers(members: seq<Member>, p: string, v: string): (r: seq<Member>)
    requires p != []
    ensures |r| == |members|
    decreases members
  {
    if members == [] then []
    else [Member(Replace(members[0].key, p, v), Subst(members[0].value, p, v))] + SubstMembers(members[1..], p, v)
  }

  // ---------------------------------------------------------------------------
  // Replacing in written values

  lemma NatTextNoBrace(n: nat)
    ensures '{' !in NatText(n)
  {
    var d := NatText(n);
    forall i | 0 <= i < |d| ensures d[i] != '{' {
      assert IsDigit(d[i]);
    }
  }

  lemma ScalarNoBrace(j: Json, f: Format, level: nat)
    requires j.JNull? || j.JBool? || j.JNum?
    ensures '{' !in Dumps(j, f, level)
  {
    if j.JNum? {
      NatTextNoBrace(if j.n < 0 then -j.n else j.n);
      if j.n < 0 {
        assert IntText(j.n) == "-" + NatText(-j.n);
      }
    }
  }

  lemma NewlineNoBrace(f: Format, level: nat)
    ensures '{' !in Newline(f, level) && '{' !in ItemSep(f, level)
  {
    NewlineWs(f, level);
  }

  lemma ReplaceEmpty(j: Json, f: Format, level: nat, p: string, ev: string, r: string)
    requires Pattern(p) && (j == JArr([]) || j == JObj([]))
    ensures Replace(Dumps(j, f, level) + r, p, ev) == Dumps(j, f, level) + Replace(r, p, ev)
  {
    if j.JArr? {
      SkipNoBrace("[]", r, p, ev);
    } else {
      assert Dumps(j, f, level) + r == "{" + ("}" + r);
      SkipBrace("}" + r, p, ev);
      SkipNoBrace("}", r, p, ev);
    }
  }

  lemma ArrayText(items: seq<Json>, f: Format, level: nat, r: string)
    requires items != []
    ensures Dumps(JArr(items), f, level) + r
      == "[" + (Newline(f, level + 1) + (DumpsItems(items, f, level + 1) + (Newline(f, level) + "]" + r)))
  {
    Nest("[", Newline(f, level + 1), DumpsItems(items, f, level + 1), Newline(f, level), "]", r);
  }

  lemma ReplaceArray(items: seq<Json>, f: Format, level: nat, p: string, v: string, r: string)
    requires Pattern(p) && items != []
    ensures Replace(Dumps(JArr(items), f, level) + r, p, Esc(v, f.ensureAscii))
      == Dumps(Subst(JArr(items), p, v), f, level) + Replace(r, p, Esc(v, f.ensureAscii))
    decreases JArr(items), 0
  {
    var ev := Esc(v, f.ensureAscii);
    var nl, close := Newline(f, level + 1), Newline(f, level) + "]";
    var body := DumpsItems(items, f, level + 1);
    var items' := SubstItems(items, p, v);
    ArrayText(items, f, level, r);
    NewlineNoBrace(f, level + 1);
    NewlineNoBrace(f, level);
    SkipNoBrace("[", nl + (body + (close + r)), p, ev);
    SkipNoBrace(nl, body + (close + r), p, ev);
    ReplaceItems(items, f, level + 1, p, v, close + r);
    SkipNoBrace(close, r, p, ev);
    assert Subst(JArr(items), p, v) == JArr(items');
    ArrayText(items', f, level, Replace(r, p, ev));
  }

  lemma ObjectText(members: seq<Member>, f: Format, level: nat, r: string)
    requires members != []
    ensures Dumps(JObj(members), f, level) + r
      == "{" + (Newline(f, level + 1) + (DumpsMembers(members, f, level + 1) + (Newline(f, level) + "}" + r)))
  {
    Nest("{", Newline(f, level + 1), DumpsMembers(members, f, level + 1), Newline(f, level), "}", r);
  }

  lemma ReplaceObject(members: seq<Member>, f: Format, level: nat, p: string, v: string, r: string)
    requires Pattern(p) && members != []
    ensures Replace(Dumps(JObj(members), f, level) + r, p, Esc(v, f.ensureAscii))
      == Dumps(Subst(JObj(members), p, v), f, level) + Replace(r, p, Esc(v, f.ensureAscii))
    decreases JObj(members), 0
  {
    var ev := Esc(v, f.ensureAscii);
    var nl, close := Newline(f, level + 1), Newline(f, level) + "}";
    var body := DumpsMembers(members, f, level + 1);
    var members' := SubstMembers(members, p, v);
    var y := nl + (body + (close + r));
    ObjectText(members, f, level, r);
    DumpsMembersFirst(members, f, level + 1);
    assert y[0] == '\n' || y[0] == '"';
    SkipBrace(y, p, ev);
    NewlineNoBrace(f, level + 1);
    NewlineNoBrace(f, level);
    SkipNoBrace(nl, body + (close + r), p, ev);
    ReplaceMembers(members, f, level + 1, p, v, close + r);
    SkipNoBrace(close, r, p, ev);
    assert Subst(JObj(members), p, v) == JObj(members');
    ObjectText(members', f, level, Replace(r, p, ev));
  }

  /** Replacing in the written form of a value, followed by any text `r`,
      writes the substituted value, provided the replacement is the written
      form of `v` in the same format. */
  lemma {:induction false} ReplaceDumps(j: Json, f: Format, level: nat, p: string, v: string, r: string)
    requires Pattern(p)
    ensures Replace(Dumps(j, f, level) + r, p, Esc(v, f.ensureAscii))
      == Dumps(Subst(j, p, v), f, level) + Replace(r, p, Esc(v, f.ensureAscii))
    decreases j, 1
  {
    var ev := Esc(v, f.ensureAscii);
    match j {
      case JNull =>
        ScalarNoBrace(j, f, level);
        SkipNoBrace(Dumps(j, f, level), r, p, ev);
      case JBool(_) =>
        ScalarNoBrace(j, f, level);
        SkipNoBrace(Dumps(j, f, level), r, p, ev);
      case JNum(_) =>
        ScalarNoBrace(j, f, level);
        SkipNoBrace(Dumps(j, f, level), r, p, ev);
      case JStr(s) =>
        ReplaceQuote(s, p, v, f.ensureAscii, r);
      case JArr(items) =>
        if items == [] { ReplaceEmpty(j, f, level, p, ev, r); } else { ReplaceArray(items, f, level, p, v, r); }
      case JObj(members) =>
        if members == [] { ReplaceEmpty(j, f, level, p, ev, r); } else { ReplaceObject(members, f, level, p, v, r); }
    }
  }

  lemma ItemsText(items: seq<Json>, f: Format, level: nat, r: string)
    requires |items| > 1
    ensures DumpsItems(items, f, level) + r
      == Dumps(items[0], f, level) + (ItemSep(f, level) + (DumpsItems(items[1..], f, level) + r))
  {
  }

  lemma {:induction false} ReplaceItems(items: seq<Json>, f: Format, level: nat, p: string, v: string, r: string)
    requires Pattern(p) && items != []
    ensures Replace(DumpsItems(items, f, level) + r, p, Esc(v, f.ensureAscii))
      == DumpsItems(SubstItems(items, p, v), f, level) + Replace(r, p, Esc(v, f.ensureAscii))
    decreases items, 2
  {
    var ev := Esc(v, f.ensureAscii);
    var items' := SubstItems(items, p, v);
    assert items'[0] == Subst(items[0], p, v);
    var head' := Dumps(items'[0], f, level);
    if |items| == 1 {
      assert DumpsItems(items, f, level) == Dumps(items[0], f, level);
      assert DumpsItems(items', f, level) == head';
      ReplaceDumps(items[0], f, level, p, v, r);
    } else {
      var sep := ItemSep(f, level);
      var rest := DumpsItems(items[1..], f, level) + r;
      ItemsText(items, f, level, r);
      ReplaceDumps(items[0], f, level, p, v, sep + rest);
      NewlineNoBrace(f, level);
      SkipNoBrace(sep, rest, p, ev);
      ReplaceItems(items[1..], f, level, p, v, r);
      assert items'[1..] == SubstItems(items[1..], p, v);
      ItemsText(items', f, level, Replace(r, p, ev));
    }
  }

  lemma MembersText(members: seq<Member>, f: Format, level: nat, r: string)
    requires |members| > 1
    ensures DumpsMembers(members, f, level) + r
      == DumpsMember(members[0], f, level) + (ItemSep(f, level) + (DumpsMembers(members[1..], f, level) + r))
  {
  }

  lemma MemberText(m: Member, f: Format, level: nat, r: string)
    ensures DumpsMember(m, f, level) + r
      == Quote(m.key, f.ensureAscii) + (": " + (Dumps(m.value, f, level) + r))
  {
  }

  lemma ReplaceMember(m: Member, f: Format, level: nat, p: string, v: string, r: string)
    requires Pattern(p)
    ensures Replace(DumpsMember(m, f, level) + r, p, Esc(v, f.ensureAscii))
      == DumpsMember(Member(Replace(m.key, p, v), Subst(m.value, p, v)), f, level) + Replace(r, p, Esc(v, f.ensureAscii))
    decreases m, 0
  {
    var ev := Esc(v, f.ensureAscii);
    var value := Dumps(m.value, f, level) + r;
    MemberText(m, f, level, r);
    ReplaceQuote(m.key, p, v, f.ensureAscii, ": " + value);
    SkipNoBrace(": ", value, p, ev);
    ReplaceDumps(m.value, f, level, p, v, r);
    MemberText(Member(Replace(m.key, p, v), Subst(m.value, p, v)), f, level, Replace(r, p, ev));
  }

  lemma {:induction false} ReplaceMembers(members: seq<Member>, f: Format, level: nat, p: string, v: string, r: string)
    requires Pattern(p) && members != []
    ensures Replace(DumpsMembers(members, f, level) + r, p, Esc(v, f.ensureAscii))
      == DumpsMembers(SubstMembers(members, p, v), f, level) + Replace(r, p, Esc(v, f.ensureAscii))
    decreases members, 2
  {
    var ev := Esc(v, f.ensureAscii);
    var members' := SubstMembers(members, p, v);
    var m := members[0];
    assert members'[0] == Member(Replace(m.key, p, v), Subst(m.value, p, v));
    var head' := DumpsMember(members'[0], f, level);
    if |members| == 1 {
      assert DumpsMembers(members, f, level) == DumpsMember(m, f, level);
      assert DumpsMembers(members', f, level) == head';
      ReplaceMember(m, f, level, p, v, r);
    } else {
      var sep := ItemSep(f, level);
      var rest := DumpsMembers(members[1..], f, level) + r;
      MembersText(members, f, level, r);
      ReplaceMember(m, f, level, p, v, sep + rest);
      NewlineNoBrace(f, level);
      SkipNoBrace(sep, rest, p, ev);
      ReplaceMembers(members[1..], f, level, p, v, r);
      assert members'[1..] == SubstMembers(members[1..], p, v);
      MembersText(members', f, level, Replace(r, p, ev));
    }
  }

  // ---------------------------------------------------------------------------
  // Templates written in ASCII

  /** `json.dumps(x, ensure_ascii=False)` on one line. */
  const Compact := Format(None, false)

  predicate AsciiText(s: string) {
    forall i :: 0 <= i < |s| ==> s[i] < '\U{7F}'
  }

  /** Every key and every string of `j` is ASCII. */
  predicate AsciiJson(j: Json)
    decreases j
  {
    match j
    case JStr(s) => AsciiText(s)
    case JArr(items) => forall i :: 0 <= i < |items| ==> AsciiJson(items[i])
    case JObj(members) =>
      forall i :: 0 <= i < |members| ==> AsciiText(members[i].key) && AsciiJson(members[i].value)
    case _ => true
  }

  lemma {:induction false} EscAscii(s: string)
    requires AsciiText(s)
    ensures Esc(s, true) == Esc(s, false)
    decreases |s|
  {
    if s != [] {
      EscAscii(s[1..]);
    }
  }

  /** For an ASCII value the ASCII escaping changes nothing. */
  lemma {:induction false} DumpsAscii(j: Json, indent: Option<nat>, level: nat)
    requires AsciiJson(j)
    ensures Dumps(j, Format(indent, true), level) == Dumps(j, Format(indent, false), level)
    decreases j, 1
  {
    match j {
      case JStr(s) => EscAscii(s);
      case JArr(items) => if items != [] { DumpsItemsAscii(items, indent, level + 1); }
      case JObj(members) => if members != [] { DumpsMembersAscii(members, indent, level + 1); }
      case _ =>
    }
  }

  lemma {:induction false} DumpsItemsAscii(items: seq<Json>, indent: Option<nat>, level: nat)
    requires items != [] && forall i :: 0 <= i < |items| ==> AsciiJson(items[i])
    ensures DumpsItems(items, Format(indent, true), level) == DumpsItems(items, Format(indent, false), level)
    decreases items, 0
  {
    DumpsAscii(items[0], indent, level);
    if |items| > 1 {
      DumpsItemsAscii(items[1..], indent, level);
    }
  }

  lemma {:induction false} DumpsMembersAscii(members: seq<Member>, indent: Option<nat>, level: nat)
    requires members != []
    requires forall i :: 0 <= i < |members| ==> AsciiText(members[i].key) && AsciiJson(members[i].value)
    ensures DumpsMembers(members, Format(indent, true), level) == DumpsMembers(members, Format(indent, false), level)
    decreases members, 0
  {
    EscAscii(members[0].key);
    DumpsAscii(members[0].value, indent, level);
    if |members| > 1 {
      DumpsMembersAscii(members[1..], indent, level);
    }
  }

  // ---------------------------------------------------------------------------
  // The substitution loop

  /** A value that can be put into the written text as it is: no '"', no
      '\\' and no control character, so that `Esc(v, false) == v`. */
  predicate SafeValue(v: string) {
    forall i :: 0 <= i < |v| ==> v[i] >= ' ' && v[i] != '"' && v[i] != '\\'
  }

  lemma {:induction false} EscSafe(v: string)
    requires SafeValue(v)
    ensures Esc(v, false) == v
    decreases |v|
  {
    if v != [] {
      assert ShortEscape(v[0]).None?;
      EscSafe(v[1..]);
      assert [v[0]] + v[1..] == v;
    }
  }

  predicate PlainKeys(values: seq<(string, string)>) {
    forall i :: 0 <= i < |values| ==> Plain(values[i].0)
  }

  predicate SafeValues(values: seq<(string, string)>) {
    forall i :: 0 <= i < |values| ==> SafeValue(values[i].1)
  }

  /** The template with each `(key, value)` substituted in turn inside its
      strings: what `fill_template` is meant to return. */
  function Fill(t: Json, values: seq<(string, string)>): Json
    decreases |values|
  {
    if values == [] then t
    else
      var (key, v) := values[|values| - 1];
      Subst(Fill(t, values[..|values| - 1]), Placeholder(key), v)
  }

  /** The text after the loop of `fill_template`: each `{{key}}` replaced,
      in turn, by the value as it is. */
  function ReplaceEach(text: string, values: seq<(string, string)>): string
    decreases |values|
  {
    if values == [] then text
    else
      var (key, v) := values[|values| - 1];
      Replace(ReplaceEach(text, values[..|values| - 1]), Placeholder(key), v)
  }

  /** The same loop with each value written as `json.dumps` writes it inside
      a string. */
  function ReplaceEachEscaped(text: string, values: seq<(string, string)>): string
    decreases |values|
  {
    if values == [] then text
    else
      var (key, v) := values[|values| - 1];
      Replace(ReplaceEachEscaped(text, values[..|values| - 1]), Placeholder(key), Esc(v, true))
  }

  lemma InitKeys(values: seq<(string, string)>)
    requires values != [] && PlainKeys(values)
    ensures PlainKeys(values[..|values| - 1]) && Plain(values[|values| - 1].0)
  {
    var init := values[..|values| - 1];
    forall i | 0 <= i < |init| ensures Plain(init[i].0) {
      assert init[i] == values[i];
    }
  }

  lemma InitValues(values: seq<(string, string)>)
    requires values != [] && SafeValues(values)
    ensures SafeValues(values[..|values| - 1]) && SafeValue(values[|values| - 1].1)
  {
    var init := values[..|values| - 1];
    forall i | 0 <= i < |init| ensures SafeValue(init[i].1) {
      assert init[i] == values[i];
    }
  }

  /** One more substitution, on the text and on the value alike. */
  lemma SubstStep(j: Json, f: Format, key: string, v: string)
    requires Plain(key)
    ensures Replace(Dumps(j, f, 0), Placeholder(key), Esc(v, f.ensureAscii))
      == Dumps(Subst(j, Placeholder(key), v), f, 0)
  {
    var p := Placeholder(key);
    PlaceholderPattern(key);
    ReplaceDumps(j, f, 0, p, v, []);
    assert Dumps(j, f, 0) + [] == Dumps(j, f, 0);
    assert Replace([], p, Esc(v, f.ensureAscii)) == [];
    assert Dumps(Subst(j, p, v), f, 0) + [] == Dumps(Subst(j, p, v), f, 0);
  }

  /** For an ASCII template and safe values, the loop's text is the filled
      template written without ASCII escaping. */
  lemma {:induction false} ReplaceEachCompact(t: Json, values: seq<(string, string)>)
    requires AsciiJson(t) && PlainKeys(values) && SafeValues(values)
    ensures ReplaceEach(Dumps(t, Default, 0), values) == Dumps(Fill(t, values), Compact, 0)
    decreases |values|
  {
    if values == [] {
      DumpsAscii(t, None, 0);
    } else {
      var init := values[..|values| - 1];
      var (key, v) := values[|values| - 1];
      InitKeys(values);
      InitValues(values);
      ReplaceEachCompact(t, init);
      EscSafe(v);
      SubstStep(Fill(t, init), Compact, key, v);
    }
  }

  /** `fill_template` as written: with an ASCII template, keys of plain
      characters and values free of '"', '\\' and control characters, it
      returns the template with the values substituted inside its strings
      (objects read back as dictionaries). */
  lemma FillAsWritten(t: Json, values: seq<(string, string)>)
    requires AsciiJson(t) && PlainKeys(values) && SafeValues(values)
    ensures Loads(ReplaceEach(Dumps(t, Default, 0), values)) == Some(Canon(Fill(t, values)))
  {
    ReplaceEachCompact(t, values);
    LoadsDumps(Fill(t, values), Compact);
  }

  lemma {:induction false} ReplaceEachEscapedDumps(t: Json, values: seq<(string, string)>)
    requires PlainKeys(values)
    ensures ReplaceEachEscaped(Dumps(t, Default, 0), values) == Dumps(Fill(t, values), Default, 0)
    decreases |values|
  {
    if values != [] {
      var init := values[..|values| - 1];
      var (key, v) := values[|values| - 1];
      InitKeys(values);
      ReplaceEachEscapedDumps(t, init);
      SubstStep(Fill(t, init), Default, key, v);
    }
  }

  /** With escaped values the same holds for every template and every value. */
  lemma FillEscaped(t: Json, values: seq<(string, string)>)
    requires PlainKeys(values)
    ensures Loads(ReplaceEachEscaped(Dumps(t, Default, 0), values)) == Some(Canon(Fill(t, values)))
  {
    ReplaceEachEscapedDumps(t, values);
    LoadsDumps(Fill(t, values), Default);
  }
}
