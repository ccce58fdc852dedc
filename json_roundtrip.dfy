/** `loads` reads back what `dumps` writes, in both of the formats the
    injector uses: objects come back as dictionaries (`Canon`), and a value
    whose objects already have distinct keys comes back unchanged. */
module JsonRoundTrip {
  import opened Text
  import opened JsonCodec

  predicate AllWs(w: string) {
    forall i :: 0 <= i < |w| ==> IsWs(w[i])
  }

  /** What may follow a value in a document `dumps` wrote. */
  predicate Follows(r: string) {
    r == [] || r[0] == ',' || r[0] == ']' || r[0] == '}' || IsWs(r[0])
  }

  /** Regrouping a separator's first character off a run of concatenations. */
  lemma Regroup(a: string, b: string, c: string, d: string, e: string, g: string)
    ensures a + b + c + d + e + g == a + (b + c + d + e + g)
  {
  }

  // ---------------------------------------------------------------------------
  // Whitespace

  lemma {:induction false} SkipWsAllWs(w: string, x: string)
    requires AllWs(w)
    ensures SkipWs(w + x) == SkipWs(x)
    decreases |w|
  {
    if w != [] {
      assert (w + x)[1..] == w[1..] + x;
      SkipWsAllWs(w[1..], x);
    } else {
      assert w + x == x;
    }
  }

  lemma SkipWsStops(s: string)
    requires s != [] && !IsWs(s[0])
    ensures SkipWs(s) == s
  {
  }

  lemma NewlineWs(f: Format, level: nat)
    ensures AllWs(Newline(f, level))
  {
  }

  lemma ItemSepShape(f: Format, level: nat) returns (w: string)
    ensures ItemSep(f, level) == "," + w && AllWs(w)
  {
    if f.indent.None? {
      w := " ";
    } else {
      w := Newline(f, level);
      NewlineWs(f, level);
    }
  }

  lemma ParseValueWs(w: string, x: string)
    requires AllWs(w)
    ensures ParseValue(w + x) == ParseValue(x)
  {
    SkipWsAllWs(w, x);
  }

  // ---------------------------------------------------------------------------
  // Numbers

  lemma DigitsValueSnoc(d: string, c: char)
    requires IsDigit(c)
    ensures DigitsValue(d + [c]) == DigitsValue(d) * 10 + (c as int - '0' as int)
  {
    assert (d + [c])[..|d|] == d;
  }

  lemma {:induction false} NatTextValue(n: nat)
    ensures DigitsValue(NatText(n)) == n
    decreases n
  {
    if n < 10 {
      assert NatText(n) == [] + [DigitChar(n)];
      DigitsValueSnoc([], DigitChar(n));
    } else {
      NatTextValue(n / 10);
      DigitsValueSnoc(NatText(n / 10), DigitChar(n % 10));
    }
  }

  lemma {:induction false} DigitRunAppend(d: string, r: string)
    requires forall i :: 0 <= i < |d| ==> IsDigit(d[i])
    requires r == [] || !IsDigit(r[0])
    ensures DigitRun(d + r) == |d|
    decreases |d|
  {
    if d != [] {
      assert (d + r)[1..] == d[1..] + r;
      DigitRunAppend(d[1..], r);
    } else {
      assert d + r == r;
    }
  }

  lemma ParseNat(n: nat, r: string)
    requires Follows(r)
    ensures ParseNumber(NatText(n) + r) == Some((JNum(n), r))
  {
    var d := NatText(n);
    var s := d + r;
    assert s[0] == d[0];
    assert s[..|d|] == d && s[|d|..] == r;
    if d[0] != '0' {
      DigitRunAppend(d, r);
    }
    NatTextValue(n);
  }

  lemma FollowsNotFloat(r: string)
    requires Follows(r)
    ensures !IsFloatTail(r) && (r == [] || !IsDigit(r[0]))
  {
  }

  /** `ParseNumber` on a '-' and a digit run without a leading zero. */
  lemma ParseNegSplit(s: string, d: string, r: string)
    requires s != [] && s[0] == '-' && |d| < |s| && s[1..][..|d|] == d && s[1..][|d|..] == r
    requires d != [] && d[0] != '0' && IsDigit(d[0])
    requires DigitRun(s[1..]) == |d| && !IsFloatTail(r)
    ensures ParseNumber(s) == Some((JNum(0 - DigitsValue(d)), r))
  {
    assert s[1..][0] == d[0];
  }

  lemma ParseNegParts(d: string, r: string)
    requires d != [] && d[0] != '0' && IsDigit(d[0])
    requires DigitRun(d + r) == |d| && !IsFloatTail(r)
    ensures ParseNumber("-" + d + r) == Some((JNum(0 - DigitsValue(d)), r))
  {
    NegSlices(d, r);
    ParseNegSplit("-" + d + r, d, r);
  }

  /** The parts of a '-' followed by `d` and `r`. */
  lemma NegSlices(d: string, r: string)
    ensures var s := "-" + d + r;
      s != [] && s[0] == '-' && |d| < |s| && s[1..] == d + r && s[1..][..|d|] == d && s[1..][|d|..] == r
  {
    var s := "-" + d + r;
    var u := d + r;
    assert s[1..] == u;
    assert u[..|d|] == d && u[|d|..] == r;
  }

  lemma ParseNeg(m: nat, r: string)
    requires Follows(r) && m > 0
    ensures ParseNumber("-" + NatText(m) + r) == Some((JNum(0 - m), r))
  {
    var d := NatText(m);
    FollowsNotFloat(r);
    DigitRunAppend(d, r);
    NatTextValue(m);
    ParseNegParts(d, r);
  }

  lemma ParseInt(n: int, r: string)
    requires Follows(r)
    ensures ParseNumber(IntText(n) + r) == Some((JNum(n), r))
  {
    if n < 0 {
      ParseNeg(-n, r);
    } else {
      ParseNat(n, r);
    }
  }

  // ---------------------------------------------------------------------------
  // Strings

  lemma HexCharValue(d: nat)
    requires d < 16
    ensures HexValue(HexChar(d)) == Some(d)
  {
  }

  lemma Hex4Round(n: nat, x: string)
    requires n < 0x10000
    ensures Hex4Value(Hex4(n) + x) == Some(n)
  {
    var s := Hex4(n) + x;
    var r1 := n % 0x1000;
    var r2 := r1 % 0x100;
    var a, b, c, d := n / 0x1000, r1 / 0x100, r2 / 0x10, r2 % 0x10;
    HexCharValue(a);
    HexCharValue(b);
    HexCharValue(c);
    HexCharValue(d);
    assert s[0] == HexChar(a) && s[1] == HexChar(b) && s[2] == HexChar(c) && s[3] == HexChar(d);
    assert n == a * 0x1000 + r1;
    assert r1 == b * 0x100 + r2;
    assert r2 == c * 0x10 + d;
  }

  /** A `\uXXXX` escape of a character below U+10000 is read back. */
  lemma ParseUnicodeBmp(c: char, x: string)
    requires (c as int) < 0x10000
    ensures ParseEscape("u" + Hex4(c as int) + x) == Some((c, x))
  {
    var s := "u" + Hex4(c as int) + x;
    assert s[1..] == Hex4(c as int) + x;
    Hex4Round(c as int, x);
    assert s[1..][4..] == x;
  }

  /** A surrogate pair is read back as the character above U+FFFF. */
  lemma ParseUnicodePair(c: char, x: string)
    requires (c as int) >= 0x10000
    ensures var v := c as int - 0x10000;
      ParseEscape("u" + Hex4(0xD800 + v / 0x400) + ("\\u" + Hex4(0xDC00 + v % 0x400)) + x) == Some((c, x))
  {
    var v := c as int - 0x10000;
    var hi, lo := 0xD800 + v / 0x400, 0xDC00 + v % 0x400;
    var tail := "\\u" + Hex4(lo) + x;
    var s := "u" + Hex4(hi) + ("\\u" + Hex4(lo)) + x;
    assert s[1..] == Hex4(hi) + tail;
    Hex4Round(hi, tail);
    var u := s[1..];
    assert u[4] == '\\' && u[5] == 'u';
    assert u[6..] == Hex4(lo) + x;
    Hex4Round(lo, x);
    assert u[10..] == x;
    SurrogateSplit(c);
    UnicodePairAt(u, hi, lo, c, x);
  }

  /** The two halves of a surrogate pair join back into the character. */
  lemma SurrogateSplit(c: char)
    requires (c as int) >= 0x10000
    ensures var v := c as int - 0x10000;
      var hi, lo := 0xD800 + v / 0x400, 0xDC00 + v % 0x400;
      IsHighSurrogate(hi) && IsLowSurrogate(lo) &&
      c as int == 0x10000 + (hi - 0xD800) * 0x400 + (lo - 0xDC00)
  {
  }

  lemma UnicodePairAt(u: string, hi: int, lo: int, c: char, x: string)
    requires |u| >= 10 && Hex4Value(u) == Some(hi) && u[4] == '\\' && u[5] == 'u'
    requires Hex4Value(u[6..]) == Some(lo) && u[10..] == x
    requires IsHighSurrogate(hi) && IsLowSurrogate(lo)
    requires c as int == 0x10000 + (hi - 0xD800) * 0x400 + (lo - 0xDC00)
    ensures ParseUnicode(u) == Some((c, x))
  {
  }

  /** A two-character escape is read back. */
  lemma ParseShortEscape(e: char, c: char, x: string)
    requires ParseEscape([e] + x) == Some((c, x))
    ensures ParseStr("\\" + [e] + x) == PrependChar(c, ParseStr(x))
  {
    var s := "\\" + [e] + x;
    assert s[1..] == [e] + x;
  }

  lemma ParseBmpEscape(c: char, x: string)
    requires (c as int) < 0x10000
    ensures ParseStr(UnicodeEscape(c as int) + x) == PrependChar(c, ParseStr(x))
  {
    var s := UnicodeEscape(c as int) + x;
    assert s[1..] == "u" + Hex4(c as int) + x;
    ParseUnicodeBmp(c, x);
  }

  lemma ParsePairEscape(c: char, x: string)
    requires (c as int) >= 0x10000
    ensures var v := c as int - 0x10000;
      ParseStr(UnicodeEscape(0xD800 + v / 0x400) + UnicodeEscape(0xDC00 + v % 0x400) + x)
        == PrependChar(c, ParseStr(x))
  {
    var v := c as int - 0x10000;
    var s := UnicodeEscape(0xD800 + v / 0x400) + UnicodeEscape(0xDC00 + v % 0x400) + x;
    assert s[1..] == "u" + Hex4(0xD800 + v / 0x400) + ("\\u" + Hex4(0xDC00 + v % 0x400)) + x;
    ParseUnicodePair(c, x);
  }

  /** One written character is read back as itself. */
  lemma ParseEscChar(c: char, ascii: bool, x: string)
    ensures ParseStr(EscChar(c, ascii) + x) == PrependChar(c, ParseStr(x))
  {
    if ShortEscape(c).Some? {
      var e := ShortEscape(c).value;
      assert ShortUnescape(e) == Some(c);
      assert ([e] + x)[1..] == x;
      ParseShortEscape(e, c, x);
    } else if c < ' ' {
      ParseBmpEscape(c, x);
    } else if !ascii || c < '\U{7F}' {
      assert EscChar(c, ascii) == [c];
      assert ([c] + x)[1..] == x;
    } else if (c as int) < 0x10000 {
      ParseBmpEscape(c, x);
    } else {
      ParsePairEscape(c, x);
    }
  }

  lemma {:induction false} ParseEsc(s: string, ascii: bool, r: string)
    ensures ParseStr(Esc(s, ascii) + "\"" + r) == Some((s, r))
    decreases |s|
  {
    if s == [] {
      assert Esc(s, ascii) + "\"" + r == "\"" + r;
    } else {
      assert Esc(s, ascii) + "\"" + r == EscChar(s[0], ascii) + (Esc(s[1..], ascii) + "\"" + r);
      ParseEscChar(s[0], ascii, Esc(s[1..], ascii) + "\"" + r);
      ParseEsc(s[1..], ascii, r);
      assert [s[0]] + s[1..] == s;
    }
  }

  lemma ParseQuote(s: string, ascii: bool, r: string)
    ensures ParseToken(Quote(s, ascii) + r) == Some((JStr(s), r))
  {
    var body := Esc(s, ascii) + "\"" + r;
    var t := Quote(s, ascii) + r;
    assert t == "\"" + body;
    assert t[0] == '"' && t[1..] == body;
    NotLiteral(t);
    ParseEsc(s, ascii, r);
    assert ParseStr(t[1..]) == Some((s, r));
  }

  // ---------------------------------------------------------------------------
  // Values

  lemma HeadMismatch(t: string, p: string)
    requires t != [] && p != [] && t[0] != p[0]
    ensures !StartsWith(t, p)
  {
    if |p| <= |t| {
      assert t[..|p|][0] == t[0];
    }
  }

  /** A token that does not start like `null`, `true` or `false`. */
  lemma NotLiteral(t: string)
    requires t != [] && t[0] != 'n' && t[0] != 't' && t[0] != 'f'
    ensures !StartsWith(t, "null") && !StartsWith(t, "true") && !StartsWith(t, "false")
  {
    HeadMismatch(t, "null");
    HeadMismatch(t, "true");
    HeadMismatch(t, "false");
  }

  lemma TokenObject(t: string)
    requires t != [] && t[0] == '{'
    ensures ParseToken(t) == ParseObject(t[1..])
  {
    NotLiteral(t);
  }

  lemma TokenArray(t: string)
    requires t != [] && t[0] == '['
    ensures ParseToken(t) == ParseArray(t[1..])
  {
    NotLiteral(t);
  }

  /** The first character `dumps` writes is never whitespace, ']' or '}'. */
  lemma DumpsFirst(j: Json, f: Format, level: nat)
    ensures var c := Dumps(j, f, level)[0];
      !IsWs(c) && c != ']' && c != '}' && c != ','
  {
    if j.JNum? {
      if j.n < 0 {
        assert IntText(j.n)[0] == '-';
      } else {
        assert IsDigit(NatText(j.n)[0]);
      }
    }
  }

  lemma DumpsItemsFirst(items: seq<Json>, f: Format, level: nat)
    requires items != []
    ensures DumpsItems(items, f, level) != []
    ensures DumpsItems(items, f, level)[0] == Dumps(items[0], f, level)[0]
  {
  }

  lemma ParseValueDumps(j: Json, f: Format, level: nat, r: string)
    requires Follows(r)
    ensures ParseValue(Dumps(j, f, level) + r) == Some((Canon(j), r))
    decreases j, 2
  {
    DumpsFirst(j, f, level);
    var s := Dumps(j, f, level) + r;
    assert s[0] == Dumps(j, f, level)[0];
    assert SkipWs(s) == s;
    ParseDumps(j, f, level, r);
  }

  lemma TokenNumber(t: string)
    requires t != [] && (t[0] == '-' || IsDigit(t[0]))
    ensures ParseToken(t) == ParseNumber(t)
  {
    NotLiteral(t);
  }

  lemma ParseNumberToken(n: int, r: string)
    requires Follows(r)
    ensures ParseToken(IntText(n) + r) == Some((JNum(n), r))
  {
    var s := IntText(n) + r;
    if n < 0 {
      assert s[0] == '-';
    } else {
      assert IsDigit(NatText(n)[0]);
      assert s[0] == NatText(n)[0];
    }
    TokenNumber(s);
    ParseInt(n, r);
  }

  lemma ParseArrayText(items: seq<Json>, f: Format, level: nat, w: string, c: string, r: string)
    requires items != [] && AllWs(w) && AllWs(c)
    ensures ParseArray(w + DumpsItems(items, f, level) + c + "]" + r) == Some((JArr(CanonItems(items)), r))
    decreases items, 1
  {
    var body := DumpsItems(items, f, level);
    var y := body + c + "]" + r;
    assert w + body + c + "]" + r == w + y;
    DumpsItemsFirst(items, f, level);
    DumpsFirst(items[0], f, level);
    SkipWsAllWs(w, y);
    assert y[0] == body[0];
    ParseDumpsItems(items, f, level, w, c, r);
  }

  lemma DumpsArrayShape(items: seq<Json>, f: Format, level: nat, r: string)
    requires items != []
    ensures Dumps(JArr(items), f, level) + r
      == "[" + (Newline(f, level + 1) + DumpsItems(items, f, level + 1) + Newline(f, level) + "]" + r)
  {
  }

  lemma ParseArrayDumps(items: seq<Json>, f: Format, level: nat, r: string)
    requires items != []
    ensures ParseToken(Dumps(JArr(items), f, level) + r) == Some((Canon(JArr(items)), r))
    decreases JArr(items), 0
  {
    var w := Newline(f, level + 1);
    var c := Newline(f, level);
    NewlineWs(f, level + 1);
    NewlineWs(f, level);
    var x := w + DumpsItems(items, f, level + 1) + c + "]" + r;
    DumpsArrayShape(items, f, level, r);
    var s := "[" + x;
    assert s[0] == '[' && s[1..] == x;
    TokenArray(s);
    ParseArrayText(items, f, level + 1, w, c, r);
  }

  lemma DumpsMembersFirst(members: seq<Member>, f: Format, level: nat)
    requires members != []
    ensures DumpsMembers(members, f, level) != [] && DumpsMembers(members, f, level)[0] == '"'
  {
  }

  lemma ParseObjectText(members: seq<Member>, f: Format, level: nat, w: string, c: string, r: string)
    requires members != [] && AllWs(w) && AllWs(c)
    ensures ParseObject(w + DumpsMembers(members, f, level) + c + "}" + r)
      == Some((JObj(Build(CanonMembers(members))), r))
    decreases members, 1
  {
    var body := DumpsMembers(members, f, level);
    var y := body + c + "}" + r;
    assert w + body + c + "}" + r == w + y;
    DumpsMembersFirst(members, f, level);
    SkipWsAllWs(w, y);
    assert y[0] == body[0];
    ParseDumpsMembers(members, f, level, w, c, r);
  }

  lemma DumpsObjectShape(members: seq<Member>, f: Format, level: nat, r: string)
    requires members != []
    ensures Dumps(JObj(members), f, level) + r
      == "{" + (Newline(f, level + 1) + DumpsMembers(members, f, level + 1) + Newline(f, level) + "}" + r)
  {
  }

  lemma ParseObjectDumps(members: seq<Member>, f: Format, level: nat, r: string)
    requires members != []
    ensures ParseToken(Dumps(JObj(members), f, level) + r) == Some((Canon(JObj(members)), r))
    decreases JObj(members), 0
  {
    var w := Newline(f, level + 1);
    var c := Newline(f, level);
    NewlineWs(f, level + 1);
    NewlineWs(f, level);
    var x := w + DumpsMembers(members, f, level + 1) + c + "}" + r;
    DumpsObjectShape(members, f, level, r);
    var s := "{" + x;
    assert s[0] == '{' && s[1..] == x;
    TokenObject(s);
    ParseObjectText(members, f, level + 1, w, c, r);
  }

  lemma ParseLiteral(t: string, r: string)
    requires t == "null" + r || t == "true" + r || t == "false" + r
    ensures t == "null" + r ==> ParseToken(t) == Some((JNull, r))
    ensures t == "true" + r ==> ParseToken(t) == Some((JBool(true), r))
    ensures t == "false" + r ==> ParseToken(t) == Some((JBool(false), r))
  {
    if t == "null" + r {
      assert t[4..] == r;
    } else if t == "true" + r {
      assert t[0] == 't' && t[4..] == r;
    } else {
      assert t[0] == 'f' && t[5..] == r;
    }
  }

  lemma CloseArray(r: string)
    ensures ParseArray("]" + r) == Some((JArr([]), r))
  {
    SkipWsStops("]" + r);
    assert ("]" + r)[1..] == r;
  }

  lemma CloseObject(r: string)
    ensures ParseObject("}" + r) == Some((JObj([]), r))
  {
    SkipWsStops("}" + r);
    assert ("}" + r)[1..] == r;
  }

  lemma ParseEmpty(j: Json, f: Format, level: nat, r: string)
    requires j == JArr([]) || j == JObj([])
    ensures ParseToken(Dumps(j, f, level) + r) == Some((Canon(j), r))
  {
    var s := Dumps(j, f, level) + r;
    if j.JArr? {
      assert s == "[" + ("]" + r) && s[1..] == "]" + r;
      TokenArray(s);
      CloseArray(r);
    } else {
      assert s == "{" + ("}" + r) && s[1..] == "}" + r;
      TokenObject(s);
      CloseObject(r);
    }
  }

  lemma {:induction false} ParseDumps(j: Json, f: Format, level: nat, r: string)
    requires Follows(r)
    ensures ParseToken(Dumps(j, f, level) + r) == Some((Canon(j), r))
    decreases j, 1
  {
    match j {
      case JNull => ParseLiteral(Dumps(j, f, level) + r, r);
      case JBool(b) => ParseLiteral(Dumps(j, f, level) + r, r);
      case JNum(n) => ParseNumberToken(n, r);
      case JStr(str) => ParseQuote(str, f.ensureAscii, r);
      case JArr(items) =>
        if items == [] { ParseEmpty(j, f, level, r); } else { ParseArrayDumps(items, f, level, r); }
      case JObj(members) =>
        if members == [] { ParseEmpty(j, f, level, r); } else { ParseObjectDumps(members, f, level, r); }
    }
  }

  /** What follows the last element: optional whitespace and the closer. */
  lemma CloseSkip(c: string, closer: char, r: string)
    requires AllWs(c) && (closer == ']' || closer == '}')
    ensures SkipWs(c + [closer] + r) == [closer] + r
  {
    var t := [closer] + r;
    assert c + [closer] + r == c + t;
    SkipWsAllWs(c, t);
    assert SkipWs(t) == t;
  }

  lemma CloseFollow(c: string, closer: char, r: string)
    requires AllWs(c) && (closer == ']' || closer == '}')
    ensures Follows(c + [closer] + r)
  {
    var t := c + [closer] + r;
    if c == [] {
      assert t[0] == closer;
    } else {
      assert t[0] == c[0];
    }
  }

  lemma CloseFollows(c: string, closer: char, r: string)
    requires AllWs(c) && (closer == ']' || closer == '}')
    ensures Follows(c + [closer] + r) && SkipWs(c + [closer] + r) == [closer] + r
  {
    CloseSkip(c, closer, r);
    CloseFollow(c, closer, r);
  }

  lemma MoreItemsLast(v: Json, c: string, r: string)
    requires AllWs(c)
    ensures MoreItems(v, c + "]" + r) == Some(([v], r))
  {
    CloseFollows(c, ']', r);
    assert ([']'] + r)[1..] == r;
  }

  lemma MoreItemsNext(v: Json, x: string)
    ensures MoreItems(v, "," + x) ==
      match ParseItems(x)
      case None => None
      case Some((vs, rest)) => Some(([v] + vs, rest))
  {
    var t := "," + x;
    assert t[0] == ',' && t[1..] == x;
    assert SkipWs(t) == t;
  }

  /** The text of the elements after the first one. */
  lemma ItemsShape(items: seq<Json>, f: Format, level: nat, w: string, c: string, r: string) returns (tail: string)
    requires items != []
    ensures w + DumpsItems(items, f, level) + c + "]" + r == w + (Dumps(items[0], f, level) + tail)
    ensures |items| == 1 ==> tail == c + "]" + r
    ensures |items| > 1 ==> tail == ItemSep(f, level) + DumpsItems(items[1..], f, level) + c + "]" + r
  {
    var more := if |items| == 1 then [] else ItemSep(f, level) + DumpsItems(items[1..], f, level);
    tail := more + c + "]" + r;
  }

  lemma ItemsStep(s: string, v: Json, rest: string)
    requires ParseValue(s) == Some((v, rest))
    ensures ParseItems(s) == MoreItems(v, rest)
  {
  }

  lemma {:induction false} ParseDumpsItems(items: seq<Json>, f: Format, level: nat, w: string, c: string, r: string)
    requires items != [] && AllWs(w) && AllWs(c)
    ensures ParseItems(w + DumpsItems(items, f, level) + c + "]" + r) == Some((CanonItems(items), r))
    decreases items, 0
  {
    var s := w + DumpsItems(items, f, level) + c + "]" + r;
    var tail := ItemsShape(items, f, level, w, c, r);
    var head := Dumps(items[0], f, level);
    var v := Canon(items[0]);
    assert s == w + (head + tail);
    ParseValueWs(w, head + tail);
    assert CanonItems(items) == [v] + CanonItems(items[1..]);
    if |items| == 1 {
      CloseFollows(c, ']', r);
      ParseValueDumps(items[0], f, level, tail);
      assert ParseValue(s) == Some((v, tail));
      ItemsStep(s, v, tail);
      MoreItemsLast(v, c, r);
      assert ParseItems(s) == Some(([v], r));
      assert CanonItems(items[1..]) == [];
      assert [v] + [] == [v];
    } else {
      var w' := ItemSepShape(f, level);
      var x := w' + DumpsItems(items[1..], f, level) + c + "]" + r;
      Regroup(",", w', DumpsItems(items[1..], f, level), c, "]", r);
      ParseValueDumps(items[0], f, level, tail);
      ItemsStep(s, v, tail);
      MoreItemsNext(v, x);
      ParseDumpsItems(items[1..], f, level, w', c, r);
    }
  }

  lemma MoreMembersLast(m: Member, c: string, r: string)
    requires AllWs(c)
    ensures MoreMembers(m, c + "}" + r) == Some(([m], r))
  {
    CloseFollows(c, '}', r);
    assert (['}'] + r)[1..] == r;
  }

  lemma MoreMembersNext(m: Member, x: string)
    ensures MoreMembers(m, "," + x) ==
      match ParseMembers(x)
      case None => None
      case Some((ms, rest)) => Some(([m] + ms, rest))
  {
    var t := "," + x;
    assert t[0] == ',' && t[1..] == x;
    assert SkipWs(t) == t;
  }

  lemma MembersShape(members: seq<Member>, f: Format, level: nat, w: string, c: string, r: string) returns (tail: string)
    requires members != []
    ensures w + DumpsMembers(members, f, level) + c + "}" + r == w + (DumpsMember(members[0], f, level) + tail)
    ensures |members| == 1 ==> tail == c + "}" + r
    ensures |members| > 1 ==> tail == ItemSep(f, level) + DumpsMembers(members[1..], f, level) + c + "}" + r
  {
    var more := if |members| == 1 then [] else ItemSep(f, level) + DumpsMembers(members[1..], f, level);
    tail := more + c + "}" + r;
  }

  lemma MemberRegroup(q: string, d: string, tail: string)
    ensures "\"" + q + "\"" + ": " + d + tail == "\"" + (q + "\"" + (": " + d + tail))
  {
  }

  lemma ColonValue(d: string, tail: string)
    ensures SkipWs(": " + d + tail) == ": " + d + tail
    ensures (": " + d + tail)[1..] == [' '] + (d + tail)
  {
  }

  /** How `ParseMembers` reads one `"key": value` pair. */
  lemma MembersUnfold(x: string, key: string, afterKey: string, v: Json, tail: string)
    requires x != [] && x[0] == '"' && ParseStr(x[1..]) == Some((key, afterKey))
    requires afterKey != [] && afterKey[0] == ':' && ParseValue(afterKey[1..]) == Some((v, tail))
    ensures ParseMembers(x) == MoreMembers(Member(key, v), tail)
  {
    SkipWsStops(x);
    SkipWsStops(afterKey);
  }

  /** A member's key and colon are read, then its value. */
  lemma ParseMemberHead(m: Member, f: Format, level: nat, tail: string, v: Json)
    requires ParseValue(Dumps(m.value, f, level) + tail) == Some((v, tail))
    ensures ParseMembers(DumpsMember(m, f, level) + tail) == MoreMembers(Member(m.key, v), tail)
  {
    var q := Esc(m.key, f.ensureAscii);
    var d := Dumps(m.value, f, level);
    var afterKey := ": " + d + tail;
    var y := q + "\"" + afterKey;
    var x := "\"" + y;
    MemberRegroup(q, d, tail);
    assert DumpsMember(m, f, level) + tail == x;
    assert x[0] == '"' && x[1..] == y;
    ParseEsc(m.key, f.ensureAscii, afterKey);
    ColonValue(d, tail);
    ParseValueWs([' '], d + tail);
    MembersUnfold(x, m.key, afterKey, v, tail);
  }

  lemma MembersStep(s: string, m: Member, f: Format, level: nat, tail: string, w: string, v: Json)
    requires AllWs(w)
    requires s == w + (DumpsMember(m, f, level) + tail)
    requires ParseValue(Dumps(m.value, f, level) + tail) == Some((v, tail))
    ensures ParseMembers(s) == MoreMembers(Member(m.key, v), tail)
  {
    var x := DumpsMember(m, f, level) + tail;
    SkipWsAllWs(w, x);
    assert SkipWs(x) == x;
    ParseMemberHead(m, f, level, tail, v);
  }

  lemma {:induction false} ParseDumpsMembers(members: seq<Member>, f: Format, level: nat, w: string, c: string, r: string)
    requires members != [] && AllWs(w) && AllWs(c)
    ensures ParseMembers(w + DumpsMembers(members, f, level) + c + "}" + r) == Some((CanonMembers(members), r))
    decreases members, 0
  {
    var s := w + DumpsMembers(members, f, level) + c + "}" + r;
    var m := members[0];
    var tail := MembersShape(members, f, level, w, c, r);
    var cm := Member(m.key, Canon(m.value));
    assert CanonMembers(members) == [cm] + CanonMembers(members[1..]);
    if |members| == 1 {
      CloseFollows(c, '}', r);
      ParseValueDumps(m.value, f, level, tail);
      MembersStep(s, m, f, level, tail, w, Canon(m.value));
      MoreMembersLast(cm, c, r);
      assert CanonMembers(members[1..]) == [];
      assert [cm] + [] == [cm];
    } else {
      var w' := ItemSepShape(f, level);
      var y := w' + DumpsMembers(members[1..], f, level) + c + "}" + r;
      Regroup(",", w', DumpsMembers(members[1..], f, level), c, "}", r);
      ParseValueDumps(m.value, f, level, tail);
      MembersStep(s, m, f, level, tail, w, Canon(m.value));
      MoreMembersNext(cm, y);
      ParseDumpsMembers(members[1..], f, level, w', c, r);
    }
  }

  /** `loads(dumps(j)) == Canon(j)`, for every format; a value whose objects
      have distinct keys comes back unchanged. */
  lemma LoadsDumps(j: Json, f: Format)
    ensures Loads(Dumps(j, f, 0)) == Some(Canon(j))
    ensures DistinctKeys(j) ==> Loads(Dumps(j, f, 0)) == Some(j)
  {
    ParseValueDumps(j, f, 0, []);
    assert Dumps(j, f, 0) + [] == Dumps(j, f, 0);
    if DistinctKeys(j) {
      CanonDistinct(j);
    }
  }
}
