/** The parts of Python's `json` module that the schema injector relies on:
    `dumps` with its default separators and ASCII escaping, `dumps` with
    `indent=2, ensure_ascii=False`, and `loads`. Numbers are integers only. */
module JsonCodec {
  import opened Text

  /** A JSON value. An object is the sequence of its members in order; it may
      repeat a key, which `loads` never produces (see `Build`). */
  datatype Json =
    | JNull
    | JBool(b: bool)
    | JNum(n: int)
    | JStr(s: string)
    | JArr(items: seq<Json>)
    | JObj(members: seq<Member>)

  datatype Member = Member(key: string, value: Json)

  /** `indent` is `None` for the one-line form; `ensureAscii` escapes every
      character outside ' '..'~'. */
  datatype Format = Format(indent: Option<nat>, ensureAscii: bool)

  /** `json.dumps(x)`. */
  const Default := Format(None, true)

  /** `json.dumps(x, indent=2, ensure_ascii=False)`. */
  const Pretty := Format(Some(2), false)

  // ---------------------------------------------------------------------------
  // Writing

  function DigitChar(d: nat): (c: char)
    requires d < 10
    ensures IsDigit(c)
  {
    ('0' as int + d) as char
  }

  /** The decimal digits of `n`, without leading zeros. */
  function NatText(n: nat): (r: string)
    ensures r != [] && forall i :: 0 <= i < |r| ==> IsDigit(r[i])
    ensures r[0] == '0' ==> n == 0 && |r| == 1
    decreases n
  {
    if n < 10 then [DigitChar(n)] else NatText(n / 10) + [DigitChar(n % 10)]
  }

  function IntText(n: int): string {
    if n < 0 then "-" + NatText(-n) else NatText(n)
  }

  function HexChar(d: nat): char
    requires d < 16
  {
    if d < 10 then DigitChar(d) else ('a' as int + d - 10) as char
  }

  /** Four lower-case hexadecimal digits. */
  function Hex4(n: nat): (r: string)
    requires n < 0x10000
    ensures |r| == 4
  {
    var r1 := n % 0x1000;
    var r2 := r1 % 0x100;
    [HexChar(n / 0x1000), HexChar(r1 / 0x100), HexChar(r2 / 0x10), HexChar(r2 % 0x10)]
  }

  function UnicodeEscape(n: nat): (r: string)
    requires n < 0x10000
    ensures |r| == 6 && r[0] == '\\' && r[1] == 'u'
  {
    "\\u" + Hex4(n)
  }

  /** The letter of the two-character escape of `c`, if it has one. */
  function ShortEscape(c: char): Option<char> {
    if c == '"' then Some('"')
    else if c == '\\' then Some('\\')
    else if c == '\n' then Some('n')
    else if c == '\r' then Some('r')
    else if c == '\t' then Some('t')
    else if c == '\U{8}' then Some('b')
    else if c == '\U{C}' then Some('f')
    else None
  }

  /** A character written inside a JSON string: the two-character escapes,
      `\u00XX` for the other control characters and, with `ascii`, `\uXXXX`
      (a surrogate pair above U+FFFF) for everything outside ' '..'~'. */
  function EscChar(c: char, ascii: bool): (r: string)
    ensures r != []
  {
    if ShortEscape(c).Some? then "\\" + [ShortEscape(c).value]
    else if c < ' ' then UnicodeEscape(c as int)
    else if !ascii || c < '\U{7F}' then [c]
    else if (c as int) < 0x10000 then UnicodeEscape(c as int)
    else
      var v := c as int - 0x10000;
      UnicodeEscape(0xD800 + v / 0x400) + UnicodeEscape(0xDC00 + v % 0x400)
  }

  function Esc(s: string, ascii: bool): string
    decreases |s|
  {
    if s == [] then [] else EscChar(s[0], ascii) + Esc(s[1..], ascii)
  }

  function Quote(s: string, ascii: bool): string {
    "\"" + Esc(s, ascii) + "\""
  }

  function Spaces(n: nat): (r: string)
    ensures |r| == n && forall i :: 0 <= i < n ==> r[i] == ' '
  {
    seq(n, _ => ' ')
  }

  /** What precedes an element at nesting `level`: nothing on one line, a
      line break and the indentation otherwise. */
  function Newline(f: Format, level: nat): string {
    match f.indent
    case None => []
    case Some(w) => "\n" + Spaces(w * level)
  }

  /** The separator between elements: ", " on one line, "," and a new
      indented line otherwise. */
  function ItemSep(f: Format, level: nat): string {
    if f.indent.None? then ", " else "," + Newline(f, level)
  }

  /** `json.dumps` of `j` nested `level` deep. */
  function Dumps(j: Json, f: Format, level: nat): (r: string)
    ensures r != []
    decreases j
  {
    match j
    case JNull => "null"
    case JBool(b) => if b then "true" else "false"
    case JNum(n) => IntText(n)
    case JStr(s) => Quote(s, f.ensureAscii)
    case JArr(items) =>
      if items == [] then "[]"
      else "[" + Newline(f, level + 1) + DumpsItems(items, f, level + 1) + Newline(f, level) + "]"
    case JObj(members) =>
      if members == [] then "{}"
      else "{" + Newline(f, level + 1) + DumpsMembers(members, f, level + 1) + Newline(f, level) + "}"
  }

  function DumpsItems(items: seq<Json>, f: Format, level: nat): string
    requires items != []
    decreases items
  {
    Dumps(items[0], f, level)
      + (if |items| == 1 then [] else ItemSep(f, level) + DumpsItems(items[1..], f, level))
  }

  function DumpsMember(m: Member, f: Format, level: nat): string
    decreases m
  {
    Quote(m.key, f.ensureAscii) + ": " + Dumps(m.value, f, level)
  }

  function DumpsMembers(members: seq<Member>, f: Format, level: nat): string
    requires members != []
    decreases members
  {
    DumpsMember(members[0], f, level)
      + (if |members| == 1 then [] else ItemSep(f, level) + DumpsMembers(members[1..], f, level))
  }

  // ---------------------------------------------------------------------------
  // Objects as Python dictionaries

  /** `d[m.key] = m.value`: a present key keeps its position and takes the
      new value, a new key goes last. */
  function Upsert(d: seq<Member>, m: Member): (r: seq<Member>)
    decreases |d|
  {
    if d == [] then [m]
    else if d[0].key == m.key then [m] + d[1..]
    else [d[0]] + Upsert(d[1..], m)
  }

  /** `dict(pairs)`: each key at its first position, with its last value. */
  function Build(pairs: seq<Member>): seq<Member>
    decreases |pairs|
  {
    if pairs == [] then [] else Upsert(Build(pairs[..|pairs| - 1]), pairs[|pairs| - 1])
  }

  /** The value `loads(dumps(j))` gives back: every object becomes a
      dictionary. */
  function Canon(j: Json): Json
    decreases j
  {
    match j
    case JArr(items) => JArr(CanonItems(items))
    case JObj(members) => JObj(Build(CanonMembers(members)))
    case _ => j
  }

  function CanonItems(items: seq<Json>): (r: seq<Json>)
    ensures |r| == |items|
    decreases items
  {
    if items == [] then [] else [Canon(items[0])] + CanonItems(items[1..])
  }

  function CanonMembers(members: seq<Member>): (r: seq<Member>)
    ensures |r| == |members|
    decreases members
  {
    if members == [] then []
    else [Member(members[0].key, Canon(members[0].value))] + CanonMembers(members[1..])
  }

  /** No object, at any depth, repeats a key. */
  predicate DistinctKeys(j: Json)
    decreases j
  {
    match j
    case JArr(items) => forall i :: 0 <= i < |items| ==> DistinctKeys(items[i])
    case JObj(members) =>
      (forall i, k :: 0 <= i < k < |members| ==> members[i].key != members[k].key)
      && forall i :: 0 <= i < |members| ==> DistinctKeys(members[i].value)
    case _ => true
  }

  /** A key not yet in the dictionary goes last. */
  lemma {:induction false} UpsertNew(d: seq<Member>, m: Member)
    requires forall i :: 0 <= i < |d| ==> d[i].key != m.key
    ensures Upsert(d, m) == d + [m]
    decreases |d|
  {
    if d != [] {
      UpsertNew(d[1..], m);
      assert d == [d[0]] + d[1..];
    }
  }

  /** `dict(pairs)` of pairs with distinct keys keeps them all, in order. */
  lemma {:induction false} BuildDistinct(pairs: seq<Member>)
    requires forall i, k :: 0 <= i < k < |pairs| ==> pairs[i].key != pairs[k].key
    ensures Build(pairs) == pairs
    decreases |pairs|
  {
    if pairs != [] {
      var init := pairs[..|pairs| - 1];
      BuildDistinct(init);
      UpsertNew(init, pairs[|pairs| - 1]);
      assert init + [pairs[|pairs| - 1]] == pairs;
    }
  }

  /** A value whose objects have distinct keys is its own dictionary form. */
  lemma {:induction false} CanonDistinct(j: Json)
    requires DistinctKeys(j)
    ensures Canon(j) == j
    decreases j
  {
    match j
    case JArr(items) =>
      CanonItemsDistinct(items);
    case JObj(members) =>
      CanonMembersDistinct(members);
      BuildDistinct(members);
    case _ =>
  }

  lemma {:induction false} CanonItemsDistinct(items: seq<Json>)
    requires forall i :: 0 <= i < |items| ==> DistinctKeys(items[i])
    ensures CanonItems(items) == items
    decreases items
  {
    if items != [] {
      CanonDistinct(items[0]);
      CanonItemsDistinct(items[1..]);
      assert items == [items[0]] + items[1..];
    }
  }

  lemma {:induction false} CanonMembersDistinct(members: seq<Member>)
    requires forall i :: 0 <= i < |members| ==> DistinctKeys(members[i].value)
    ensures CanonMembers(members) == members
    decreases members
  {
    if members != [] {
      assert members[0].value < members[0];
      CanonDistinct(members[0].value);
      CanonMembersDistinct(members[1..]);
      assert members == [members[0]] + members[1..];
    }
  }

  // ---------------------------------------------------------------------------
  // Reading

  predicate IsWs(c: char) { c == ' ' || c == '\t' || c == '\n' || c == '\r' }

  function SkipWs(s: string): (r: string)
    ensures |r| <= |s| && r == s[|s| - |r|..]
    ensures r != [] ==> !IsWs(r[0])
    decreases |s|
  {
    if s != [] && IsWs(s[0]) then SkipWs(s[1..]) else s
  }

  function HexValue(c: char): Option<nat> {
    if '0' <= c <= '9' then Some(c as int - '0' as int)
    else if 'a' <= c <= 'f' then Some(c as int - 'a' as int + 10)
    else if 'A' <= c <= 'F' then Some(c as int - 'A' as int + 10)
    else None
  }

  /** The number written by the first four characters of `s` in hexadecimal. */
  function Hex4Value(s: string): (r: Option<nat>)
    requires |s| >= 4
    ensures r.Some? ==> r.value < 0x10000
  {
    match (HexValue(s[0]), HexValue(s[1]), HexValue(s[2]), HexValue(s[3]))
    case (Some(a), Some(b), Some(c), Some(d)) =>
      if a < 16 && b < 16 && c < 16 && d < 16 then Some(((a * 16 + b) * 16 + c) * 16 + d) else None
    case _ => None
  }

  predicate IsHighSurrogate(n: int) { 0xD800 <= n < 0xDC00 }
  predicate IsLowSurrogate(n: int) { 0xDC00 <= n < 0xE000 }

  /** The character of a `\u` escape whose four digits start `s`, a high
      surrogate joined with an immediately following low one. */
  function ParseUnicode(s: string): (r: Option<(char, string)>)
    ensures r.Some? ==> |r.value.1| <= |s| - 4
  {
    if |s| < 4 then None
    else
      match Hex4Value(s)
      case None => None
      case Some(n) =>
        if IsHighSurrogate(n) && |s| >= 10 && s[4] == '\\' && s[5] == 'u'
           && Hex4Value(s[6..]).Some? && IsLowSurrogate(Hex4Value(s[6..]).value)
        then
          var code := 0x10000 + (n - 0xD800) * 0x400 + (Hex4Value(s[6..]).value - 0xDC00);
          Some((code as char, s[10..]))
        else if IsHighSurrogate(n) || IsLowSurrogate(n) then None
        else Some((n as char, s[4..]))
  }

  /** The character a two-character escape stands for. */
  function ShortUnescape(e: char): Option<char> {
    if e == '"' then Some('"')
    else if e == '\\' then Some('\\')
    else if e == '/' then Some('/')
    else if e == 'b' then Some('\U{8}')
    else if e == 'f' then Some('\U{C}')
    else if e == 'n' then Some('\n')
    else if e == 'r' then Some('\r')
    else if e == 't' then Some('\t')
    else None
  }

  /** The character an escape stands for; `s` follows the backslash. */
  function ParseEscape(s: string): (r: Option<(char, string)>)
    ensures r.Some? ==> |r.value.1| < |s|
  {
    if s == [] then None
    else if s[0] == 'u' then ParseUnicode(s[1..])
    else
      match ShortUnescape(s[0])
      case None => None
      case Some(c) => Some((c, s[1..]))
  }

  function PrependChar(c: char, r: Option<(string, string)>): Option<(string, string)> {
    match r
    case None => None
    case Some((t, rest)) => Some(([c] + t, rest))
  }

  /** The contents of a string literal up to its closing quote; `s` follows
      the opening quote. Raw control characters are refused. */
  function ParseStr(s: string): (r: Option<(string, string)>)
    ensures r.Some? ==> |r.value.1| < |s|
    decreases |s|
  {
    if s == [] then None
    else if s[0] == '"' then Some(([], s[1..]))
    else if s[0] == '\\' then
      match ParseEscape(s[1..])
      case None => None
      case Some((c, rest)) => PrependChar(c, ParseStr(rest))
    else if s[0] < ' ' then None
    else PrependChar(s[0], ParseStr(s[1..]))
  }

  /** The number of leading decimal digits of `s`. */
  function DigitRun(s: string): (k: nat)
    ensures k <= |s| && forall i :: 0 <= i < k ==> IsDigit(s[i])
    ensures k < |s| ==> !IsDigit(s[k])
    decreases |s|
  {
    if s != [] && IsDigit(s[0]) then 1 + DigitRun(s[1..]) else 0
  }

  function DigitsValue(d: string): nat
    decreases |d|
  {
    if d == [] then 0
    else DigitsValue(d[..|d| - 1]) * 10 + (if IsDigit(d[|d| - 1]) then d[|d| - 1] as int - '0' as int else 0)
  }

  /** A fraction or an exponent after the integer part makes the number a
      float, which this model does not represent. */
  predicate IsFloatTail(r: string) {
    |r| >= 2 &&
      ((r[0] == '.' && IsDigit(r[1])) ||
       ((r[0] == 'e' || r[0] == 'E') &&
        (IsDigit(r[1]) || (|r| >= 3 && (r[1] == '+' || r[1] == '-') && IsDigit(r[2])))))
  }

  /** An integer: an optional '-', then "0" or a digit run without a leading
      zero. */
  function ParseNumber(s: string): (r: Option<(Json, string)>)
    ensures r.Some? ==> |r.value.1| < |s|
  {
    var neg := s != [] && s[0] == '-';
    var u := if neg then s[1..] else s;
    if u == [] || !IsDigit(u[0]) then None
    else
      var k := if u[0] == '0' then 1 else DigitRun(u);
      var rest := u[k..];
      if IsFloatTail(rest) then None
      else
        var value: int := DigitsValue(u[..k]);
        Some((JNum(if neg then -value else value), rest))
  }

  /** A value after optional whitespace, and the text that follows it. */
  function ParseValue(s: string): (r: Option<(Json, string)>)
    ensures r.Some? ==> |r.value.1| < |s|
    decreases |s|, 1
  {
    ParseToken(SkipWs(s))
  }

  /** A value starting at the first character of `t`. */
  function ParseToken(t: string): (r: Option<(Json, string)>)
    ensures r.Some? ==> |r.value.1| < |t|
    decreases |t|, 0
  {
    if t == [] then None
    else if StartsWith(t, "null") then Some((JNull, t[4..]))
    else if StartsWith(t, "true") then Some((JBool(true), t[4..]))
    else if StartsWith(t, "false") then Some((JBool(false), t[5..]))
    else if t[0] == '"' then
      match ParseStr(t[1..])
      case None => None
      case Some((str, rest)) => Some((JStr(str), rest))
    else if t[0] == '[' then ParseArray(t[1..])
    else if t[0] == '{' then ParseObject(t[1..])
    else if t[0] == '-' || IsDigit(t[0]) then ParseNumber(t)
    else None
  }

  /** An array's elements; `s` follows the '['. */
  function ParseArray(s: string): (r: Option<(Json, string)>)
    ensures r.Some? ==> |r.value.1| < |s|
    decreases |s|, 3
  {
    var t := SkipWs(s);
    if t != [] && t[0] == ']' then Some((JArr([]), t[1..]))
    else
      match ParseItems(s)
      case None => None
      case Some((items, rest)) => Some((JArr(items), rest))
  }

  /** One or more values separated by ',' and closed by ']'. */
  function ParseItems(s: string): (r: Option<(seq<Json>, string)>)
    ensures r.Some? ==> |r.value.1| < |s|
    decreases |s|, 2
  {
    match ParseValue(s)
    case None => None
    case Some((v, rest)) => MoreItems(v, rest)
  }

  /** After an element: ']' closes the array, ',' announces another element. */
  function MoreItems(v: Json, s: string): (r: Option<(seq<Json>, string)>)
    ensures r.Some? ==> |r.value.1| < |s|
    decreases |s|, 2
  {
    var t := SkipWs(s);
    if t == [] then None
    else if t[0] == ']' then Some(([v], t[1..]))
    else if t[0] == ',' then
      match ParseItems(t[1..])
      case None => None
      case Some((vs, rest)) => Some(([v] + vs, rest))
    else None
  }

  /** An object's members, kept as a dictionary; `s` follows the '{'. */
  function ParseObject(s: string): (r: Option<(Json, string)>)
    ensures r.Some? ==> |r.value.1| < |s|
    decreases |s|, 3
  {
    var t := SkipWs(s);
    if t != [] && t[0] == '}' then Some((JObj([]), t[1..]))
    else
      match ParseMembers(s)
      case None => None
      case Some((members, rest)) => Some((JObj(Build(members)), rest))
  }

  /** One or more `"key": value` pairs separated by ',' and closed by '}'. */
  function ParseMembers(s: string): (r: Option<(seq<Member>, string)>)
    ensures r.Some? ==> |r.value.1| < |s|
    decreases |s|, 2
  {
    var t := SkipWs(s);
    if t == [] || t[0] != '"' then None
    else
      match ParseStr(t[1..])
      case None => None
      case Some((key, r1)) =>
        var u := SkipWs(r1);
        if u == [] || u[0] != ':' then None
        else
          match ParseValue(u[1..])
          case None => None
          case Some((v, r2)) => MoreMembers(Member(key, v), r2)
  }

  /** After a member: '}' closes the object, ',' announces another member. */
  function MoreMembers(m: Member, s: string): (r: Option<(seq<Member>, string)>)
    ensures r.Some? ==> |r.value.1| < |s|
    decreases |s|, 2
  {
    var w := SkipWs(s);
    if w == [] then None
    else if w[0] == '}' then Some(([m], w[1..]))
    else if w[0] == ',' then
      match ParseMembers(w[1..])
      case None => None
      case Some((ms, rest)) => Some(([m] + ms, rest))
    else None
  }

  /** `json.loads(s)`, `None` where it raises. */
  function Loads(s: string): Option<Json> {
    match ParseValue(s)
    case None => None
    case Some((v, rest)) => if SkipWs(rest) == [] then Some(v) else None
  }
}
