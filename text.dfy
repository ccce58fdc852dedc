/** The Python `str` built-ins that the audit, generator and injector scripts
    rely on, written out over `seq<char>`: prefix tests, search, replace,
    lower-casing, whitespace stripping and splitting, `splitlines`, `title`
    and `isdigit`. */
module Text {

  datatype Option<T> = None | Some(value: T)

  // ---------------------------------------------------------------------------
  // Prefixes, suffixes, search

  predicate StartsWith(s: string, p: string) {
    |p| <= |s| && s[..|p|] == p
  }

  predicate EndsWith(s: string, p: string) {
    |p| <= |s| && s[|s| - |p|..] == p
  }

  /** Python's `p in s` for strings. */
  predicate Contains(s: string, p: string) {
    exists i :: 0 <= i <= |s| && StartsWith(s[i..], p)
  }

  /** The index of the first occurrence of `p` in `s` at or after `from`. */
  function FindFrom(s: string, p: string, from: nat): (r: Option<nat>)
    requires from <= |s|
    ensures r.Some? ==> from <= r.value <= |s| && StartsWith(s[r.value..], p)
    ensures r.Some? ==> forall k :: from <= k < r.value ==> !StartsWith(s[k..], p)
    ensures r.None? ==> forall k :: from <= k <= |s| ==> !StartsWith(s[k..], p)
    decreases |s| - from
  {
    if StartsWith(s[from..], p) then Some(from)
    else if from == |s| then None
    else FindFrom(s, p, from + 1)
  }

  /** Python's `s.find(p)`, as an option: the first occurrence of `p`. */
  function Find(s: string, p: string): (r: Option<nat>)
    ensures r.Some? <==> Contains(s, p)
    ensures r.Some? ==> r.value + |p| <= |s| && s[r.value..r.value + |p|] == p
    ensures r.Some? ==> forall k :: 0 <= k < r.value ==> !StartsWith(s[k..], p)
  {
    FindFrom(s, p, 0)
  }

  /** An occurrence with none before it is the one `Find` returns. */
  lemma FindAt(s: string, p: string, i: nat)
    requires i <= |s| && StartsWith(s[i..], p)
    requires forall k :: 0 <= k < i ==> !StartsWith(s[k..], p)
    ensures Find(s, p) == Some(i)
  {
    assert Contains(s, p);
    var j := Find(s, p).value;
    assert StartsWith(s[j..], p) by { assert s[j..][..|p|] == s[j..j + |p|]; }
  }

  // ---------------------------------------------------------------------------
  // Replacement

  /** Python's `s.replace(p, v)`: every non-overlapping occurrence of `p`,
      scanning from the left, is replaced by `v`. */
  function Replace(s: string, p: string, v: string): string
    requires p != []
    decreases |s|
  {
    if s == [] then []
    else if StartsWith(s, p) then v + Replace(s[|p|..], p, v)
    else [s[0]] + Replace(s[1..], p, v)
  }

  /** A string in which `p` does not occur is left as it is by `Replace`. */
  lemma {:induction false} ReplaceAbsent(s: string, p: string, v: string)
    requires p != [] && !Contains(s, p)
    ensures Replace(s, p, v) == s
    decreases |s|
  {
    if s != [] {
      assert s[0..] == s;
      assert !StartsWith(s, p);
      forall i | 0 <= i <= |s[1..]| ensures !StartsWith(s[1..][i..], p) {
        assert s[1..][i..] == s[i + 1..];
      }
      ReplaceAbsent(s[1..], p, v);
    }
  }

  /** When no occurrence of `p` starts inside `a`, replacing in `a + b` leaves
      `a` alone and replaces in `b`. */
  lemma {:induction false} ReplaceSkip(a: string, b: string, p: string, v: string)
    requires p != []
    requires forall i :: 0 <= i < |a| ==> !StartsWith((a + b)[i..], p)
    ensures Replace(a + b, p, v) == a + Replace(b, p, v)
    decreases |a|
  {
    if a != [] {
      assert (a + b)[0..] == a + b;
      assert !StartsWith(a + b, p);
      assert (a + b)[1..] == a[1..] + b;
      assert a == [a[0]] + a[1..];
      forall i | 0 <= i < |a[1..]| ensures !StartsWith((a[1..] + b)[i..], p) {
        assert (a[1..] + b)[i..] == (a + b)[i + 1..];
      }
      ReplaceSkip(a[1..], b, p, v);
    }
  }

  /** If the first character of `p` does not occur in `a`, no occurrence of `p`
      starts inside `a`. */
  lemma ReplaceSkipFirstChar(a: string, b: string, p: string, v: string)
    requires p != [] && p[0] !in a
    ensures Replace(a + b, p, v) == a + Replace(b, p, v)
  {
    forall i | 0 <= i < |a| ensures !StartsWith((a + b)[i..], p) {
      assert (a + b)[i..][0] == a[i];
    }
    ReplaceSkip(a, b, p, v);
  }

  /** `p` occurs in `s` at `i` and nowhere before. */
  predicate FirstAt(s: string, p: string, i: int) {
    0 <= i && i + |p| <= |s| && s[i..i + |p|] == p &&
    forall k :: 0 <= k < i ==> !StartsWith(s[k..], p)
  }

  /** Python's `s.replace(p, v, 1)`: only the first occurrence is replaced. */
  function ReplaceFirst(s: string, p: string, v: string): (r: string)
    ensures !Contains(s, p) ==> r == s
    ensures Contains(s, p) ==>
      exists i :: FirstAt(s, p, i) && r == s[..i] + v + s[i + |p|..]
    ensures |r| == if Contains(s, p) then |s| - |p| + |v| else |s|
  {
    match Find(s, p)
    case None => s
    case Some(i) => s[..i] + v + s[i + |p|..]
  }

  // ---------------------------------------------------------------------------
  // Characters

  predicate IsAsciiUpper(c: char) { 'A' <= c <= 'Z' }
  predicate IsAsciiLower(c: char) { 'a' <= c <= 'z' }
  predicate IsAsciiLetter(c: char) { IsAsciiUpper(c) || IsAsciiLower(c) }
  predicate IsDigit(c: char) { '0' <= c <= '9' }

  function Lower(c: char): (r: char)
    ensures IsAsciiUpper(c) ==> IsAsciiLower(r) && r as int == c as int + 32
    ensures !IsAsciiUpper(c) ==> r == c
  {
    if IsAsciiUpper(c) then (c as int + 32) as char else c
  }

  function Upper(c: char): (r: char)
    ensures IsAsciiLower(c) ==> IsAsciiUpper(r) && r as int + 32 == c as int
    ensures !IsAsciiLower(c) ==> r == c
  {
    if IsAsciiLower(c) then (c as int - 32) as char else c
  }

  /** Python's `s.lower()`, for the ASCII letters. */
  function LowerStr(s: string): (r: string)
    ensures |r| == |s| && forall i :: 0 <= i < |s| ==> r[i] == Lower(s[i])
  {
    seq(|s|, i requires 0 <= i < |s| => Lower(s[i]))
  }

  /** The characters Python's `str.isspace` accepts: those `strip()` removes
      and `split()` splits on. */
  predicate IsSpace(c: char) {
    c == ' ' || c == '\t' || c == '\n' || c == '\r' || c == '\U{000B}' || c == '\U{000C}'
    || ('\U{001C}' <= c <= '\U{001F}') || c == '\U{0085}' || c == '\U{00A0}' || c == '\U{1680}'
    || ('\U{2000}' <= c <= '\U{200A}') || c == '\U{2028}' || c == '\U{2029}' || c == '\U{202F}'
    || c == '\U{205F}' || c == '\U{3000}'
  }

  /** The characters at which Python's `str.splitlines` ends a line
      ("\r\n" counts as one boundary). */
  predicate IsLineBreak(c: char) {
    c == '\n' || c == '\r' || c == '\U{000B}' || c == '\U{000C}' || ('\U{001C}' <= c <= '\U{001E}')
    || c == '\U{0085}' || c == '\U{2028}' || c == '\U{2029}'
  }

  /** No character of `w` ends a line. */
  predicate NoBreak(w: string) {
    forall i :: 0 <= i < |w| ==> !IsLineBreak(w[i])
  }

  /** No character of `w` is whitespace. */
  predicate NoSpace(w: string) {
    forall i :: 0 <= i < |w| ==> !IsSpace(w[i])
  }

  // ---------------------------------------------------------------------------
  // Stripping

  function StripLeft(s: string): (r: string)
    ensures |r| <= |s| && r == s[|s| - |r|..]
    ensures forall i :: 0 <= i < |s| - |r| ==> IsSpace(s[i])
    ensures r != [] ==> !IsSpace(r[0])
    decreases |s|
  {
    if s != [] && IsSpace(s[0]) then StripLeft(s[1..]) else s
  }

  function StripRight(s: string): (r: string)
    ensures |r| <= |s| && r == s[..|r|]
    ensures forall i :: |r| <= i < |s| ==> IsSpace(s[i])
    ensures r != [] ==> !IsSpace(r[|r| - 1])
    decreases |s|
  {
    if s != [] && IsSpace(s[|s| - 1]) then StripRight(s[..|s| - 1]) else s
  }

  /** Python's `s.strip()`: the text between a whitespace prefix and a
      whitespace suffix, with no whitespace left at either end. */
  function Strip(s: string): (r: string)
    ensures var i := |s| - |StripLeft(s)|;
      i + |r| <= |s| && r == s[i..i + |r|]
      && (forall k :: 0 <= k < i ==> IsSpace(s[k]))
      && (forall k :: i + |r| <= k < |s| ==> IsSpace(s[k]))
    ensures r != [] ==> !IsSpace(r[0]) && !IsSpace(r[|r| - 1])
  {
    var l := StripLeft(s);
    var r := StripRight(l);
    StripParts(s, l, r);
    r
  }

  lemma StripParts(s: string, l: string, r: string)
    requires |l| <= |s| && l == s[|s| - |l|..]
    requires |r| <= |l| && r == l[..|r|]
    requires forall k :: |r| <= k < |l| ==> IsSpace(l[k])
    ensures var i := |s| - |l|;
      i + |r| <= |s| && r == s[i..i + |r|] && (forall k :: i + |r| <= k < |s| ==> IsSpace(s[k]))
  {
    var i := |s| - |l|;
    forall k | i + |r| <= k < |s| ensures IsSpace(s[k]) {
      assert s[k] == l[k - i];
    }
  }

  /** Python's `s.strip("/")`: leading and trailing slashes removed. */
  function StripSlashes(s: string): (r: string)
    ensures |r| <= |s|
    ensures r != [] ==> r[0] != '/' && r[|r| - 1] != '/'
    decreases |s|
  {
    if s == [] then []
    else if s[0] == '/' then StripSlashes(s[1..])
    else if s[|s| - 1] == '/' then StripSlashes(s[..|s| - 1])
    else s
  }

  // ---------------------------------------------------------------------------
  // Splitting into lines

  /** Index of the first line-break character of `s`, or `|s|`. */
  function BreakIndex(s: string): (k: nat)
    ensures k <= |s| && (k < |s| ==> IsLineBreak(s[k]))
    ensures forall i :: 0 <= i < k ==> !IsLineBreak(s[i])
    decreases |s|
  {
    if s == [] then 0
    else if IsLineBreak(s[0]) then 0
    else 1 + BreakIndex(s[1..])
  }

  /** Python's `s.splitlines()`: lines without their terminators, no trailing
      empty line for a final terminator, "\r\n" as a single terminator. */
  function SplitLines(s: string): (lines: seq<string>)
    decreases |s|
  {
    if s == [] then []
    else
      var k := BreakIndex(s);
      if k == |s| then [s]
      else [s[..k]] + SplitLines(s[AfterBreak(s, k)..])
  }

  /** Where the text after the line break at `k` starts; "\r\n" counts as one
      break. */
  function AfterBreak(s: string, k: nat): (next: nat)
    requires k < |s|
    ensures k < next <= |s| && (next == k + 2 ==> s[k] == '\r')
  {
    if s[k] == '\r' && k + 1 < |s| && s[k + 1] == '\n' then k + 2 else k + 1
  }

  /** A piece of text `q` without line breaks at the start of a text starts
      its first line. */
  lemma FirstLineStartsWith(s: string, q: string)
    requires q != [] && NoBreak(q) && StartsWith(s, q)
    ensures SplitLines(s) != [] && StartsWith(SplitLines(s)[0], q)
  {
    var k := BreakIndex(s);
    assert |q| <= k;
    if k < |s| {
      assert SplitLines(s)[0] == s[..k];
      assert s[..k][..|q|] == s[..|q|];
    }
  }

  /** Where the second line begins when the text has a "\n" before `i`. */
  lemma NextLineStart(s: string, i: nat) returns (next: nat)
    requires 0 < i <= |s| && s[i - 1] == '\n'
    ensures BreakIndex(s) < |s| && next == AfterBreak(s, BreakIndex(s)) && 0 < next <= i
  {
    var k := BreakIndex(s);
    assert k <= i - 1 < |s|;
    next := AfterBreak(s, k);
  }

  /** Line `j` of the text after the first line break is line `j + 1` of the
      text. */
  lemma LineAfterBreak(s: string, j: nat)
    requires BreakIndex(s) < |s| && j < |SplitLines(s[AfterBreak(s, BreakIndex(s))..])|
    ensures var tail := SplitLines(s[AfterBreak(s, BreakIndex(s))..]);
      j + 1 < |SplitLines(s)| && SplitLines(s)[j + 1] == tail[j]
  {
  }

  lemma RestStarts(s: string, q: string, i: nat, next: nat)
    requires 0 < next <= i <= |s| && StartsWith(s[i..], q) && s[i - 1] == '\n'
    ensures var rest := s[next..];
      StartsWith(rest[i - next..], q) && (i - next == 0 || rest[i - next - 1] == '\n')
  {
    assert s[next..][i - next..] == s[i..];
  }

  /** A piece of text `q` without line breaks that starts the text, or follows
      a "\n" in it, starts one of its lines. */
  lemma {:induction false} LineStartsWith(s: string, q: string, i: nat) returns (j: nat)
    requires q != [] && NoBreak(q)
    requires i <= |s| && StartsWith(s[i..], q)
    requires i == 0 || s[i - 1] == '\n'
    ensures j < |SplitLines(s)| && StartsWith(SplitLines(s)[j], q)
    decreases |s|, 1
  {
    if i == 0 {
      assert s[0..] == s;
      FirstLineStartsWith(s, q);
      j := 0;
    } else {
      j := LaterLineStartsWith(s, q, i);
    }
  }

  /** The case of `LineStartsWith` where `q` follows a "\n": it starts a line
      of the text after the first line break. */
  lemma {:induction false} LaterLineStartsWith(s: string, q: string, i: nat) returns (j: nat)
    requires q != [] && NoBreak(q)
    requires 0 < i <= |s| && StartsWith(s[i..], q) && s[i - 1] == '\n'
    ensures j < |SplitLines(s)| && StartsWith(SplitLines(s)[j], q)
    decreases |s|, 0
  {
    var next := NextLineStart(s, i);
    RestStarts(s, q, i, next);
    var j' := LineStartsWith(s[next..], q, i - next);
    LineAfterBreak(s, j');
    j := j' + 1;
  }

  /** Python's `sep.join(parts)`. */
  function Join(sep: string, parts: seq<string>): string
    decreases |parts|
  {
    if parts == [] then []
    else if |parts| == 1 then parts[0]
    else parts[0] + sep + Join(sep, parts[1..])
  }

  // ---------------------------------------------------------------------------
  // Splitting into words

  /** Index of the first whitespace character of `s`, or `|s|`. */
  function SpaceIndex(s: string): (k: nat)
    ensures k <= |s| && (k < |s| ==> IsSpace(s[k]))
    ensures forall i :: 0 <= i < k ==> !IsSpace(s[i])
    decreases |s|
  {
    if s == [] then 0
    else if IsSpace(s[0]) then 0
    else 1 + SpaceIndex(s[1..])
  }

  /** Python's `s.split()` with no argument: the maximal runs of
      non-whitespace characters. */
  function Words(s: string): seq<string>
    decreases |s|
  {
    var t := StripLeft(s);
    if t == [] then []
    else
      var k := SpaceIndex(t);
      [t[..k]] + Words(t[k..])
  }

  /** Number of positions where a word begins: a non-space character at the
      start of the text or right after a space. */
  function WordStarts(s: string, afterSpace: bool): nat
    decreases |s|
  {
    if s == [] then 0
    else (if afterSpace && !IsSpace(s[0]) then 1 else 0) + WordStarts(s[1..], IsSpace(s[0]))
  }

  lemma {:induction false} WordStartsSkipSpaces(s: string, afterSpace: bool)
    ensures WordStarts(s, afterSpace) == WordStarts(StripLeft(s), afterSpace || s != StripLeft(s))
    decreases |s|
  {
    if s != [] && IsSpace(s[0]) {
      WordStartsSkipSpaces(s[1..], true);
    }
  }

  lemma {:induction false} WordStartsInsideWord(s: string, k: nat)
    requires k <= |s| && forall i :: 0 <= i < k ==> !IsSpace(s[i])
    requires k < |s| ==> IsSpace(s[k])
    ensures WordStarts(s, false) == WordStarts(s[k..], true)
    decreases k
  {
    if k > 0 {
      forall i | 0 <= i < k - 1 ensures !IsSpace(s[1..][i]) { assert s[1..][i] == s[i + 1]; }
      WordStartsInsideWord(s[1..], k - 1);
      assert s[1..][k - 1..] == s[k..];
    } else {
      assert s[k..] == s;
    }
  }

  /** A word start, then the rest of the word. */
  lemma WordStartsStep(t: string)
    requires t != [] && !IsSpace(t[0])
    ensures WordStarts(t, true) == 1 + WordStarts(t[SpaceIndex(t)..], true)
  {
    var k := SpaceIndex(t);
    assert WordStarts(t, true) == 1 + WordStarts(t[1..], false);
    forall i | 0 <= i < k - 1 ensures !IsSpace(t[1..][i]) { assert t[1..][i] == t[i + 1]; }
    WordStartsInsideWord(t[1..], k - 1);
    assert t[1..][k - 1..] == t[k..];
  }

  /** `split()` returns one word per word start: the number Python reports as
      the word count. */
  lemma {:induction false} WordsCount(s: string)
    ensures |Words(s)| == WordStarts(s, true)
    decreases |s|
  {
    var t := StripLeft(s);
    WordStartsSkipSpaces(s, true);
    if t != [] {
      var k := SpaceIndex(t);
      assert Words(s) == [t[..k]] + Words(t[k..]);
      WordStartsStep(t);
      WordsCount(t[k..]);
    }
  }

  /** Each word `split()` returns is non-empty and free of whitespace. */
  lemma {:induction false} WordsShape(s: string)
    ensures forall j :: 0 <= j < |Words(s)| ==> Words(s)[j] != [] && NoSpace(Words(s)[j])
    decreases |s|
  {
    var t := StripLeft(s);
    if t != [] {
      var k := SpaceIndex(t);
      var w := t[..k];
      assert w != [] by { assert !IsSpace(t[0]); }
      assert NoSpace(w);
      var rest := Words(t[k..]);
      WordsShape(t[k..]);
      assert Words(s) == [w] + rest;
      forall j | 0 <= j < |Words(s)| ensures Words(s)[j] != [] && NoSpace(Words(s)[j]) {
        if j > 0 { assert Words(s)[j] == rest[j - 1]; }
      }
    }
  }

  // ---------------------------------------------------------------------------
  // Title case and digits

  function TitleFrom(s: string, prevCased: bool): (r: string)
    ensures |r| == |s|
    decreases |s|
  {
    if s == [] then []
    else if IsAsciiLetter(s[0]) then
      [if prevCased then Lower(s[0]) else Upper(s[0])] + TitleFrom(s[1..], true)
    else [s[0]] + TitleFrom(s[1..], false)
  }

  /** Python's `s.title()`, for ASCII letters: a letter is upper-cased when it
      does not follow a letter and lower-cased when it does. */
  function Title(s: string): string {
    TitleFrom(s, false)
  }

  lemma {:induction false} TitleFromAt(s: string, prevCased: bool, i: nat)
    requires i < |s|
    ensures var r := TitleFrom(s, prevCased);
      var after := if i == 0 then prevCased else IsAsciiLetter(s[i - 1]);
      (IsAsciiLetter(s[i]) && after ==> r[i] == Lower(s[i]))
      && (IsAsciiLetter(s[i]) && !after ==> r[i] == Upper(s[i]))
      && (!IsAsciiLetter(s[i]) ==> r[i] == s[i])
    decreases i
  {
    if i > 0 {
      TitleFromAt(s[1..], IsAsciiLetter(s[0]), i - 1);
      assert s[1..][i - 1] == s[i];
      if i > 1 { assert s[1..][i - 2] == s[i - 1]; }
    }
  }

  /** What `title()` does to each character, stated position by position. */
  lemma TitleAt(s: string, i: nat)
    requires i < |s|
    ensures |Title(s)| == |s|
    ensures IsAsciiLetter(s[i]) && i > 0 && IsAsciiLetter(s[i - 1]) ==> Title(s)[i] == Lower(s[i])
    ensures IsAsciiLetter(s[i]) && (i == 0 || !IsAsciiLetter(s[i - 1])) ==> Title(s)[i] == Upper(s[i])
    ensures !IsAsciiLetter(s[i]) ==> Title(s)[i] == s[i]
  {
    TitleFromAt(s, false, i);
  }

  /** Python's `s.isdigit()`, for ASCII digits: non-empty and digits only. */
  predicate IsDigits(s: string) {
    s != [] && forall i :: 0 <= i < |s| ==> IsDigit(s[i])
  }
}
