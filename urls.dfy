/** The parts of Python's `urllib.parse` that the llms.txt generator calls:
    `urlparse` (scheme, netloc, path, params, query, fragment) and `urljoin`
    (resolving a reference against a base URL). */
module Urls {
  import opened Text

  datatype UrlParts = UrlParts(
    scheme: string, netloc: string, path: string, params: string, query: string, fragment: string)

  /** Schemes for which `urljoin` resolves relative references. */
  const UsesRelative: seq<string> := ["", "ftp", "http", "gopher", "nntp", "imap", "wais", "file",
    "https", "shttp", "mms", "prospero", "rtsp", "rtspu", "sftp", "svn", "svn+ssh", "ws", "wss"]

  /** Schemes whose URLs carry a network location after "//". */
  const UsesNetloc: seq<string> := ["", "ftp", "http", "gopher", "nntp", "telnet", "imap", "wais",
    "file", "mms", "https", "shttp", "snews", "prospero", "rtsp", "rtspu", "rsync", "svn",
    "svn+ssh", "sftp", "nfs", "git", "git+ssh", "ws", "wss", "itms-services"]

  /** Schemes whose last path segment may carry ";params". */
  const UsesParams: seq<string> := ["", "ftp", "hdl", "prospero", "http", "imap", "https", "shttp",
    "rtsp", "rtspu", "sip", "sips", "mms", "sftp", "tel"]

  predicate IsSchemeChar(c: char) {
    IsAsciiLetter(c) || IsDigit(c) || c == '+' || c == '-' || c == '.'
  }

  /** A scheme as `urlsplit` recognises one: an ASCII letter followed by
      letters, digits, '+', '-' or '.'. */
  predicate IsScheme(s: string) {
    s != [] && IsAsciiLetter(s[0]) && forall i :: 0 <= i < |s| ==> IsSchemeChar(s[i])
  }

  /** Characters `urlsplit` deletes wherever they occur. */
  predicate IsUnsafe(c: char) { c == '\t' || c == '\r' || c == '\n' }

  predicate IsNetlocEnd(c: char) { c == '/' || c == '?' || c == '#' }

  function RemoveUnsafe(s: string): (r: string)
    ensures forall i :: 0 <= i < |r| ==> !IsUnsafe(r[i])
    ensures (forall i :: 0 <= i < |s| ==> !IsUnsafe(s[i])) ==> r == s
    decreases |s|
  {
    if s == [] then []
    else (if IsUnsafe(s[0]) then [] else [s[0]]) + RemoveUnsafe(s[1..])
  }

  /** Leading C0 control characters and spaces are dropped. */
  function StripLeadingControl(s: string): (r: string)
    ensures |r| <= |s| && r == s[|s| - |r|..]
    ensures r == [] || r[0] > ' '
    decreases |s|
  {
    if s != [] && s[0] <= ' ' then StripLeadingControl(s[1..]) else s
  }

  /** The scheme, lower-cased, and the rest of the URL after its ':' when the
      URL starts with one; otherwise `default` and the whole URL. */
  function SplitScheme(url: string, default: string): (r: (string, string))
    ensures |r.1| <= |url| && r.1 == url[|url| - |r.1|..]
    ensures r.0 == default || IsScheme(r.0)
  {
    match Find(url, ":")
    case None => (default, url)
    case Some(i) =>
      if i > 0 && IsAsciiLetter(url[0]) && forall k :: 0 <= k < i ==> IsSchemeChar(url[k])
      then
        assert forall k :: 0 <= k < i ==> IsSchemeChar(Lower(url[k]));
        (LowerStr(url[..i]), url[i + 1..])
      else (default, url)
  }

  /** Index of the first '/', '?' or '#' of `s` at or after `from`, or `|s|`. */
  function NetlocEnd(s: string, from: nat): (k: nat)
    requires from <= |s|
    ensures from <= k <= |s| && (k < |s| ==> IsNetlocEnd(s[k]))
    ensures forall i :: from <= i < k ==> !IsNetlocEnd(s[i])
    decreases |s| - from
  {
    if from == |s| || IsNetlocEnd(s[from]) then from else NetlocEnd(s, from + 1)
  }

  /** The network location after a leading "//", up to the first '/', '?' or
      '#', and the rest of the URL; no network location without "//". */
  function SplitNetloc(u: string): (r: (string, string))
    ensures forall i :: 0 <= i < |r.0| ==> !IsNetlocEnd(r.0[i])
    ensures (forall i :: 0 <= i < |u| ==> !IsUnsafe(u[i])) ==>
      forall i :: 0 <= i < |r.0| ==> !IsUnsafe(r.0[i])
  {
    if StartsWith(u, "//") then
      var k := NetlocEnd(u, 2);
      assert forall i :: 0 <= i < k - 2 ==> u[2..k][i] == u[i + 2];
      (u[2..k], u[k..])
    else ([], u)
  }

  /** The text before the first `c` and the text after it (Python's
      `s.split(c, 1)`), or `s` and "" when `c` does not occur. */
  function SplitAt(s: string, c: char): (r: (string, string))
    ensures c !in r.0
    ensures c in s ==> s == r.0 + [c] + r.1
    ensures c !in s ==> r == (s, [])
  {
    match Find(s, [c])
    case None =>
      assert forall k :: 0 <= k < |s| ==> !StartsWith(s[k..], [c]);
      assert c !in s by {
        if c in s { var k :| 0 <= k < |s| && s[k] == c; assert StartsWith(s[k..], [c]); }
      }
      (s, [])
    case Some(i) =>
      assert c !in s[..i] by {
        if c in s[..i] { var k :| 0 <= k < i && s[k] == c; assert StartsWith(s[k..], [c]); }
      }
      assert s[i..i + 1] == [c];
      assert s == s[..i] + [c] + s[i + 1..] by {
        assert s[i] == s[i..i + 1][0];
      }
      (s[..i], s[i + 1..])
  }

  /** Both halves of a split leave out what the whole leaves out. */
  lemma SplitAtKeepsOut(s: string, c: char, d: char)
    requires d !in s
    ensures d !in SplitAt(s, c).0 && d !in SplitAt(s, c).1
  {
    var r := SplitAt(s, c);
    if c in s {
      assert s == r.0 + [c] + r.1;
      assert d in r.0 ==> d in s;
      assert d in r.1 ==> d in s;
    }
  }

  lemma SuffixNoUnsafe(s: string, t: string)
    requires NoUnsafe(s) && |t| <= |s| && t == s[|s| - |t|..]
    ensures NoUnsafe(t)
  {
    forall i | 0 <= i < |t| ensures !IsUnsafe(t[i]) { assert t[i] == s[|s| - |t| + i]; }
  }

  /** Python's `urlsplit(url, default)`; `params` is left empty. */
  function SplitUrl(url: string, default: string): (r: UrlParts)
    ensures forall i :: 0 <= i < |r.netloc| ==> !IsNetlocEnd(r.netloc[i]) && !IsUnsafe(r.netloc[i])
    ensures r.scheme == default || IsScheme(r.scheme)
    ensures '#' !in r.path && '?' !in r.path
    ensures r.params == []
  {
    var u0 := RemoveUnsafe(StripLeadingControl(url));
    var (scheme, u1) := SplitScheme(u0, default);
    SuffixNoUnsafe(u0, u1);
    var (netloc, u2) := SplitNetloc(u1);
    var (u3, fragment) := SplitAt(u2, '#');
    var (path, query) := SplitAt(u3, '?');
    SplitAtKeepsOut(u3, '?', '#');
    UrlParts(scheme, netloc, path, [], query, fragment)
  }

  /** Index of the last '/' of `s`, if any. */
  function LastSlash(s: string): (r: Option<nat>)
    ensures r.Some? ==> r.value < |s| && s[r.value] == '/' && '/' !in s[r.value + 1..]
    ensures r.None? ==> '/' !in s
    decreases |s|
  {
    if s == [] then None
    else if s[|s| - 1] == '/' then Some(|s| - 1)
    else
      var r := LastSlash(s[..|s| - 1]);
      assert s == s[..|s| - 1] + [s[|s| - 1]];
      if r.Some? then assert s[r.value + 1..] == s[..|s| - 1][r.value + 1..] + [s[|s| - 1]]; r
      else r
  }

  /** `_splitparams`: the ";params" of the last path segment, or of the first
      ';' when the path has no '/'. */
  function SplitParams(path: string): (r: (string, string))
    requires ';' in path
  {
    match LastSlash(path)
    case Some(j) =>
      (match FindFrom(path, ";", j)
       case None => (path, [])
       case Some(i) => (path[..i], path[i + 1..]))
    case None => SplitAt(path, ';')
  }

  /** Python's `urlparse(url, default)`. */
  function Parse(url: string, default: string): (r: UrlParts)
    ensures forall i :: 0 <= i < |r.netloc| ==> !IsNetlocEnd(r.netloc[i]) && !IsUnsafe(r.netloc[i])
    ensures r.scheme == default || IsScheme(r.scheme)
  {
    var p := SplitUrl(url, default);
    if p.scheme in UsesParams && ';' in p.path then
      var (path, params) := SplitParams(p.path);
      p.(path := path, params := params)
    else p
  }

  /** `urlparse(url).path`. */
  function Path(url: string): string { Parse(url, []).path }

  /** `urlparse(url).netloc`. */
  function Netloc(url: string): string { Parse(url, []).netloc }

  function SchemePrefix(scheme: string): string {
    if scheme != [] then scheme + ":" else []
  }

  function PathAndParams(p: UrlParts): string {
    if p.params != [] then p.path + ";" + p.params else p.path
  }

  /** A path after a netloc starts with '/'. */
  function RootedPath(u: string): (r: string)
    ensures r == [] || r[0] == '/'
  {
    if u != [] && u[0] != '/' then "/" + u else u
  }

  function QueryAndFragment(p: UrlParts): (r: string)
    ensures r == [] || r[0] == '?' || r[0] == '#'
  {
    (if p.query != [] then "?" + p.query else []) + (if p.fragment != [] then "#" + p.fragment else [])
  }

  /** Python's `urlunparse`. */
  function Unparse(p: UrlParts): string {
    var u0 := PathAndParams(p);
    var u1 :=
      if p.netloc != [] || (p.scheme != [] && p.scheme in UsesNetloc && !StartsWith(u0, "//")) then
        "//" + p.netloc + RootedPath(u0)
      else u0;
    SchemePrefix(p.scheme) + u1 + QueryAndFragment(p)
  }

  /** Python's `s.split("/")`. */
  function SplitSlash(s: string): (r: seq<string>)
    ensures |r| >= 1
    decreases |s|
  {
    var (head, tail) := SplitAt(s, '/');
    if '/' in s then [head] + SplitSlash(tail) else [s]
  }

  /** Dot-segment removal of `urljoin`: ".." drops the last kept segment, "."
      is skipped. */
  function ResolveDots(kept: seq<string>, segments: seq<string>): seq<string>
    decreases |segments|
  {
    if segments == [] then kept
    else if segments[0] == ".." then ResolveDots(if kept == [] then [] else kept[..|kept| - 1], segments[1..])
    else if segments[0] == "." then ResolveDots(kept, segments[1..])
    else ResolveDots(kept + [segments[0]], segments[1..])
  }

  function NonEmpty(segments: seq<string>): (r: seq<string>)
    decreases |segments|
  {
    if segments == [] then []
    else (if segments[0] == [] then [] else [segments[0]]) + NonEmpty(segments[1..])
  }

  /** The path `urljoin` builds from the base path and a relative path. */
  function MergePath(basePath: string, path: string): string {
    var baseParts := SplitSlash(basePath);
    var baseDir := if baseParts[|baseParts| - 1] != [] then baseParts[..|baseParts| - 1] else baseParts;
    var segments :=
      if StartsWith(path, "/") then SplitSlash(path)
      else
        var all := baseDir + SplitSlash(path);
        if |all| <= 2 then all else [all[0]] + NonEmpty(all[1..|all| - 1]) + [all[|all| - 1]];
    var resolved := ResolveDots([], segments);
    var resolved' := if segments[|segments| - 1] in [".", ".."] then resolved + [[]] else resolved;
    var joined := Join("/", resolved');
    if joined == [] then "/" else joined
  }

  /** Python's `urljoin(base, url)`. */
  function Resolve(base: string, url: string): string {
    if base == [] then url
    else if url == [] then base
    else
      var b := Parse(base, []);
      var r := Parse(url, b.scheme);
      if r.scheme != b.scheme || r.scheme !in UsesRelative then url
      else if r.scheme in UsesNetloc && r.netloc != [] then Unparse(r)
      else
        var netloc := if r.scheme in UsesNetloc then b.netloc else r.netloc;
        if r.path == [] && r.params == [] then
          Unparse(UrlParts(r.scheme, netloc, b.path, b.params,
            if r.query == [] then b.query else r.query, r.fragment))
        else
          Unparse(UrlParts(r.scheme, netloc, MergePath(b.path, r.path), r.params, r.query, r.fragment))
  }

  lemma {:induction false} RemoveUnsafeAppend(a: string, b: string)
    ensures RemoveUnsafe(a + b) == RemoveUnsafe(a) + RemoveUnsafe(b)
    decreases |a|
  {
    if a != [] {
      var h := if IsUnsafe(a[0]) then [] else [a[0]];
      var x, y := RemoveUnsafe(a[1..]), RemoveUnsafe(b);
      assert (a + b)[0] == a[0] && (a + b)[1..] == a[1..] + b;
      assert RemoveUnsafe(a + b) == h + RemoveUnsafe(a[1..] + b);
      assert RemoveUnsafe(a) == h + x;
      RemoveUnsafeAppend(a[1..], b);
      assert h + (x + y) == (h + x) + y;
    } else {
      assert a + b == b;
    }
  }

  /** Deleting tabs and line breaks keeps a prefix free of them and the
      first character of the rest when that is a netloc terminator. */
  lemma RemoveUnsafeKeepsPrefix(prefix: string, tail: string)
    requires forall i :: 0 <= i < |prefix| ==> !IsUnsafe(prefix[i])
    requires tail == [] || IsNetlocEnd(tail[0])
    ensures var t' := RemoveUnsafe(tail);
      RemoveUnsafe(prefix + tail) == prefix + t' && (t' == [] || IsNetlocEnd(t'[0]))
  {
    RemoveUnsafeAppend(prefix, tail);
    if tail != [] {
      assert tail == [tail[0]] + tail[1..];
      RemoveUnsafeAppend([tail[0]], tail[1..]);
    }
  }

  /** A scheme followed by ':' is split off by `SplitScheme`. */
  lemma SplitSchemeAt(scheme: string, rest: string)
    requires IsScheme(scheme)
    ensures SplitScheme(scheme + ":" + rest, []).1 == rest
  {
    var u := scheme + ":" + rest;
    var i := |scheme|;
    forall k | 0 <= k < i ensures !StartsWith(u[k..], ":") && IsSchemeChar(u[k]) {
      assert u[k..][0] == u[k] == scheme[k];
    }
    assert u[i..][..1] == ":";
    FindAt(u, ":", i);
    assert u[i + 1..] == rest;
    SchemeFound(u, i, []);
  }

  lemma SchemeFound(u: string, i: nat, default: string)
    requires Find(u, ":") == Some(i) && 0 < i < |u|
    requires IsAsciiLetter(u[0]) && forall k :: 0 <= k < i ==> IsSchemeChar(u[k])
    ensures SplitScheme(u, default).1 == u[i + 1..]
  {
  }

  /** "//" + netloc + a terminator is split back into that netloc. */
  lemma SplitNetlocAt(netloc: string, t: string)
    requires forall i :: 0 <= i < |netloc| ==> !IsNetlocEnd(netloc[i])
    requires t == [] || IsNetlocEnd(t[0])
    ensures SplitNetloc("//" + netloc + t).0 == netloc
  {
    var rest := "//" + netloc + t;
    assert StartsWith(rest, "//");
    var k := NetlocEnd(rest, 2);
    assert forall i :: 2 <= i < 2 + |netloc| ==> rest[i] == netloc[i - 2];
    assert 2 + |netloc| < |rest| ==> rest[2 + |netloc|] == t[0];
    assert k == 2 + |netloc|;
    assert rest[2..k] == netloc;
  }

  lemma SplitUrlNetloc(url: string, default: string)
    ensures SplitUrl(url, default).netloc
      == SplitNetloc(SplitScheme(RemoveUnsafe(StripLeadingControl(url)), default).1).0
  {
    var u0 := RemoveUnsafe(StripLeadingControl(url));
    var (scheme, u1) := SplitScheme(u0, default);
    var (netloc, u2) := SplitNetloc(u1);
    assert SplitUrl(url, default).netloc == netloc;
  }

  /** The netloc `urlparse` reads is the one after the scheme of the cleaned URL. */
  lemma ParseNetloc(url: string)
    ensures Netloc(url) == SplitNetloc(SplitScheme(RemoveUnsafe(StripLeadingControl(url)), []).1).0
  {
    var p := SplitUrl(url, []);
    assert Parse(url, []).netloc == p.netloc;
    SplitUrlNetloc(url, []);
  }

  predicate NoUnsafe(s: string) {
    forall i :: 0 <= i < |s| ==> !IsUnsafe(s[i])
  }

  /** An unparsed URL with a netloc is its scheme prefix, "//", the netloc and
      a tail that starts with '/', '?' or '#'. */
  lemma UnparseShape(p: UrlParts) returns (tail: string)
    requires p.netloc != []
    ensures Unparse(p) == SchemePrefix(p.scheme) + ("//" + p.netloc) + tail
    ensures tail == [] || IsNetlocEnd(tail[0])
  {
    var r := RootedPath(PathAndParams(p));
    var qf := QueryAndFragment(p);
    tail := r + qf;
    assert Unparse(p) == SchemePrefix(p.scheme) + ("//" + p.netloc + r) + qf;
  }

  /** Cleaning an unparsed URL with a netloc only touches the tail. */
  lemma CleanUnparse(p: UrlParts) returns (t': string)
    requires p.netloc != []
    requires NoUnsafe(p.netloc)
    requires p.scheme == [] || IsScheme(p.scheme)
    ensures RemoveUnsafe(StripLeadingControl(Unparse(p))) == SchemePrefix(p.scheme) + ("//" + p.netloc) + t'
    ensures t' == [] || IsNetlocEnd(t'[0])
  {
    var tail := UnparseShape(p);
    var prefix := SchemePrefix(p.scheme);
    var head := "//" + p.netloc;
    var s := Unparse(p);
    assert NoUnsafe(prefix + head) by {
      assert NoUnsafe(prefix) && NoUnsafe(head);
    }
    assert StripLeadingControl(s) == s by {
      assert s[0] == if p.scheme != [] then p.scheme[0] else '/';
    }
    RemoveUnsafeKeepsPrefix(prefix + head, tail);
    t' := RemoveUnsafe(tail);
  }

  /** A cleaned URL made of a scheme prefix, "//", a netloc and a tail
      starting with a terminator splits back into that netloc. */
  lemma SplitCleaned(scheme: string, netloc: string, t': string)
    requires scheme == [] || IsScheme(scheme)
    requires forall i :: 0 <= i < |netloc| ==> !IsNetlocEnd(netloc[i])
    requires t' == [] || IsNetlocEnd(t'[0])
    ensures SplitNetloc(SplitScheme(SchemePrefix(scheme) + ("//" + netloc) + t', []).1).0 == netloc
  {
    var rest := "//" + netloc + t';
    var u0 := SchemePrefix(scheme) + ("//" + netloc) + t';
    if scheme != [] {
      assert u0 == scheme + ":" + rest;
      SplitSchemeAt(scheme, rest);
    } else {
      assert u0 == rest;
      assert !IsAsciiLetter(rest[0]);
    }
    SplitNetlocAt(netloc, t');
  }

  /** The netloc of an unparsed URL is read back by `urlparse`. */
  lemma UnparseNetloc(p: UrlParts)
    requires p.netloc != []
    requires forall i :: 0 <= i < |p.netloc| ==> !IsNetlocEnd(p.netloc[i]) && !IsUnsafe(p.netloc[i])
    requires p.scheme == [] || IsScheme(p.scheme)
    ensures Netloc(Unparse(p)) == p.netloc
  {
    var t' := CleanUnparse(p);
    SplitCleaned(p.scheme, p.netloc, t');
    ParseNetloc(Unparse(p));
  }

  /** A reference with no network location of its own (a path, a query, a
      fragment) resolves to a URL on the base URL's network location. */
  lemma ResolveRelativeKeepsNetloc(base: string, url: string)
    requires base != [] && url != []
    requires Parse(base, []).scheme in UsesRelative && Parse(base, []).scheme in UsesNetloc
    requires Parse(base, []).netloc != []
    requires Parse(url, Parse(base, []).scheme).scheme == Parse(base, []).scheme
    requires Parse(url, Parse(base, []).scheme).netloc == []
    ensures Netloc(Resolve(base, url)) == Netloc(base)
  {
    var b := Parse(base, []);
    var r := Parse(url, b.scheme);
    if r.path == [] && r.params == [] {
      UnparseNetloc(UrlParts(r.scheme, b.netloc, b.path, b.params,
        if r.query == [] then b.query else r.query, r.fragment));
    } else {
      UnparseNetloc(UrlParts(r.scheme, b.netloc, MergePath(b.path, r.path), r.params, r.query, r.fragment));
    }
  }
}
