/**
 * The part of Go's net/url used by the agent: `url.Parse`, `(*URL).JoinPath`
 * and `(*URL).String`, for URLs without userinfo, query or fragment, with
 * Go's check of the host, the cleaning `path.Join` applies to joined paths
 * and the percent-encoding of the host and the path.
 */
module NetUrl {
  import opened Wrappers
  import GoStrings
  import UrlEscape

  /**
   * A parsed URL: `scheme:opaque` or `scheme://host/path` (any part may be
   * empty). The path is kept as `EscapedPath` gives it; the decoded `Path`
   * of Go's URL is its `UrlEscape.Unescape`.
   */
  datatype Url = Url(scheme: string, opaquePart: string, host: string, path: string, omitHost: bool)

  predicate IsControl(c: char) { c < ' ' || c == '\U{7F}' }

  predicate HasControl(s: string) { exists i :: 0 <= i < |s| && IsControl(s[i]) }

  predicate IsLetter(c: char) { 'a' <= c <= 'z' || 'A' <= c <= 'Z' }

  predicate IsSchemeChar(c: char)
  {
    IsLetter(c) || '0' <= c <= '9' || c == '+' || c == '-' || c == '.'
  }

  predicate IsLowerWord(s: string) { |s| > 0 && forall i :: 0 <= i < |s| ==> 'a' <= s[i] <= 'z' }

  /** Number of leading characters of `s` that may appear in a scheme. */
  function SchemeRun(s: string): (k: nat)
    ensures k <= |s|
    decreases |s|
  {
    if s != [] && IsSchemeChar(s[0]) then 1 + SchemeRun(s[1..]) else 0
  }

  function ToLower(s: string): (r: string)
    ensures |r| == |s|
    decreases |s|
  {
    if s == [] then []
    else [if 'A' <= s[0] <= 'Z' then (s[0] as int + 32) as char else s[0]] + ToLower(s[1..])
  }

  predicate HasPrefix(s: string, p: string) { |p| <= |s| && s[..|p|] == p }

  predicate HasSuffix(s: string, x: string) { |x| <= |s| && s[|s| - |x|..] == x }

  /** The part of a path before its first slash. */
  function FirstSegment(s: string): string { s[..GoStrings.IndexOf(s, '/')] }

  /** Outcome of Go's `getScheme`. */
  datatype SchemeSplit = MissingScheme | Split(scheme: string, rest: string)

  /**
   * A scheme is a letter followed by letters, digits, '+', '-' or '.', ended
   * by ':'; a leading ':' is an error; otherwise there is no scheme.
   */
  function GetScheme(s: string): SchemeSplit
  {
    if s == [] then Split("", s)
    else if s[0] == ':' then MissingScheme
    else if !IsLetter(s[0]) then Split("", s)
    else
      var k := SchemeRun(s);
      if k < |s| && s[k] == ':' then Split(s[..k], s[k + 1..]) else Split("", s)
  }

  /**
   * The characters Go's `parseHost` lets a host hold unescaped: ASCII letters
   * and digits, the unreserved and sub-delimiter marks, ':', brackets, '<',
   * '>' and '"', and every non-ASCII character.
   */
  predicate IsHostChar(c: char)
  {
    || IsLetter(c) || '0' <= c <= '9' || c >= '\U{80}'
    || c in {'-', '.', '_', '~', '!', '$', '&', '\'', '(', ')', '*', '+', ',', ';', '=', ':', '[', ']', '<', '>', '"'}
  }

  /** Index of the last `c` in `s`, or -1 when there is none. */
  function LastIndexOf(s: string, c: char): (i: int)
    ensures -1 <= i < |s|
    ensures i >= 0 ==> s[i] == c
    ensures forall j :: i < j < |s| ==> s[j] != c
    decreases |s|
  {
    if s == [] then -1 else if s[|s| - 1] == c then |s| - 1 else LastIndexOf(s[..|s| - 1], c)
  }

  /** Go's `validOptionalPort`: nothing, or a colon followed by digits only. */
  predicate ValidOptionalPort(p: string)
  {
    p == "" || (p[0] == ':' && forall i :: 1 <= i < |p| ==> '0' <= p[i] <= '9')
  }

  /**
   * Go's `parseHost` accepts the host: what follows the last ']' of a
   * bracketed literal, or else the last ':' and what follows it, is a valid
   * optional port, and every character may appear in a host.
   */
  predicate ValidHost(h: string)
  {
    && (if HasPrefix(h, "[") then
          var j := LastIndexOf(h, ']');
          j >= 0 && ValidOptionalPort(h[j + 1..])
        else
          var j := LastIndexOf(h, ':');
          j < 0 || ValidOptionalPort(h[j..]))
    && forall i :: 0 <= i < |h| ==> IsHostChar(h[i])
  }

  /** `setPath`, seen through `EscapedPath`: `None` when the path holds an invalid escape. */
  function SetPath(u: Url, p: string): Option<Url>
  {
    match UrlEscape.EscapedPathOf(p)
    case None => None
    case Some(e) => Some(u.(path := e))
  }

  /** `url.Parse`; `None` stands for a non-nil error. */
  function Parse(raw: string): Option<Url>
  {
    if HasControl(raw) then None
    else match GetScheme(raw)
      case MissingScheme => None
      case Split(sch, rest) =>
        var scheme := ToLower(sch);
        var rooted := HasPrefix(rest, "/");
        if !rooted && scheme != "" then Some(Url(scheme, rest, "", "", false))
        else if !rooted && ':' in FirstSegment(rest) then None
        else if (scheme != "" || !HasPrefix(rest, "///")) && HasPrefix(rest, "//") then
          var authority := rest[2..];
          var i := GoStrings.IndexOf(authority, '/');
          if !ValidHost(authority[..i]) then None
          else SetPath(Url(scheme, "", authority[..i], "", false), authority[i..])
        else SetPath(Url(scheme, "", "", "", scheme != "" && rooted), rest)
  }

  /** `(*URL).String`: the host is written escaped, the path as `EscapedPath` gives it. */
  function ToString(u: Url): string
  {
    var pre := if u.scheme != "" then u.scheme + ":" else "";
    if u.opaquePart != "" then pre + u.opaquePart
    else
      var auth :=
        if (u.scheme != "" || u.host != "") && !(u.omitHost && u.host == "") then
          (if u.host != "" || u.path != "" then "//" else "") + UrlEscape.Escape(u.host, UrlEscape.EncodeHost)
        else "";
      var sep := if u.path != "" && u.path[0] != '/' && u.host != "" then "/" else "";
      var dot := if pre + auth + sep == "" && ':' in FirstSegment(u.path) then "./" else "";
      pre + auth + sep + dot + u.path
  }

  /** A name `path.Clean` keeps: not empty, not "." or "..", and without a slash. */
  predicate IsName(s: string) { s != "" && s != "." && s != ".." && '/' !in s }

  /**
   * One segment of a rooted path through `path.Clean`: an empty segment (from
   * a repeated or trailing slash) and "." vanish, ".." drops the last kept
   * name (and nothing at the root), and any other segment is kept.
   */
  function CleanStep(kept: seq<string>, seg: string): seq<string>
  {
    if seg == "" || seg == "." then kept
    else if seg == ".." then (if kept == [] then [] else kept[..|kept| - 1])
    else kept + [seg]
  }

  /** The segments taken through `CleanStep` from left to right, starting from `kept`. */
  function CleanFrom(kept: seq<string>, segs: seq<string>): seq<string>
    decreases |segs|
  {
    if segs == [] then kept else CleanFrom(CleanStep(kept, segs[0]), segs[1..])
  }

  /** Each name preceded by a slash. */
  function Slashed(names: seq<string>): (r: string)
    ensures names != [] ==> r != [] && r[0] == '/'
    decreases |names|
  {
    if names == [] then "" else Slashed(names[..|names| - 1]) + "/" + names[|names| - 1]
  }

  /** `path.Clean` of a rooted path: "/" followed by the names it keeps, slash-separated. */
  function CleanRooted(p: string): (r: string)
    ensures HasPrefix(r, "/")
  {
    var kept := CleanFrom([], GoStrings.Split(p, '/'));
    if kept == [] then "/" else Slashed(kept)
  }

  /** A path made rooted for joining. */
  function Rooted(path: string): (r: string)
    ensures HasPrefix(r, "/")
  {
    if HasPrefix(path, "/") then path else "/" + path
  }

  /** What `path.Join` cleans: the elements after a non-empty base, each behind one more slash. */
  function JoinElems(base: string, elems: seq<string>): (r: string)
    requires HasPrefix(base, "/")
    ensures HasPrefix(r, "/")
    decreases |elems|
  {
    if elems == [] then base
    else
      var next := base + "/" + elems[0];
      assert next[..1] == base[..1];
      JoinElems(next, elems[1..])
  }

  /**
   * The path `(*URL).JoinPath` hands to `setPath`: `path.Join` of the rooted
   * escaped path and the elements, made relative again when the path was
   * relative, with a trailing slash put back when the last element has one.
   */
  function JoinedPath(u: Url, elems: seq<string>): string
  {
    var first := Rooted(u.path);
    var joined := CleanRooted(JoinElems(first, elems));
    var p := if HasPrefix(u.path, "/") then joined else joined[1..];
    var last := if elems == [] then first else elems[|elems| - 1];
    if HasSuffix(last, "/") && !HasSuffix(p, "/") then p + "/" else p
  }

  /** `(*URL).JoinPath`: a copy with the joined path set; the copy is unchanged when `setPath` fails. */
  function JoinPath(u: Url, elems: seq<string>): Url
  {
    match SetPath(u, JoinedPath(u, elems))
    case None => u
    case Some(v) => v
  }

  /** A URL path cleaned as a rooted path, without the lone slash of the root: "" or "/a/b". */
  function CleanBase(path: string): string
  {
    Slashed(CleanFrom([], GoStrings.Split(Rooted(path), '/')))
  }

  /** `scheme://authority` with a lower-case scheme and an authority that is a non-empty valid host. */
  predicate IsServerURL(scheme: string, authority: string)
  {
    IsLowerWord(scheme) && authority != "" && ValidHost(authority)
  }

  lemma {:induction false} SchemeRunOfWord(a: string, rest: string)
    requires forall i :: 0 <= i < |a| ==> 'a' <= a[i] <= 'z'
    requires rest != [] && rest[0] == ':'
    ensures SchemeRun(a + rest) == |a|
    decreases |a|
  {
    if a != [] {
      assert (a + rest)[1..] == a[1..] + rest;
      SchemeRunOfWord(a[1..], rest);
    } else {
      assert a + rest == rest;
    }
  }

  lemma {:induction false} ToLowerOfLower(a: string)
    requires forall i :: 0 <= i < |a| ==> 'a' <= a[i] <= 'z'
    ensures ToLower(a) == a
    decreases |a|
  {
    if a != [] { ToLowerOfLower(a[1..]); }
  }

  /** A scheme://authority with a lower-case scheme splits into that scheme and "//" + authority. */
  lemma SchemeOfAuthorityURL(scheme: string, authority: string)
    requires IsLowerWord(scheme) && !HasControl(authority)
    ensures var s := scheme + "://" + authority;
      !HasControl(s) && GetScheme(s) == Split(scheme, "//" + authority)
  {
    var s := scheme + "://" + authority;
    forall i | 0 <= i < |s| ensures !IsControl(s[i]) {
      if i >= |scheme| + 3 { assert s[i] == authority[i - |scheme| - 3]; }
    }
    assert s == scheme + ("://" + authority);
    SchemeRunOfWord(scheme, "://" + authority);
    assert s[..|scheme|] == scheme;
    assert s[|scheme|] == ':';
    assert IsLetter(s[0]);
    assert s[|scheme| + 1..] == "//" + authority;
  }

  /** A host Go accepts holds no control character and no slash. */
  lemma ValidHostChars(h: string)
    requires ValidHost(h)
    ensures !HasControl(h)
    ensures '/' !in h && GoStrings.IndexOf(h, '/') == |h|
  {
    forall i | 0 <= i < |h| ensures !IsControl(h[i]) && h[i] != '/' {
      assert IsHostChar(h[i]);
    }
    GoStrings.IndexOfIs(h, '/', |h|);
  }

  /** A server URL parses into its scheme and its authority, with an empty path. */
  lemma ParseServerURL(scheme: string, authority: string)
    requires IsServerURL(scheme, authority)
    ensures Parse(scheme + "://" + authority) == Some(Url(scheme, "", authority, "", false))
  {
    ValidHostChars(authority);
    SchemeOfAuthorityURL(scheme, authority);
    var rest := "//" + authority;
    ToLowerOfLower(scheme);
    assert HasPrefix(rest, "/") && HasPrefix(rest, "//");
    assert rest[2..] == authority;
    assert authority[..|authority|] == authority;
    assert authority[|authority|..] == [];
  }

  /** A path held as a valid encoding holds no control character. */
  lemma EncodedNoControl(path: string)
    requires UrlEscape.ValidEncoded(path)
    ensures !HasControl(path)
  {
    forall i | 0 <= i < |path| ensures !IsControl(path[i]) {
      assert UrlEscape.EncodedChar(path[i]);
    }
  }

  /**
   * A server URL followed by a path that is empty, or rooted and held as a
   * valid encoding, parses into its scheme, its authority and that path.
   */
  lemma ParseServerURLWithPath(scheme: string, authority: string, path: string)
    requires IsServerURL(scheme, authority)
    requires path == "" || (path[0] == '/' && UrlEscape.ValidEscapes(path) && UrlEscape.ValidEncoded(path))
    ensures Parse(scheme + "://" + authority + path) == Some(Url(scheme, "", authority, path, false))
  {
    var a := authority + path;
    AuthorityThenPath(authority, path);
    SchemeOfAuthorityURL(scheme, a);
    ToLowerOfLower(scheme);
    assert scheme + "://" + authority + path == scheme + "://" + a;
    ParseOfAuthority(scheme + "://" + a, scheme, a);
    EncodedPathKept(path);
  }

  /** A raw URL that splits into a lower-case scheme and "//" + a parses by the authority branch. */
  lemma ParseOfAuthority(raw: string, scheme: string, a: string)
    requires !HasControl(raw) && GetScheme(raw) == Split(scheme, "//" + a) && scheme != "" && ToLower(scheme) == scheme
    ensures var i := GoStrings.IndexOf(a, '/');
      Parse(raw) == if !ValidHost(a[..i]) then None else SetPath(Url(scheme, "", a[..i], "", false), a[i..])
  {
    var rest := "//" + a;
    assert HasPrefix(rest, "/") && HasPrefix(rest, "//");
    assert rest[2..] == a;
  }

  /** `setPath` keeps an empty path, or a rooted path held as a valid encoding. */
  lemma EncodedPathKept(path: string)
    requires path == "" || (path[0] == '/' && UrlEscape.ValidEscapes(path) && UrlEscape.ValidEncoded(path))
    ensures UrlEscape.EscapedPathOf(path) == Some(path)
  {
    assert path != "%2A";
  }

  /** A host Go accepts followed by an encoded path: no control character, and the first slash starts the path. */
  lemma AuthorityThenPath(authority: string, path: string)
    requires ValidHost(authority)
    requires path == "" || (path[0] == '/' && UrlEscape.ValidEncoded(path))
    ensures var a := authority + path;
      && !HasControl(a) && GoStrings.IndexOf(a, '/') == |authority|
      && a[..|authority|] == authority && a[|authority|..] == path
  {
    var a := authority + path;
    ValidHostChars(authority);
    EncodedNoControl(path);
    forall i | 0 <= i < |a| ensures !IsControl(a[i]) {
      if i < |authority| { assert a[i] == authority[i]; } else { assert a[i] == path[i - |authority|]; }
    }
    assert forall j :: 0 <= j < |authority| ==> a[j] == authority[j];
    GoStrings.IndexOfIs(a, '/', |authority|);
  }

  /**
   * `String` and `Parse` round-trip: a server URL with an ASCII host Go
   * accepts and a path that is empty, or rooted and held as a valid
   * encoding, prints as a string that parses back into it.
   */
  lemma ParseOfToString(u: Url)
    requires u.opaquePart == "" && IsServerURL(u.scheme, u.host)
    requires forall i :: 0 <= i < |u.host| ==> u.host[i] as int < 0x80
    requires u.path == "" || (u.path[0] == '/' && UrlEscape.ValidEscapes(u.path) && UrlEscape.ValidEncoded(u.path))
    ensures Parse(ToString(u)) == Some(u.(omitHost := false))
  {
    ASCIIHostPlain(u.host);
    UrlEscape.EscapeOfPlainHost(u.host);
    ToStringServer(u);
    var prefix := u.scheme + "://" + u.host;
    assert ToString(u) == prefix + "" + u.path;
    assert prefix + "" == prefix;
    ParseServerURLWithPath(u.scheme, u.host, u.path);
  }

  /**
   * A scheme://authority whose authority Go's host parser refuses (a port
   * that is not a number, a space in the name) does not parse.
   */
  lemma ParseInvalidHost(scheme: string, authority: string)
    requires IsLowerWord(scheme) && '/' !in authority && !HasControl(authority)
    requires !ValidHost(authority)
    ensures Parse(scheme + "://" + authority) == None
  {
    SchemeOfAuthorityURL(scheme, authority);
    var rest := "//" + authority;
    ToLowerOfLower(scheme);
    assert HasPrefix(rest, "/") && HasPrefix(rest, "//");
    assert rest[2..] == authority;
    assert !ValidHost(authority[..GoStrings.IndexOf(authority, '/')]) by {
      GoStrings.IndexOfIs(authority, '/', |authority|);
      assert authority[..|authority|] == authority;
    }
  }

  /**
   * Without "//" after the colon, a scheme-prefixed string is opaque: a host
   * and port written without a scheme ("localhost:8123") parse as scheme
   * "localhost" with opaque part "8123", and no host.
   */
  lemma ParseOpaque(scheme: string, rest: string)
    requires IsLowerWord(scheme) && rest != [] && rest[0] != '/' && !HasControl(rest)
    ensures Parse(scheme + ":" + rest) == Some(Url(scheme, rest, "", "", false))
  {
    var s := scheme + ":" + rest;
    forall i | 0 <= i < |s| ensures !IsControl(s[i]) {
      if i > |scheme| { assert s[i] == rest[i - |scheme| - 1]; }
    }
    assert s == scheme + (":" + rest);
    SchemeRunOfWord(scheme, ":" + rest);
    assert s[..|scheme|] == scheme;
    assert s[|scheme|] == ':';
    assert IsLetter(s[0]);
    assert s[|scheme| + 1..] == rest;
    assert GetScheme(s) == Split(scheme, rest);
    ToLowerOfLower(scheme);
    assert !HasPrefix(rest, "/");
  }

  /** A URL with a path or an opaque part prints as a non-empty string ending in it. */
  lemma ToStringEndsWith(u: Url)
    ensures u.opaquePart == "" ==>
      (|ToString(u)| >= |u.path| && ToString(u)[|ToString(u)| - |u.path|..] == u.path)
    ensures u.opaquePart != "" ==> ToString(u) == (if u.scheme != "" then u.scheme + ":" else "") + u.opaquePart
  {
  }

  /** A URL with a scheme and a host prints as scheme://host, then a slash if the path is relative, then the path. */
  lemma ToStringServer(u: Url)
    requires u.opaquePart == "" && u.scheme != "" && u.host != ""
    ensures ToString(u) ==
      u.scheme + "://" + UrlEscape.Escape(u.host, UrlEscape.EncodeHost) + (if u.path != "" && u.path[0] != '/' then "/" else "") + u.path
  {
    var pre := u.scheme + ":";
    var auth := "//" + UrlEscape.Escape(u.host, UrlEscape.EncodeHost);
    var sep := if u.path != "" && u.path[0] != '/' then "/" else "";
    assert pre + auth + sep != "" by {
      assert |pre| > 0;
    }
    assert ToString(u) == pre + auth + sep + u.path;
    assert pre + auth == u.scheme + "://" + UrlEscape.Escape(u.host, UrlEscape.EncodeHost);
  }

  /** A URL with a scheme, a host and the relative path p[1..] prints as scheme://host then p. */
  lemma ToStringRelative(u: Url, p: string)
    requires u.opaquePart == "" && u.scheme != "" && u.host != ""
    requires |p| >= 2 && p[0] == '/' && p[1] != '/' && u.path == p[1..]
    ensures ToString(u) == u.scheme + "://" + UrlEscape.Escape(u.host, UrlEscape.EncodeHost) + p
  {
    ToStringServer(u);
    ConcatAfterSlash(u.scheme + "://" + UrlEscape.Escape(u.host, UrlEscape.EncodeHost), p);
  }

  lemma ConcatAfterSlash(t: string, p: string)
    requires |p| >= 1 && p[0] == '/'
    ensures t + "/" + p[1..] == t + p
  {
    assert p == "/" + p[1..];
  }

  /** The same, with a further suffix after the path. */
  lemma ConcatAfterSlashThen(t: string, p: string, q: string)
    requires |p| >= 1 && p[0] == '/'
    ensures t + "/" + (p[1..] + q) == t + p + q
  {
    assert p == "/" + p[1..];
  }

  /** A rooted element appended to anything leaves the element, less its slash, at the end. */
  lemma SuffixAfterSlash(t: string, p: string)
    requires |p| >= 1 && p[0] == '/'
    ensures HasSuffix(t + p, p[1..]) && |t + p| > |p[1..]|
  {
    assert (t + p)[|t + p| - |p[1..]|..] == p[1..];
  }

  /** Dropping the first character of a longer string keeps its suffix. */
  lemma SuffixOfTail(s: string, x: string)
    requires HasSuffix(s, x) && |s| > |x|
    ensures HasSuffix(s[1..], x)
  {
    assert s[1..][|s| - 1 - |x|..] == s[|s| - |x|..];
  }

  /** A path appended behind a base ends the result less its leading slash, whether or not that is dropped too. */
  lemma SuffixOfJoined(t: string, p: string, rooted: bool)
    requires |p| >= 1 && p[0] == '/'
    ensures |t + p| >= 1
    ensures HasSuffix(if rooted then t + p else (t + p)[1..], p[1..])
  {
    SuffixAfterSlash(t, p);
    if !rooted {
      SuffixOfTail(t + p, p[1..]);
    }
  }

  /** Dropping the first character of a concatenation drops it from the first part. */
  lemma DropFirstOfConcat(a: string, b: string)
    requires |a| >= 1
    ensures (a + b)[1..] == a[1..] + b
  {
  }

  /** Cleaning a concatenation cleans the first part, then carries on with the second. */
  lemma {:induction false} CleanFromAppend(kept: seq<string>, s: seq<string>, t: seq<string>)
    ensures CleanFrom(kept, s + t) == CleanFrom(CleanFrom(kept, s), t)
    decreases |s|
  {
    if s == [] {
      assert s + t == t;
    } else {
      assert (s + t)[1..] == s[1..] + t;
      CleanFromAppend(CleanStep(kept, s[0]), s[1..], t);
    }
  }

  /** Names are kept as they are. */
  lemma {:induction false} CleanFromNames(kept: seq<string>, names: seq<string>)
    requires forall i :: 0 <= i < |names| ==> IsName(names[i])
    ensures CleanFrom(kept, names) == kept + names
    decreases |names|
  {
    if names != [] {
      CleanFromNames(kept + [names[0]], names[1..]);
      assert kept + [names[0]] + names[1..] == kept + names;
    }
  }

  lemma {:induction false} SlashedAppend(a: seq<string>, b: seq<string>)
    ensures Slashed(a + b) == Slashed(a) + Slashed(b)
    decreases |b|
  {
    if b == [] {
      assert a + b == a;
    } else {
      var init := b[..|b| - 1];
      assert (a + b)[..|a + b| - 1] == a + init;
      SlashedAppend(a, init);
    }
  }

  /** Slashed names split into an empty segment (before the first slash), then the names. */
  lemma {:induction false} SplitSlashed(names: seq<string>)
    requires forall i :: 0 <= i < |names| ==> '/' !in names[i]
    ensures GoStrings.Split(Slashed(names), '/') == [""] + names
    decreases |names|
  {
    if names == [] {
      GoStrings.SplitWithout("", '/');
    } else {
      var init, x := names[..|names| - 1], names[|names| - 1];
      SplitSlashed(init);
      GoStrings.SplitConcat(Slashed(init), x, '/');
      GoStrings.SplitWithout(x, '/');
      assert names == init + [x];
    }
  }

  /** An empty URL path cleans to nothing beyond the root. */
  lemma CleanBaseOfEmpty()
    ensures CleanBase("") == ""
  {
    assert Rooted("") == "" + "/" + "";
    GoStrings.SplitConcat("", "", '/');
    GoStrings.SplitWithout("", '/');
    assert CleanFrom([], ["", ""]) == CleanFrom([], [""]) == [];
  }

  /** Slashed names behind a slash after a base, cleaned. */
  lemma CleanRootedNames(first: string, names: seq<string>)
    requires names != [] && forall i :: 0 <= i < |names| ==> IsName(names[i])
    ensures CleanRooted(first + "/" + Slashed(names)) ==
      Slashed(CleanFrom([], GoStrings.Split(first, '/'))) + Slashed(names)
  {
    var segs := GoStrings.Split(first, '/');
    var k0 := CleanFrom([], segs);
    assert GoStrings.Split(first + "/" + Slashed(names), '/') == segs + ([""] + names) by {
      GoStrings.SplitConcat(first, Slashed(names), '/');
      SplitSlashed(names);
    }
    assert CleanFrom([], segs + ([""] + names)) == k0 + names by {
      CleanFromAppend([], segs, [""] + names);
      assert CleanFrom(k0, [""] + names) == CleanFrom(k0, names);
      CleanFromNames(k0, names);
    }
    SlashedAppend(k0, names);
  }

  /** Slashed names end in the last name, so not in a slash. */
  lemma SlashedUnslashed(names: seq<string>)
    requires names != [] && forall i :: 0 <= i < |names| ==> IsName(names[i])
    ensures !HasSuffix(Slashed(names), "/")
  {
    var x := names[|names| - 1];
    var t := Slashed(names);
    assert t[|t| - 1] == x[|x| - 1] != '/';
  }

  /**
   * Joining slashed names onto a URL path gives the cleaned path with the
   * names appended, relative when the URL path was.
   */
  lemma JoinPathNames(u: Url, names: seq<string>)
    requires names != [] && forall i :: 0 <= i < |names| ==> IsName(names[i])
    ensures var c := CleanBase(u.path) + Slashed(names);
      JoinedPath(u, [Slashed(names)]) == if HasPrefix(u.path, "/") then c else c[1..]
  {
    var first, tail := Rooted(u.path), Slashed(names);
    JoinElemsOne(first, tail);
    CleanRootedNames(first, names);
    assert CleanBase(u.path) == Slashed(CleanFrom([], GoStrings.Split(first, '/')));
    SlashedUnslashed(names);
    JoinPathUnslashed(u, [tail], CleanBase(u.path) + tail);
  }

  /** A directory of slashed names with its trailing slash splits into an empty segment, the names and another empty segment. */
  lemma SplitDir(names: seq<string>)
    requires forall i :: 0 <= i < |names| ==> '/' !in names[i]
    ensures GoStrings.Split(Slashed(names) + "/", '/') == ([""] + names) + [""]
  {
    var dir := Slashed(names);
    assert dir + "/" == dir + "/" + "";
    GoStrings.SplitConcat(dir, "", '/');
    GoStrings.SplitWithout("", '/');
    SplitSlashed(names);
  }

  /** The segments of a base, a directory of slashed names with its trailing slash, and a name, each behind a slash. */
  lemma SplitDirThenName(first: string, names: seq<string>, name: string)
    requires forall i :: 0 <= i < |names| ==> '/' !in names[i]
    requires '/' !in name
    ensures GoStrings.Split(first + "/" + (Slashed(names) + "/") + "/" + name, '/') ==
      GoStrings.Split(first, '/') + (([""] + names) + ["", name])
  {
    var dir := Slashed(names);
    var x := first + "/" + (dir + "/");
    SplitDir(names);
    assert GoStrings.Split(x, '/') == GoStrings.Split(first, '/') + (([""] + names) + [""]) by {
      GoStrings.SplitConcat(first, dir + "/", '/');
    }
    GoStrings.SplitConcat(x, name, '/');
    GoStrings.SplitWithout(name, '/');
  }

  /** Cleaning an empty segment, names, another empty segment and a name keeps the names and the name. */
  lemma CleanDirThenName(kept: seq<string>, names: seq<string>, name: string)
    requires forall i :: 0 <= i < |names| ==> IsName(names[i])
    requires IsName(name)
    ensures CleanFrom(kept, ([""] + names) + ["", name]) == kept + (names + [name])
  {
    CleanFromAppend(kept, [""] + names, ["", name]);
    assert CleanFrom(kept, [""] + names) == CleanFrom(kept, names);
    CleanFromNames(kept, names);
    var k := kept + names;
    assert ["", name][1..] == [name] && [name][1..] == [];
    assert CleanFrom(k, ["", name]) == CleanFrom(k, [name]);
    assert CleanStep(k, name) == k + [name];
    assert CleanFrom(k, [name]) == CleanFrom(k + [name], []);
  }

  /** A base, a directory of slashed names with its trailing slash, and a name, each behind a slash, cleaned. */
  lemma CleanRootedDirThenName(first: string, names: seq<string>, name: string)
    requires forall i :: 0 <= i < |names| ==> IsName(names[i])
    requires IsName(name)
    ensures CleanRooted(first + "/" + (Slashed(names) + "/") + "/" + name) ==
      Slashed(CleanFrom([], GoStrings.Split(first, '/'))) + (Slashed(names) + "/" + name)
  {
    var dir := Slashed(names);
    var segs := GoStrings.Split(first, '/');
    var k0 := CleanFrom([], segs);
    var tail := ([""] + names) + ["", name];
    var kept := k0 + (names + [name]);
    SplitDirThenName(first, names, name);
    assert CleanFrom([], segs + tail) == kept by {
      CleanFromAppend([], segs, tail);
      CleanDirThenName(k0, names, name);
    }
    assert Slashed(kept) == Slashed(k0) + (dir + "/" + name) by {
      SlashedAppend(k0, names + [name]);
      assert (names + [name])[..|names|] == names;
    }
  }

  /** One element joined onto a rooted base. */
  lemma JoinElemsOne(base: string, a: string)
    requires HasPrefix(base, "/")
    ensures JoinElems(base, [a]) == base + "/" + a
  {
    assert [a][1..] == [];
  }

  /** Two elements joined onto a rooted base. */
  lemma JoinElemsTwo(base: string, a: string, b: string)
    requires HasPrefix(base, "/")
    ensures JoinElems(base, [a, b]) == base + "/" + a + "/" + b
  {
    assert [a, b][1..] == [b] && [b][1..] == [];
    assert JoinElems(base, [a, b]) == JoinElems(base + "/" + a, [b]);
  }

  /** A join whose last element ends without a slash is the cleaned join, relative again for a relative path. */
  lemma JoinPathUnslashed(u: Url, elems: seq<string>, cleaned: string)
    requires elems != [] && !HasSuffix(elems[|elems| - 1], "/")
    requires CleanRooted(JoinElems(Rooted(u.path), elems)) == cleaned
    ensures |cleaned| >= 1
    ensures JoinedPath(u, elems) == if HasPrefix(u.path, "/") then cleaned else cleaned[1..]
  {
  }

  /**
   * Joining a directory of slashed names (with its trailing slash) and then
   * one more name gives the cleaned path with them all appended.
   */
  lemma JoinPathDirThenName(u: Url, names: seq<string>, name: string)
    requires forall i :: 0 <= i < |names| ==> IsName(names[i])
    requires IsName(name)
    ensures var c := CleanBase(u.path) + (Slashed(names) + "/" + name);
      JoinedPath(u, [Slashed(names) + "/", name]) == if HasPrefix(u.path, "/") then c else c[1..]
  {
    var first, dir := Rooted(u.path), Slashed(names);
    JoinElemsTwo(first, dir + "/", name);
    CleanRootedDirThenName(first, names, name);
    assert CleanBase(u.path) == Slashed(CleanFrom([], GoStrings.Split(first, '/')));
    assert !HasSuffix(name, "/") by {
      assert name[|name| - 1] != '/';
    }
    JoinPathUnslashed(u, [dir + "/", name], CleanBase(u.path) + (dir + "/" + name));
  }

  /** Behind an empty base, dropping the first character drops it from the path. */
  lemma DropFirstBehindEmpty(b: string, p: string)
    requires b == "" && |p| >= 1
    ensures (b + p)[1..] == p[1..]
  {
    assert b + p == p;
  }

  // ---------------------------------------------------------------------
  // Escaped paths

  /** What `setPath` succeeds on is set re-encoded, and nothing else of the URL changes. */
  lemma SetPathEncodes(u: Url, p: string)
    ensures SetPath(u, p).Some? <==> UrlEscape.ValidEscapes(p)
    ensures SetPath(u, p).Some? ==>
      var v := SetPath(u, p).value;
      && v == u.(path := v.path)
      && UrlEscape.ValidEscapes(v.path) && UrlEscape.ValidEncoded(v.path)
      && UrlEscape.Unescape(v.path) == UrlEscape.Unescape(p)
  {
    UrlEscape.EscapedPathOfDecodes(p);
  }

  /** A parsed URL holds its path as a valid encoding. */
  lemma ParsedPathEncoded(raw: string)
    requires Parse(raw).Some?
    ensures UrlEscape.ValidEscapes(Parse(raw).value.path) && UrlEscape.ValidEncoded(Parse(raw).value.path)
  {
    var u := Parse(raw).value;
    if u.path != "" {
      match GetScheme(raw)
      case Split(sch, rest) =>
        var scheme := ToLower(sch);
        var rooted := HasPrefix(rest, "/");
        if (scheme != "" || !HasPrefix(rest, "///")) && HasPrefix(rest, "//") {
          var authority := rest[2..];
          var i := GoStrings.IndexOf(authority, '/');
          SetPathEncodes(Url(scheme, "", authority[..i], "", false), authority[i..]);
        } else {
          SetPathEncodes(Url(scheme, "", "", "", scheme != "" && rooted), rest);
        }
    }
  }

  /**
   * `JoinPath` changes the path and nothing else, and a path held as a valid
   * encoding stays one.
   */
  lemma JoinPathKeepsEncoding(u: Url, elems: seq<string>)
    ensures JoinPath(u, elems) == u.(path := JoinPath(u, elems).path)
    ensures UrlEscape.ValidEscapes(u.path) && UrlEscape.ValidEncoded(u.path) ==>
      UrlEscape.ValidEscapes(JoinPath(u, elems).path) && UrlEscape.ValidEncoded(JoinPath(u, elems).path)
  {
    SetPathEncodes(u, JoinedPath(u, elems));
  }

  /** The part before a separator that is neither '%' nor a hexadecimal digit keeps valid escapes. */
  lemma ValidEscapesBefore(s: string, i: nat)
    requires UrlEscape.ValidEscapes(s) && i <= |s|
    requires i < |s| ==> s[i] != '%' && !UrlEscape.IsHex(s[i])
    ensures UrlEscape.ValidEscapes(s[..i])
  {
    var t := s[..i];
    forall j | 0 <= j < |t| && t[j] == '%' ensures j + 2 < |t| && UrlEscape.IsHex(t[j + 1]) && UrlEscape.IsHex(t[j + 2]) {
      assert s[j] == '%';
    }
  }

  /** Every piece of a string with valid escapes, split at such a separator, has valid escapes. */
  lemma {:induction false} SplitEscapes(s: string, sep: char)
    requires UrlEscape.ValidEscapes(s) && sep != '%' && !UrlEscape.IsHex(sep)
    ensures forall k :: 0 <= k < |GoStrings.Split(s, sep)| ==> UrlEscape.ValidEscapes(GoStrings.Split(s, sep)[k])
    decreases |s|
  {
    var i := GoStrings.IndexOf(s, sep);
    if i < |s| {
      ValidEscapesBefore(s, i);
      assert s == s[..i + 1] + s[i + 1..];
      UrlEscape.ValidEscapesOfSuffix(s[..i + 1], s[i + 1..]);
      SplitEscapes(s[i + 1..], sep);
    }
  }

  predicate AllEscaped(names: seq<string>)
  {
    forall k :: 0 <= k < |names| ==> UrlEscape.ValidEscapes(names[k])
  }

  /** Cleaning keeps or drops segments whole, so it keeps them escaped. */
  lemma {:induction false} CleanFromEscapes(kept: seq<string>, segs: seq<string>)
    requires AllEscaped(kept) && AllEscaped(segs)
    ensures AllEscaped(CleanFrom(kept, segs))
    decreases |segs|
  {
    if segs != [] {
      CleanFromEscapes(CleanStep(kept, segs[0]), segs[1..]);
    }
  }

  lemma {:induction false} SlashedEscapes(names: seq<string>)
    requires AllEscaped(names)
    ensures UrlEscape.ValidEscapes(Slashed(names))
    decreases |names|
  {
    if names != [] {
      SlashedEscapes(names[..|names| - 1]);
      UrlEscape.ValidEscapesConcat(Slashed(names[..|names| - 1]), "/");
      UrlEscape.ValidEscapesConcat(Slashed(names[..|names| - 1]) + "/", names[|names| - 1]);
    }
  }

  /** `path.Clean` of a rooted path with valid escapes has valid escapes. */
  lemma CleanRootedEscapes(p: string)
    requires UrlEscape.ValidEscapes(p)
    ensures UrlEscape.ValidEscapes(CleanRooted(p))
  {
    SplitEscapes(p, '/');
    CleanFromEscapes([], GoStrings.Split(p, '/'));
    SlashedEscapes(CleanFrom([], GoStrings.Split(p, '/')));
  }

  lemma {:induction false} JoinElemsEscapes(base: string, elems: seq<string>)
    requires HasPrefix(base, "/") && UrlEscape.ValidEscapes(base) && AllEscaped(elems)
    ensures UrlEscape.ValidEscapes(JoinElems(base, elems))
    decreases |elems|
  {
    if elems != [] {
      var next := base + "/" + elems[0];
      UrlEscape.ValidEscapesConcat(base, "/");
      UrlEscape.ValidEscapesConcat(base + "/", elems[0]);
      assert next[..1] == base[..1];
      JoinElemsEscapes(next, elems[1..]);
    }
  }

  /** Joining elements with valid escapes onto a path with valid escapes gives valid escapes, so `setPath` succeeds. */
  lemma JoinedPathEscapes(u: Url, elems: seq<string>)
    requires UrlEscape.ValidEscapes(u.path) && AllEscaped(elems)
    ensures UrlEscape.ValidEscapes(JoinedPath(u, elems))
    ensures JoinPath(u, elems) == u.(path := UrlEscape.EscapedPathOf(JoinedPath(u, elems)).value)
  {
    var first := Rooted(u.path);
    if !HasPrefix(u.path, "/") {
      UrlEscape.ValidEscapesConcat("/", u.path);
    }
    JoinElemsEscapes(first, elems);
    var joined := CleanRooted(JoinElems(first, elems));
    CleanRootedEscapes(JoinElems(first, elems));
    assert joined == joined[..1] + joined[1..];
    UrlEscape.ValidEscapesOfSuffix(joined[..1], joined[1..]);
    var p := if HasPrefix(u.path, "/") then joined else joined[1..];
    UrlEscape.ValidEscapesConcat(p, "/");
    SetPathEncodes(u, JoinedPath(u, elems));
  }

  /** The cleaned path of a URL path with valid escapes has valid escapes, and is empty or rooted. */
  lemma CleanBaseEscapes(path: string)
    requires UrlEscape.ValidEscapes(path)
    ensures UrlEscape.ValidEscapes(CleanBase(path))
    ensures CleanBase(path) == "" || CleanBase(path)[0] == '/'
  {
    if !HasPrefix(path, "/") {
      UrlEscape.ValidEscapesConcat("/", path);
    }
    SplitEscapes(Rooted(path), '/');
    CleanFromEscapes([], GoStrings.Split(Rooted(path), '/'));
    SlashedEscapes(CleanFrom([], GoStrings.Split(Rooted(path), '/')));
  }

  /** A string ending in a part and a rest ends in the part less its first character and the rest. */
  lemma SuffixOfShorter(e: string, a: string, b: string)
    requires |a| >= 1 && HasSuffix(e, a + b)
    ensures HasSuffix(e, a[1..] + b)
  {
    assert a + b == a[..1] + (a[1..] + b);
    assert e[|e| - |a[1..] + b|..] == (a + b)[1..];
  }

  /** The re-encoded join of a first part, a plain part and a rest ends in the plain part and the rest, as written or escaped anew. */
  lemma EscapedJoinTail(y: string, t: string, r: string)
    requires UrlEscape.ValidEscapes(y) && UrlEscape.IsPlain(t, UrlEscape.EncodePath) && t != "" && UrlEscape.ValidEscapes(r)
    ensures UrlEscape.EscapedPathOf(y + t + r).Some?
    ensures var e := UrlEscape.EscapedPathOf(y + t + r).value;
      HasSuffix(e, t + r) || HasSuffix(e, t + UrlEscape.Reescaped(r))
  {
    UrlEscape.ReencodedOfJoined(y, t, r);
    var e := UrlEscape.Reencoded(y + t + r);
    if e == y + t + r {
      assert e == y + (t + r);
    } else {
      assert e == UrlEscape.Reescaped(y) + (t + UrlEscape.Reescaped(r));
    }
  }

  /**
   * A cleaned path, a plain rooted part and a rest with valid escapes, made
   * relative or not: `setPath` succeeds, and the result ends in the plain
   * part (less its slash) and the rest, as written or escaped anew.
   */
  lemma EscapedJoin(cb: string, t: string, r: string, rooted: bool)
    requires UrlEscape.ValidEscapes(cb) && (cb == "" || cb[0] == '/')
    requires UrlEscape.IsPlain(t, UrlEscape.EncodePath) && |t| >= 2 && t[0] == '/'
    requires UrlEscape.ValidEscapes(r)
    ensures |cb + t + r| >= 1
    ensures var c := cb + t + r;
      var x := if rooted then c else c[1..];
      && UrlEscape.EscapedPathOf(x).Some?
      && (|| HasSuffix(UrlEscape.EscapedPathOf(x).value, t[1..] + r)
          || HasSuffix(UrlEscape.EscapedPathOf(x).value, t[1..] + UrlEscape.Reescaped(r)))
  {
    var c := cb + t + r;
    if rooted {
      EscapedJoinTail(cb, t, r);
      var e := UrlEscape.EscapedPathOf(c).value;
      if HasSuffix(e, t + r) {
        SuffixOfShorter(e, t, r);
      } else {
        SuffixOfShorter(e, t, UrlEscape.Reescaped(r));
      }
    } else if cb == "" {
      assert c[1..] == "" + t[1..] + r;
      EscapedJoinTail("", t[1..], r);
    } else {
      assert cb == cb[..1] + cb[1..];
      UrlEscape.ValidEscapesOfSuffix(cb[..1], cb[1..]);
      assert c[1..] == cb[1..] + t + r;
      EscapedJoinTail(cb[1..], t, r);
      var e := UrlEscape.EscapedPathOf(c[1..]).value;
      if HasSuffix(e, t + r) {
        SuffixOfShorter(e, t, r);
      } else {
        SuffixOfShorter(e, t, UrlEscape.Reescaped(r));
      }
    }
  }

  /** A host Go accepts, written in ASCII, is plain for the host encoding. */
  lemma ASCIIHostPlain(h: string)
    requires ValidHost(h) && forall i :: 0 <= i < |h| ==> h[i] as int < 0x80
    ensures UrlEscape.IsPlain(h, UrlEscape.EncodeHost)
  {
    forall i | 0 <= i < |h| ensures !UrlEscape.ShouldEscape(h[i], UrlEscape.EncodeHost) {
      assert IsHostChar(h[i]);
    }
  }
}
