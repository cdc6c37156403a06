/**
 * The parts of `urllib.parse` the discovery rules rely on: `urlparse`, which
 * splits a URL into scheme, network location, path, parameters, query and
 * fragment, and `urljoin` against a base that is only `scheme://host`.
 */
module Urls {
  import opened Wrappers
  import opened Text

  datatype Parsed = Parsed(scheme: string, netloc: string, path: string, params: string, query: string, fragment: string)

  /** What `urlsplit` strips from the front of a URL: C0 controls and space. */
  predicate IsC0OrSpace(c: char) { c <= ' ' }

  /** Characters `urlsplit` deletes wherever they occur. */
  predicate IsUnsafe(c: char) { c == '\t' || c == '\r' || c == '\n' }

  function DropLeadingC0(s: string): (r: string)
    ensures |r| <= |s| && r == s[|s| - |r|..]
    ensures r == [] || !IsC0OrSpace(r[0])
  {
    if s != [] && IsC0OrSpace(s[0]) then DropLeadingC0(s[1..]) else s
  }

  function DropUnsafe(s: string): (r: string)
    ensures forall i :: 0 <= i < |r| ==> !IsUnsafe(r[i])
  {
    if s == [] then []
    else (if IsUnsafe(s[0]) then [] else [s[0]]) + DropUnsafe(s[1..])
  }

  predicate IsSchemeChar(c: char) {
    IsLetter(c) || IsDigit(c) || c == '+' || c == '-' || c == '.'
  }

  /** The scheme `urlsplit` recognises before the first ':' (lower-cased), and the rest. */
  function SplitScheme(u: string): (r: (string, string))
    ensures r.0 == [] ==> r.1 == u
  {
    var i := FindChar(u, ':');
    if 0 < i < |u| && IsLetter(u[0]) && (forall k :: 0 <= k < i ==> IsSchemeChar(u[k]))
    then (Lower(u[..i]), u[i + 1..])
    else ([], u)
  }

  /** First index at or after `from` holding one of '/', '?', '#', else `|s|`. */
  function NetlocEnd(s: string, from: nat): (k: nat)
    requires from <= |s|
    ensures from <= k <= |s|
    ensures forall i :: from <= i < k ==> s[i] != '/' && s[i] != '?' && s[i] != '#'
    ensures k < |s| ==> s[k] == '/' || s[k] == '?' || s[k] == '#'
    decreases |s| - from
  {
    if from == |s| || s[from] == '/' || s[from] == '?' || s[from] == '#' then from
    else NetlocEnd(s, from + 1)
  }

  /** Index of the last '/' in `s`, if there is one (`str.rfind`). */
  function LastSlash(s: string): (r: Option<nat>)
    ensures r.Some? ==> r.value < |s| && s[r.value] == '/'
    ensures r.Some? ==> forall i :: r.value < i < |s| ==> s[i] != '/'
    ensures r.None? ==> forall i :: 0 <= i < |s| ==> s[i] != '/'
  {
    if s == [] then None
    else if s[|s| - 1] == '/' then Some(|s| - 1)
    else LastSlash(s[..|s| - 1])
  }

  /** Schemes for which `urlparse` separates `;params` from the path. */
  predicate UsesParams(scheme: string) {
    scheme in {"", "ftp", "hdl", "prospero", "http", "imap", "https", "shttp", "rtsp", "rtsps",
               "rtspu", "sip", "sips", "mms", "sftp", "tel"}
  }

  /** `_splitparams`: the ';' that starts the parameters of the last path segment. */
  function SplitParams(p: string): (r: (string, string))
  {
    match LastSlash(p)
    case Some(j) =>
      var k := FindChar(p[j..], ';');
      if k < |p[j..]| then (p[..j + k], p[j + k + 1..]) else (p, [])
    case None =>
      var k := FindChar(p, ';');
      if k < |p| then (p[..k], p[k + 1..]) else (p, [])
  }

  /** `urlparse(url)`; `None` where it raises (an unbalanced '[' or ']' in the network location). */
  function UrlParse(url: string): (r: Option<Parsed>)
  {
    var (scheme, rest) := SplitScheme(DropUnsafe(DropLeadingC0(url)));
    ParseRest(scheme, rest)
  }

  /** The network location after a leading "//", then the rest of the URL. */
  function ParseRest(scheme: string, rest: string): Option<Parsed> {
    var hasNetloc := StartsWith(rest, "//");
    var e := if hasNetloc then NetlocEnd(rest, 2) else 0;
    var netloc := if hasNetloc then rest[2..e] else [];
    if HasChar(netloc, '[') != HasChar(netloc, ']') then None
    else Some(ParsePath(scheme, netloc, rest[e..]))
  }

  /** The fragment after the first '#', the query after the first '?' before it, and the path with its parameters. */
  function ParsePath(scheme: string, netloc: string, afterNetloc: string): Parsed {
    var h := FindChar(afterNetloc, '#');
    var fragment := if h < |afterNetloc| then afterNetloc[h + 1..] else [];
    var beforeHash := afterNetloc[..h];
    var q := FindChar(beforeHash, '?');
    var query := if q < |beforeHash| then beforeHash[q + 1..] else [];
    var pathAndParams := beforeHash[..q];
    var (path, params) :=
      if UsesParams(scheme) && HasChar(pathAndParams, ';') then SplitParams(pathAndParams)
      else (pathAndParams, []);
    Parsed(scheme, netloc, path, params, query, fragment)
  }

  /**
   * `urljoin(base, ref)` for a base of the form `scheme://host` with an empty
   * path. A reference with a scheme of its own other than the base's is
   * returned as it is; one with the base's scheme is read without it. Then a
   * network-path reference takes the base's scheme, an absolute path, a
   * query or a fragment is appended to the base, and any other reference is
   * a relative path below the root. The reference's text is kept as it is:
   * `urljoin` instead rebuilds it from its parsed parts, which gives the same
   * text for the plain paths the scrapers' detail links are made of.
   */
  function Join(base: string, ref: string): string {
    var (scheme, rest) := SplitScheme(ref);
    if scheme != [] && scheme != SplitScheme(base).0 then ref
    else JoinRelative(base, if scheme != [] then rest else ref)
  }

  /**
   * A reference with a scheme other than the base's comes back unchanged;
   * without a scheme, an absolute path, a query or a fragment is appended to
   * the base, and anything else is appended after a '/'.
   */
  lemma JoinCases(base: string, ref: string)
    ensures var (scheme, rest) := SplitScheme(ref);
      scheme != [] && scheme != SplitScheme(base).0 ==> Join(base, ref) == ref
    ensures SplitScheme(ref).0 == [] && ref != [] && ref[0] in {'/', '?', '#'} && !StartsWith(ref, "//") ==>
      Join(base, ref) == base + ref
    ensures SplitScheme(ref).0 == [] && ref != [] && ref[0] !in {'/', '?', '#'} ==> Join(base, ref) == base + "/" + ref
  {
  }

  /** `urljoin` for a reference without a scheme, against a base with an empty path. */
  function JoinRelative(base: string, ref: string): string {
    if ref == [] then base
    else if StartsWith(ref, "//") then base[..FindChar(base, ':')] + ":" + ref
    else if ref[0] in {'/', '?', '#'} then base + ref
    else base + "/" + ref
  }

  /** Against a base that starts with "http", a join starts with "http" too, unless it returns the reference itself. */
  lemma JoinKeepsHttp(base: string, ref: string)
    requires StartsWith(base, "http")
    ensures StartsWith(Join(base, ref), "http") || Join(base, ref) == ref
  {
    var (scheme, rest) := SplitScheme(ref);
    if !(scheme != [] && scheme != SplitScheme(base).0) {
      var r := if scheme != [] then rest else ref;
      if r != [] && StartsWith(r, "//") {
        var k := FindChar(base, ':');
        assert base[0] == 'h' && base[1] == 't' && base[2] == 't' && base[3] == 'p';
        assert k >= 4;
        assert (base[..k] + ":" + r)[..4] == base[..4];
      } else if r != [] {
        assert JoinRelative(base, r)[..4] == base[..4];
      }
    }
  }

  lemma {:induction false} DropUnsafeKeeps(s: string)
    requires forall i :: 0 <= i < |s| ==> !IsUnsafe(s[i])
    ensures DropUnsafe(s) == s
  {
    if s != [] {
      DropUnsafeKeeps(s[1..]);
      assert s == [s[0]] + s[1..];
    }
  }

  lemma {:induction false} NetlocEndAt(s: string, from: nat, k: nat)
    requires from <= k <= |s|
    requires forall i :: from <= i < k ==> s[i] != '/' && s[i] != '?' && s[i] != '#'
    requires k == |s| || s[k] == '/' || s[k] == '?' || s[k] == '#'
    ensures NetlocEnd(s, from) == k
    decreases k - from
  {
    if from < k {
      NetlocEndAt(s, from + 1, k);
    }
  }

  /** A host name character `urlparse` keeps inside the network location. */
  predicate IsHostChar(c: char) {
    c != '/' && c != '?' && c != '#' && c != '[' && c != ']' && !IsUnsafe(c)
  }

  lemma CleanUrl(scheme: string, host: string, path: string, tail: string)
    requires |scheme| > 0 && IsLetter(scheme[0])
    requires forall i :: 0 <= i < |scheme| ==> IsSchemeChar(scheme[i])
    requires forall i :: 0 <= i < |host| ==> IsHostChar(host[i])
    requires forall i :: 0 <= i < |path| ==> !IsUnsafe(path[i])
    requires forall i :: 0 <= i < |tail| ==> !IsUnsafe(tail[i])
    ensures var u := scheme + "://" + host + path + tail; DropUnsafe(DropLeadingC0(u)) == u
  {
    var u := scheme + "://" + host + path + tail;
    assert u[0] == scheme[0];
    forall i | 0 <= i < |u| ensures !IsUnsafe(u[i]) {
      if i < |scheme| {
        assert u[i] == scheme[i];
      } else if i < |scheme| + 3 {
      } else if i < |scheme| + 3 + |host| {
        assert u[i] == host[i - |scheme| - 3];
      } else if i < |scheme| + 3 + |host| + |path| {
        assert u[i] == path[i - |scheme| - 3 - |host|];
      } else {
        assert u[i] == tail[i - |scheme| - 3 - |host| - |path|];
      }
    }
    DropUnsafeKeeps(u);
  }

  lemma SchemeSplit(scheme: string, rest: string)
    requires |scheme| > 0 && IsLetter(scheme[0]) && Lower(scheme) == scheme
    requires forall i :: 0 <= i < |scheme| ==> IsSchemeChar(scheme[i])
    ensures SplitScheme(scheme + ":" + rest) == (scheme, rest)
  {
    var u := scheme + ":" + rest;
    assert u[|scheme|] == ':';
    assert forall k :: 0 <= k < |scheme| ==> u[k] == scheme[k];
    assert FindChar(u, ':') == |scheme|;
    assert u[..|scheme|] == scheme;
    assert u[|scheme| + 1..] == rest;
  }

  lemma NetlocSplit(host: string, after: string)
    requires forall i :: 0 <= i < |host| ==> IsHostChar(host[i])
    requires after == [] || after[0] == '/' || after[0] == '?' || after[0] == '#'
    ensures var rest := "//" + host + after;
      && NetlocEnd(rest, 2) == 2 + |host| && rest[2..2 + |host|] == host && rest[2 + |host|..] == after
  {
    var rest := "//" + host + after;
    NetlocEndAt(rest, 2, 2 + |host|);
    assert rest[2..2 + |host|] == host;
    assert rest[2 + |host|..] == after;
  }

  lemma QuerySplit(path: string, tail: string)
    requires forall i :: 0 <= i < |path| ==> path[i] != '?' && path[i] != '#'
    requires tail == [] || tail[0] == '?'
    requires forall i :: 0 <= i < |tail| ==> tail[i] != '#'
    ensures var after := path + tail;
      && FindChar(after, '#') == |after| && FindChar(after, '?') == |path|
      && after[..|path|] == path && (tail != [] ==> after[|path| + 1..] == tail[1..])
  {
    var after := path + tail;
    assert forall i :: 0 <= i < |after| ==> after[i] != '#';
    assert after[..|path|] == path;
    assert tail != [] ==> after[|path|] == '?' && after[|path| + 1..] == tail[1..];
  }

  /**
   * `urlparse` of `scheme://host/path?query`, with a lower-case scheme, a
   * path without '?', '#' or ';' and a query without '#', gives back those
   * parts; `tail` is either empty or '?' followed by the query.
   */
  lemma ParsesAs(scheme: string, host: string, path: string, tail: string)
    requires |scheme| > 0 && IsLetter(scheme[0]) && Lower(scheme) == scheme
    requires forall i :: 0 <= i < |scheme| ==> IsSchemeChar(scheme[i])
    requires forall i :: 0 <= i < |host| ==> IsHostChar(host[i])
    requires path == [] || path[0] == '/'
    requires forall i :: 0 <= i < |path| ==> path[i] != '?' && path[i] != '#' && path[i] != ';' && !IsUnsafe(path[i])
    requires tail == [] || tail[0] == '?'
    requires forall i :: 0 <= i < |tail| ==> tail[i] != '#' && !IsUnsafe(tail[i])
    ensures UrlParse(scheme + "://" + host + path + tail)
         == Some(Parsed(scheme, host, path, [], if tail == [] then [] else tail[1..], []))
  {
    var u := scheme + "://" + host + path + tail;
    var rest := "//" + host + (path + tail);
    assert u == scheme + ":" + rest;
    CleanUrl(scheme, host, path, tail);
    SchemeSplit(scheme, rest);
    RestSplit(scheme, host, path, tail);
  }

  lemma RestSplit(scheme: string, host: string, path: string, tail: string)
    requires forall i :: 0 <= i < |host| ==> IsHostChar(host[i])
    requires path == [] || path[0] == '/'
    requires forall i :: 0 <= i < |path| ==> path[i] != '?' && path[i] != '#' && path[i] != ';'
    requires tail == [] || tail[0] == '?'
    requires forall i :: 0 <= i < |tail| ==> tail[i] != '#'
    ensures ParseRest(scheme, "//" + host + (path + tail))
         == Some(Parsed(scheme, host, path, [], if tail == [] then [] else tail[1..], []))
  {
    var rest := "//" + host + (path + tail);
    NetlocSplit(host, path + tail);
    assert !HasChar(host, '[') && !HasChar(host, ']');
    PathSplit(scheme, host, path, tail);
    assert StartsWith(rest, "//");
  }

  lemma PathSplit(scheme: string, host: string, path: string, tail: string)
    requires forall i :: 0 <= i < |path| ==> path[i] != '?' && path[i] != '#' && path[i] != ';'
    requires tail == [] || tail[0] == '?'
    requires forall i :: 0 <= i < |tail| ==> tail[i] != '#'
    ensures ParsePath(scheme, host, path + tail) == Parsed(scheme, host, path, [], if tail == [] then [] else tail[1..], [])
  {
    QuerySplit(path, tail);
    assert (path + tail)[..|path + tail|] == path + tail;
    assert !HasChar(path, ';');
  }

  lemma HttpsIsScheme(sc: string)
    requires sc == "https"
    ensures |sc| > 0 && IsLetter(sc[0]) && Lower(sc) == sc
    ensures forall i :: 0 <= i < |sc| ==> IsSchemeChar(sc[i])
  {
    forall i | 0 <= i < |sc| ensures IsSchemeChar(sc[i]) && LowerChar(sc[i]) == sc[i] { }
  }

  /** A reference without ':' that starts with a single '/' is appended to the base. */
  lemma JoinAbsolutePath(base: string, ref: string)
    requires |ref| >= 2 && ref[0] == '/' && ref[1] != '/'
    requires forall i :: 0 <= i < |ref| ==> ref[i] != ':'
    ensures Join(base, ref) == base + ref
  {
    assert FindChar(ref, ':') == |ref|;
    assert SplitScheme(ref) == ([], ref);
    assert !StartsWith(ref, "//");
  }

  lemma SchemeParts()
    ensures "https://" == "https" + "://"
  {
  }

  lemma DropEmpty(a: string)
    ensures a + [] == a
  {
  }
}
