/**
 * Meta's discovery (scraper/companies/meta.py): which links are job detail
 * pages, the links one look at the jobs page yields (with trailing slashes
 * removed), and the scroll-until-plateau loop of `discover`.
 *
 * The browser is replaced by parameters: what the jobs page shows on each
 * pass of the loop is a function from the pass number to the `href`
 * attributes of the anchors the page's selector returned.
 */
module Meta {
  import opened Wrappers
  import opened Text
  import opened Urls
  import opened Sorting
  import opened Plateau

  const Base: string := "https://www.metacareers.com"
  const Host: string := "www.metacareers.com"
  const Jobs: string := "/jobs/"
  /** `LIST_URL`, the page the loop scrolls. */
  const ListUrl: string := Base + "/jobs"

  /**
   * `_DETAIL_RE.match(path)` for `^/jobs/\d+/?$` with `re.I`: the prefix in
   * any case, then, without the optional final '/', one or more digits.
   */
  predicate MatchesDetail(p: string) {
    && |Jobs| <= |p|
    && Lower(p[..|Jobs|]) == Jobs
    && IsDigits(DropTrailingSlash(p[|Jobs|..]))
  }

  /** The pattern's pieces, with the digits ending at `i`. */
  predicate ShapeAt(p: string, i: nat)
    requires |Jobs| < i <= |p|
  {
    && Lower(p[..|Jobs|]) == Jobs
    && IsDigits(p[|Jobs|..i])
    && (p[i..] == [] || p[i..] == "/")
  }

  /** The language of the pattern: the prefix, one or more digits, an optional '/'. */
  predicate DetailShape(p: string) {
    exists i: nat :: |Jobs| < i <= |p| && ShapeAt(p, i)
  }

  /** What the matcher accepts is in the pattern's language. */
  lemma MatchIsShape(p: string)
    requires MatchesDetail(p)
    ensures DetailShape(p)
  {
    var body := DropTrailingSlash(p[|Jobs|..]);
    var i := |Jobs| + |body|;
    assert p[|Jobs|..i] == body;
    assert ShapeAt(p, i);
  }

  /** The pattern's language is accepted by the matcher. */
  lemma ShapeIsMatch(p: string, i: nat)
    requires |Jobs| < i <= |p| && ShapeAt(p, i)
    ensures MatchesDetail(p)
  {
    var digits := p[|Jobs|..i];
    assert p[|Jobs|..] == digits + p[i..];
    if i < |p| {
      assert p[|Jobs|..] == digits + "/";
      assert DropTrailingSlash(p[|Jobs|..]) == digits;
    } else {
      assert p[|Jobs|..] == digits;
      assert IsDigit(digits[|digits| - 1]);
    }
  }

  /** The matcher accepts exactly the paths of the pattern's language. */
  lemma MatchesDetailShape(p: string)
    ensures MatchesDetail(p) <==> DetailShape(p)
  {
    if MatchesDetail(p) {
      MatchIsShape(p);
    }
    if DetailShape(p) {
      var i: nat :| |Jobs| < i <= |p| && ShapeAt(p, i);
      ShapeIsMatch(p, i);
    }
  }

  /**
   * `_is_detail`: `False` where `urlparse` raises or the host is present and
   * not `www.metacareers.com`; otherwise whether the path matches.
   */
  predicate IsDetail(href: string) {
    match UrlParse(href)
    case None => false
    case Some(u) => (u.netloc == [] || u.netloc == Host) && MatchesDetail(u.path)
  }

  /** `href if href.startswith("http") else urljoin(BASE_URL, href)`. */
  function Resolve(href: string): string {
    if StartsWith(href, "http") then href else Join(Base, href)
  }

  /**
   * What one anchor contributes: its stripped `href` (missing reads as ""),
   * resolved, if that is a detail URL, with every trailing '/' removed.
   */
  function LinkOf(attr: Option<string>): Option<string> {
    var href := Strip(attr.GetOr(""));
    if href == [] then None
    else if IsDetail(Resolve(href)) then Some(TrimEndChar(Resolve(href), '/'))
    else None
  }

  /** What each anchor contributes, in order. */
  function LinksOf(attrs: seq<Option<string>>): (os: seq<Option<string>>)
    ensures |os| == |attrs| && forall i :: 0 <= i < |attrs| ==> os[i] == LinkOf(attrs[i])
  {
    seq(|attrs|, i requires 0 <= i < |attrs| => LinkOf(attrs[i]))
  }

  /** The set `_collect_job_links` returns for the anchors `attrs`. */
  function Links(attrs: seq<Option<string>>): set<string> {
    Present(LinksOf(attrs))
  }

  /** A URL is collected exactly when some anchor yields it. */
  lemma LinksContents(attrs: seq<Option<string>>, y: string)
    ensures y in Links(attrs) <==> exists i :: 0 <= i < |attrs| && LinkOf(attrs[i]) == Some(y)
  {
    PresentContents(LinksOf(attrs), y);
  }

  /** The anchor's stripped `href` is non-blank and resolves to a detail URL that, trimmed, is `y`. */
  predicate HrefYields(attr: Option<string>, y: string) {
    var href := Strip(attr.GetOr(""));
    href != [] && IsDetail(Resolve(href)) && y == TrimEndChar(Resolve(href), '/')
  }

  /**
   * Every collected URL comes from a non-blank `href` whose resolution is a
   * detail URL, is that resolution without its trailing slashes, and so does
   * not end with '/'.
   */
  lemma LinksAreDetail(attrs: seq<Option<string>>, y: string)
    requires y in Links(attrs)
    ensures y == [] || y[|y| - 1] != '/'
    ensures exists i :: 0 <= i < |attrs| && HrefYields(attrs[i], y)
  {
    LinksContents(attrs, y);
    var i :| 0 <= i < |attrs| && LinkOf(attrs[i]) == Some(y);
    LinkYields(attrs[i], y);
  }

  lemma LinkYields(attr: Option<string>, y: string)
    requires LinkOf(attr) == Some(y)
    ensures HrefYields(attr, y)
  {
  }

  /** The body of `_collect_job_links`'s loop for one anchor: the URL it adds, if any. */
  method AnchorLink(attr: Option<string>) returns (link: Option<string>)
    ensures link == LinkOf(attr)
  {
    var href := Strip(attr.GetOr(""));
    if href == [] {
      return None;
    }
    var absUrl := if StartsWith(href, "http") then href else Join(Base, href);
    LinkFromParts(attr, href, absUrl);
    if IsDetail(absUrl) {
      return Some(TrimEndChar(absUrl, '/'));
    }
    return None;
  }

  /** `_collect_job_links(page)`. */
  method CollectJobLinks(attrs: seq<Option<string>>) returns (urls: set<string>)
    ensures urls == Links(attrs)
  {
    ghost var os := LinksOf(attrs);
    urls := {};
    for i := 0 to |attrs|
      invariant urls == Present(os[..i])
    {
      var link := AnchorLink(attrs[i]);
      assert os[i] == link;
      PresentSnoc(os, i);
      if link.Some? {
        urls := urls + {link.value};
      }
    }
    assert os[..|attrs|] == os;
  }

  /** What the loop collects on each pass. */
  function SnapsOf(passes: nat -> seq<Option<string>>): nat -> set<string> {
    (k: nat) => Links(passes(k))
  }

  /** `max_scrolls`: `max_pages` when it is positive, else 30. */
  function MaxScrolls(maxPages: int): int {
    if maxPages > 0 then maxPages else 30
  }

  /**
   * The URLs `discover` gathers with Playwright installed: none where
   * loading the jobs page raised, else what the plateau loop collects.
   */
  function DiscoverSpec(maxPages: int, main: Visit): set<string> {
    if main.Raises? then {} else Plateaued(MaxScrolls(maxPages), SnapsOf(main.passes))
  }

  /** The loop of `discover` over `range(max_scrolls)`, where pass `k` sees the anchors `passes(k)`. */
  method ScrollJobs(maxScrolls: int, passes: nat -> seq<Option<string>>) returns (urls: set<string>)
    requires maxScrolls >= 0
    ensures urls == Plateaued(maxScrolls, SnapsOf(passes))
  {
    ghost var snaps := SnapsOf(passes);
    urls := {};
    var lastCount := -1;
    for scrolls := 0 to maxScrolls
      invariant urls == Gathered(snaps, scrolls)
      invariant lastCount == LastCount(snaps, scrolls)
      invariant PassesFrom(maxScrolls, snaps, scrolls) == Passes(maxScrolls, snaps)
    {
      var found := CollectJobLinks(passes(scrolls));
      assert found == snaps(scrolls);
      urls := urls + found;
      assert urls == Gathered(snaps, scrolls + 1);
      if |urls| == lastCount {
        assert PassesFrom(maxScrolls, snaps, scrolls) == scrolls + 1;
        return;
      }
      lastCount := |urls|;
    }
  }

  /** `discover`: `[]` without Playwright; otherwise the gathered URLs, sorted. */
  method Discover(installed: bool, maxPages: int, main: Visit) returns (r: seq<string>)
    ensures !installed ==> r == []
    ensures installed ==> StrictlySorted(r) && forall y :: y in r <==> y in DiscoverSpec(maxPages, main)
  {
    if !installed {
      return [];
    }
    var maxScrolls := if maxPages > 0 then maxPages else 30;
    var urls: set<string> := {};
    if main.Shows? {
      urls := ScrollJobs(maxScrolls, main.passes);
    }
    r := SortedList(urls);
  }

  /** With Playwright installed, the loop makes between one and `max_scrolls` passes over a page that loaded. */
  lemma DiscoverPasses(maxPages: int, passes: nat -> seq<Option<string>>)
    ensures 1 <= Passes(MaxScrolls(maxPages), SnapsOf(passes)) <= MaxScrolls(maxPages)
  {
    PassesRule(MaxScrolls(maxPages), SnapsOf(passes));
  }

  /** A URL is discovered exactly when one of the loop's passes collected it. */
  lemma DiscoverSpecContents(maxPages: int, main: Visit, y: string)
    ensures y in DiscoverSpec(maxPages, main) <==>
      main.Shows? && exists k :: 0 <= k < Passes(MaxScrolls(maxPages), SnapsOf(main.passes)) && y in SnapsOf(main.passes)(k)
  {
    if main.Shows? {
      PlateauedContents(MaxScrolls(maxPages), SnapsOf(main.passes), y);
    }
  }

  /** Every discovered URL was collected from a detail link and has no trailing '/'. */
  lemma DiscoveredAreDetail(maxPages: int, main: Visit, y: string)
    requires y in DiscoverSpec(maxPages, main)
    ensures y == [] || y[|y| - 1] != '/'
    ensures exists href :: IsDetail(href) && y == TrimEndChar(href, '/')
  {
    DiscoverSpecContents(maxPages, main, y);
    var k :| 0 <= k < Passes(MaxScrolls(maxPages), SnapsOf(main.passes)) && y in SnapsOf(main.passes)(k);
    LinksAreDetail(main.passes(k), y);
  }

  // Concrete URLs of the site's own shape.

  lemma HostFacts(h: string)
    requires h == Host
    ensures forall i :: 0 <= i < |h| ==> IsHostChar(h[i])
  {
    forall i | 0 <= i < |h| ensures IsHostChar(h[i]) { }
  }

  lemma JobsFacts(j: string)
    requires j == Jobs
    ensures Lower(j) == j
    ensures forall i :: 0 <= i < |j| ==> IsLower(j[i]) || j[i] == '/'
  {
    forall i | 0 <= i < |j| ensures IsLower(j[i]) || j[i] == '/' { }
  }

  /** `urlparse` of the base followed by a path without '?', '#', ';' or unsafe characters. */
  lemma ParsedOnHost(path: string)
    requires path == [] || path[0] == '/'
    requires forall i :: 0 <= i < |path| ==> path[i] != '?' && path[i] != '#' && path[i] != ';' && !IsUnsafe(path[i])
    ensures UrlParse(Base + path) == Some(Parsed("https", Host, path, [], [], []))
  {
    HostFacts(Host);
    HttpsIsScheme("https");
    ParsesAs("https", Host, path, []);
    DropEmpty("https" + "://" + Host + path);
    BaseParts();
  }

  lemma BaseParts()
    ensures Base == "https" + "://" + Host
  {
  }

  /** The characters of a canonical detail path: lower-case letters, digits and '/'. */
  lemma DetailPathChars(d: string, t: string)
    requires IsDigits(d) && (t == [] || t == "/")
    ensures var p := Jobs + d + t;
      && |p| >= 2 && p[0] == '/' && p[1] == 'j' && (IsDigit(p[|p| - 1]) || p[|p| - 1] == '/')
      && forall i :: 0 <= i < |p| ==> IsLower(p[i]) || IsDigit(p[i]) || p[i] == '/'
  {
    var p := Jobs + d + t;
    JobsFacts(Jobs);
    forall i | 0 <= i < |p| ensures IsLower(p[i]) || IsDigit(p[i]) || p[i] == '/' {
      if i < |Jobs| {
        assert p[i] == Jobs[i];
      } else if i < |Jobs| + |d| {
        assert p[i] == d[i - |Jobs|];
      } else {
        assert p[i] == t[i - |Jobs| - |d|];
      }
    }
  }

  /** A canonical detail path matches. */
  lemma PathMatches(d: string, t: string)
    requires IsDigits(d) && (t == [] || t == "/")
    ensures MatchesDetail(Jobs + d + t)
  {
    var p := Jobs + d + t;
    JobsFacts(Jobs);
    assert p[..|Jobs|] == Jobs;
    assert p[|Jobs|..|Jobs| + |d|] == d;
    assert p[|Jobs| + |d|..] == t;
    ShapeIsMatch(p, |Jobs| + |d|);
  }

  lemma DetailFromParts(u: string, p: Parsed)
    requires UrlParse(u) == Some(p) && p.netloc == Host && MatchesDetail(p.path)
    ensures IsDetail(u)
  {
  }

  /** `https://www.metacareers.com/jobs/<digits>`, with or without a final '/', is a detail URL. */
  lemma CanonicalDetail(d: string, t: string)
    requires IsDigits(d) && (t == [] || t == "/")
    ensures IsDetail(Base + Jobs + d + t)
  {
    var path := Jobs + d + t;
    DetailPathChars(d, t);
    ParsedOnHost(path);
    Associate3(Base, Jobs, d, t);
    PathMatches(d, t);
    DetailFromParts(Base + Jobs + d + t, Parsed("https", Host, path, [], [], []));
  }

  lemma Associate3(a: string, b: string, c: string, d: string)
    ensures a + (b + c + d) == a + b + c + d
  {
  }

  /** Removing the trailing slashes of a URL that ends in at most one. */
  lemma TrimsOneSlash(s: string, t: string)
    requires s != [] && s[|s| - 1] != '/' && (t == [] || t == "/")
    ensures TrimEndChar(s + t, '/') == s
  {
    if t == "/" {
      assert (s + t)[..|s|] == s;
    } else {
      assert s + t == s;
    }
  }

  lemma LinkFromParts(attr: Option<string>, href: string, u: string)
    requires Strip(attr.GetOr("")) == href && href != [] && Resolve(href) == u
    ensures LinkOf(attr) == if IsDetail(u) then Some(TrimEndChar(u, '/')) else None
  {
  }

  lemma CollectedFromParts(href: string, u: string, y: string)
    requires Strip(href) == href && href != [] && Resolve(href) == u && IsDetail(u) && TrimEndChar(u, '/') == y
    ensures LinkOf(Some(href)) == Some(y)
  {
    LinkFromParts(Some(href), href, u);
  }

  /** A relative canonical `href` is stripped and joined onto the base. */
  lemma RelativeHrefResolves(d: string, t: string)
    requires IsDigits(d) && (t == [] || t == "/")
    ensures var href := Jobs + d + t;
      Strip(href) == href && href != [] && Resolve(href) == Base + Jobs + d + t
  {
    var href := Jobs + d + t;
    DetailPathChars(d, t);
    StrippedIsFixed(href);
    assert !StartsWith(href, "http") by {
      assert href[..4][0] == '/';
    }
    JoinAbsolutePath(Base, href);
    Associate3(Base, Jobs, d, t);
  }

  /** An absolute canonical `href` is kept as it is. */
  lemma AbsoluteHrefResolves(d: string, t: string)
    requires IsDigits(d) && (t == [] || t == "/")
    ensures var href := Base + Jobs + d + t;
      Strip(href) == href && href != [] && Resolve(href) == href
  {
    var href := Base + Jobs + d + t;
    DetailPathChars(d, t);
    Associate3(Base, Jobs, d, t);
    assert href == Base + (Jobs + d + t);
    assert href[0] == 'h' && (IsDigit(href[|href| - 1]) || href[|href| - 1] == '/');
    StrippedIsFixed(href);
    assert href[..4] == "http";
  }

  /** The canonical URL without its trailing slash. */
  lemma CanonicalTrimmed(d: string, t: string)
    requires IsDigits(d) && (t == [] || t == "/")
    ensures TrimEndChar(Base + Jobs + d + t, '/') == Base + Jobs + d
  {
    assert IsDigit(d[|d| - 1]);
    assert (Base + Jobs + d)[|Base + Jobs + d| - 1] == d[|d| - 1];
    TrimsOneSlash(Base + Jobs + d, t);
  }

  /**
   * A canonical detail link, relative or absolute, with or without its final
   * '/', is collected as `https://www.metacareers.com/jobs/<digits>`, which
   * is itself a detail URL that is collected unchanged.
   */
  lemma CanonicalCollected(d: string, t: string)
    requires IsDigits(d) && (t == [] || t == "/")
    ensures LinkOf(Some(Jobs + d + t)) == Some(Base + Jobs + d)
    ensures LinkOf(Some(Base + Jobs + d + t)) == Some(Base + Jobs + d)
    ensures IsDetail(Base + Jobs + d)
    ensures LinkOf(Some(Base + Jobs + d)) == Some(Base + Jobs + d)
  {
    CanonicalDetail(d, t);
    CanonicalTrimmed(d, t);
    RelativeHrefResolves(d, t);
    CollectedFromParts(Jobs + d + t, Base + Jobs + d + t, Base + Jobs + d);
    AbsoluteHrefResolves(d, t);
    CollectedFromParts(Base + Jobs + d + t, Base + Jobs + d + t, Base + Jobs + d);
    CanonicalFixed(d);
  }

  /** The collected form of a canonical link is collected unchanged. */
  lemma CanonicalFixed(d: string)
    requires IsDigits(d)
    ensures IsDetail(Base + Jobs + d)
    ensures LinkOf(Some(Base + Jobs + d)) == Some(Base + Jobs + d)
  {
    CanonicalDetail(d, []);
    CanonicalTrimmed(d, []);
    AbsoluteHrefResolves(d, []);
    DropEmpty(Base + Jobs + d);
    CollectedFromParts(Base + Jobs + d, Base + Jobs + d, Base + Jobs + d);
  }

  lemma NotDetailFromParts(u: string, p: Parsed)
    requires UrlParse(u) == Some(p) && !MatchesDetail(p.path)
    ensures !IsDetail(u)
  {
  }

  /** The jobs listing itself, `LIST_URL`, is not a detail URL, nor is `/jobs/` without an id. */
  lemma ListingRejected()
    ensures !IsDetail(ListUrl)
    ensures !IsDetail(Base + Jobs)
  {
    ListingPath("/jobs");
    ParsedOnHost("/jobs");
    NotDetailFromParts(ListUrl, Parsed("https", Host, "/jobs", [], [], []));
    ListingPath(Jobs);
    ParsedOnHost(Jobs);
    NotDetailFromParts(Base + Jobs, Parsed("https", Host, Jobs, [], [], []));
  }

  lemma ListingPath(p: string)
    requires p == "/jobs" || p == Jobs
    ensures p[0] == '/' && !MatchesDetail(p)
    ensures forall i :: 0 <= i < |p| ==> p[i] != '?' && p[i] != '#' && p[i] != ';' && !IsUnsafe(p[i])
  {
    forall i | 0 <= i < |p| ensures p[i] != '?' && p[i] != '#' && p[i] != ';' && !IsUnsafe(p[i]) { }
    if p == Jobs {
      assert p[|Jobs|..] == [];
    }
  }

  /** A URL on any other host is rejected, whatever its path. */
  lemma OtherHostRejected(host: string, path: string)
    requires host != [] && host != Host
    requires forall i :: 0 <= i < |host| ==> IsHostChar(host[i])
    requires path == [] || path[0] == '/'
    requires forall i :: 0 <= i < |path| ==> path[i] != '?' && path[i] != '#' && path[i] != ';' && !IsUnsafe(path[i])
    ensures !IsDetail("https://" + host + path)
  {
    HttpsIsScheme("https");
    ParsesAs("https", host, path, []);
    DropEmpty("https" + "://" + host + path);
    SchemeParts();
  }
}
