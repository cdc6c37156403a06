/**
 * Google's discovery (scraper/companies/google.py): which links are job
 * detail pages, the links one look at the results page yields, the
 * scroll-until-plateau loop on one results page, and the walk over the
 * explicit result pages `?page=2..N`.
 *
 * The browser is replaced by parameters: what a results page shows on each
 * pass of the scroll loop is a function from the pass number to the `href`
 * attributes of the anchors the page's selector returned.
 */
module Google {
  import opened Wrappers
  import opened Text
  import opened Urls
  import opened Sorting
  import opened Plateau

  const Base: string := "https://careers.google.com"
  const Host: string := "careers.google.com"
  const Results: string := "/jobs/results/"

  /** `[a-z0-9-]` under `re.I`. */
  predicate IsSlugChar(c: char) { IsLetter(c) || IsDigit(c) || c == '-' }

  /** `-[a-z0-9-]+`. */
  predicate IsSlug(s: string) {
    |s| >= 2 && s[0] == '-' && forall i :: 1 <= i < |s| ==> IsSlugChar(s[i])
  }

  /** The end of the run of digits that starts at `from`. */
  function DigitsEnd(s: string, from: nat): (k: nat)
    requires from <= |s|
    ensures from <= k <= |s|
    ensures forall i :: from <= i < k ==> IsDigit(s[i])
    ensures k < |s| ==> !IsDigit(s[k])
    decreases |s| - from
  {
    if from < |s| && IsDigit(s[from]) then DigitsEnd(s, from + 1) else from
  }

  /**
   * `_DETAIL_RE.match(path)` for `^/jobs/results/\d{6,}(-[a-z0-9-]+)?/?$`
   * with `re.I`: the prefix in any case, then the whole run of digits, which
   * must be at least six long; without the optional final '/', what is left
   * must be empty or a slug.
   */
  predicate MatchesDetail(p: string) {
    && |Results| <= |p|
    && Lower(p[..|Results|]) == Results
    && var k := DigitsEnd(p, |Results|);
    && k - |Results| >= 6
    && var body := DropTrailingSlash(p[k..]);
    && (body == [] || IsSlug(body))
  }

  /** The pattern's pieces at `i` (end of the digits) and `j` (end of the slug). */
  predicate ShapeAt(p: string, i: nat, j: nat)
    requires |Results| <= i <= j <= |p|
  {
    && Lower(p[..|Results|]) == Results
    && IsDigits(p[|Results|..i]) && i - |Results| >= 6
    && (i == j || IsSlug(p[i..j]))
    && (p[j..] == [] || p[j..] == "/")
  }

  /** The language of the pattern: prefix, six or more digits, an optional slug, an optional '/'. */
  predicate DetailShape(p: string) {
    exists i: nat, j: nat :: |Results| <= i <= j <= |p| && ShapeAt(p, i, j)
  }

  /** What the matcher accepts is in the pattern's language. */
  lemma MatchIsShape(p: string)
    requires MatchesDetail(p)
    ensures DetailShape(p)
  {
    var k := DigitsEnd(p, |Results|);
    var body := DropTrailingSlash(p[k..]);
    var j := k + |body|;
    assert p[k..j] == body;
    assert p[|Results|..k] == p[|Results|..][..k - |Results|];
    assert forall t :: 0 <= t < k - |Results| ==> p[|Results|..k][t] == p[|Results| + t];
    assert ShapeAt(p, k, j);
  }

  /** The pattern's language is accepted by the matcher: the digit run cannot end early. */
  lemma ShapeIsMatch(p: string, i: nat, j: nat)
    requires |Results| <= i <= j <= |p| && ShapeAt(p, i, j)
    ensures MatchesDetail(p)
  {
    DigitRunOfShape(p, i, j);
    DigitsEndAt(p, |Results|, i);
    BodyOfShape(p, i, j);
  }

  /** The digits of the shape fill `[|Results|, i)` and the character at `i`, if any, starts a slug or is the '/'. */
  lemma DigitRunOfShape(p: string, i: nat, j: nat)
    requires |Results| <= i <= j <= |p| && ShapeAt(p, i, j)
    ensures forall t :: |Results| <= t < i ==> IsDigit(p[t])
    ensures i < |p| ==> !IsDigit(p[i])
  {
    if i < |p| {
      if i < j {
        assert p[i] == p[i..j][0];
      } else {
        assert p[i] == p[j..][0];
      }
    }
    forall t | |Results| <= t < i ensures IsDigit(p[t]) {
      assert p[t] == p[|Results|..i][t - |Results|];
    }
  }

  /** A run of digits from `from` that stops at `i` ends at `i`. */
  lemma {:induction false} DigitsEndAt(p: string, from: nat, i: nat)
    requires from <= i <= |p|
    requires forall t :: from <= t < i ==> IsDigit(p[t])
    requires i < |p| ==> !IsDigit(p[i])
    ensures DigitsEnd(p, from) == i
    decreases i - from
  {
    if from < i {
      DigitsEndAt(p, from + 1, i);
    }
  }

  /** What follows the digits, without its final '/', is the slug part. */
  lemma BodyOfShape(p: string, i: nat, j: nat)
    requires |Results| <= i <= j <= |p| && ShapeAt(p, i, j)
    ensures DropTrailingSlash(p[i..]) == p[i..j]
  {
    if j < |p| {
      assert p[i..] == p[i..j] + "/";
    } else {
      assert p[i..] == p[i..j];
      if i < j {
        assert p[i..j][|p[i..j]| - 1] != '/';
      }
    }
  }

  /** The matcher accepts exactly the paths of the pattern's language. */
  lemma MatchesDetailShape(p: string)
    ensures MatchesDetail(p) <==> DetailShape(p)
  {
    if MatchesDetail(p) {
      MatchIsShape(p);
    }
    if DetailShape(p) {
      var i: nat, j: nat :| |Results| <= i <= j <= |p| && ShapeAt(p, i, j);
      ShapeIsMatch(p, i, j);
    }
  }

  /**
   * `_is_job_detail_url`: `False` where `urlparse` raises or the host is
   * present and not `careers.google.com`; otherwise whether the path matches.
   */
  predicate IsJobDetailUrl(href: string) {
    match UrlParse(href)
    case None => false
    case Some(u) => (u.netloc == [] || u.netloc == Host) && MatchesDetail(u.path)
  }

  /** `href if href.startswith("http") else urljoin(BASE, href)`. */
  function Resolve(href: string): string {
    if StartsWith(href, "http") then href else Join(Base, href)
  }

  /** What one anchor contributes: its stripped `href` (missing reads as ""), resolved, if it is a detail URL. */
  function LinkOf(attr: Option<string>): Option<string> {
    var href := Strip(attr.GetOr(""));
    if href == [] then None
    else if IsJobDetailUrl(Resolve(href)) then Some(Resolve(href))
    else None
  }

  /** What each anchor contributes, in order. */
  function LinksOf(attrs: seq<Option<string>>): (os: seq<Option<string>>)
    ensures |os| == |attrs| && forall i :: 0 <= i < |attrs| ==> os[i] == LinkOf(attrs[i])
  {
    seq(|attrs|, i requires 0 <= i < |attrs| => LinkOf(attrs[i]))
  }

  /** The set `_collect_job_links` returns for the anchors `attrs`. */
  function Links(attrs: seq<Option<string>>): set<string> {
    Present(LinksOf(attrs))
  }

  /** A URL is collected exactly when some anchor yields it. */
  lemma LinksContents(attrs: seq<Option<string>>, y: string)
    ensures y in Links(attrs) <==> exists i :: 0 <= i < |attrs| && LinkOf(attrs[i]) == Some(y)
  {
    PresentContents(LinksOf(attrs), y);
  }

  /** Every collected URL is a detail URL, reached from a non-blank `href` by the resolution rule. */
  lemma LinksAreDetail(attrs: seq<Option<string>>, y: string)
    requires y in Links(attrs)
    ensures IsJobDetailUrl(y)
    ensures exists i :: 0 <= i < |attrs| && Strip(attrs[i].GetOr("")) != [] && y == Resolve(Strip(attrs[i].GetOr("")))
  {
    LinksContents(attrs, y);
  }

  /** The body of `_collect_job_links`'s loop for one anchor: the URL it adds, if any. */
  method AnchorLink(attr: Option<string>) returns (link: Option<string>)
    ensures link == LinkOf(attr)
  {
    var href := Strip(attr.GetOr(""));
    if href == [] {
      return None;
    }
    var absUrl := if StartsWith(href, "http") then href else Join(Base, href);
    LinkFromParts(attr, href, absUrl);
    if IsJobDetailUrl(absUrl) {
      return Some(absUrl);
    }
    return None;
  }

  /** `_collect_job_links(page)`. */
  method CollectJobLinks(attrs: seq<Option<string>>) returns (urls: set<string>)
    ensures urls == Links(attrs)
  {
    ghost var os := LinksOf(attrs);
    urls := {};
    for i := 0 to |attrs|
      invariant urls == Present(os[..i])
    {
      var link := AnchorLink(attrs[i]);
      assert os[i] == link;
      PresentSnoc(os, i);
      if link.Some? {
        urls := urls + {link.value};
      }
    }
    assert os[..|attrs|] == os;
  }

  /** What the scroll loop collects on each pass. */
  function SnapsOf(passes: nat -> seq<Option<string>>): nat -> set<string> {
    (k: nat) => Links(passes(k))
  }

  /** `_exhaust_results_on_page(page, settings, max_scrolls)`, where pass `k` sees the anchors `passes(k)`. */
  method ExhaustResults(maxScrolls: int, passes: nat -> seq<Option<string>>) returns (urls: set<string>)
    ensures urls == Plateaued(maxScrolls, SnapsOf(passes))
  {
    var snaps := SnapsOf(passes);
    urls := {};
    var lastCount := -1;
    var scrolls: nat := 0;
    while scrolls < maxScrolls
      invariant urls == Gathered(snaps, scrolls)
      invariant lastCount == LastCount(snaps, scrolls)
      invariant PassesFrom(maxScrolls, snaps, scrolls) == Passes(maxScrolls, snaps)
      decreases maxScrolls - scrolls
    {
      var found := CollectJobLinks(passes(scrolls));
      assert found == snaps(scrolls);
      urls := urls + found;
      assert urls == Gathered(snaps, scrolls + 1);
      if |urls| == lastCount {
        assert PassesFrom(maxScrolls, snaps, scrolls) == scrolls + 1;
        return;
      }
      lastCount := |urls|;
      scrolls := scrolls + 1;
    }
  }

  /** What `_exhaust_results_on_page(page, settings, max_scrolls=10)` returns for an explicit page. */
  function Found(v: Visit): set<string> {
    if v.Shows? then Plateaued(10, SnapsOf(v.passes)) else {}
  }

  /** The URLs gathered and the explicit pages navigated to, in order. */
  datatype Scan = Scan(urls: set<string>, pages: seq<nat>)

  /**
   * The loop over `range(2, max_pages + 1)` from page `i` on, with `urls`
   * gathered so far, where `shown(i)` is what the scroll loop found on
   * page `i` (`None` where navigating there raised): a page that raises,
   * shows nothing, or adds nothing to `urls` is the last one visited.
   */
  function ScanFrom(maxPages: int, shown: nat -> Option<set<string>>, i: nat, urls: set<string>): Scan
    decreases maxPages + 1 - i
  {
    if i > maxPages then Scan(urls, [])
    else if shown(i).None? || shown(i).value == {} then Scan(urls, [i])
    else if |urls + shown(i).value| == |urls| then Scan(urls + shown(i).value, [i])
    else
      var rest := ScanFrom(maxPages, shown, i + 1, urls + shown(i).value);
      Scan(rest.urls, [i] + rest.pages)
  }

  /** What each explicit page shows to the scroll loop. */
  function ShownOf(listing: nat -> Visit): nat -> Option<set<string>> {
    (i: nat) => if listing(i).Raises? then None else Some(Found(listing(i)))
  }

  /** `max_pages` when it is positive, else 40; it caps both the scroll passes and the explicit pages. */
  function MaxScrolls(maxPages: int): int {
    if maxPages > 0 then maxPages else 40
  }

  /**
   * `discover` with Playwright installed: the main results page (`None`
   * where its `goto` raised, which ends discovery with nothing), then the
   * explicit pages.
   */
  function DiscoverSpec(maxPages: int, main: Visit, listing: nat -> Visit): Scan {
    var cap := MaxScrolls(maxPages);
    if main.Raises? then Scan({}, [])
    else ScanFrom(cap, ShownOf(listing), 2, Plateaued(cap, SnapsOf(main.passes)))
  }

  /** The loop over the explicit pages `2..max_pages`, after the main page gave `urls`. */
  method WalkPages(lastPage: int, listing: nat -> Visit, start: set<string>)
    returns (urls: set<string>, pages: seq<nat>)
    ensures Scan(urls, pages) == ScanFrom(lastPage, ShownOf(listing), 2, start)
  {
    var shown := ShownOf(listing);
    urls := start;
    pages := [];
    var i: nat := 2;
    ghost var final := ScanFrom(lastPage, shown, 2, start);
    while i <= lastPage
      invariant ScanFrom(lastPage, shown, i, urls).urls == final.urls
      invariant pages + ScanFrom(lastPage, shown, i, urls).pages == final.pages
      decreases lastPage + 1 - i
    {
      ghost var here := ScanFrom(lastPage, shown, i, urls);
      pages := pages + [i];
      if listing(i).Raises? {
        return;
      }
      var newUrls := ExhaustResults(10, listing(i).passes);
      assert shown(i) == Some(newUrls);
      if newUrls == {} {
        return;
      }
      var before := |urls|;
      urls := urls + newUrls;
      if |urls| == before {
        return;
      }
      assert here.pages == [i] + ScanFrom(lastPage, shown, i + 1, urls).pages;
      i := i + 1;
    }
    assert pages + [] == pages;
  }

  /**
   * `discover`: `[]` without Playwright; otherwise the sorted URLs and the
   * explicit pages visited.
   */
  method Discover(installed: bool, maxPages: int, main: Visit, listing: nat -> Visit)
    returns (r: seq<string>, pages: seq<nat>)
    ensures !installed ==> r == [] && pages == []
    ensures installed ==> pages == DiscoverSpec(maxPages, main, listing).pages
    ensures installed ==> StrictlySorted(r) && forall y :: y in r <==> y in DiscoverSpec(maxPages, main, listing).urls
  {
    if !installed {
      return [], [];
    }
    var maxScrolls := if maxPages > 0 then maxPages else 40;
    var urls: set<string> := {};
    pages := [];
    if main.Shows? {
      var first := ExhaustResults(maxScrolls, main.passes);
      urls := urls + first;
      urls, pages := WalkPages(maxScrolls, listing, urls);
    }
    r := SortedList(urls);
  }

  /** Everything the explicit pages `ps` showed. */
  function FoundAll(shown: nat -> Option<set<string>>, ps: seq<nat>): set<string> {
    if ps == [] then {} else shown(ps[0]).GetOr({}) + FoundAll(shown, ps[1..])
  }

  /** The explicit pages are visited in order from `i`, and no further than `max_pages`. */
  lemma {:induction false} ScanOrder(maxPages: int, shown: nat -> Option<set<string>>, i: nat, urls: set<string>)
    ensures var s := ScanFrom(maxPages, shown, i, urls);
      && (forall k :: 0 <= k < |s.pages| ==> s.pages[k] == i + k)
      && (i > maxPages ==> s.pages == [])
      && (i <= maxPages ==> 1 <= |s.pages| <= maxPages + 1 - i)
    decreases maxPages + 1 - i
  {
    if i <= maxPages && !(shown(i).None? || shown(i).value == {}) {
      var next := urls + shown(i).GetOr({});
      if |next| != |urls| {
        ScanOrder(maxPages, shown, i + 1, next);
      }
    }
  }

  /** The URLs gathered are those gathered before and everything the visited pages showed. */
  lemma {:induction false} ScanContents(maxPages: int, shown: nat -> Option<set<string>>, i: nat, urls: set<string>)
    ensures var s := ScanFrom(maxPages, shown, i, urls);
      s.urls == urls + FoundAll(shown, s.pages)
    decreases maxPages + 1 - i
  {
    var s := ScanFrom(maxPages, shown, i, urls);
    if i <= maxPages {
      assert [i][1..] == [];
      var v := shown(i);
      if !(v.None? || v.value == {}) {
        var next := urls + v.value;
        if |next| == |urls| {
          SameSizeNothingNew(urls, next);
        } else {
          ScanContents(maxPages, shown, i + 1, next);
          assert s.pages[1..] == ScanFrom(maxPages, shown, i + 1, next).pages;
        }
      }
    }
  }

  /** Gathering from `urls` the pages `[i] + rest` is gathering `rest` after page `i`. */
  lemma FoundAllPrefix(shown: nat -> Option<set<string>>, i: nat, rest: seq<nat>, urls: set<string>, k: nat)
    requires 0 < k <= |rest| + 1
    ensures urls + FoundAll(shown, ([i] + rest)[..k]) == urls + shown(i).GetOr({}) + FoundAll(shown, rest[..k - 1])
  {
    assert ([i] + rest)[..k] == [i] + rest[..k - 1];
    assert ([i] + rest[..k - 1])[1..] == rest[..k - 1];
  }

  /** Page `ps[k]` was shown and showed a URL that neither `urls` nor the pages before it had. */
  predicate AddsAt(shown: nat -> Option<set<string>>, urls: set<string>, ps: seq<nat>, k: nat)
    requires k < |ps|
  {
    shown(ps[k]).Some? && !(shown(ps[k]).value <= urls + FoundAll(shown, ps[..k]))
  }

  /** Adding a subset adds nothing. */
  lemma Absorbed(a: set<string>, b: set<string>)
    ensures b <= a ==> a + b == a
  {
  }

  /** Every page visited but the last was shown and showed URLs not gathered before it. */
  lemma {:induction false} ScanGrows(maxPages: int, shown: nat -> Option<set<string>>, i: nat, urls: set<string>)
    ensures forall k :: 0 <= k < |ScanFrom(maxPages, shown, i, urls).pages| - 1 ==>
      AddsAt(shown, urls, ScanFrom(maxPages, shown, i, urls).pages, k)
    decreases maxPages + 1 - i
  {
    var s := ScanFrom(maxPages, shown, i, urls);
    if i <= maxPages {
      var v := shown(i);
      if !(v.None? || v.value == {}) {
        var next := urls + v.value;
        if |next| != |urls| {
          ScanGrows(maxPages, shown, i + 1, next);
          var rest := ScanFrom(maxPages, shown, i + 1, next).pages;
          assert s.pages == [i] + rest;
          Absorbed(urls, v.value);
          if 0 < |s.pages| - 1 {
            assert s.pages[..0] == [];
            assert AddsAt(shown, urls, s.pages, 0);
          }
          forall k | 0 < k < |s.pages| - 1 ensures AddsAt(shown, urls, s.pages, k) {
            assert AddsAt(shown, next, rest, k - 1);
            FoundAllPrefix(shown, i, rest, urls, k);
            assert s.pages[k] == rest[k - 1];
          }
        }
      }
    }
  }

  /**
   * A walk that ends before `max_pages` ends on a page that raised, showed
   * nothing or showed only URLs already gathered.
   */
  lemma {:induction false} ScanStops(maxPages: int, shown: nat -> Option<set<string>>, i: nat, urls: set<string>)
    ensures var s := ScanFrom(maxPages, shown, i, urls);
      0 < |s.pages| && s.pages[|s.pages| - 1] < maxPages ==>
        var v := shown(s.pages[|s.pages| - 1]);
        v.None? || v.value == {} || v.value <= urls + FoundAll(shown, s.pages[..|s.pages| - 1])
    decreases maxPages + 1 - i
  {
    var s := ScanFrom(maxPages, shown, i, urls);
    if i <= maxPages {
      var v := shown(i);
      assert s.pages[..0] == [];
      if !(v.None? || v.value == {}) {
        var next := urls + v.value;
        if |next| == |urls| {
          SameSizeNothingNew(urls, next);
        } else {
          ScanStops(maxPages, shown, i + 1, next);
          var rest := ScanFrom(maxPages, shown, i + 1, next).pages;
          assert s.pages == [i] + rest;
          if 0 < |rest| {
            FoundAllPrefix(shown, i, rest, urls, |rest|);
            assert s.pages[|s.pages| - 1] == rest[|rest| - 1];
          }
        }
      }
    }
  }

  /** Characters of a detail path: slug characters and '/'. */
  predicate IsPathChar(c: char) { IsSlugChar(c) || c == '/' }

  lemma ResultsFacts(r: string)
    requires r == Results
    ensures Lower(r) == r && forall i :: 0 <= i < |r| ==> IsPathChar(r[i])
  {
    forall i | 0 <= i < |r| ensures IsPathChar(r[i]) && LowerChar(r[i]) == r[i] { }
  }

  lemma HostFacts(h: string)
    requires h == Host
    ensures forall i :: 0 <= i < |h| ==> IsHostChar(h[i])
  {
    forall i | 0 <= i < |h| ensures IsHostChar(h[i]) { }
  }

  /** A path built from the prefix, digits, an optional slug and an optional '/' has only path characters. */
  lemma DetailPathChars(d: string, slug: string, t: string)
    requires IsDigits(d) && (slug == [] || IsSlug(slug)) && (t == [] || t == "/")
    ensures var p := Results + d + slug + t; forall i :: 0 <= i < |p| ==> IsPathChar(p[i])
  {
    var p := Results + d + slug + t;
    ResultsFacts(Results);
    forall i | 0 <= i < |p| ensures IsPathChar(p[i]) {
      if i < |Results| {
        assert p[i] == Results[i];
      } else if i < |Results| + |d| {
        assert p[i] == d[i - |Results|];
      } else if i < |Results| + |d| + |slug| {
        assert p[i] == slug[i - |Results| - |d|];
      } else {
        assert p[i] == t[i - |Results| - |d| - |slug|];
      }
    }
  }

  /** `urlparse` of the base followed by a path of path characters and a query. */
  lemma ParsedOnHost(path: string, tail: string)
    requires path == [] || path[0] == '/'
    requires forall i :: 0 <= i < |path| ==> IsPathChar(path[i])
    requires tail == [] || tail[0] == '?'
    requires forall i :: 0 <= i < |tail| ==> tail[i] != '#' && !IsUnsafe(tail[i])
    ensures UrlParse(Base + path + tail) == Some(Parsed("https", Host, path, [], if tail == [] then [] else tail[1..], []))
  {
    HostFacts(Host);
    HttpsIsScheme("https");
    BaseParts();
    ParsesAs("https", Host, path, tail);
  }

  lemma BaseParts()
    ensures Base == "https" + "://" + Host
  {
  }

  /** The pattern's pieces make a matching path. */
  lemma PathMatches(d: string, slug: string, t: string)
    requires IsDigits(d) && |d| >= 6 && (slug == [] || IsSlug(slug)) && (t == [] || t == "/")
    ensures MatchesDetail(Results + d + slug + t)
  {
    var path := Results + d + slug + t;
    var i := |Results| + |d|;
    var j := i + |slug|;
    ResultsFacts(Results);
    assert path[..|Results|] == Results;
    assert path[|Results|..i] == d;
    assert path[i..j] == slug;
    assert path[j..] == t;
    ShapeIsMatch(path, i, j);
  }

  /** Every absolute URL of the pattern's shape on the Google host is a detail URL. */
  lemma DetailUrlAccepted(d: string, slug: string, t: string)
    requires IsDigits(d) && |d| >= 6 && (slug == [] || IsSlug(slug)) && (t == [] || t == "/")
    ensures IsJobDetailUrl(Base + Results + d + slug + t)
  {
    var path := Results + d + slug + t;
    var u := Base + Results + d + slug + t;
    DetailPathChars(d, slug, t);
    assert u == Base + path + "";
    ParsedOnHost(path, "");
    PathMatches(d, slug, t);
    DetailFromParts(u, Parsed("https", Host, path, [], [], []));
  }

  lemma DetailFromParts(u: string, p: Parsed)
    requires UrlParse(u) == Some(p) && p.netloc == Host && MatchesDetail(p.path)
    ensures IsJobDetailUrl(u)
  {
  }

  /** A relative `href` without ':' and not starting with "//" is joined onto the base. */
  lemma JoinsOntoBase(href: string)
    requires |href| >= 2 && href[0] == '/' && href[1] != '/'
    requires forall i :: 0 <= i < |href| ==> href[i] != ':'
    ensures Resolve(href) == Base + href
  {
    assert !StartsWith(href, "http") by {
      if |href| >= 4 {
        assert href[..4][0] == '/';
      }
    }
    JoinAbsolutePath(Base, href);
  }

  /** A relative detail `href` such as the doc string's is collected as the absolute URL. */
  lemma RelativeDetailCollected(d: string, slug: string, t: string)
    requires IsDigits(d) && |d| >= 6 && (slug == [] || IsSlug(slug)) && (t == [] || t == "/")
    ensures LinkOf(Some(Results + d + slug + t)) == Some(Base + Results + d + slug + t)
  {
    DetailHrefResolves(d, slug, t);
    DetailUrlAccepted(d, slug, t);
    CollectedFromParts(Results + d + slug + t, Base + Results + d + slug + t);
  }

  lemma DetailHrefResolves(d: string, slug: string, t: string)
    requires IsDigits(d) && |d| >= 6 && (slug == [] || IsSlug(slug)) && (t == [] || t == "/")
    ensures var href := Results + d + slug + t;
      Strip(href) == href && href != [] && Resolve(href) == Base + Results + d + slug + t
  {
    DetailHrefShape(d, slug, t);
    StrippedIsFixed(Results + d + slug + t);
    JoinsOntoBase(Results + d + slug + t);
    Associate4(Base, Results, d, slug, t);
  }

  lemma DetailHrefShape(d: string, slug: string, t: string)
    requires IsDigits(d) && |d| >= 6 && (slug == [] || IsSlug(slug)) && (t == [] || t == "/")
    ensures var href := Results + d + slug + t;
      && |href| >= 2 && href[0] == '/' && href[1] != '/'
      && (forall i :: 0 <= i < |href| ==> href[i] != ':')
      && IsStripped(href)
  {
    var href := Results + d + slug + t;
    DetailPathChars(d, slug, t);
    assert href[0] == '/' && href[1] == 'j' && IsPathChar(href[|href| - 1]);
  }

  lemma Associate4(a: string, b: string, c: string, d: string, e: string)
    ensures a + (b + c + d + e) == a + b + c + d + e
  {
  }

  lemma Associate2(a: string, b: string, c: string)
    ensures a + (b + c) == a + b + c
  {
  }

  lemma CollectedFromParts(href: string, u: string)
    requires Strip(href) == href && href != [] && Resolve(href) == u && IsJobDetailUrl(u)
    ensures LinkOf(Some(href)) == Some(u)
  {
    LinkFromParts(Some(href), href, u);
  }

  lemma RejectedFromParts(href: string, u: string)
    requires Strip(href) == href && href != [] && Resolve(href) == u && !IsJobDetailUrl(u)
    ensures LinkOf(Some(href)) == None
  {
    LinkFromParts(Some(href), href, u);
  }

  lemma LinkFromParts(attr: Option<string>, href: string, u: string)
    requires Strip(attr.GetOr("")) == href && href != [] && Resolve(href) == u
    ensures LinkOf(attr) == if IsJobDetailUrl(u) then Some(u) else None
  {
  }

  /** The doc string's detail path is accepted, as an `href` and as the URL it resolves to. */
  lemma DocDetailUrlAccepted()
    ensures IsJobDetailUrl(Base + Results + "73675063508771526" + "-software-engineer-iii" + "/")
    ensures LinkOf(Some(Results + "73675063508771526" + "-software-engineer-iii" + "/"))
         == Some(Base + Results + "73675063508771526" + "-software-engineer-iii" + "/")
  {
    DocPieces("73675063508771526", "-software-engineer-iii");
    RelativeDetailCollected("73675063508771526", "-software-engineer-iii", "/");
  }

  lemma DocPieces(d: string, slug: string)
    requires d == "73675063508771526" && slug == "-software-engineer-iii"
    ensures IsDigits(d) && |d| >= 6 && IsSlug(slug)
  {
    forall i | 0 <= i < |d| ensures IsDigit(d[i]) { }
    forall i | 1 <= i < |slug| ensures IsSlugChar(slug[i]) { }
  }

  /** Listing pages `?page=N` are not detail URLs, as an `href` or absolute. */
  lemma ListingUrlRejected(n: nat)
    ensures !IsJobDetailUrl(Base + Results + "?page=" + NatToString(n))
    ensures LinkOf(Some(Results + "?page=" + NatToString(n))) == None
  {
    ListingParts(n);
    RejectedFromParts(Results + "?page=" + NatToString(n), Base + Results + "?page=" + NatToString(n));
  }

  lemma ListingParts(n: nat)
    ensures var href := Results + "?page=" + NatToString(n);
      && Strip(href) == href && href != []
      && Resolve(href) == Base + Results + "?page=" + NatToString(n)
      && !IsJobDetailUrl(Base + Results + "?page=" + NatToString(n))
  {
    var tail := "?page=" + NatToString(n);
    ListingTailChars(n, tail);
    ListingAbsoluteRejected(tail, Base + Results + tail);
    ListingHrefResolves(tail, Results + tail, Base + Results + tail);
    Associate2(Results, "?page=", NatToString(n));
    Associate2(Base + Results, "?page=", NatToString(n));
  }

  lemma ListingTailChars(n: nat, tail: string)
    requires tail == "?page=" + NatToString(n)
    ensures |tail| >= 2 && tail[0] == '?' && IsDigit(tail[|tail| - 1])
    ensures forall i :: 0 <= i < |tail| ==> tail[i] != '#' && tail[i] != ':' && !IsUnsafe(tail[i])
  {
    forall i | 0 <= i < |tail| ensures tail[i] != '#' && tail[i] != ':' && !IsUnsafe(tail[i]) {
      if i >= 6 {
        assert tail[i] == NatToString(n)[i - 6];
      }
    }
    assert tail[|tail| - 1] == NatToString(n)[|NatToString(n)| - 1];
  }

  lemma ListingAbsoluteRejected(tail: string, u: string)
    requires |tail| >= 1 && tail[0] == '?'
    requires forall i :: 0 <= i < |tail| ==> tail[i] != '#' && !IsUnsafe(tail[i])
    requires u == Base + Results + tail
    ensures !IsJobDetailUrl(u)
  {
    ResultsFacts(Results);
    ParsedOnHost(Results, tail);
    assert DigitsEnd(Results, |Results|) == |Results|;
    NotDetailFromParts(u, Parsed("https", Host, Results, [], tail[1..], []));
  }

  lemma ListingHrefResolves(tail: string, href: string, u: string)
    requires |tail| >= 1 && IsDigit(tail[|tail| - 1])
    requires forall i :: 0 <= i < |tail| ==> tail[i] != ':'
    requires href == Results + tail && u == Base + Results + tail
    ensures Strip(href) == href && href != [] && Resolve(href) == u
  {
    ListingHrefChars(tail, href);
    StrippedIsFixed(href);
    JoinsOntoBase(href);
    Associate2(Base, Results, tail);
  }

  lemma ListingHrefChars(tail: string, href: string)
    requires |tail| >= 1 && IsDigit(tail[|tail| - 1])
    requires forall i :: 0 <= i < |tail| ==> tail[i] != ':'
    requires href == Results + tail
    ensures |href| >= 2 && href[0] == '/' && href[1] != '/'
    ensures forall i :: 0 <= i < |href| ==> href[i] != ':'
    ensures IsStripped(href)
  {
    ResultsFacts(Results);
    forall i | 0 <= i < |href| ensures href[i] != ':' {
      if i < |Results| {
        assert href[i] == Results[i];
      } else {
        assert href[i] == tail[i - |Results|];
      }
    }
    assert href[|href| - 1] == tail[|tail| - 1];
  }

  /** A URL on any other host is rejected, whatever its path: `p.netloc and p.netloc != "careers.google.com"`. */
  lemma OtherHostRejected(host: string, path: string)
    requires host != [] && host != Host
    requires forall i :: 0 <= i < |host| ==> IsHostChar(host[i])
    requires path == [] || path[0] == '/'
    requires forall i :: 0 <= i < |path| ==> path[i] != '?' && path[i] != '#' && path[i] != ';' && !IsUnsafe(path[i])
    ensures !IsJobDetailUrl("https://" + host + path)
  {
    HttpsIsScheme("https");
    ParsesAs("https", host, path, []);
    DropEmpty("https" + "://" + host + path);
    SchemeParts();
  }

  lemma NotDetailFromParts(u: string, p: Parsed)
    requires UrlParse(u) == Some(p) && !MatchesDetail(p.path)
    ensures !IsJobDetailUrl(u)
  {
  }
}
