/**
 * Amazon's discovery (scraper/companies/amazon.py): the search API is paged
 * by `offset` in steps of 100; each page's `jobs[*].job_path` becomes a URL
 * under the site's base, and the loop ends at the page limit, at the first
 * failed request or at the first page without jobs.
 *
 * The HTTP session is the parameter `get`, from a requested offset to what
 * that request produced.
 */
module Amazon {
  import opened Wrappers
  import opened Json
  import opened Sorting

  const Base: string := "https://www.amazon.jobs"
  const PageSize: nat := 100

  /** One request: `session.get` raised, or a status and what `resp.json()` gave (`None` where it raised). */
  datatype Reply = Raised | Reply(status: int, body: Option<Json>)

  /** What one element of `jobs` contributes: nothing, a URL, or an exception. */
  datatype Entry = Skip | Url(url: string) | Raises

  /** What one page does to the loop: end it, raise out of `discover`, or add URLs and go on. */
  datatype Page = Stop | Fails | Paths(urls: seq<string>)

  /** The requests made and the URLs gathered (`None` where `discover` raises). */
  datatype Trace = Trace(urls: Option<seq<string>>, offsets: seq<nat>)

  /**
   * `path = j.get("job_path"); if path: urls.append(BASE + path)`. A non-dict
   * element has no `get`, and a truthy non-string path cannot be added to a string.
   */
  function JobEntry(j: Json): Entry {
    if !j.JObj? then Raises
    else
      match Field(j, "job_path")
      case None => Skip
      case Some(p) =>
        if !Truthy(p) then Skip
        else if p.JStr? then Url(Base + p.s)
        else Raises
  }

  /** The URLs the `for j in jobs` loop appends, given each element's entry, or `None` where one raises. */
  function Collect(es: seq<Entry>): Option<seq<string>> {
    if es == [] then Some([])
    else
      match Collect(es[..|es| - 1])
      case None => None
      case Some(us) =>
        match es[|es| - 1]
        case Skip => Some(us)
        case Url(u) => Some(us + [u])
        case Raises => None
  }

  function Entries(jobs: seq<Json>): (es: seq<Entry>)
    ensures |es| == |jobs| && forall i :: 0 <= i < |jobs| ==> es[i] == JobEntry(jobs[i])
  {
    seq(|jobs|, i requires 0 <= i < |jobs| => JobEntry(jobs[i]))
  }

  function JobUrls(jobs: seq<Json>): Option<seq<string>> {
    Collect(Entries(jobs))
  }

  /** What the loop does with one reply (lines 20-37). */
  function PageOf(reply: Reply): Page {
    match reply
    case Raised => Stop
    case Reply(status, body) =>
      if status != 200 || body.None? then Stop
      else
        var data := body.value;
        if !data.JObj? then Fails
        else
          var jobs := FieldOr(data, "jobs", JArr([]));
          if !Truthy(jobs) then Stop
          else if !jobs.JArr? then Fails
          else
            match JobUrls(jobs.items)
            case None => Fails
            case Some(us) => Paths(us)
  }

  /** `prefix + rest`, where the rest may have raised. */
  function Prepend(prefix: seq<string>, rest: Option<seq<string>>): Option<seq<string>> {
    match rest
    case None => None
    case Some(xs) => Some(prefix + xs)
  }

  /**
   * The loop from its `k`-th request on: offset `k * 100`, while
   * `offset < max_pages * 100`; `pages` gives each requested offset's outcome.
   */
  function Crawl(maxPages: int, pages: nat -> Page, k: nat): Trace
    decreases maxPages - k
  {
    if k >= maxPages then Trace(Some([]), [])
    else
      var offset := k * PageSize;
      match pages(offset)
      case Stop => Trace(Some([]), [offset])
      case Fails => Trace(None, [offset])
      case Paths(us) =>
        var t := Crawl(maxPages, pages, k + 1);
        Trace(Prepend(us, t.urls), [offset] + t.offsets)
  }

  /** Each requested offset's outcome, as the session answers it. */
  function PagesOf(get: nat -> Reply): nat -> Page {
    (offset: nat) => PageOf(get(offset))
  }

  /** `discover(session, settings)` as a value: `sorted(set(urls))` and the offsets requested. */
  function DiscoverSpec(maxPages: int, get: nat -> Reply): Trace {
    var t := Crawl(maxPages, PagesOf(get), 0);
    Trace(if t.urls.Some? then Some(SortDistinct(t.urls.value)) else None, t.offsets)
  }

  /** A raising element makes the whole loop raise, whatever follows it. */
  lemma {:induction false} CollectRaisesOnward(es: seq<Entry>, i: nat)
    requires i <= |es| && Collect(es[..i]).None?
    ensures Collect(es).None?
    decreases |es| - i
  {
    if i < |es| {
      assert es[..i + 1][..i] == es[..i];
      CollectRaisesOnward(es, i + 1);
    } else {
      assert es[..i] == es;
    }
  }

  /** The `for j in jobs` loop. */
  method CollectJobs(jobs: seq<Json>) returns (r: Option<seq<string>>)
    ensures r == JobUrls(jobs)
  {
    var es := Entries(jobs);
    var urls: seq<string> := [];
    for i := 0 to |jobs|
      invariant Collect(es[..i]) == Some(urls)
    {
      assert es[..i + 1][..i] == es[..i];
      var e := JobEntry(jobs[i]);
      if e.Raises? {
        CollectRaisesOnward(es, i + 1);
        return None;
      }
      if e.Url? {
        urls := urls + [e.url];
      }
    }
    assert es[..|jobs|] == es;
    r := Some(urls);
  }

  /** One pass of the `while` body after the request: the page's outcome. */
  method ReadPage(reply: Reply) returns (p: Page)
    ensures p == PageOf(reply)
  {
    if reply.Raised? || reply.status != 200 || reply.body.None? {
      return Stop;
    }
    var data := reply.body.value;
    if !data.JObj? {
      return Fails;
    }
    var jobs := FieldOr(data, "jobs", JArr([]));
    if !Truthy(jobs) {
      return Stop;
    }
    if !jobs.JArr? {
      return Fails;
    }
    var us := CollectJobs(jobs.items);
    if us.None? {
      return Fails;
    }
    p := Paths(us.value);
  }

  /** The loop's state after `k` requests: what it holds, followed by the rest of the crawl, is the whole crawl. */
  predicate Resumes(maxPages: int, pages: nat -> Page, k: nat, urls: seq<string>, offsets: seq<nat>) {
    var t := Crawl(maxPages, pages, k);
    Crawl(maxPages, pages, 0) == Trace(Prepend(urls, t.urls), offsets + t.offsets)
  }

  lemma ResumesAtStart(maxPages: int, pages: nat -> Page)
    ensures Resumes(maxPages, pages, 0, [], [])
  {
    var whole := Crawl(maxPages, pages, 0);
    if whole.urls.Some? {
      assert [] + whole.urls.value == whole.urls.value;
    }
    assert [] + whole.offsets == whole.offsets;
  }

  /** A page with jobs: its URLs join the list and the loop goes on to the next offset. */
  lemma ResumesStep(maxPages: int, pages: nat -> Page, k: nat, urls: seq<string>, offsets: seq<nat>)
    requires k < maxPages && pages(k * PageSize).Paths?
    requires Resumes(maxPages, pages, k, urls, offsets)
    ensures Resumes(maxPages, pages, k + 1, urls + pages(k * PageSize).urls, offsets + [k * PageSize])
  {
    var us := pages(k * PageSize).urls;
    var rest := Crawl(maxPages, pages, k + 1);
    if rest.urls.Some? {
      assert urls + (us + rest.urls.value) == (urls + us) + rest.urls.value;
    }
    assert offsets + ([k * PageSize] + rest.offsets) == (offsets + [k * PageSize]) + rest.offsets;
  }

  /** A page that ends the loop: the crawl is over with that request. */
  lemma ResumesLast(maxPages: int, pages: nat -> Page, k: nat, urls: seq<string>, offsets: seq<nat>)
    requires k < maxPages && !pages(k * PageSize).Paths?
    requires Resumes(maxPages, pages, k, urls, offsets)
    ensures Crawl(maxPages, pages, 0) ==
      Trace(if pages(k * PageSize).Stop? then Some(urls) else None, offsets + [k * PageSize])
  {
    if pages(k * PageSize).Stop? {
      assert urls + [] == urls;
    }
  }

  /** The `while` loop of `discover`: the URLs in the order appended, and the offsets requested. */
  method Gather(maxPages: int, get: nat -> Reply) returns (urls: Option<seq<string>>, offsets: seq<nat>)
    ensures Trace(urls, offsets) == Crawl(maxPages, PagesOf(get), 0)
  {
    var acc: seq<string> := [];
    var offset: nat := 0;
    var k: nat := 0;
    offsets := [];
    var pages := PagesOf(get);
    ResumesAtStart(maxPages, pages);
    while offset < maxPages * PageSize
      invariant offset == k * PageSize
      invariant Resumes(maxPages, pages, k, acc, offsets)
      decreases maxPages - k
    {
      var page := ReadPage(get(offset));
      if !page.Paths? {
        ResumesLast(maxPages, pages, k, acc, offsets);
        offsets := offsets + [offset];
        return if page.Stop? then Some(acc) else None, offsets;
      }
      ResumesStep(maxPages, pages, k, acc, offsets);
      offsets := offsets + [offset];
      acc := acc + page.urls;
      offset := offset + PageSize;
      k := k + 1;
    }
    assert acc + [] == acc;
    urls := Some(acc);
  }

  /** `discover`: the URLs found (`None` where it raises) and the offsets it requested, in order. */
  method Discover(maxPages: int, get: nat -> Reply) returns (r: Option<seq<string>>, offsets: seq<nat>)
    ensures Trace(r, offsets) == DiscoverSpec(maxPages, get)
  {
    var urls;
    urls, offsets := Gather(maxPages, get);
    if urls.None? {
      return None, offsets;
    }
    var listed := SortedList(set u | u in urls.value);
    SortedUnique(listed, SortDistinct(urls.value));
    r := Some(listed);
  }

  /**
   * The requests go to offsets `0, 100, 200, …` in order, at most `max_pages`
   * of them (none when `max_pages <= 0`); each request but the last got a page
   * with jobs, and a run that ends before the limit ends on a page without
   * jobs, a failed request or an exception.
   */
  lemma {:induction false} CrawlRequests(maxPages: int, pages: nat -> Page, k: nat)
    ensures var offs := Crawl(maxPages, pages, k).offsets;
      && (forall i :: 0 <= i < |offs| ==> offs[i] == (k + i) * PageSize)
      && (k >= maxPages ==> offs == [])
      && (k < maxPages ==> 1 <= |offs| <= maxPages - k)
      && (forall i :: 0 <= i < |offs| - 1 ==> pages(offs[i]).Paths?)
      && (0 < |offs| < maxPages - k ==> !pages(offs[|offs| - 1]).Paths?)
    decreases maxPages - k
  {
    if k < maxPages && pages(k * PageSize).Paths? {
      CrawlRequests(maxPages, pages, k + 1);
      var offs := Crawl(maxPages, pages, k).offsets;
      var tail := Crawl(maxPages, pages, k + 1).offsets;
      assert offs == [k * PageSize] + tail;
      forall i | 0 <= i < |offs| ensures offs[i] == (k + i) * PageSize {
        if i > 0 { assert offs[i] == tail[i - 1]; }
      }
    }
  }

  /**
   * A URL is gathered exactly when some requested page with jobs listed it;
   * the run raises exactly when its last requested page raised.
   */
  lemma {:induction false} CrawlUrls(maxPages: int, pages: nat -> Page, k: nat)
    ensures var t := Crawl(maxPages, pages, k);
      && (t.urls.None? <==> t.offsets != [] && pages(t.offsets[|t.offsets| - 1]).Fails?)
      && (t.urls.Some? ==> forall y :: y in t.urls.value <==>
            exists i :: 0 <= i < |t.offsets| && pages(t.offsets[i]).Paths? && y in pages(t.offsets[i]).urls)
    decreases maxPages - k
  {
    if k < maxPages && pages(k * PageSize).Paths? {
      CrawlUrls(maxPages, pages, k + 1);
      var t := Crawl(maxPages, pages, k);
      var rest := Crawl(maxPages, pages, k + 1);
      var us := pages(k * PageSize).urls;
      assert t.offsets == [k * PageSize] + rest.offsets;
      if rest.offsets != [] {
        assert t.offsets[|t.offsets| - 1] == rest.offsets[|rest.offsets| - 1];
      } else {
        assert rest.urls.Some?;
      }
      if t.urls.Some? {
        forall y ensures y in t.urls.value <==>
          exists i :: 0 <= i < |t.offsets| && pages(t.offsets[i]).Paths? && y in pages(t.offsets[i]).urls
        {
          if y in us {
            assert t.offsets[0] == k * PageSize;
          } else if y in rest.urls.value {
            var i :| 0 <= i < |rest.offsets| && pages(rest.offsets[i]).Paths? && y in pages(rest.offsets[i]).urls;
            assert t.offsets[i + 1] == rest.offsets[i];
          }
          if exists i :: 0 <= i < |t.offsets| && pages(t.offsets[i]).Paths? && y in pages(t.offsets[i]).urls {
            var i :| 0 <= i < |t.offsets| && pages(t.offsets[i]).Paths? && y in pages(t.offsets[i]).urls;
            if i > 0 {
              assert t.offsets[i] == rest.offsets[i - 1];
            }
          }
        }
      }
    }
  }

  /** An element adds a URL exactly when it is a dict with a non-empty string `job_path`, and the URL is the base then that path. */
  lemma JobEntryUrl(j: Json)
    ensures JobEntry(j).Url? ==> exists p :: Field(j, "job_path") == Some(JStr(p)) && p != "" && JobEntry(j).url == Base + p
    ensures j.JObj? && (exists p :: Field(j, "job_path") == Some(JStr(p)) && p != "") ==> JobEntry(j).Url?
  {
  }

  /** On one page, the loop raises exactly when some element raises. */
  lemma {:induction false} CollectRaises(es: seq<Entry>)
    ensures Collect(es).None? <==> exists j :: 0 <= j < |es| && es[j].Raises?
  {
    if es != [] {
      var init := es[..|es| - 1];
      CollectRaises(init);
      if exists j :: 0 <= j < |es| && es[j].Raises? {
        var j :| 0 <= j < |es| && es[j].Raises?;
        if j < |init| { assert init[j].Raises?; }
      }
      if exists j :: 0 <= j < |init| && init[j].Raises? {
        var j :| 0 <= j < |init| && init[j].Raises?;
        assert es[j] == init[j];
      }
    }
  }

  /** On one page, a URL is added exactly when some element contributes it. */
  lemma {:induction false} CollectContents(es: seq<Entry>)
    requires Collect(es).Some?
    ensures forall y :: y in Collect(es).value <==> exists j :: 0 <= j < |es| && es[j] == Url(y)
  {
    if es != [] {
      var init := es[..|es| - 1];
      CollectContents(init);
      forall y ensures y in Collect(es).value <==> exists j :: 0 <= j < |es| && es[j] == Url(y) {
        if exists j :: 0 <= j < |init| && init[j] == Url(y) {
          var j :| 0 <= j < |init| && init[j] == Url(y);
          assert es[j] == init[j];
        }
        if exists j :: 0 <= j < |es| && es[j] == Url(y) {
          var j :| 0 <= j < |es| && es[j] == Url(y);
          if j < |init| { assert init[j] == Url(y); }
        }
      }
    }
  }

  /** Every URL a page adds is the base followed by a non-empty `job_path`. */
  lemma PageUrlUnderBase(reply: Reply, y: string)
    requires PageOf(reply).Paths? && y in PageOf(reply).urls
    ensures exists p :: p != "" && y == Base + p
  {
    var jobs := FieldOr(reply.body.value, "jobs", JArr([]));
    var es := Entries(jobs.items);
    CollectContents(es);
    var j :| 0 <= j < |es| && es[j] == Url(y);
    JobEntryUrl(jobs.items[j]);
  }

  /** No pages allowed: no request, and an empty result. */
  lemma NoPagesNoRequests(maxPages: int, get: nat -> Reply)
    requires maxPages <= 0
    ensures DiscoverSpec(maxPages, get) == Trace(Some([]), [])
  {
  }

  /**
   * The result is ascending and duplicate-free, and each of its entries is the
   * base followed by a non-empty path.
   */
  lemma DiscoverUnderBase(maxPages: int, get: nat -> Reply)
    ensures var r := DiscoverSpec(maxPages, get).urls;
      r.Some? ==> StrictlySorted(r.value) && forall y :: y in r.value ==> exists p :: p != "" && y == Base + p
  {
    var t := Crawl(maxPages, PagesOf(get), 0);
    if t.urls.Some? {
      CrawlUrls(maxPages, PagesOf(get), 0);
      forall y | y in SortDistinct(t.urls.value) ensures exists p :: p != "" && y == Base + p {
        var i :| 0 <= i < |t.offsets| && PagesOf(get)(t.offsets[i]).Paths? && y in PagesOf(get)(t.offsets[i]).urls;
        PageUrlUnderBase(get(t.offsets[i]), y);
      }
    }
  }
}
