/**
 * The scrape run (scraper/runner.py): for each requested company, discover its
 * job URLs, fetch a description for every URL not yet in the seen set, and
 * record the non-empty ones as new rows.
 *
 * Discovery and the description fetchers are the parameters `discover` and
 * `describe`; `None` from either stands for an exception. The seen set that
 * `load_seen`/`save_seen` keep in a file, and the rows `write_outputs`
 * appends, are threaded through as values.
 */
module Runner {
  import opened Wrappers

  /** The entries of `_company_map`. */
  datatype Company = Apple | Amazon | Google | Meta | Netflix

  function Name(c: Company): string {
    match c
    case Apple => "apple"
    case Amazon => "amazon"
    case Google => "google"
    case Meta => "meta"
    case Netflix => "netflix"
  }

  /** `_company_map().get(name)`. */
  function CompanyMap(name: string): (r: Option<Company>)
    ensures r.Some? <==> name in {"apple", "amazon", "google", "meta", "netflix"}
    ensures r.Some? ==> Name(r.value) == name
  {
    if name == "apple" then Some(Apple)
    else if name == "amazon" then Some(Amazon)
    else if name == "google" then Some(Google)
    else if name == "meta" then Some(Meta)
    else if name == "netflix" then Some(Netflix)
    else None
  }

  /** Every company is found under its own name. */
  lemma CompanyMapOfName(c: Company)
    ensures CompanyMap(Name(c)) == Some(c)
  {
  }

  /** Which detail-page fetcher `process_company` calls. */
  datatype Fetcher = MetaFetcher | NetflixFetcher | GenericFetcher

  function FetcherFor(name: string): (f: Fetcher)
    ensures f == MetaFetcher <==> name == "meta"
    ensures f == NetflixFetcher <==> name == "netflix"
    ensures f == GenericFetcher <==> name != "meta" && name != "netflix"
  {
    if name == "meta" then MetaFetcher
    else if name == "netflix" then NetflixFetcher
    else GenericFetcher
  }

  /**
   * The fetcher's answer for one URL: the description text, or `None` when it
   * raises. A fetcher that returns `None` because the page gave no HTML
   * answers `Some("")`: the URL counts as fetched and adds no row.
   */
  type Describe = (Fetcher, string) -> Option<string>

  datatype Row = Row(company: string, url: string, description: string)

  datatype Counts = Counts(pagesFetched: nat, newRows: nat)

  /** The loop variables of `process_company`. */
  datatype Walked = Walked(fetched: nat, added: nat, rows: seq<Row>, seen: set<string>)

  /** What a completed `process_company` leaves behind: its summary, the rows written and the seen set saved. */
  datatype Outcome = Outcome(counts: Counts, rows: seq<Row>, seen: set<string>)

  /** One turn of the loop over `urls`; `None` when the fetch raises. */
  function Step(name: string, w: Walked, u: string, describe: Describe): Option<Walked> {
    if u in w.seen then Some(w)
    else
      match describe(FetcherFor(name), u)
      case None => None
      case Some(desc) =>
        if desc != "" then Some(Walked(w.fetched + 1, w.added + 1, w.rows + [Row(name, u, desc)], w.seen + {u}))
        else Some(Walked(w.fetched + 1, w.added, w.rows, w.seen))
  }

  /** The loop over a prefix of the discovered URLs, starting from the loaded seen set. */
  function Walk(name: string, urls: seq<string>, seen0: set<string>, describe: Describe): Option<Walked> {
    if urls == [] then Some(Walked(0, 0, [], seen0))
    else
      match Walk(name, urls[..|urls| - 1], seen0, describe)
      case None => None
      case Some(w) => Step(name, w, urls[|urls| - 1], describe)
  }

  /** `process_company(name, discover_fn, ...)`; `None` when discovery or a fetch raises. */
  function ProcessOutcome(name: string, discovered: Option<seq<string>>, seen0: set<string>, describe: Describe): Option<Outcome> {
    match discovered
    case None => None
    case Some(urls) =>
      match Walk(name, urls, seen0, describe)
      case None => None
      case Some(w) => Some(Outcome(Counts(w.fetched, w.added), w.rows, w.seen))
  }

  function RowUrls(rows: seq<Row>): set<string> {
    set r | r in rows :: r.url
  }

  /** Number of positions of `urls` holding a URL outside `seen0`. */
  function CountUnseen(urls: seq<string>, seen0: set<string>): nat {
    if urls == [] then 0
    else CountUnseen(urls[..|urls| - 1], seen0) + (if urls[|urls| - 1] in seen0 then 0 else 1)
  }

  predicate DistinctUrls(urls: seq<string>) {
    forall i, j :: 0 <= i < j < |urls| ==> urls[i] != urls[j]
  }

  predicate DistinctRowUrls(rows: seq<Row>) {
    forall i, j :: 0 <= i < j < |rows| ==> rows[i].url != rows[j].url
  }

  /** What holds of the loop variables after any prefix of the walk. */
  predicate WalkInvariant(name: string, urls: seq<string>, seen0: set<string>, w: Walked) {
    && w.added == |w.rows| <= w.fetched <= CountUnseen(urls, seen0)
    && w.seen == seen0 + RowUrls(w.rows)
    && DistinctRowUrls(w.rows)
    && (forall i :: 0 <= i < |w.rows| ==>
          && w.rows[i].company == name && w.rows[i].url in urls
          && w.rows[i].url !in seen0 && w.rows[i].description != "")
  }

  lemma {:induction false} WalkKeepsInvariant(name: string, urls: seq<string>, seen0: set<string>, describe: Describe)
    ensures Walk(name, urls, seen0, describe).Some? ==> WalkInvariant(name, urls, seen0, Walk(name, urls, seen0, describe).value)
    decreases |urls|
  {
    if urls != [] {
      var prefix := urls[..|urls| - 1];
      var u := urls[|urls| - 1];
      WalkKeepsInvariant(name, prefix, seen0, describe);
      var pw := Walk(name, prefix, seen0, describe);
      if pw.Some? && Walk(name, urls, seen0, describe).Some? {
        var p := pw.value;
        var w := Walk(name, urls, seen0, describe).value;
        forall i | 0 <= i < |p.rows| ensures p.rows[i].url in urls {
          assert p.rows[i].url in prefix;
        }
        if u !in p.seen && w.rows != p.rows {
          assert w.rows == p.rows + [Row(name, u, w.rows[|w.rows| - 1].description)];
          assert RowUrls(w.rows) == RowUrls(p.rows) + {u};
          forall i | 0 <= i < |p.rows| ensures p.rows[i].url != u {
            assert p.rows[i].url in RowUrls(p.rows);
          }
        }
      }
    }
  }

  /** With no repeated URL, every URL outside the loaded seen set is fetched exactly once. */
  lemma {:induction false} WalkFetchesEachUnseen(name: string, urls: seq<string>, seen0: set<string>, describe: Describe)
    requires DistinctUrls(urls)
    ensures Walk(name, urls, seen0, describe).Some? ==> Walk(name, urls, seen0, describe).value.fetched == CountUnseen(urls, seen0)
    decreases |urls|
  {
    if urls != [] {
      var prefix := urls[..|urls| - 1];
      var u := urls[|urls| - 1];
      WalkFetchesEachUnseen(name, prefix, seen0, describe);
      WalkKeepsInvariant(name, prefix, seen0, describe);
      assert u !in prefix by {
        forall i | 0 <= i < |prefix| ensures prefix[i] != u {
          assert prefix[i] == urls[i];
        }
      }
    }
  }

  /** URLs in the loaded seen set are never fetched: the walk does not depend on what the fetcher says for them. */
  lemma {:induction false} WalkIgnoresSeen(name: string, urls: seq<string>, seen0: set<string>, d1: Describe, d2: Describe)
    requires forall u :: u in urls && u !in seen0 ==> d1(FetcherFor(name), u) == d2(FetcherFor(name), u)
    ensures Walk(name, urls, seen0, d1) == Walk(name, urls, seen0, d2)
    decreases |urls|
  {
    if urls != [] {
      var prefix := urls[..|urls| - 1];
      assert forall u :: u in prefix ==> u in urls;
      WalkIgnoresSeen(name, prefix, seen0, d1, d2);
      WalkKeepsInvariant(name, prefix, seen0, d1);
      var u := urls[|urls| - 1];
      assert u in urls;
    }
  }

  /** Once a fetch has raised, the rest of the walk raises with it. */
  lemma {:induction false} WalkRaises(name: string, urls: seq<string>, i: nat, seen0: set<string>, describe: Describe)
    requires i <= |urls| && Walk(name, urls[..i], seen0, describe).None?
    ensures Walk(name, urls, seen0, describe).None?
    decreases |urls| - i
  {
    if i < |urls| {
      assert urls[..i + 1][..i] == urls[..i];
      WalkRaises(name, urls, i + 1, seen0, describe);
    } else {
      assert urls[..i] == urls;
    }
  }

  /** `process_company`. */
  method ProcessCompany(name: string, discovered: Option<seq<string>>, seen0: set<string>, describe: Describe)
    returns (r: Option<Outcome>)
    ensures r == ProcessOutcome(name, discovered, seen0, describe)
  {
    if discovered.None? {
      return None;
    }
    var urls := discovered.value;
    var seen := seen0;
    var newRows: seq<Row> := [];
    var fetched: nat := 0;
    var added: nat := 0;
    for i := 0 to |urls|
      invariant Walk(name, urls[..i], seen0, describe) == Some(Walked(fetched, added, newRows, seen))
    {
      var u := urls[i];
      assert urls[..i + 1][..i] == urls[..i];
      if u in seen {
        continue;
      }
      var desc: Option<string>;
      if name == "meta" {
        desc := describe(MetaFetcher, u);
      } else if name == "netflix" {
        desc := describe(NetflixFetcher, u);
      } else {
        desc := describe(GenericFetcher, u);
      }
      if desc.None? {
        WalkRaises(name, urls, i + 1, seen0, describe);
        return None;
      }
      fetched := fetched + 1;
      if desc.value != "" {
        newRows := newRows + [Row(name, u, desc.value)];
        seen := seen + {u};
        added := added + 1;
      }
    }
    assert urls[..|urls|] == urls;
    r := Some(Outcome(Counts(fetched, added), newRows, seen));
  }

  /** Everything `run` has produced so far: the summary, the seen set on file and the rows written. */
  datatype RunState = RunState(summary: map<string, Counts>, seen: set<string>, written: seq<Row>)

  /** One company of `run`: unknown names are skipped, a raising company leaves everything as it was. */
  function RunStep(st: RunState, c: string, discover: Company -> Option<seq<string>>, describe: Describe): RunState {
    match CompanyMap(c)
    case None => st
    case Some(co) =>
      match ProcessOutcome(c, discover(co), st.seen, describe)
      case None => st
      case Some(o) => RunState(st.summary[c := o.counts], o.seen, st.written + o.rows)
  }

  function RunSpec(companies: seq<string>, seen0: set<string>, discover: Company -> Option<seq<string>>, describe: Describe): RunState {
    if companies == [] then RunState(map[], seen0, [])
    else RunStep(RunSpec(companies[..|companies| - 1], seen0, discover, describe), companies[|companies| - 1], discover, describe)
  }

  /** `run(companies, settings)`: the summary, and the seen set and rows it leaves on file. */
  method Run(companies: seq<string>, seen0: set<string>, discover: Company -> Option<seq<string>>, describe: Describe)
    returns (summary: map<string, Counts>, seen: set<string>, written: seq<Row>)
    ensures RunState(summary, seen, written) == RunSpec(companies, seen0, discover, describe)
  {
    summary := map[];
    seen := seen0;
    written := [];
    for i := 0 to |companies|
      invariant RunState(summary, seen, written) == RunSpec(companies[..i], seen0, discover, describe)
    {
      var c := companies[i];
      assert companies[..i + 1][..i] == companies[..i];
      var co := CompanyMap(c);
      if co.None? {
        continue;
      }
      var result := ProcessCompany(c, discover(co.value), seen, describe);
      if result.Some? {
        summary := summary[c := result.value.counts];
        seen := result.value.seen;
        written := written + result.value.rows;
      }
    }
    assert companies[..|companies|] == companies;
  }

  /** Summary keys are requested names that `_company_map` knows. */
  lemma {:induction false} RunSummaryKeys(companies: seq<string>, seen0: set<string>, discover: Company -> Option<seq<string>>, describe: Describe)
    ensures forall c :: c in RunSpec(companies, seen0, discover, describe).summary ==> c in companies && CompanyMap(c).Some?
    decreases |companies|
  {
    if companies != [] {
      var prefix := companies[..|companies| - 1];
      RunSummaryKeys(prefix, seen0, discover, describe);
      assert forall c :: c in prefix ==> c in companies;
    }
  }

  /** A company that raises adds nothing, and the next company still runs from the same state. */
  lemma RunIsolatesFailure(st: RunState, c: string, next: string, discover: Company -> Option<seq<string>>, describe: Describe)
    requires CompanyMap(c).None? || ProcessOutcome(c, discover(CompanyMap(c).value), st.seen, describe).None?
    ensures RunStep(st, c, discover, describe) == st
    ensures RunStep(RunStep(st, c, discover, describe), next, discover, describe) == RunStep(st, next, discover, describe)
  {
  }

  /** The rows of one company appended to those before it keep the run's invariant. */
  lemma JoinRows(a: seq<Row>, b: seq<Row>, seen0: set<string>, seenMid: set<string>)
    requires seenMid == seen0 + RowUrls(a)
    requires DistinctRowUrls(a) && DistinctRowUrls(b)
    requires forall i :: 0 <= i < |a| ==> a[i].url !in seen0 && a[i].description != ""
    requires forall i :: 0 <= i < |b| ==> b[i].url !in seenMid && b[i].description != ""
    ensures RowUrls(a + b) == RowUrls(a) + RowUrls(b)
    ensures DistinctRowUrls(a + b)
    ensures forall i :: 0 <= i < |a + b| ==> (a + b)[i].url !in seen0 && (a + b)[i].description != ""
  {
    var all := a + b;
    assert RowUrls(all) == RowUrls(a) + RowUrls(b);
    forall i, j | 0 <= i < j < |all| ensures all[i].url != all[j].url {
      if i < |a| && j >= |a| {
        assert all[i].url in RowUrls(a);
        assert all[j] == b[j - |a|];
      }
    }
    forall i | 0 <= i < |all| ensures all[i].url !in seen0 && all[i].description != "" {
      if i >= |a| {
        assert all[i] == b[i - |a|];
      }
    }
  }

  /**
   * Across the whole run, the seen set only grows, by exactly the URLs of the
   * written rows, and no URL is written twice or was seen before the run.
   */
  lemma {:induction false} RunGrowsSeen(companies: seq<string>, seen0: set<string>, discover: Company -> Option<seq<string>>, describe: Describe)
    ensures var st := RunSpec(companies, seen0, discover, describe);
      && st.seen == seen0 + RowUrls(st.written)
      && DistinctRowUrls(st.written)
      && (forall i :: 0 <= i < |st.written| ==> st.written[i].url !in seen0 && st.written[i].description != "")
    decreases |companies|
  {
    if companies != [] {
      var prefix := companies[..|companies| - 1];
      var c := companies[|companies| - 1];
      RunGrowsSeen(prefix, seen0, discover, describe);
      var p := RunSpec(prefix, seen0, discover, describe);
      var co := CompanyMap(c);
      if co.Some? {
        var d := discover(co.value);
        if d.Some? && Walk(c, d.value, p.seen, describe).Some? {
          WalkKeepsInvariant(c, d.value, p.seen, describe);
          var w := Walk(c, d.value, p.seen, describe).value;
          JoinRows(p.written, w.rows, seen0, p.seen);
        }
      }
    }
  }
}
