/**
 * Netflix's discovery (scraper/companies/netflix.py): the harvester that
 * walks the JSON bodies of the board's network responses for job detail
 * URLs, and the tail of `discover` that makes every found URL absolute
 * against the Eightfold board and sorts them.
 *
 * The browser session that captures those bodies is not part of this model;
 * `Normalize` takes the set of URLs it and the anchor fallback produced.
 */
module Netflix {
  import opened Wrappers
  import opened Text
  import opened Json
  import opened Sorting
  import Urls

  const Eightfold: string := "https://netflix.eightfold.ai"
  /** The Eightfold detail path. */
  const Href: string := "/careers/job/"
  /** The keys whose digit-only value names a position. */
  const IdKeys: seq<string> := ["id", "jobId", "positionId", "positionID", "position_id"]

  /** `url if url.startswith("http") else urljoin(BASE_EIGHTFOLD, url)`. */
  function Absolute(u: string): string {
    if StartsWith(u, "http") then u else Urls.Join(Eightfold, u)
  }

  /** A string value mentioning the detail path contributes itself, stripped and made absolute. */
  function DirectOf(m: Member): set<string> {
    if m.value.JStr? && Contains(m.value.s, Href) then {Absolute(Strip(m.value.s))} else {}
  }

  /** The first loop over `node.items()`, for the members before `|ms|`. */
  function DirectUrls(ms: seq<Member>): set<string> {
    if ms == [] then {} else DirectUrls(ms[..|ms| - 1]) + DirectOf(ms[|ms| - 1])
  }

  /**
   * `s = str(v).strip()` for an `int` or `str` value, when `s.isdigit()`. A
   * negative number starts with '-', and `str(True)` is "True": neither is digits.
   */
  function IdDigits(v: Option<Json>): Option<string> {
    match v
    case Some(JNum(n)) => if n >= 0 then Some(NatToString(n)) else None
    case Some(JStr(t)) => if IsDigits(Strip(t)) then Some(Strip(t)) else None
    case _ => None
  }

  /** The detail URL an id names. */
  function IdUrl(digits: string): string {
    Eightfold + Href + digits
  }

  function IdUrlOf(ms: seq<Member>, key: string): set<string> {
    match IdDigits(Get(ms, key))
    case Some(d) => {IdUrl(d)}
    case None => {}
  }

  /** The loop over the id keys, for the first `n` of them. */
  function IdUrls(ms: seq<Member>, n: nat): set<string>
    requires n <= |IdKeys|
  {
    if n == 0 then {} else IdUrls(ms, n - 1) + IdUrlOf(ms, IdKeys[n - 1])
  }

  /** `_extract_job_urls_from_json(node)`: what `rec(node)` adds to the shared set. */
  function Harvest(j: Json): set<string>
    decreases j, 1
  {
    match j
    case JObj(ms) => DirectUrls(ms) + IdUrls(ms, |IdKeys|) + ChildUrls(j, |ms|)
    case JArr(xs) => ItemUrls(j, |xs|)
    case _ => {}
  }

  /** What the recursion into the first `n` values of a dict adds. */
  function ChildUrls(j: Json, n: nat): set<string>
    requires j.JObj? && n <= |j.members|
    decreases j, 0, n
  {
    if n == 0 then {} else ChildUrls(j, n - 1) + Harvest(j.members[n - 1].value)
  }

  /** What the recursion into the first `n` items of a list adds. */
  function ItemUrls(j: Json, n: nat): set<string>
    requires j.JArr? && n <= |j.items|
    decreases j, 0, n
  {
    if n == 0 then {} else ItemUrls(j, n - 1) + Harvest(j.items[n - 1])
  }

  /** The shared `urls` set that the nested `rec` closure adds to. */
  class Collector {
    var urls: set<string>

    constructor()
      ensures urls == {}
    {
      urls := {};
    }

    /** `rec(node)`. */
    method Rec(node: Json)
      modifies this
      ensures urls == old(urls) + Harvest(node)
      decreases node, 1
    {
      if node.JObj? {
        AddDirect(node.members);
        AddIds(node.members);
        AddChildren(node);
      } else if node.JArr? {
        AddItems(node);
      }
    }

    /** The loop over `node.items()` that picks up string values naming the detail path. */
    method AddDirect(ms: seq<Member>)
      modifies this
      ensures urls == old(urls) + DirectUrls(ms)
    {
      for i := 0 to |ms|
        invariant urls == old(urls) + DirectUrls(ms[..i])
      {
        assert ms[..i + 1][..i] == ms[..i];
        var v := ms[i].value;
        if v.JStr? && Contains(v.s, Href) {
          urls := urls + {Absolute(Strip(v.s))};
        }
      }
      assert ms[..|ms|] == ms;
    }

    /** The loop over the id keys. */
    method AddIds(ms: seq<Member>)
      modifies this
      ensures urls == old(urls) + IdUrls(ms, |IdKeys|)
    {
      for k := 0 to |IdKeys|
        invariant urls == old(urls) + IdUrls(ms, k)
      {
        var d := IdDigits(Get(ms, IdKeys[k]));
        if d.Some? {
          urls := urls + {Eightfold + Href + d.value};
        }
      }
    }

    /** `for v in node.values(): rec(v)`. */
    method AddChildren(node: Json)
      requires node.JObj?
      modifies this
      ensures urls == old(urls) + ChildUrls(node, |node.members|)
      decreases node, 0
    {
      for i := 0 to |node.members|
        invariant urls == old(urls) + ChildUrls(node, i)
      {
        assert node.members[i] in node.members;
        Rec(node.members[i].value);
      }
    }

    /** `for it in node: rec(it)`. */
    method AddItems(node: Json)
      requires node.JArr?
      modifies this
      ensures urls == old(urls) + ItemUrls(node, |node.items|)
      decreases node, 0
    {
      for i := 0 to |node.items|
        invariant urls == old(urls) + ItemUrls(node, i)
      {
        Rec(node.items[i]);
      }
    }
  }

  /** `_extract_job_urls_from_json(data)`. */
  method ExtractJobUrls(data: Json) returns (urls: set<string>)
    ensures urls == Harvest(data)
  {
    var c := new Collector();
    c.Rec(data);
    urls := c.urls;
  }

  // ---------------------------------------------------------------------
  // What the harvester promises
  // ---------------------------------------------------------------------

  /** A scalar holds no URLs. */
  lemma HarvestScalar(j: Json)
    requires !j.JObj? && !j.JArr?
    ensures Harvest(j) == {}
  {
  }

  lemma {:induction false} ItemUrlsUnion(j: Json, n: nat)
    requires j.JArr? && n <= |j.items|
    ensures forall y :: y in ItemUrls(j, n) <==> exists i :: 0 <= i < n && y in Harvest(j.items[i])
  {
    if n > 0 {
      ItemUrlsUnion(j, n - 1);
      var last := Harvest(j.items[n - 1]);
      assert ItemUrls(j, n) == ItemUrls(j, n - 1) + last;
      forall y | y in last ensures exists i :: 0 <= i < n && y in Harvest(j.items[i]) {
        assert y in Harvest(j.items[n - 1]);
      }
    }
  }

  /** A list's URLs are the union of its items' URLs. */
  lemma HarvestList(xs: seq<Json>)
    ensures forall y :: y in Harvest(JArr(xs)) <==> exists i :: 0 <= i < |xs| && y in Harvest(xs[i])
  {
    ItemUrlsUnion(JArr(xs), |xs|);
  }

  lemma {:induction false} ChildUrlsCover(j: Json, n: nat, i: nat)
    requires j.JObj? && i < n <= |j.members|
    ensures Harvest(j.members[i].value) <= ChildUrls(j, n)
  {
    if i < n - 1 {
      ChildUrlsCover(j, n - 1, i);
    }
  }

  /** A dict's URLs include the URLs of each of its values. */
  lemma HarvestDictValues(ms: seq<Member>, i: nat)
    requires i < |ms|
    ensures Harvest(ms[i].value) <= Harvest(JObj(ms))
  {
    ChildUrlsCover(JObj(ms), |ms|, i);
  }

  lemma {:induction false} DirectUrlsUnion(ms: seq<Member>)
    ensures forall y :: y in DirectUrls(ms) <==> exists i :: 0 <= i < |ms| && y in DirectOf(ms[i])
  {
    if ms != [] {
      var init := ms[..|ms| - 1];
      DirectUrlsUnion(init);
      forall y | y in DirectUrls(ms) ensures exists i :: 0 <= i < |ms| && y in DirectOf(ms[i]) {
        if y in DirectUrls(init) {
          var i :| 0 <= i < |init| && y in DirectOf(init[i]);
          assert init[i] == ms[i];
        } else {
          assert y in DirectOf(ms[|ms| - 1]);
        }
      }
      forall y | exists i :: 0 <= i < |ms| && y in DirectOf(ms[i]) ensures y in DirectUrls(ms) {
        var i :| 0 <= i < |ms| && y in DirectOf(ms[i]);
        if i < |ms| - 1 {
          assert init[i] == ms[i];
        }
      }
    }
  }

  lemma {:induction false} IdUrlsUnion(ms: seq<Member>, n: nat)
    requires n <= |IdKeys|
    ensures forall y :: y in IdUrls(ms, n) <==> exists k :: 0 <= k < n && y in IdUrlOf(ms, IdKeys[k])
  {
    if n > 0 {
      IdUrlsUnion(ms, n - 1);
      var last := IdUrlOf(ms, IdKeys[n - 1]);
      assert IdUrls(ms, n) == IdUrls(ms, n - 1) + last;
      forall y | y in last ensures exists k :: 0 <= k < n && y in IdUrlOf(ms, IdKeys[k]) {
        assert y in IdUrlOf(ms, IdKeys[n - 1]);
      }
    }
  }

  lemma {:induction false} ChildUrlsUnion(j: Json, n: nat)
    requires j.JObj? && n <= |j.members|
    ensures forall y :: y in ChildUrls(j, n) <==> exists i :: 0 <= i < n && y in Harvest(j.members[i].value)
  {
    if n > 0 {
      ChildUrlsUnion(j, n - 1);
      var prev := ChildUrls(j, n - 1);
      var last := Harvest(j.members[n - 1].value);
      assert ChildUrls(j, n) == prev + last;
      forall y | y in prev + last ensures exists i :: 0 <= i < n && y in Harvest(j.members[i].value) {
        if y !in prev {
          assert y in Harvest(j.members[n - 1].value);
        }
      }
    }
  }

  /**
   * A dict's URLs are exactly those its string values name, those its id keys
   * name, and those of its values.
   */
  lemma HarvestDict(ms: seq<Member>)
    ensures forall y :: y in Harvest(JObj(ms)) <==>
      || (exists i :: 0 <= i < |ms| && y in DirectOf(ms[i]))
      || (exists k :: 0 <= k < |IdKeys| && y in IdUrlOf(ms, IdKeys[k]))
      || (exists i :: 0 <= i < |ms| && y in Harvest(ms[i].value))
  {
    DirectUrlsUnion(ms);
    IdUrlsUnion(ms, |IdKeys|);
    ChildUrlsUnion(JObj(ms), |ms|);
  }

  lemma {:induction false} DirectUrlsCover(ms: seq<Member>, i: nat)
    requires i < |ms|
    ensures DirectOf(ms[i]) <= DirectUrls(ms)
  {
    if i < |ms| - 1 {
      DirectUrlsCover(ms[..|ms| - 1], i);
    }
  }

  /**
   * A string value that contains the detail path contributes its stripped
   * form, as it is when it starts with "http" and resolved against the board otherwise.
   */
  lemma DirectRule(ms: seq<Member>, i: nat, v: string)
    requires i < |ms| && ms[i].value == JStr(v) && Contains(v, Href)
    ensures var s := Strip(v);
      (if StartsWith(s, "http") then s else Urls.Join(Eightfold, s)) in Harvest(JObj(ms))
  {
    DirectUrlsCover(ms, i);
  }

  lemma {:induction false} IdUrlsCover(ms: seq<Member>, n: nat, k: nat)
    requires k < n <= |IdKeys|
    ensures IdUrlOf(ms, IdKeys[k]) <= IdUrls(ms, n)
  {
    if k < n - 1 {
      IdUrlsCover(ms, n - 1, k);
    }
  }

  /** An id key whose value reads as digits yields the detail URL of those digits. */
  lemma IdRule(ms: seq<Member>, k: nat, d: string)
    requires k < |IdKeys| && IdDigits(Get(ms, IdKeys[k])) == Some(d)
    ensures IsDigits(d) && IdUrl(d) in Harvest(JObj(ms))
  {
    IdUrlsCover(ms, |IdKeys|, k);
  }

  lemma {:induction false} IdUrlsShape(ms: seq<Member>, n: nat)
    requires n <= |IdKeys|
    ensures forall y :: y in IdUrls(ms, n) ==> exists d :: IsDigits(d) && y == Eightfold + Href + d
  {
    if n > 0 {
      IdUrlsShape(ms, n - 1);
      var key := IdKeys[n - 1];
      var got := IdDigits(Get(ms, key));
      if got.Some? {
        assert IsDigits(got.value);
      }
    }
  }

  /** An id-derived URL is the board, the detail path and a non-empty run of digits. */
  lemma IdUrlsAreDetailUrls(ms: seq<Member>)
    ensures forall y :: y in IdUrls(ms, |IdKeys|) ==>
      exists d :: IsDigits(d) && y == Eightfold + Href + d && Contains(y, Href)
  {
    IdUrlsShape(ms, |IdKeys|);
    forall y | y in IdUrls(ms, |IdKeys|)
      ensures exists d :: IsDigits(d) && y == Eightfold + Href + d && Contains(y, Href)
    {
      var d :| IsDigits(d) && y == Eightfold + Href + d;
      assert OccursAt(y, Href, |Eightfold|) by {
        assert y[|Eightfold|..|Eightfold| + |Href|] == Href;
      }
    }
  }

  // ---------------------------------------------------------------------
  // Normalisation (the tail of `discover`)
  // ---------------------------------------------------------------------

  /** Making a URL absolute twice changes nothing the second time. */
  lemma AbsoluteIdempotent(u: string)
    ensures Absolute(Absolute(u)) == Absolute(u)
  {
    if !StartsWith(u, "http") {
      var w := Urls.Join(Eightfold, u);
      assert Absolute(u) == w;
      BoardIsHttp();
      Urls.JoinKeepsHttp(Eightfold, u);
      if StartsWith(w, "http") {
        assert Absolute(w) == w;
      } else {
        assert w == u;
      }
    }
  }

  lemma BoardIsHttp()
    ensures StartsWith(Eightfold, "http")
  {
    assert Eightfold[..4] == "http";
  }

  /** The absolute forms of the found URLs. */
  function Normalized(urls: set<string>): set<string> {
    set u | u in urls :: Absolute(u)
  }

  /** The `for url in urls` loop followed by `sorted(set(normalized))`. */
  method Normalize(urls: set<string>) returns (r: seq<string>)
    ensures StrictlySorted(r)
    ensures forall y :: y in r <==> y in Normalized(urls)
  {
    var normalized: seq<string> := [];
    var rest := urls;
    while rest != {}
      invariant rest <= urls
      invariant forall y :: y in normalized <==> exists u :: u in urls && u !in rest && y == Absolute(u)
      decreases |rest|
    {
      var url :| url in rest;
      normalized := normalized + [Absolute(url)];
      rest := rest - {url};
    }
    r := SortedList(set y | y in normalized);
  }

  /** Normalising a second time leaves the result alone. */
  lemma NormalizedIdempotent(urls: set<string>)
    ensures Normalized(Normalized(urls)) == Normalized(urls)
  {
    forall y | y in Normalized(urls) ensures Absolute(y) == y {
      var u :| u in urls && y == Absolute(u);
      AbsoluteIdempotent(u);
    }
  }
}
