/**
 * The catalogue table and the run lock (storage/dynamo.py).
 *
 * The table is a map from its primary key (partition key `company`, sort key
 * `url`) to the item stored there. Job postings live in one partition per
 * company; the run lock is an item in the reserved partition "__lock__", keyed
 * by the lock's name. The service's time source is the parameter `now`.
 */
module Store {
  import opened Wrappers
  import opened Text
  import Sorting

  /** Partition that holds lock items. */
  const LockPartition: string := "__lock__"

  /** `acquire_lock`'s default lease, in seconds. */
  const DefaultLockTtl: int := 5400

  datatype Key = Key(company: string, url: string)

  /** An item as a caller hands it to the writers: any field may be missing. */
  datatype Draft = Draft(
    title: Option<string>, description: Option<string>, category: Option<string>,
    postedAt: Option<int>, locCountry: Option<string>, locAdmin1: Option<string>,
    locCity: Option<string>, remote: Option<int>)

  /** What the table stores under a key. */
  datatype Record =
    | LockRecord(lockExpiresAt: int)
    | Posting(
        companyUrl: string, title: string, description: string, category: string,
        postedAt: int, locCountry: string, locAdmin1: string, locCity: string,
        remote: int, active: int, lastSeenAt: int)

  type Items = map<Key, Record>

  /** The record `_put_item` and `batch_upsert_items` write for one draft. */
  function Normalize(url: string, d: Draft, nowTs: int): Record {
    Posting(
      companyUrl := url,
      title := OrElse(d.title, ""),
      description := OrElse(d.description, ""),
      category := OrElse(d.category, "other"),
      postedAt := if d.postedAt.Some? && d.postedAt.value != 0 then d.postedAt.value else nowTs,
      locCountry := Upper(OrElse(d.locCountry, "")),
      locAdmin1 := OrElse(d.locAdmin1, ""),
      locCity := OrElse(d.locCity, ""),
      remote := if d.remote.Some? && d.remote.value != 0 then 1 else 0,
      active := 1,
      lastSeenAt := nowTs)
  }

  /** Every written posting is active, seen now, keyed by its own URL, with defaults filled in. */
  lemma NormalizedRecord(url: string, d: Draft, nowTs: int)
    ensures var r := Normalize(url, d, nowTs);
      && r.Posting? && r.active == 1 && r.lastSeenAt == nowTs && r.companyUrl == url
      && r.remote in {0, 1} && (r.remote == 1 <==> d.remote.Some? && d.remote.value != 0)
      && r.category != ""
      && (d.category.None? || d.category.value == "" ==> r.category == "other")
      && (d.postedAt.None? || d.postedAt.value == 0 ==> r.postedAt == nowTs)
      && (nowTs != 0 ==> r.postedAt != 0)
      && (forall i :: 0 <= i < |r.locCountry| ==> !IsLower(r.locCountry[i]))
  {
  }

  /** The condition of `acquire_lock`'s conditional put: no lock item, or one that has expired. */
  predicate Acquirable(items: Items, lockKey: string, now: int) {
    var k := Key(LockPartition, lockKey);
    k !in items || (items[k].LockRecord? && items[k].lockExpiresAt <= now)
  }

  /** The lock item written by a successful acquire. */
  function Locked(items: Items, lockKey: string, now: int, ttlSec: int): Items {
    items[Key(LockPartition, lockKey) := LockRecord(now + ttlSec)]
  }

  /** Sort-key values of one partition. */
  function PartitionUrls(items: Items, company: string): set<string> {
    set k | k in items && k.company == company :: k.url
  }

  /** Table after `batch_upsert_items(company, m)`: every URL of `m` overwritten by its normalised record. */
  function Upserted(items: Items, company: string, m: map<string, Draft>, nowTs: int): Items {
    items + Writes(company, m, m.Keys, nowTs)
  }

  /** The normalised records of the URLs in `done`, keyed in `company`'s partition. */
  function Writes(company: string, m: map<string, Draft>, done: set<string>, nowTs: int): Items
    requires done <= m.Keys
  {
    map u | u in done :: Key(company, u) := Normalize(u, m[u], nowTs)
  }

  /** Table after `finalize_company(company, discovered)`: the partition's undiscovered URLs removed. */
  function Finalized(items: Items, company: string, discovered: set<string>): Items {
    map k | k in items && (k.company != company || k.url in discovered) :: items[k]
  }

  /** The table with the URLs in `gone` deleted from `company`'s partition. */
  function Removed(items: Items, company: string, gone: set<string>): Items {
    map k | k in items && !(k.company == company && k.url in gone) :: items[k]
  }

  lemma RemovedStep(items: Items, company: string, gone: set<string>, u: string)
    ensures Removed(items, company, gone + {u}) == Removed(items, company, gone) - {Key(company, u)}
  {
  }

  /** Deleting the partition's undiscovered URLs one by one leaves the finalised table. */
  lemma RemovedIsFinalized(items: Items, company: string, discovered: set<string>)
    ensures Removed(items, company, PartitionUrls(items, company) - discovered) == Finalized(items, company, discovered)
  {
  }

  /** Position in an ascending listing of the first sort key strictly after `start`. */
  function FirstAfter(listing: seq<string>, start: string): (i: nat)
    ensures i <= |listing|
    ensures forall j :: 0 <= j < i ==> !Sorting.Below(start, listing[j])
    ensures i < |listing| ==> Sorting.Below(start, listing[i])
  {
    if listing == [] then 0
    else if Sorting.Below(start, listing[0]) then 0
    else 1 + FirstAfter(listing[1..], start)
  }

  /**
   * One page of a partition query, as the service returns it: at most
   * `pageLimit` sort keys after `start`, in ascending order, and the last of
   * them as `LastEvaluatedKey` when more remain.
   */
  function QueryPage(listing: seq<string>, start: Option<string>, pageLimit: nat): (r: (seq<string>, Option<string>))
  {
    var from := if start.Some? then FirstAfter(listing, start.value) else 0;
    var to := if from + pageLimit < |listing| then from + pageLimit else |listing|;
    (listing[from..to], if to < |listing| && from < to then Some(listing[to - 1]) else None)
  }

  lemma FirstAfterOwnKey(listing: seq<string>, p: nat)
    requires Sorting.StrictlySorted(listing) && p < |listing|
    ensures FirstAfter(listing, listing[p]) == p + 1
  {
    var i := FirstAfter(listing, listing[p]);
    if i <= p {
      if i == p {
        Sorting.BelowIrreflexive(listing[p]);
      } else {
        Sorting.BelowAsymmetric(listing[i], listing[p]);
      }
      assert false;
    }
  }

  /** The elements of a listing, as a set. */
  function Elems(s: seq<string>): set<string> {
    set u | u in s
  }

  lemma ElemsAppend(a: seq<string>, b: seq<string>)
    ensures Elems(a + b) == Elems(a) + Elems(b)
  {
  }

  lemma ElemsOfSlices(s: seq<string>, i: nat, j: nat)
    requires i <= j <= |s|
    ensures Elems(s[..j]) == Elems(s[..i]) + Elems(s[i..j])
  {
    assert s[..i] + s[i..j] == s[..j];
    ElemsAppend(s[..i], s[i..j]);
  }

  /** Resuming after the last key of a page continues at the next position. */
  lemma QueryPageResumes(listing: seq<string>, pos: nat, pageLimit: nat)
    requires Sorting.StrictlySorted(listing) && 0 < pos < |listing| && pageLimit > 0
    ensures var next := if pos + pageLimit < |listing| then pos + pageLimit else |listing|;
      QueryPage(listing, Some(listing[pos - 1]), pageLimit)
        == (listing[pos..next], if next < |listing| then Some(listing[next - 1]) else None)
  {
    FirstAfterOwnKey(listing, pos - 1);
  }

  /**
   * The paging loop of `list_urls` over a partition whose ascending listing is
   * `listing`: query page after page, passing each page's `LastEvaluatedKey`
   * back as `ExclusiveStartKey`, until none is returned. `pageSize(start)` is
   * how many keys the service puts on the page it answers for `start` (a page
   * size it picks per request, bounded by `Limit` or the 1 MB cap), never zero.
   */
  method ScanPages(listing: seq<string>, pageSize: Option<string> -> nat) returns (urls: set<string>)
    requires Sorting.StrictlySorted(listing)
    requires forall start :: pageSize(start) > 0
    ensures urls == Elems(listing)
  {
    var size := pageSize(None);
    var first := QueryPage(listing, None, size);
    FirstPage(listing, size);
    var last := first.1;
    urls := Elems(first.0);
    ghost var pos := |first.0|;
    while last.Some?
      invariant pos <= |listing|
      invariant last.Some? ==> 0 < pos
      invariant urls == Elems(listing[..pos])
      invariant last.Some? <==> pos < |listing|
      invariant last.Some? ==> last.value == listing[pos - 1]
      decreases |listing| - pos
    {
      size := pageSize(last);
      var page := QueryPage(listing, last, size);
      PageStep(listing, last, pos, size);
      urls := urls + Elems(page.0);
      last := page.1;
      pos := pos + |page.0|;
    }
    assert listing[..pos] == listing;
  }

  /** The first page is a prefix of the listing. */
  lemma FirstPage(listing: seq<string>, pageLimit: nat)
    requires pageLimit > 0
    ensures var page := QueryPage(listing, None, pageLimit);
      var n := |page.0|;
      && n <= |listing|
      && page.0 == listing[..n]
      && (page.1.Some? <==> n < |listing|)
      && (page.1.Some? ==> 0 < n && page.1.value == listing[n - 1])
  {
  }

  lemma ElemsOf(listing: seq<string>, s: set<string>)
    requires forall y :: y in listing <==> y in s
    ensures Elems(listing) == s
  {
  }

  /** A page resumed after `listing[pos - 1]` extends the keys seen to a longer prefix of the listing. */
  lemma PageStep(listing: seq<string>, start: Option<string>, pos: nat, pageLimit: nat)
    requires Sorting.StrictlySorted(listing) && 0 < pos < |listing| && pageLimit > 0
    requires start == Some(listing[pos - 1])
    ensures var page := QueryPage(listing, start, pageLimit);
      var next := pos + |page.0|;
      && pos < next <= |listing|
      && Elems(listing[..next]) == Elems(listing[..pos]) + Elems(page.0)
      && (page.1.Some? <==> next < |listing|)
      && (page.1.Some? ==> page.1.value == listing[next - 1])
  {
    var next := if pos + pageLimit < |listing| then pos + pageLimit else |listing|;
    QueryPageResumes(listing, pos, pageLimit);
    ElemsOfSlices(listing, pos, next);
  }

  lemma WritesStep(company: string, m: map<string, Draft>, done: set<string>, u: string, nowTs: int)
    requires done <= m.Keys && u in m
    ensures Writes(company, m, done + {u}, nowTs) == Writes(company, m, done, nowTs)[Key(company, u) := Normalize(u, m[u], nowTs)]
  {
  }

  lemma UpdateUnion(a: Items, w: Items, k: Key, r: Record)
    ensures (a + w)[k := r] == a + w[k := r]
  {
  }

  class Table {
    var items: Items

    constructor ()
      ensures items == map[]
    {
      items := map[];
    }

    /** `acquire_lock`: a conditional put that succeeds iff the lock is absent or expired at `now`. */
    method AcquireLock(lockKey: string, ttlSec: int, now: int) returns (ok: bool)
      modifies this
      ensures ok == Acquirable(old(items), lockKey, now)
      ensures items == if ok then Locked(old(items), lockKey, now, ttlSec) else old(items)
    {
      ok := Acquirable(items, lockKey, now);
      if ok {
        items := items[Key(LockPartition, lockKey) := LockRecord(now + ttlSec)];
      }
    }

    /** `release_lock`: delete the lock item; deleting an absent key is not an error. */
    method ReleaseLock(lockKey: string)
      modifies this
      ensures items == old(items) - {Key(LockPartition, lockKey)}
    {
      items := items - {Key(LockPartition, lockKey)};
    }

    /** `list_urls`: every sort key of the partition, read through the paged query. */
    method ListUrls(company: string, pageSize: Option<string> -> nat) returns (urls: set<string>)
      requires forall start :: pageSize(start) > 0
      ensures urls == PartitionUrls(items, company)
    {
      var listing := Sorting.SortedList(PartitionUrls(items, company));
      urls := ScanPages(listing, pageSize);
      ElemsOf(listing, PartitionUrls(items, company));
    }

    /** `_put_item`: overwrite one key with the normalised record. */
    method PutItem(company: string, url: string, d: Draft, nowTs: int)
      modifies this
      ensures items == old(items)[Key(company, url) := Normalize(url, d, nowTs)]
    {
      items := items[Key(company, url) := Normalize(url, d, nowTs)];
    }

    /** `batch_upsert_items`: put every entry of `urlToItem`; an empty map writes nothing. */
    method BatchUpsertItems(company: string, urlToItem: map<string, Draft>, nowTs: int)
      modifies this
      ensures items == Upserted(old(items), company, urlToItem, nowTs)
    {
      var pending := urlToItem.Keys;
      ghost var done: set<string> := {};
      while pending != {}
        invariant done + pending == urlToItem.Keys && done !! pending
        invariant items == old(items) + Writes(company, urlToItem, done, nowTs)
        decreases |pending|
      {
        var u :| u in pending;
        var k := Key(company, u);
        var r := Normalize(u, urlToItem[u], nowTs);
        WritesStep(company, urlToItem, done, u, nowTs);
        UpdateUnion(old(items), Writes(company, urlToItem, done, nowTs), k, r);
        items := items[k := r];
        done := done + {u};
        pending := pending - {u};
      }
    }

    /** The `batch_writer` block of `finalize_company`: one delete per URL of `urls`. */
    method DeleteUrls(company: string, urls: set<string>) returns (deleted: nat)
      modifies this
      ensures deleted == |urls|
      ensures items == Removed(old(items), company, urls)
    {
      deleted := 0;
      var pending := urls;
      ghost var gone: set<string> := {};
      while pending != {}
        invariant gone + pending == urls && gone !! pending
        invariant deleted == |gone|
        invariant items == Removed(old(items), company, gone)
        decreases |pending|
      {
        var u :| u in pending;
        RemovedStep(old(items), company, gone, u);
        items := items - {Key(company, u)};
        deleted := deleted + 1;
        pending := pending - {u};
        gone := gone + {u};
      }
    }

    /**
     * `finalize_company`: delete every stored URL of `company` that is not in
     * `discovered`, and report how many were deleted.
     */
    method FinalizeCompany(company: string, discovered: set<string>, pageSize: Option<string> -> nat) returns (deleted: nat)
      requires forall start :: pageSize(start) > 0
      modifies this
      ensures deleted == |PartitionUrls(old(items), company) - discovered|
      ensures items == Finalized(old(items), company, discovered)
    {
      var existing := ListUrls(company, pageSize);
      RemovedIsFinalized(items, company, discovered);
      deleted := DeleteUrls(company, existing - discovered);
    }
  }

  /** Two acquires of one lock at one `now` cannot both succeed while the lease is positive. */
  lemma MutualExclusion(items: Items, lockKey: string, now: int, ttlSec: int)
    requires ttlSec > 0
    ensures !Acquirable(Locked(items, lockKey, now, ttlSec), lockKey, now)
  {
  }

  /** `acquire_lock(key)` with its default lease also shuts out a second acquire at the same instant. */
  lemma DefaultLeaseExcludes(items: Items, lockKey: string, now: int)
    ensures !Acquirable(Locked(items, lockKey, now, DefaultLockTtl), lockKey, now)
  {
    MutualExclusion(items, lockKey, now, DefaultLockTtl);
  }

  /** A lock whose expiry has passed can be taken again without being released. */
  lemma ExpiredLockReacquirable(items: Items, lockKey: string, expiresAt: int, now: int)
    requires Key(LockPartition, lockKey) in items && items[Key(LockPartition, lockKey)] == LockRecord(expiresAt)
    requires expiresAt <= now
    ensures Acquirable(items, lockKey, now)
  {
  }

  /** Upserting the same map twice at one `now` gives the table upserting it once gives. */
  lemma UpsertIdempotent(items: Items, company: string, m: map<string, Draft>, nowTs: int)
    ensures Upserted(Upserted(items, company, m, nowTs), company, m, nowTs) == Upserted(items, company, m, nowTs)
  {
  }

  /** Upserting leaves every key outside the map's URLs as it was, and stores each URL's normalised record. */
  lemma UpsertFrame(items: Items, company: string, m: map<string, Draft>, nowTs: int, k: Key)
    ensures var after := Upserted(items, company, m, nowTs);
      && (k.company == company && k.url in m ==> k in after && after[k] == Normalize(k.url, m[k.url], nowTs))
      && (!(k.company == company && k.url in m) ==> (k in after <==> k in items) && (k in items ==> after[k] == items[k]))
  {
  }

  /** After finalising, the partition holds exactly its previous URLs that were discovered. */
  lemma FinalizeKeepsDiscovered(items: Items, company: string, discovered: set<string>)
    ensures PartitionUrls(Finalized(items, company, discovered), company) == PartitionUrls(items, company) * discovered
  {
  }

  /** Finalising one company leaves every other partition, the lock partition included, untouched. */
  lemma FinalizeFrame(items: Items, company: string, discovered: set<string>, k: Key)
    requires k.company != company
    ensures var after := Finalized(items, company, discovered);
      (k in after <==> k in items) && (k in items ==> after[k] == items[k])
  {
  }

  /** Finalising with nothing discovered empties the company's partition. */
  lemma FinalizeNothingDiscovered(items: Items, company: string)
    ensures PartitionUrls(Finalized(items, company, {}), company) == {}
  {
  }
}
