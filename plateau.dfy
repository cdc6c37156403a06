/**
 * The "collect until the count plateaus" loop that both browser-driven
 * scrapers run (scraper/companies/google.py `_exhaust_results_on_page`,
 * scraper/companies/meta.py `discover`): each pass adds what the page shows
 * now to the accumulated set, and the loop ends after `limit` passes or at
 * the first pass after which `len(urls)` equals the count of the pass before
 * (the first pass compares against -1, so it never ends the loop).
 *
 * What the page shows on pass `k` is the parameter `snaps(k)`.
 */
module Plateau {
  import opened Wrappers

  /** One navigation: `page.goto` raised, or the page's anchors (their `href` attributes) on each pass. */
  datatype Visit = Raises | Shows(passes: nat -> seq<Option<string>>)

  /** The URLs accumulated by the first `n` passes. */
  function Gathered(snaps: nat -> set<string>, n: nat): set<string> {
    if n == 0 then {} else Gathered(snaps, n - 1) + snaps(n - 1)
  }

  /** `last_count` when pass `k` starts: -1 before the first pass, then the size after pass `k - 1`. */
  function LastCount(snaps: nat -> set<string>, k: nat): int {
    if k == 0 then -1 else |Gathered(snaps, k)|
  }

  /** The number of passes made, counting from pass `k` on, when at most `limit` passes are allowed. */
  function PassesFrom(limit: int, snaps: nat -> set<string>, k: nat): nat
    decreases limit - k
  {
    if k >= limit then k
    else if |Gathered(snaps, k + 1)| == LastCount(snaps, k) then k + 1
    else PassesFrom(limit, snaps, k + 1)
  }

  /** The number of passes the loop makes. */
  function Passes(limit: int, snaps: nat -> set<string>): nat {
    PassesFrom(limit, snaps, 0)
  }

  /** What the loop returns. */
  function Plateaued(limit: int, snaps: nat -> set<string>): set<string> {
    Gathered(snaps, Passes(limit, snaps))
  }

  /** A URL is gathered exactly when one of the passes saw it. */
  lemma {:induction false} GatheredContents(snaps: nat -> set<string>, n: nat, y: string)
    ensures y in Gathered(snaps, n) <==> exists i :: 0 <= i < n && y in snaps(i)
  {
    if n > 0 {
      GatheredContents(snaps, n - 1, y);
      if y in snaps(n - 1) {
        assert 0 <= n - 1 < n;
      }
    }
  }

  /** The accumulated set only grows. */
  lemma {:induction false} GatheredGrows(snaps: nat -> set<string>, m: nat, n: nat)
    requires m <= n
    ensures Gathered(snaps, m) <= Gathered(snaps, n)
    decreases n - m
  {
    if m < n {
      GatheredGrows(snaps, m, n - 1);
    }
  }

  lemma {:induction false} SubsetSize(a: set<string>, b: set<string>)
    requires a <= b
    ensures |a| <= |b|
    decreases |b|
  {
    if a != {} {
      var x :| x in a;
      SubsetSize(a - {x}, b - {x});
    }
  }

  /** Since the set only grows, an unchanged size means nothing was added. */
  lemma SameSizeNothingNew(a: set<string>, b: set<string>)
    requires a <= b && |a| == |b|
    ensures a == b
  {
    if a != b {
      var x :| x in b && x !in a;
      SubsetSize(a, b - {x});
    }
  }

  /** From pass `k` on: no more passes than `limit` allows, and at least one more when the limit allows one. */
  lemma {:induction false} PassesFromBounds(limit: int, snaps: nat -> set<string>, k: nat)
    ensures k >= limit ==> PassesFrom(limit, snaps, k) == k
    ensures k < limit ==> k < PassesFrom(limit, snaps, k) <= limit
    decreases limit - k
  {
    if k < limit && |Gathered(snaps, k + 1)| != LastCount(snaps, k) {
      PassesFromBounds(limit, snaps, k + 1);
    }
  }

  /** From pass `k` on, every pass but the last (and the first) added a new URL. */
  lemma {:induction false} PassesFromGrowth(limit: int, snaps: nat -> set<string>, k: nat, j: nat)
    requires k <= j && 1 <= j < PassesFrom(limit, snaps, k) - 1
    ensures Gathered(snaps, j) < Gathered(snaps, j + 1)
    decreases limit - k
  {
    GatheredGrows(snaps, k, k + 1);
    assert k < limit && |Gathered(snaps, k + 1)| != LastCount(snaps, k);
    assert PassesFrom(limit, snaps, k) == PassesFrom(limit, snaps, k + 1);
    if j == k {
      assert Gathered(snaps, k) != Gathered(snaps, k + 1);
    } else {
      PassesFromGrowth(limit, snaps, k + 1, j);
    }
  }

  /** A run that ends before the limit ends on a pass, not the first, that added nothing. */
  lemma {:induction false} PassesFromStop(limit: int, snaps: nat -> set<string>, k: nat)
    ensures var p := PassesFrom(limit, snaps, k);
      p < limit ==> k < p && 2 <= p && Gathered(snaps, p - 1) == Gathered(snaps, p)
    decreases limit - k
  {
    if k < limit {
      GatheredGrows(snaps, k, k + 1);
      if |Gathered(snaps, k + 1)| == LastCount(snaps, k) {
        SameSizeNothingNew(Gathered(snaps, k), Gathered(snaps, k + 1));
      } else {
        PassesFromStop(limit, snaps, k + 1);
        assert PassesFrom(limit, snaps, k) == PassesFrom(limit, snaps, k + 1);
      }
    }
  }

  /**
   * The loop makes no pass when `limit <= 0` and between one and `limit`
   * passes otherwise; each pass after the first and before the last added a
   * URL, and it stops before the limit only after a pass that added none.
   */
  lemma PassesRule(limit: int, snaps: nat -> set<string>)
    ensures var p := Passes(limit, snaps);
      && (limit <= 0 ==> p == 0)
      && (limit > 0 ==> 1 <= p <= limit)
      && (forall j :: 1 <= j < p - 1 ==> Gathered(snaps, j) < Gathered(snaps, j + 1))
      && (p < limit ==> 2 <= p && Gathered(snaps, p - 1) == Gathered(snaps, p))
  {
    PassesFromBounds(limit, snaps, 0);
    PassesFromStop(limit, snaps, 0);
    forall j | 1 <= j < Passes(limit, snaps) - 1
      ensures Gathered(snaps, j) < Gathered(snaps, j + 1)
    {
      PassesFromGrowth(limit, snaps, 0, j);
    }
  }

  /** What the loop returns is everything some pass saw. */
  lemma PlateauedContents(limit: int, snaps: nat -> set<string>, y: string)
    ensures y in Plateaued(limit, snaps) <==> exists i :: 0 <= i < Passes(limit, snaps) && y in snaps(i)
  {
    GatheredContents(snaps, Passes(limit, snaps), y);
  }

  /** The values present in `os`: what a `for` loop adding each `Some` to a set ends with. */
  function Present(os: seq<Option<string>>): set<string> {
    if os == [] then {}
    else Present(os[..|os| - 1]) + (if os[|os| - 1].Some? then {os[|os| - 1].value} else {})
  }

  /** Adding one more value: what one more turn of the `for` loop adds. */
  lemma PresentSnoc(os: seq<Option<string>>, i: nat)
    requires i < |os|
    ensures Present(os[..i + 1]) == Present(os[..i]) + (if os[i].Some? then {os[i].value} else {})
  {
    assert os[..i + 1][..i] == os[..i];
  }

  lemma {:induction false} PresentContents(os: seq<Option<string>>, y: string)
    ensures y in Present(os) <==> exists i :: 0 <= i < |os| && os[i] == Some(y)
  {
    if os != [] {
      var init := os[..|os| - 1];
      PresentContents(init, y);
      if exists i :: 0 <= i < |init| && init[i] == Some(y) {
        var i :| 0 <= i < |init| && init[i] == Some(y);
        assert os[i] == init[i];
      }
      if exists i :: 0 <= i < |os| && os[i] == Some(y) {
        var i :| 0 <= i < |os| && os[i] == Some(y);
        if i < |init| {
          assert init[i] == os[i];
        }
      }
    }
  }
}
