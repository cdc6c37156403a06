/**
 * How `parse_location_fields` settles a posting's (country, admin1, city,
 * remote) from what a page offers, in order of trust: the JSON-LD
 * JobPosting's addresses, the Eightfold JSON embedded in the page, the
 * words "United States"/"United Kingdom" near the top of the page, and three
 * comma-separated location crumbs. Each later source is consulted only
 * while no country is known. The page's parts arrive already extracted.
 */
module Location {
  import opened Wrappers
  import opened Text
  import opened Json
  import Parsing

  /** `(country_iso2, admin1, city, remote_flag)`. */
  datatype Loc = Loc(country: string, admin1: string, city: string, remote: int)

  /** What the page offers, already extracted from its HTML. */
  datatype Page = Page(
    jsonLd: seq<Member>,          // the first JSON-LD JobPosting, `{}` when there is none
    applicable: Option<Json>,     // the decoded `"all_applicable_locations"` array, if found and decodable
    positions: Option<Json>,      // the decoded first `"positions"` entry, if found and decodable
    remoteHint: bool,             // the page contains `"work_location_option":"remote"` (any case)
    headText: string,             // the h1 text joined with the first 500 characters of page text
    locLabel: Option<string>,        // text of the first element whose id mentions "location"
    icon: Option<string>,         // text of `div.location-icon ul.association-content li`
    dimension8: Option<string>)   // the value of an analytics `"dimension8":"…"` field

  /** A country field as the merge keeps it: empty, or an ISO code. */
  predicate CountryOk(c: string) { c == "" || Parsing.IsCountryCode(c) }

  predicate Shaped(l: Loc) { CountryOk(l.country) && (l.remote == 0 || l.remote == 1) }

  /** `a or b` on strings. */
  function Either(a: string, b: string): string { if a != "" then a else b }

  // ---------------------------------------------------------------------
  // JSON-LD addresses
  // ---------------------------------------------------------------------

  /** `jobLocationType` names remote work: `str(v).lower()` is "telecommute" or "remote". */
  predicate RemoteType(v: Option<Json>) {
    v.Some? && v.value.JStr? && Lower(v.value.s) in {"telecommute", "remote"}
  }

  /** `v if isinstance(v, list) else ([v] if isinstance(v, dict) else [])`. */
  function AsList(v: Option<Json>): seq<Json> {
    match v
    case Some(JArr(xs)) => xs
    case Some(JObj(ms)) => [JObj(ms)]
    case _ => []
  }

  /** `addr.get("addressCountry") or country`, the value handed to `_norm_country`. */
  function CountryValue(addr: seq<Member>, current: string): Json {
    var v := Get(addr, "addressCountry");
    if v.Some? && Truthy(v.value) then v.value else JStr(current)
  }

  /** `addr.get(key) or current` for a text field. */
  function TextOr(addr: seq<Member>, key: string, current: string): string {
    match Get(addr, key)
    case Some(JStr(s)) => Either(s, current)
    case _ => current
  }

  /** One address applied to the fields so far; `None` where `_norm_country` raises on a non-string. */
  function ApplyAddress(l: Loc, addr: seq<Member>): Option<Loc> {
    var v := CountryValue(addr, l.country);
    if !v.JStr? then None
    else Some(Loc(Parsing.NormCountry(v.s), TextOr(addr, "addressRegion", l.admin1),
                  TextOr(addr, "addressLocality", l.city), l.remote))
  }

  /** One list entry: applied when it is an object whose `key` holds an object. */
  function Step(l: Loc, item: Json, key: string): Option<Loc> {
    if item.JObj? then
      match Get(item.members, key)
      case Some(JObj(addr)) => ApplyAddress(l, addr)
      case _ => Some(l)
    else Some(l)
  }

  /** The entries applied left to right, stopping at the first raise. */
  function Fold(st: Option<Loc>, items: seq<Json>, key: string): Option<Loc>
    decreases |items|
  {
    if items == [] || st.None? then st
    else Fold(Step(st.value, items[0], key), items[1..], key)
  }

  /** The JSON-LD stage: remote from `jobLocationType`, then eligible regions, then job locations. */
  function JsonLdSpec(jp: seq<Member>): Option<Loc> {
    if jp == [] then Some(Loc("", "", "", 0))
    else
      var start := Loc("", "", "", if RemoteType(Get(jp, "jobLocationType")) then 1 else 0);
      var regions := Fold(Some(start), AsList(Get(jp, "applicantLocationRequirements")), "eligibleRegion");
      Fold(regions, AsList(Get(jp, "jobLocation")), "address")
  }

  /** The two `for` loops over address lists. */
  method ApplyAddresses(l: Loc, items: seq<Json>, key: string) returns (r: Option<Loc>)
    ensures r == Fold(Some(l), items, key)
  {
    var country, admin1, city := l.country, l.admin1, l.city;
    for i := 0 to |items|
      invariant Fold(Some(Loc(country, admin1, city, l.remote)), items[i..], key) == Fold(Some(l), items, key)
    {
      assert items[i..][1..] == items[i + 1..];
      var e := items[i];
      if e.JObj? {
        var region := Get(e.members, key);
        if region.Some? && region.value.JObj? {
          var addr := region.value.members;
          var v := CountryValue(addr, country);
          if !v.JStr? {
            FoldStopped(items[i + 1..], key);
            return None;
          }
          country := Parsing.NormCountry(v.s);
          admin1 := TextOr(addr, "addressRegion", admin1);
          city := TextOr(addr, "addressLocality", city);
        }
      }
    }
    return Some(Loc(country, admin1, city, l.remote));
  }

  lemma FoldStopped(items: seq<Json>, key: string)
    ensures Fold(None, items, key) == None
  {
  }

  method MergeJsonLd(jp: seq<Member>) returns (r: Option<Loc>)
    ensures r == JsonLdSpec(jp)
  {
    if jp == [] {
      return Some(Loc("", "", "", 0));
    }
    var remote := 0;
    if RemoteType(Get(jp, "jobLocationType")) {
      remote := 1;
    }
    var afterRegions := ApplyAddresses(Loc("", "", "", remote), AsList(Get(jp, "applicantLocationRequirements")), "eligibleRegion");
    if afterRegions.None? {
      FoldStopped(AsList(Get(jp, "jobLocation")), "address");
      return None;
    }
    r := ApplyAddresses(afterRegions.value, AsList(Get(jp, "jobLocation")), "address");
  }

  /**
   * The merge rules for one address: a supplied country replaces the current
   * one by its normal form (possibly ""), an absent one keeps it; region and
   * locality replace admin1 and city only when they are non-empty strings; a
   * country that is not a string raises.
   */
  lemma AddressRules(l: Loc, addr: seq<Member>)
    requires CountryOk(l.country)
    ensures var v := Get(addr, "addressCountry");
      ApplyAddress(l, addr).None? <==> v.Some? && Truthy(v.value) && !v.value.JStr?
    ensures var v := Get(addr, "addressCountry");
      ApplyAddress(l, addr).Some? && v.Some? && Truthy(v.value) ==>
        ApplyAddress(l, addr).value.country == Parsing.NormCountry(v.value.s)
    ensures var v := Get(addr, "addressCountry");
      !(v.Some? && Truthy(v.value)) ==> ApplyAddress(l, addr).Some? && ApplyAddress(l, addr).value.country == l.country
    ensures ApplyAddress(l, addr).Some? ==>
      var n := ApplyAddress(l, addr).value;
      Shaped(n) == Shaped(l)
      && n.remote == l.remote
      && (n.admin1 == l.admin1 <== !(Get(addr, "addressRegion").Some? && Get(addr, "addressRegion").value.JStr? && Get(addr, "addressRegion").value.s != ""))
      && (Get(addr, "addressRegion").Some? && Get(addr, "addressRegion").value.JStr? && Get(addr, "addressRegion").value.s != "" ==> n.admin1 == Get(addr, "addressRegion").value.s)
      && (Get(addr, "addressLocality").Some? && Get(addr, "addressLocality").value.JStr? && Get(addr, "addressLocality").value.s != "" ==> n.city == Get(addr, "addressLocality").value.s)
  {
    var v := Get(addr, "addressCountry");
    if !(v.Some? && Truthy(v.value)) {
      KeptCountry(l.country);
    }
  }

  /** Re-normalising a country the merge already holds leaves it as it is. */
  lemma KeptCountry(c: string)
    requires CountryOk(c)
    ensures Parsing.NormCountry(c) == c
  {
    if c != "" {
      Parsing.TwoLettersWin(c);
      assert Upper(c) == c;
    }
  }

  lemma {:induction false} FoldKeepsShape(l: Loc, items: seq<Json>, key: string)
    requires Shaped(l)
    ensures Fold(Some(l), items, key).Some? ==>
      Shaped(Fold(Some(l), items, key).value) && Fold(Some(l), items, key).value.remote == l.remote
    decreases |items|
  {
    if items != [] {
      var s := Step(l, items[0], key);
      if s.Some? {
        if items[0].JObj? && Get(items[0].members, key).Some? && Get(items[0].members, key).value.JObj? {
          AddressRules(l, Get(items[0].members, key).value.members);
        }
        FoldKeepsShape(s.value, items[1..], key);
      }
    }
  }

  /** The JSON-LD stage yields an empty or ISO country and sets remote exactly for a remote location type. */
  lemma JsonLdShape(jp: seq<Member>)
    ensures JsonLdSpec(jp).Some? ==> Shaped(JsonLdSpec(jp).value)
    ensures JsonLdSpec(jp).Some? ==>
      (JsonLdSpec(jp).value.remote == 1 <==> jp != [] && RemoteType(Get(jp, "jobLocationType")))
  {
    if jp != [] {
      var start := Loc("", "", "", if RemoteType(Get(jp, "jobLocationType")) then 1 else 0);
      var regions := Fold(Some(start), AsList(Get(jp, "applicantLocationRequirements")), "eligibleRegion");
      FoldKeepsShape(start, AsList(Get(jp, "applicantLocationRequirements")), "eligibleRegion");
      if regions.Some? {
        FoldKeepsShape(regions.value, AsList(Get(jp, "jobLocation")), "address");
      }
    }
  }

  // ---------------------------------------------------------------------
  // Eightfold JSON (`_try_eightfold_locations`)
  // ---------------------------------------------------------------------

  /** `(loc.get(k1) or loc.get(k2) or "")` as a string; `None` where it is not one and a string method raises. */
  function OrText(loc: Json, k1: string, k2: string): Option<string> {
    var v := FieldOr(loc, k1, FieldOr(loc, k2, JStr("")));
    if v.JStr? then Some(v.s) else None
  }

  /** The structured array's outcome: its result, or the city and admin1 assigned before a raise. */
  datatype Attempt = Found(loc: Loc) | Partial(city: string, admin1: string)

  function FromApplicable(applicable: Option<Json>): Attempt {
    if !(applicable.Some? && applicable.value.JArr? && applicable.value.items != []) then Partial("", "")
    else
      var first := applicable.value.items[0];
      var loc := if first.JObj? then first else Empty;
      match OrText(loc, "city", "addressLocality")
      case None => Partial("", "")
      case Some(c) =>
        match OrText(loc, "state", "addressRegion")
        case None => Partial(Strip(c), "")
        case Some(a) =>
          match OrText(loc, "country", "addressCountry")
          case None => Partial(Strip(c), Strip(Split(a, ',')[0]))
          case Some(n) => Found(Loc(Parsing.NormCountry(n), Strip(Split(a, ',')[0]), Strip(c), 0))
  }

  /** The `positions` entry's outcome, keeping what the array attempt left behind; `None` where it raises. */
  function FromPositions(positions: Option<Json>, city: string, admin1: string): Option<Loc> {
    if !(positions.Some? && positions.value.JObj?) then None
    else
      var first := positions.value;
      var ls := FieldOr(first, "location", JStr(""));
      if !ls.JStr? then None
      else
        var parts := if ls.s != "" then StrippedParts(ls.s, ',') else [];
        var here :=
          if |parts| >= 3 then Loc(Parsing.NormCountry(parts[|parts| - 1]), parts[1], parts[0], 0)
          else Loc("", admin1, city, 0);
        var w := FieldOr(first, "work_location_option", JStr(""));
        if !w.JStr? then None
        else Some(here.(remote := if Lower(w.s) == "remote" then 1 else 0))
  }

  function EightfoldSpec(applicable: Option<Json>, positions: Option<Json>, remoteHint: bool): Loc {
    match FromApplicable(applicable)
    case Found(l) => l
    case Partial(city, admin1) =>
      match FromPositions(positions, city, admin1)
      case Some(l) => l
      case None => Loc("", "", "", if remoteHint then 1 else 0)
  }

  /** The first `try` block: the structured array. */
  method ArrayAttempt(applicable: Option<Json>) returns (r: Attempt)
    ensures r == FromApplicable(applicable)
  {
    if !(applicable.Some? && applicable.value.JArr? && applicable.value.items != []) {
      return Partial("", "");
    }
    var first := applicable.value.items[0];
    var loc := if first.JObj? then first else Empty;
    var c := OrText(loc, "city", "addressLocality");
    if c.None? {
      return Partial("", "");
    }
    var city := Strip(c.value);
    var a := OrText(loc, "state", "addressRegion");
    if a.None? {
      return Partial(city, "");
    }
    var admin1 := Strip(Split(a.value, ',')[0]);
    var n := OrText(loc, "country", "addressCountry");
    if n.None? {
      return Partial(city, admin1);
    }
    return Found(Loc(Parsing.NormCountry(n.value), admin1, city, 0));
  }

  /** The second `try` block: the first `positions` entry, starting from what the first block left. */
  method PositionsAttempt(positions: Option<Json>, city0: string, admin10: string) returns (r: Option<Loc>)
    ensures r == FromPositions(positions, city0, admin10)
  {
    var country, admin1, city, remote := "", admin10, city0, 0;
    if positions.Some? && positions.value.JObj? {
      var first := positions.value;
      var ls := FieldOr(first, "location", JStr(""));
      if ls.JStr? {
        if ls.s != "" {
          var parts := StrippedParts(ls.s, ',');
          if |parts| >= 3 {
            city := parts[0];
            admin1 := parts[1];
            country := Parsing.NormCountry(parts[|parts| - 1]);
          }
        }
        var w := FieldOr(first, "work_location_option", JStr(""));
        if w.JStr? {
          if Lower(w.s) == "remote" {
            remote := 1;
          }
          return Some(Loc(country, admin1, city, remote));
        }
      }
    }
    return None;
  }

  /** `_try_eightfold_locations`: the array, else the `positions` entry, else the remote hint alone. */
  method TryEightfold(applicable: Option<Json>, positions: Option<Json>, remoteHint: bool) returns (r: Loc)
    ensures r == EightfoldSpec(applicable, positions, remoteHint)
  {
    var att := ArrayAttempt(applicable);
    if att.Found? {
      return att.loc;
    }
    var fromPositions := PositionsAttempt(positions, att.city, att.admin1);
    if fromPositions.Some? {
      return fromPositions.value;
    }
    return Loc("", "", "", if remoteHint then 1 else 0);
  }

  lemma StrippedPartsOfEmpty()
    ensures StrippedParts("", ',') == []
  {
    assert Split("", ',') == [""];
    assert Strip("") == "";
  }

  /** Only a non-empty string splits into non-blank parts. */
  lemma PartsOfNonEmpty(s: string)
    requires StrippedParts(s, ',') != []
    ensures s != ""
  {
    if s == "" { StrippedPartsOfEmpty(); }
  }

  /** The Eightfold result always has an empty or ISO country and a 0/1 remote flag. */
  lemma EightfoldShape(applicable: Option<Json>, positions: Option<Json>, remoteHint: bool)
    ensures Shaped(EightfoldSpec(applicable, positions, remoteHint))
    ensures EightfoldSpec(applicable, positions, remoteHint).remote == 1 ==>
      remoteHint || (positions.Some? && positions.value.JObj?)
  {
  }

  /** A usable structured array decides the result; `positions` is not consulted. */
  lemma ArrayDecides(loc: seq<Member>, rest: seq<Json>, positions: Option<Json>, remoteHint: bool,
                      c: string, a: string, n: string)
    requires OrText(JObj(loc), "city", "addressLocality") == Some(c)
    requires OrText(JObj(loc), "state", "addressRegion") == Some(a)
    requires OrText(JObj(loc), "country", "addressCountry") == Some(n)
    ensures EightfoldSpec(Some(JArr([JObj(loc)] + rest)), positions, remoteHint)
      == Loc(Parsing.NormCountry(n), Strip(Split(a, ',')[0]), Strip(c), 0)
  {
  }

  /** A `location` of three or more parts gives city, admin1 and the country of its last part. */
  lemma PositionsParts(first: seq<Member>, s: string, w: string, hint: bool)
    requires FieldOr(JObj(first), "location", JStr("")) == JStr(s)
    requires FieldOr(JObj(first), "work_location_option", JStr("")) == JStr(w)
    requires |StrippedParts(s, ',')| >= 3
    ensures var parts := StrippedParts(s, ',');
      EightfoldSpec(None, Some(JObj(first)), hint)
        == Loc(Parsing.NormCountry(parts[|parts| - 1]), parts[1], parts[0], if Lower(w) == "remote" then 1 else 0)
  {
    PartsOfNonEmpty(s);
    assert FromApplicable(None) == Partial("", "");
  }

  /**
   * A city that the array attempt assigned before its region raised stays in
   * a `positions` result whose location names fewer than three parts.
   */
  lemma ArrayCityLeaksIntoPositions(loc: seq<Member>, c: string, first: seq<Member>, w: string)
    requires OrText(JObj(loc), "city", "addressLocality") == Some(c)
    requires OrText(JObj(loc), "state", "addressRegion").None?
    requires FieldOr(JObj(first), "location", JStr("")) == JStr("")
    requires FieldOr(JObj(first), "work_location_option", JStr("")) == JStr(w)
    ensures EightfoldSpec(Some(JArr([JObj(loc)])), Some(JObj(first)), false).city == Strip(c)
  {
    StrippedPartsOfEmpty();
  }

  // ---------------------------------------------------------------------
  // The whole merge (`parse_location_fields`)
  // ---------------------------------------------------------------------

  /** Step 2: the Eightfold fields when they name a country; the larger remote flag either way. */
  function WithEightfold(l: Loc, p: Page): Loc {
    if l.country != "" then l
    else
      var ef := EightfoldSpec(p.applicable, p.positions, p.remoteHint);
      var m := if ef.country != "" then Loc(ef.country, ef.admin1, ef.city, l.remote) else l;
      m.(remote := if l.remote >= ef.remote then l.remote else ef.remote)
  }

  /** Step 3: "United States" or "United Kingdom" as whole words in the head text. */
  function FromHeadText(l: Loc, head: string): Loc {
    if l.country != "" then l
    else if Parsing.PhraseFrom(head, "united states", 0) then l.(country := "US")
    else if Parsing.PhraseFrom(head, "united kingdom", 0) then l.(country := "GB")
    else l
  }

  /** Step 4a: a location label read as "…, city, admin1, country" or "admin1, country". */
  function FromLabel(l: Loc, locLabel: Option<string>): Loc {
    if l.country != "" || locLabel.None? then l
    else
      var parts := StrippedParts(locLabel.value, ',');
      var n := |parts|;
      if n >= 3 then Loc(Either(Parsing.NormCountry(parts[n - 1]), l.country), parts[n - 2], parts[n - 3], l.remote)
      else if n == 2 then l.(admin1 := parts[0], country := Either(Parsing.NormCountry(parts[1]), l.country))
      else l
  }

  /** Steps 4b and 4c: a crumb read as "country, admin1, city" or "country, city". */
  function FromCrumb(l: Loc, crumb: Option<string>): Loc {
    if l.country != "" || crumb.None? then l
    else
      var parts := StrippedParts(crumb.value, ',');
      if |parts| >= 3 then Loc(Either(Parsing.NormCountry(parts[0]), l.country), parts[1], parts[2], l.remote)
      else if |parts| == 2 then l.(country := Either(Parsing.NormCountry(parts[0]), l.country), city := parts[1])
      else l
  }

  function LocationOf(p: Page): Option<Loc> {
    match JsonLdSpec(p.jsonLd)
    case None => None
    case Some(l) =>
      Some(FromCrumb(FromCrumb(FromLabel(FromHeadText(WithEightfold(l, p), p.headText), p.locLabel), p.icon), p.dimension8))
  }

  /** Step 2 in place: adopt the Eightfold fields when they name a country, keep the larger remote flag. */
  method ApplyEightfold(l: Loc, p: Page) returns (r: Loc)
    ensures r == WithEightfold(l, p)
  {
    var country, admin1, city, remote := l.country, l.admin1, l.city, l.remote;
    if country == "" {
      var ef := TryEightfold(p.applicable, p.positions, p.remoteHint);
      if ef.country != "" {
        country, admin1, city := ef.country, ef.admin1, ef.city;
      }
      if ef.remote > remote {
        remote := ef.remote;
      }
    }
    return Loc(country, admin1, city, remote);
  }

  /** Step 3 in place. */
  method ApplyHeadText(l: Loc, head: string) returns (r: Loc)
    ensures r == FromHeadText(l, head)
  {
    r := l;
    if r.country == "" {
      if Parsing.PhraseFrom(head, "united states", 0) {
        r := r.(country := "US");
      } else if Parsing.PhraseFrom(head, "united kingdom", 0) {
        r := r.(country := "GB");
      }
    }
  }

  /** Step 4a in place. */
  method ApplyLabel(l: Loc, locLabel: Option<string>) returns (r: Loc)
    ensures r == FromLabel(l, locLabel)
  {
    r := l;
    if l.country == "" && locLabel.Some? {
      var parts := StrippedParts(locLabel.value, ',');
      if |parts| >= 3 {
        var tail := parts[|parts| - 3..];
        r := Loc(Either(Parsing.NormCountry(tail[2]), l.country), tail[1], tail[0], l.remote);
      } else if |parts| == 2 {
        r := l.(admin1 := parts[0], country := Either(Parsing.NormCountry(parts[1]), l.country));
      }
    }
  }

  /** Steps 4b and 4c in place. */
  method ApplyCrumb(l: Loc, crumb: Option<string>) returns (r: Loc)
    ensures r == FromCrumb(l, crumb)
  {
    var country, admin1, city := l.country, l.admin1, l.city;
    if country == "" && crumb.Some? {
      var parts := StrippedParts(crumb.value, ',');
      if |parts| >= 3 {
        country, admin1, city := Either(Parsing.NormCountry(parts[0]), country), parts[1], parts[2];
      } else if |parts| == 2 {
        country, city := Either(Parsing.NormCountry(parts[0]), country), parts[1];
      }
    }
    return Loc(country, admin1, city, l.remote);
  }

  /** `parse_location_fields` over the extracted page, one step after another; `None` where it raises. */
  method ParseLocationFields(p: Page) returns (r: Option<Loc>)
    ensures r == LocationOf(p)
  {
    var jl := MergeJsonLd(p.jsonLd);
    if jl.None? {
      return None;
    }
    var l := ApplyEightfold(jl.value, p);
    l := ApplyHeadText(l, p.headText);
    l := ApplyLabel(l, p.locLabel);
    l := ApplyCrumb(l, p.icon);
    l := ApplyCrumb(l, p.dimension8);
    return Some(l);
  }

  lemma EightfoldStepShape(l: Loc, p: Page)
    requires Shaped(l)
    ensures Shaped(WithEightfold(l, p))
  {
    EightfoldShape(p.applicable, p.positions, p.remoteHint);
  }

  lemma LabelStepShape(l: Loc, locLabel: Option<string>)
    requires Shaped(l)
    ensures Shaped(FromLabel(l, locLabel))
  {
  }

  lemma CrumbStepShape(l: Loc, crumb: Option<string>)
    requires Shaped(l)
    ensures Shaped(FromCrumb(l, crumb))
  {
  }

  /** The merged country is empty or an ISO code, and remote is 0 or 1. */
  lemma LocationShape(p: Page)
    ensures LocationOf(p).Some? ==> Shaped(LocationOf(p).value)
    ensures LocationOf(p).None? <==> JsonLdSpec(p.jsonLd).None?
  {
    JsonLdShape(p.jsonLd);
    if JsonLdSpec(p.jsonLd).Some? {
      var l0 := JsonLdSpec(p.jsonLd).value;
      var l1 := WithEightfold(l0, p);
      EightfoldStepShape(l0, p);
      var l2 := FromHeadText(l1, p.headText);
      var l3 := FromLabel(l2, p.locLabel);
      LabelStepShape(l2, p.locLabel);
      var l4 := FromCrumb(l3, p.icon);
      CrumbStepShape(l3, p.icon);
      CrumbStepShape(l4, p.dimension8);
    }
  }

  /** A country found in the JSON-LD fixes the whole result: no later source is consulted. */
  lemma JsonLdCountryWins(p: Page)
    requires JsonLdSpec(p.jsonLd).Some? && JsonLdSpec(p.jsonLd).value.country != ""
    ensures LocationOf(p) == JsonLdSpec(p.jsonLd)
  {
  }

  /** The steps after Eightfold touch the location fields only, never the remote flag. */
  lemma HeadTextKeepsRemote(l: Loc, head: string)
    ensures FromHeadText(l, head).remote == l.remote
  {
  }

  lemma LabelKeepsRemote(l: Loc, locLabel: Option<string>)
    ensures FromLabel(l, locLabel).remote == l.remote
  {
  }

  lemma CrumbKeepsRemote(l: Loc, crumb: Option<string>)
    ensures FromCrumb(l, crumb).remote == l.remote
  {
  }

  /** Merging never lowers the remote flag: remote from the JSON-LD or from Eightfold survives. */
  lemma RemoteNeverLost(p: Page)
    requires JsonLdSpec(p.jsonLd).Some?
    ensures LocationOf(p).value.remote >= JsonLdSpec(p.jsonLd).value.remote
    ensures JsonLdSpec(p.jsonLd).value.country == "" ==>
      LocationOf(p).value.remote >= EightfoldSpec(p.applicable, p.positions, p.remoteHint).remote
  {
    var l1 := WithEightfold(JsonLdSpec(p.jsonLd).value, p);
    var l2 := FromHeadText(l1, p.headText);
    var l3 := FromLabel(l2, p.locLabel);
    var l4 := FromCrumb(l3, p.icon);
    HeadTextKeepsRemote(l1, p.headText);
    LabelKeepsRemote(l2, p.locLabel);
    CrumbKeepsRemote(l3, p.icon);
    CrumbKeepsRemote(l4, p.dimension8);
  }

  /** With nothing before it, a label of three or more parts is read from its last three. */
  lemma LabelRule(p: Page, l: Loc)
    requires l.country == "" && p.locLabel.Some? && |StrippedParts(p.locLabel.value, ',')| >= 3
    ensures var parts := StrippedParts(p.locLabel.value, ',');
      var n := |parts|;
      FromLabel(l, p.locLabel) == Loc(Parsing.NormCountry(parts[n - 1]), parts[n - 2], parts[n - 3], l.remote)
  {
  }

  /** With nothing before it, a two-part label is read as admin1 and country. */
  lemma TwoPartLabel(p: Page, l: Loc)
    requires l.country == "" && p.locLabel.Some? && |StrippedParts(p.locLabel.value, ',')| == 2
    ensures var parts := StrippedParts(p.locLabel.value, ',');
      FromLabel(l, p.locLabel) == l.(admin1 := parts[0], country := Parsing.NormCountry(parts[1]))
  {
  }

  /** The head text's "United States" wins over "United Kingdom" when no country is known yet. */
  lemma HeadTextCountry(l: Loc, head: string, i: nat)
    requires l.country == "" && i <= |head| && Parsing.WholeWordAt(head, "united states", i)
    ensures FromHeadText(l, head).country == "US"
  {
  }
}
