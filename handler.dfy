/**
 * The read API (api/handler.py): turn the query-string parameters into one
 * query against a secondary index of the catalogue table, and reshape the
 * returned items and the continuation key for the response.
 *
 * The clock is the parameter `now`. `dateutil`'s parser is `dateParse`,
 * `json.dumps(..).encode()` is `dumps` and `json.loads` is `loads`. The table
 * query is `query`, from request to response, `None` where the service rejects
 * the request. `None` as a result stands for an exception escaping the
 * handler.
 */
module Handler {
  import opened Wrappers
  import opened Text
  import opened Json
  import Base64Url

  const Day: int := 86400
  const Hour: int := 3600
  /** The window used when `since` is blank or unreadable. */
  const DefaultWindow: int := 30 * Day
  const DefaultLimit: int := 50
  const MaxLimit: int := 200

  /** `dateparser.parse(s)` read as a UTC timestamp; `None` where it raises. */
  type DateParse = string -> Option<int>

  /** How far back a relative window "<N>d" or "<N>h" reaches, in seconds. */
  function RelativeWindow(s: string): Option<int> {
    if EndsWith(s, "d") && ParseInt(s[..|s| - 1]).Some? then Some(ParseInt(s[..|s| - 1]).value * Day)
    else if EndsWith(s, "h") && ParseInt(s[..|s| - 1]).Some? then Some(ParseInt(s[..|s| - 1]).value * Hour)
    else None
  }

  /** `_parse_since(since)` at time `now`: a relative "<N>d" or "<N>h" window, an absolute date, or 30 days. */
  function ParseSince(since: string, now: int, dateParse: DateParse): int {
    var s := Lower(Strip(since));
    if s == "" then now - DefaultWindow
    else
      match RelativeWindow(s)
      case Some(back) => now - back
      case None =>
        match dateParse(s)
        case Some(t) => t
        case None => now - DefaultWindow
  }

  /** A blank `since` means the last 30 days. */
  lemma SinceBlank(since: string, now: int, dateParse: DateParse)
    requires Strip(since) == ""
    ensures ParseSince(since, now, dateParse) == now - 30 * 86400
  {
  }

  lemma LowerOfNoUpper(s: string)
    requires forall i :: 0 <= i < |s| ==> !IsUpper(s[i])
    ensures Lower(s) == s
  {
  }

  /** Text that is stripped and has no upper-case letter is unchanged by `.strip().lower()`. */
  lemma NormalFixed(t: string)
    requires IsStripped(t) && forall i :: 0 <= i < |t| ==> !IsUpper(t[i])
    ensures Lower(Strip(t)) == t
  {
    StrippedIsFixed(t);
    LowerOfNoUpper(t);
  }

  lemma UnitTextStripped(d: string, unit: char)
    requires IsDigits(d) && IsLower(unit)
    ensures IsStripped(d + [unit])
  {
    var t := d + [unit];
    assert t[0] == d[0] && t[|t| - 1] == unit;
    assert IsDigit(d[0]);
  }

  lemma UnitTextNoUpper(d: string, unit: char)
    requires IsDigits(d) && IsLower(unit)
    ensures forall i :: 0 <= i < |d + [unit]| ==> !IsUpper((d + [unit])[i])
  {
    var t := d + [unit];
    forall i | 0 <= i < |t| ensures !IsUpper(t[i]) {
      if i < |d| { assert t[i] == d[i]; }
    }
  }

  /** Digits followed by a lower-case unit letter are already stripped and lower-case. */
  lemma UnitTextNormal(d: string, unit: char)
    requires IsDigits(d) && IsLower(unit)
    ensures Lower(Strip(d + [unit])) == d + [unit]
  {
    UnitTextStripped(d, unit);
    UnitTextNoUpper(d, unit);
    NormalFixed(d + [unit]);
  }

  /** A `since` value that is already normalised is read as it stands. */
  lemma SinceOfNormal(t: string, back: int, now: int, dateParse: DateParse)
    requires t != "" && Lower(Strip(t)) == t && RelativeWindow(t) == Some(back)
    ensures ParseSince(t, now, dateParse) == now - back
  {
  }

  /** "<N><unit>" is already in the form `_parse_since` compares against. */
  lemma UnitTextIsNormal(n: nat, unit: char)
    requires IsLower(unit)
    ensures Lower(Strip(NatToString(n) + [unit])) == NatToString(n) + [unit]
  {
    UnitTextNormal(NatToString(n), unit);
  }

  lemma WindowOfDays(n: nat)
    ensures RelativeWindow(NatToString(n) + "d") == Some(n * 86400)
  {
    var d := NatToString(n);
    var t := d + "d";
    assert t[..|t| - 1] == d;
    ParseIntOfNat(n);
  }

  lemma WindowOfHours(n: nat)
    ensures RelativeWindow(NatToString(n) + "h") == Some(n * 3600)
  {
    var d := NatToString(n);
    var t := d + "h";
    assert t[..|t| - 1] == d;
    ParseIntOfNat(n);
  }

  /** "<N>d" reaches back N days. */
  lemma SinceDays(n: nat, now: int, dateParse: DateParse)
    ensures ParseSince(NatToString(n) + "d", now, dateParse) == now - n * 86400
  {
    UnitTextIsNormal(n, 'd');
    WindowOfDays(n);
    SinceOfNormal(NatToString(n) + "d", n * 86400, now, dateParse);
  }

  /** "<N>h" reaches back N hours. */
  lemma SinceHours(n: nat, now: int, dateParse: DateParse)
    ensures ParseSince(NatToString(n) + "h", now, dateParse) == now - n * 3600
  {
    UnitTextIsNormal(n, 'h');
    WindowOfHours(n);
    SinceOfNormal(NatToString(n) + "h", n * 3600, now, dateParse);
  }

  /**
   * Any spelling `int` reads, in any case and with surrounding whitespace
   * (" 7D", "07d", "1_0h"), reaches back that many days or hours.
   */
  lemma SinceWindow(since: string, n: int, now: int, dateParse: DateParse)
    requires var s := Lower(Strip(since));
      s != "" && (s[|s| - 1] == 'd' || s[|s| - 1] == 'h') && ParseInt(s[..|s| - 1]) == Some(n)
    ensures var s := Lower(Strip(since));
      ParseSince(since, now, dateParse) == now - n * (if s[|s| - 1] == 'd' then 86400 else 3600)
  {
    WindowOfText(Lower(Strip(since)), n);
  }

  lemma WindowOfText(t: string, n: int)
    requires t != "" && (t[|t| - 1] == 'd' || t[|t| - 1] == 'h') && ParseInt(t[..|t| - 1]) == Some(n)
    ensures RelativeWindow(t) == Some(n * if t[|t| - 1] == 'd' then Day else Hour)
  {
    if t[|t| - 1] == 'd' {
      assert EndsWith(t, "d");
    } else {
      assert EndsWith(t, "h") && !EndsWith(t, "d");
    }
  }

  lemma ThirtyText()
    ensures NatToString(30) == "30"
  {
    assert NatToString(3) == "3";
  }

  /** The `since` default "30d" is the same 30-day window a blank value gets. */
  lemma SinceDefault(now: int, dateParse: DateParse)
    ensures ParseSince("30d", now, dateParse) == now - 30 * 86400
  {
    ThirtyText();
    SinceDays(30, now, dateParse);
    assert NatToString(30) + "d" == "30d";
  }

  /** `remote`: absent gives no filter; "1", "true", "yes", "y" in any case give 1; anything else 0. */
  function ParseRemote(q: Option<string>): (r: Option<int>)
    ensures r.None? <==> q.None?
    ensures r.Some? ==> r.value == 0 || r.value == 1
    ensures r == Some(1) <==> q.Some? && Lower(q.value) in {"1", "true", "yes", "y"}
  {
    match q
    case None => None
    case Some(v) => Some(if Lower(v) in {"1", "true", "yes", "y"} then 1 else 0)
  }

  /** The flag is matched as it stands: no whitespace is trimmed. */
  lemma RemoteExamples()
    ensures ParseRemote(Some("TRUE")) == Some(1) && ParseRemote(Some("Y")) == Some(1)
    ensures ParseRemote(Some(" yes")) == Some(0) && ParseRemote(Some("no")) == Some(0)
  {
    assert Lower("TRUE") == "true";
    assert Lower("Y") == "y";
    assert Lower(" yes") == " yes";
    assert Lower("no") == "no";
  }

  /** `min(max(int(limit), 1), 200)` with `limit` defaulting to "50"; `None` where `int` raises. */
  function ParseLimit(raw: Option<string>): (r: Option<int>)
    ensures r.Some? ==> 1 <= r.value <= 200
    ensures raw.None? ==> r == Some(50)
    ensures r.None? <==> raw.Some? && ParseInt(raw.value).None?
    ensures raw.Some? && ParseInt(raw.value).Some? ==>
      var n := ParseInt(raw.value).value;
      r == Some(if n < 1 then 1 else if n > 200 then 200 else n)
  {
    var text := if raw.Some? then raw.value else "50";
    ParseIntOfNat(50);
    assert NatToString(50) == "50";
    match ParseInt(text)
    case None => None
    case Some(n) => Some(if n > 1 then (if n < MaxLimit then n else MaxLimit) else 1)
  }

  /** A DynamoDB attribute value as the table returns it: a string or a (whole) number. */
  datatype AttrValue = S(s: string) | N(n: int)

  /** `Attr(attr).eq(value)`. */
  datatype Cond = Eq(attr: string, value: AttrValue)

  /** `Key(attr).eq(value) & Key("posted_at").gte(since)`. */
  datatype KeyCond = KeyCond(attr: string, value: string, postedSince: int)

  datatype Plan = Plan(indexName: string, keyCond: KeyCond, filter: seq<Cond>)

  /** The query-string parameters after normalisation. */
  datatype Params = Params(
    company: Option<string>, category: string, country: string, remote: Option<int>,
    since: int, limit: int, cursor: Option<string>)

  function Lookup(qs: map<string, string>, key: string): Option<string> {
    if key in qs then Some(qs[key]) else None
  }

  /** The parameter block at the top of `lambda_handler`; `None` where `int(limit)` raises. */
  function ReadParams(qs: map<string, string>, now: int, dateParse: DateParse): (r: Option<Params>)
    ensures r.Some? ==> r.value.category != "" && 1 <= r.value.limit <= 200
    ensures r.Some? ==> forall i :: 0 <= i < |r.value.country| ==> !IsLower(r.value.country[i])
    ensures r.None? <==> ParseLimit(Lookup(qs, "limit")).None?
  {
    var category := Lower(OrElse(Lookup(qs, "category"), "it"));
    var country := Upper(OrElse(Lookup(qs, "country"), ""));
    UpperHasNoLower(OrElse(Lookup(qs, "country"), ""));
    var since := ParseSince(if "since" in qs then qs["since"] else "30d", now, dateParse);
    match ParseLimit(Lookup(qs, "limit"))
    case None => None
    case Some(limit) =>
      Some(Params(Lookup(qs, "company"), category, country, ParseRemote(Lookup(qs, "remote")), since, limit, Lookup(qs, "cursor")))
  }

  lemma UpperHasNoLower(s: string)
    ensures forall i :: 0 <= i < |Upper(s)| ==> !IsLower(Upper(s)[i])
  {
  }

  function Given(s: Option<string>): bool { s.Some? && s.value != "" }

  /** The filter conjunct for `attr` when `present`, else nothing. */
  function When(present: bool, c: Cond): seq<Cond> {
    if present then [c] else []
  }

  /** The index, key condition and filter the branches of `lambda_handler` choose. */
  function PlanFor(p: Params): Plan {
    var active := [Eq("active", N(1))];
    var remote := When(p.remote.Some?, Eq("remote", N(p.remote.GetOr(0))));
    if Given(p.company) then
      Plan("GSICompanyPosted", KeyCond("company", p.company.value, p.since),
           active + When(p.category != "", Eq("category", S(p.category)))
                  + When(p.country != "", Eq("loc_country", S(p.country))) + remote)
    else if p.country != "" then
      Plan("GSICountryPosted", KeyCond("loc_country", p.country, p.since),
           active + When(p.category != "", Eq("category", S(p.category))) + remote)
    else
      Plan("GSICategoryPosted", KeyCond("category", p.category, p.since), active + remote)
  }

  /** A company picks the company index, else a country the country index, else the category index. */
  lemma PlanIndex(p: Params)
    ensures var plan := PlanFor(p);
      && (Given(p.company) ==> plan.indexName == "GSICompanyPosted" && plan.keyCond == KeyCond("company", p.company.value, p.since))
      && (!Given(p.company) && p.country != "" ==> plan.indexName == "GSICountryPosted" && plan.keyCond == KeyCond("loc_country", p.country, p.since))
      && (!Given(p.company) && p.country == "" ==> plan.indexName == "GSICategoryPosted" && plan.keyCond == KeyCond("category", p.category, p.since))
  {
  }

  /**
   * The filter always starts with `active == 1`. Category is added except on the
   * category index, country only on the company index, and remote whenever given.
   */
  lemma PlanFilter(p: Params)
    ensures var f := PlanFor(p).filter;
      && |f| >= 1 && f[0] == Eq("active", N(1))
      && (Eq("category", S(p.category)) in f <==> p.category != "" && (Given(p.company) || p.country != ""))
      && (Eq("loc_country", S(p.country)) in f <==> Given(p.company) && p.country != "")
      && (forall v :: Eq("remote", N(v)) in f <==> p.remote == Some(v))
      && (forall c :: c in f ==> c.attr in {"active", "category", "loc_country", "remote"})
  {
  }

  /** No conjunct names the attribute the key condition already fixes. */
  lemma PlanFilterAvoidsKey(p: Params)
    ensures var plan := PlanFor(p);
      plan.indexName != "GSICompanyPosted" ==> forall c :: c in plan.filter ==> c.attr != plan.keyCond.attr
  {
  }

  /** The branches of `lambda_handler` that build `filt` by repeated conjunction. */
  method BuildPlan(p: Params) returns (plan: Plan)
    ensures plan == PlanFor(p)
  {
    var filt := [Eq("active", N(1))];
    var index: string;
    var key: KeyCond;
    if p.company.Some? && p.company.value != "" {
      index := "GSICompanyPosted";
      key := KeyCond("company", p.company.value, p.since);
      if p.category != "" {
        filt := filt + [Eq("category", S(p.category))];
      }
      if p.country != "" {
        filt := filt + [Eq("loc_country", S(p.country))];
      }
      if p.remote.Some? {
        filt := filt + [Eq("remote", N(p.remote.value))];
      }
    } else if p.country != "" {
      index := "GSICountryPosted";
      key := KeyCond("loc_country", p.country, p.since);
      if p.category != "" {
        filt := filt + [Eq("category", S(p.category))];
      }
      if p.remote.Some? {
        filt := filt + [Eq("remote", N(p.remote.value))];
      }
    } else {
      index := "GSICategoryPosted";
      key := KeyCond("category", p.category, p.since);
      if p.remote.Some? {
        filt := filt + [Eq("remote", N(p.remote.value))];
      }
    }
    plan := Plan(index, key, filt);
  }

  /** `_b64d(s)`: base64url-decode, then `json.loads`; `None` where either raises. */
  function ParseCursor(s: string, loads: seq<Base64Url.Byte> -> Option<Json>): Option<Json> {
    match Base64Url.Decode(s)
    case None => None
    case Some(bytes) => loads(bytes)
  }

  /** `_b64e(d)`: `json.dumps`, then base64url-encode. */
  function EncodeCursor(d: Json, dumps: Json -> seq<Base64Url.Byte>): string {
    Base64Url.Encode(dumps(d))
  }

  /** `_b64d(_b64e(d)) == d` for every value `json.loads` reads back from `json.dumps`. */
  lemma CursorRoundTrip(d: Json, dumps: Json -> seq<Base64Url.Byte>, loads: seq<Base64Url.Byte> -> Option<Json>)
    requires loads(dumps(d)) == Some(d)
    ensures ParseCursor(EncodeCursor(d, dumps), loads) == Some(d)
  {
    Base64Url.RoundTrip(dumps(d));
  }

  /** One attribute of a `LastEvaluatedKey`, in the order the response lists them. */
  datatype KeyAttr = KeyAttr(name: string, value: AttrValue)

  /** An attribute value as a JSON value: strings stay strings, numbers become integers. */
  function AttrJson(v: AttrValue): Json {
    match v
    case S(s) => JStr(s)
    case N(n) => JNum(n)
  }

  function KeyJson(k: seq<KeyAttr>): (j: Json)
    ensures j.JObj? && |j.members| == |k|
    ensures forall i :: 0 <= i < |k| ==> j.members[i] == Member(k[i].name, AttrJson(k[i].value))
  {
    JObj(seq(|k|, i requires 0 <= i < |k| => Member(k[i].name, AttrJson(k[i].value))))
  }

  /** The key holds a number, which boto3 hands back as a `Decimal`. */
  predicate HasNumber(k: seq<KeyAttr>) {
    exists i :: 0 <= i < |k| && k[i].value.N?
  }

  /**
   * `next_cursor` as written: `json.dumps` raises `TypeError` on a `Decimal`,
   * so the outer `None` is the handler failing.
   */
  function NextCursorAsWritten(lastKey: Option<seq<KeyAttr>>, dumps: Json -> seq<Base64Url.Byte>): Option<Option<string>> {
    match lastKey
    case None => Some(None)
    case Some(k) => if HasNumber(k) then None else Some(Some(EncodeCursor(KeyJson(k), dumps)))
  }

  /**
   * Every index the handler queries sorts on the number `posted_at`, and the key
   * DynamoDB returns for a page of an index holds the index's sort key; whatever
   * else the key holds, a next page makes the handler as written fail.
   */
  lemma AsWrittenCursorFailsOnIndexKey(k: seq<KeyAttr>, postedAt: int, dumps: Json -> seq<Base64Url.Byte>)
    requires KeyAttr("posted_at", N(postedAt)) in k
    ensures NextCursorAsWritten(Some(k), dumps).None?
  {
    var i :| 0 <= i < |k| && k[i] == KeyAttr("posted_at", N(postedAt));
    assert k[i].value.N?;
  }

  /** `next_cursor` with numbers written as JSON integers: null exactly when there is no further page. */
  function NextCursor(lastKey: Option<seq<KeyAttr>>, dumps: Json -> seq<Base64Url.Byte>): (r: Option<string>)
    ensures r.None? <==> lastKey.None?
  {
    match lastKey
    case None => None
    case Some(k) => Some(EncodeCursor(KeyJson(k), dumps))
  }

  /** A continuation key, numbers included, survives the trip through the cursor. */
  lemma NextCursorRoundTrip(k: seq<KeyAttr>, dumps: Json -> seq<Base64Url.Byte>, loads: seq<Base64Url.Byte> -> Option<Json>)
    requires loads(dumps(KeyJson(k))) == Some(KeyJson(k))
    ensures NextCursor(Some(k), dumps).Some?
    ensures ParseCursor(NextCursor(Some(k), dumps).value, loads) == Some(KeyJson(k))
  {
    CursorRoundTrip(KeyJson(k), dumps, loads);
  }

  datatype QueryRequest = QueryRequest(plan: Plan, limit: int, scanIndexForward: bool, exclusiveStartKey: Option<Json>)

  /** The keyword arguments of `TABLE.query`: newest first, and a cursor only when it decodes. */
  function RequestFor(p: Params, loads: seq<Base64Url.Byte> -> Option<Json>): QueryRequest {
    var start := if Given(p.cursor) then ParseCursor(p.cursor.value, loads) else None;
    QueryRequest(PlanFor(p), p.limit, false, start)
  }

  /** A cursor that does not decode is dropped: the query starts from the beginning. */
  lemma MalformedCursorIgnored(p: Params, loads: seq<Base64Url.Byte> -> Option<Json>)
    requires p.cursor.Some? && ParseCursor(p.cursor.value, loads).None?
    ensures RequestFor(p, loads).exclusiveStartKey.None?
    ensures RequestFor(p, loads).plan == PlanFor(p) && RequestFor(p, loads).limit == p.limit
  {
  }

  type Item = map<string, AttrValue>

  datatype QueryResponse = QueryResponse(items: seq<Item>, lastKey: Option<seq<KeyAttr>>)

  /** Python's `int(v)` on an attribute value; `None` where it raises. */
  function IntOf(v: AttrValue): Option<int> {
    match v
    case N(n) => Some(n)
    case S(s) => ParseInt(s)
  }

  /** `int(it.get(key, 0))`. */
  function IntField(it: Item, key: string): Option<int> {
    if key in it then IntOf(it[key]) else Some(0)
  }

  /** `it.get(key)` as it reaches the response: null when absent. */
  function TextField(it: Item, key: string): Json {
    if key in it then AttrJson(it[key]) else JNull
  }

  /** One element of `out`; `None` where `int` raises on `posted_at` or `remote`. */
  function OutItem(it: Item): (r: Option<Json>)
    ensures r.None? <==> IntField(it, "posted_at").None? || IntField(it, "remote").None?
  {
    match (IntField(it, "posted_at"), IntField(it, "remote"))
    case (Some(posted), Some(remote)) => Some(JObj(OutMembers(it, posted, remote)))
    case _ => None
  }

  function OutMembers(it: Item, posted: int, remote: int): seq<Member> {
    [ Member("company", TextField(it, "company")),
      Member("url", TextField(it, "url")),
      Member("title", TextField(it, "title")),
      Member("description", TextField(it, "description")),
      Member("category", TextField(it, "category")),
      Member("posted_at", JNum(posted)),
      Member("loc_country", TextField(it, "loc_country")),
      Member("loc_admin1", TextField(it, "loc_admin1")),
      Member("loc_city", TextField(it, "loc_city")),
      Member("remote", JNum(if remote != 0 then 1 else 0)) ]
  }

  /**
   * An output element has an integer `posted_at`, a `remote` of 0 or 1 that is 1
   * exactly when the stored value is non-zero, and the stored text fields (null when absent).
   */
  lemma OutItemFields(it: Item)
    requires OutItem(it).Some?
    ensures var o := OutItem(it).value;
      && Field(o, "posted_at") == Some(JNum(IntField(it, "posted_at").value))
      && Field(o, "remote") == Some(JNum(if IntField(it, "remote").value != 0 then 1 else 0))
      && (forall key :: key in {"company", "url", "title", "description", "category", "loc_country", "loc_admin1", "loc_city"} ==>
            Field(o, key) == Some(TextField(it, key)))
  {
    var ms := OutMembers(it, IntField(it, "posted_at").value, IntField(it, "remote").value);
    OutKeysDistinct(it, IntField(it, "posted_at").value, IntField(it, "remote").value);
    GetOfDistinct(ms, 0); GetOfDistinct(ms, 1); GetOfDistinct(ms, 2); GetOfDistinct(ms, 3); GetOfDistinct(ms, 4);
    GetOfDistinct(ms, 5); GetOfDistinct(ms, 6); GetOfDistinct(ms, 7); GetOfDistinct(ms, 8); GetOfDistinct(ms, 9);
  }

  /** The ten keys of an output element are pairwise different. */
  lemma OutKeysDistinct(it: Item, posted: int, remote: int)
    ensures DistinctKeys(OutMembers(it, posted, remote))
  {
  }

  /** An item without `posted_at` or `remote` reports 0 for both. */
  lemma OutItemDefaults(it: Item)
    requires "posted_at" !in it && "remote" !in it
    ensures OutItem(it).Some?
    ensures Field(OutItem(it).value, "posted_at") == Some(JNum(0)) && Field(OutItem(it).value, "remote") == Some(JNum(0))
  {
    OutItemFields(it);
  }

  /** The text attributes the response copies from an item. */
  const TextKeys: seq<string> := ["company", "url", "title", "description", "category", "loc_country", "loc_admin1", "loc_city"]

  /**
   * An item holding a number in one of the copied text attributes. boto3 hands
   * the number back as a `Decimal`, and `json.dumps` in `_ok` raises
   * `TypeError` on it.
   */
  predicate NumericText(it: Item) {
    exists k :: 0 <= k < |TextKeys| && TextKeys[k] in it && it[TextKeys[k]].N?
  }

  /** An item has a numeric text attribute exactly when its output element carries a number under a text key. */
  lemma NumericTextInOutput(it: Item)
    requires OutItem(it).Some?
    ensures NumericText(it) <==>
      exists k :: 0 <= k < |TextKeys| && Field(OutItem(it).value, TextKeys[k]).Some? && Field(OutItem(it).value, TextKeys[k]).value.JNum?
  {
    forall k | 0 <= k < |TextKeys|
      ensures Field(OutItem(it).value, TextKeys[k]) == Some(TextField(it, TextKeys[k]))
    {
      TextFieldOfOutput(it, k);
    }
  }

  /** Each copied text key of an output element holds the item's attribute as JSON. */
  lemma TextFieldOfOutput(it: Item, k: nat)
    requires OutItem(it).Some? && k < |TextKeys|
    ensures Field(OutItem(it).value, TextKeys[k]) == Some(TextField(it, TextKeys[k]))
  {
    TextKeyListed(k);
    OutItemFields(it);
  }

  lemma TextKeyListed(k: nat)
    requires k < |TextKeys|
    ensures TextKeys[k] in {"company", "url", "title", "description", "category", "loc_country", "loc_admin1", "loc_city"}
  {
  }

  /** The loop that fills `out`, one element per item in the response's order. */
  method MapItems(items: seq<Item>) returns (out: Option<seq<Json>>)
    ensures out.None? <==> exists i :: 0 <= i < |items| && OutItem(items[i]).None?
    ensures out.Some? ==> |out.value| == |items| && forall i :: 0 <= i < |items| ==> OutItem(items[i]) == Some(out.value[i])
  {
    var acc: seq<Json> := [];
    for i := 0 to |items|
      invariant |acc| == i
      invariant forall k :: 0 <= k < i ==> OutItem(items[k]) == Some(acc[k])
    {
      var o := OutItem(items[i]);
      if o.None? {
        assert OutItem(items[i]).None?;
        return None;
      }
      acc := acc + [o.value];
    }
    out := Some(acc);
  }

  datatype Reply = Reply(items: seq<Json>, nextCursor: Option<string>)

  /**
   * The tail of `lambda_handler` as written, from `TABLE.query`'s response on:
   * the cursor first, then the item loop, then `_ok`'s `json.dumps`.
   */
  method RespondAsWritten(resp: QueryResponse, dumps: Json -> seq<Base64Url.Byte>) returns (r: Option<Reply>)
    ensures r.None? <==>
              || NextCursorAsWritten(resp.lastKey, dumps).None?
              || (exists i :: 0 <= i < |resp.items| && OutItem(resp.items[i]).None?)
              || (exists i :: 0 <= i < |resp.items| && NumericText(resp.items[i]))
    ensures r.Some? ==>
              && |r.value.items| == |resp.items|
              && (forall i :: 0 <= i < |resp.items| ==> OutItem(resp.items[i]) == Some(r.value.items[i]))
              && Some(r.value.nextCursor) == NextCursorAsWritten(resp.lastKey, dumps)
  {
    var nextCursor := NextCursorAsWritten(resp.lastKey, dumps);
    if nextCursor.None? {
      return None;
    }
    var out := MapItems(resp.items);
    if out.None? {
      return None;
    }
    if exists i :: 0 <= i < |resp.items| && NumericText(resp.items[i]) {
      return None;
    }
    r := Some(Reply(out.value, nextCursor.value));
  }

  /** The same tail with the corrected cursor, which no key makes fail. */
  method Respond(resp: QueryResponse, dumps: Json -> seq<Base64Url.Byte>) returns (r: Option<Reply>)
    ensures r.None? <==>
              || (exists i :: 0 <= i < |resp.items| && OutItem(resp.items[i]).None?)
              || (exists i :: 0 <= i < |resp.items| && NumericText(resp.items[i]))
    ensures r.Some? ==>
              && |r.value.items| == |resp.items|
              && (forall i :: 0 <= i < |resp.items| ==> OutItem(resp.items[i]) == Some(r.value.items[i]))
              && r.value.nextCursor == NextCursor(resp.lastKey, dumps)
  {
    var nextCursor := NextCursor(resp.lastKey, dumps);
    var out := MapItems(resp.items);
    if out.None? {
      return None;
    }
    if exists i :: 0 <= i < |resp.items| && NumericText(resp.items[i]) {
      return None;
    }
    r := Some(Reply(out.value, nextCursor));
  }

  /**
   * `lambda_handler` as written: the cursor is computed before the items, so
   * a further page whose key holds a number makes the handler raise. The
   * reply's `json.dumps` in `_ok` raises on an item with a numeric text
   * attribute. `query` stands for `TABLE.query`; `None` is a request DynamoDB
   * rejects (an `ExclusiveStartKey` that is not a key of the index, say),
   * which raises out of the handler too.
   */
  method LambdaHandlerAsWritten(
    queryString: Option<map<string, string>>, now: int, dateParse: DateParse,
    dumps: Json -> seq<Base64Url.Byte>, loads: seq<Base64Url.Byte> -> Option<Json>,
    query: QueryRequest -> Option<QueryResponse>)
    returns (r: Option<Reply>)
    ensures var qs := queryString.GetOr(map[]);
      ReadParams(qs, now, dateParse).None? ==> r.None?
    ensures var qs := queryString.GetOr(map[]);
      (ReadParams(qs, now, dateParse).Some? &&
       query(RequestFor(ReadParams(qs, now, dateParse).value, loads)).None?) ==> r.None?
    ensures var qs := queryString.GetOr(map[]);
      (ReadParams(qs, now, dateParse).Some? &&
       query(RequestFor(ReadParams(qs, now, dateParse).value, loads)).Some?) ==>
        var resp := query(RequestFor(ReadParams(qs, now, dateParse).value, loads)).value;
        var cursor := NextCursorAsWritten(resp.lastKey, dumps);
        && (r.None? <==>
              || cursor.None?
              || (exists i :: 0 <= i < |resp.items| && OutItem(resp.items[i]).None?)
              || (exists i :: 0 <= i < |resp.items| && NumericText(resp.items[i])))
        && (r.Some? ==>
              && |r.value.items| == |resp.items|
              && (forall i :: 0 <= i < |resp.items| ==> OutItem(resp.items[i]) == Some(r.value.items[i]))
              && Some(r.value.nextCursor) == cursor)
  {
    var qs := if queryString.Some? then queryString.value else map[];
    var params := ReadParams(qs, now, dateParse);
    if params.None? {
      return None;
    }
    var p := params.value;
    var plan := BuildPlan(p);
    var start: Option<Json> := None;
    if p.cursor.Some? && p.cursor.value != "" {
      start := ParseCursor(p.cursor.value, loads);
    }
    var request := QueryRequest(plan, p.limit, false, start);
    assert request == RequestFor(p, loads);
    var answer := query(request);
    if answer.None? {
      return None;
    }
    r := RespondAsWritten(answer.value, dumps);
  }

  /**
   * `lambda_handler` with the corrected cursor (numbers written as JSON
   * integers). The response carries one element per returned item and a
   * cursor exactly when the query reports a further page; `_ok` still raises
   * on an item with a numeric text attribute, and a rejected query (`None`)
   * raises as in the handler as written.
   */
  method LambdaHandler(
    queryString: Option<map<string, string>>, now: int, dateParse: DateParse,
    dumps: Json -> seq<Base64Url.Byte>, loads: seq<Base64Url.Byte> -> Option<Json>,
    query: QueryRequest -> Option<QueryResponse>)
    returns (r: Option<Reply>)
    ensures var qs := queryString.GetOr(map[]);
      ReadParams(qs, now, dateParse).None? ==> r.None?
    ensures var qs := queryString.GetOr(map[]);
      (ReadParams(qs, now, dateParse).Some? &&
       query(RequestFor(ReadParams(qs, now, dateParse).value, loads)).None?) ==> r.None?
    ensures var qs := queryString.GetOr(map[]);
      (ReadParams(qs, now, dateParse).Some? &&
       query(RequestFor(ReadParams(qs, now, dateParse).value, loads)).Some?) ==>
        var resp := query(RequestFor(ReadParams(qs, now, dateParse).value, loads)).value;
        && (r.None? <==>
              || (exists i :: 0 <= i < |resp.items| && OutItem(resp.items[i]).None?)
              || (exists i :: 0 <= i < |resp.items| && NumericText(resp.items[i])))
        && (r.Some? ==>
              && |r.value.items| == |resp.items|
              && (forall i :: 0 <= i < |resp.items| ==> OutItem(resp.items[i]) == Some(r.value.items[i]))
              && r.value.nextCursor == NextCursor(resp.lastKey, dumps))
  {
    var qs := if queryString.Some? then queryString.value else map[];
    var params := ReadParams(qs, now, dateParse);
    if params.None? {
      return None;
    }
    var p := params.value;
    var plan := BuildPlan(p);
    var start: Option<Json> := None;
    if p.cursor.Some? && p.cursor.value != "" {
      start := ParseCursor(p.cursor.value, loads);
    }
    var request := QueryRequest(plan, p.limit, false, start);
    assert request == RequestFor(p, loads);
    var answer := query(request);
    if answer.None? {
      return None;
    }
    r := Respond(answer.value, dumps);
  }
}
