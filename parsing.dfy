/**
 * The pure helpers of `scraper/parsing.py`: the keyword classifier that
 * labels a posting "it" or "other", the depth-first search for a schema.org
 * JobPosting inside decoded JSON-LD, and the mapping of country names to
 * ISO 3166-1 alpha-2 codes.
 */
module Parsing {
  import opened Wrappers
  import opened Text
  import opened Json

  // ---------------------------------------------------------------------
  // Keyword classifier
  // ---------------------------------------------------------------------

  /**
   * The alternatives of the classifier's pattern, written out: `back[- ]?end`,
   * `full[- ]?stack` and `help ?desk` each stand for their spellings.
   */
  const Keywords: seq<string> := [
    "software", "developer", "engineer", "sde", "swe", "frontend",
    "backend", "back-end", "back end", "fullstack", "full-stack", "full stack",
    "ios", "android", "devops", "sre", "site reliability", "platform", "infra", "cloud",
    "security engineer", "secops", "data engineer", "data scientist", "ml engineer",
    "machine learning", "ai", "qa", "test", "automation", "systems engineer",
    "network engineer", "sysadmin", "it support", "helpdesk", "help desk"
  ]

  /** A character `\b` counts as part of a word (ASCII letters, digits, '_'). */
  predicate IsWordChar(c: char) { IsLetter(c) || IsDigit(c) || c == '_' }

  /**
   * `word` (lower case, starting and ending with a letter) matches `text` at
   * `i` ignoring case, with a word boundary on both sides.
   */
  predicate WholeWordAt(text: string, word: string, i: nat) {
    i + |word| <= |text|
    && Lower(text[i..i + |word|]) == word
    && (i == 0 || !IsWordChar(text[i - 1]))
    && (i + |word| == |text| || !IsWordChar(text[i + |word|]))
  }

  /** Some word of `words` matches `text` at position `i`. */
  predicate MatchAt(text: string, words: seq<string>, i: nat) {
    exists k :: 0 <= k < |words| && WholeWordAt(text, words[k], i)
  }

  /** Some word of `words` occurs in `text` as a whole word. */
  predicate Mentions(text: string, words: seq<string>) {
    exists i: nat :: i <= |text| && MatchAt(text, words, i)
  }

  /** What `_IT_TITLE_RE.search` finds: some keyword occurs in `text` as a whole word. */
  predicate MentionsKeyword(text: string) {
    Mentions(text, Keywords)
  }

  /** Whether one of the alternatives from index `k` on matches at position `i`. */
  function AlternativeAt(text: string, words: seq<string>, i: nat, k: nat): (r: bool)
    requires k <= |words|
    ensures r <==> exists k' :: k <= k' < |words| && WholeWordAt(text, words[k'], i)
    decreases |words| - k
  {
    if k == |words| then false
    else WholeWordAt(text, words[k], i) || AlternativeAt(text, words, i, k + 1)
  }

  /** The regex search from position `i` on: tries every start and every alternative. */
  function SearchFrom(text: string, words: seq<string>, i: nat): (r: bool)
    requires i <= |text|
    ensures r <==> exists j: nat :: i <= j <= |text| && MatchAt(text, words, j)
    decreases |text| - i
  {
    if AlternativeAt(text, words, i, 0) then
      assert MatchAt(text, words, i);
      true
    else
      assert !MatchAt(text, words, i);
      i < |text| && SearchFrom(text, words, i + 1)
  }

  /** `re.search(r"\b" + phrase + r"\b", text, re.I)` for one lower-case phrase, from position `i` on. */
  function PhraseFrom(text: string, phrase: string, i: nat): (r: bool)
    requires i <= |text|
    ensures r <==> exists j: nat :: i <= j <= |text| && WholeWordAt(text, phrase, j)
    decreases |text| - i
  {
    WholeWordAt(text, phrase, i) || (i < |text| && PhraseFrom(text, phrase, i + 1))
  }

  /** The text the classifier reads: `f"{title or ''} {desc or ''}"`. */
  function CategoryText(title: Option<string>, desc: Option<string>): string {
    OrElse(title, "") + " " + OrElse(desc, "")
  }

  /** `classify_category(title, desc)`. */
  function ClassifyCategory(title: Option<string>, desc: Option<string>): (r: string)
    ensures r == "it" || r == "other"
    ensures r == "it" <==> MentionsKeyword(CategoryText(title, desc))
  {
    var text := CategoryText(title, desc);
    if SearchFrom(text, Keywords, 0) then "it" else "other"
  }

  /** A match survives when more text is appended after a separating space. */
  lemma MatchBeforeSpace(a: string, b: string, word: string, i: nat)
    requires WholeWordAt(a, word, i)
    ensures WholeWordAt(a + " " + b, word, i)
  {
    var t := a + " " + b;
    assert t[i..i + |word|] == a[i..i + |word|];
    if i > 0 { assert t[i - 1] == a[i - 1]; }
    if i + |word| < |a| { assert t[i + |word|] == a[i + |word|]; }
    else { assert t[i + |word|] == ' '; }
  }

  /** A match survives when text is prepended before a separating space. */
  lemma MatchAfterSpace(a: string, b: string, word: string, i: nat)
    requires WholeWordAt(b, word, i)
    ensures WholeWordAt(a + " " + b, word, |a| + 1 + i)
  {
    var t := a + " " + b;
    var j := |a| + 1 + i;
    assert t[j..j + |word|] == b[i..i + |word|];
    if i > 0 { assert t[j - 1] == b[i - 1]; } else { assert t[j - 1] == ' '; }
    if i + |word| < |b| { assert t[j + |word|] == b[i + |word|]; }
  }

  /** A mention survives when text is appended after a separating space. */
  lemma MentionsBeforeSpace(a: string, b: string, words: seq<string>)
    requires Mentions(a, words)
    ensures Mentions(a + " " + b, words)
  {
    var i: nat :| i <= |a| && MatchAt(a, words, i);
    var k :| 0 <= k < |words| && WholeWordAt(a, words[k], i);
    MatchBeforeSpace(a, b, words[k], i);
    assert MatchAt(a + " " + b, words, i);
  }

  /** A mention survives when text is prepended before a separating space. */
  lemma MentionsAfterSpace(a: string, b: string, words: seq<string>)
    requires Mentions(b, words)
    ensures Mentions(a + " " + b, words)
  {
    var i: nat :| i <= |b| && MatchAt(b, words, i);
    var k :| 0 <= k < |words| && WholeWordAt(b, words[k], i);
    MatchAfterSpace(a, b, words[k], i);
    assert MatchAt(a + " " + b, words, |a| + 1 + i);
  }

  /** A keyword in the title makes the posting "it", whatever the description. */
  lemma TitleKeywordDecides(title: string, desc: Option<string>)
    requires MentionsKeyword(title)
    ensures ClassifyCategory(Some(title), desc) == "it"
  {
    assert OrElse(Some(title), "") == title;
    MentionsBeforeSpace(title, OrElse(desc, ""), Keywords);
  }

  /** A keyword in the description makes the posting "it", whatever the title. */
  lemma DescriptionKeywordDecides(title: Option<string>, desc: string)
    requires MentionsKeyword(desc)
    ensures ClassifyCategory(title, Some(desc)) == "it"
  {
    assert OrElse(Some(desc), "") == desc;
    MentionsAfterSpace(OrElse(title, ""), desc, Keywords);
  }

  /** Case does not matter: texts that agree once lower-cased mention the same words. */
  lemma MentionsIgnoresCase(a: string, b: string, words: seq<string>)
    requires Lower(a) == Lower(b)
    ensures Mentions(a, words) == Mentions(b, words)
  {
    assert |a| == |Lower(a)| == |b|;
    forall i: nat | MatchAt(a, words, i) ensures MatchAt(b, words, i) {
      var k :| 0 <= k < |words| && WholeWordAt(a, words[k], i);
      SameFoldMatch(a, b, words[k], i);
    }
    forall i: nat | MatchAt(b, words, i) ensures MatchAt(a, words, i) {
      var k :| 0 <= k < |words| && WholeWordAt(b, words[k], i);
      SameFoldMatch(b, a, words[k], i);
    }
  }

  lemma SameFoldMatch(a: string, b: string, word: string, i: nat)
    requires Lower(a) == Lower(b) && WholeWordAt(a, word, i)
    ensures WholeWordAt(b, word, i)
  {
    assert |a| == |Lower(a)| == |b|;
    var n := |word|;
    var x, y := b[i..i + n], a[i..i + n];
    assert Lower(x) == Lower(y) by {
      forall j | 0 <= j < n ensures Lower(x)[j] == Lower(y)[j] {
        assert Lower(b)[i + j] == Lower(a)[i + j];
      }
    }
    if i > 0 { assert Lower(a)[i - 1] == Lower(b)[i - 1]; }
    if i + n < |a| { assert Lower(a)[i + n] == Lower(b)[i + n]; }
  }

  /** Upper-casing the title does not change its category. */
  lemma ClassifyIgnoresCase(title: string, desc: Option<string>)
    ensures ClassifyCategory(Some(Upper(title)), desc) == ClassifyCategory(Some(title), desc)
  {
    var d := OrElse(desc, "");
    var a := CategoryText(Some(Upper(title)), desc);
    var b := CategoryText(Some(title), desc);
    assert OrElse(Some(Upper(title)), "") == Upper(title);
    assert OrElse(Some(title), "") == title;
    assert a == Upper(title) + " " + d;
    assert b == title + " " + d;
    assert Lower(a) == Lower(b) by {
      forall j | 0 <= j < |a| ensures Lower(a)[j] == Lower(b)[j] {
        if j < |title| { assert a[j] == Upper(title)[j]; assert b[j] == title[j]; }
        else { assert a[j] == b[j]; }
      }
    }
    MentionsIgnoresCase(a, b, Keywords);
  }

  /** The keyword `help desk` may straddle the title and the description. */
  lemma TitleAndDescriptionJoin()
    ensures ClassifyCategory(Some("Help"), Some("Desk")) == "it"
  {
    var text := CategoryText(Some("Help"), Some("Desk"));
    assert text == "Help Desk";
    assert Keywords[35] == "help desk";
    assert WholeWordAt(text, Keywords[35], 0);
    assert MatchAt(text, Keywords, 0);
  }

  lemma SoftwareEngineerIsIt()
    ensures ClassifyCategory(Some("Senior Software Engineer"), None) == "it"
  {
    var text := CategoryText(Some("Senior Software Engineer"), None);
    assert text == "Senior Software Engineer ";
    assert text[7..15] == "Software";
    assert WholeWordAt(text, Keywords[0], 7);
    assert MatchAt(text, Keywords, 7);
  }

  // ---------------------------------------------------------------------
  // JSON-LD JobPosting search
  // ---------------------------------------------------------------------

  /** The keys searched first, in this order, because they usually wrap the posting. */
  const ContainerKeys: seq<string> := ["@graph", "graph", "mainEntity", "itemListElement"]

  /** An `@type` value naming JobPosting: such a string, or a list holding one. */
  predicate IsPostingType(t: Json) {
    match t
    case JStr(s) => Lower(s) == "jobposting"
    case JArr(xs) => exists i :: 0 <= i < |xs| && xs[i].JStr? && Lower(xs[i].s) == "jobposting"
    case _ => false
  }

  /** `is_jobposting(d)` for an object's members. */
  predicate IsJobPosting(ms: seq<Member>) {
    var t := Get(ms, "@type");
    t.Some? && Truthy(t.value) && IsPostingType(t.value)
  }

  predicate IsPosting(j: Json) { j.JObj? && IsJobPosting(j.members) }

  /** `sub` is `node` or is reached from it through object values and list items. */
  predicate Within(sub: Json, node: Json) {
    sub == node ||
    match node
    case JObj(ms) => exists i :: 0 <= i < |ms| && Within(sub, ms[i].value)
    case JArr(xs) => exists i :: 0 <= i < |xs| && Within(sub, xs[i])
    case _ => false
  }

  /** Some JobPosting object is reachable in `node`. */
  predicate HasPosting(node: Json) {
    match node
    case JObj(ms) => IsJobPosting(ms) || exists i :: 0 <= i < |ms| && HasPosting(ms[i].value)
    case JArr(xs) => exists i :: 0 <= i < |xs| && HasPosting(xs[i])
    case _ => false
  }

  /**
   * `_first_jobposting(node)`: the node itself if it is a JobPosting, else
   * the first one found under the container keys, then under every value of
   * an object or item of a list; `{}` when there is none.
   */
  function FirstJobPosting(node: Json): (r: Json)
    ensures r == Empty <==> !HasPosting(node)
    ensures r != Empty ==> IsPosting(r) && Within(r, node)
    ensures IsPosting(node) ==> r == node
  {
    match node
    case JObj(ms) =>
      if IsJobPosting(ms) then node
      else
        var c := FromContainers(ms, 0);
        if c != Empty then PostingIsTruthy(c); ReachablePosting(c, node); c
        else FromValues(ms, 0)
    case JArr(xs) => FromItems(xs, 0)
    case _ => Empty
  }

  /** A JobPosting object is never `{}`, so `if found:` tests for a hit. */
  lemma PostingIsTruthy(j: Json)
    requires IsPosting(j)
    ensures Truthy(j) && j != Empty
  {
    assert HasKey(j.members, "@type");
  }

  function FromContainers(ms: seq<Member>, k: nat): (r: Json)
    requires k <= |ContainerKeys|
    ensures r == Empty || (IsPosting(r) && exists i :: 0 <= i < |ms| && Within(r, ms[i].value))
    decreases ms, |ContainerKeys| - k
  {
    if k == |ContainerKeys| then Empty
    else
      var i := KeyIndex(ms, ContainerKeys[k]);
      var found := if i < |ms| then FirstJobPosting(ms[i].value) else Empty;
      if Truthy(found) then found else FromContainers(ms, k + 1)
  }

  function FromValues(ms: seq<Member>, i: nat): (r: Json)
    requires i <= |ms|
    ensures r == Empty <==> forall j :: i <= j < |ms| ==> !HasPosting(ms[j].value)
    ensures r != Empty ==> IsPosting(r) && exists j :: i <= j < |ms| && Within(r, ms[j].value)
    decreases ms, |ms| - i
  {
    if i == |ms| then Empty
    else
      var found := FirstJobPosting(ms[i].value);
      if found != Empty then PostingIsTruthy(found); found
      else FromValues(ms, i + 1)
  }

  function FromItems(xs: seq<Json>, i: nat): (r: Json)
    requires i <= |xs|
    ensures r == Empty <==> forall j :: i <= j < |xs| ==> !HasPosting(xs[j])
    ensures r != Empty ==> IsPosting(r) && exists j :: i <= j < |xs| && Within(r, xs[j])
    decreases xs, |xs| - i
  {
    if i == |xs| then Empty
    else
      var found := FirstJobPosting(xs[i]);
      if found != Empty then PostingIsTruthy(found); found
      else FromItems(xs, i + 1)
  }

  /** Completeness: a JobPosting anywhere in the tree makes the result non-empty. */
  lemma {:induction false} FindsAnyPosting(d: Json, node: Json)
    requires IsPosting(d) && Within(d, node)
    ensures FirstJobPosting(node) != Empty
  {
    ReachablePosting(d, node);
  }

  lemma {:induction false} ReachablePosting(d: Json, node: Json)
    requires IsPosting(d) && Within(d, node)
    ensures HasPosting(node)
  {
    if d != node {
      match node
      case JObj(ms) =>
        var i :| 0 <= i < |ms| && Within(d, ms[i].value);
        ReachablePosting(d, ms[i].value);
      case JArr(xs) =>
        var i :| 0 <= i < |xs| && Within(d, xs[i]);
        ReachablePosting(d, xs[i]);
    }
  }

  /** Scalars hold no posting. */
  lemma ScalarsHaveNoPosting(node: Json)
    requires !node.JObj? && !node.JArr?
    ensures FirstJobPosting(node) == Empty
  {
  }

  /** A `@graph` wrapper around a posting is looked through. */
  lemma GraphIsSearched(posting: Json)
    requires IsPosting(posting)
    ensures FirstJobPosting(JObj([Member("@graph", JArr([posting]))])) == posting
  {
    var ms := [Member("@graph", JArr([posting]))];
    assert Get(ms, "@type") == None;
    assert KeyIndex(ms, "@graph") == 0;
    PostingIsTruthy(posting);
    assert FirstJobPosting(posting) == posting;
    assert FromItems([posting], 0) == posting;
    assert FirstJobPosting(JArr([posting])) == posting;
    assert FromContainers(ms, 0) == posting;
  }

  // ---------------------------------------------------------------------
  // Country names
  // ---------------------------------------------------------------------

  /** `_COUNTRY_ALIASES`: lower-case names and abbreviations to ISO 3166-1 alpha-2 codes. */
  const CountryAliases: map<string, string> := map[
    "united states of america" := "US", "united states" := "US",
    "u.s." := "US", "u.s.a." := "US", "usa" := "US",
    "united kingdom" := "GB", "uk" := "GB", "england" := "GB", "scotland" := "GB", "wales" := "GB",
    "ireland" := "IE", "canada" := "CA", "australia" := "AU", "germany" := "DE",
    "france" := "FR", "spain" := "ES", "italy" := "IT", "netherlands" := "NL",
    "sweden" := "SE", "norway" := "NO", "denmark" := "DK", "switzerland" := "CH",
    "japan" := "JP", "korea, republic of" := "KR", "south korea" := "KR",
    "india" := "IN", "brazil" := "BR", "mexico" := "MX", "singapore" := "SG",
    "united arab emirates" := "AE", "uae" := "AE"
  ]

  /** Two upper-case ASCII letters. */
  predicate IsCountryCode(s: string) {
    |s| == 2 && IsUpper(s[0]) && IsUpper(s[1])
  }

  lemma AliasesAreCodes()
    ensures forall k :: k in CountryAliases ==> IsCountryCode(CountryAliases[k])
  {
  }

  /** First index at or after `p` that does not hold whitespace. */
  function SpacesEnd(s: string, p: nat): (q: nat)
    requires p <= |s|
    ensures p <= q <= |s|
    ensures forall k :: p <= k < q ==> IsSpace(s[k])
    ensures q < |s| ==> !IsSpace(s[q])
    decreases |s| - p
  {
    if p < |s| && IsSpace(s[p]) then SpacesEnd(s, p + 1) else p
  }

  /** The pattern `\s+\(.*\)$` matches `s` from position `p`. */
  predicate ParenTailAt(s: string, p: nat) {
    p < |s| && IsSpace(s[p]) &&
    var q := SpacesEnd(s, p);
    q + 1 < |s| && s[q] == '(' && s[|s| - 1] == ')'
    && forall k :: q < k < |s| - 1 ==> s[k] != '\n'
  }

  /** The leftmost position at or after `from` where the pattern matches, or `|s|`. */
  function ParenTailFrom(s: string, from: nat): (p: nat)
    requires from <= |s|
    ensures from <= p <= |s|
    decreases |s| - from
  {
    if from == |s| || ParenTailAt(s, from) then from else ParenTailFrom(s, from + 1)
  }

  lemma {:induction false} ParenTailFromIsLeftmost(s: string, from: nat)
    requires from <= |s|
    ensures ParenTailFrom(s, from) < |s| ==> ParenTailAt(s, ParenTailFrom(s, from))
    ensures forall k :: from <= k < ParenTailFrom(s, from) ==> !ParenTailAt(s, k)
    decreases |s| - from
  {
    if from < |s| && !ParenTailAt(s, from) {
      ParenTailFromIsLeftmost(s, from + 1);
    }
  }

  /** `re.sub(r"\s+\(.*\)$", "", s)`: cut a trailing parenthesised note and the space before it. */
  function DropParenNote(s: string): (r: string)
    ensures |r| <= |s| && r == s[..|r|]
  {
    s[..ParenTailFrom(s, 0)]
  }

  /** What is cut is the leftmost match of the pattern; with no match nothing is cut. */
  lemma DropsLeftmostNote(s: string)
    ensures DropParenNote(s) != s ==> ParenTailAt(s, |DropParenNote(s)|)
    ensures forall k :: 0 <= k < |DropParenNote(s)| ==> !ParenTailAt(s, k)
    ensures DropParenNote(s) == s <==> forall k :: 0 <= k < |s| ==> !ParenTailAt(s, k)
  {
    ParenTailFromIsLeftmost(s, 0);
  }

  /** `_norm_country(name)`. */
  function NormCountry(name: string): (r: string)
    ensures r == "" || IsCountryCode(r)
  {
    if name == "" then ""
    else
      var key := DropParenNote(Lower(Strip(name)));
      var n := Strip(name);
      if |n| == 2 && IsLetter(n[0]) && IsLetter(n[1]) then Upper(n)
      else AliasCode(key)
  }

  /** `_COUNTRY_ALIASES.get(key, "")`. */
  function AliasCode(key: string): (r: string)
    ensures r == "" || IsCountryCode(r)
  {
    if key in CountryAliases then AliasesAreCodes(); CountryAliases[key] else ""
  }

  /** A code is its own normal form, so normalising twice changes nothing. */
  lemma NormCountryIdempotent(name: string)
    ensures NormCountry(NormCountry(name)) == NormCountry(name)
  {
    var r := NormCountry(name);
    if r != "" {
      assert IsStripped(r);
      StrippedIsFixed(r);
      assert Upper(r) == r;
    }
  }

  /** Two letters are read as a code, even where an alias exists. */
  lemma TwoLettersWin(name: string)
    requires |name| == 2 && IsLetter(name[0]) && IsLetter(name[1])
    ensures NormCountry(name) == Upper(name)
  {
    StrippedIsFixed(name);
  }

  /** "uk" is taken for the code "UK", not for its alias "GB". */
  lemma UkIsNotAnAlias()
    ensures NormCountry("uk") == "UK"
    ensures CountryAliases["uk"] == "GB"
  {
    assert NormCountry("uk") == "UK" by {
      TwoLettersWin("uk");
      assert Upper("uk") == "UK";
    }
  }

  /** The shape every alias key has: non-empty, lower case, stripped and free of '('. */
  predicate AliasKeyShape(k: string) {
    k != [] && Lower(k) == k && IsStripped(k) && !HasChar(k, '(')
  }

  lemma NoteStripped(c: string, note: string)
    requires c != [] && !IsSpace(c[0])
    ensures Strip(c + " (" + note + ")") == c + " (" + note + ")"
  {
    var name := c + " (" + note + ")";
    assert name[0] == c[0];
    assert name[|name| - 1] == ')';
    StrippedIsFixed(name);
  }

  lemma NoteLowered(c: string, note: string)
    ensures Lower(c + " (" + note + ")") == Lower(c) + " (" + Lower(note) + ")"
  {
    var name := c + " (" + note + ")";
    var low := Lower(c) + " (" + Lower(note) + ")";
    assert |Lower(name)| == |low|;
    forall j | 0 <= j < |name| ensures Lower(name)[j] == low[j] {
      if j < |c| { assert name[j] == c[j]; }
      else if j < |c| + 2 { }
      else if j < |name| - 1 { assert name[j] == note[j - |c| - 2]; }
    }
  }

  /** The note and the space before it are cut, and nothing else. */
  lemma NoteDropped(k: string, m: string)
    requires k != [] && IsStripped(k) && !HasChar(k, '(') && !HasChar(m, '\n')
    ensures DropParenNote(k + " (" + m + ")") == k
  {
    var s := k + " (" + m + ")";
    var n := |k|;
    assert s[..n] == k;
    assert s[n] == ' ' && s[n + 1] == '(';
    assert SpacesEnd(s, n + 1) == n + 1;
    assert SpacesEnd(s, n) == n + 1;
    assert ParenTailAt(s, n) by {
      forall j | n + 1 < j < |s| - 1 ensures s[j] != '\n' {
        assert s[j] == m[j - n - 2];
      }
    }
    forall p | 0 <= p < n ensures !ParenTailAt(s, p) {
      NoParenBeforeEnd(k, s, p);
    }
    ParenTailFromIsLeast(s, 0, n);
  }

  /** Past the empty and two-letter cases, only the lookup key matters. */
  lemma NormOfKey(name: string, key: string)
    requires name != "" && |Strip(name)| != 2
    requires DropParenNote(Lower(Strip(name))) == key
    ensures NormCountry(name) == AliasCode(key)
  {
  }

  /** The lookup key of a name followed by a note: the lower-cased name. */
  lemma NoteKey(c: string, note: string)
    requires AliasKeyShape(Lower(c)) && !HasChar(Lower(note), '\n') && c != [] && !IsSpace(c[0])
    ensures DropParenNote(Lower(Strip(c + " (" + note + ")"))) == Lower(c)
    ensures |Strip(c + " (" + note + ")")| > 3
  {
    NoteStripped(c, note);
    NoteLowered(c, note);
    NoteDropped(Lower(c), Lower(note));
  }

  /** A name in any casing, followed by a parenthesised note, is looked up without the note. */
  lemma AliasWithNote(c: string, note: string)
    requires AliasKeyShape(Lower(c)) && !HasChar(note, '\n')
    ensures NormCountry(c + " (" + note + ")") == AliasCode(Lower(c))
  {
    assert c != [] && !IsSpace(c[0]) by { assert Lower(c)[0] == LowerChar(c[0]); }
    assert !HasChar(Lower(note), '\n') by {
      forall j | 0 <= j < |note| ensures Lower(note)[j] != '\n' { }
    }
    NoteKey(c, note);
    NormOfKey(c + " (" + note + ")", Lower(c));
  }

  /** Inside a stripped key without '(' the pattern cannot start. */
  lemma NoParenBeforeEnd(k: string, s: string, p: nat)
    requires k != [] && IsStripped(k) && !HasChar(k, '(')
    requires |k| < |s| && s[..|k|] == k && p < |k|
    ensures !ParenTailAt(s, p)
  {
    if IsSpace(s[p]) {
      var q := SpacesEnd(s, p);
      assert !IsSpace(s[|k| - 1]) by { assert s[|k| - 1] == k[|k| - 1]; }
      assert q < |k|;
      assert s[q] == k[q];
    }
  }

  lemma {:induction false} ParenTailFromIsLeast(s: string, from: nat, n: nat)
    requires from <= n < |s| && ParenTailAt(s, n)
    requires forall p :: from <= p < n ==> !ParenTailAt(s, p)
    ensures ParenTailFrom(s, from) == n
    decreases n - from
  {
    if from < n {
      ParenTailFromIsLeast(s, from + 1, n);
    }
  }

  lemma {:induction false} ParenTailNone(s: string, from: nat)
    requires from <= |s|
    requires forall p :: from <= p < |s| ==> !ParenTailAt(s, p)
    ensures ParenTailFrom(s, from) == |s|
    decreases |s| - from
  {
    if from < |s| { ParenTailNone(s, from + 1); }
  }

  /** Without whitespace nothing is stripped and there is no note to cut. */
  lemma NoSpaceKey(name: string)
    requires name != [] && forall i :: 0 <= i < |name| ==> !IsSpace(name[i])
    ensures DropParenNote(Lower(Strip(name))) == Lower(name)
    ensures |Strip(name)| == |name|
  {
    StrippedIsFixed(name);
    ParenTailNone(Lower(name), 0);
  }

  /** "united states" is a key of the alias table's shape, and the lower-case form of "United States". */
  lemma UnitedStatesKey(c: string, k: string)
    requires c == "United States" && k == "united states"
    ensures Lower(c) == k && AliasKeyShape(k)
  {
    forall i | 0 <= i < |k| ensures k[i] != '(' { }
  }

  /** "United States (Remote)" is read as the United States. */
  lemma RemoteNoteDropped()
    ensures NormCountry("United States" + " (" + "Remote" + ")") == "US"
  {
    var c, k, note := "United States", "united states", "Remote";
    UnitedStatesKey(c, k);
    assert !HasChar(note, '\n');
    AliasWithNote(c, note);
    assert AliasCode(k) == "US";
  }

  lemma UnknownCountry()
    ensures NormCountry("") == ""
    ensures NormCountry("Atlantis") == ""
  {
    var c, k := "Atlantis", "atlantis";
    assert DropParenNote(Lower(Strip(c))) == k by {
      NoSpaceKey(c);
      assert Lower(c) == k;
    }
    NormOfKey(c, k);
    assert k !in CountryAliases;
  }
}
