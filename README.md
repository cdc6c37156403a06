# faang-jobs-scraper, modelled in Dafny

faang-jobs-scraper collects job postings from the career sites of Amazon,
Google, Meta and Netflix (Apple is registered too). It runs each site's
discovery routine to find job detail URLs. Each posting's page is parsed into
a category, a location and a remote flag. Postings are written into a DynamoDB
table keyed by company and URL, and a Lambda handler serves the table through
three secondary indexes. This project is a model of that core. It states what
each part promises and proves it.

| module (file) | what it models |
|---|---|
| `Wrappers` (wrappers.dfy) | `Option`, the stand-in for "absent" and for "raised" |
| `Text` (text.dfy) | the `str` methods the core calls: `strip`, `lower`/`upper`, `split`, `isdigit`, `int(s)`, `str(n)` |
| `Json` (json.dfy) | values as `json.loads` returns them, Python truthiness, `dict.get` |
| `Sorting` (sorting.dfy) | Python's string order and `sorted(set(xs))` |
| `Urls` (urls.dfy) | `urllib.parse.urlparse`, and `urljoin` against a base of the form `scheme://host` |
| `Base64Url` (base64.dfy) | `base64.urlsafe_b64encode` / `urlsafe_b64decode` (section 5 of RFC 4648) |
| `Store` (store.dfy) | storage/dynamo.py: the run lock, the paged `list_urls`, the upsert writers, `finalize_company` |
| `Runner` (runner.dfy) | scraper/runner.py: `process_company` and `run` |
| `Handler` (handler.dfy) | api/handler.py: parameter parsing, index choice, the cursor, the response items |
| `Parsing` (parsing.dfy) | scraper/parsing.py: `classify_category`, `_first_jobposting`, `_norm_country` |
| `Location` (location.dfy) | scraper/parsing.py: `_try_eightfold_locations`, `parse_location_fields` |
| `Plateau` (plateau.dfy) | the "scroll until the count stops growing" loop shared by the Google and Meta scrapers |
| `Amazon`, `Google`, `Meta`, `Netflix` | the `discover` routines of scraper/companies/ |

The model follows the code's structure:
- State that the source updates in place is a class. `Store.Table` holds the
  table as a map, and `Netflix.Collector` holds the set that the nested `rec`
  closure adds to.
- Every loop of the source is a method with a `while` or `for` loop. It is
  proved equal to a function that specifies it, and the lemmas are about those
  functions.
- Code without loops is written as functions.
- The outside world is a parameter:
  - the clock;
  - the HTTP session and the browser, given as what a page shows on each pass;
  - the discovery and description functions, `json.dumps`/`json.loads` and `dateutil`;
  - the DynamoDB query.
- An exception is `None`.

On one point the repository's design notes and the code differ, and the model
follows the code. The notes describe a reconciliation step that compares
discovered URLs with the catalogue, fetches only the new ones and deletes the
stale ones. scraper/runner.py does not call storage/dynamo.py at all. It skips
URLs in a local "seen" set and writes new rows to output files. `Runner` models
that. `Store` models the storage helpers as operations of their own:
`FinalizeCompany` is the deletion and `BatchUpsertItems` the write.

## Model

| member | source | states |
|---|---|---|
| Text.Lower | api/handler.py:18 | `lower()`, character by character; the LowerIdempotent and LowerOfUpper rows characterise it |
| Text.Upper | api/handler.py:42 | `upper()`, character by character; the LowerOfUpper row characterises it |
| Text.LowerIdempotent | api/handler.py:18 | lowering a lowered string changes nothing |
| Text.LowerOfUpper | api/handler.py:42 | `s.upper().lower() == s.lower()`: lowering forgets any case `upper` set |
| Text.OrElse | storage/dynamo.py:55-61 | `v or default` is the value when it is a non-empty string, and the default when it is missing or empty |
| Text.Strip | api/handler.py:18 | `strip()` returns a string no longer than the input that neither starts nor ends with whitespace |
| Text.TrimStartIsSuffix | api/handler.py:18 | what the left strip keeps is a suffix of the input |
| Text.TrimStartDropsSpace | api/handler.py:18 | what the left strip drops is whitespace |
| Text.TrimEndIsPrefix | api/handler.py:18 | what the right strip keeps is a prefix of the input |
| Text.TrimEndDropsSpace | api/handler.py:18 | what the right strip drops is whitespace |
| Text.StrippedIsFixed | scraper/parsing.py:151 | stripping a string that is already stripped changes nothing |
| Text.TrimEndChar | scraper/companies/meta.py:46 | `rstrip("/")` keeps a prefix that does not end in '/' and drops only '/' characters |
| Text.FindChar | scraper/parsing.py:269 | the index found holds the character, and no earlier index does |
| Text.Split | scraper/parsing.py:269 | `split` yields at least one piece |
| Text.SplitHasNoSep | scraper/parsing.py:269 | no piece of a split contains the separator |
| Text.SplitJoin | scraper/parsing.py:269 | joining the pieces with the separator gives back the original string |
| Text.StrippedPartsAreStripped | scraper/parsing.py:269 | every part kept by the comma-split comprehension is non-blank and stripped |
| Text.NatToString | scraper/companies/netflix.py:53 | `str(n)` is a digit string whose value is `n`, with no leading zero |
| Text.IntToString | scraper/companies/netflix.py:51 | `str(n)` for an integer; the IntToStringIsDigits and ParseIntOfInt rows characterise it |
| Text.IntToStringIsDigits | scraper/companies/netflix.py:51 | `str(n).isdigit()` holds exactly when n >= 0 |
| Text.ParseIntOfInt | scraper/companies/netflix.py:51 | `int(str(n)) == n` for every integer, negative ones included |
| Text.ParseInt | api/handler.py:48 | `int(s)` of a string that is digits once stripped is the value of those digits |
| Text.ParseIntOfNat | api/handler.py:23 | `int(str(n)) == n` for every natural number |
| Json.KeyIndexIsFirst | scraper/parsing.py:222 | the lookup stops at the first member with the key, and reaches the end only when there is none |
| Json.GetSpec | scraper/parsing.py:227 | `get` finds a value exactly when the key is present, and that value is the key's member |
| Json.GetOfDistinct | api/handler.py:101-112 | in an object without repeated keys, `get` returns each member's own value |
| Sorting.BelowIrreflexive | scraper/companies/amazon.py:42 | no string sorts before itself |
| Sorting.BelowTransitive | scraper/companies/amazon.py:42 | the string order is transitive |
| Sorting.BelowTotal | scraper/companies/amazon.py:42 | any two different strings are ordered one way or the other |
| Sorting.BelowAsymmetric | scraper/companies/amazon.py:42 | two strings never sort before each other |
| Sorting.Insert | scraper/companies/amazon.py:42 | inserting keeps the list ascending, adds exactly the new element, and adds nothing if it is already there |
| Sorting.SortDistinct | scraper/companies/amazon.py:42 | `sorted(set(xs))` is strictly ascending and holds exactly the elements of `xs` |
| Sorting.SortedUnique | scraper/companies/amazon.py:42 | there is only one ascending duplicate-free listing of a set |
| Sorting.SortedList | scraper/companies/google.py:154 | `sorted(urls)` of a set is strictly ascending, holds exactly its elements, and has its size |
| Urls.UrlParse | scraper/companies/google.py:34 | `urlparse`: the clean-up, the scheme, the network location (nothing where '[' and ']' do not balance), then path, parameters, query and fragment; the DropLeadingC0, DropUnsafe, SplitScheme, NetlocEnd, CleanUrl and ParsesAs rows characterise it |
| Urls.Join | scraper/companies/google.py:48 | `urljoin` onto a base with an empty path, with the differences listed under "Left out"; the JoinCases, JoinKeepsHttp and JoinAbsolutePath rows characterise it |
| Urls.DropLeadingC0 | scraper/companies/google.py:34 | `urlsplit` drops leading control characters and spaces, keeping a suffix |
| Urls.DropUnsafe | scraper/companies/google.py:34 | tabs, carriage returns and newlines are removed wherever they occur |
| Urls.SplitScheme | scraper/companies/google.py:34 | when no scheme is recognised, the rest is the whole URL |
| Urls.NetlocEnd | scraper/companies/google.py:34 | the network location runs up to the first '/', '?' or '#' |
| Urls.LastSlash | scraper/companies/google.py:48 | the index found holds the last '/' of the string, or there is no '/' at all |
| Urls.JoinCases | scraper/companies/google.py:48 | `urljoin` keeps a reference with another scheme, appends an absolute path, query or fragment to the base, and puts '/' before any other relative reference |
| Urls.JoinKeepsHttp | scraper/companies/meta.py:44 | joined onto an http base, the result starts with "http" unless it is the reference itself |
| Urls.JoinAbsolutePath | scraper/companies/google.py:48 | a reference that starts with a single '/' and holds no ':' is appended to the base |
| Urls.CleanUrl | scraper/companies/google.py:34 | a URL made of clean pieces passes the control-character clean-up unchanged |
| Urls.SchemeSplit | scraper/companies/google.py:34 | a lower-case scheme before ':' is split off as the scheme |
| Urls.ParsesAs | scraper/companies/google.py:34 | `urlparse("scheme://host/path?query")` returns exactly those parts |
| Base64Url.SextetRoundTrip | api/handler.py:35-36 | the decoder's table reads each alphabet character back as its six-bit value |
| Base64Url.Encode | api/handler.py:35 | the encoding is four characters per started group of three bytes |
| Base64Url.RunData | api/handler.py:36 | a data character feeds its value to the decoder |
| Base64Url.RunFinalPad | api/handler.py:36 | a '=' that completes a group ends decoding with the bytes so far |
| Base64Url.RunPendingPad | api/handler.py:36 | a '=' that does not complete a group is counted and skipped |
| Base64Url.GroupDecodes | api/handler.py:35-36 | decoding an encoded group of three bytes appends exactly those bytes |
| Base64Url.OneByteTailDecodes | api/handler.py:35-36 | a final group of one byte and "==" decodes to that byte |
| Base64Url.TwoByteTailDecodes | api/handler.py:35-36 | a final group of two bytes and "=" decodes to those bytes |
| Base64Url.EncodeDecodes | api/handler.py:35-36 | decoding the encoding of any bytes appends exactly those bytes |
| Base64Url.RoundTrip | api/handler.py:35-36 | `urlsafe_b64decode(urlsafe_b64encode(b)) == b` for all bytes |
| Base64Url.EncodeAlphabet | api/handler.py:35 | the encoder emits only URL-safe alphabet characters and '=' |
| Base64Url.Decode | api/handler.py:36 | `urlsafe_b64decode` in binascii's non-strict mode; the RoundTrip, LoneCharacterRejected and MissingPaddingRejected rows characterise it |
| Base64Url.LoneCharacterRejected | api/handler.py:36 | a single data character is rejected |
| Base64Url.MissingPaddingRejected | api/handler.py:36 | input that stops part-way through a group without padding is rejected, and the same input with padding decodes |
| Store.NormalizedRecord | storage/dynamo.py:53-79 | a written posting is active, last seen now and stamped with its own URL; its category is never empty ("other" by default); posted_at falls back to now; remote is 0/1 and is 1 exactly for a non-zero flag; the country has no lower-case letter |
| Store.FirstAfter | storage/dynamo.py:42-48 | the position found is the first sort key strictly after the start key |
| Store.FirstAfterOwnKey | storage/dynamo.py:42-48 | resuming after a key of the listing continues at the next position |
| Store.QueryPageResumes | storage/dynamo.py:42-48 | a page resumed after the previous page's last key is the next slice of the listing, and it carries a continuation key exactly when more keys remain |
| Store.FirstPage | storage/dynamo.py:36-41 | the first page is a prefix of the listing, and it carries a continuation key exactly when the listing is longer |
| Store.PageStep | storage/dynamo.py:42-49 | each further page extends the keys seen to a longer prefix of the listing |
| Store.ScanPages | storage/dynamo.py:34-50 | following `LastEvaluatedKey` page by page collects every key of the partition, whatever non-zero size the service gives each page |
| Store.RemovedIsFinalized | storage/dynamo.py:116-122 | deleting a partition's undiscovered URLs one by one gives the finalised table |
| Store.Table.AcquireLock | storage/dynamo.py:11-25 | the conditional put succeeds exactly when the lock is absent or expired, and only then writes a lock that expires after the lease |
| Store.Table.ReleaseLock | storage/dynamo.py:27-31 | releasing removes the lock item and nothing else, including when it is absent |
| Store.Table.ListUrls | storage/dynamo.py:34-50 | `list_urls` returns exactly the sort keys stored in the company's partition, for any non-zero page size per request |
| Store.Table.PutItem | storage/dynamo.py:53-79 | `_put_item` overwrites exactly one key with the normalised record |
| Store.Table.BatchUpsertItems | storage/dynamo.py:81-110 | every URL of the map is overwritten by its normalised record, and an empty map writes nothing |
| Store.Table.DeleteUrls | storage/dynamo.py:119-122 | one delete per URL; the count is the number of URLs deleted |
| Store.Table.FinalizeCompany | storage/dynamo.py:112-123 | the table loses exactly the partition's URLs that were not discovered, and the reported count is how many those were |
| Store.DefaultLeaseExcludes | storage/dynamo.py:11-18 | `acquire_lock(key)` with the default lease of 5400 seconds also makes a second acquire at the same instant fail |
| Store.MutualExclusion | storage/dynamo.py:18-20 | with a positive lease, a second acquire at the same time fails |
| Store.ExpiredLockReacquirable | storage/dynamo.py:20 | a lock whose expiry has passed can be acquired again without a release |
| Store.UpsertIdempotent | storage/dynamo.py:82-86 | upserting the same map twice at one time leaves the table that upserting it once leaves |
| Store.UpsertFrame | storage/dynamo.py:86-110 | an upsert changes no key outside the map's URLs, and stores each URL's normalised record |
| Store.FinalizeKeepsDiscovered | storage/dynamo.py:112-116 | after finalising, the partition holds exactly its former URLs that were discovered |
| Store.FinalizeFrame | storage/dynamo.py:119-121 | finalising a company leaves every other partition, the lock's included, untouched |
| Store.FinalizeNothingDiscovered | storage/dynamo.py:114-122 | finalising with nothing discovered empties the company's partition |
| Runner.CompanyMap | scraper/runner.py:19-26 | a company is found exactly for the five registered names, and it is found under its own name |
| Runner.CompanyMapOfName | scraper/runner.py:19-26 | every registered company is found under its name |
| Runner.FetcherFor | scraper/runner.py:41-46 | Meta and Netflix use their own description fetchers, and every other company uses the generic one |
| Runner.WalkKeepsInvariant | scraper/runner.py:36-53 | during the URL loop: rows are added only for non-empty descriptions of URLs not seen before, with no URL twice, and each added row's URL joins the seen set |
| Runner.WalkFetchesEachUnseen | scraper/runner.py:36-48 | without repeated URLs, every URL outside the seen set is fetched exactly once |
| Runner.WalkIgnoresSeen | scraper/runner.py:36-38 | URLs already seen are never fetched: the outcome does not depend on what their fetch would return |
| Runner.WalkRaises | scraper/runner.py:36-57 | once a fetch raises, `process_company` raises |
| Runner.ProcessCompany | scraper/runner.py:28-62 | the loop equals `ProcessOutcome` (counts, rows and seen set, or a raise), the walk that the WalkKeepsInvariant, WalkFetchesEachUnseen, WalkIgnoresSeen and WalkRaises rows characterise |
| Runner.Run | scraper/runner.py:64-78 | `run` equals `RunSpec` in its summary, seen set and written rows, which the RunSummaryKeys, RunIsolatesFailure and RunGrowsSeen rows characterise |
| Runner.RunSummaryKeys | scraper/runner.py:70-75 | the summary has keys only for requested names that are registered |
| Runner.RunIsolatesFailure | scraper/runner.py:71-77 | an unknown or raising company changes nothing, and the next company runs from the same state |
| Runner.RunGrowsSeen | scraper/runner.py:36-78 | over the whole run, the seen set grows by exactly the written rows' URLs; no URL is written twice or was seen before; no description is empty |
| Handler.ParseSince | api/handler.py:17-33 | `_parse_since`: the stripped, lower-cased value gives 30 days for blank, "<N>d"/"<N>h" when `int` accepts N, else `dateParse` or the 30-day default; the SinceBlank, SinceWindow, SinceDays, SinceHours and SinceDefault rows characterise it |
| Handler.SinceBlank | api/handler.py:17-21 | a blank `since` means the last 30 days |
| Handler.SinceOfNormal | api/handler.py:18-26 | a normalised relative window reaches back by its length |
| Handler.WindowOfDays | api/handler.py:22-23 | "<N>d" is a window of N days |
| Handler.WindowOfHours | api/handler.py:25-26 | "<N>h" is a window of N hours |
| Handler.SinceDays | api/handler.py:17-23 | `since="<N>d"` reaches back N days from now |
| Handler.SinceHours | api/handler.py:17-27 | `since="<N>h"` reaches back N hours from now |
| Handler.SinceWindow | api/handler.py:17-27 | any "<N>d" or "<N>h" that `int` reads, in any case and with surrounding whitespace, reaches back N days or N hours |
| Handler.SinceDefault | api/handler.py:47 | the default "30d" reaches back the same 30 days as a blank value |
| Handler.ParseRemote | api/handler.py:43-46 | an absent flag gives no filter; otherwise the filter is 0 or 1, and 1 exactly for "1", "true", "yes" or "y" in any case |
| Handler.RemoteExamples | api/handler.py:46 | the flag is compared as given: "TRUE" and "Y" count, " yes" and "no" do not |
| Handler.ParseLimit | api/handler.py:48 | the limit is 50 by default and always within 1..200; it is the clamped value of `int(limit)`; the handler raises exactly when `int` does |
| Handler.ReadParams | api/handler.py:39-49 | parameters parse except when `int(limit)` raises; then the category is non-empty, the limit is within 1..200 and the country is upper case |
| Handler.PlanFor | api/handler.py:51-78 | the index, key condition and filter the three branches build; the PlanIndex, PlanFilter and PlanFilterAvoidsKey rows characterise it |
| Handler.PlanIndex | api/handler.py:55-78 | a company selects the company index, otherwise a country the country index, otherwise the category index, each keyed from `since` on |
| Handler.PlanFilter | api/handler.py:53-78 | the filter starts with `active == 1`; category is added unless the index is the category index, country only on the company index, remote whenever it is given |
| Handler.PlanFilterAvoidsKey | api/handler.py:56-78 | on the country and category indexes, no filter term names the attribute that the key condition fixes |
| Handler.BuildPlan | api/handler.py:51-78 | the branches build the plan that `PlanFor` specifies |
| Handler.EncodeCursor | api/handler.py:35 | `_b64e`: the URL-safe Base64 of `dumps(d)`; the CursorRoundTrip row characterises it with `ParseCursor` |
| Handler.ParseCursor | api/handler.py:36 | `_b64d`: `loads` of the decoded bytes, nothing where the decode or `loads` raises; the CursorRoundTrip and MalformedCursorIgnored rows characterise it |
| Handler.CursorRoundTrip | api/handler.py:35-36 | decoding an encoded cursor gives back the key, for any key that `json.loads` reads back from `json.dumps` |
| Handler.KeyJson | api/handler.py:96 | the key as the JSON object `json.dumps` is given; the NextCursorRoundTrip row characterises it |
| Handler.NextCursorAsWritten | api/handler.py:96 | `next_cursor` as written: null without `LastEvaluatedKey`, a raise when the key holds a number, otherwise the encoded key; the AsWrittenCursorFailsOnIndexKey row characterises it |
| Handler.AsWrittenCursorFailsOnIndexKey | api/handler.py:96 | as written, any continuation key that holds `posted_at` as a number makes the cursor raise; every index the handler queries sorts on `posted_at`, so this is every key DynamoDB returns for a further page |
| Handler.NextCursor | api/handler.py:96 | the cursor is null exactly when there is no further page |
| Handler.NextCursorRoundTrip | api/handler.py:88-96 | a continuation key, its numbers included, survives the trip through the cursor |
| Handler.MalformedCursorIgnored | api/handler.py:80-92 | a cursor that does not decode is dropped, and the query starts from the beginning with the same plan and limit |
| Handler.OutItem | api/handler.py:101-112 | an item becomes an output element exactly when `int` accepts its `posted_at` and `remote` |
| Handler.OutItemFields | api/handler.py:101-112 | posted_at is an integer; remote is 0 or 1, and 1 exactly when the stored value is non-zero; the text fields are copied as they are (a stored number stays a number), null when absent |
| Handler.NumericTextInOutput | api/handler.py:10-15 | an item has a number in a copied text attribute (`Handler.NumericText`, on which `_ok`'s `json.dumps` raises) exactly when its output element carries a number under one of the eight text keys |
| Handler.OutKeysDistinct | api/handler.py:101-112 | the ten keys of an output element are pairwise different |
| Handler.OutItemDefaults | api/handler.py:107-111 | an item without `posted_at` or `remote` reports 0 for both |
| Handler.MapItems | api/handler.py:99-112 | one element per item, in order, or a raise exactly when some item raises |
| Handler.RespondAsWritten | api/handler.py:94-114 | after the query, the handler as written raises exactly when the cursor's `json.dumps` raises on a number in `LastEvaluatedKey`, an item's `int` raises, or `_ok`'s `json.dumps` meets a number in an item's text attribute; otherwise it returns one element per item and the cursor |
| Handler.Respond | api/handler.py:94-114 | after the query, the corrected handler raises exactly when an item's `int` raises or `_ok`'s `json.dumps` meets a number in an item's text attribute; otherwise it returns one element per item and a cursor exactly when there is a further page |
| Handler.LambdaHandlerAsWritten | api/handler.py:10-114 | the handler as written raises exactly when `int(limit)` raises, `TABLE.query` rejects the request, the cursor's `json.dumps` raises on a number in `LastEvaluatedKey`, an item's `int` raises, or `_ok`'s `json.dumps` meets a number in an item's text attribute; otherwise it returns one element per item and the cursor |
| Handler.LambdaHandler | api/handler.py:10-114 | the handler with the corrected cursor raises exactly when `int(limit)` raises, `TABLE.query` rejects the request, an item's `int` raises, or `_ok`'s `json.dumps` meets a number in an item's text attribute; otherwise it returns one element per item and a cursor exactly when there is a further page |
| Parsing.AlternativeAt | scraper/parsing.py:24-34 | some keyword from the given index on matches at the position |
| Parsing.SearchFrom | scraper/parsing.py:24-34 | `re.search` finds a keyword as a whole word exactly when one occurs at some position |
| Parsing.PhraseFrom | scraper/parsing.py:259-262 | a phrase search succeeds exactly when the phrase occurs as a whole word |
| Parsing.ClassifyCategory | scraper/parsing.py:24-34 | the category is "it" or "other", and "it" exactly when some keyword occurs as a whole word in the title and description |
| Parsing.MentionsBeforeSpace | scraper/parsing.py:33 | a keyword of the title still matches once the description follows after a space |
| Parsing.MentionsAfterSpace | scraper/parsing.py:33 | a keyword of the description still matches with the title before it |
| Parsing.TitleKeywordDecides | scraper/parsing.py:24-34 | a keyword in the title makes the posting "it", whatever the description |
| Parsing.DescriptionKeywordDecides | scraper/parsing.py:24-34 | a keyword in the description makes the posting "it", whatever the title |
| Parsing.MentionsIgnoresCase | scraper/parsing.py:24-34 | texts equal up to case mention the same keywords |
| Parsing.ClassifyIgnoresCase | scraper/parsing.py:24-34 | upper-casing the title does not change the category |
| Parsing.TitleAndDescriptionJoin | scraper/parsing.py:33 | "help desk" split between the title and the description still makes "it" |
| Parsing.SoftwareEngineerIsIt | scraper/parsing.py:24-34 | "Senior Software Engineer" is "it" |
| Parsing.FirstJobPosting | scraper/parsing.py:39-69 | the result is `{}` exactly when no JobPosting is reachable; otherwise it is a JobPosting inside the node, and the node itself when it is one |
| Parsing.PostingIsTruthy | scraper/parsing.py:39-69 | a JobPosting is never `{}`, so `if found:` detects a hit |
| Parsing.FromContainers | scraper/parsing.py:39-69 | a hit under the container keys is a JobPosting inside one of the object's values |
| Parsing.FromValues | scraper/parsing.py:39-69 | the search over an object's values finds nothing exactly when no value holds a posting |
| Parsing.FromItems | scraper/parsing.py:39-69 | the search over a list finds nothing exactly when no item holds a posting |
| Parsing.FindsAnyPosting | scraper/parsing.py:39-69 | a JobPosting anywhere in the tree makes the result non-empty |
| Parsing.ReachablePosting | scraper/parsing.py:39-69 | a JobPosting inside a node counts as reachable from it |
| Parsing.ScalarsHaveNoPosting | scraper/parsing.py:39-69 | a scalar holds no posting |
| Parsing.GraphIsSearched | scraper/parsing.py:39-69 | a JobPosting wrapped in `@graph` is found |
| Parsing.AliasesAreCodes | scraper/parsing.py:122-146 | every value of the alias table is a two-letter upper-case code |
| Parsing.SpacesEnd | scraper/parsing.py:152 | the run of whitespace from a position ends at the first non-space |
| Parsing.ParenTailFromIsLeftmost | scraper/parsing.py:152 | the search returns a position where the note pattern matches, and none before it |
| Parsing.DropParenNote | scraper/parsing.py:152 | removing the note leaves a prefix of the key |
| Parsing.DropsLeftmostNote | scraper/parsing.py:152 | the substitution cuts at the leftmost match, and changes nothing exactly when there is no match |
| Parsing.NormCountry | scraper/parsing.py:148-155 | the result is empty or a two-letter upper-case code |
| Parsing.AliasCode | scraper/parsing.py:155 | a lookup gives a code, or nothing for an unknown name |
| Parsing.NormCountryIdempotent | scraper/parsing.py:148-155 | normalising a normalised country changes nothing |
| Parsing.TwoLettersWin | scraper/parsing.py:153-154 | two letters are upper-cased as a code, before any alias lookup |
| Parsing.UkIsNotAnAlias | scraper/parsing.py:128-154 | "uk" becomes "UK", although its alias is "GB" |
| Parsing.NoteDropped | scraper/parsing.py:152 | a trailing " (note)" and the space before it are cut, and nothing else |
| Parsing.NormOfKey | scraper/parsing.py:151-155 | apart from blanks and two-letter names, only the lower-cased key without its note matters |
| Parsing.NoteKey | scraper/parsing.py:151-152 | for a name followed by a note, the lookup key is the lower-cased name |
| Parsing.AliasWithNote | scraper/parsing.py:148-155 | a country name in any case, followed by a note, is looked up without the note |
| Parsing.RemoteNoteDropped | scraper/parsing.py:148-155 | "United States (Remote)" becomes "US" |
| Parsing.UnknownCountry | scraper/parsing.py:148-155 | a blank or unknown name normalises to "" |
| Location.ApplyAddresses | scraper/parsing.py:229-244 | the loops over address lists give the fold of one address after another, stopping at a raise |
| Location.MergeJsonLd | scraper/parsing.py:219-244 | the JSON-LD stage equals `JsonLdSpec`, which the AddressRules, FoldKeepsShape and JsonLdShape rows characterise |
| Location.AddressRules | scraper/parsing.py:230-244 | a supplied country replaces the current one by its normal form; an absent one keeps the current one; region and locality replace admin1 and city only when they are non-empty strings; a non-string country raises |
| Location.KeptCountry | scraper/parsing.py:232 | re-normalising a country already kept leaves it unchanged |
| Location.FoldKeepsShape | scraper/parsing.py:229-244 | applying addresses keeps the country empty or an ISO code, and keeps the remote flag |
| Location.JsonLdShape | scraper/parsing.py:219-244 | the JSON-LD country is empty or an ISO code, and remote is set exactly for a remote location type |
| Location.ArrayAttempt | scraper/parsing.py:167-179 | the first `try` block equals `FromApplicable`, including what it leaves after a raise; the ArrayDecides and ArrayCityLeaksIntoPositions rows characterise it |
| Location.PositionsAttempt | scraper/parsing.py:181-198 | the second `try` block equals `FromPositions`, which the PositionsParts and ArrayCityLeaksIntoPositions rows characterise |
| Location.TryEightfold | scraper/parsing.py:157-204 | the structured array wins, then the `positions` entry, then the remote hint alone |
| Location.EightfoldShape | scraper/parsing.py:157-204 | the Eightfold country is empty or an ISO code, and remote is 0 or 1 |
| Location.ArrayDecides | scraper/parsing.py:172-177 | a usable structured array decides the result, and `positions` is not consulted |
| Location.PositionsParts | scraper/parsing.py:186-196 | a location of three or more parts gives city, admin1 and the country of its last part |
| Location.ArrayCityLeaksIntoPositions | scraper/parsing.py:170-198 | a city assigned before the array attempt raised stays in a `positions` result with fewer than three parts |
| Location.ApplyEightfold | scraper/parsing.py:246-251 | the Eightfold fields are adopted when they name a country, and the larger remote flag is kept |
| Location.ApplyHeadText | scraper/parsing.py:253-262 | "United States", then "United Kingdom", as whole words set the country when none is known |
| Location.ApplyLabel | scraper/parsing.py:264-273 | a location label fills the fields when no country is known |
| Location.ApplyCrumb | scraper/parsing.py:275-292 | an icon crumb or analytics crumb fills the fields when no country is known |
| Location.LocationOf | scraper/parsing.py:206-294 | the merge of the JSON-LD, Eightfold, head-text, label and crumb steps in that order; the LocationShape, JsonLdCountryWins and RemoteNeverLost rows characterise it |
| Location.ParseLocationFields | scraper/parsing.py:206-294 | the steps run in order of trust and equal `LocationOf`, which the LocationShape, JsonLdCountryWins and RemoteNeverLost rows characterise |
| Location.EightfoldStepShape | scraper/parsing.py:246-251 | the Eightfold step keeps the country empty or an ISO code and remote 0 or 1 |
| Location.LabelStepShape | scraper/parsing.py:264-273 | the label step keeps the country empty or an ISO code |
| Location.CrumbStepShape | scraper/parsing.py:275-292 | the crumb steps keep the country empty or an ISO code |
| Location.LocationShape | scraper/parsing.py:206-294 | the merged country is empty or an ISO code and remote is 0 or 1; the parse raises exactly when the JSON-LD stage does |
| Location.JsonLdCountryWins | scraper/parsing.py:246-292 | a country from the JSON-LD fixes the whole result |
| Location.HeadTextKeepsRemote | scraper/parsing.py:253-262 | the head-text step never changes the remote flag |
| Location.LabelKeepsRemote | scraper/parsing.py:264-273 | the label step never changes the remote flag |
| Location.CrumbKeepsRemote | scraper/parsing.py:275-292 | the crumb steps never change the remote flag |
| Location.RemoteNeverLost | scraper/parsing.py:219-251 | merging never lowers the remote flag of the JSON-LD or of Eightfold |
| Location.LabelRule | scraper/parsing.py:269-271 | a label of three or more parts is read from its last three as city, admin1 and country |
| Location.TwoPartLabel | scraper/parsing.py:272-273 | a two-part label is read as admin1 and country |
| Location.HeadTextCountry | scraper/parsing.py:259-260 | "United States" in the head text gives "US", even when "United Kingdom" occurs as well |
| Plateau.GatheredContents | scraper/companies/google.py:98 | a URL is gathered exactly when some pass saw it |
| Plateau.GatheredGrows | scraper/companies/google.py:98 | the accumulated set only grows |
| Plateau.SameSizeNothingNew | scraper/companies/google.py:101 | a pass that leaves the count unchanged added nothing |
| Plateau.PassesFromBounds | scraper/companies/google.py:86-104 | from any pass on, the loop never exceeds the limit, and makes at least one more pass while the limit allows |
| Plateau.PassesFromGrowth | scraper/companies/google.py:98-103 | every pass after the first and before the last added a URL |
| Plateau.PassesFromStop | scraper/companies/google.py:100-102 | a run that stops before the limit stops after a pass, not the first, that added nothing |
| Plateau.PassesRule | scraper/companies/meta.py:86-102 | no pass without a limit; otherwise between one and the limit passes; growth on every pass but the first and the last; a stop before the limit follows a pass that added nothing |
| Plateau.PlateauedContents | scraper/companies/meta.py:86-102 | the loop returns exactly what some of its passes saw |
| Plateau.PresentSnoc | scraper/companies/google.py:44-50 | one more anchor adds its URL, if it yields one |
| Plateau.PresentContents | scraper/companies/google.py:44-50 | the collected set holds exactly the URLs some anchor yielded |
| Amazon.Entries | scraper/companies/amazon.py:34-37 | what each element of `jobs` gives the loop, in order; the CollectContents and CollectRaises rows characterise it |
| Amazon.CollectRaisesOnward | scraper/companies/amazon.py:34-37 | a raising element makes the loop raise, whatever follows it |
| Amazon.CollectJobs | scraper/companies/amazon.py:34-37 | the `for j in jobs` loop equals `JobUrls`, which the CollectContents and CollectRaises rows characterise |
| Amazon.ReadPage | scraper/companies/amazon.py:20-37 | one turn of the `while` body equals `PageOf`: the loop stops on a failed request, a non-200 status, unreadable JSON or no jobs; it raises when the body is not an object, `jobs` is not a list or an element raises; otherwise it gets the page's URLs. The ResumesStep and ResumesLast rows use it |
| Amazon.ResumesAtStart | scraper/companies/amazon.py:10-14 | the loop starts at offset 0 with nothing gathered |
| Amazon.ResumesStep | scraper/companies/amazon.py:34-39 | a page with jobs adds its URLs, and the loop goes on at the next offset |
| Amazon.ResumesLast | scraper/companies/amazon.py:22-32 | a page that ends the loop ends the crawl with that request |
| Amazon.Gather | scraper/companies/amazon.py:10-40 | the `while` loop gathers the crawl's URLs in order and requests the crawl's offsets |
| Amazon.Discover | scraper/companies/amazon.py:9-44 | `discover` returns the specified sorted URLs and requests the specified offsets |
| Amazon.CrawlRequests | scraper/companies/amazon.py:11-39 | requests go to offsets 0, 100, 200, … in order, at most `max_pages` of them; each but the last got jobs; a run that ends early ends on an empty page, a failure or a raise |
| Amazon.CrawlUrls | scraper/companies/amazon.py:20-39 | a URL is gathered exactly when a requested page with jobs listed it, and the run raises exactly when its last page raised |
| Amazon.JobEntry | scraper/companies/amazon.py:35-37 | what one element of `jobs` does: a raise when it is not an object or its truthy `job_path` is not a string, a URL for a truthy string `job_path`, nothing otherwise; the JobEntryUrl row characterises it |
| Amazon.PageOf | scraper/companies/amazon.py:20-37 | what one turn of the `while` body does with a reply; the ReadPage, ResumesStep, ResumesLast and CrawlRequests rows characterise it |
| Amazon.JobEntryUrl | scraper/companies/amazon.py:35-37 | an element adds a URL exactly when it is an object with a non-empty string `job_path`, and the URL is the base followed by that path |
| Amazon.CollectRaises | scraper/companies/amazon.py:34-37 | a page raises exactly when one of its elements raises |
| Amazon.CollectContents | scraper/companies/amazon.py:34-37 | a page adds a URL exactly when one of its elements yields it |
| Amazon.PageUrlUnderBase | scraper/companies/amazon.py:37 | every URL a page adds is the base followed by a non-empty path |
| Amazon.NoPagesNoRequests | scraper/companies/amazon.py:13-14 | with `max_pages <= 0` nothing is requested and nothing returned |
| Amazon.DiscoverUnderBase | scraper/companies/amazon.py:37-42 | the result is ascending, free of duplicates, and every entry is the base followed by a non-empty path |
| Netflix.Collector.Rec | scraper/companies/netflix.py:42-58 | `rec(node)` adds exactly the node's harvest to the shared set |
| Netflix.Collector.AddDirect | scraper/companies/netflix.py:44-47 | the first loop adds the string values naming the detail path, stripped and made absolute |
| Netflix.Collector.AddIds | scraper/companies/netflix.py:48-53 | the id loop adds the detail URL of each id key with a digit value |
| Netflix.Collector.AddChildren | scraper/companies/netflix.py:54-55 | the recursion over a dict's values adds what those values hold |
| Netflix.Collector.AddItems | scraper/companies/netflix.py:56-58 | the recursion over a list adds what its items hold |
| Netflix.ExtractJobUrls | scraper/companies/netflix.py:40-60 | `_extract_job_urls_from_json` returns the harvest of the value |
| Netflix.Harvest | scraper/companies/netflix.py:40-60 | the URLs `rec` collects from a JSON value; the HarvestScalar, HarvestList, HarvestDict, HarvestDictValues, DirectRule and IdRule rows characterise it |
| Netflix.HarvestScalar | scraper/companies/netflix.py:42-58 | a scalar holds no URLs |
| Netflix.ItemUrlsUnion | scraper/companies/netflix.py:56-58 | the recursion over a list collects exactly the union of its items' URLs |
| Netflix.HarvestList | scraper/companies/netflix.py:56-58 | a list's URLs are exactly the union of its items' URLs |
| Netflix.HarvestDictValues | scraper/companies/netflix.py:54-55 | a dict's URLs include every URL held by one of its values |
| Netflix.HarvestDict | scraper/companies/netflix.py:40-55 | a dict's URLs are exactly those its string values name, those its id keys name, and those held by its values |
| Netflix.DirectRule | scraper/companies/netflix.py:45-47 | a string value containing the detail path contributes its stripped form, kept when it starts with "http" and resolved against the board otherwise |
| Netflix.IdRule | scraper/companies/netflix.py:48-53 | an id key whose value reads as digits yields the detail URL of those digits |
| Netflix.IdUrlsAreDetailUrls | scraper/companies/netflix.py:48-53 | every id-derived URL is the board, the detail path and a non-empty run of digits |
| Netflix.AbsoluteIdempotent | scraper/companies/netflix.py:193 | making a URL absolute a second time changes nothing |
| Netflix.Normalize | scraper/companies/netflix.py:190-197 | the result is ascending and duplicate-free, and holds exactly the absolute forms of the URLs found |
| Netflix.NormalizedIdempotent | scraper/companies/netflix.py:190-195 | normalising the normalised URLs gives the same set |
| Google.DigitsEnd | scraper/companies/google.py:30 | the run of digits from a position ends at the first non-digit |
| Google.MatchesDetail | scraper/companies/google.py:30 | `_DETAIL_RE.match(path)`; the MatchIsShape, ShapeIsMatch and MatchesDetailShape rows characterise it |
| Google.IsJobDetailUrl | scraper/companies/google.py:32-39 | `_is_job_detail_url`: false where `urlparse` raises or the host is another one, otherwise the path match; the OtherHostRejected, DetailUrlAccepted, ListingUrlRejected and NotDetailFromParts rows characterise it |
| Google.MatchIsShape | scraper/companies/google.py:30 | every accepted path is the prefix, six or more digits, an optional slug and an optional '/' |
| Google.ShapeIsMatch | scraper/companies/google.py:30 | every path of that shape is accepted |
| Google.MatchesDetailShape | scraper/companies/google.py:30 | the matcher accepts exactly the paths of the pattern's language |
| Google.LinksOf | scraper/companies/google.py:44-50 | what each anchor yields, in order; the LinksContents row characterises it |
| Google.LinksContents | scraper/companies/google.py:41-51 | a URL is collected exactly when some anchor yields it |
| Google.LinksAreDetail | scraper/companies/google.py:44-50 | every collected URL is a detail URL, resolved from a non-blank stripped `href` |
| Google.AnchorLink | scraper/companies/google.py:45-50 | one turn of the loop yields the specified URL of the anchor |
| Google.CollectJobLinks | scraper/companies/google.py:41-51 | `_collect_job_links` returns exactly the URLs the anchors yield |
| Google.ExhaustResults | scraper/companies/google.py:79-105 | the scroll loop returns what the plateau rule gathers |
| Google.WalkPages | scraper/companies/google.py:135-147 | the loop over `?page=2..N` gathers and visits what the page walk specifies |
| Google.Discover | scraper/companies/google.py:107-156 | without Playwright the result is `[]`; otherwise it is sorted and holds exactly the URLs of the main page and the visited pages |
| Google.ScanOrder | scraper/companies/google.py:135 | explicit pages are visited in order from 2, never past `max_pages` |
| Google.ScanContents | scraper/companies/google.py:138-142 | the URLs gathered are those of the main page and of every visited page |
| Google.ScanGrows | scraper/companies/google.py:139-145 | every visited page but the last loaded and added new URLs |
| Google.ScanStops | scraper/companies/google.py:136-147 | a walk that ends early ends on a page that raised, showed nothing or added nothing |
| Google.PathMatches | scraper/companies/google.py:30 | a path built from the pattern's pieces matches |
| Google.DetailUrlAccepted | scraper/companies/google.py:32-39 | every absolute URL of the detail shape on the Google host is a detail URL |
| Google.JoinsOntoBase | scraper/companies/google.py:48 | a relative `href` starting with a single '/' and holding no ':' is joined onto the base |
| Google.RelativeDetailCollected | scraper/companies/google.py:44-50 | a relative detail `href` is collected as its absolute URL |
| Google.DocDetailUrlAccepted | scraper/companies/google.py:9 | the module doc string's example is a detail URL, as an `href` and as absolute |
| Google.ListingUrlRejected | scraper/companies/google.py:10 | listing pages `?page=N` are not detail URLs, as an `href` or absolute |
| Google.OtherHostRejected | scraper/companies/google.py:37-38 | a URL on any host other than careers.google.com is rejected, whatever its path |
| Google.NotDetailFromParts | scraper/companies/google.py:37-39 | a URL whose path does not match is rejected |
| Meta.MatchesDetail | scraper/companies/meta.py:22 | `_DETAIL_RE.match(path)`; the MatchIsShape, ShapeIsMatch and MatchesDetailShape rows characterise it |
| Meta.IsDetail | scraper/companies/meta.py:29-36 | `_is_detail`: false where `urlparse` raises or the host is another one, otherwise the path match; the OtherHostRejected, CanonicalDetail, ListingRejected and NotDetailFromParts rows characterise it |
| Meta.MatchIsShape | scraper/companies/meta.py:22 | every accepted path is "/jobs/", one or more digits and an optional '/' |
| Meta.ShapeIsMatch | scraper/companies/meta.py:22 | every path of that shape is accepted |
| Meta.MatchesDetailShape | scraper/companies/meta.py:22 | the matcher accepts exactly the paths of the pattern's language |
| Meta.LinksOf | scraper/companies/meta.py:40-46 | what each anchor yields, in order; the LinksContents row characterises it |
| Meta.LinksContents | scraper/companies/meta.py:38-47 | a URL is collected exactly when some anchor yields it |
| Meta.LinksAreDetail | scraper/companies/meta.py:40-46 | every collected URL comes from a non-blank `href` whose resolution is a detail URL, is that resolution without trailing '/', and does not end in '/' |
| Meta.AnchorLink | scraper/companies/meta.py:41-46 | one turn of the loop yields the specified URL of the anchor |
| Meta.CollectJobLinks | scraper/companies/meta.py:38-47 | `_collect_job_links` returns exactly the URLs the anchors yield |
| Meta.ScrollJobs | scraper/companies/meta.py:86-102 | the loop over `range(max_scrolls)` returns what the plateau rule gathers |
| Meta.Discover | scraper/companies/meta.py:70-111 | without Playwright the result is `[]`; otherwise it is sorted and holds exactly the gathered URLs |
| Meta.DiscoverPasses | scraper/companies/meta.py:76-102 | a page that loaded gets between one and `max_scrolls` passes |
| Meta.DiscoverSpecContents | scraper/companies/meta.py:84-102 | a URL is discovered exactly when the page loaded and one of the loop's passes collected it |
| Meta.DiscoveredAreDetail | scraper/companies/meta.py:44-46 | every discovered URL is a detail URL with its trailing '/' removed |
| Meta.PathMatches | scraper/companies/meta.py:22 | "/jobs/<digits>" with or without a final '/' matches |
| Meta.CanonicalDetail | scraper/companies/meta.py:29-36 | `https://www.metacareers.com/jobs/<digits>[/]` is a detail URL |
| Meta.TrimsOneSlash | scraper/companies/meta.py:46 | `rstrip("/")` removes the final '/', if there is one |
| Meta.RelativeHrefResolves | scraper/companies/meta.py:44 | a relative canonical `href` is joined onto the base |
| Meta.AbsoluteHrefResolves | scraper/companies/meta.py:44 | an absolute canonical `href` is kept as it is |
| Meta.CanonicalCollected | scraper/companies/meta.py:40-46 | a canonical detail link, relative or absolute, with or without a final '/', is collected without the '/'; that form is a detail URL and is collected unchanged |
| Meta.CanonicalFixed | scraper/companies/meta.py:44-46 | the collected form of a canonical link is collected unchanged |
| Meta.NotDetailFromParts | scraper/companies/meta.py:36 | a URL whose path does not match is rejected |
| Meta.ListingRejected | scraper/companies/meta.py:20-22 | `LIST_URL` and "/jobs/" without an id are not detail URLs |
| Meta.OtherHostRejected | scraper/companies/meta.py:34-35 | a URL on any other host is rejected, whatever its path |

## Left out

- Network, browser and file I/O are parameters, not code: HTTP, Playwright (page loads, scrolling, the "load more" clicks and their selectors), `load_seen`/`save_seen`/`write_outputs`, `log`, `time.sleep` and the clock.
- The description extractors are not modelled: `extract_description`, `extract_description_from_html`, and each site's `get_description`. They are HTML and browser glue. `Runner` takes their results as the parameter `describe`.
- BeautifulSoup and the regular-expression searches over raw HTML are given as their results. The JSON-LD object, the Eightfold fragments, the head text and the location crumbs arrive in `Location.Page` already extracted. `parse_ldjson_job` itself is not modelled; its search, `_first_jobposting`, is.
- Apple's discovery (scraper/companies/apple.py) and the shared helper scraper/companies/_playwright.py are not part of this model. Netflix's network sniffing and its anchor fallback are not modelled either: `Netflix.Normalize` takes the set of URLs they produce.
- `dateutil.parser.parse` is the parameter `dateParse`. `json.dumps`/`json.loads` are the parameters `dumps`/`loads`, so the cursor round trip holds for every value they read back.
- The DynamoDB service is a map from (company, url) to a record. The model treats the conditional put as atomic, which the service guarantees. It does not model throttling, retries, the batch writer's buffering, or the shape of the index tables. The query's `Limit` and the evaluation of filters are left to the `query` parameter. So is which requests the service rejects (an `ExclusiveStartKey` that is not a key of the index, say): `query` answers those with `None`, and both handlers then raise. In `list_urls` the service picks each page's size; the model lets it be any non-zero number per request, as a function of the start key.
- Character classes are ASCII: `lower`/`upper`, `re.I`, `\d` and `isdigit` ignore non-ASCII letters and digits. Whitespace is Python's `str.isspace` set.
- `Urls.Join` models `urljoin` only for bases with an empty path, which is what every base in the core is. A reference with a scheme other than the base's is returned unchanged, as `urljoin` does. Any other reference is kept as text, while `urljoin` splits it into parts and puts them back together. The two agree on references made of plain path characters, which are all that the detail and listing lemmas pass. They differ in these cases:
  - `urljoin` removes dot segments.
  - A relative path loses its empty segments: "careers//job/1" becomes "/careers/job/1".
  - An empty query, fragment or parameter part is dropped: "/jobs/1/?" becomes "/jobs/1/", and a bare "?" or "#" gives the base.
  - "///p" has an empty network location and takes the base's host.
  - Leading C0 characters and tab/CR/LF are removed from the reference.
  - An unbalanced '[' in a network location raises `ValueError`.
- Urls.JoinCases: states the append and "'/' before" cases of `Urls.Join`. It does not capture how `urljoin` rebuilds the reference, so it differs on the inputs listed above.
- Urls.JoinAbsolutePath: the reference is appended as it is. `urljoin` gives a different string for a reference ending in '?', '#' or ';', one holding a tab, CR or LF, or one with dot segments.
- Google.JoinsOntoBase: has the same gap as `Urls.JoinAbsolutePath`. The hrefs the Google lemmas pass (detail paths and `?page=N` listings) have none of those features.
- Handler.LambdaHandler: is the handler with the corrected cursor of the Findings row. `Handler.LambdaHandlerAsWritten` is the handler as written, which also raises whenever the key of a further page holds a number.
- `Runner` models `process_company` as intended. scraper/runner.py:10 imports `extract_description`, which scraper/parsing.py does not define (it defines `extract_description_from_html` at line 299). As written, that import fails and `run` cannot start. The generic fetcher's result is the parameter `describe`.
- `Json.Get` returns the first member with a key. `json.loads` keeps the last of repeated keys, and the model assumes keys are not repeated. JSON numbers are integers: floats are not modelled.
- `Location.TextOr`: a non-string `addressRegion` or `addressLocality` is not adopted. The source would store such a value in admin1/city as it is.
- Netflix's `str(v)` for a boolean id is read as not digits ("True"/"False"), and a float id is not modelled.
- Base64Url.Decode does not distinguish the two `binascii` error messages: both are `None`.
- Amazon.Gather: the session is a function of the requested offset alone. Request headers, the timeout and a changing server are not modelled.
- Google.DiscoverSpec: the model covers only a raise on `page.goto` (the main page or an explicit page) and a non-integer `max_pages` read as "not positive". An exception that escapes elsewhere inside the Playwright block, after some URLs were gathered, is not modelled.
- Meta.DiscoverSpec: an exception in the middle of the scroll loop is not modelled. It would keep the URLs gathered so far. A failed `goto` of the jobs page is modelled.
- Meta.CanonicalCollected: that a collected URL is still a detail URL (collecting is a fixed point) is proved only for the canonical form `https://www.metacareers.com/jobs/<digits>` with an optional final '/'. `Meta.DiscoveredAreDetail` states for every collected URL that it is some detail URL with its trailing '/' removed.
- Handler.ParseLimit: `int()` of a non-string query value is not modelled, because query-string values are strings.
- Concurrency is not modelled: two runs racing for the lock are reduced to `Store.MutualExclusion` at one instant.

## Findings

| source | as written | input that shows it | evidently intended | confidence | as-written member | corrected member |
|---|---|---|---|---|---|---|
| api/handler.py:96 | `next_cursor = _b64e(resp["LastEvaluatedKey"])` calls `json.dumps` on a key whose `posted_at` boto3 returns as a `Decimal`, and `json.dumps` raises `TypeError` on a `Decimal`. | Any query on any of the three indexes that has a further page. Its `LastEvaluatedKey` carries `posted_at` as a number, so no second page can ever be requested (`Handler.AsWrittenCursorFailsOnIndexKey`). | write the key's numbers as JSON integers, so that a cursor exists exactly when there is a further page and decodes back to the key | not executed | Handler.NextCursorAsWritten | Handler.NextCursorRoundTrip |
