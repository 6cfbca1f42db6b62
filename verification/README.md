# RepoHero analysis core in Dafny

RepoHero analyses a GitHub repository. It looks the repository up five ways:
the repository record, its languages, its `.github` directory, its open pull
requests and its contributors. It then scores the result and writes a summary
into a ten-entry history kept in the browser. A history page lists past
analyses and lets the user search, sort and page through them.

This project models the deterministic core of that pipeline as pure Dafny
functions over immutable datatypes and proves properties about it:

- `results.dfy` (`Results`): `Option` (JavaScript `null`) and `Result` (a
  thrown `Error` with its message).
- `text.dfy` (`Text`): the string operations the code relies on. These are
  ASCII `toLowerCase`, `includes`, `replace` of the first literal
  occurrence, `split('/')`, and the decimal rendering of numbers in
  template strings.
- `scoring.dfy` (`Scoring`): `generateAISummary`, the scoring engine.
- `records.dfy` (`Records`): the repository record and the `RepoAnalysis`
  aggregate.
- `storage.dfy` (`Storage`): `AnalysisStorage`, the recency cache, with the
  stored list as a `seq<StoredAnalysis>`.
- `analysis.dfy` (`Analysis`): `analyzeRepository`. The five lookups are
  already-settled outcomes. The model covers the derived flags, the age,
  the default strings, the failure policy and the single cache write.
- `repo_input.dfy` (`RepoInput`): the owner/repository parse in the search
  form's `handleSubmit`, and the submit itself.
- `scanned_view.dfy` (`ScannedView`): the history page's filter, sort,
  pagination and page navigation.

Main results:

- The score is `70 − 5·[stars<10] − 5·[contributors<2] − 10·[no docs] +
  5·[security policy] + 5·[workflows]`. It is always a multiple of 5 in
  [50, 80]. So the clamp to [0, 100] is dead code, and the rating `High` is
  never produced: a perfect repository scores 80 and is rated `Medium`.
- The cache never holds more than ten entries. The newest entry is first.
  Ids stay unique, and the surviving older entries keep their order.
  Storing the same id twice is the same as storing only the second entry.
  Storing eleven distinct ids evicts the first one.
- A failed `.github` listing, and a non-OK contributors response, are
  absorbed: the analysis goes on with an empty listing or no contributors.
  A non-OK primary lookup aborts with one generic message and leaves the
  cache untouched. Other failures the code does not absorb (a rejected
  fetch of the languages, pulls or contributors, or a body that does not
  decode) are not modelled; see "Left out".
- `owner/repo` and `https://github.com/owner/repo` parse to the same pair.
  Extra segments are ignored. `http://github.com/o/r` is rejected, and
  `github.com/o/r` is read as owner `github.com`, repository `o`.
- Reading history pages 1 to `ceil(n/9)` in turn gives back the sorted list
  exactly.

Points of the code worth knowing:

- The security rating is computed from the unclamped score
  (`src/services/github.ts:229`). It equals the rating of the clamped
  score, because the clamp never changes the score
  (`Scoring.RatingFromFinalScore`).
- Only the `.github` listing catches a rejected request
  (`src/services/github.ts:77-78`). The contributors lookup falls back to
  an empty list only when the response is not OK
  (`src/services/github.ts:90`). The languages and pull-request responses
  are decoded whatever their status (`src/services/github.ts:88-89`).
- A missing second path segment and an empty one are both rejected, since
  `undefined` and `""` are both falsy.

## Model

| member | source | states |
|---|---|---|
| Scoring.GenerateSummary | src/services/github.ts:190-232 | score equals the additive formula over the five conditions, is a multiple of 5 in [50,80]; exactly two key findings; timesAnalyzed is 1; rating never High, Medium iff score > 60 |
| Scoring.ClampIsDead | src/services/github.ts:194-224 | the unclamped score already lies in [50,80], so `min(100, max(0, score))` returns it unchanged |
| Scoring.RatingFromFinalScore | src/services/github.ts:229 | the rating computed from the unclamped score equals the rating of the clamped score, and is only ever Medium or Low |
| Scoring.RedFlagsAreSelection | src/services/github.ts:197-208 | red flags are the in-order sub-list of the three red-flag texts whose conditions hold, so at most 3 |
| Scoring.GreenFlagsAreSelection | src/services/github.ts:210-217 | green flags are the in-order sub-list of the two green-flag texts whose conditions hold, so at most 2 |
| Scoring.FlagIffCondition | src/services/github.ts:197-217 | each of the five flags is present if and only if its condition holds |
| Scoring.HealthBands | src/services/github.ts:230 | Active iff stars > 100, Growing iff 10 < stars ≤ 100, New iff stars ≤ 10; at 10 stars there is no adoption flag yet health is New |
| Scoring.FindingsIgnoreFlags | src/services/github.ts:219-221 | key findings depend only on age, stars, contributors and pull requests: first the age/stars sentence, then the contributors/pull-requests sentence |
| Scoring.WorstCaseScenario | src/services/github.ts:194-230 | 5 stars, 1 contributor, no docs, no security files: score 50, all three red flags, no green flags, Low, New |
| Scoring.BestCaseScenario | src/services/github.ts:194-230 | 150 stars, 5 contributors, docs, security policy, workflows: score 80, no red flags, both green flags, Medium (80 is not above 80), Active |
| Text.IntToStringRoundTrip | src/services/github.ts:220-221 | the decimal text of a number inside a key finding reads back as the same integer |
| Text.ToLowerIdempotent | src/app/scanned/page.tsx:23-24 | lower-casing twice is lower-casing once |
| Text.IncludesIffOccurs | src/app/scanned/page.tsx:23-24 | the left-to-right scan finds a pattern exactly when it occurs at some index |
| Text.FindFirst | src/components/SearchForm.tsx:20 | the index returned is an occurrence with no earlier occurrence; none is returned only when there is no occurrence |
| Text.ReplaceFirst | src/components/SearchForm.tsx:20 | a string without the pattern is unchanged; otherwise exactly the first occurrence is removed (replaced) |
| Text.Split | src/components/SearchForm.tsx:20 | splitting yields at least one segment and no segment contains the separator |
| Text.JoinSplit | src/components/SearchForm.tsx:20 | joining the segments of a split with the separator gives back the input |
| Text.SplitJoin | src/components/SearchForm.tsx:20 | splitting a join of separator-free segments gives back the segments |
| Storage.Without | src/services/storage.ts:44 | the filter keeps exactly the entries with a different id and never grows the list |
| Storage.WithoutIsSubsequence | src/services/storage.ts:44 | the filter keeps the surviving entries in their old relative order |
| Storage.WithoutUnique | src/services/storage.ts:44 | filtering a list with distinct ids leaves distinct ids |
| Storage.Insert | src/services/storage.ts:44-47 | after a store the new entry is first and its id occurs exactly once; the list holds min(10, 1 + survivors) entries, where the survivors are the old entries with another id, and entry i is the (i-1)-th survivor; distinct ids stay distinct |
| Storage.InsertKeepsOthers | src/services/storage.ts:44-47 | the entries after the first are an order-preserving sub-list of the old list; if fewer than ten survive the removal none is evicted, otherwise exactly the nine most recent survivors are kept |
| Storage.InsertSameIdTwice | src/services/storage.ts:44-47 | storing two entries with the same id gives the same list as storing only the second |
| Storage.InsertAllDistinct | src/services/storage.ts:44-47 | storing entries with distinct ids into an empty list keeps the last ten stored, most recent first |
| Storage.ElevenDistinctStores | src/services/storage.ts:17 | eleven distinct stores leave ten entries in reverse store order, and the first stored id is gone |
| Storage.GetStoredAnalyses | src/services/storage.ts:20-24 | outside a browser or with an empty slot the history reads as empty; otherwise as the stored list |
| Storage.StoreAnalysis | src/services/storage.ts:26-50 | the new first entry carries id `owner/repo`, URL `https://github.com/` + id, the analysis' score, rating, stars, forks and key findings; bounds and uniqueness as for Insert |
| Storage.IdDeterminesPair | src/services/storage.ts:28 | for slash-free owners and names, equal ids mean equal owner and name |
| Analysis.AgeInMonths | src/services/github.ts:96 | the age is the floor of the elapsed milliseconds over 30-day months: age·M ≤ elapsed < (age+1)·M |
| Analysis.HasFile | src/services/github.ts:108 | the flag is set iff the exact name is in the listing |
| Analysis.OrDefault | src/services/github.ts:147-148 | a missing or empty text falls back to the default; any other text is kept |
| Analysis.AnalyzeRepository | src/services/github.ts:65-171 | fails iff the primary lookup is not OK, then only with the generic message and the cache unchanged; on success the cache is the result of exactly one store of the analysis, and the score is in [50,80] |
| Analysis.FileFlagsAreMembership | src/services/github.ts:152-157 | the four file flags are exact-name membership of SECURITY.md, workflows, CONTRIBUTING.md, CODE_OF_CONDUCT.md; the security-policy green flag follows SECURITY.md |
| Analysis.FailedListingIsAbsorbed | src/services/github.ts:77-79 | a failed `.github` listing still gives a successful analysis, identical to an empty listing, with all four file flags off and no green flags |
| Analysis.FailedContributorsAreAbsorbed | src/services/github.ts:90 | a non-OK contributors lookup still succeeds, with 0 contributors and the involvement red flag |
| Analysis.DocumentationIgnoresReadme | src/services/github.ts:106 | flipping the README flag never changes the summary; the documentation red flag is raised iff the repository has neither wiki nor pages |
| Analysis.DefaultsOnSuccess | src/services/github.ts:119-160 | missing description and license become the default texts, no insight becomes the empty string, and the insight generator sees the same texts and file flags as the result |
| Analysis.AgeFindingUsesFloor | src/services/github.ts:94-96 | the first key finding carries the floored age in months and the star count |
| Analysis.OctoDemoScenario | src/services/github.ts:74-166 | octo/demo with 5 stars, one contributor, no docs and no security files: score 50, three red flags, Low, New, and a one-entry cache with id octo/demo and its GitHub URL |
| RepoInput.ParseRepoInput | src/components/SearchForm.tsx:20-23 | a rejected input yields only the format error; an accepted owner and repository are both non-empty and slash-free |
| RepoInput.ParseSegmentsIff | src/components/SearchForm.tsx:20-23 | splitting and checking the segments accepts a string exactly when it starts with two non-empty slash-free segments followed by nothing or '/', and returns those two |
| RepoInput.ParseRepoInputIff | src/components/SearchForm.tsx:20-23 | an input is accepted as (o, r) exactly when, after the first `https://github.com/` is removed, it starts with `o/r` followed by nothing or '/', with o and r non-empty and slash-free |
| RepoInput.TrailingSlashRejected | src/components/SearchForm.tsx:20-22 | `owner/` with nothing after the slash is rejected |
| RepoInput.ShortAndFullFormAgree | src/components/SearchForm.tsx:20 | `o/r` and `https://github.com/o/r` parse to the same pair (o, r) |
| RepoInput.FullUrlIgnoresExtraSegments | src/components/SearchForm.tsx:20 | after the full URL prefix, everything from the third segment on is ignored |
| RepoInput.ShortFormIgnoresExtraSegments | src/components/SearchForm.tsx:20 | without the prefix in the input, `o/r/…` (e.g. `o/r/tree/main`, `o/r/`) parses to (o, r) |
| RepoInput.HttpSchemeIsRejected | src/components/SearchForm.tsx:20-22 | `http://github.com/o/r` is not stripped and has an empty second segment, so it is rejected |
| RepoInput.BareHostIsReadAsOwner | src/components/SearchForm.tsx:20-22 | `github.com/o/r` is accepted as owner `github.com`, repository `o` |
| RepoInput.MissingSegmentsAreRejected | src/components/SearchForm.tsx:21-22 | an input with no slash, or starting with a slash, is rejected |
| RepoInput.HandleSubmit | src/components/SearchForm.tsx:14-31 | a rejected input shows the format error and leaves the cache alone; otherwise the analysis of the parsed pair either shows the generic error (cache unchanged) or shows exactly that run's analysis with no error, and the cache becomes that run's cache, headed by `owner/repo` |
| ScannedView.FilterByTerm | src/app/scanned/page.tsx:21-25 | keeps exactly the entries whose lower-cased name or owner contains the lower-cased term |
| ScannedView.FilterKeepsOrder | src/app/scanned/page.tsx:21-25 | the kept entries are in their stored order |
| ScannedView.EmptyTermKeepsAll | src/app/scanned/page.tsx:21-25 | an empty search term keeps every entry |
| ScannedView.MatchesIsSubstring | src/app/scanned/page.tsx:23-24 | an entry matches iff the lower-cased term occurs in its lower-cased name or owner |
| ScannedView.MatchesIgnoresTermCase | src/app/scanned/page.tsx:23-24 | the case of ASCII letters in the term does not change which entries match |
| ScannedView.InsertByKey | src/app/scanned/page.tsx:26-37 | inserting into a non-increasing list keeps it non-increasing and adds exactly the one element |
| ScannedView.SortByKey | src/app/scanned/page.tsx:26-37 | the result is a permutation of the input, non-increasing in the chosen key (date, score or stars) |
| ScannedView.TotalPages | src/app/scanned/page.tsx:39 | the fewest pages of nine that hold n items: t·9 ≥ n and (t−1)·9 < n |
| ScannedView.SliceIndexSpread | src/app/scanned/page.tsx:40-43 | slice indices that are d apart are normalised to at most d apart |
| ScannedView.PageSlice | src/app/scanned/page.tsx:40-43 | every page holds at most nine items, and a page beyond the last is empty |
| ScannedView.PageContents | src/app/scanned/page.tsx:40-43 | page p holds the items from position (p−1)·9, nine of them or the rest of the list |
| ScannedView.PagesReassemble | src/app/scanned/page.tsx:39-43 | concatenating pages 1 to TotalPages gives back the list exactly |
| ScannedView.PreviousPage | src/app/scanned/page.tsx:178 | Previous goes one page back but never below page 1 |
| ScannedView.NextPage | src/app/scanned/page.tsx:201 | Next goes one page forward but never beyond the last page |
| ScannedView.NavigationStaysInRange | src/app/scanned/page.tsx:178-201 | from a page in range, Previous and Next stay in range |
| ScannedView.PaginationShownIffOverOnePage | src/app/scanned/page.tsx:175 | the page controls appear iff more than nine entries match |
| ScannedView.VisibleAnalyses | src/app/scanned/page.tsx:21-43 | at most nine entries are shown, each a stored entry matching the term |
| ScannedView.StalePageShowsNothing | src/app/scanned/page.tsx:40-43 | a current page beyond the last page of the filtered list shows nothing |
| ScannedView.SearchKeepsStalePage | src/app/scanned/page.tsx:75-78 | as written, typing a term on page 2 that matches one to nine entries shows an empty page and hides the page controls, although matches exist |
| ScannedView.ResetSearchShowsMatches | src/app/scanned/page.tsx:39-43 | with the page reset on a new term, the page shows the first nine sorted matches, or all of them when fewer |

## Left out

- Network access, request headers, the access token and JSON decoding. The
  five lookups are inputs already settled as outcomes: the primary lookup as
  a record or not-OK, the `.github` listing as names or failed, contributors
  as a list or not-OK, languages and the pull-request count as plain values.
- A rejected languages or pull-request lookup, and a non-OK one whose error
  body then decodes to something without a length. The code does not absorb
  these. They either fail the analysis or put `undefined` into a key
  finding, and neither is modelled.
- A rejected contributors fetch (`src/services/github.ts:81` has no
  `.catch`), and an OK contributors response whose body does not decode
  (`src/services/github.ts:90`). Either makes `Promise.all` reject, and
  the analysis then fails with the generic message
  (`src/services/github.ts:167-170`). Only a non-OK contributors response
  is modelled.
- Analysis.AnalyzeRepository: "fails exactly when the primary lookup is
  not OK" holds over the modelled outcomes only. The rejected or
  undecodable lookups listed above also fail the analysis in the code.
- Concurrency. `Promise.all` is modelled as a sequential function of the
  settled outcomes.
- The insight generator (`src/services/ai.ts`). It is a function parameter
  from the request it receives to an optional text. Its prompt, model
  choice, sampling temperature and fallback text are not modelled.
- The clock. `Date.now()` and the instant of the cache write are integer
  millisecond parameters. Date parsing of the timestamp strings is replaced
  by given instants. An invalid date (giving `NaN`) is not modelled.
- `StoredAnalysis.analyzedAt`: modelled as the instant itself, not its
  ISO-8601 text. Sorting by date compares the instants as the code does
  after parsing.
- `localStorage`, `JSON.stringify`/`JSON.parse`, and the browser check. The
  slot is an optional list. A parse error, or a storage error on write,
  would make the analysis fail; neither is modelled.
- Text.ToLower: only ASCII letters are folded. Unicode case mapping is out
  of scope.
- Text.IntToString: uses plain decimal notation. JavaScript switches to
  exponent notation from 10^21, which repository counts never reach.
- ScannedView.SortByKey: is proved a non-increasing permutation and is
  defined as a stable insertion sort. Stability, the order among entries
  with equal keys, is not stated as a separate property.
- React rendering, animation, colour bands, the clipboard paste and the
  HTML `pattern` attribute of the input field are presentation only.
- `Math.round(bytes/1024)` display rounding of language sizes is display
  only.

## Findings

| source | as written | input that shows it | evidently intended | confidence | as-written member | corrected member |
|---|---|---|---|---|---|---|
| src/app/scanned/page.tsx:75-78 | the search box's change handler sets only the term; the current page is kept | ten stored entries, the user on page 2, then a term that matches one of them: page 2 of a one-page list is empty and the controls (shown only for more than one page) are hidden | a new term starts again at page 1, so every match can be reached | medium, not executed | ScannedView.SearchKeepsStalePage | ScannedView.ResetSearchShowsMatches |

`ScannedView.SetSearchTerm` models the handler as written. `ScannedView.SetSearchTermReset`
is the corrected handler that resets the page.
