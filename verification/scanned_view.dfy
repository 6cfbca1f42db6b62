/** The history page of `src/app/scanned/page.tsx`: a case-insensitive
    search over owner and repository name, a descending sort on one of
    three keys, and nine-per-page pagination with clamped navigation. */
module ScannedView {
  import opened Text
  import opened Storage

  const ITEMS_PER_PAGE: nat := 9

  datatype SortKey = ByDate | ByScore | ByStars

  function KeyOf(a: StoredAnalysis, k: SortKey): int {
    match k
    case ByDate => a.analyzedAt
    case ByScore => a.score
    case ByStars => a.stars
  }

  /* ---------------- Search ---------------- */

  /** The lower-cased repository name or owner contains the lower-cased term. */
  predicate Matches(a: StoredAnalysis, term: string) {
    Includes(ToLower(a.repoName), ToLower(term)) || Includes(ToLower(a.owner), ToLower(term))
  }

  function FilterByTerm(s: seq<StoredAnalysis>, term: string): (r: seq<StoredAnalysis>)
    ensures forall x :: x in r <==> x in s && Matches(x, term)
    ensures |r| <= |s|
  {
    if |s| == 0 then []
    else (if Matches(s[0], term) then [s[0]] else []) + FilterByTerm(s[1..], term)
  }

  /** The filter keeps the matching entries in their stored order. */
  lemma {:induction false} FilterKeepsOrder(s: seq<StoredAnalysis>, term: string)
    ensures IsSubsequence(FilterByTerm(s, term), s)
  {
    if |s| > 0 {
      FilterKeepsOrder(s[1..], term);
      var rest := FilterByTerm(s[1..], term);
      if Matches(s[0], term) {
        assert FilterByTerm(s, term) == [s[0]] + rest;
        assert ([s[0]] + rest)[1..] == rest;
      } else {
        assert FilterByTerm(s, term) == rest;
        SubsequenceOfTail(rest, s);
      }
    }
  }

  /** An empty search keeps every entry. */
  lemma {:induction false} EmptyTermKeepsAll(s: seq<StoredAnalysis>)
    ensures FilterByTerm(s, "") == s
  {
    if |s| > 0 {
      IncludesEmpty(ToLower(s[0].repoName));
      EmptyTermKeepsAll(s[1..]);
      assert s == [s[0]] + s[1..];
    }
  }

  /** Matching is a substring test on the lower-cased texts. */
  lemma MatchesIsSubstring(a: StoredAnalysis, term: string)
    ensures Matches(a, term) <==> Occurs(ToLower(a.repoName), ToLower(term)) || Occurs(ToLower(a.owner), ToLower(term))
  {
    var name, owner, t := ToLower(a.repoName), ToLower(a.owner), ToLower(term);
    IncludesIffOccurs(name, t);
    IncludesIffOccurs(owner, t);
  }

  /** The case of ASCII letters in the search term does not matter. */
  lemma MatchesIgnoresTermCase(a: StoredAnalysis, term: string)
    ensures Matches(a, term) <==> Matches(a, ToLower(term))
  {
    ToLowerIdempotent(term);
  }

  /* ---------------- Sort ---------------- */

  predicate SortedDesc(s: seq<StoredAnalysis>, k: SortKey) {
    forall i, j :: 0 <= i < j < |s| ==> KeyOf(s[i], k) >= KeyOf(s[j], k)
  }

  /** Places `x` before the first element whose key is not greater, which
      keeps equal keys in their original order. */
  function InsertByKey(x: StoredAnalysis, t: seq<StoredAnalysis>, k: SortKey): (r: seq<StoredAnalysis>)
    ensures multiset(r) == multiset(t) + multiset{x}
  {
    if |t| == 0 || KeyOf(t[0], k) <= KeyOf(x, k) then
      [x] + t
    else
      assert t == [t[0]] + t[1..];
      [t[0]] + InsertByKey(x, t[1..], k)
  }

  lemma {:induction false} InsertByKeyMembers(x: StoredAnalysis, t: seq<StoredAnalysis>, k: SortKey)
    ensures forall y :: y in InsertByKey(x, t, k) ==> y == x || y in t
  {
    if |t| > 0 && KeyOf(t[0], k) > KeyOf(x, k) {
      InsertByKeyMembers(x, t[1..], k);
    }
  }

  /** Inserting into a non-increasing list keeps it non-increasing. */
  lemma {:induction false} InsertByKeySorted(x: StoredAnalysis, t: seq<StoredAnalysis>, k: SortKey)
    requires SortedDesc(t, k)
    ensures SortedDesc(InsertByKey(x, t, k), k)
  {
    if |t| > 0 && KeyOf(t[0], k) > KeyOf(x, k) {
      var rest := InsertByKey(x, t[1..], k);
      InsertByKeySorted(x, t[1..], k);
      InsertByKeyMembers(x, t[1..], k);
      forall j | 0 <= j < |rest| ensures KeyOf(rest[j], k) <= KeyOf(t[0], k) {
        assert rest[j] in rest;
        if rest[j] != x {
          assert rest[j] in t[1..];
          var m :| 0 <= m < |t[1..]| && t[1..][m] == rest[j];
          assert t[m + 1] == rest[j];
        }
      }
      assert InsertByKey(x, t, k) == [t[0]] + rest;
    }
  }

  /** `Array.prototype.sort` with comparator `b.key - a.key`: a stable
      sort into non-increasing key order. */
  function SortByKey(s: seq<StoredAnalysis>, k: SortKey): (r: seq<StoredAnalysis>)
    ensures SortedDesc(r, k)
    ensures multiset(r) == multiset(s)
  {
    if |s| == 0 then []
    else
      assert s == [s[0]] + s[1..];
      var rest := SortByKey(s[1..], k);
      InsertByKeySorted(s[0], rest, k);
      InsertByKey(s[0], rest, k)
  }

  /* ---------------- Pagination ---------------- */

  /** `Math.ceil(n / ITEMS_PER_PAGE)`: the fewest pages that hold n items. */
  function TotalPages(n: nat): (t: nat)
    ensures t * ITEMS_PER_PAGE >= n
    ensures t > 0 ==> (t - 1) * ITEMS_PER_PAGE < n
  {
    (n + ITEMS_PER_PAGE - 1) / ITEMS_PER_PAGE
  }

  /** How `Array.prototype.slice` reads an index: negative counts from the
      end, and the result is clamped to [0, len]. */
  function SliceIndex(x: int, len: nat): (i: nat)
    ensures i <= len
    ensures 0 <= x <= len ==> i == x
  {
    if x < 0 then (if len + x < 0 then 0 else len + x)
    else if x > len then len else x
  }

  /** `Array.prototype.slice(start, end)`. */
  function Slice(s: seq<StoredAnalysis>, start: int, end: int): seq<StoredAnalysis> {
    var from := SliceIndex(start, |s|);
    var to := SliceIndex(end, |s|);
    if from < to then s[from..to] else []
  }

  /** Indices `d` apart are read at most `d` apart. */
  lemma SliceIndexSpread(x: int, y: int, len: nat)
    requires x <= y
    ensures SliceIndex(y, len) - SliceIndex(x, len) <= y - x
  {
  }

  /** `filtered.slice((page - 1) * 9, page * 9)`. */
  function PageSlice(s: seq<StoredAnalysis>, page: int): (r: seq<StoredAnalysis>)
    ensures |r| <= ITEMS_PER_PAGE
    ensures page > TotalPages(|s|) ==> r == []
  {
    SliceIndexSpread((page - 1) * ITEMS_PER_PAGE, page * ITEMS_PER_PAGE, |s|);
    Slice(s, (page - 1) * ITEMS_PER_PAGE, page * ITEMS_PER_PAGE)
  }

  /** Page `page` holds the items at positions (page - 1) * 9 onwards, as
      many as there are up to nine, and only items of the list. */
  lemma PageContents(s: seq<StoredAnalysis>, page: int)
    requires page >= 1
    ensures var r := PageSlice(s, page);
            && (forall i :: 0 <= i < |r| ==> (page - 1) * ITEMS_PER_PAGE + i < |s| && r[i] == s[(page - 1) * ITEMS_PER_PAGE + i])
            && ((page - 1) * ITEMS_PER_PAGE < |s| ==> |r| == if page * ITEMS_PER_PAGE <= |s| then ITEMS_PER_PAGE else |s| - (page - 1) * ITEMS_PER_PAGE)
  {
    var lo := (page - 1) * ITEMS_PER_PAGE;
    assert lo >= 0;
    assert page * ITEMS_PER_PAGE == lo + ITEMS_PER_PAGE;
  }

  /** The pages `from` to `last`, concatenated. */
  function PagesFrom(s: seq<StoredAnalysis>, from: nat, last: nat): seq<StoredAnalysis>
    decreases last + 1 - from
  {
    if from > last || from == 0 then [] else PageSlice(s, from) + PagesFrom(s, from + 1, last)
  }

  lemma {:induction false} PagesFromSuffix(s: seq<StoredAnalysis>, from: nat)
    requires from >= 1
    requires (from - 1) * ITEMS_PER_PAGE <= |s|
    ensures PagesFrom(s, from, TotalPages(|s|)) == s[(from - 1) * ITEMS_PER_PAGE..]
    decreases TotalPages(|s|) + 1 - from
  {
    var total := TotalPages(|s|);
    var lo := (from - 1) * ITEMS_PER_PAGE;
    if from > total {
      assert lo >= |s|;
    } else {
      var hi := from * ITEMS_PER_PAGE;
      if hi <= |s| {
        assert PageSlice(s, from) == s[lo..hi];
        PagesFromSuffix(s, from + 1);
        assert s[lo..] == s[lo..hi] + s[hi..];
      } else {
        assert PageSlice(s, from) == s[lo..];
        assert from + 1 > total;
      }
    }
  }

  /** Reading pages 1 to TotalPages in turn gives back the whole list,
      each item exactly once and in order. */
  lemma PagesReassemble(s: seq<StoredAnalysis>)
    ensures PagesFrom(s, 1, TotalPages(|s|)) == s
  {
    PagesFromSuffix(s, 1);
  }

  /** The Previous button: `Math.max(1, p - 1)`. */
  function PreviousPage(p: int): (r: int)
    ensures r >= 1
    ensures p > 1 ==> r == p - 1
    ensures p <= 1 ==> r == 1
  {
    if p - 1 > 1 then p - 1 else 1
  }

  /** The Next button: `Math.min(totalPages, p + 1)`. */
  function NextPage(p: int, total: nat): (r: int)
    ensures r <= total
    ensures p < total ==> r == p + 1
    ensures p >= total ==> r == total
  {
    if p + 1 < total then p + 1 else total
  }

  /** Starting from a page in range, Previous and Next keep it in range. */
  lemma NavigationStaysInRange(p: int, total: nat)
    requires 1 <= p <= total
    ensures 1 <= PreviousPage(p) <= total
    ensures 1 <= NextPage(p, total) <= total
  {
  }

  /** The pagination controls are shown only when there is more than one
      page, that is, more than nine matching entries. */
  predicate ShowsPagination(n: nat) {
    TotalPages(n) > 1
  }

  lemma PaginationShownIffOverOnePage(n: nat)
    ensures ShowsPagination(n) <==> n > ITEMS_PER_PAGE
  {
  }

  /** What the page shows: the current page of the sorted search results. */
  function VisibleAnalyses(analyses: seq<StoredAnalysis>, term: string, k: SortKey, page: int): (r: seq<StoredAnalysis>)
    ensures |r| <= ITEMS_PER_PAGE
    ensures forall x :: x in r ==> x in analyses && Matches(x, term)
  {
    var sorted := SortByKey(FilterByTerm(analyses, term), k);
    var shown := PageSlice(sorted, page);
    assert forall x :: x in shown ==> x in sorted;
    assert forall x :: x in sorted ==> x in multiset(sorted);
    shown
  }

  /** The page is not reset when the search narrows the list: a current
      page beyond the new last page shows nothing. */
  lemma StalePageShowsNothing(analyses: seq<StoredAnalysis>, term: string, k: SortKey, page: int)
    requires page > TotalPages(|FilterByTerm(analyses, term)|)
    ensures VisibleAnalyses(analyses, term, k, page) == []
  {
    SortedLength(FilterByTerm(analyses, term), k);
  }
  /* ---------------- Typing a search term ---------------- */

  /** The page's state: the search term, the sort key and the current page. */
  datatype ViewState = ViewState(term: string, key: SortKey, page: int)

  /** What a state shows from the stored entries. */
  function Shown(analyses: seq<StoredAnalysis>, st: ViewState): (r: seq<StoredAnalysis>)
    ensures |r| <= ITEMS_PER_PAGE
    ensures forall x :: x in r ==> x in analyses && Matches(x, st.term)
  {
    VisibleAnalyses(analyses, st.term, st.key, st.page)
  }

  /** The search box's change handler as written: only the term changes,
      the current page is kept. */
  function SetSearchTerm(st: ViewState, term: string): (r: ViewState)
    ensures r.term == term && r.key == st.key && r.page == st.page
  {
    st.(term := term)
  }

  /** The change handler with the page reset to the first page. */
  function SetSearchTermReset(st: ViewState, term: string): (r: ViewState)
    ensures r.term == term && r.key == st.key && r.page == 1
  {
    ViewState(term, st.key, 1)
  }

  lemma SortedLength(f: seq<StoredAnalysis>, k: SortKey)
    ensures |SortByKey(f, k)| == |f|
  {
    assert |multiset(SortByKey(f, k))| == |multiset(f)|;
  }

  /** As written: on page 2, a term matching between one and nine entries
      shows an empty page and hides the pagination controls, so the
      matches cannot be reached without changing the term again. */
  lemma SearchKeepsStalePage(analyses: seq<StoredAnalysis>, st: ViewState, term: string)
    requires st.page == 2
    requires 1 <= |FilterByTerm(analyses, term)| <= ITEMS_PER_PAGE
    ensures Shown(analyses, SetSearchTerm(st, term)) == []
    ensures !ShowsPagination(|FilterByTerm(analyses, term)|)
    ensures exists x :: x in analyses && Matches(x, term)
  {
    var f := FilterByTerm(analyses, term);
    SortedLength(f, st.key);
    assert f[0] in f;
  }

  /** With the page reset, any matching entry makes the page non-empty: it
      shows the first nine sorted matches, or all of them when fewer. */
  lemma ResetSearchShowsMatches(analyses: seq<StoredAnalysis>, st: ViewState, term: string)
    ensures var n := |FilterByTerm(analyses, term)|;
            |Shown(analyses, SetSearchTermReset(st, term))| == if n <= ITEMS_PER_PAGE then n else ITEMS_PER_PAGE
    ensures var sorted := SortByKey(FilterByTerm(analyses, term), st.key);
            var r := Shown(analyses, SetSearchTermReset(st, term));
            forall i :: 0 <= i < |r| ==> r[i] == sorted[i]
  {
    var f := FilterByTerm(analyses, term);
    SortedLength(f, st.key);
    PageContents(SortByKey(f, st.key), 1);
  }
}
