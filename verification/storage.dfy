/** The recency cache of `src/services/storage.ts`: at most ten past
    analyses, most recent first, at most one per repository id. The
    browser's key-value slot is modelled as the sequence it holds. */
module Storage {
  import opened Results
  import opened Text
  import opened Scoring
  import opened Records

  /** One cache entry (`StoredAnalysis`). `analyzedAt` is the instant of
      the write; `aiSummary` holds the analysis' key findings. */
  datatype StoredAnalysis = StoredAnalysis(
    id: string,
    repoName: string,
    owner: string,
    score: int,
    stars: nat,
    forks: nat,
    aiSummary: seq<string>,
    securityRating: SecurityRating,
    analyzedAt: int,
    githubUrl: string)

  const MAX_ITEMS: nat := 10

  const GITHUB_PREFIX: string := "https://github.com/"

  predicate UniqueIds(s: seq<StoredAnalysis>) {
    forall i, j :: 0 <= i < j < |s| ==> s[i].id != s[j].id
  }

  /** Number of entries carrying `id`. */
  function CountId(s: seq<StoredAnalysis>, id: string): nat {
    if |s| == 0 then 0 else (if s[0].id == id then 1 else 0) + CountId(s[1..], id)
  }

  /** `a` is an order-preserving sub-list of `b`. */
  predicate IsSubsequence(a: seq<StoredAnalysis>, b: seq<StoredAnalysis>)
    decreases |b|
  {
    if |a| == 0 then true
    else if |b| == 0 then false
    else (a[0] == b[0] && IsSubsequence(a[1..], b[1..])) || IsSubsequence(a, b[1..])
  }

  /** `analyses.filter(a => a.id !== id)`. */
  function Without(s: seq<StoredAnalysis>, id: string): (r: seq<StoredAnalysis>)
    ensures forall x :: x in r <==> x in s && x.id != id
    ensures |r| <= |s|
  {
    if |s| == 0 then []
    else if s[0].id == id then Without(s[1..], id)
    else [s[0]] + Without(s[1..], id)
  }

  /** The filter keeps the survivors in their old order. */
  lemma {:induction false} WithoutIsSubsequence(s: seq<StoredAnalysis>, id: string)
    ensures IsSubsequence(Without(s, id), s)
  {
    if |s| > 0 {
      WithoutIsSubsequence(s[1..], id);
      var rest := Without(s[1..], id);
      if s[0].id == id {
        SubsequenceOfTail(rest, s);
      } else {
        assert ([s[0]] + rest)[1..] == rest;
      }
    }
  }

  /** The filter drops nothing when the id is absent. */
  lemma {:induction false} WithoutAbsent(s: seq<StoredAnalysis>, id: string)
    requires forall i :: 0 <= i < |s| ==> s[i].id != id
    ensures Without(s, id) == s
  {
    if |s| > 0 {
      assert s[0].id != id;
      WithoutAbsent(s[1..], id);
      assert s == [s[0]] + s[1..];
    }
  }

  /** The filter keeps ids pairwise distinct. */
  lemma WithoutUnique(s: seq<StoredAnalysis>, id: string)
    ensures UniqueIds(s) ==> UniqueIds(Without(s, id))
  {
    if UniqueIds(s) {
      WithoutIsSubsequence(s, id);
      SubsequenceUnique(Without(s, id), s);
    }
  }

  lemma {:induction false} SubsequenceUnique(a: seq<StoredAnalysis>, b: seq<StoredAnalysis>)
    requires IsSubsequence(a, b) && UniqueIds(b)
    ensures UniqueIds(a)
    decreases |b|
  {
    if |a| > 0 {
      assert UniqueIds(b[1..]) by {
        forall i, j | 0 <= i < j < |b[1..]| ensures b[1..][i].id != b[1..][j].id {
          assert b[1..][i] == b[i + 1] && b[1..][j] == b[j + 1];
        }
      }
      if IsSubsequence(a, b[1..]) {
        SubsequenceUnique(a, b[1..]);
      } else {
        assert a[0] == b[0] && IsSubsequence(a[1..], b[1..]);
        SubsequenceUnique(a[1..], b[1..]);
        SubsequenceMembers(a[1..], b[1..]);
        forall j | 0 < j < |a| ensures a[0].id != a[j].id {
          assert a[j] == a[1..][j - 1];
          assert a[1..][j - 1] in a[1..];
          assert a[j] in b[1..];
          var k :| 0 <= k < |b[1..]| && b[1..][k] == a[j];
          assert b[k + 1] == a[j];
        }
        forall i, j | 0 <= i < j < |a| ensures a[i].id != a[j].id {
          if i > 0 {
            assert a[i] == a[1..][i - 1] && a[j] == a[1..][j - 1];
          }
        }
      }
    }
  }

  lemma {:induction false} SubsequenceMembers(a: seq<StoredAnalysis>, b: seq<StoredAnalysis>)
    requires IsSubsequence(a, b)
    ensures forall x :: x in a ==> x in b
    decreases |b|
  {
    if |a| > 0 {
      if IsSubsequence(a, b[1..]) {
        SubsequenceMembers(a, b[1..]);
      } else {
        SubsequenceMembers(a[1..], b[1..]);
        assert forall x :: x in a ==> x == a[0] || x in a[1..];
      }
    }
  }

  lemma SubsequenceOfTail(a: seq<StoredAnalysis>, b: seq<StoredAnalysis>)
    requires |b| > 0 && IsSubsequence(a, b[1..])
    ensures IsSubsequence(a, b)
  {
  }

  function Take<T>(s: seq<T>, n: nat): (r: seq<T>)
    ensures |r| == if |s| <= n then |s| else n
    ensures forall i :: 0 <= i < |r| ==> r[i] == s[i]
  {
    if |s| <= n then s else s[..n]
  }

  /** The update `storeAnalysis` performs: drop the entry with the same
      id, put the new entry first, keep the first ten. */
  function Insert(store: seq<StoredAnalysis>, e: StoredAnalysis): (r: seq<StoredAnalysis>)
    ensures 1 <= |r| <= MAX_ITEMS
    ensures r[0] == e
    ensures CountId(r, e.id) == 1
    ensures forall i :: 1 <= i < |r| ==> r[i] in store && r[i].id != e.id
    ensures var rest := Without(store, e.id);
            |r| == if |rest| < MAX_ITEMS then |rest| + 1 else MAX_ITEMS
    ensures forall i :: 1 <= i < |r| ==> r[i] == Without(store, e.id)[i - 1]
    ensures UniqueIds(store) ==> UniqueIds(r)
  {
    var rest := Without(store, e.id);
    var kept := Take(rest, MAX_ITEMS - 1);
    var r := Take([e] + rest, MAX_ITEMS);
    assert r == [e] + kept;
    assert r[1..] == kept;
    CountIdNone(kept, e.id);
    WithoutUnique(store, e.id);
    r
  }

  lemma {:induction false} CountIdNone(s: seq<StoredAnalysis>, id: string)
    requires forall i :: 0 <= i < |s| ==> s[i].id != id
    ensures CountId(s, id) == 0
  {
    if |s| > 0 {
      CountIdNone(s[1..], id);
    }
  }

  /** Nothing else changes: the entries after the first are the surviving
      older entries in their old relative order; when fewer than ten
      entries survive the removal none of them is evicted, and otherwise
      the nine most recent survivors are kept and only the older ones go. */
  lemma InsertKeepsOthers(store: seq<StoredAnalysis>, e: StoredAnalysis)
    ensures IsSubsequence(Insert(store, e)[1..], store)
    ensures |Without(store, e.id)| < MAX_ITEMS ==>
              forall x :: x in store && x.id != e.id ==> x in Insert(store, e)
    ensures |Without(store, e.id)| >= MAX_ITEMS ==>
              Insert(store, e)[1..] == Without(store, e.id)[..MAX_ITEMS - 1]
  {
    var rest := Without(store, e.id);
    var r := Insert(store, e);
    assert r[1..] == Take(rest, MAX_ITEMS - 1);
    PrefixIsSubsequence(rest, MAX_ITEMS - 1);
    WithoutIsSubsequence(store, e.id);
    SubsequenceTransitive(r[1..], rest, store);
    if |rest| < MAX_ITEMS {
      assert r == [e] + rest;
    }
  }

  lemma {:induction false} PrefixIsSubsequence(s: seq<StoredAnalysis>, n: nat)
    ensures IsSubsequence(Take(s, n), s)
  {
    if |s| > n {
      PrefixSubsequence(s[..n], s);
    } else {
      PrefixSubsequence(s, s);
    }
  }

  lemma {:induction false} PrefixSubsequence(p: seq<StoredAnalysis>, s: seq<StoredAnalysis>)
    requires |p| <= |s| && s[..|p|] == p
    ensures IsSubsequence(p, s)
  {
    if |p| > 0 {
      assert p[0] == s[0];
      assert s[1..][..|p| - 1] == p[1..];
      PrefixSubsequence(p[1..], s[1..]);
    }
  }

  lemma {:induction false} SubsequenceTransitive(a: seq<StoredAnalysis>, b: seq<StoredAnalysis>, c: seq<StoredAnalysis>)
    requires IsSubsequence(a, b) && IsSubsequence(b, c)
    ensures IsSubsequence(a, c)
    decreases |c|
  {
    if |a| > 0 {
      if IsSubsequence(b, c[1..]) {
        SubsequenceTransitive(a, b, c[1..]);
      } else {
        assert b[0] == c[0] && IsSubsequence(b[1..], c[1..]);
        if a[0] == b[0] && IsSubsequence(a[1..], b[1..]) {
          SubsequenceTransitive(a[1..], b[1..], c[1..]);
        } else {
          SubsequenceTransitive(a, b[1..], c[1..]);
        }
      }
    }
  }

  /** Storing the same id twice is the same as storing only the second
      entry: one entry for the id, holding the second call's data, first. */
  lemma InsertSameIdTwice(store: seq<StoredAnalysis>, e1: StoredAnalysis, e2: StoredAnalysis)
    requires e1.id == e2.id
    ensures Insert(Insert(store, e1), e2) == Insert(store, e2)
  {
    var rest := Without(store, e1.id);
    var kept := Take(rest, MAX_ITEMS - 1);
    SecondStoreSeesKept(store, e1);
    TakeCons(e2, rest, MAX_ITEMS - 1);
  }

  /** After a store, removing the stored id again leaves the older
      survivors that were kept. */
  lemma SecondStoreSeesKept(store: seq<StoredAnalysis>, e: StoredAnalysis)
    ensures Without(Insert(store, e), e.id) == Take(Without(store, e.id), MAX_ITEMS - 1)
  {
    var kept := Take(Without(store, e.id), MAX_ITEMS - 1);
    assert Insert(store, e) == [e] + kept;
    assert ([e] + kept)[1..] == kept;
    WithoutAbsent(kept, e.id);
  }

  /* ---------------- Repeated stores ---------------- */

  function Reverse(s: seq<StoredAnalysis>): (r: seq<StoredAnalysis>)
    ensures |r| == |s|
    ensures forall x :: x in r <==> x in s
  {
    if |s| == 0 then [] else [s[|s| - 1]] + Reverse(s[..|s| - 1])
  }

  /** Stores the entries of `es` one after another, first to last. */
  function InsertAll(store: seq<StoredAnalysis>, es: seq<StoredAnalysis>): seq<StoredAnalysis>
  {
    if |es| == 0 then store else Insert(InsertAll(store, es[..|es| - 1]), es[|es| - 1])
  }

  /** Storing entries with pairwise distinct ids into an empty cache keeps
      the ten most recent, most recent first. */
  lemma {:induction false} InsertAllDistinct(es: seq<StoredAnalysis>)
    requires UniqueIds(es)
    ensures InsertAll([], es) == Take(Reverse(es), MAX_ITEMS)
  {
    if |es| > 0 {
      var init := es[..|es| - 1];
      var e := es[|es| - 1];
      assert UniqueIds(init);
      InsertAllDistinct(init);
      var prev := Take(Reverse(init), MAX_ITEMS);
      assert forall i :: 0 <= i < |prev| ==> prev[i].id != e.id by {
        forall i | 0 <= i < |prev| ensures prev[i].id != e.id {
          assert prev[i] in Reverse(init);
          var k :| 0 <= k < |init| && init[k] == prev[i];
          assert es[k] == prev[i];
        }
      }
      WithoutAbsent(prev, e.id);
      assert Reverse(es) == [e] + Reverse(init);
      TakeCons(e, Reverse(init), MAX_ITEMS - 1);
    }
  }

  lemma TakeCons<T>(x: T, s: seq<T>, n: nat)
    ensures Take([x] + Take(s, n), n + 1) == Take([x] + s, n + 1)
  {
    if |s| > n {
      assert ([x] + s)[..n + 1] == [x] + s[..n];
    }
  }

  /** With more than ten distinct ids stored, exactly the last ten remain,
      most recent first. */
  lemma LatestTenKept(es: seq<StoredAnalysis>)
    requires |es| >= MAX_ITEMS && UniqueIds(es)
    ensures |InsertAll([], es)| == MAX_ITEMS
    ensures forall i :: 0 <= i < MAX_ITEMS ==> InsertAll([], es)[i] == es[|es| - 1 - i]
  {
    InsertAllDistinct(es);
    ReverseIndex(es);
  }

  lemma DistinctAt(es: seq<StoredAnalysis>, i: int, j: int)
    requires UniqueIds(es) && 0 <= i < j < |es|
    ensures es[i].id != es[j].id
  {
  }

  lemma OldestEvicted(r: seq<StoredAnalysis>, es: seq<StoredAnalysis>)
    requires |es| == 11 && UniqueIds(es) && |r| == MAX_ITEMS
    requires forall i :: 0 <= i < MAX_ITEMS ==> r[i] == es[|es| - 1 - i]
    ensures CountId(r, es[0].id) == 0
  {
    forall i | 0 <= i < |r| ensures r[i].id != es[0].id {
      DistinctAt(es, 0, |es| - 1 - i);
    }
    CountIdNone(r, es[0].id);
  }

  /** Eleven stores of distinct ids into an empty cache leave ten entries,
      the last stored first, and the first stored evicted. */
  lemma ElevenDistinctStores(es: seq<StoredAnalysis>)
    requires |es| == 11 && UniqueIds(es)
    ensures |InsertAll([], es)| == MAX_ITEMS
    ensures forall i :: 0 <= i < MAX_ITEMS ==> InsertAll([], es)[i] == es[|es| - 1 - i]
    ensures CountId(InsertAll([], es), es[0].id) == 0
  {
    LatestTenKept(es);
    OldestEvicted(InsertAll([], es), es);
  }

  lemma {:induction false} ReverseIndex(s: seq<StoredAnalysis>)
    ensures forall i :: 0 <= i < |s| ==> Reverse(s)[i] == s[|s| - 1 - i]
  {
    if |s| > 0 {
      ReverseIndex(s[..|s| - 1]);
    }
  }

  /* ---------------- The two operations of the class ---------------- */

  /** `getStoredAnalyses`: outside a browser, or with nothing stored yet,
      the cache reads as empty. */
  function GetStoredAnalyses(inBrowser: bool, slot: Option<seq<StoredAnalysis>>): (r: seq<StoredAnalysis>)
    ensures !inBrowser || slot.None? ==> r == []
    ensures inBrowser && slot.Some? ==> r == slot.value
  {
    if !inBrowser then []
    else match slot
      case None => []
      case Some(s) => s
  }

  function MakeId(owner: string, repoName: string): string {
    owner + "/" + repoName
  }

  /** The entry `storeAnalysis` builds from an analysis. */
  function NewEntry(a: RepoAnalysis, owner: string, repoName: string, analyzedAt: int): StoredAnalysis {
    StoredAnalysis(
      MakeId(owner, repoName),
      repoName,
      owner,
      a.aiSummary.score,
      a.basic.stars,
      a.basic.forks,
      a.aiSummary.keyFindings,
      a.aiSummary.securityRating,
      analyzedAt,
      GITHUB_PREFIX + owner + "/" + repoName)
  }

  /** `storeAnalysis`: the cache after recording `a` for `owner/repoName`
      at instant `analyzedAt`, given the cache as it was read. */
  function StoreAnalysis(analyses: seq<StoredAnalysis>, a: RepoAnalysis, owner: string, repoName: string, analyzedAt: int)
    : (r: seq<StoredAnalysis>)
    ensures 1 <= |r| <= MAX_ITEMS
    ensures r[0].id == owner + "/" + repoName && CountId(r, r[0].id) == 1
    ensures r[0].githubUrl == GITHUB_PREFIX + r[0].id
    ensures r[0].owner == owner && r[0].repoName == repoName && r[0].analyzedAt == analyzedAt
    ensures r[0].score == a.aiSummary.score && r[0].securityRating == a.aiSummary.securityRating
    ensures r[0].stars == a.basic.stars && r[0].forks == a.basic.forks
    ensures r[0].aiSummary == a.aiSummary.keyFindings
    ensures forall i :: 1 <= i < |r| ==> r[i] in analyses && r[i].id != r[0].id
    ensures UniqueIds(analyses) ==> UniqueIds(r)
  {
    Insert(analyses, NewEntry(a, owner, repoName, analyzedAt))
  }

  /** For owners and repository names without '/', which are the only
      ones the search form accepts, the id determines the pair, so one id
      never stands for two repositories. */
  lemma IdDeterminesPair(o1: string, r1: string, o2: string, r2: string)
    requires '/' !in o1 && '/' !in r1 && '/' !in o2 && '/' !in r2
    requires MakeId(o1, r1) == MakeId(o2, r2)
    ensures o1 == o2 && r1 == r2
  {
    assert Join([o1, r1], '/') == MakeId(o1, r1);
    assert Join([o2, r2], '/') == MakeId(o2, r2);
    SplitJoin([o1, r1], '/');
    SplitJoin([o2, r2], '/');
  }
}
