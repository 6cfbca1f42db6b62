/** The owner/repository parse of `handleSubmit` in
    `src/components/SearchForm.tsx`: strip the first "https://github.com/",
    split on '/', and take the first two segments; either one empty or
    missing rejects the input before any analysis starts. */
module RepoInput {
  import opened Results
  import opened Text
  import opened Records
  import opened Storage
  import opened Analysis

  const INVALID_FORMAT: string := "Invalid repository format"

  /** The `[owner, repo]` destructuring of the split segments: a missing
      second segment is `undefined`, which is as falsy as the empty string. */
  function ParseSegments(stripped: string): (r: Result<(string, string)>)
    ensures r.Err? ==> r.message == INVALID_FORMAT
    ensures r.Ok? ==> r.value.0 != "" && r.value.1 != ""
    ensures r.Ok? ==> '/' !in r.value.0 && '/' !in r.value.1
  {
    var parts := Split(stripped, '/');
    var owner := parts[0];
    var repo := if |parts| >= 2 then Some(parts[1]) else None;
    if owner == "" || repo.None? || repo.value == "" then Err(INVALID_FORMAT)
    else Ok((owner, repo.value))
  }

  /** `repoUrl.replace('https://github.com/', '').split('/')`, then the
      emptiness check. */
  function ParseRepoInput(input: string): (r: Result<(string, string)>)
    ensures r.Err? ==> r.message == INVALID_FORMAT
    ensures r.Ok? ==> r.value.0 != "" && r.value.1 != ""
    ensures r.Ok? ==> '/' !in r.value.0 && '/' !in r.value.1
  {
    ParseSegments(ReplaceFirst(input, GITHUB_PREFIX, ""))
  }

  lemma {:induction false} SplitCons(w: string, sep: char, rest: string)
    requires sep !in w
    ensures Split(w + [sep] + rest, sep) == [w] + Split(rest, sep)
  {
    if |w| == 0 {
      assert w + [sep] + rest == [sep] + rest;
      assert ([sep] + rest)[1..] == rest;
    } else {
      SplitCons(w[1..], sep, rest);
      assert (w + [sep] + rest)[1..] == w[1..] + [sep] + rest;
      assert [w[0]] + w[1..] == w;
    }
  }

  lemma PrefixOccurrenceChars(s: string, i: int)
    requires IsOccurrence(s, GITHUB_PREFIX, i)
    ensures s[i + 4] == 's' && s[i + 6] == '/' && s[i + 7] == '/'
  {
    assert s[i..i + |GITHUB_PREFIX|][4] == GITHUB_PREFIX[4];
    assert s[i..i + |GITHUB_PREFIX|][6] == GITHUB_PREFIX[6];
    assert s[i..i + |GITHUB_PREFIX|][7] == GITHUB_PREFIX[7];
  }

  /** A leading prefix is the first occurrence, and stripping it leaves the rest. */
  lemma StripLeadingPrefix(s: string)
    ensures ReplaceFirst(GITHUB_PREFIX + s, GITHUB_PREFIX, "") == s
  {
    var full := GITHUB_PREFIX + s;
    assert full[0..|GITHUB_PREFIX|] == GITHUB_PREFIX;
    assert IsOccurrence(full, GITHUB_PREFIX, 0);
    assert full[|GITHUB_PREFIX|..] == s;
  }

  /** "owner/repo" contains no "https://github.com/": it has one slash, the
      prefix needs two in a row. */
  lemma ShortFormHasNoPrefix(o: string, r: string)
    requires '/' !in o && '/' !in r
    ensures forall j :: !IsOccurrence(o + "/" + r, GITHUB_PREFIX, j)
  {
    var s := o + "/" + r;
    forall j | IsOccurrence(s, GITHUB_PREFIX, j) ensures false {
      PrefixOccurrenceChars(s, j);
      SlashAt(o, r, j + 6);
      SlashAt(o, r, j + 7);
    }
  }

  lemma SlashAt(o: string, r: string, k: int)
    requires '/' !in o && '/' !in r
    requires 0 <= k < |o| + 1 + |r| && (o + "/" + r)[k] == '/'
    ensures k == |o|
  {
  }

  /** Two slash-free segments joined by '/' parse as that pair. */
  lemma PairSegments(o: string, r: string)
    requires o != "" && r != "" && '/' !in o && '/' !in r
    ensures ParseSegments(o + "/" + r) == Ok((o, r))
  {
    SplitCons(o, '/', r);
    SplitSegment(r, '/');
    assert o + "/" + r == o + ['/'] + r;
  }

  /** Segments beyond the second are ignored. */
  lemma LongerSegments(o: string, r: string, tail: string)
    requires o != "" && r != "" && '/' !in o && '/' !in r
    ensures ParseSegments(o + "/" + r + "/" + tail) == Ok((o, r))
  {
    SplitCons(o, '/', r + "/" + tail);
    SplitCons(r, '/', tail);
    assert o + "/" + r + "/" + tail == o + ['/'] + (r + ['/'] + tail);
  }

  /** `t` starts with the segments `o` and `r` joined by '/', followed by
      nothing or by a further '/'. */
  predicate LeadsWith(t: string, o: string, r: string) {
    var n := |o| + 1 + |r|;
    n <= |t| && t[..n] == o + "/" + r && (|t| == n || t[n] == '/')
  }

  /** The segment parse accepts exactly the strings that start with two
      non-empty, slash-free segments, and returns those two. */
  lemma ParseSegmentsIff(t: string, o: string, r: string)
    ensures ParseSegments(t) == Ok((o, r)) <==>
              o != "" && r != "" && '/' !in o && '/' !in r && LeadsWith(t, o, r)
  {
    var n := |o| + 1 + |r|;
    if o != "" && r != "" && '/' !in o && '/' !in r && LeadsWith(t, o, r) {
      if |t| == n {
        assert t == o + "/" + r;
        PairSegments(o, r);
      } else {
        assert t == o + "/" + r + "/" + t[n + 1..];
        LongerSegments(o, r, t[n + 1..]);
      }
    }
    if ParseSegments(t) == Ok((o, r)) {
      LeadingSegments(t);
    }
  }

  /** Whatever the string, its first two segments lead it when there are two. */
  lemma LeadingSegments(t: string)
    requires |Split(t, '/')| >= 2
    ensures LeadsWith(t, Split(t, '/')[0], Split(t, '/')[1])
  {
    var parts := Split(t, '/');
    JoinSplit(t, '/');
    var o, r := parts[0], parts[1];
    var n := |o| + 1 + |r|;
    if |parts| == 2 {
      assert parts[1..] == [r];
      assert t == o + "/" + r;
    } else {
      var rest := Join(parts[2..], '/');
      assert parts[1..][1..] == parts[2..];
      assert t == o + "/" + r + "/" + rest;
      assert t[..n] == o + "/" + r;
    }
  }

  /** The whole acceptance rule: after the first "https://github.com/" is
      removed, an input is accepted exactly when it starts with two
      non-empty, slash-free segments, and the result is those two. A
      trailing slash with nothing after it, or an empty segment anywhere in
      the first two, rejects the input. */
  lemma ParseRepoInputIff(input: string, o: string, r: string)
    ensures var t := ReplaceFirst(input, GITHUB_PREFIX, "");
            ParseRepoInput(input) == Ok((o, r)) <==>
              o != "" && r != "" && '/' !in o && '/' !in r && LeadsWith(t, o, r)
  {
    ParseSegmentsIff(ReplaceFirst(input, GITHUB_PREFIX, ""), o, r);
  }

  /** "owner/" with nothing after the slash is rejected. */
  lemma TrailingSlashRejected(o: string)
    requires '/' !in o
    ensures ParseRepoInput(o + "/").Err?
  {
    var s := o + "/";
    forall j | IsOccurrence(s, GITHUB_PREFIX, j) ensures false {
      PrefixOccurrenceChars(s, j);
    }
    SplitCons(o, '/', "");
    assert s == o + ['/'] + "";
  }

  /** "owner/repo" and "https://github.com/owner/repo" name the same pair. */
  lemma ShortAndFullFormAgree(o: string, r: string)
    requires o != "" && r != "" && '/' !in o && '/' !in r
    ensures ParseRepoInput(o + "/" + r) == Ok((o, r))
    ensures ParseRepoInput(GITHUB_PREFIX + (o + "/" + r)) == Ok((o, r))
  {
    ShortFormHasNoPrefix(o, r);
    PairSegments(o, r);
    StripLeadingPrefix(o + "/" + r);
  }

  /** After the full URL prefix, segments beyond the second are ignored,
      whatever they contain. */
  lemma FullUrlIgnoresExtraSegments(o: string, r: string, tail: string)
    requires o != "" && r != "" && '/' !in o && '/' !in r
    ensures ParseRepoInput(GITHUB_PREFIX + (o + "/" + r + "/" + tail)) == Ok((o, r))
  {
    StripLeadingPrefix(o + "/" + r + "/" + tail);
    LongerSegments(o, r, tail);
  }

  /** Without any "https://github.com/" in the input, segments beyond the
      second are ignored too: "o/r/tree/main" and "o/r/" give ("o", "r"). */
  lemma ShortFormIgnoresExtraSegments(o: string, r: string, tail: string)
    requires o != "" && r != "" && '/' !in o && '/' !in r
    requires forall j :: !IsOccurrence(o + "/" + r + "/" + tail, GITHUB_PREFIX, j)
    ensures ParseRepoInput(o + "/" + r + "/" + tail) == Ok((o, r))
  {
    LongerSegments(o, r, tail);
  }

  /** Only the exact prefix is stripped: "http://github.com/o/r" splits as
      "http:", "", … and is rejected. */
  lemma HttpSchemeIsRejected()
    ensures ParseRepoInput("http://github.com/o/r").Err?
  {
    var a := "http://github.com/o/r";
    HttpSchemeHasNoPrefix();
    assert ReplaceFirst(a, GITHUB_PREFIX, "") == a;
    HttpSchemeSegments();
  }

  lemma HttpSchemeHasNoPrefix()
    ensures forall j :: !IsOccurrence("http://github.com/o/r", GITHUB_PREFIX, j)
  {
    var a := "http://github.com/o/r";
    forall j | IsOccurrence(a, GITHUB_PREFIX, j) ensures false {
      PrefixOccurrenceChars(a, j);
    }
  }

  lemma HttpSchemeSegments()
    ensures ParseSegments("http://github.com/o/r").Err?
  {
    EmptySecondSegment("http:", "github.com/o/r");
    assert "http://github.com/o/r" == "http:" + "//" + "github.com/o/r";
  }

  /** A slash right after the first segment leaves the second one empty. */
  lemma EmptySecondSegment(w: string, tail: string)
    requires '/' !in w
    ensures ParseSegments(w + "//" + tail).Err?
  {
    SplitCons(w, '/', ['/'] + tail);
    SplitCons("", '/', tail);
    assert w + "//" + tail == w + ['/'] + (['/'] + tail);
    assert ['/'] + tail == "" + ['/'] + tail;
  }

  /** Without a scheme nothing is stripped: "github.com/o/r" is read as owner
      "github.com" and repository "o". */
  lemma BareHostIsReadAsOwner()
    ensures ParseRepoInput("github.com/o/r") == Ok(("github.com", "o"))
  {
    var b := "github.com/o/r";
    assert |b| < |GITHUB_PREFIX|;
    assert ReplaceFirst(b, GITHUB_PREFIX, "") == b;
    LongerSegments("github.com", "o", "r");
    assert b == "github.com" + "/" + "o" + "/" + "r";
  }

  /** An input with no slash at all, or whose first segment is empty, is
      rejected. */
  lemma MissingSegmentsAreRejected(w: string, rest: string)
    requires '/' !in w
    ensures ParseRepoInput(w).Err?
    ensures ParseRepoInput("/" + rest).Err?
  {
    NoSlashRejected(w);
    LeadingSlashRejected(rest);
  }

  lemma NoSlashRejected(w: string)
    requires '/' !in w
    ensures ParseRepoInput(w).Err?
  {
    forall j | IsOccurrence(w, GITHUB_PREFIX, j) ensures false {
      PrefixOccurrenceChars(w, j);
    }
    SplitSegment(w, '/');
  }

  lemma LeadingSlashRejected(rest: string)
    ensures ParseRepoInput("/" + rest).Err?
  {
    var s := "/" + rest;
    var t := ReplaceFirst(s, GITHUB_PREFIX, "");
    match FindFirst(s, GITHUB_PREFIX)
    case None =>
      assert t == s;
    case Some(i) =>
      PrefixOccurrenceChars(s, i);
      assert s[i..i + |GITHUB_PREFIX|][0] == 'h';
      assert t == s[..i] + s[i + |GITHUB_PREFIX|..];
      assert t[0] == s[0];
    SplitCons("", '/', t[1..]);
    assert t == "" + ['/'] + t[1..];
  }

  /** What the form shows after a submit, and the cache afterwards. */
  datatype FormState = FormState(error: Option<string>, analysis: Option<RepoAnalysis>, store: seq<StoredAnalysis>)

  /** `handleSubmit`: a rejected input shows the format error and never
      starts an analysis; an accepted one runs the analysis for the parsed
      pair and shows either its result or its one generic error. The
      previously shown analysis stays on any error. `lookupsFor` gives the
      settled lookups for an owner and repository. */
  function HandleSubmit(
    input: string, previous: Option<RepoAnalysis>, lookupsFor: (string, string) -> Lookups,
    insight: InsightRequest -> Option<string>, nowMs: int, storedAtMs: int, store: seq<StoredAnalysis>)
    : (f: FormState)
    ensures ParseRepoInput(input).Err? ==> f == FormState(Some(INVALID_FORMAT), previous, store)
    ensures ParseRepoInput(input).Ok? ==>
              var (o, r) := ParseRepoInput(input).value;
              && (lookupsFor(o, r).primary.NotOk? ==> f == FormState(Some(ANALYSIS_FAILED), previous, store))
              && (lookupsFor(o, r).primary.Found? ==>
                    var run := AnalyzeRepository(o, r, lookupsFor(o, r), insight, nowMs, storedAtMs, store);
                    && f == FormState(None, Some(run.outcome.value), run.store)
                    && |f.store| >= 1 && f.store[0].id == o + "/" + r && |f.store| <= MAX_ITEMS)
  {
    match ParseRepoInput(input)
    case Err(message) => FormState(Some(message), previous, store)
    case Ok((owner, repo)) =>
      var run := AnalyzeRepository(owner, repo, lookupsFor(owner, repo), insight, nowMs, storedAtMs, store);
      match run.outcome
      case Err(message) => FormState(Some(message), previous, store)
      case Ok(analysis) => FormState(None, Some(analysis), run.store)
  }
}
