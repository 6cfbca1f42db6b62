/** The pure part of `analyzeRepository` in `src/services/github.ts`: the
    five lookups arrive as already-settled outcomes, and the model derives
    the analysis from them, decides which failures are absorbed and which
    abort, and records a successful analysis in the recency cache. */
module Analysis {
  import opened Results
  import opened Scoring
  import opened Records
  import opened Storage

  /** The primary repository lookup: a record, or a non-success status. */
  datatype PrimaryOutcome = Found(repo: GithubRepo) | NotOk

  /** The `.github` directory listing: the entry names, or a failure
      (network error or non-success status). */
  datatype ListingOutcome = Listing(names: seq<string>) | ListingFailed

  /** The contributors lookup: the contributor list, or a non-success status. */
  datatype ContributorsOutcome = Contributors(logins: seq<string>) | ContributorsNotOk

  /** The five lookups once all of them have settled. The languages mapping
      and the pull-request list are used as returned. */
  datatype Lookups = Lookups(
    primary: PrimaryOutcome,
    languages: map<string, int>,
    conventions: ListingOutcome,
    pullRequests: nat,
    contributors: ContributorsOutcome)

  /** What the insight generator is given. */
  datatype InsightRequest = InsightRequest(
    stars: nat,
    forks: nat,
    contributors: nat,
    description: string,
    license: string,
    hasSecurityPolicy: bool,
    hasWorkflows: bool,
    hasReadme: bool,
    hasContributing: bool,
    hasCodeOfConduct: bool,
    languages: map<string, int>)

  /** The outcome seen by the caller, and the cache afterwards. */
  datatype Run = Run(outcome: Result<RepoAnalysis>, store: seq<StoredAnalysis>)

  /** Thirty days of milliseconds: the length of a "month". */
  const MS_PER_MONTH: int := 1000 * 60 * 60 * 24 * 30

  const ANALYSIS_FAILED: string := "Repository analysis failed. Please try again later."
  const NO_DESCRIPTION: string := "No description provided"
  const NO_LICENSE: string := "No license"

  const SECURITY_FILE: string := "SECURITY.md"
  const WORKFLOWS_DIR: string := "workflows"
  const CONTRIBUTING_FILE: string := "CONTRIBUTING.md"
  const CODE_OF_CONDUCT_FILE: string := "CODE_OF_CONDUCT.md"

  /** `Math.floor((now - created) / MS_PER_MONTH)`: whole thirty-day
      periods elapsed, rounded down (also for a creation date in the future). */
  function AgeInMonths(nowMs: int, createdAtMs: int): (age: int)
    ensures age * MS_PER_MONTH <= nowMs - createdAtMs < (age + 1) * MS_PER_MONTH
  {
    (nowMs - createdAtMs) / MS_PER_MONTH
  }

  /** `files.some(f => f.name === name)`. */
  function HasFile(names: seq<string>, name: string): (b: bool)
    ensures b <==> name in names
  {
    if |names| == 0 then false else names[0] == name || HasFile(names[1..], name)
  }

  /** A failed listing reads as an empty one. */
  function ListedNames(c: ListingOutcome): seq<string> {
    match c
    case Listing(names) => names
    case ListingFailed => []
  }

  /** A non-success contributors lookup reads as no contributors. */
  function ContributorCount(c: ContributorsOutcome): nat {
    match c
    case Contributors(logins) => |logins|
    case ContributorsNotOk => 0
  }

  /** `value || fallback` on a possibly-null string: both null and the
      empty string fall back. */
  function OrDefault(value: Option<string>, fallback: string): (r: string)
    ensures value.None? ==> r == fallback
    ensures value.Some? && value.value == "" ==> r == fallback
    ensures value.Some? && value.value != "" ==> r == value.value
  {
    match value
    case Some(v) => if v == "" then fallback else v
    case None => fallback
  }

  function LicenseName(license: Option<License>): Option<string> {
    match license
    case Some(l) => Some(l.name)
    case None => None
  }

  function DeriveSecurity(names: seq<string>, repo: GithubRepo): Security {
    Security(
      HasFile(names, SECURITY_FILE),
      HasFile(names, WORKFLOWS_DIR),
      repo.defaultBranch,
      repo.hasReadme,
      HasFile(names, CONTRIBUTING_FILE),
      HasFile(names, CODE_OF_CONDUCT_FILE))
  }

  /** The metrics handed to the scoring engine. */
  function SummaryInput(repo: GithubRepo, names: seq<string>, contributors: nat, pullRequests: nat, age: int)
    : SummaryData
  {
    SummaryData(
      repo.stars,
      age,
      contributors,
      repo.hasWiki || repo.hasPages,
      HasFile(names, SECURITY_FILE),
      HasFile(names, WORKFLOWS_DIR),
      repo.openIssues,
      pullRequests,
      repo.updatedAtMs)
  }

  /** The reduced view of the repository handed to the insight generator. */
  function RequestFor(repo: GithubRepo, l: Lookups): InsightRequest {
    var names := ListedNames(l.conventions);
    InsightRequest(
      repo.stars, repo.forks, ContributorCount(l.contributors),
      OrDefault(repo.description, NO_DESCRIPTION), OrDefault(LicenseName(repo.license), NO_LICENSE),
      HasFile(names, SECURITY_FILE), HasFile(names, WORKFLOWS_DIR), repo.hasReadme,
      HasFile(names, CONTRIBUTING_FILE), HasFile(names, CODE_OF_CONDUCT_FILE), l.languages)
  }

  /** The analysis assembled from a found repository and the settled
      secondary lookups; `insight` is the insight generator. */
  function BuildAnalysis(repo: GithubRepo, l: Lookups, insight: InsightRequest -> Option<string>, nowMs: int)
    : RepoAnalysis
  {
    var names := ListedNames(l.conventions);
    var contributors := ContributorCount(l.contributors);
    var age := AgeInMonths(nowMs, repo.createdAtMs);
    var summary := GenerateSummary(SummaryInput(repo, names, contributors, l.pullRequests, age));
    RepoAnalysis(
      Basic(repo.stars, repo.forks, repo.subscribers, repo.openIssues, repo.updatedAt, repo.createdAt,
            l.pullRequests, contributors,
            OrDefault(repo.description, NO_DESCRIPTION), OrDefault(LicenseName(repo.license), NO_LICENSE)),
      l.languages,
      DeriveSecurity(names, repo),
      summary,
      OrDefault(insight(RequestFor(repo, l)), ""))
  }

  /** `analyzeRepository(owner, repo)`: a non-success primary lookup makes
      the whole analysis fail with the one generic message and leaves the
      cache alone; otherwise the analysis succeeds and is recorded in the
      cache exactly once. */
  function AnalyzeRepository(
    owner: string, repoName: string, l: Lookups, insight: InsightRequest -> Option<string>,
    nowMs: int, storedAtMs: int, store: seq<StoredAnalysis>)
    : (run: Run)
    ensures run.outcome.Err? <==> l.primary.NotOk?
    ensures run.outcome.Err? ==> run.outcome.message == ANALYSIS_FAILED && run.store == store
    ensures run.outcome.Ok? ==> run.store == StoreAnalysis(store, run.outcome.value, owner, repoName, storedAtMs)
    ensures run.outcome.Ok? ==> 50 <= run.outcome.value.aiSummary.score <= 80
  {
    match l.primary
    case NotOk => Run(Err(ANALYSIS_FAILED), store)
    case Found(repo) =>
      var analysis := BuildAnalysis(repo, l, insight, nowMs);
      Run(Ok(analysis), StoreAnalysis(store, analysis, owner, repoName, storedAtMs))
  }

  /** Each file flag is exact-name membership in the listing. */
  lemma FileFlagsAreMembership(owner: string, repoName: string, l: Lookups, insight: InsightRequest -> Option<string>,
                               nowMs: int, storedAtMs: int, store: seq<StoredAnalysis>)
    requires l.primary.Found?
    ensures var a := AnalyzeRepository(owner, repoName, l, insight, nowMs, storedAtMs, store).outcome.value;
            && (a.security.hasSecurityPolicy <==> SECURITY_FILE in ListedNames(l.conventions))
            && (a.security.hasWorkflows <==> WORKFLOWS_DIR in ListedNames(l.conventions))
            && (a.security.hasContributing <==> CONTRIBUTING_FILE in ListedNames(l.conventions))
            && (a.security.hasCodeOfConduct <==> CODE_OF_CONDUCT_FILE in ListedNames(l.conventions))
            && (GREEN_FLAGS[0] in a.aiSummary.greenFlags <==> SECURITY_FILE in ListedNames(l.conventions))
  {
    var repo := l.primary.repo;
    var names := ListedNames(l.conventions);
    var age := AgeInMonths(nowMs, repo.createdAtMs);
    FlagIffCondition(SummaryInput(repo, names, ContributorCount(l.contributors), l.pullRequests, age));
  }

  /** A failed `.github` listing is absorbed: the analysis still succeeds,
      exactly as if the listing had been empty, with all four file flags off. */
  lemma FailedListingIsAbsorbed(owner: string, repoName: string, l: Lookups, insight: InsightRequest -> Option<string>,
                                nowMs: int, storedAtMs: int, store: seq<StoredAnalysis>)
    requires l.primary.Found? && l.conventions.ListingFailed?
    ensures var run := AnalyzeRepository(owner, repoName, l, insight, nowMs, storedAtMs, store);
            && run.outcome.Ok?
            && run == AnalyzeRepository(owner, repoName, l.(conventions := Listing([])), insight, nowMs, storedAtMs, store)
            && !run.outcome.value.security.hasSecurityPolicy
            && !run.outcome.value.security.hasWorkflows
            && !run.outcome.value.security.hasContributing
            && !run.outcome.value.security.hasCodeOfConduct
            && run.outcome.value.aiSummary.greenFlags == []
  {
  }

  /** A non-success contributors lookup is absorbed: the analysis still
      succeeds, with zero contributors and the involvement red flag. */
  lemma FailedContributorsAreAbsorbed(owner: string, repoName: string, l: Lookups, insight: InsightRequest -> Option<string>,
                                      nowMs: int, storedAtMs: int, store: seq<StoredAnalysis>)
    requires l.primary.Found? && l.contributors.ContributorsNotOk?
    ensures var run := AnalyzeRepository(owner, repoName, l, insight, nowMs, storedAtMs, store);
            && run.outcome.Ok?
            && run.outcome.value.basic.contributors == 0
            && LIMITED_INVOLVEMENT in run.outcome.value.aiSummary.redFlags
  {
    var repo := l.primary.repo;
    var names := ListedNames(l.conventions);
    var age := AgeInMonths(nowMs, repo.createdAtMs);
    FlagIffCondition(SummaryInput(repo, names, 0, l.pullRequests, age));
  }

  /** Documentation means a wiki or pages; the README flag is reported but
      never affects the summary. */
  lemma DocumentationIgnoresReadme(owner: string, repoName: string, l: Lookups, insight: InsightRequest -> Option<string>,
                                   nowMs: int, storedAtMs: int, store: seq<StoredAnalysis>)
    requires l.primary.Found?
    ensures var repo := l.primary.repo;
            var flipped := l.(primary := Found(repo.(hasReadme := !repo.hasReadme)));
            AnalyzeRepository(owner, repoName, l, insight, nowMs, storedAtMs, store).outcome.value.aiSummary
              == AnalyzeRepository(owner, repoName, flipped, insight, nowMs, storedAtMs, store).outcome.value.aiSummary
    ensures var a := AnalyzeRepository(owner, repoName, l, insight, nowMs, storedAtMs, store).outcome.value;
            POOR_DOCUMENTATION in a.aiSummary.redFlags <==> !(l.primary.repo.hasWiki || l.primary.repo.hasPages)
  {
    var repo := l.primary.repo;
    var names := ListedNames(l.conventions);
    var age := AgeInMonths(nowMs, repo.createdAtMs);
    FlagIffCondition(SummaryInput(repo, names, ContributorCount(l.contributors), l.pullRequests, age));
  }

  /** Missing text is replaced by fixed defaults: no description, no
      license and no insight; the insight generator sees the same
      defaulted description and license, and the same file flags, as the
      returned analysis. */
  lemma DefaultsOnSuccess(owner: string, repoName: string, l: Lookups, insight: InsightRequest -> Option<string>,
                          nowMs: int, storedAtMs: int, store: seq<StoredAnalysis>)
    requires l.primary.Found?
    ensures var a := AnalyzeRepository(owner, repoName, l, insight, nowMs, storedAtMs, store).outcome.value;
            var request := RequestFor(l.primary.repo, l);
            && (l.primary.repo.description.None? ==> a.basic.description == NO_DESCRIPTION)
            && (l.primary.repo.license.None? ==> a.basic.license == NO_LICENSE)
            && (insight(request).None? ==> a.aiInsights == "")
            && request.description == a.basic.description && request.license == a.basic.license
            && request.hasSecurityPolicy == a.security.hasSecurityPolicy
            && request.hasWorkflows == a.security.hasWorkflows
            && request.hasContributing == a.security.hasContributing
            && request.hasCodeOfConduct == a.security.hasCodeOfConduct
  {
  }

  /** The age in the first key finding is the floor of the elapsed time in
      thirty-day months. */
  lemma AgeFindingUsesFloor(owner: string, repoName: string, l: Lookups, insight: InsightRequest -> Option<string>,
                            nowMs: int, storedAtMs: int, store: seq<StoredAnalysis>)
    requires l.primary.Found?
    ensures var a := AnalyzeRepository(owner, repoName, l, insight, nowMs, storedAtMs, store).outcome.value;
            var age := AgeInMonths(nowMs, l.primary.repo.createdAtMs);
            && a.aiSummary.keyFindings[0] == AgeFinding(age, l.primary.repo.stars)
            && age * MS_PER_MONTH <= nowMs - l.primary.repo.createdAtMs < (age + 1) * MS_PER_MONTH
  {
    var repo := l.primary.repo;
    var names := ListedNames(l.conventions);
    var age := AgeInMonths(nowMs, repo.createdAtMs);
    var d := SummaryInput(repo, names, ContributorCount(l.contributors), l.pullRequests, age);
    FindingsIgnoreFlags(d, d);
  }

  /** A small, undocumented, single-maintainer repository without
      security files. */
  lemma OctoDemoScenario(l: Lookups, insight: InsightRequest -> Option<string>, nowMs: int, storedAtMs: int)
    requires l.primary.Found? && l.primary.repo.stars == 5
    requires !l.primary.repo.hasWiki && !l.primary.repo.hasPages
    requires l.contributors == Contributors(["octocat"])
    requires l.conventions == Listing([])
    ensures var run := AnalyzeRepository("octo", "demo", l, insight, nowMs, storedAtMs, []);
            && run.outcome.Ok?
            && run.outcome.value.aiSummary.score == 50
            && |run.outcome.value.aiSummary.redFlags| == 3
            && run.outcome.value.aiSummary.securityRating == Low
            && run.outcome.value.aiSummary.communityHealth == New
            && |run.store| == 1 && run.store[0].id == "octo/demo"
            && run.store[0].githubUrl == "https://github.com/octo/demo"
  {
    var repo := l.primary.repo;
    var age := AgeInMonths(nowMs, repo.createdAtMs);
    var d := SummaryInput(repo, [], 1, l.pullRequests, age);
    WorstCaseScenario(d);
    var a := BuildAnalysis(repo, l, insight, nowMs);
    assert a.aiSummary == GenerateSummary(d);
    var run := AnalyzeRepository("octo", "demo", l, insight, nowMs, storedAtMs, []);
    assert run.outcome == Ok(a);
  }
}
