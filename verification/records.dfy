/** The records exchanged in `src/services/github.ts`: what the primary
    lookup returns about a repository, and the analysis handed back to the
    caller. */
module Records {
  import opened Results
  import opened Scoring

  datatype License = License(name: string)

  /** The fields of the primary lookup the analysis reads (`GithubRepo`).
      `createdAtMs` and `updatedAtMs` are the instants the two timestamp
      strings denote. */
  datatype GithubRepo = GithubRepo(
    stars: nat,
    forks: nat,
    subscribers: nat,
    openIssues: nat,
    updatedAt: string,
    createdAt: string,
    updatedAtMs: int,   // the instant `updatedAt` denotes, given rather than parsed
    createdAtMs: int,   // the instant `createdAt` denotes, given rather than parsed
    description: Option<string>,
    license: Option<License>,
    hasWiki: bool,
    hasPages: bool,
    hasReadme: bool,
    defaultBranch: string)

  datatype Basic = Basic(
    stars: nat,
    forks: nat,
    watchers: nat,
    issues: nat,
    lastUpdate: string,
    createdAt: string,
    pullRequests: nat,
    contributors: nat,
    description: string,
    license: string)

  datatype Security = Security(
    hasSecurityPolicy: bool,
    hasWorkflows: bool,
    defaultBranch: string,
    hasReadme: bool,
    hasContributing: bool,
    hasCodeOfConduct: bool)

  /** The unit returned to the caller (`RepoAnalysis`). */
  datatype RepoAnalysis = RepoAnalysis(
    basic: Basic,
    languages: map<string, int>,
    security: Security,
    aiSummary: Summary,
    aiInsights: string)
}
