/** The scoring engine of `src/services/github.ts` (`generateAISummary`):
    a pure function from a handful of repository metrics to a score, two
    flag lists, two key findings and two categorical ratings. */
module Scoring {
  import opened Text

  datatype SecurityRating = High | Medium | Low

  datatype CommunityHealth = Active | Growing | New

  /** The metrics the engine is given (`AISummaryData`). `lastUpdate` and
      `issues` are passed in but never read by the engine. */
  datatype SummaryData = SummaryData(
    stars: nat,
    age: int,
    contributors: nat,
    hasDocumentation: bool,
    hasSecurityPolicy: bool,
    hasWorkflows: bool,
    issues: nat,
    pullRequests: nat,
    lastUpdate: int)

  datatype Summary = Summary(
    score: int,
    timesAnalyzed: int,
    redFlags: seq<string>,
    greenFlags: seq<string>,
    keyFindings: seq<string>,
    securityRating: SecurityRating,
    communityHealth: CommunityHealth)

  const BASE_SCORE: int := 70

  const LIMITED_ADOPTION: string := "Limited community adoption"
  const LIMITED_INVOLVEMENT: string := "Limited developer involvement"
  const POOR_DOCUMENTATION: string := "Poor or missing documentation"
  const SECURITY_POLICY: string := "Has security policy"
  const AUTOMATED_WORKFLOWS: string := "Has automated workflows"

  /** Every red flag the engine can raise, in the order it checks them. */
  const RED_FLAGS: seq<string> := [LIMITED_ADOPTION, LIMITED_INVOLVEMENT, POOR_DOCUMENTATION]

  /** Every green flag the engine can raise, in the order it checks them. */
  const GREEN_FLAGS: seq<string> := [SECURITY_POLICY, AUTOMATED_WORKFLOWS]

  /** The conditions under which each red flag is raised, aligned with RED_FLAGS. */
  function RedConditions(d: SummaryData): seq<bool> {
    [d.stars < 10, d.contributors < 2, !d.hasDocumentation]
  }

  /** The conditions under which each green flag is raised, aligned with GREEN_FLAGS. */
  function GreenConditions(d: SummaryData): seq<bool> {
    [d.hasSecurityPolicy, d.hasWorkflows]
  }

  /** The in-order sub-list of `names` whose condition holds. */
  function Select(conds: seq<bool>, names: seq<string>): (r: seq<string>)
    requires |conds| == |names|
    ensures |r| <= |names|
    ensures forall x :: x in r ==> x in names
  {
    if |conds| == 0 then []
    else (if conds[0] then [names[0]] else []) + Select(conds[1..], names[1..])
  }

  function Indicator(b: bool): int {
    if b then 1 else 0
  }

  /** The score as a closed formula over the five conditions: every rule is
      an independent additive adjustment of the base score. */
  function ScoreFormula(d: SummaryData): int {
    BASE_SCORE
      - 5 * Indicator(d.stars < 10)
      - 5 * Indicator(d.contributors < 2)
      - 10 * Indicator(!d.hasDocumentation)
      + 5 * Indicator(d.hasSecurityPolicy)
      + 5 * Indicator(d.hasWorkflows)
  }

  /** `Math.min(100, Math.max(0, score))`. */
  function Clamp(score: int): (r: int)
    ensures 0 <= r <= 100
    ensures 0 <= score <= 100 ==> r == score
  {
    if score < 0 then 0 else if score > 100 then 100 else score
  }

  function RatingOf(score: int): SecurityRating {
    if score > 80 then High else if score > 60 then Medium else Low
  }

  function HealthOf(stars: nat): CommunityHealth {
    if stars > 100 then Active else if stars > 10 then Growing else New
  }

  function AgeFinding(age: int, stars: nat): string {
    "Repository is " + IntToString(age) + " months old with " + IntToString(stars) + " stars"
  }

  function ActivityFinding(contributors: nat, pullRequests: nat): string {
    "Has " + IntToString(contributors) + " contributors and " + IntToString(pullRequests) + " pull requests"
  }

  /** Runs the rules in the order the source runs them, threading the
      running score and the flag lists through each step. The security
      rating is taken from the running (unclamped) score. */
  function GenerateSummary(d: SummaryData): (s: Summary)
    ensures s.score == ScoreFormula(d)
    ensures 50 <= s.score <= 80 && s.score % 5 == 0
    ensures s.timesAnalyzed == 1
    ensures |s.keyFindings| == 2
    ensures s.securityRating != High
    ensures s.securityRating == Medium <==> s.score > 60
  {
    var red1, score1 := if d.stars < 10 then [LIMITED_ADOPTION] else [], if d.stars < 10 then BASE_SCORE - 5 else BASE_SCORE;
    var red2, score2 := if d.contributors < 2 then red1 + [LIMITED_INVOLVEMENT] else red1, if d.contributors < 2 then score1 - 5 else score1;
    var red3, score3 := if !d.hasDocumentation then red2 + [POOR_DOCUMENTATION] else red2, if !d.hasDocumentation then score2 - 10 else score2;
    var green1, score4 := if d.hasSecurityPolicy then [SECURITY_POLICY] else [], if d.hasSecurityPolicy then score3 + 5 else score3;
    var green2, score5 := if d.hasWorkflows then green1 + [AUTOMATED_WORKFLOWS] else green1, if d.hasWorkflows then score4 + 5 else score4;
    var findings := [AgeFinding(d.age, d.stars), ActivityFinding(d.contributors, d.pullRequests)];
    Summary(
      Clamp(score5),
      1,
      red3,
      green2,
      findings,
      RatingOf(score5),
      HealthOf(d.stars))
  }

  /** The clamp never changes the score: the unclamped value already lies
      in [50, 80], so clamping to [0, 100] is dead code. */
  lemma ClampIsDead(d: SummaryData)
    ensures Clamp(ScoreFormula(d)) == ScoreFormula(d)
    ensures 50 <= ScoreFormula(d) <= 80
  {
  }

  /** The rating is the same whether read from the clamped or the
      unclamped score (the code reads the unclamped one); and `High` is
      never produced, even at the maximum score 80. */
  lemma RatingFromFinalScore(d: SummaryData)
    ensures GenerateSummary(d).securityRating == RatingOf(GenerateSummary(d).score)
    ensures GenerateSummary(d).securityRating in {Medium, Low}
  {
  }

  /** The red flags are exactly the in-order sub-list of RED_FLAGS whose
      conditions hold, so there are at most three. */
  lemma RedFlagsAreSelection(d: SummaryData)
    ensures GenerateSummary(d).redFlags == Select(RedConditions(d), RED_FLAGS)
    ensures |GenerateSummary(d).redFlags| <= 3
  {
    var c := RedConditions(d);
    assert RED_FLAGS[1..] == [LIMITED_INVOLVEMENT, POOR_DOCUMENTATION];
    assert RED_FLAGS[1..][1..] == [POOR_DOCUMENTATION];
    assert Select(c[2..], [POOR_DOCUMENTATION]) == (if c[2] then [POOR_DOCUMENTATION] else []);
  }

  /** The green flags are exactly the in-order sub-list of GREEN_FLAGS whose
      conditions hold, so there are at most two. */
  lemma GreenFlagsAreSelection(d: SummaryData)
    ensures GenerateSummary(d).greenFlags == Select(GreenConditions(d), GREEN_FLAGS)
    ensures |GenerateSummary(d).greenFlags| <= 2
  {
    var c := GreenConditions(d);
    assert GREEN_FLAGS[1..] == [AUTOMATED_WORKFLOWS];
    assert Select(c[1..], [AUTOMATED_WORKFLOWS]) == (if c[1] then [AUTOMATED_WORKFLOWS] else []);
  }

  /** A flag is raised if and only if its condition holds. */
  lemma FlagIffCondition(d: SummaryData)
    ensures LIMITED_ADOPTION in GenerateSummary(d).redFlags <==> d.stars < 10
    ensures LIMITED_INVOLVEMENT in GenerateSummary(d).redFlags <==> d.contributors < 2
    ensures POOR_DOCUMENTATION in GenerateSummary(d).redFlags <==> !d.hasDocumentation
    ensures SECURITY_POLICY in GenerateSummary(d).greenFlags <==> d.hasSecurityPolicy
    ensures AUTOMATED_WORKFLOWS in GenerateSummary(d).greenFlags <==> d.hasWorkflows
  {
  }

  /** Community health bands: Active above 100 stars, Growing in (10, 100],
      New otherwise. At exactly 10 stars no adoption flag is raised and yet
      the health is New. */
  lemma HealthBands(d: SummaryData)
    ensures GenerateSummary(d).communityHealth == Active <==> d.stars > 100
    ensures GenerateSummary(d).communityHealth == Growing <==> 10 < d.stars <= 100
    ensures GenerateSummary(d).communityHealth == New <==> d.stars <= 10
    ensures d.stars == 10 ==>
              LIMITED_ADOPTION !in GenerateSummary(d).redFlags && GenerateSummary(d).communityHealth == New
  {
  }

  /** The key findings depend only on age, stars, contributors and pull
      requests, never on the flags; the first one carries the age and the
      star count in decimal. */
  lemma FindingsIgnoreFlags(d: SummaryData, e: SummaryData)
    requires d.age == e.age && d.stars == e.stars
    requires d.contributors == e.contributors && d.pullRequests == e.pullRequests
    ensures GenerateSummary(d).keyFindings == GenerateSummary(e).keyFindings
    ensures GenerateSummary(d).keyFindings[0] == AgeFinding(d.age, d.stars)
    ensures GenerateSummary(d).keyFindings[1] == ActivityFinding(d.contributors, d.pullRequests)
  {
  }

  /** Worst case: few stars, one contributor, no documentation, no
      security files. */
  lemma WorstCaseScenario(d: SummaryData)
    requires d.stars == 5 && d.contributors == 1 && !d.hasDocumentation
    requires !d.hasSecurityPolicy && !d.hasWorkflows
    ensures GenerateSummary(d).score == 50
    ensures GenerateSummary(d).redFlags == RED_FLAGS
    ensures GenerateSummary(d).greenFlags == []
    ensures GenerateSummary(d).securityRating == Low
    ensures GenerateSummary(d).communityHealth == New
  {
  }

  /** Best case: every adjustment favourable. The score 80 is not above 80,
      so the rating is Medium. */
  lemma BestCaseScenario(d: SummaryData)
    requires d.stars == 150 && d.contributors == 5 && d.hasDocumentation
    requires d.hasSecurityPolicy && d.hasWorkflows
    ensures GenerateSummary(d).score == 80
    ensures GenerateSummary(d).redFlags == []
    ensures GenerateSummary(d).greenFlags == GREEN_FLAGS
    ensures GenerateSummary(d).securityRating == Medium
    ensures GenerateSummary(d).communityHealth == Active
  {
  }
}
