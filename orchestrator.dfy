/** main (index.js:94-157): the credential guard, then one browser session
    that audits the login page ITERATIONS times, signs in, and audits two
    protected pages ITERATIONS times each, collecting the extracted metric
    sets in call order. Lighthouse is a parameter `audit` giving the
    `lhr.audits` report of the call for a URL and an iteration index; the
    browser, the sign-in form and the file system appear only as the
    ordered list of effects the run asks of them. */
module Orchestrator {
  import opened Audits
  import Extractor

  const Username: string := ""
  const Password: string := ""
  const Iterations: nat := 10

  const LoginUrl: string := "https://digital-twin.veerum.com/login"
  const WorkscopesUrl: string := "https://digital-twin.veerum.com"
  const ViewerUrl: string := "https://digital-twin.veerum.com/workscopes/631b6641310c4751c59be759/viewer"
  const ResultsFile: string := "results.json"

  /** The two lines printed by the guard (index.js:96-99). */
  const GuidanceLines: seq<string> := [
    "Error: please setup username and password before running the script.",
    "More info can be found in the README"
  ]

  /** The document handed to `JSON.stringify` (index.js:145-149). */
  datatype FullResults = FullResults(
    loginResults: seq<MetricSet>,
    workscopesResults: seq<MetricSet>,
    viewerResults: seq<MetricSet>)

  /** What the run asks of the browser, Lighthouse and the file system. */
  datatype Effect =
    | LaunchBrowser
    | NewPage
    | SetViewport(width: nat, height: nat)
    | RunAudit(url: string, iteration: nat)
    | SignIn(origin: string, username: string, password: string)
    | WriteResults(file: string, document: FullResults)
    | CloseBrowser

  datatype RunOutcome =
    | Aborted(guidance: seq<string>)
    | Ran(effects: seq<Effect>, results: FullResults)

  /** `!USERNAME || !PASSWORD`: the empty string is the only falsy string. */
  predicate CredentialsMissing(username: string, password: string) {
    username == "" || password == ""
  }

  /** lighthouseTest (index.js:83-92): one audit, reduced by the extractor. */
  function LighthouseTest(audit: (string, nat) -> Report, url: string, iteration: nat): MetricSet {
    Extractor.ParsePerformanceResults(audit(url, iteration))
  }

  /** The audit calls of one phase, in order. */
  function AuditCalls(url: string, n: nat): seq<Effect> {
    seq(n, j requires 0 <= j => RunAudit(url, j))
  }

  /** One more iteration of a phase appends one audit call. */
  lemma AuditCallsStep(url: string, n: nat)
    ensures AuditCalls(url, n + 1) == AuditCalls(url, n) + [RunAudit(url, n)]
  {
    assert AuditCalls(url, n + 1)[..n] == AuditCalls(url, n);
  }

  /** The effects of a run that passes the guard, in the order main issues
      them (index.js:103-156). */
  function Session(username: string, password: string, results: FullResults): seq<Effect> {
    [LaunchBrowser, NewPage, SetViewport(1080, 1024)]
    + AuditCalls(LoginUrl, Iterations)
    + [SignIn(LoginUrl, username, password)]
    + AuditCalls(WorkscopesUrl, Iterations)
    + AuditCalls(ViewerUrl, Iterations)
    + [WriteResults(ResultsFile, results), CloseBrowser]
  }

  /** One of the three collection loops of main (index.js:113-119,
      126-132, 136-142): audits `url` `Iterations` times through the shared
      page and appends each extracted set in call order. */
  method TestPhase(audit: (string, nat) -> Report, url: string, before: seq<Effect>)
    returns (results: seq<MetricSet>, effects: seq<Effect>)
    ensures |results| == Iterations
    ensures forall j :: 0 <= j < Iterations ==> results[j] == LighthouseTest(audit, url, j)
    ensures effects == before + AuditCalls(url, Iterations)
  {
    results := [];
    effects := before;
    var i := 0;
    while i < Iterations
      invariant 0 <= i <= Iterations
      invariant |results| == i
      invariant forall j :: 0 <= j < i ==> results[j] == LighthouseTest(audit, url, j)
      invariant effects == before + AuditCalls(url, i)
    {
      var result := LighthouseTest(audit, url, i);
      AuditCallsStep(url, i);
      effects := effects + [RunAudit(url, i)];
      results := results + [result];
      i := i + 1;
    }
  }

  /** index.js:94-157. Missing credentials end the run before anything is
      launched; otherwise each result list holds exactly `Iterations`
      extracted sets, the `j`-th from the `j`-th audit of its page, and the
      effects are those of `Session`. */
  method Run(username: string, password: string, audit: (string, nat) -> Report) returns (outcome: RunOutcome)
    ensures outcome.Aborted? <==> CredentialsMissing(username, password)
    ensures outcome.Aborted? ==> outcome.guidance == GuidanceLines
    ensures username == Username && password == Password ==> outcome == Aborted(GuidanceLines)
    ensures outcome.Ran? ==>
      && |outcome.results.loginResults| == Iterations
      && |outcome.results.workscopesResults| == Iterations
      && |outcome.results.viewerResults| == Iterations
      && (forall j :: 0 <= j < Iterations ==>
            && outcome.results.loginResults[j] == LighthouseTest(audit, LoginUrl, j)
            && outcome.results.workscopesResults[j] == LighthouseTest(audit, WorkscopesUrl, j)
            && outcome.results.viewerResults[j] == LighthouseTest(audit, ViewerUrl, j))
      && outcome.effects == Session(username, password, outcome.results)
  {
    if username == "" || password == "" {
      return Aborted(GuidanceLines);
    }
    var effects := [LaunchBrowser, NewPage, SetViewport(1080, 1024)];
    var loginResults, workscopesResults, viewerResults;
    loginResults, effects := TestPhase(audit, LoginUrl, effects);
    effects := effects + [SignIn(LoginUrl, username, password)];
    workscopesResults, effects := TestPhase(audit, WorkscopesUrl, effects);
    viewerResults, effects := TestPhase(audit, ViewerUrl, effects);
    var fullResults := FullResults(loginResults, workscopesResults, viewerResults);
    effects := effects + [WriteResults(ResultsFile, fullResults), CloseBrowser];
    return Ran(effects, fullResults);
  }

  /** Records the shipped credential constants: both are empty, so they
      meet the guard's condition. `Run` states the resulting abort. */
  lemma ShippedCredentialsAbort()
    ensures CredentialsMissing(Username, Password)
  {
  }

  /** In a session, every login-page audit comes before the sign-in, every
      protected-page audit after it, the browser is launched before any
      audit, and the results are written once, just before the browser is
      closed. */
  lemma {:induction false} SessionOrder(username: string, password: string, results: FullResults)
    ensures var s := Session(username, password, results);
      && |s| == 3 * Iterations + 6
      && s[0] == LaunchBrowser
      && s[1] == NewPage
      && s[2] == SetViewport(1080, 1024)
      && s[Iterations + 3] == SignIn(LoginUrl, username, password)
      && (forall k :: 3 <= k < Iterations + 3 ==> s[k] == RunAudit(LoginUrl, k - 3))
      && (forall k :: Iterations + 4 <= k < 2 * Iterations + 4 ==> s[k] == RunAudit(WorkscopesUrl, k - Iterations - 4))
      && (forall k :: 2 * Iterations + 4 <= k < 3 * Iterations + 4 ==> s[k] == RunAudit(ViewerUrl, k - 2 * Iterations - 4))
      && s[3 * Iterations + 4] == WriteResults(ResultsFile, results)
      && s[3 * Iterations + 5] == CloseBrowser
  {
    var a := AuditCalls(LoginUrl, Iterations);
    var b := AuditCalls(WorkscopesUrl, Iterations);
    var c := AuditCalls(ViewerUrl, Iterations);
    var s := Session(username, password, results);
    assert s == [LaunchBrowser, NewPage, SetViewport(1080, 1024)] + a + [SignIn(LoginUrl, username, password)] + b + c
      + [WriteResults(ResultsFile, results), CloseBrowser];
  }
}
