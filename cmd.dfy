/**
 * The `analyze` command: how the number of pull requests is chosen from the
 * `--prs` flag, and the order of the steps of one run, each of which may
 * abort it.
 */
module Cmd {
  import opened Wrappers
  import opened Analyzer

  /** The default the `--prs` flag is registered with: a sentinel for "given without a number". */
  const PrsFlagDefault: int := -1

  /** The number of pull requests shown when `--prs` is given without a number. */
  const DefaultPRCount: int := 5

  /** The largest number of pull requests a run may ask for. */
  const MaxPRLimit: int := 100

  /**
   * `determinePRLimit`: flag not given means no pull requests; given with
   * the sentinel means the default count; any other value is used as it is,
   * zero and negatives included.
   */
  function DeterminePRLimit(prsChanged: bool, prs: int): (limit: int)
    ensures !prsChanged ==> limit == 0
    ensures prsChanged && prs == PrsFlagDefault ==> limit == DefaultPRCount
    ensures prsChanged && prs != PrsFlagDefault ==> limit == prs
  {
    if !prsChanged then 0
    else if prs == PrsFlagDefault then DefaultPRCount
    else prs
  }

  /** The sentinel never comes out as a limit, and a positive limit needs the flag. */
  lemma PRLimitShape(prsChanged: bool, prs: int)
    ensures DeterminePRLimit(prsChanged, prs) != PrsFlagDefault
    ensures DeterminePRLimit(prsChanged, prs) > 0 ==> prsChanged
    ensures 0 < DeterminePRLimit(prsChanged, prs) <= MaxPRLimit <==>
      prsChanged && (prs == PrsFlagDefault || 0 < prs <= MaxPRLimit)
  {
  }

  /** The flag-absent state and the flag-given-without-number state give different limits. */
  lemma PRLimitThreeStates()
    ensures DeterminePRLimit(false, PrsFlagDefault) == 0
    ensures DeterminePRLimit(true, PrsFlagDefault) == 5
    ensures DeterminePRLimit(true, 25) == 25
    ensures DeterminePRLimit(true, 150) > MaxPRLimit
  {
  }

  /** The command-line settings of one run, in place of the package-level flag variables. */
  datatype Config = Config(
    format: string,
    prsChanged: bool,
    prs: int,
    download: string,
    token: string)

  /** The observable steps of a run: client creation, remote calls, and the hand-off to display. */
  datatype Step =
    | CreateClient(token: string)
    | GetRepository(owner: string, repo: string)
    | ListPullRequests(owner: string, repo: string, opts: ListOptions)
    | Display(format: string, download: string, info: RepoInfo, prs: seq<PRInfo>)

  /** Why a run was terminated. */
  datatype Fatal =
    | ParseFailed(parseError: ParseError)
    | LimitTooLarge
    | RepoFetchFailed(repoError: FetchError)
    | PullsFetchFailed(pullsError: FetchError)
    | DisplayFailed(displayError: string)

  /** A run ends fatally or after displaying the record and pull-request list. */
  datatype Outcome = Aborted(fatal: Fatal) | Displayed(info: RepoInfo, prs: seq<PRInfo>)

  /** `steps` contains a pull-request request. */
  predicate FetchesPullRequests(steps: seq<Step>)
  {
    exists i :: 0 <= i < |steps| && steps[i].ListPullRequests?
  }

  /** `steps` ends with the hand-off to display. */
  predicate DisplayReached(steps: seq<Step>)
  {
    |steps| > 0 && steps[|steps| - 1].Display?
  }

  /**
   * What a run does once the identifier parsed into (owner, repo) and the
   * limit passed the check: create the client, request the repository, on
   * success request the pull requests when the limit is positive, and on
   * success hand both to display. Every failure ends the run at once.
   */
  ghost predicate AnalyzesRepository(
    owner: string, repo: string, limit: int, cfg: Config, client: Client,
    formatDate: Timestamp -> string,
    display: (string, string, RepoInfo, seq<PRInfo>) -> Option<string>,
    outcome: Outcome, steps: seq<Step>)
  {
    var repoResponse := client.getRepository(owner, repo);
    var opts := PullRequestOptions(limit);
    var prResponse := client.listPullRequests(owner, repo, opts);
    var fetched := repoResponse.Ok? && (limit > 0 ==> prResponse.Ok?);
    // The client is created first, then the parsed repository is requested.
    |steps| >= 2 && steps[0] == CreateClient(cfg.token) && steps[1] == GetRepository(owner, repo) &&
    // A repository error ends the run right after that request.
    (repoResponse.Err? ==> outcome == Aborted(RepoFetchFailed(repoResponse.error)) && |steps| == 2) &&
    // Pull requests are requested exactly when the repository arrived and the limit is positive,
    // as the third step, for every state and `limit` per page.
    (FetchesPullRequests(steps) <==> repoResponse.Ok? && limit > 0) &&
    (FetchesPullRequests(steps) ==>
      |steps| >= 3 && steps[2] == ListPullRequests(owner, repo, opts) &&
      (prResponse.Err? ==> outcome == Aborted(PullsFetchFailed(prResponse.error)) && |steps| == 3)) &&
    // Display is reached exactly when every fetch succeeded, as the last step,
    // with the flattened repository and either no pull requests or the flattened list.
    (DisplayReached(steps) <==> fetched) &&
    (DisplayReached(steps) ==>
      var d := steps[|steps| - 1];
      |steps| == (if limit > 0 then 4 else 3) &&
      d == Display(cfg.format, cfg.download, d.info, d.prs) &&
      MapsRepository(repoResponse.value, d.info, formatDate) &&
      (limit <= 0 ==> d.prs == []) &&
      (limit > 0 ==>
        |d.prs| == |prResponse.value| &&
        forall i :: 0 <= i < |d.prs| ==> MapsPullRequest(prResponse.value[i], d.prs[i])) &&
      // The run succeeds exactly when display reports no error, and returns what was displayed.
      var shown := display(d.format, d.download, d.info, d.prs);
      (shown.None? ==> outcome == Displayed(d.info, d.prs)) &&
      (shown.Some? ==> outcome == Aborted(DisplayFailed(shown.value))))
  }

  /**
   * The description of a run after the limit check is complete: it leaves
   * exactly one outcome and one sequence of steps.
   */
  lemma AnalyzesRepositoryUnique(
    owner: string, repo: string, limit: int, cfg: Config, client: Client,
    formatDate: Timestamp -> string,
    display: (string, string, RepoInfo, seq<PRInfo>) -> Option<string>,
    o1: Outcome, s1: seq<Step>, o2: Outcome, s2: seq<Step>)
    requires AnalyzesRepository(owner, repo, limit, cfg, client, formatDate, display, o1, s1)
    requires AnalyzesRepository(owner, repo, limit, cfg, client, formatDate, display, o2, s2)
    ensures o1 == o2 && s1 == s2
  {
    var repoResponse := client.getRepository(owner, repo);
    var prResponse := client.listPullRequests(owner, repo, PullRequestOptions(limit));
    if repoResponse.Err? {
      assert s1 == [s1[0], s1[1]] && s2 == [s2[0], s2[1]];
    } else if limit > 0 && prResponse.Err? {
      assert s1 == [s1[0], s1[1], s1[2]] && s2 == [s2[0], s2[1], s2[2]];
    } else {
      var d1, d2 := s1[|s1| - 1], s2[|s2| - 1];
      MapsRepositoryUnique(repoResponse.value, d1.info, d2.info, formatDate);
      if limit > 0 {
        forall i | 0 <= i < |d1.prs|
          ensures d1.prs[i] == d2.prs[i]
        {
          MapsPullRequestUnique(prResponse.value[i], d1.prs[i], d2.prs[i]);
        }
        assert d1.prs == d2.prs;
        assert s1 == [s1[0], s1[1], s1[2], d1] && s2 == [s2[0], s2[1], s2[2], d2];
      } else {
        assert s1 == [s1[0], s1[1], d1] && s2 == [s2[0], s2[1], d2];
      }
      assert d1 == d2;
    }
  }

  /**
   * `runAnalyze`: parse the identifier, choose the limit and reject one
   * above 100, then fetch and display as `AnalyzesRepository` says.
   * `client` stands for the remote API the created client talks to,
   * `formatDate` for the date formatter, and `display` for the output
   * layer, which answers with an error message or none.
   */
  method RunAnalyze(
    repoURL: string,
    cfg: Config,
    client: Client,
    formatDate: Timestamp -> string,
    display: (string, string, RepoInfo, seq<PRInfo>) -> Option<string>)
    returns (outcome: Outcome, steps: seq<Step>)
    // A parse failure stops the run before anything else happens.
    ensures ParseRepoURL(repoURL).Err? ==>
      outcome == Aborted(ParseFailed(InvalidFormat)) && steps == []
    // A limit over 100 stops the run before the client is created or anything is fetched.
    ensures ParseRepoURL(repoURL).Ok? && DeterminePRLimit(cfg.prsChanged, cfg.prs) > MaxPRLimit ==>
      outcome == Aborted(LimitTooLarge) && steps == []
    // Otherwise the parsed repository and the chosen limit are fetched and displayed.
    ensures ParseRepoURL(repoURL).Ok? && DeterminePRLimit(cfg.prsChanged, cfg.prs) <= MaxPRLimit ==>
      AnalyzesRepository(ParseRepoURL(repoURL).value.0, ParseRepoURL(repoURL).value.1,
        DeterminePRLimit(cfg.prsChanged, cfg.prs), cfg, client, formatDate, display, outcome, steps)
  {
    steps := [];
    var parsed := ParseRepoURL(repoURL);
    if parsed.Err? {
      return Aborted(ParseFailed(parsed.error)), steps;
    }
    var (owner, repo) := parsed.value;

    var prLimit := DeterminePRLimit(cfg.prsChanged, cfg.prs);
    if prLimit > MaxPRLimit {
      return Aborted(LimitTooLarge), steps;
    }

    outcome, steps := AnalyzeRepository(owner, repo, prLimit, cfg, client, formatDate, display);
  }

  /**
   * The steps of `runAnalyze` after the limit check: create the client,
   * fetch the repository, fetch the pull requests for a positive limit,
   * display.
   */
  method AnalyzeRepository(
    owner: string, repo: string, prLimit: int, cfg: Config, client: Client,
    formatDate: Timestamp -> string,
    display: (string, string, RepoInfo, seq<PRInfo>) -> Option<string>)
    returns (outcome: Outcome, steps: seq<Step>)
    ensures AnalyzesRepository(owner, repo, prLimit, cfg, client, formatDate, display, outcome, steps)
  {
    steps := [];
    steps := steps + [CreateClient(cfg.token)];

    steps := steps + [GetRepository(owner, repo)];
    var repoInfo := FetchRepoInfo(client, owner, repo, formatDate);
    if repoInfo.Err? {
      return Aborted(RepoFetchFailed(repoInfo.error)), steps;
    }

    var prInfos: seq<PRInfo> := [];
    if prLimit > 0 {
      steps := steps + [ListPullRequests(owner, repo, PullRequestOptions(prLimit))];
      assert steps[2].ListPullRequests?;
      var fetched := FetchPullRequests(client, owner, repo, prLimit);
      if fetched.Err? {
        return Aborted(PullsFetchFailed(fetched.error)), steps;
      }
      prInfos := fetched.value;
    }

    steps := steps + [Display(cfg.format, cfg.download, repoInfo.value, prInfos)];
    assert FetchesPullRequests(steps) <==> prLimit > 0 by {
      if prLimit > 0 {
        assert steps[2].ListPullRequests?;
      }
    }
    var displayError := display(cfg.format, cfg.download, repoInfo.value, prInfos);
    if displayError.Some? {
      return Aborted(DisplayFailed(displayError.value)), steps;
    }
    return Displayed(repoInfo.value, prInfos), steps;
  }
}
