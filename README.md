# go-repo analyzer, modelled in Dafny

`go-repo analyze <repository>` fetches one GitHub repository's metadata, and optionally its recent pull requests, and hands them to an output layer. This project models the logic of that command:

- **`Analyzer`** (`analyzer.dfy`, from `internal/analyzer/analyzer.go`):
  - the repository-identifier parser `ParseRepoURL`;
  - the nil-to-default helpers `safeString` and `safeInt`;
  - the flattening of the upstream repository and pull-request records, whose fields are all pointers (`Option` here), into the flat `RepoInfo` and `PRInfo` records;
  - the two fetch operations. Each remote call becomes a lookup in a `Client` value that maps a request to its response.
- **`Cmd`** (`cmd.dfy`, from `cmd/analyze.go`):
  - the `--prs` policy `determinePRLimit`;
  - `runAnalyze`, which returns its `Outcome` and the sequence of `Step`s it performed: client creation, the remote requests and the hand-off to display. Its contracts therefore say which steps run, in what order and with which arguments.
- **`GoStrings`** (`gostrings.dfy`): the Go `strings` functions the parser relies on (`Contains`, `TrimPrefix`, `Split` with a one-character separator), plus `Join`. It proves the round trips `Join(Split(s)) == s` for every string, and `Split(Join(p)) == p` for a non-empty list of separator-free pieces.
- **`Wrappers`** (`wrappers.dfy`): `Option` and `Result`.

Main results:
- **The parser, fully described.** `ParseRepoURL` fails exactly when the input, after removing `https://`, then `http://`, then `github.com/` (each at most once, in that order), has no `/`. Otherwise it returns the only separator-free pair `(owner, name)` such that the stripped text starts with `owner/name` followed by nothing or by `/`.
- **The short-form branch never changes the answer.** When it fires, none of the three prefixes can be present, so the fallback would see the same text (`ShortFormIsUnstripped`, `ParseDependsOnStripped`).
- **A run is fully described.** Every way a run can end is stated: each abort, with the steps taken before it, and the values passed to display. `AnalyzesRepositoryUnique` proves that this description allows exactly one outcome and one step sequence.

The code behaves as follows where a reader might expect otherwise, and the model follows the code:
- The short form accepts empty segments: `"/"` parses as `("", "")`.
- A `.git` suffix is kept: `https://github.com/o/r.git` parses as `("o", "r.git")`.
- Numeric fields are copied as they are, negative values included, and an absent pull-request number becomes `0`: counts may be negative and a pull-request number may be `0` or below.
- After `https://`, a host other than `github.com` (for example `www.github.com` or `gitlab.com`) is not stripped: it comes back as the owner (`OtherHost`). The host `http:` is the one further exception, and only when it is followed by an empty owner and more segments, because `https://http://` loses the second scheme too.

## Model

| member | source | states |
|---|---|---|
| `GoStrings.Split` | internal/analyzer/analyzer.go:53 | The pieces number one more than the separators in the input, and no piece contains the separator. |
| `GoStrings.JoinSplit` | internal/analyzer/analyzer.go:53 | Joining the pieces of a split with the separator gives back the input. |
| `GoStrings.SplitJoin` | internal/analyzer/analyzer.go:53 | Splitting the join of at least one separator-free piece gives back those pieces. |
| `GoStrings.SplitPrefix` | internal/analyzer/analyzer.go:53 | A separator-free head is glued onto the first piece of what follows it. |
| `GoStrings.Contains` | internal/analyzer/analyzer.go:42 | Holds whenever `sub` is a prefix of `s`, and only when `sub` is no longer than `s`; `ContainsIff` characterises it exactly. |
| `GoStrings.ContainsIff` | internal/analyzer/analyzer.go:42 | `Contains(s, sub)` holds exactly when `sub` is a prefix of some suffix of `s`. |
| `GoStrings.Count` | internal/analyzer/analyzer.go:44 | The count is zero exactly when the character is absent, and never exceeds the length. |
| `GoStrings.CountConcat` | internal/analyzer/analyzer.go:44 | Counting is additive over concatenation. |
| `GoStrings.TrimPrefix` | internal/analyzer/analyzer.go:49-51 | With the prefix present, prefix + result is the input; without it, the input is unchanged. |
| `Analyzer.StripPrefixes` | internal/analyzer/analyzer.go:49-51 | Removing the three prefixes never makes the input longer. |
| `Analyzer.StripRemovesPrefix` | internal/analyzer/analyzer.go:49-51 | The input is one of the eight ordered combinations of `https://`, `http://` and `github.com/` (each present or absent) followed by the stripped result, so stripping removes only a leading prefix and keeps everything after it. |
| `Analyzer.ParseRepoURL` | internal/analyzer/analyzer.go:41-59 | Fails exactly when the prefix-stripped input has no "/". On success: owner and name contain no "/", and the stripped input starts with owner + "/" + name, followed by nothing or by "/". |
| `Analyzer.SplitFirstTwo` | internal/analyzer/analyzer.go:53-58 | When the split has at least two pieces, the first two form the leading owner/name path of the string. |
| `Analyzer.RepoPathSplit` | internal/analyzer/analyzer.go:53-58 | A leading owner/name path is exactly the first two split pieces. |
| `Analyzer.RepoPathUnique` | internal/analyzer/analyzer.go:53-58 | At most one (owner, name) pair is the leading path of a string, so the success postcondition of `ParseRepoURL` determines its result. |
| `Analyzer.TwoSeparators` | internal/analyzer/analyzer.go:44 | A string with "/" at two positions splits into at least three pieces. |
| `Analyzer.ShortFormIsUnstripped` | internal/analyzer/analyzer.go:42-51 | When the short-form branch applies, stripping the prefixes leaves the input unchanged. |
| `Analyzer.ShortForm` | internal/analyzer/analyzer.go:42-46 | Text with one "/" and no "github.com" parses into the parts before and after the "/", even empty ones. |
| `Analyzer.UrlForm` | internal/analyzer/analyzer.go:49-58 | "https://github.com/", "http://github.com/" or "github.com/" followed by owner/name and an optional "/…" path parses into (owner, name). The rest of the path is ignored. |
| `Analyzer.ParseDependsOnStripped` | internal/analyzer/analyzer.go:42-58 | The result depends only on the prefix-stripped text: its leading owner/name path, whichever branch is taken. |
| `Analyzer.OtherHost` | internal/analyzer/analyzer.go:49-58 | `https://` followed by a "/"-free host other than "github.com", then "/" owner and nothing or a "/"-path, gives the host as owner and the real owner as name; the host may be "http:" unless the owner is empty and a "/"-path follows. |
| `Analyzer.StripNothing` | internal/analyzer/analyzer.go:49-51 | Input starting with neither 'h' nor 'g' is not changed by stripping. |
| `Analyzer.StripHost` | internal/analyzer/analyzer.go:49-51 | Input starting with "github.com/" loses exactly that prefix. |
| `Analyzer.StripSchemeOnly` | internal/analyzer/analyzer.go:49-51 | "https://" followed by text that starts with neither 'h' nor 'g' loses exactly the scheme. |
| `Analyzer.ParseRejects` | internal/analyzer/analyzer.go:53-56 | "", "owner" and "github.com/x" are rejected with `InvalidFormat`. |
| `Analyzer.ParseShortExample` | internal/analyzer/analyzer.go:42-46 | "golang/go" parses into ("golang", "go"). |
| `Analyzer.ParseExtraSegment` | internal/analyzer/analyzer.go:42-58 | "owner/repo/extra" skips the short-form branch but is accepted by the fallback as ("owner", "repo"). |
| `Analyzer.ParseEmptySegments` | internal/analyzer/analyzer.go:42-46 | "/" parses into ("", ""). |
| `Analyzer.SafeString` | internal/analyzer/analyzer.go:146-151 | An absent string gives "", and a present one is returned unchanged. |
| `Analyzer.SafeInt` | internal/analyzer/analyzer.go:153-158 | An absent integer gives 0, and a present one (negative included) is returned unchanged. |
| `Analyzer.SafeStringCollapses` | internal/analyzer/analyzer.go:146-151 | Two optional strings default to the same value exactly when they are equal or are absent and "". |
| `Analyzer.SafeIntCollapses` | internal/analyzer/analyzer.go:153-158 | Two optional integers default to the same value exactly when they are equal or are absent and 0. |
| `Analyzer.MapsRepositoryUnique` | internal/analyzer/analyzer.go:69-84 | The repository mapping determines every field of `RepoInfo`. |
| `Analyzer.MapsPullRequestUnique` | internal/analyzer/analyzer.go:106-114 | The pull-request mapping determines every field of `PRInfo`. |
| `Analyzer.FetchRepoInfo` | internal/analyzer/analyzer.go:61-87 | A remote error is returned unchanged. A response always maps successfully: each field is the upstream value or its default, and each date is the formatted timestamp or "". With a formatter that never yields "", a date is "" exactly when its timestamp is absent. |
| `Analyzer.PullRequestOptions` | internal/analyzer/analyzer.go:92-97 | The list request asks for state "all" with `limit` per page, unclamped. |
| `Analyzer.FetchPullRequests` | internal/analyzer/analyzer.go:89-120 | The request is for state "all" with `limit` per page. A remote error is returned unchanged. Otherwise there is exactly one `PRInfo` per upstream entry, in the same order, each its flattening; the author is "" when the user is absent. |
| `Cmd.DeterminePRLimit` | cmd/analyze.go:119-130 | Flag not changed gives 0. Changed with the registered default -1 gives 5. Changed with any other value gives that value, zero and negatives included. |
| `Cmd.PRLimitShape` | cmd/analyze.go:119-130 | The sentinel -1 is never returned. A positive limit needs the flag. The limit is in 1..100 exactly when the flag was changed and holds -1 or a value in 1..100. |
| `Cmd.PRLimitThreeStates` | cmd/analyze.go:119-130 | Absent gives 0, sentinel gives 5, 25 gives 25, 150 is above the cap. |
| `Cmd.AnalyzesRepositoryUnique` | cmd/analyze.go:97-116 | The description of a run after the limit check leaves exactly one outcome and one step sequence. |
| `Cmd.AnalyzeRepository` | cmd/analyze.go:97-116 | Client creation, then the repository request for the parsed pair. A repository error aborts right there. Pull requests are requested, as the third step with state "all" and the limit, exactly when the repository arrived and the limit is positive; an error there aborts. Display is the last step exactly when every fetch succeeded, with the mapped record and either [] (limit ≤ 0) or the mapped list. An error from display aborts; otherwise the run returns what was displayed. |
| `Cmd.RunAnalyze` | cmd/analyze.go:83-117 | A parse failure aborts with no step taken. A limit above 100 aborts before the client is created or anything is fetched. Otherwise the run proceeds as `AnalyzeRepository` states, for the parser's owner/repo and the computed limit. |

## Left out

- `createGitHubClient` reads `GITHUB_TOKEN` from the environment, prints a warning and builds oauth2/HTTP clients. It is foreign I/O. The model records only that a client is created with the configured token (`CreateClient`); the API that client reaches is the `client` parameter.
- `Repositories.Get` and `PullRequests.List` are network calls, modelled as the deterministic `Client` lookups; context, rate limits and the HTTP response value are not modelled.
- `time.Format("2006-01-02")` is a library formatter, given as the `formatDate` parameter.
- `Analyzer.FetchRepoInfo`: the "date is empty exactly when absent" clause is stated only for a formatter that never yields "". The Go layout always yields text, but that formatter is not part of this model.
- cmd/root.go, the flag registration in `init`, and cobra's `Changed` bookkeeping are CLI plumbing. `determinePRLimit` is modelled on the pair (flag changed, value). Whether a bare `--prs` reaches the `-1` branch depends on cobra, because no `NoOptDefVal` is set; that is not modelled.
- The package-level variables `format`, `prs`, `download` and `token` become one `Config` value.
- `output.New`/`Display` is not part of this model. It is an opaque `display` parameter that answers with an error message or none; the `Display` step records what it was given.
- `log.Fatalf` becomes an `Aborted` outcome. The text of the fatal messages, and the parser's error text, are not modelled.
- Records are values: pointer identity of `*RepoInfo`/`*PRInfo`, and the difference between a nil slice and an empty one, are not modelled.
- Go strings are byte strings; the model uses `seq<char>`. No behaviour is lost: "/" and the three prefixes are ASCII, and `Split`, `Contains` and `TrimPrefix` act the same over bytes or characters.
- Go's 64-bit `int` is modelled as an unbounded `int`; the core does no arithmetic on it, so no wrap-around can occur.
