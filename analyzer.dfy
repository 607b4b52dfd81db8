/**
 * The analyzer package: the repository-identifier parser, the defaulting of
 * optional upstream fields, and the mapping of the two remote responses
 * (repository metadata, pull-request list) into flat local records.
 */
module Analyzer {
  import opened Wrappers
  import opened GoStrings

  // ---------------------------------------------------------------------
  // Local records
  // ---------------------------------------------------------------------

  /** Snapshot of one repository; absent upstream values are "" or 0. */
  datatype RepoInfo = RepoInfo(
    name: string,
    fullName: string,
    description: string,
    stars: int,
    forks: int,
    openIssues: int,
    language: string,
    createdAt: string,
    updatedAt: string)

  /** Snapshot of one pull request; `author` is "" when the upstream user is absent. */
  datatype PRInfo = PRInfo(number: int, title: string, state: string, author: string)

  // ---------------------------------------------------------------------
  // Upstream records, every field optional (a Go pointer that may be nil)
  // ---------------------------------------------------------------------

  /** An instant as the remote client reports it; only the formatter looks inside. */
  datatype Timestamp = Timestamp(unixNanos: int)

  datatype User = User(login: Option<string>)

  datatype Repository = Repository(
    name: Option<string>,
    fullName: Option<string>,
    description: Option<string>,
    stargazersCount: Option<int>,
    forksCount: Option<int>,
    openIssuesCount: Option<int>,
    language: Option<string>,
    createdAt: Option<Timestamp>,
    updatedAt: Option<Timestamp>)

  datatype PullRequest = PullRequest(
    number: Option<int>,
    title: Option<string>,
    state: Option<string>,
    user: Option<User>)

  /** The options of a pull-request list request. */
  datatype ListOptions = ListOptions(state: string, perPage: int)

  /** Whatever error the remote client reports; it is passed on untouched. */
  datatype FetchError = FetchError(message: string)

  /**
   * The remote API as the two answers it gives: the client is a value that
   * maps each request to its response.
   */
  datatype Client = Client(
    getRepository: (string, string) -> Result<Repository, FetchError>,
    listPullRequests: (string, string, ListOptions) -> Result<seq<PullRequest>, FetchError>)

  /** The only error the parser produces. */
  datatype ParseError = InvalidFormat

  /** The pull-request list asks for pull requests in every state. */
  const AllStates: string := "all"

  // ---------------------------------------------------------------------
  // Repository-identifier parser
  // ---------------------------------------------------------------------

  /** The input with "https://", then "http://", then "github.com/" removed, each at most once. */
  function StripPrefixes(url: string): (s: string)
    ensures |s| <= |url|
  {
    var u := TrimPrefix(url, "https://");
    var u' := TrimPrefix(u, "http://");
    TrimPrefix(u', "github.com/")
  }

  /** What stripping can remove: each of the three prefixes at most once, in order. */
  const StrippablePrefixes: set<string> := {
    "", "github.com/", "http://", "http://github.com/",
    "https://", "https://github.com/", "https://http://", "https://http://github.com/"}

  /** Each of the eight ways of choosing the three optional prefixes is listed. */
  lemma PrefixCombination(p1: string, p2: string, p3: string)
    requires p1 == "" || p1 == "https://"
    requires p2 == "" || p2 == "http://"
    requires p3 == "" || p3 == "github.com/"
    ensures p1 + p2 + p3 in StrippablePrefixes
  {
    if p1 == "" {
      if p2 == "" {
        if p3 == "" {
          assert p1 + p2 + p3 == "";
        } else {
          assert p1 + p2 + p3 == "github.com/";
        }
      } else {
        if p3 == "" {
          assert p1 + p2 + p3 == "http://";
        } else {
          assert p1 + p2 + p3 == "http://github.com/";
        }
      }
    } else {
      if p2 == "" {
        if p3 == "" {
          assert p1 + p2 + p3 == "https://";
        } else {
          assert p1 + p2 + p3 == "https://github.com/";
        }
      } else {
        if p3 == "" {
          assert p1 + p2 + p3 == "https://http://";
        } else {
          assert p1 + p2 + p3 == "https://http://github.com/";
        }
      }
    }
  }

  /** Stripping removes one of the eight ordered combinations of the prefixes and keeps the rest. */
  lemma StripRemovesPrefix(url: string)
    ensures var s := StripPrefixes(url);
      url[..|url| - |s|] in StrippablePrefixes && url[|url| - |s|..] == s
  {
    var u := TrimPrefix(url, "https://");
    var u' := TrimPrefix(u, "http://");
    var s := TrimPrefix(u', "github.com/");
    var p1 := if "https://" <= url then "https://" else "";
    var p2 := if "http://" <= u then "http://" else "";
    var p3 := if "github.com/" <= u' then "github.com/" else "";
    assert url == p1 + p2 + p3 + s;
    assert url[..|url| - |s|] == p1 + p2 + p3;
    assert url[|url| - |s|..] == s;
    PrefixCombination(p1, p2, p3);
  }

  /**
   * `owner` and `name` are separator-free and `s` begins with
   * owner + "/" + name, followed by nothing or by another "/".
   */
  predicate IsRepoPath(s: string, owner: string, name: string)
  {
    '/' !in owner && '/' !in name &&
    var head := owner + "/" + name;
    head <= s && (|s| == |head| || s[|head|] == '/')
  }

  /**
   * Turns "owner/repo" or a repository URL into (owner, repo). It fails
   * exactly when the prefix-stripped input has no "/", and otherwise returns
   * its first two "/"-separated segments.
   */
  function ParseRepoURL(url: string): (r: Result<(string, string), ParseError>)
    ensures r.Err? <==> '/' !in StripPrefixes(url)
    ensures r.Ok? ==> IsRepoPath(StripPrefixes(url), r.value.0, r.value.1)
  {
    if !Contains(url, "github.com") && '/' in url && |Split(url, '/')| == 2 then
      var parts := Split(url, '/');
      ShortFormIsUnstripped(url);
      SplitFirstTwo(url);
      Ok((parts[0], parts[1]))
    else
      var stripped := StripPrefixes(url);
      var parts := Split(stripped, '/');
      if |parts| < 2 then Err(InvalidFormat)
      else
        SplitFirstTwo(stripped);
        Ok((parts[0], parts[1]))
  }

  /** The first two pieces of a split with at least two pieces form a repository path. */
  lemma SplitFirstTwo(s: string)
    requires |Split(s, '/')| >= 2
    ensures IsRepoPath(s, Split(s, '/')[0], Split(s, '/')[1])
  {
    var parts := Split(s, '/');
    JoinSplit(s, '/');
    var head := parts[0] + "/" + parts[1];
    if |parts| == 2 {
      assert Join(parts[1..], '/') == parts[1];
      assert s == head;
    } else {
      var tail := Join(parts[2..], '/');
      assert parts[1..][1..] == parts[2..];
      assert Join(parts[1..], '/') == parts[1] + "/" + tail;
      assert s == head + "/" + tail;
      assert s[|head|] == '/';
    }
  }

  /** A repository path is exactly what the first two split pieces are. */
  lemma RepoPathSplit(s: string, owner: string, name: string)
    requires IsRepoPath(s, owner, name)
    ensures |Split(s, '/')| >= 2
    ensures Split(s, '/')[0] == owner && Split(s, '/')[1] == name
  {
    var head := owner + "/" + name;
    var tail := s[|head|..];
    assert s == owner + "/" + (name + tail);
    SplitAtSeparator(owner, name + tail, '/');
    SplitPrefix(name, tail, '/');
    if tail != [] {
      assert tail == [tail[0]] + tail[1..];
    }
  }

  /** At most one (owner, name) pair is a repository path of a given string. */
  lemma RepoPathUnique(s: string, o1: string, n1: string, o2: string, n2: string)
    requires IsRepoPath(s, o1, n1) && IsRepoPath(s, o2, n2)
    ensures o1 == o2 && n1 == n2
  {
    RepoPathSplit(s, o1, n1);
    RepoPathSplit(s, o2, n2);
  }

  /**
   * When the short-form branch applies, none of the three prefixes is
   * present, so the fallback would see the input unchanged.
   */
  lemma ShortFormIsUnstripped(url: string)
    requires !Contains(url, "github.com") && |Split(url, '/')| == 2
    ensures StripPrefixes(url) == url
  {
    if "https://" <= url {
      TwoSeparators(url, 6, 7);
    }
    if "http://" <= url {
      TwoSeparators(url, 5, 6);
    }
  }

  /** A string with "/" at two positions splits into at least three pieces. */
  lemma TwoSeparators(s: string, i: nat, j: nat)
    requires i < j < |s| && s[i] == '/' && s[j] == '/'
    ensures |Split(s, '/')| >= 3
  {
    assert s == s[..j] + s[j..];
    CountConcat(s[..j], s[j..], '/');
    assert s[..j][i] == '/';
    assert s[j..][0] == '/';
  }

  /**
   * Short form: text with a single "/" and no "github.com" parses into the
   * text before and after the "/", even when either part is empty.
   */
  lemma ShortForm(owner: string, name: string)
    requires '/' !in owner && '/' !in name
    requires !Contains(owner + "/" + name, "github.com")
    ensures ParseRepoURL(owner + "/" + name) == Ok((owner, name))
  {
    var url := owner + "/" + name;
    SplitAtSeparator(owner, name, '/');
    SplitPrefix(name, "", '/');
    assert name + "" == name;
    assert Split(url, '/') == [owner, name];
    assert url[|owner|] == '/';
  }

  /**
   * URL forms: "https://github.com/", "http://github.com/" or "github.com/",
   * then owner "/" name, then nothing or a further "/"-path, parse into
   * (owner, name); the rest of the path is ignored.
   */
  lemma UrlForm(scheme: string, owner: string, name: string, rest: string)
    requires scheme == "https://" || scheme == "http://" || scheme == ""
    requires '/' !in owner && '/' !in name
    requires rest == [] || rest[0] == '/'
    ensures ParseRepoURL(scheme + "github.com/" + owner + "/" + name + rest) == Ok((owner, name))
  {
    var path := owner + "/" + name + rest;
    var url := scheme + "github.com/" + owner + "/" + name + rest;
    assert url == scheme + ("github.com/" + path);
    var afterScheme := "github.com/" + path;
    assert afterScheme[0] == 'g';
    if scheme == "https://" {
      assert "https://" <= url;
      assert TrimPrefix(url, "https://") == afterScheme;
    } else if scheme == "http://" {
      assert url[4] == ':';
      assert "http://" <= url;
      assert TrimPrefix(TrimPrefix(url, "https://"), "http://") == afterScheme;
    } else {
      assert url == afterScheme;
    }
    assert TrimPrefix(TrimPrefix(url, "https://"), "http://") == afterScheme;
    assert StripPrefixes(url) == path;
    var head := owner + "/" + name;
    assert path == head + rest;
    assert IsRepoPath(path, owner, name);
    assert '/' in path by { assert path[|owner|] == '/'; }
    var r := ParseRepoURL(url);
    RepoPathUnique(path, r.value.0, r.value.1, owner, name);
  }

  /**
   * The short-form branch never changes the answer: the result depends only
   * on the prefix-stripped text, whose first two segments it is.
   */
  lemma ParseDependsOnStripped(url: string, owner: string, name: string)
    requires IsRepoPath(StripPrefixes(url), owner, name)
    ensures ParseRepoURL(url) == Ok((owner, name))
  {
    var s := StripPrefixes(url);
    assert '/' in s by { assert s[|owner|] == '/'; }
    var r := ParseRepoURL(url);
    RepoPathUnique(s, r.value.0, r.value.1, owner, name);
  }

  /** Two strings that differ at position `i` are not prefix-related. */
  lemma NotPrefixAt(p: string, s: string, i: nat)
    requires i < |p| && i < |s| && p[i] != s[i]
    ensures !(p <= s)
  {
  }

  /** Input that has none of the three prefixes is not changed by stripping. */
  lemma StripNothing(url: string)
    requires url == [] || (url[0] != 'h' && url[0] != 'g')
    ensures StripPrefixes(url) == url
  {
  }

  /** Input beginning with the host alone loses exactly "github.com/". */
  lemma StripHost(rest: string)
    ensures StripPrefixes("github.com/" + rest) == rest
  {
    var url := "github.com/" + rest;
    NotPrefixAt("https://", url, 0);
    NotPrefixAt("http://", url, 0);
  }

  /** Input beginning with "https://" and then neither other prefix loses only the scheme. */
  lemma StripSchemeOnly(rest: string)
    requires rest == [] || (rest[0] != 'h' && rest[0] != 'g')
    ensures StripPrefixes("https://" + rest) == rest
  {
    var url := "https://" + rest;
    assert "https://" <= url;
    assert url[|"https://"|..] == rest;
    StripNothing(rest);
  }

  /** The empty string, a bare owner and a host with one segment are rejected. */
  lemma ParseRejects()
    ensures ParseRepoURL("") == Err(InvalidFormat)
    ensures ParseRepoURL("owner") == Err(InvalidFormat)
    ensures ParseRepoURL("github.com/x") == Err(InvalidFormat)
  {
    StripNothing("");
    StripNothing("owner");
    StripHost("x");
  }

  /** The usual short form. */
  lemma ParseShortExample()
    ensures ParseRepoURL("golang/go") == Ok(("golang", "go"))
  {
    assert "golang/go" == "golang" + "/" + "go";
    NotPrefixAt("https://", "golang/go", 0);
    NotPrefixAt("http://", "golang/go", 0);
    NotPrefixAt("github.com/", "golang/go", 1);
    assert StripPrefixes("golang/go") == "golang/go";
    ParseDependsOnStripped("golang/go", "golang", "go");
  }

  /** A short form with a third segment is accepted by the fallback, which drops the extra segment. */
  lemma ParseExtraSegment()
    ensures ParseRepoURL("owner/repo/extra") == Ok(("owner", "repo"))
  {
    StripNothing("owner/repo/extra");
    assert "owner/repo/extra" == "owner" + "/" + "repo" + "/extra";
    ParseDependsOnStripped("owner/repo/extra", "owner", "repo");
  }

  /** Empty segments are not rejected: "/" is the repository "" of owner "". */
  lemma ParseEmptySegments()
    ensures ParseRepoURL("/") == Ok(("", ""))
  {
    StripNothing("/");
    assert "/" == "" + "/" + "";
    ParseDependsOnStripped("/", "", "");
  }

  /** The text before the first "/" is the only "/"-free segment a prefix can end with. */
  lemma SegmentBeforeSlash(host: string, tail: string, p: string)
    requires '/' !in host && '/' !in p
    requires p + "/" <= host + "/" + tail
    ensures host == p
  {
    var s := host + "/" + tail;
    assert s == p + "/" + s[|p| + 1..];
    SplitAtSeparator(host, tail, '/');
    SplitAtSeparator(p, s[|p| + 1..], '/');
    assert Split(s, '/')[0] == host;
    assert Split(p + "/" + s[|p| + 1..], '/')[0] == p;
  }

  /**
   * After "https://", a host other than "github.com" (such as "www.github.com"
   * or "gitlab.com") is not stripped: it is returned as the owner, and the
   * owner as the repository. The host "http:" is an exception only when the
   * owner is empty and more segments follow, since "https://http://" loses
   * the second scheme as well.
   */
  lemma OtherHost(host: string, owner: string, rest: string)
    requires host != "github.com"
    requires host != "http:" || owner != "" || rest == []
    requires '/' !in host && '/' !in owner
    requires rest == [] || rest[0] == '/'
    ensures ParseRepoURL("https://" + host + "/" + owner + rest) == Ok((host, owner))
  {
    var path := host + "/" + owner + rest;
    var url := "https://" + path;
    assert "https://" + host + "/" + owner + rest == url;
    assert "https://" <= url && url[|"https://"|..] == path;
    assert TrimPrefix(url, "https://") == path;
    assert path[|host|] == '/';
    assert path == host + "/" + (owner + rest);
    if host == "http:" {
      if owner != "" {
        assert path[6] == owner[0] != '/';
      } else {
        assert path == "http:/";
      }
      assert !("http://" <= path);
      assert path[0] == 'h';
    } else {
      if "http://" <= path {
        assert "http:" + "/" <= path;
        SegmentBeforeSlash(host, owner + rest, "http:");
      }
      if "github.com/" <= path {
        assert "github.com" + "/" <= path;
        SegmentBeforeSlash(host, owner + rest, "github.com");
      }
    }
    assert StripPrefixes(url) == path;
    ParseDependsOnStripped(url, host, owner);
  }

  // ---------------------------------------------------------------------
  // Defaulting of optional values
  // ---------------------------------------------------------------------

  /** `v` is the upstream value when present and `default` when absent. */
  predicate Defaulted<T(==)>(o: Option<T>, v: T, default: T)
  {
    match o
    case None => v == default
    case Some(x) => v == x
  }

  /** `safeString`: an absent string becomes "". */
  function SafeString(s: Option<string>): (r: string)
    ensures Defaulted(s, r, "")
  {
    match s
    case None => ""
    case Some(v) => v
  }

  /** `safeInt`: an absent integer becomes 0; a present one, negative or not, is copied. */
  function SafeInt(i: Option<int>): (r: int)
    ensures Defaulted(i, r, 0)
  {
    match i
    case None => 0
    case Some(v) => v
  }

  /** The only information `SafeString` loses is the difference between absent and "". */
  lemma SafeStringCollapses(x: Option<string>, y: Option<string>)
    ensures SafeString(x) == SafeString(y) <==>
      x == y || (x == None && y == Some("")) || (x == Some("") && y == None)
  {
  }

  /** The only information `SafeInt` loses is the difference between absent and 0. */
  lemma SafeIntCollapses(x: Option<int>, y: Option<int>)
    ensures SafeInt(x) == SafeInt(y) <==>
      x == y || (x == None && y == Some(0)) || (x == Some(0) && y == None)
  {
  }

  // ---------------------------------------------------------------------
  // Response-to-record mapping
  // ---------------------------------------------------------------------

  /** A formatter that never yields "", as a date layout never does. */
  ghost predicate NonEmptyFormatter(formatDate: Timestamp -> string)
  {
    forall t :: formatDate(t) != ""
  }

  /** The date field is the formatted timestamp when present and "" when absent. */
  predicate DateField(t: Option<Timestamp>, v: string, formatDate: Timestamp -> string)
  {
    match t
    case None => v == ""
    case Some(x) => v == formatDate(x)
  }

  /** `info` is the flattening of the upstream repository record `repo`. */
  predicate MapsRepository(repo: Repository, info: RepoInfo, formatDate: Timestamp -> string)
  {
    Defaulted(repo.name, info.name, "") &&
    Defaulted(repo.fullName, info.fullName, "") &&
    Defaulted(repo.description, info.description, "") &&
    Defaulted(repo.stargazersCount, info.stars, 0) &&
    Defaulted(repo.forksCount, info.forks, 0) &&
    Defaulted(repo.openIssuesCount, info.openIssues, 0) &&
    Defaulted(repo.language, info.language, "") &&
    DateField(repo.createdAt, info.createdAt, formatDate) &&
    DateField(repo.updatedAt, info.updatedAt, formatDate)
  }

  /** `info` is the flattening of the upstream pull request `pr`. */
  predicate MapsPullRequest(pr: PullRequest, info: PRInfo)
  {
    Defaulted(pr.number, info.number, 0) &&
    Defaulted(pr.title, info.title, "") &&
    Defaulted(pr.state, info.state, "") &&
    match pr.user
    case None => info.author == ""
    case Some(u) => Defaulted(u.login, info.author, "")
  }

  /** The repository mapping determines the record: it is a total function. */
  lemma MapsRepositoryUnique(repo: Repository, a: RepoInfo, b: RepoInfo, formatDate: Timestamp -> string)
    requires MapsRepository(repo, a, formatDate) && MapsRepository(repo, b, formatDate)
    ensures a == b
  {
  }

  /** The pull-request mapping determines the record: it is a total function. */
  lemma MapsPullRequestUnique(pr: PullRequest, a: PRInfo, b: PRInfo)
    requires MapsPullRequest(pr, a) && MapsPullRequest(pr, b)
    ensures a == b
  {
  }

  /**
   * `FetchRepoInfo`: one repository request; an error is returned unchanged,
   * otherwise the response is flattened and never fails.
   */
  method FetchRepoInfo(client: Client, owner: string, repo: string, formatDate: Timestamp -> string)
    returns (r: Result<RepoInfo, FetchError>)
    ensures client.getRepository(owner, repo).Err? ==> r == Err(client.getRepository(owner, repo).error)
    ensures client.getRepository(owner, repo).Ok? ==>
      r.Ok? && MapsRepository(client.getRepository(owner, repo).value, r.value, formatDate)
    ensures r.Ok? && NonEmptyFormatter(formatDate) ==>
      var repository := client.getRepository(owner, repo).value;
      (r.value.createdAt == "" <==> repository.createdAt.None?) &&
      (r.value.updatedAt == "" <==> repository.updatedAt.None?)
  {
    var response := client.getRepository(owner, repo);
    if response.Err? {
      return Err(response.error);
    }
    var repository := response.value;
    var info := RepoInfo(
      SafeString(repository.name),
      SafeString(repository.fullName),
      SafeString(repository.description),
      SafeInt(repository.stargazersCount),
      SafeInt(repository.forksCount),
      SafeInt(repository.openIssuesCount),
      SafeString(repository.language),
      "", "");
    if repository.createdAt.Some? {
      info := info.(createdAt := formatDate(repository.createdAt.value));
    }
    if repository.updatedAt.Some? {
      info := info.(updatedAt := formatDate(repository.updatedAt.value));
    }
    return Ok(info);
  }

  /** The request `FetchPullRequests` makes: every state, `limit` per page, not clamped. */
  function PullRequestOptions(limit: int): (opts: ListOptions)
    ensures opts.state == AllStates && opts.perPage == limit
  {
    ListOptions(AllStates, limit)
  }

  /**
   * `FetchPullRequests`: one list request; an error is returned unchanged,
   * otherwise exactly one record per upstream entry, in upstream order.
   */
  method FetchPullRequests(client: Client, owner: string, repo: string, limit: int)
    returns (r: Result<seq<PRInfo>, FetchError>)
    ensures var response := client.listPullRequests(owner, repo, PullRequestOptions(limit));
      response.Err? ==> r == Err(response.error)
    ensures var response := client.listPullRequests(owner, repo, PullRequestOptions(limit));
      response.Ok? ==>
        r.Ok? && |r.value| == |response.value| &&
        forall i :: 0 <= i < |r.value| ==> MapsPullRequest(response.value[i], r.value[i])
  {
    var opts := PullRequestOptions(limit);
    var response := client.listPullRequests(owner, repo, opts);
    if response.Err? {
      return Err(response.error);
    }
    var prs := response.value;
    var prInfos: seq<PRInfo> := [];
    for i := 0 to |prs|
      invariant |prInfos| == i
      invariant forall k :: 0 <= k < i ==> MapsPullRequest(prs[k], prInfos[k])
    {
      var pr := prs[i];
      var prInfo := PRInfo(SafeInt(pr.number), SafeString(pr.title), SafeString(pr.state), "");
      if pr.user.Some? {
        prInfo := prInfo.(author := SafeString(pr.user.value.login));
      }
      prInfos := prInfos + [prInfo];
    }
    return Ok(prInfos);
  }
}
