/**
 * `src/services/githubService.ts`: reading owner and repository out of a
 * repository URL with `/github\.com\/([^/]+)\/([^/]+)/`, and the commit
 * metadata attached to a memory snapshot.
 *
 * The regular expression is modelled by its leftmost match: the first
 * position where `github.com/` starts, followed by a non-empty run of
 * characters other than `/`, a `/`, and another non-empty run. The runs are
 * greedy and `[^/]` cannot match `/`, so each run is maximal.
 */
module Github {
  import opened Seqs
  import opened Types

  const Host: string := "github.com/"

  datatype RepoRef = RepoRef(owner: string, repo: string)

  /** The end of the run of non-`/` characters that starts at `j`. */
  function RunEnd(s: string, j: nat): (e: nat)
    requires j <= |s|
    ensures j <= e <= |s|
    ensures forall t :: j <= t < e ==> s[t] != '/'
    ensures e < |s| ==> s[e] == '/'
    decreases |s| - j
  {
    if j == |s| || s[j] == '/' then j else RunEnd(s, j + 1)
  }

  /** A run ends exactly where the first `/` (or the end of the text) is. */
  lemma {:induction false} RunEndAt(s: string, j: nat, e: nat)
    requires j <= e <= |s|
    requires forall t :: j <= t < e ==> s[t] != '/'
    requires e == |s| || s[e] == '/'
    ensures RunEnd(s, j) == e
    decreases e - j
  {
    if j < e {
      RunEndAt(s, j + 1, e);
    }
  }

  /**
   * The match the pattern describes, starting at `i`: the host, the owner,
   * a slash, the repository, and then a slash or the end of the text.
   */
  ghost predicate IsMatchAt(s: string, i: nat, owner: string, repo: string) {
    var a := i + |Host|;
    var e1 := a + |owner|;
    var e2 := e1 + 1 + |repo|;
    && e2 <= |s|
    && s[i..a] == Host && s[a..e1] == owner && s[e1] == '/' && s[e1 + 1..e2] == repo
    && owner != "" && repo != "" && '/' !in owner && '/' !in repo
    && (e2 == |s| || s[e2] == '/')
  }

  /** The match of the pattern at position `i`, if there is one. */
  function MatchAt(s: string, i: nat): (r: Option<RepoRef>)
    requires i <= |s|
    ensures r.Some? ==> IsMatchAt(s, i, r.value.owner, r.value.repo)
  {
    var a := i + |Host|;
    if a <= |s| && s[i..a] == Host then
      var e1 := RunEnd(s, a);
      if a < e1 < |s| then
        var e2 := RunEnd(s, e1 + 1);
        if e1 + 1 < e2 then
          Some(RepoRef(s[a..e1], s[e1 + 1..e2]))
        else None
      else None
    else None
  }

  /** Whatever the pattern describes at `i` is what `MatchAt` finds there. */
  lemma MatchAtComplete(s: string, i: nat, owner: string, repo: string)
    requires IsMatchAt(s, i, owner, repo)
    ensures MatchAt(s, i) == Some(RepoRef(owner, repo))
  {
    var a := i + |Host|;
    var e1 := a + |owner|;
    var e2 := e1 + 1 + |repo|;
    assert forall t :: a <= t < e1 ==> s[t] == owner[t - a] by {
      assert forall t :: a <= t < e1 ==> s[a..e1][t - a] == s[t];
    }
    assert forall t :: e1 + 1 <= t < e2 ==> s[t] == repo[t - e1 - 1] by {
      assert forall t :: e1 + 1 <= t < e2 ==> s[e1 + 1..e2][t - e1 - 1] == s[t];
    }
    RunEndAt(s, a, e1);
    RunEndAt(s, e1 + 1, e2);
  }

  /** The first position at or after `i` where the pattern matches, `|s| + 1` if none. */
  function FirstMatch(s: string, i: nat): (j: nat)
    requires i <= |s|
    ensures i <= j <= |s| + 1
    ensures j <= |s| ==> MatchAt(s, j).Some?
    ensures forall t :: i <= t < j && t <= |s| ==> MatchAt(s, t).None?
    decreases |s| - i
  {
    if MatchAt(s, i).Some? then i
    else if i == |s| then |s| + 1
    else FirstMatch(s, i + 1)
  }

  /**
   * `parseRepoUrl`: owner and repository of the leftmost match; `None` where
   * the source throws `Invalid GitHub repository URL`.
   */
  function ParseRepoUrl(url: string): (r: Option<RepoRef>)
    ensures r.None? <==> forall i :: 0 <= i <= |url| ==> MatchAt(url, i).None?
    ensures r.Some? ==> exists i :: 0 <= i <= |url| && MatchAt(url, i) == r
                                    && forall t :: 0 <= t < i ==> MatchAt(url, t).None?
    ensures r.Some? ==> r.value.owner != "" && r.value.repo != ""
                        && '/' !in r.value.owner && '/' !in r.value.repo
  {
    var j := FirstMatch(url, 0);
    if j <= |url| then
      var m := MatchAt(url, j);
      assert IsMatchAt(url, j, m.value.owner, m.value.repo);
      m
    else None
  }

  /** A match at `i` with none before it is what `ParseRepoUrl` returns. */
  lemma {:induction false} LeftmostMatch(url: string, i: nat)
    requires i <= |url| && MatchAt(url, i).Some?
    requires forall t :: 0 <= t < i ==> MatchAt(url, t).None?
    ensures ParseRepoUrl(url) == MatchAt(url, i)
  {
    var r := ParseRepoUrl(url);
    var j :| 0 <= j <= |url| && MatchAt(url, j) == r && forall t :: 0 <= t < j ==> MatchAt(url, t).None?;
  }

  /** Nothing matches where the text does not start with a `g`. */
  lemma NoMatchWithoutG(s: string, i: nat)
    requires i < |s| && s[i] != 'g'
    ensures MatchAt(s, i).None?
  {
    if i + |Host| <= |s| {
      assert s[i..i + |Host|][0] == s[i];
    }
  }

  /** `owner/repo`, as the snapshot metadata records a repository. */
  function RepoPath(owner: string, repo: string): string {
    owner + "/" + repo
  }

  /** A repository URL: something in front, the host, the path, something after. */
  function RepoUrl(prefix: string, owner: string, repo: string, rest: string): string {
    prefix + Host + RepoPath(owner, repo) + rest
  }

  /**
   * Round trip: a URL made of a prefix without `g` (`https://`, `http://www.`,
   * or nothing), the host, owner and repository, and then nothing or a path
   * starting with `/`, parses back to that owner and repository.
   */
  lemma ParseRepoUrlRoundTrip(prefix: string, owner: string, repo: string, rest: string)
    requires 'g' !in prefix
    requires owner != "" && repo != "" && '/' !in owner && '/' !in repo
    requires rest == "" || rest[0] == '/'
    ensures ParseRepoUrl(RepoUrl(prefix, owner, repo, rest)) == Some(RepoRef(owner, repo))
  {
    var s := RepoUrl(prefix, owner, repo, rest);
    var i := |prefix|;
    var a := i + |Host|;
    var e1 := a + |owner|;
    var e2 := e1 + 1 + |repo|;
    assert s == prefix + Host + owner + ['/'] + repo + rest;
    assert s[i..a] == Host;
    assert s[a..e1] == owner;
    assert s[e1 + 1..e2] == repo;
    assert e2 < |s| ==> s[e2] == rest[0];
    MatchAtComplete(s, i, owner, repo);
    forall t | 0 <= t < i
      ensures MatchAt(s, t).None?
    {
      assert s[t] == prefix[t];
      NoMatchWithoutG(s, t);
    }
    LeftmostMatch(s, i);
  }

  /** A `.git` suffix is not stripped: it stays part of the repository name. */
  lemma GitSuffixKept(owner: string, repo: string)
    requires owner != "" && repo != "" && '/' !in owner && '/' !in repo
    ensures ParseRepoUrl(RepoUrl("https://", owner, repo + ".git", "")) == Some(RepoRef(owner, repo + ".git"))
  {
    assert '/' !in ".git";
    ParseRepoUrlRoundTrip("https://", owner, repo + ".git", "");
  }

  /**
   * `getLatestCommitInfo`: the default branch and its head commit, read
   * through `defaultBranch` and `headCommit` (the two Octokit calls; `None`
   * stands for a failed call). An invalid URL or any failure gives `null`.
   */
  function LatestCommitInfo(
    url: string,
    defaultBranch: (string, string) -> Option<string>,
    headCommit: (string, string, string) -> Option<string>): (r: Option<GithubMetadata>)
    ensures r.Some? <==> && ParseRepoUrl(url).Some?
                         && defaultBranch(ParseRepoUrl(url).value.owner, ParseRepoUrl(url).value.repo).Some?
                         && headCommit(ParseRepoUrl(url).value.owner, ParseRepoUrl(url).value.repo,
                                       defaultBranch(ParseRepoUrl(url).value.owner, ParseRepoUrl(url).value.repo).value).Some?
    ensures r.Some? ==> var ref := ParseRepoUrl(url).value;
                        && r.value.repo == RepoPath(ref.owner, ref.repo)
                        && r.value.branch == defaultBranch(ref.owner, ref.repo).value
                        && r.value.commit == headCommit(ref.owner, ref.repo, r.value.branch).value
  {
    match ParseRepoUrl(url)
    case None => None
    case Some(ref) =>
      match defaultBranch(ref.owner, ref.repo)
      case None => None
      case Some(branch) =>
        match headCommit(ref.owner, ref.repo, branch)
        case None => None
        case Some(sha) => Some(GithubMetadata(RepoPath(ref.owner, ref.repo), branch, sha))
  }

  /**
   * The `repo` recorded in the metadata names the same repository again:
   * `github.com/` followed by it parses back to the owner and repository.
   */
  lemma MetadataRepoParses(
    url: string,
    defaultBranch: (string, string) -> Option<string>,
    headCommit: (string, string, string) -> Option<string>)
    requires LatestCommitInfo(url, defaultBranch, headCommit).Some?
    ensures ParseRepoUrl(Host + LatestCommitInfo(url, defaultBranch, headCommit).value.repo)
            == ParseRepoUrl(url)
  {
    var ref := ParseRepoUrl(url).value;
    ParseRepoUrlRoundTrip("", ref.owner, ref.repo, "");
    var path := RepoPath(ref.owner, ref.repo);
    assert "" + Host == Host;
    assert Host + path + "" == Host + path;
  }
}
