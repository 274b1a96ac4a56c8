/**
 * How `repo` turns the origin remote of a git checkout into the web page it
 * opens (repo/main.go): the forge is recognised from the remote's host, the
 * repository path is taken from the remote, and inside a subdirectory the
 * forge's tree-view template is filled in with the path, the default branch
 * and the subdirectory.
 *
 * The git commands, the working directory and url.Parse are outside the
 * model: their results are parameters.
 */
module Repo {
  import opened Wrappers
  import opened GoStrings

  /** A git forge: its display name and its tree-view URL template. */
  datatype Forge = Forge(name: string, treeURL: string)

  /** The tree-view templates, written around their three placeholders. */
  const GitHubTree: string := "https://" + "{repo}" + "/tree/" + "{branch}" + "/" + "{path}"
  const GitLabTree: string := "https://" + "{repo}" + "/-/tree/" + "{branch}" + "/" + "{path}"
  const GiteaTree: string := "https://" + "{repo}" + "/src/branch/" + "{branch}" + "/" + "{path}"

  /** The known forges, by host name. */
  const Forges: map<string, Forge> := map[
    "github.com" := Forge("GitHub", GitHubTree),
    "gitlab.com" := Forge("GitLab", GitLabTree),
    "codeberg.org" := Forge("Codeberg", GiteaTree),
    "gitea.com" := Forge("Gitea", GiteaTree)
  ]

  /** The forge assumed for every host not in the table. */
  const DefaultHost: string := "codeberg.org"

  /** The two fields of a parsed `https://` URL that the program reads. */
  datatype ParsedURL = ParsedURL(host: string, path: string)

  /**
   * A `git@` remote without ':' makes the program index past the end of the
   * pieces of the split, which panics in Go.
   */
  datatype DetectError = IndexOutOfRange

  /** The forge for a host, Codeberg when the host is unknown. */
  function LookupForge(host: string): (f: Forge)
    ensures f in Forges.Values
    ensures host in Forges ==> f == Forges[host]
    ensures host !in Forges ==> f == Forges[DefaultHost]
  {
    if host in Forges then Forges[host] else Forges[DefaultHost]
  }

  /**
   * Host and repository path of a remote. `parsed` is what url.Parse gives for
   * the remote, `None` when it fails; it is only consulted for `https://` remotes.
   */
  function HostAndPath(remote: string, parsed: Option<ParsedURL>): Result<(string, string), DetectError> {
    if HasPrefix(remote, "git@") then
      var parts := Split(remote, ':');
      var hostParts := Split(parts[0], '@');
      if |hostParts| < 2 || |parts| < 2 then Err(IndexOutOfRange)
      else Ok((hostParts[1], TrimSuffix(parts[1], ".git")))
    else if HasPrefix(remote, "https://") then
      match parsed
      case None => Ok(("", ""))
      case Some(u) => Ok((u.host, TrimPrefix(TrimSuffix(u.path, ".git"), "/")))
    else Ok(("", ""))
  }

  /** detectForge: the forge and the repository path `host/path`. */
  function DetectForge(remote: string, parsed: Option<ParsedURL>): (r: Result<(Forge, string), DetectError>)
    ensures r.Ok? ==> r.value.0 in Forges.Values
    ensures r.Err? <==> HostAndPath(remote, parsed).Err?
  {
    match HostAndPath(remote, parsed)
    case Err(e) => Err(e)
    case Ok((host, path)) => Ok((LookupForge(host), host + "/" + path))
  }

  /** The template with the first `{repo}`, `{branch}` and `{path}` replaced, in that order. */
  function ExpandTemplate(template: string, repoPath: string, branch: string, subDir: string): string {
    var t := ReplaceFirst(template, "{repo}", repoPath);
    var u := ReplaceFirst(t, "{branch}", branch);
    ReplaceFirst(u, "{path}", subDir)
  }

  /** The page to open: the tree view inside a subdirectory, the repository's home page at its root. */
  function WebURL(forge: Forge, repoPath: string, branch: string, subDir: string): string {
    if subDir != "" then ExpandTemplate(forge.treeURL, repoPath, branch, subDir)
    else "https://" + repoPath
  }

  /** The working directory relative to the top of the checkout. */
  function SubDir(currentDir: string, toplevel: string): (r: string)
    ensures |r| <= |currentDir| && currentDir[|currentDir| - |r|..] == r
    ensures !HasPrefix(currentDir, toplevel) && !HasPrefix(currentDir, "/") ==> r == currentDir
  {
    TrimPrefix(TrimPrefix(currentDir, toplevel), "/")
  }

  /** getDefaultBranch as written: the git output trimmed, then `refs/remotes/origin/` removed once. */
  function DefaultBranchName(output: string): string {
    TrimPrefix(TrimSpace(output), "refs/remotes/origin/")
  }

  /**
   * The branch name from either git command: `git symbolic-ref` prints
   * `refs/remotes/origin/<b>`, the fallback `git rev-parse --abbrev-ref`
   * prints `origin/<b>`.
   */
  function DefaultBranchNameFixed(output: string): string {
    var line := TrimSpace(output);
    if HasPrefix(line, "refs/remotes/origin/") then TrimPrefix(line, "refs/remotes/origin/")
    else TrimPrefix(line, "origin/")
  }

  /** The page main opens, given the branch name it would use inside a subdirectory. */
  function PageFor(remote: string, parsed: Option<ParsedURL>, toplevel: string, currentDir: string,
                   branch: string): Result<string, DetectError>
  {
    var subDir := SubDir(currentDir, toplevel);
    match DetectForge(remote, parsed)
    case Err(e) => Err(e)
    case Ok((forge, repoPath)) => Ok(WebURL(forge, repoPath, branch, subDir))
  }

  /**
   * The whole of main once the git commands have answered: `branchOutput` is
   * the default-branch command's output, read only inside a subdirectory, and
   * trimmed as getDefaultBranch trims it.
   */
  function OpenTarget(remote: string, parsed: Option<ParsedURL>, toplevel: string, currentDir: string,
                      branchOutput: string): Result<string, DetectError>
  {
    PageFor(remote, parsed, toplevel, currentDir, DefaultBranchName(branchOutput))
  }

  /** main with the corrected branch trim of DefaultBranchNameFixed. */
  function OpenTargetFixed(remote: string, parsed: Option<ParsedURL>, toplevel: string, currentDir: string,
                           branchOutput: string): Result<string, DetectError>
  {
    PageFor(remote, parsed, toplevel, currentDir, DefaultBranchNameFixed(branchOutput))
  }

  // ---- detectForge ----

  /** Split of `k + c + v` puts `k` first and the first field of `v` second. */
  lemma SplitAfterFirst(k: string, v: string, c: char)
    requires c !in k
    ensures |Split(k + [c] + v, c)| >= 2
    ensures Split(k + [c] + v, c)[0] == k
    ensures Split(k + [c] + v, c)[1] == Split(v, c)[0]
  {
    SplitFirstOfJoin(k, v, c);
    assert (k + [c] + v)[|k|] == c;
    SplitFields(k + [c] + v, c);
  }

  /** The first field of `p + tail` is `p` when `tail` is empty or starts a new field. */
  lemma SplitFirstField(p: string, tail: string, c: char)
    requires c !in p
    requires tail == [] || tail[0] == c
    ensures Split(p + tail, c)[0] == p
  {
    if tail == [] {
      assert p + tail == p;
      SplitFields(p, c);
    } else {
      assert p + tail == p + [c] + tail[1..];
      SplitAfterFirst(p, tail[1..], c);
    }
  }

  /** The fields of `git@<host>:<path>[:...]` split at ':'. */
  lemma SshFields(host: string, path: string, tail: string)
    requires ':' !in host && ':' !in path
    requires tail == [] || tail[0] == ':'
    ensures |Split("git@" + host + ":" + path + tail, ':')| >= 2
    ensures Split("git@" + host + ":" + path + tail, ':')[0] == "git@" + host
    ensures Split("git@" + host + ":" + path + tail, ':')[1] == path
  {
    assert "git@" + host + ":" + path + tail == ("git@" + host) + [':'] + (path + tail);
    assert ':' !in "git@" + host;
    SplitAfterFirst("git@" + host, path + tail, ':');
    SplitFirstField(path, tail, ':');
  }

  /** `git@<host>` split at '@' gives the host second. */
  lemma SshHostParts(host: string)
    requires '@' !in host
    ensures |Split("git@" + host, '@')| >= 2
    ensures Split("git@" + host, '@')[1] == host
  {
    assert "git@" + host == "git" + ['@'] + host;
    SplitAfterFirst("git", host, '@');
    assert host + [] == host;
    SplitFirstField(host, [], '@');
  }

  /**
   * `git@<host>:<path>[:...]`: the host is the text between "git@" and the
   * first ':', the path the next field with one ".git" removed.
   */
  lemma DetectSsh(host: string, path: string, tail: string, parsed: Option<ParsedURL>)
    requires ':' !in host && '@' !in host && ':' !in path
    requires tail == [] || tail[0] == ':'
    ensures DetectForge("git@" + host + ":" + path + tail, parsed)
         == Ok((LookupForge(host), host + "/" + TrimSuffix(path, ".git")))
  {
    var remote := "git@" + host + ":" + path + tail;
    assert HasPrefix(remote, "git@") by { assert remote[..4] == "git@"; }
    SshFields(host, path, tail);
    SshHostParts(host);
    assert HostAndPath(remote, parsed) == Ok((host, TrimSuffix(path, ".git")));
  }

  /** The usual form `git@<host>:<owner>/<name>.git` gives the repository path `<host>/<owner>/<name>`. */
  lemma DetectSshGit(host: string, owner: string, parsed: Option<ParsedURL>)
    requires ':' !in host && '@' !in host && ':' !in owner
    ensures DetectForge("git@" + host + ":" + owner + ".git", parsed) == Ok((LookupForge(host), host + "/" + owner))
  {
    assert "git@" + host + ":" + owner + ".git" == "git@" + host + ":" + (owner + ".git") + "";
    assert ':' !in owner + ".git";
    DetectSsh(host, owner + ".git", "", parsed);
    TrimSuffixOfConcat(owner, ".git");
  }

  /** A prefix free of the separator stays a prefix of the first field. */
  lemma PrefixOfFirstField(s: string, pre: string, k: string, v: string, c: char)
    requires s == k + [c] + v && c !in k
    requires HasPrefix(s, pre) && c !in pre
    ensures HasPrefix(k, pre)
  {
    assert s[|k|] == c;
    assert forall i :: 0 <= i < |pre| ==> s[i] == pre[i];
    assert |pre| <= |k|;
    assert forall i :: 0 <= i < |pre| ==> s[i] == k[i];
    assert k[..|pre|] == pre;
  }

  /** In a `git@` remote the text before the first ':' still holds the '@'. */
  lemma SshHostField(remote: string)
    requires HasPrefix(remote, "git@") && ':' in remote
    ensures |Split(remote, ':')| >= 2
    ensures |Split(Split(remote, ':')[0], '@')| >= 2
  {
    SplitFields(remote, ':');
    var k := SplitFirst(remote, ':').value.0;
    var v := SplitFirst(remote, ':').value.1;
    assert Split(remote, ':')[0] == k;
    assert HasPrefix(k, "git@") by {
      PrefixOfFirstField(remote, "git@", k, v, ':');
    }
    GitPrefixSplits(k);
  }

  lemma GitPrefixSplits(k: string)
    requires HasPrefix(k, "git@")
    ensures |Split(k, '@')| >= 2
  {
    assert k == "git" + ['@'] + k[4..] by {
      assert k == k[..4] + k[4..];
    }
    SplitAfterFirst("git", k[4..], '@');
  }

  /** The only failure: a `git@` remote without ':'. */
  lemma DetectFailsIff(remote: string, parsed: Option<ParsedURL>)
    ensures DetectForge(remote, parsed).Err? <==> HasPrefix(remote, "git@") && ':' !in remote
  {
    if HasPrefix(remote, "git@") && ':' in remote {
      SshHostField(remote);
    }
  }

  /** An `https://` remote: the parsed path `/<owner>.git` gives the repository path `<host>/<owner>`. */
  lemma DetectHttps(remote: string, host: string, owner: string)
    requires HasPrefix(remote, "https://")
    ensures DetectForge(remote, Some(ParsedURL(host, "/" + owner + ".git"))) == Ok((LookupForge(host), host + "/" + owner))
  {
    assert !HasPrefix(remote, "git@") by { assert remote[..4] == "http"; }
    TrimSuffixOfConcat("/" + owner, ".git");
    TrimPrefixOfConcat("/", owner);
  }

  /** Without ".git" the parsed path only loses its leading '/'. */
  lemma DetectHttpsPlain(remote: string, host: string, owner: string)
    requires HasPrefix(remote, "https://") && !HasSuffix(owner, ".git")
    ensures DetectForge(remote, Some(ParsedURL(host, "/" + owner))) == Ok((LookupForge(host), host + "/" + owner))
  {
    assert !HasPrefix(remote, "git@") by { assert remote[..4] == "http"; }
    assert !HasSuffix("/" + owner, ".git") by {
      assert |owner| >= 4 ==> ("/" + owner)[|"/" + owner| - 4..] == owner[|owner| - 4..];
      assert |owner| < 4 ==> |"/" + owner| < 4 || ("/" + owner)[0] == '/';
    }
    TrimPrefixOfConcat("/", owner);
  }

  /** An `https://` remote that does not parse: empty host and path. */
  lemma DetectHttpsUnparsed(remote: string)
    requires HasPrefix(remote, "https://")
    ensures DetectForge(remote, None) == Ok((Forges[DefaultHost], "/"))
  {
    assert !HasPrefix(remote, "git@") by { assert remote[..4] == "http"; }
    assert "" !in Forges;
    assert "" + "/" + "" == "/";
  }

  /** A remote of neither form gives the repository path "/" on Codeberg. */
  lemma DetectOther(remote: string, parsed: Option<ParsedURL>)
    requires !HasPrefix(remote, "git@") && !HasPrefix(remote, "https://")
    ensures DetectForge(remote, parsed) == Ok((Forges[DefaultHost], "/"))
  {
    assert "" !in Forges;
    assert "" + "/" + "" == "/";
  }

  /** The table's hosts each name their own forge; every other host falls back to Codeberg. */
  lemma LookupForgeNames(host: string)
    ensures LookupForge(host).name == "GitHub" <==> host == "github.com"
    ensures LookupForge(host).name == "GitLab" <==> host == "gitlab.com"
    ensures LookupForge(host).name == "Gitea" <==> host == "gitea.com"
    ensures LookupForge(host).name == "Codeberg" <==> host == "codeberg.org" || host !in Forges
  {
  }

  // ---- The web URL ----

  /** The inserted texts hold no placeholder that is replaced after them. */
  predicate NoLaterPlaceholder(repoPath: string, branch: string) {
    !Contains(repoPath, "{branch}") && !Contains(repoPath, "{path}") && !Contains(branch, "{path}")
  }

  /**
   * A template `a{repo}b{branch}c{path}` whose fixed parts hold no '{', with `b`
   * and `c` starting with '/', expands to `a + repoPath + b + branch + c + subDir`
   * when no inserted text holds a placeholder still to be replaced.
   */
  lemma ExpandTemplateParts(a: string, b: string, c: string, repoPath: string, branch: string, subDir: string)
    requires '{' !in a && '{' !in b && '{' !in c
    requires b != "" && b[0] == '/' && c != "" && c[0] == '/'
    requires NoLaterPlaceholder(repoPath, branch)
    ensures ExpandTemplate(a + "{repo}" + b + "{branch}" + c + "{path}", repoPath, branch, subDir)
         == a + repoPath + b + branch + c + subDir
  {
    assert '/' !in "{branch}" && '/' !in "{path}";
    ReplaceFirstChain(a, b, c, "{repo}", "{branch}", "{path}", repoPath, branch, subDir);
  }

  /** GitHub and GitLab have templates of their own; every other host gets the Gitea-style one. */
  lemma LookupForgeTemplate(host: string)
    ensures LookupForge(host).treeURL
         == if host == "github.com" then GitHubTree else if host == "gitlab.com" then GitLabTree else GiteaTree
  {
  }

  /** Inside a subdirectory, each forge's page for it, when no inserted part holds a later placeholder. */
  lemma WebURLTree(host: string, repoPath: string, branch: string, subDir: string)
    requires subDir != "" && NoLaterPlaceholder(repoPath, branch)
    ensures host == "github.com" ==>
      WebURL(LookupForge(host), repoPath, branch, subDir) == "https://" + repoPath + "/tree/" + branch + "/" + subDir
    ensures host == "gitlab.com" ==>
      WebURL(LookupForge(host), repoPath, branch, subDir) == "https://" + repoPath + "/-/tree/" + branch + "/" + subDir
    ensures host != "github.com" && host != "gitlab.com" ==>
      WebURL(LookupForge(host), repoPath, branch, subDir) == "https://" + repoPath + "/src/branch/" + branch + "/" + subDir
  {
    LookupForgeTemplate(host);
    if host == "github.com" {
      ExpandTemplateParts("https://", "/tree/", "/", repoPath, branch, subDir);
    } else if host == "gitlab.com" {
      ExpandTemplateParts("https://", "/-/tree/", "/", repoPath, branch, subDir);
    } else {
      ExpandTemplateParts("https://", "/src/branch/", "/", repoPath, branch, subDir);
    }
  }

  /**
   * At the top of the checkout the page is the repository's home, whatever
   * the forge. This is one step of WebURL, stated on its own because it is
   * the promise a reader looks for.
   */
  lemma WebURLAtRoot(forge: Forge, repoPath: string, branch: string)
    ensures WebURL(forge, repoPath, branch, "") == "https://" + repoPath
  {
  }

  // ---- Subdirectory and branch ----

  /** A directory below the top gives its path relative to the top. */
  lemma SubDirBelow(toplevel: string, rel: string)
    ensures SubDir(toplevel + "/" + rel, toplevel) == rel
  {
    TrimPrefixOfConcat(toplevel, "/" + rel);
    assert toplevel + "/" + rel == toplevel + ("/" + rel);
    TrimPrefixOfConcat("/", rel);
  }

  /** The top itself gives the empty subdirectory. */
  lemma SubDirAtTop(toplevel: string)
    ensures SubDir(toplevel, toplevel) == ""
  {
    TrimPrefixOfConcat(toplevel, "");
    assert toplevel + "" == toplevel;
  }

  /** A branch name: non-empty, no white space at either end. */
  predicate BranchName(b: string) {
    b != "" && !IsSpace(b[0]) && !IsSpace(b[|b| - 1])
  }

  /** The output of `git symbolic-ref` gives the branch, with or without the trailing newline. */
  lemma DefaultBranchSymbolicRef(b: string)
    requires BranchName(b)
    ensures DefaultBranchName("refs/remotes/origin/" + b + "\n") == b
    ensures DefaultBranchNameFixed("refs/remotes/origin/" + b + "\n") == b
  {
    var line := "refs/remotes/origin/" + b;
    TrimSpaceNewline(line);
    TrimPrefixOfConcat("refs/remotes/origin/", b);
    assert HasPrefix(line, "refs/remotes/origin/");
  }

  /** TrimSpace of a line ending in "\n" whose text has no white space at either end. */
  lemma TrimSpaceNewline(line: string)
    requires line != "" && !IsSpace(line[0]) && !IsSpace(line[|line| - 1])
    ensures TrimSpace(line + "\n") == line
  {
    TrimSpaceOfTrimmedPlusSpace(line, "\n");
  }

  /** The fallback `git rev-parse --abbrev-ref origin/HEAD` prints `origin/<b>`; as written that is kept whole. */
  lemma DefaultBranchFallbackAsWritten(b: string)
    requires BranchName(b)
    ensures DefaultBranchName("origin/" + b + "\n") == "origin/" + b
  {
    var line := "origin/" + b;
    TrimSpaceNewline(line);
    assert !HasPrefix(line, "refs/remotes/origin/") by { assert line[0] == 'o'; }
  }

  /** With the corrected trim the fallback gives the branch too. */
  lemma DefaultBranchFallbackFixed(b: string)
    requires BranchName(b)
    ensures DefaultBranchNameFixed("origin/" + b + "\n") == b
  {
    var line := "origin/" + b;
    TrimSpaceNewline(line);
    assert !HasPrefix(line, "refs/remotes/origin/") by { assert line[0] == 'o'; }
    TrimPrefixOfConcat("origin/", b);
  }

  // ---- main ----

  /** Once the forge is detected, the page depends on the subdirectory and, inside one, the branch. */
  lemma PageAfterDetect(remote: string, parsed: Option<ParsedURL>, toplevel: string, currentDir: string,
                        branch: string, forge: Forge, repoPath: string)
    requires DetectForge(remote, parsed) == Ok((forge, repoPath))
    ensures PageFor(remote, parsed, toplevel, currentDir, branch)
         == Ok(WebURL(forge, repoPath, branch, SubDir(currentDir, toplevel)))
  {
  }

  /** `git@<host>:<o>.git` opened at the top of the checkout: the home page `https://<host>/<o>`, whatever the branch. */
  lemma OpenSshAtRoot(host: string, owner: string, parsed: Option<ParsedURL>, toplevel: string, branchOutput: string)
    requires ':' !in host && '@' !in host && ':' !in owner
    ensures OpenTarget("git@" + host + ":" + owner + ".git", parsed, toplevel, toplevel, branchOutput)
         == Ok("https://" + (host + "/" + owner))
    ensures OpenTargetFixed("git@" + host + ":" + owner + ".git", parsed, toplevel, toplevel, branchOutput)
         == Ok("https://" + (host + "/" + owner))
  {
    var remote := "git@" + host + ":" + owner + ".git";
    DetectSshGit(host, owner, parsed);
    SubDirAtTop(toplevel);
    PageAfterDetect(remote, parsed, toplevel, toplevel, DefaultBranchName(branchOutput), LookupForge(host), host + "/" + owner);
    PageAfterDetect(remote, parsed, toplevel, toplevel, DefaultBranchNameFixed(branchOutput), LookupForge(host), host + "/" + owner);
  }

  /**
   * An `https://` remote opened in `<rel>` below the top: the forge's tree view
   * of `<rel>` on the branch getDefaultBranch gives for the git output.
   */
  lemma OpenHttpsInSubDir(remote: string, host: string, owner: string, toplevel: string, rel: string, branchOutput: string)
    requires HasPrefix(remote, "https://")
    requires rel != ""
    ensures OpenTarget(remote, Some(ParsedURL(host, "/" + owner + ".git")), toplevel, toplevel + "/" + rel, branchOutput)
         == Ok(WebURL(LookupForge(host), host + "/" + owner, DefaultBranchName(branchOutput), rel))
  {
    DetectHttps(remote, host, owner);
    SubDirBelow(toplevel, rel);
    PageAfterDetect(remote, Some(ParsedURL(host, "/" + owner + ".git")), toplevel, toplevel + "/" + rel,
                    DefaultBranchName(branchOutput), LookupForge(host), host + "/" + owner);
  }

  /**
   * The default-branch fallback seen from main: when git prints `origin/<b>`,
   * the page as written names the branch `origin/<b>`; with the corrected trim
   * it names `<b>`.
   */
  lemma OpenHttpsFallback(remote: string, host: string, owner: string, toplevel: string, rel: string, b: string)
    requires HasPrefix(remote, "https://") && rel != "" && BranchName(b)
    ensures OpenTarget(remote, Some(ParsedURL(host, "/" + owner + ".git")), toplevel, toplevel + "/" + rel, "origin/" + b + "\n")
         == Ok(WebURL(LookupForge(host), host + "/" + owner, "origin/" + b, rel))
    ensures OpenTargetFixed(remote, Some(ParsedURL(host, "/" + owner + ".git")), toplevel, toplevel + "/" + rel, "origin/" + b + "\n")
         == Ok(WebURL(LookupForge(host), host + "/" + owner, b, rel))
  {
    var parsed := Some(ParsedURL(host, "/" + owner + ".git"));
    DetectHttps(remote, host, owner);
    SubDirBelow(toplevel, rel);
    DefaultBranchFallbackAsWritten(b);
    DefaultBranchFallbackFixed(b);
    PageAfterDetect(remote, parsed, toplevel, toplevel + "/" + rel, "origin/" + b, LookupForge(host), host + "/" + owner);
    PageAfterDetect(remote, parsed, toplevel, toplevel + "/" + rel, b, LookupForge(host), host + "/" + owner);
  }
}
