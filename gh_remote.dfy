/**
 * Reading (owner, repo) from the text of `git remote get-url origin`
 * (`get_repo_info` in src/hatchkit/gh.py). The two regular expressions of
 * the source are written out as a matcher: a fixed prefix naming the host
 * `github.com`, an owner segment `([^/]+)`, a slash, and a repository
 * segment `([^/]+?)` followed by an optional `.git` and the end of the text.
 */
module GhRemote {
  import opened Py

  const SshPrefix := "git@github.com:"
  const HttpsPrefix := "https://github.com/"

  /** An (owner, repository) pair read from a remote URL. */
  datatype RemoteRef = RemoteRef(owner: string, repo: string)

  /** A non-empty run of characters other than `/`, which is what `[^/]+` matches. */
  predicate IsSegment(s: string) {
    s != "" && '/' !in s
  }

  predicate EndsWithGit(s: string) {
    |s| >= 4 && s[|s| - 4..] == ".git"
  }

  /** What the lazy group `([^/]+?)` captures from the text after the owner's
      slash: the optional `.git` takes a trailing `.git` whenever at least one
      character is left before it. */
  function RepoGroup(tail: string): (r: string)
    requires IsSegment(tail)
    ensures IsSegment(r)
    ensures |tail| > 4 && EndsWithGit(tail) ==> tail == r + ".git"
    ensures !(|tail| > 4 && EndsWithGit(tail)) ==> r == tail
  {
    if |tail| > 4 && EndsWithGit(tail) then
      var r := tail[..|tail| - 4];
      assert tail == r + tail[|tail| - 4..];
      assert forall i :: 0 <= i < |r| ==> r[i] == tail[i];
      r
    else tail
  }

  /** `re.match(prefix + r"([^/]+)/([^/]+?)(?:\.git)?$", url)` on a text that
      does not end in a newline. */
  function MatchRemote(prefix: string, url: string): Option<RemoteRef> {
    if !(prefix <= url) then None
    else
      var rest := url[|prefix|..];
      var k := SlashIndex(rest);
      if k == 0 || k == |rest| then None
      else
        var tail := rest[k + 1..];
        if !IsSegment(tail) then None
        else Some(RemoteRef(rest[..k], RepoGroup(tail)))
  }

  function UnparseableDiagnostic(url: string): string {
    "[red]Error:[/red] Could not parse owner/repo from remote URL: " + url
  }

  /** The URL part of `get_repo_info`: strip the text, try the SSH shape,
      then the HTTPS shape, and exit with status 1 when neither matches. */
  function ParseRemote(url: string): (r: Result<RemoteRef>)
    ensures r.Ok? ==> IsSegment(r.value.owner) && IsSegment(r.value.repo)
    ensures r.Err? ==> r.failure == Exit(1, UnparseableDiagnostic(Strip(url)))
  {
    var u := Strip(url);
    match MatchRemote(SshPrefix, u)
    case Some(ref) => Ok(ref)
    case None =>
      match MatchRemote(HttpsPrefix, u)
      case Some(ref) => Ok(ref)
      case None => Err(Exit(1, UnparseableDiagnostic(u)))
  }

  /** The four texts the two expressions accept for one (owner, repo) pair. */
  predicate IsRemoteForm(u: string, ref: RemoteRef) {
    || u == SshPrefix + ref.owner + "/" + ref.repo
    || u == SshPrefix + ref.owner + "/" + ref.repo + ".git"
    || u == HttpsPrefix + ref.owner + "/" + ref.repo
    || u == HttpsPrefix + ref.owner + "/" + ref.repo + ".git"
  }

  /** A repository name that the optional `.git` would not shorten. */
  predicate IsPlainRepo(repo: string) {
    IsSegment(repo) && !(|repo| > 4 && EndsWithGit(repo))
  }

  lemma {:induction false} SlashIndexOf(o: string, t: string)
    requires '/' !in o
    ensures SlashIndex(o + "/" + t) == |o|
    decreases |o|
  {
    if o != [] {
      assert (o + "/" + t)[1..] == o[1..] + "/" + t;
      SlashIndexOf(o[1..], t);
    }
  }

  /** `prefix O/T` matches with owner O and the repository group of T. */
  lemma MatchTail(prefix: string, owner: string, tail: string)
    requires IsSegment(owner) && IsSegment(tail)
    ensures MatchRemote(prefix, prefix + owner + "/" + tail) == Some(RemoteRef(owner, RepoGroup(tail)))
  {
    var u := prefix + owner + "/" + tail;
    var rest := owner + "/" + tail;
    assert u[|prefix|..] == rest;
    SlashIndexOf(owner, tail);
    assert rest[|owner| + 1..] == tail;
    assert rest[..|owner|] == owner;
  }

  /** Completeness of one shape: `prefix O/R` and `prefix O/R.git` both match as (O, R). */
  lemma MatchForms(prefix: string, owner: string, repo: string)
    requires IsSegment(owner) && IsPlainRepo(repo)
    ensures MatchRemote(prefix, prefix + owner + "/" + repo) == Some(RemoteRef(owner, repo))
    ensures MatchRemote(prefix, prefix + owner + "/" + repo + ".git") == Some(RemoteRef(owner, repo))
  {
    MatchTail(prefix, owner, repo);
    GitSuffix(repo);
    MatchTail(prefix, owner, repo + ".git");
    assert prefix + owner + "/" + repo + ".git" == prefix + owner + "/" + (repo + ".git");
  }

  /** The lazy group gives back a repository name from before its `.git`. */
  lemma GitSuffix(repo: string)
    requires IsSegment(repo)
    ensures IsSegment(repo + ".git") && RepoGroup(repo + ".git") == repo
  {
    var t := repo + ".git";
    assert t[|t| - 4..] == ".git" && t[..|t| - 4] == repo;
    assert '/' !in t;
  }

  /** An SSH remote matches only the SSH expression's prefix. */
  lemma SshIsNotHttps(u: string)
    requires SshPrefix <= u
    ensures !(HttpsPrefix <= u)
  {
    assert u[0] == 'g';
  }

  /** SSH URLs, with and without `.git`, and surrounded by whitespace such as
      the newline git prints, yield the owner and repository. */
  lemma {:induction false} SshRemote(owner: string, repo: string, pad: string)
    requires IsSegment(owner) && IsPlainRepo(repo) && !IsSpace(repo[|repo| - 1])
    requires forall i :: 0 <= i < |pad| ==> IsSpace(pad[i])
    ensures ParseRemote(SshPrefix + owner + "/" + repo + pad) == Ok(RemoteRef(owner, repo))
    ensures ParseRemote(SshPrefix + owner + "/" + repo + ".git" + pad) == Ok(RemoteRef(owner, repo))
  {
    MatchForms(SshPrefix, owner, repo);
    StripPadded(SshPrefix + owner + "/" + repo, pad);
    StripPadded(SshPrefix + owner + "/" + repo + ".git", pad);
  }

  /** HTTPS URLs, likewise. */
  lemma {:induction false} HttpsRemote(owner: string, repo: string, pad: string)
    requires IsSegment(owner) && IsPlainRepo(repo) && !IsSpace(repo[|repo| - 1])
    requires forall i :: 0 <= i < |pad| ==> IsSpace(pad[i])
    ensures ParseRemote(HttpsPrefix + owner + "/" + repo + pad) == Ok(RemoteRef(owner, repo))
    ensures ParseRemote(HttpsPrefix + owner + "/" + repo + ".git" + pad) == Ok(RemoteRef(owner, repo))
  {
    MatchForms(HttpsPrefix, owner, repo);
    var u1 := HttpsPrefix + owner + "/" + repo;
    var u2 := HttpsPrefix + owner + "/" + repo + ".git";
    StripPadded(u1, pad);
    StripPadded(u2, pad);
    assert u1[0] == 'h' && u2[0] == 'h';
    assert !(SshPrefix <= u1) && !(SshPrefix <= u2);
  }

  /** Soundness of one shape: a match is one of the two texts for its pair. */
  lemma MatchShape(prefix: string, u: string)
    requires MatchRemote(prefix, u).Some?
    ensures var ref := MatchRemote(prefix, u).value;
      u == prefix + ref.owner + "/" + ref.repo || u == prefix + ref.owner + "/" + ref.repo + ".git"
  {
    var rest := u[|prefix|..];
    var k := SlashIndex(rest);
    assert rest == rest[..k] + rest[k..];
    assert rest[k..] == "/" + rest[k + 1..];
    RepoForms(prefix, rest, rest[..k], rest[k + 1..], u);
  }

  lemma RepoForms(prefix: string, rest: string, owner: string, tail: string, u: string)
    requires IsSegment(tail) && u == prefix + rest && rest == owner + "/" + tail
    ensures var repo := RepoGroup(tail);
      u == prefix + owner + "/" + repo || u == prefix + owner + "/" + repo + ".git"
  {
    var repo := RepoGroup(tail);
    if |tail| > 4 && EndsWithGit(tail) {
      assert tail == repo + ".git";
      assert u == prefix + (owner + "/" + (repo + ".git"));
    } else {
      assert u == prefix + (owner + "/" + repo);
    }
  }

  /** Every accepted URL is, once stripped, one of the four remote forms of
      the pair it yields, so it starts with one of the two prefixes and does
      not end in a slash. */
  lemma {:induction false} ParseRemoteSound(url: string)
    ensures ParseRemote(url).Ok? ==> IsRemoteForm(Strip(url), ParseRemote(url).value)
    ensures ParseRemote(url).Ok? ==> var u := Strip(url);
      && (SshPrefix <= u || HttpsPrefix <= u)
      && u != [] && u[|u| - 1] != '/'
  {
    var u := Strip(url);
    if MatchRemote(SshPrefix, u).Some? {
      MatchShape(SshPrefix, u);
      LastIsNotSlash(SshPrefix, u);
    } else if MatchRemote(HttpsPrefix, u).Some? {
      MatchShape(HttpsPrefix, u);
      LastIsNotSlash(HttpsPrefix, u);
    }
  }

  lemma LastIsNotSlash(prefix: string, u: string)
    requires MatchRemote(prefix, u).Some?
    ensures prefix <= u && u != [] && u[|u| - 1] != '/'
  {
    var rest := u[|prefix|..];
    var k := SlashIndex(rest);
    var tail := rest[k + 1..];
    assert tail[|tail| - 1] == u[|u| - 1];
  }

  /** Any other host, a missing segment, an extra segment or a trailing
      slash: the URL is rejected with exit status 1. */
  lemma {:induction false} ParseRemoteRejects(url: string)
    requires var u := Strip(url);
      || (!(SshPrefix <= u) && !(HttpsPrefix <= u))
      || (u != [] && u[|u| - 1] == '/')
      || (forall ref: RemoteRef :: IsSegment(ref.owner) && IsSegment(ref.repo) ==> !IsRemoteForm(u, ref))
    ensures ParseRemote(url) == Err(Exit(1, UnparseableDiagnostic(Strip(url))))
  {
    ParseRemoteSound(url);
  }

  /** The SSH scenario of the test suite, with and without `.git`. */
  lemma SshExample(owner: string, repo: string, pad: string, withGit: string, bare: string)
    requires owner == "bob" && repo == "cool-project" && pad == "\n"
    requires withGit == "git@github.com:bob/cool-project.git\n"
    requires bare == "git@github.com:bob/cool-project\n"
    ensures ParseRemote(withGit) == Ok(RemoteRef(owner, repo))
    ensures ParseRemote(bare) == Ok(RemoteRef(owner, repo))
  {
    assert repo[|repo| - 4..] == "ject";
    assert forall i :: 0 <= i < |owner| ==> owner[i] != '/';
    assert forall i :: 0 <= i < |repo| ==> repo[i] != '/';
    assert forall i :: 0 <= i < |pad| ==> IsSpace(pad[i]);
    var stem := SshPrefix + owner + "/" + repo;
    assert stem == "git@github.com:bob/cool-project";
    assert stem + ".git" + pad == withGit && stem + pad == bare;
    SshRemote(owner, repo, pad);
  }

  /** The HTTPS scenario of the test suite, with and without `.git`. */
  lemma HttpsExample(owner: string, repo: string, pad: string, withGit: string, bare: string)
    requires owner == "alice" && repo == "my-repo" && pad == "\n"
    requires withGit == "https://github.com/alice/my-repo.git\n"
    requires bare == "https://github.com/alice/my-repo\n"
    ensures ParseRemote(withGit) == Ok(RemoteRef(owner, repo))
    ensures ParseRemote(bare) == Ok(RemoteRef(owner, repo))
  {
    assert repo[|repo| - 4..] == "repo";
    assert forall i :: 0 <= i < |owner| ==> owner[i] != '/';
    assert forall i :: 0 <= i < |repo| ==> repo[i] != '/';
    assert forall i :: 0 <= i < |pad| ==> IsSpace(pad[i]);
    var stem := HttpsPrefix + owner + "/" + repo;
    assert stem == "https://github.com/alice/my-repo";
    assert stem + ".git" + pad == withGit && stem + pad == bare;
    HttpsRemote(owner, repo, pad);
  }

  /** Another host is rejected: the test suite's GitLab remote. */
  lemma OtherHostExample(url: string)
    requires url == "https://gitlab.com/x/y.git\n"
    ensures ParseRemote(url).Err?
  {
    var g := url[..|url| - 1];
    assert url == g + url[|url| - 1..];
    StripPadded(g, url[|url| - 1..]);
    assert g[11] != HttpsPrefix[11] && g[0] != SshPrefix[0];
    ParseRemoteRejects(url);
  }
}
