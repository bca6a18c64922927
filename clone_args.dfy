/**
 * The command line of git-clone (the `opts` struct of main.go) and the
 * values main derives from it before it calls go-git: the destination
 * directory, the reference to check out, the tag mode and the kind of
 * identity given.
 */
module CloneArgs {
  import opened Wrappers
  import opened GoStrings
  import opened GoGit

  /**
   * The parsed flags. Defaults ("origin" for remoteName, "all" for tags)
   * and the GIT_CLONE_KEY fallback for identity are applied by the flag
   * parser before main sees them.
   */
  datatype Opts = Opts(
    repository: string,
    directory: string,
    identity: string,
    recursive: bool,
    pull: bool,
    remoteName: string,
    branch: string,
    singleBranch: bool,
    depth: int,
    tags: string,
    lastCommit: bool)

  /** What flags.Parse gave back: an error (bad flag, missing argument, --help) or the flags. */
  datatype ParseResult = ParseError | Parsed(opts: Opts)

  /** The choices the --tags flag accepts. */
  const TagChoices: set<string> := {"all", "no", "following"}

  /** The parse succeeded and --tags holds one of its choices (the parser rejects any other value). */
  predicate Accepted(args: ParseResult) {
    args.Parsed? && args.opts.tags in TagChoices
  }

  /** The switch on opts.Tags that sets CloneOptions.Tags; any other text leaves the zero value. */
  function CloneTagMode(tags: string): (m: TagMode)
    ensures m != InvalidTagMode <==> tags in TagChoices
  {
    match tags
    case "all" => AllTags
    case "no" => NoTags
    case "following" => TagFollowing
    case _ => InvalidTagMode
  }

  /** Each tag choice gets a library mode of its own. */
  lemma TagModeOneToOne(a: string, b: string)
    requires a in TagChoices && b in TagChoices
    ensures CloneTagMode(a) == CloneTagMode(b) <==> a == b
  {
  }

  /**
   * The directory to clone into: the directory argument when there is one,
   * otherwise the base of the repository URL less one trailing ".git".
   */
  function Destination(repository: string, directory: string): (d: string)
    ensures |directory| > 0 ==> d == directory
  {
    if |directory| > 0 then directory else TrimSuffix(Base(repository), ".git")
  }

  /** A derived destination is a single path element: it holds no slash unless it is "/". */
  lemma DestinationHasNoSlash(repository: string)
    ensures var d := Destination(repository, ""); '/' !in d || d == "/"
  {
    var base := Base(repository);
    BaseHasNoSlash(repository);
    var d := TrimSuffix(base, ".git");
    assert HasSuffix(base, ".git") ==> forall i :: 0 <= i < |d| ==> d[i] == base[i];
  }

  /**
   * Without a directory argument, and for a URL with some character other
   * than '/', the destination is the URL's last slash-separated element with
   * at most one trailing ".git" removed.
   */
  lemma DestinationIsLastElement(repository: string)
    requires !AllSlashes(repository)
    ensures exists start, end ::
      && IsLastElement(repository, start, end)
      && var element := repository[start..end];
         if HasSuffix(element, ".git") then Destination(repository, "") + ".git" == element
         else Destination(repository, "") == element
  {
    BaseIsLastElement(repository);
  }

  /** An empty URL gives ".", a URL of slashes only gives "/". */
  lemma DestinationOfSlashes(repository: string)
    requires AllSlashes(repository)
    ensures Destination(repository, "") == if repository == "" then "." else "/"
  {
    BaseOfSlashes(repository);
  }

  /** The usual case: `git-clone https://example.com/sample.git` clones into "sample". */
  lemma SampleDestination()
    ensures Destination("https://example.com/sample.git", "") == "sample"
  {
    var url := "https://example.com/sample.git";
    assert IsLastElement(url, 20, |url|);
    BaseOfLastElement(url, 20, |url|);
    var base := url[20..];
    assert base == "sample.git";
    assert HasSuffix(base, ".git") by { assert base[|base| - 4..] == ".git"; }
    assert base[..|base| - 4] == "sample";
  }

  /** A URL whose last element is just ".git" gives the empty destination. */
  lemma DotGitDestination()
    ensures Destination("https://h/.git", "") == ""
  {
    var url := "https://h/.git";
    assert IsLastElement(url, 10, |url|);
    BaseOfLastElement(url, 10, |url|);
    assert url[10..] == ".git";
  }

  /**
   * The reference named by --branch: refs/<branch> for "tags/..." when tags
   * are fetched at all, refs/heads/<branch> otherwise.
   */
  function BranchRef(branch: string, tags: string): (r: string)
    ensures r == "refs/" + branch <==> HasPrefix(branch, "tags/") && tags != "no"
    ensures r != "refs/" + branch ==> r == "refs/heads/" + branch
  {
    if HasPrefix(branch, "tags/") && tags != "no" then "refs/" + branch else "refs/heads/" + branch
  }

  /** The selected reference is a branch exactly when it is not a tag selection. */
  lemma BranchRefIsBranch(branch: string, tags: string)
    ensures IsBranch(BranchRef(branch, tags)) <==> !(HasPrefix(branch, "tags/") && tags != "no")
  {
    var r := BranchRef(branch, tags);
    if HasPrefix(branch, "tags/") && tags != "no" {
      assert r[5] == branch[0] == 't';
    } else {
      assert r[..11] == "refs/heads/";
    }
  }

  /** refs/remotes/<remote>/<branch>, the remote-tracking reference of the branch. */
  function RemoteTrackingName(remote: string, branch: string): (r: string)
    ensures |r| == 14 + |remote| + |branch|
    ensures HasPrefix(r, "refs/remotes/") && HasSuffix(r, "/" + branch)
    ensures r[13..|r| - |branch| - 1] == remote
  {
    var r := "refs/remotes/" + remote + "/" + branch;
    assert r[..13] == "refs/remotes/";
    assert r[|r| - |branch| - 1..] == "/" + branch;
    assert r[13..|r| - |branch| - 1] == remote;
    r
  }

  /**
   * For a remote name without '/', the first '/' after refs/remotes/ ends
   * the remote name: the tracking name splits back into remote and branch.
   */
  lemma RemoteTrackingNameSplits(remote: string, branch: string)
    requires '/' !in remote
    ensures var r := RemoteTrackingName(remote, branch);
      && r[13 + |remote|] == '/'
      && (forall i :: 13 <= i < 13 + |remote| ==> r[i] != '/')
      && r[13..13 + |remote|] == remote
      && r[14 + |remote|..] == branch
  {
    var r := RemoteTrackingName(remote, branch);
    assert r == "refs/remotes/" + remote + "/" + branch;
    forall i | 13 <= i < 13 + |remote| ensures r[i] != '/' {
      assert r[i] == remote[i - 13];
    }
    assert r[14 + |remote|..] == branch;
  }

  /**
   * The existing checkout is switched only when a branch was asked for and
   * the HEAD reference's name does not end with the branch text.
   */
  predicate NeedsCheckout(branch: string, headName: string) {
    |branch| > 0 && !HasSuffix(headName, branch)
  }

  /**
   * No checkout for any HEAD name that ends with the branch text: the
   * reference the branch selects, but also another branch such as
   * refs/heads/x-main when the branch is "main".
   */
  lemma NoCheckoutOnMatchingSuffix(branch: string, prefix: string)
    ensures !NeedsCheckout(branch, prefix + branch)
  {
    var name := prefix + branch;
    assert name[|name| - |branch|..] == branch;
  }

  /** HEAD already at the selected reference means no checkout. */
  lemma NoCheckoutOnSelectedRef(branch: string, tags: string)
    ensures !NeedsCheckout(branch, BranchRef(branch, tags))
  {
    if HasPrefix(branch, "tags/") && tags != "no" {
      NoCheckoutOnMatchingSuffix(branch, "refs/");
    } else {
      NoCheckoutOnMatchingSuffix(branch, "refs/heads/");
    }
  }

  /** CloneOptions.RecurseSubmodules and PullOptions.RecurseSubmodules under --recursive. */
  function Recursivity(recursive: bool): (r: SubmoduleRecursivity)
    ensures r == DefaultSubmoduleRecursionDepth <==> recursive
  {
    if recursive then DefaultSubmoduleRecursionDepth else NoRecurseSubmodules
  }

  /** The marker that makes the identity text be read as an inline PEM key. */
  const RsaKeyMarker: string := "RSA PRIVATE KEY"

  datatype IdentityKind = NoIdentity | InlineKey | KeyFile

  /** How --identity is used: not at all, as key bytes, or as the path of a key file. */
  function ClassifyIdentity(identity: string): (k: IdentityKind)
    ensures k == NoIdentity <==> identity == ""
    ensures k == InlineKey <==> identity != "" && exists i :: OccursAt(identity, RsaKeyMarker, i)
  {
    ContainsIffOccurs(identity, RsaKeyMarker);
    if |identity| == 0 then NoIdentity
    else if Contains(identity, RsaKeyMarker) then InlineKey
    else KeyFile
  }

  /** The credential main attaches when the key loads: none, or user "git" with the identity as key bytes or key file. */
  function IdentityAuth(identity: string): (a: Option<AuthMethod>)
    ensures a.None? <==> identity == ""
    ensures a.Some? ==> a.value.user == "git"
    ensures a.Some? ==> (a.value.source == PemBytes(identity) <==> ClassifyIdentity(identity) == InlineKey)
    ensures a.Some? ==> (a.value.source == PemFile(identity) <==> ClassifyIdentity(identity) == KeyFile)
  {
    match ClassifyIdentity(identity)
    case NoIdentity => None
    case InlineKey => Some(PublicKeys("git", PemBytes(identity)))
    case KeyFile => Some(PublicKeys("git", PemFile(identity)))
  }
}
