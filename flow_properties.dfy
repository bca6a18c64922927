/**
 * What main promises, proved of the call sequences FlowSpec gives: when a
 * checkout, a fallback and a pull happen and with what, which clone outcome
 * leads where, what --last reports, and that main exits 0 when every call
 * succeeds.
 */
module FlowProperties {
  import opened Wrappers
  import opened GoStrings
  import opened GoGit
  import opened CloneArgs
  import opened FlowSpec

  /** The calls the branch switch makes: checkouts, the lookup, the HEAD read. */
  predicate SwitchCall(c: Call) {
    c.Checkout? || c.Reference? || c.Head?
  }

  /**
   * Line 104: the switch checks out exactly when a branch was asked for and
   * HEAD's name does not end with it, and then the forced checkout of the
   * selected reference comes first.
   */
  lemma SwitchChecksOutIffNeeded(o: Opts, branchRef: string, head: Ref, p: Provider)
    ensures var t := SwitchSteps(o, branchRef, head, p);
      && (t != [] <==> NeedsCheckout(o.branch, head.name))
      && (t != [] ==> t[0] == Step(FirstCheckout(branchRef), ErrReply(p.checkoutErr)))
      && (forall i :: 0 <= i < |t| ==> SwitchCall(t[i].call))
  {
  }

  /**
   * Lines 110-119: after reference-not-found, the remote-tracking reference
   * is looked up and, when found, the branch is created at its hash by a
   * forced checkout; the lookup and the creating checkout happen only then.
   */
  lemma SwitchFallsBackOnlyAfterNotFound(o: Opts, branchRef: string, head: Ref, p: Provider)
    ensures var t := SwitchSteps(o, branchRef, head, p);
      && (NeedsCheckout(o.branch, head.name) && p.checkoutErr == Some(ErrReferenceNotFound) ==>
            && |t| >= 2
            && t[1] == Step(Reference(RemoteTrackingName(o.remoteName, o.branch), true), RefReply(p.remoteRef))
            && (p.remoteRef.Ok? ==>
                  |t| >= 3 &&
                  t[2] == Step(Checkout(CheckoutOptions(branchRef, Some(p.remoteRef.value.hash), true, true)), ErrReply(p.createErr))))
      && (forall i :: 0 <= i < |t| && (t[i].call.Reference? || (t[i].call.Checkout? && t[i].call.checkout.create)) ==>
            p.checkoutErr == Some(ErrReferenceNotFound))
  {
  }

  /** Lines 123-124: a switch that went on re-read HEAD as its last call, and HEAD is that answer. */
  lemma SwitchEndsReadingHead(o: Opts, branchRef: string, head: Ref, p: Provider)
    requires NeedsCheckout(o.branch, head.name) && SwitchSucceeds(o, head, p)
    ensures var t := SwitchSteps(o, branchRef, head, p);
      && t[|t| - 1] == Step(Head, GotRef(p.headAfter.value))
      && SwitchedHead(o, head, p) == p.headAfter.value
  {
  }

  /**
   * Lines 95-104: on an existing repository main opens it, reads the
   * worktree and HEAD, and the forced checkout is the fourth call exactly
   * when the switch is needed; otherwise there is no checkout at all.
   */
  lemma {:induction false} OpenChecksOutIffNeeded(o: Opts, dest: string, branchRef: string, identityKey: Option<AuthMethod>, p: Provider)
    requires ReachesHead(p)
    ensures var t := OpenSteps(o, dest, branchRef, identityKey, p);
      && |t| >= 3
      && t[..3] == [Step(PlainOpen(dest), Done), Step(Worktree, Done), Step(Head, GotRef(p.head.value))]
      && (|t| > 3 && t[3].call == FirstCheckout(branchRef) <==> NeedsCheckout(o.branch, p.head.value.name))
      && (!NeedsCheckout(o.branch, p.head.value.name) ==> forall i :: 0 <= i < |t| ==> !t[i].call.Checkout?)
  {
    var t := OpenSteps(o, dest, branchRef, identityKey, p);
    var head := p.head.value;
    var pull := if SwitchSucceeds(o, head, p) then PullSteps(o, identityKey, SwitchedHead(o, head, p), p) else [];
    assert t == [Step(PlainOpen(dest), Done), Step(Worktree, Done), Step(Head, GotRef(head))]
                + SwitchSteps(o, branchRef, head, p) + pull;
    if !NeedsCheckout(o.branch, head.name) {
      assert SwitchSteps(o, branchRef, head, p) == [];
      forall i | 0 <= i < |t| ensures !t[i].call.Checkout? {
        if i >= 3 {
          assert t[i] == pull[i - 3];
        }
      }
    }
  }

  /**
   * Lines 127-142: a pull is only ever the last call of the open-existing
   * block; it happens exactly when HEAD was read, the switch went on and a
   * pull is due, and it asks for HEAD after the switch with the flags'
   * remote, depth, single-branch and recursion settings and the credential.
   */
  lemma {:induction false} OpenPullsOnlyWhenDue(o: Opts, dest: string, branchRef: string, identityKey: Option<AuthMethod>, p: Provider)
    ensures var t := OpenSteps(o, dest, branchRef, identityKey, p);
      && (forall i :: 0 <= i < |t| && t[i].call.Pull? ==>
            && i == |t| - 1
            && ReachesHead(p) && SwitchSucceeds(o, p.head.value, p)
            && PullDue(o, SwitchedHead(o, p.head.value, p))
            && t[i].call.pull == PullOptionsFor(o, identityKey, SwitchedHead(o, p.head.value, p)))
      && (ReachesHead(p) && SwitchSucceeds(o, p.head.value, p) ==>
            (t[|t| - 1].call.Pull? <==> PullDue(o, SwitchedHead(o, p.head.value, p))))
  {
    var t := OpenSteps(o, dest, branchRef, identityKey, p);
    if ReachesHead(p) {
      var head := p.head.value;
      var sw := SwitchSteps(o, branchRef, head, p);
      SwitchChecksOutIffNeeded(o, branchRef, head, p);
      var pull := if SwitchSucceeds(o, head, p) then PullSteps(o, identityKey, SwitchedHead(o, head, p), p) else [];
      var prefix := [Step(PlainOpen(dest), Done), Step(Worktree, Done), Step(Head, GotRef(head))] + sw;
      assert t == prefix + pull;
      forall i | 0 <= i < |prefix| ensures !t[i].call.Pull? {
        assert t[i] == prefix[i];
        if i >= 3 {
          assert prefix[i] == sw[i - 3];
        }
      }
      forall i | |prefix| <= i < |t| ensures t[i] == pull[i - |prefix|] {
      }
      if SwitchSucceeds(o, head, p) && !PullDue(o, SwitchedHead(o, head, p)) {
        assert t == prefix;
        assert !prefix[|prefix| - 1].call.Pull?;
      }
    }
  }

  /** Lines 42-45: a failed parse, a bad --tags choice or --help included, makes no call and exits 0. */
  lemma ParseErrorExitsZero(args: ParseResult, p: Provider)
    requires !Accepted(args)
    ensures MainSteps(args, p) == [] && MainSucceeds(args, p) && ShownBranch(args, p) == None
  {
  }

  /** Line 68: a key that does not load is the only call, and main exits 1. */
  lemma KeyErrorExitsOne(args: ParseResult, p: Provider)
    requires Accepted(args) && !KeyLoads(args.opts, p)
    ensures MainSteps(args, p) == [Step(KeyLoadCall(args.opts.identity), Raised(p.keyErr.value))]
    ensures !MainSucceeds(args, p)
  {
  }

  /**
   * Lines 90-92 and 149-151: a clone that succeeds skips the open-existing
   * block: after the key load and the clone only --last's calls follow, and
   * there is no worktree, checkout, lookup or pull.
   */
  lemma {:induction false} ClonedSkipsExisting(args: ParseResult, p: Provider)
    requires Accepted(args) && KeyLoads(args.opts, p) && p.cloneErr.None?
    ensures var o := args.opts;
      MainSteps(args, p) == KeySteps(o.identity, p.keyErr) + [CloneStep(o, p)]
        + if o.lastCommit then LastSteps(Destination(o.repository, o.directory), true, p) else []
    ensures var t := MainSteps(args, p);
      forall i :: 0 <= i < |t| ==>
        !t[i].call.Worktree? && !t[i].call.Checkout? && !t[i].call.Reference? && !t[i].call.Pull?
  {
    var o := args.opts;
    var key := KeySteps(o.identity, p.keyErr);
    var last := if o.lastCommit then LastSteps(Destination(o.repository, o.directory), true, p) else [];
    var t := MainSteps(args, p);
    MainStepsBlocks(args, p);
    assert t == key + [CloneStep(o, p)] + [] + last;
    assert t == key + [CloneStep(o, p)] + last;
    forall i | 0 <= i < |t|
      ensures !t[i].call.Worktree? && !t[i].call.Checkout? && !t[i].call.Reference? && !t[i].call.Pull?
    {
      if i < |key| {
        assert t[i] == key[i];
      } else if i > |key| {
        assert t[i] == last[i - |key| - 1];
      }
    }
  }

  /** Where the clone sits in main's calls: after the key load when there is an identity. */
  function CloneIndex(o: Opts): nat {
    if |o.identity| > 0 then 1 else 0
  }

  /**
   * Lines 90-95: when the destination already holds a repository, the
   * open-existing block follows the clone, starting with PlainOpen of the
   * destination.
   */
  lemma {:induction false} AlreadyExistsOpensExisting(args: ParseResult, p: Provider)
    requires Accepted(args) && KeyLoads(args.opts, p) && p.cloneErr == Some(ErrRepositoryAlreadyExists)
    ensures var o := args.opts; var t := MainSteps(args, p); var k := CloneIndex(o);
      var dest := Destination(o.repository, o.directory);
      var open := OpenSteps(o, dest, BranchRef(o.branch, o.tags), IdentityAuth(o.identity), p);
      && |t| >= k + 1 + |open|
      && t[k] == CloneStep(o, p)
      && t[k + 1..k + 1 + |open|] == open
      && t[k + 1] == Step(PlainOpen(dest), ErrReply(p.openErr))
  {
    var o := args.opts;
    var dest := Destination(o.repository, o.directory);
    var open := OpenSteps(o, dest, BranchRef(o.branch, o.tags), IdentityAuth(o.identity), p);
    var last := if o.lastCommit && CloneStageSucceeds(o, p) then LastSteps(dest, false, p) else [];
    var a := KeySteps(o.identity, p.keyErr) + [CloneStep(o, p)];
    MainStepsBlocks(args, p);
    assert MainSteps(args, p) == a + open + last;
    assert |a| == CloneIndex(o) + 1 && a[CloneIndex(o)] == CloneStep(o, p);
    ThreeBlocks(a, open, last);
  }

  /** Line 150: any other clone error ends main after the clone with exit 1. */
  lemma OtherCloneErrorExitsOne(args: ParseResult, p: Provider)
    requires Accepted(args) && KeyLoads(args.opts, p)
    requires p.cloneErr.Some? && p.cloneErr != Some(ErrRepositoryAlreadyExists)
    ensures MainSteps(args, p) == KeySteps(args.opts.identity, p.keyErr) + [CloneStep(args.opts, p)]
    ensures !MainSucceeds(args, p)
  {
  }

  /** The calls of an accepted run whose key loaded, block by block. */
  lemma MainStepsBlocks(args: ParseResult, p: Provider)
    requires Accepted(args) && KeyLoads(args.opts, p)
    ensures var o := args.opts; var dest := Destination(o.repository, o.directory);
      MainSteps(args, p) ==
        KeySteps(o.identity, p.keyErr) + [CloneStep(o, p)]
        + (if p.cloneErr == Some(ErrRepositoryAlreadyExists)
           then OpenSteps(o, dest, BranchRef(o.branch, o.tags), IdentityAuth(o.identity), p) else [])
        + (if o.lastCommit && CloneStageSucceeds(o, p) then LastSteps(dest, p.cloneErr.None?, p) else [])
  {
    var o := args.opts;
    var dest := Destination(o.repository, o.directory);
    var key := KeySteps(o.identity, p.keyErr);
    var clone := [CloneStep(o, p)];
    var open := if p.cloneErr == Some(ErrRepositoryAlreadyExists)
      then OpenSteps(o, dest, BranchRef(o.branch, o.tags), IdentityAuth(o.identity), p) else [];
    var last := if o.lastCommit && CloneStageSucceeds(o, p) then LastSteps(dest, p.cloneErr.None?, p) else [];
    assert CloneStageSteps(o, p) == clone + open;
    assert MainSteps(args, p) == key + (clone + open) + last;
    assert key + (clone + open) == key + clone + open;
  }

  /** No step of `t` is a pull. */
  predicate NoPull(t: seq<Step>) {
    forall i :: 0 <= i < |t| ==> !t[i].call.Pull?
  }

  /** Each step of `a + b + c` is the step of the block it falls in. */
  lemma ThreeBlocks(a: seq<Step>, b: seq<Step>, c: seq<Step>)
    ensures var t := a + b + c;
      && |t| == |a| + |b| + |c|
      && t[|a|..|a| + |b|] == b
      && (forall i :: 0 <= i < |a| ==> t[i] == a[i])
      && (forall i :: |a| <= i < |a| + |b| ==> t[i] == b[i - |a|])
      && (forall i :: |a| + |b| <= i < |t| ==> t[i] == c[i - |a| - |b|])
  {
  }

  /** A pull in `a + b + c`, when `a` and `c` hold none, is a step of `b`. */
  lemma PullInMiddle(a: seq<Step>, b: seq<Step>, c: seq<Step>)
    requires NoPull(a) && NoPull(c)
    ensures var t := a + b + c;
      forall i :: 0 <= i < |t| && t[i].call.Pull? ==> |a| <= i < |a| + |b| && t[i] == b[i - |a|]
  {
    ThreeBlocks(a, b, c);
  }

  /**
   * Lines 69, 127 and 136-138: main pulls only on a repository that was
   * already there, and the pull carries the clone's credential.
   */
  lemma {:induction false} PullOnlyOnExistingWithCloneCredential(args: ParseResult, p: Provider)
    ensures var t := MainSteps(args, p);
      forall i :: 0 <= i < |t| && t[i].call.Pull? ==>
        && Accepted(args)
        && p.cloneErr == Some(ErrRepositoryAlreadyExists)
        && t[i].call.pull.auth == IdentityAuth(args.opts.identity)
        && t[i].call.pull.auth == CloneStep(args.opts, p).call.options.auth
  {
    var t := MainSteps(args, p);
    if !Accepted(args) || !KeyLoads(args.opts, p) {
      assert NoPull(t);
      return;
    }
    var o := args.opts;
    var dest := Destination(o.repository, o.directory);
    var auth := IdentityAuth(o.identity);
    var a := KeySteps(o.identity, p.keyErr) + [CloneStep(o, p)];
    var b := if p.cloneErr == Some(ErrRepositoryAlreadyExists)
      then OpenSteps(o, dest, BranchRef(o.branch, o.tags), auth, p) else [];
    var c := if o.lastCommit && CloneStageSucceeds(o, p) then LastSteps(dest, p.cloneErr.None?, p) else [];
    MainStepsBlocks(args, p);
    assert t == a + b + c;
    assert NoPull(a);
    assert NoPull(c);
    OpenPullsOnlyWhenDue(o, dest, BranchRef(o.branch, o.tags), auth, p);
    assert (if |o.identity| > 0 then auth else None) == auth;
    PullInMiddle(a, b, c);
  }

  /**
   * Lines 153-166: with --last and exit 0, main ends reading HEAD and the
   * commit it names; the call before is a PlainOpen exactly when the clone
   * found the repository already there (the clone handle is then nil), and
   * the branch shown is the last element of HEAD's name.
   */
  lemma {:induction false} LastCommitReport(args: ParseResult, p: Provider)
    requires Accepted(args) && args.opts.lastCommit && MainSucceeds(args, p)
    ensures var t := MainSteps(args, p);
      && |t| >= 3
      && t[|t| - 2] == Step(Head, GotRef(p.lastHead.value))
      && t[|t| - 1] == Step(CommitObject(p.lastHead.value.hash), Done)
      && (t[|t| - 3].call.PlainOpen? <==> p.cloneErr == Some(ErrRepositoryAlreadyExists))
      && ShownBranch(args, p) == Some(Base(p.lastHead.value.name))
  {
    var o := args.opts;
    var dest := Destination(o.repository, o.directory);
    var stage := KeySteps(o.identity, p.keyErr) + CloneStageSteps(o, p);
    var last := LastSteps(dest, p.cloneErr.None?, p);
    var t := MainSteps(args, p);
    assert t == stage + last;
    if p.cloneErr.None? {
      assert CloneStageSteps(o, p) == [CloneStep(o, p)];
      assert |last| == 2;
      assert t[|t| - 3] == CloneStep(o, p);
    } else {
      assert |last| == 3;
      assert t[|t| - 3] == last[0];
    }
  }

  /** Every call main can make answered without error. */
  predicate AllAnswersOk(p: Provider) {
    && p.keyErr.None? && p.cloneErr.None? && p.openErr.None? && p.worktreeErr.None? && p.head.Ok?
    && p.checkoutErr.None? && p.remoteRef.Ok? && p.createErr.None? && p.headAfter.Ok? && p.pullErr.None?
    && p.reopenErr.None? && p.lastHead.Ok? && p.commitErr.None?
  }

  /** When no call fails, main exits 0. */
  lemma AllAnswersOkExitsZero(args: ParseResult, p: Provider)
    requires AllAnswersOk(p)
    ensures MainSucceeds(args, p)
  {
  }

  /**
   * The usual run: `git-clone https://example.com/sample.git` with no other
   * flag clones into "sample" with remote "origin" and all tags, makes no
   * other call, and exits 0.
   */
  lemma SampleCloneScenario(p: Provider)
    requires p.cloneErr.None?
    ensures var url := "https://example.com/sample.git";
      var args := Parsed(Opts(url, "", "", false, false, "origin", "", false, 0, "all", false));
      && MainSteps(args, p) ==
         [Step(PlainClone("sample", false, CloneOptions(url, "origin", "", false, 0, NoRecurseSubmodules, AllTags, None)), Done)]
      && MainSucceeds(args, p)
  {
    SampleDestination();
  }

  /** The switch of the release scenario: not found, looked up, created at h2, HEAD re-read. */
  lemma ReleaseSwitch(o: Opts, h1: Hash, h2: Hash, p: Provider)
    requires o.branch == "release" && o.remoteName == "origin"
    requires p.checkoutErr == Some(ErrReferenceNotFound)
    requires p.remoteRef == Ok(Ref("refs/remotes/origin/release", h2)) && p.createErr.None?
    requires p.headAfter == Ok(Ref("refs/heads/release", h2))
    ensures SwitchSteps(o, "refs/heads/release", Ref("refs/heads/main", h1), p) ==
      [ Step(Checkout(CheckoutOptions("refs/heads/release", None, false, true)), Raised(ErrReferenceNotFound)),
        Step(Reference("refs/remotes/origin/release", true), GotRef(Ref("refs/remotes/origin/release", h2))),
        Step(Checkout(CheckoutOptions("refs/heads/release", Some(h2), true, true)), Done),
        Step(Head, GotRef(Ref("refs/heads/release", h2))) ]
    ensures SwitchSucceeds(o, Ref("refs/heads/main", h1), p)
    ensures SwitchedHead(o, Ref("refs/heads/main", h1), p) == Ref("refs/heads/release", h2)
  {
    var main := "refs/heads/main";
    assert NeedsCheckout(o.branch, main) by {
      assert main[|main| - 1] != o.branch[|o.branch| - 1];
    }
    assert RemoteTrackingName("origin", "release") == "refs/remotes/origin/release";
  }

  /** The release branch's name is a branch reference. */
  lemma ReleaseIsBranch()
    ensures BranchRef("release", "all") == "refs/heads/release"
    ensures IsBranch("refs/heads/release")
  {
    var release := "release";
    assert !HasPrefix(release, "tags/") by { assert release[0] != "tags/"[0]; }
    var name := "refs/heads/release";
    assert name[..11] == "refs/heads/";
  }

  /**
   * `git-clone <url> <dir> --branch release --pull` on a checkout of main
   * whose local release branch is missing: main opens the repository,
   * creates release at origin/release, re-reads HEAD, pulls release and
   * exits 0.
   */
  lemma ReleaseBranchScenario(url: string, dir: string, h1: Hash, h2: Hash, p: Provider)
    requires dir != ""
    requires p.cloneErr == Some(ErrRepositoryAlreadyExists)
    requires p.openErr.None? && p.worktreeErr.None? && p.head == Ok(Ref("refs/heads/main", h1))
    requires p.checkoutErr == Some(ErrReferenceNotFound)
    requires p.remoteRef == Ok(Ref("refs/remotes/origin/release", h2)) && p.createErr.None?
    requires p.headAfter == Ok(Ref("refs/heads/release", h2)) && p.pullErr.None?
    ensures var args := Parsed(Opts(url, dir, "", false, true, "origin", "release", false, 0, "all", false));
      && MainSteps(args, p) ==
         [ Step(PlainClone(dir, false, CloneOptions(url, "origin", "refs/heads/release", false, 0, NoRecurseSubmodules, AllTags, None)),
                Raised(ErrRepositoryAlreadyExists)),
           Step(PlainOpen(dir), Done),
           Step(Worktree, Done),
           Step(Head, GotRef(Ref("refs/heads/main", h1))),
           Step(Checkout(CheckoutOptions("refs/heads/release", None, false, true)), Raised(ErrReferenceNotFound)),
           Step(Reference("refs/remotes/origin/release", true), GotRef(Ref("refs/remotes/origin/release", h2))),
           Step(Checkout(CheckoutOptions("refs/heads/release", Some(h2), true, true)), Done),
           Step(Head, GotRef(Ref("refs/heads/release", h2))),
           Step(Pull(PullOptions("origin", "refs/heads/release", 0, false, NoRecurseSubmodules, None)), Done) ]
      && MainSucceeds(args, p)
  {
    var o := Opts(url, dir, "", false, true, "origin", "release", false, 0, "all", false);
    var branchRef := "refs/heads/release";
    var main := Ref("refs/heads/main", h1);
    var current := Ref("refs/heads/release", h2);
    ReleaseIsBranch();
    ReleaseSwitch(o, h1, h2, p);
    var switch := SwitchSteps(o, branchRef, main, p);
    var pull := Step(Pull(PullOptions("origin", branchRef, 0, false, NoRecurseSubmodules, None)), Done);
    assert PullSteps(o, None, current, p) == [pull];
    var open := OpenSteps(o, dir, branchRef, None, p);
    assert open == [Step(PlainOpen(dir), Done), Step(Worktree, Done), Step(Head, GotRef(main))] + switch + [pull];
    assert OpenSucceeds(o, p);
    assert CloneStageSteps(o, p) == [CloneStep(o, p)] + open;
  }

  /** For a branch name without slashes, the branch shown is the branch itself. */
  lemma ShownBranchOfPlainBranch(branch: string)
    requires branch != [] && '/' !in branch
    ensures Base("refs/heads/" + branch) == branch
  {
    var name := "refs/heads/" + branch;
    forall i | 11 <= i < |name| ensures name[i] != '/' {
      assert name[i] == branch[i - 11];
    }
    assert IsLastElement(name, 11, |name|);
    BaseOfLastElement(name, 11, |name|);
    assert name[11..] == branch;
  }
}
