/**
 * The body of main in main.go, block by block, as it runs: fill the clone
 * options, clone, or on an existing repository open it, switch branch and
 * pull, then report the last commit. Each method returns the calls it made,
 * each with the provider's answer, and what checkIfError decided; each is
 * proved to make exactly the calls FlowSpec gives for its block.
 */
module CloneFlow {
  import opened Wrappers
  import opened GoStrings
  import opened GoGit
  import opened CloneArgs
  import opened FlowSpec

  /** Lines 61-70: with an identity, load the ssh key and keep it as the credential. */
  method SetUpIdentity(identity: string, keyErr: Option<Error>)
    returns (trace: seq<Step>, identityKey: Option<AuthMethod>, status: Status)
    ensures trace == KeySteps(identity, keyErr)
    ensures status == Continue <==> identity == "" || keyErr.None?
    ensures StopsAtFirstFatal(trace, status)
    ensures status == Continue ==> identityKey == IdentityAuth(identity)
  {
    trace, identityKey, status := [], None, Continue;
    if |identity| > 0 {
      trace := [Step(KeyLoadCall(identity), ErrReply(keyErr))];
      if keyErr.None? {
        identityKey := IdentityAuth(identity);
      }
      status := CheckIfError(keyErr);
    }
  }

  /** Lines 54-60, 69 and 71-88: fill git.CloneOptions field by field. */
  method FillCloneOptions(o: Opts, identityKey: Option<AuthMethod>) returns (co: CloneOptions, branchRef: string)
    ensures co == CloneOptionsOf(o, if |o.identity| > 0 then identityKey else None)
    ensures branchRef == BranchRef(o.branch, o.tags)
  {
    co := CloneOptions(o.repository, o.remoteName, "", o.singleBranch, o.depth, NoRecurseSubmodules, InvalidTagMode, None);
    if |o.identity| > 0 {
      co := co.(auth := identityKey);
    }
    branchRef := BranchRef(o.branch, o.tags);
    if |o.branch| > 0 {
      co := co.(referenceName := branchRef);
    }
    if o.recursive {
      co := co.(recurseSubmodules := DefaultSubmoduleRecursionDepth);
    }
    co := co.(tags := CloneTagMode(o.tags));
  }

  /**
   * Lines 104-125: switch the existing checkout to the requested branch,
   * falling back to a new local branch at the remote-tracking reference,
   * then read HEAD again.
   */
  method SwitchBranch(o: Opts, branchRef: string, head: Ref, p: Provider)
    returns (trace: seq<Step>, status: Status, current: Ref)
    ensures trace == SwitchSteps(o, branchRef, head, p)
    ensures status == Continue <==> SwitchSucceeds(o, head, p)
    ensures StopsAtFirstFatal(trace, status)
    ensures status == Continue ==> current == SwitchedHead(o, head, p)
  {
    trace, status, current := [], Continue, head;
    if |o.branch| > 0 && !HasSuffix(head.name, o.branch) {
      var first := Step(FirstCheckout(branchRef), ErrReply(p.checkoutErr));
      if p.checkoutErr == Some(ErrReferenceNotFound) {
        var lookup := Step(TrackingLookup(o), RefReply(p.remoteRef));
        status := CheckIfError(ErrorOf(p.remoteRef));
        if status.Exit? {
          trace := [first, lookup];
          return;
        }
        var create := Step(CreatingCheckout(branchRef, p.remoteRef.value.hash), ErrReply(p.createErr));
        trace := [first, lookup, create];
        status := CheckIfError(p.createErr);
      } else {
        trace := [first];
        status := CheckIfError(p.checkoutErr);
      }
      if status.Exit? {
        return;
      }
      trace := trace + [Step(Head, RefReply(p.headAfter))];
      status := CheckIfError(ErrorOf(p.headAfter));
      if status.Exit? {
        return;
      }
      current := p.headAfter.value;
    }
  }

  /** Lines 127-148: pull into the current branch when --pull is set and HEAD is a branch. */
  method PullHead(o: Opts, identityKey: Option<AuthMethod>, current: Ref, p: Provider)
    returns (trace: seq<Step>, status: Status)
    ensures trace == PullSteps(o, identityKey, current, p)
    ensures status == Continue <==> PullSucceeds(o, current, p)
    ensures StopsAtFirstFatal(trace, status)
  {
    trace, status := [], Continue;
    if o.pull && IsBranch(current.name) {
      var po := PullOptions(o.remoteName, current.name, o.depth, o.singleBranch, NoRecurseSubmodules, None);
      if |o.identity| > 0 {
        po := po.(auth := identityKey);
      }
      if o.recursive {
        po := po.(recurseSubmodules := DefaultSubmoduleRecursionDepth);
      }
      trace := [Step(Pull(po), ErrReply(p.pullErr))];
      if p.pullErr == Some(NoErrAlreadyUpToDate) {
        status := Continue;
      } else {
        status := CheckIfError(p.pullErr);
      }
    }
  }

  /** Lines 92-148: the clone target already holds a repository; open it, switch branch, pull. */
  method OpenExisting(o: Opts, dest: string, branchRef: string, identityKey: Option<AuthMethod>, p: Provider)
    returns (trace: seq<Step>, status: Status)
    ensures trace == OpenSteps(o, dest, branchRef, identityKey, p)
    ensures status == Continue <==> OpenSucceeds(o, p)
    ensures StopsAtFirstFatal(trace, status)
  {
    var open := Step(PlainOpen(dest), ErrReply(p.openErr));
    status := CheckIfError(p.openErr);
    if status.Exit? {
      return [open], status;
    }
    var worktree := Step(Worktree, ErrReply(p.worktreeErr));
    status := CheckIfError(p.worktreeErr);
    if status.Exit? {
      return [open, worktree], status;
    }
    var readHead := Step(Head, RefReply(p.head));
    status := CheckIfError(ErrorOf(p.head));
    if status.Exit? {
      return [open, worktree, readHead], status;
    }
    var switchTrace, current;
    switchTrace, status, current := SwitchBranch(o, branchRef, p.head.value, p);
    StopsAtFirstFatalAppend([open, worktree, readHead], switchTrace, status);
    trace := [open, worktree, readHead] + switchTrace;
    if status.Exit? {
      return;
    }
    var pullTrace;
    pullTrace, status := PullHead(o, identityKey, current, p);
    StopsAtFirstFatalAppend(trace, pullTrace, status);
    trace := trace + pullTrace;
  }

  /** Lines 153-169: with --last, show HEAD's branch and commit, reopening the repository when there is no handle. */
  method ShowLastCommit(dest: string, haveHandle: bool, p: Provider)
    returns (trace: seq<Step>, status: Status, shown: Option<string>)
    ensures trace == LastSteps(dest, haveHandle, p)
    ensures status == Continue <==> LastSucceeds(haveHandle, p)
    ensures StopsAtFirstFatal(trace, status)
    ensures shown == if ReachesLastHead(haveHandle, p) then Some(Base(p.lastHead.value.name)) else None
  {
    var reopen := if haveHandle then [] else [Step(PlainOpen(dest), ErrReply(p.reopenErr))];
    shown := None;
    if !haveHandle {
      status := CheckIfError(p.reopenErr);
      if status.Exit? {
        return reopen, status, shown;
      }
    }
    var readHead := Step(Head, RefReply(p.lastHead));
    status := CheckIfError(ErrorOf(p.lastHead));
    if status.Exit? {
      return reopen + [readHead], status, shown;
    }
    shown := Some(Base(p.lastHead.value.name));
    trace := reopen + [readHead, Step(CommitObject(p.lastHead.value.hash), ErrReply(p.commitErr))];
    status := CheckIfError(p.commitErr);
  }

  /**
   * Lines 54-151 once the key is loaded: fill the clone options and clone;
   * when the destination already holds a repository, open it, switch branch
   * and pull instead.
   */
  method CloneOrOpen(o: Opts, dest: string, identityKey: Option<AuthMethod>, p: Provider)
    returns (trace: seq<Step>, status: Status)
    requires dest == Destination(o.repository, o.directory)
    requires identityKey == IdentityAuth(o.identity)
    ensures trace == CloneStageSteps(o, p)
    ensures status == Continue <==> CloneStageSucceeds(o, p)
    ensures StopsAtFirstFatal(trace, status)
  {
    var co, branchRef := FillCloneOptions(o, identityKey);
    var clone := Step(PlainClone(dest, false, co), ErrReply(p.cloneErr));
    assert clone == CloneStep(o, p);
    if p.cloneErr == Some(ErrRepositoryAlreadyExists) {
      var existing;
      existing, status := OpenExisting(o, dest, branchRef, identityKey, p);
      StopsAtFirstFatalAppend([clone], existing, status);
      trace := [clone] + existing;
    } else {
      trace := [clone];
      status := CheckIfError(p.cloneErr);
    }
  }

  /**
   * main (lines 41-169): parse, load the key, clone, or on an existing
   * repository open, switch branch and pull, then show the last commit.
   * Returns the calls made, the exit code and the branch name shown by --last.
   */
  method Run(args: ParseResult, p: Provider) returns (trace: seq<Step>, code: int, shown: Option<string>)
    ensures trace == MainSteps(args, p)
    ensures code == if MainSucceeds(args, p) then 0 else 1
    ensures StopsAtFirstFatal(trace, if code == 0 then Continue else Exit(1))
    ensures shown == ShownBranch(args, p)
  {
    trace, code, shown := [], 0, None;
    if !Accepted(args) {
      return;
    }
    var o := args.opts;
    var dest := Destination(o.repository, o.directory);
    var status, identityKey;
    trace, identityKey, status := SetUpIdentity(o.identity, p.keyErr);
    if status.Exit? {
      code := 1;
      return;
    }
    var stage;
    stage, status := CloneOrOpen(o, dest, identityKey, p);
    StopsAtFirstFatalAppend(trace, stage, status);
    trace := trace + stage;
    if status.Exit? {
      code := 1;
      return;
    }
    if o.lastCommit {
      var last;
      last, status, shown := ShowLastCommit(dest, p.cloneErr.None?, p);
      StopsAtFirstFatalAppend(trace, last, status);
      trace := trace + last;
      if status.Exit? {
        code := 1;
      }
    }
  }
}
