/**
 * What the body of main in main.go does, stated as values. For each block
 * of main there is the exact sequence of go-git calls it makes, each with
 * the provider's answer, and a predicate saying when the block lets the
 * program go on. checkIfError is built into every sequence: it stops right
 * after the first step whose error main does not recover from.
 */
module FlowSpec {
  import opened Wrappers
  import opened GoStrings
  import opened GoGit
  import opened CloneArgs

  /** After a checkIfError: carry on, or the process exits with a code. */
  datatype Status = Continue | Exit(code: int)

  /** checkIfError: nil lets the program go on, any error exits with status 1. */
  function CheckIfError(err: Option<Error>): (s: Status)
    ensures s == Continue <==> err.None?
    ensures s != Continue ==> s == Exit(1)
  {
    if err.None? then Continue else Exit(1)
  }

  /**
   * The trace ends at its first fatal step: no earlier step is fatal, and
   * the status is Exit(1) exactly when the last step is.
   */
  predicate StopsAtFirstFatal(trace: seq<Step>, status: Status) {
    && (status == Continue || status == Exit(1))
    && (forall i :: 0 <= i < |trace| - 1 ==> !Fatal(trace[i]))
    && (status == Exit(1) <==> |trace| > 0 && Fatal(trace[|trace| - 1]))
  }

  lemma {:induction false} StopsAtFirstFatalAppend(t1: seq<Step>, t2: seq<Step>, status: Status)
    requires StopsAtFirstFatal(t1, Continue) && StopsAtFirstFatal(t2, status)
    ensures StopsAtFirstFatal(t1 + t2, status)
  {
    var t := t1 + t2;
    forall i | 0 <= i < |t| - 1 ensures !Fatal(t[i]) {
      if i < |t1| {
        assert t[i] == t1[i];
      } else {
        assert t[i] == t2[i - |t1|];
      }
    }
    if |t2| > 0 {
      assert t[|t| - 1] == t2[|t2| - 1];
    } else {
      assert t == t1;
    }
  }

  // Lines 61-70: the identity.

  /** Lines 63-67: the key is parsed from the identity text when it holds an RSA PEM block, else read from the file it names. */
  function KeyLoadCall(identity: string): Call {
    if Contains(identity, RsaKeyMarker) then NewPublicKeys("git", identity, "")
    else NewPublicKeysFromFile("git", identity, "")
  }

  /** The key load matches the identity's classification. */
  lemma KeyLoadCallByKind(identity: string)
    requires identity != ""
    ensures ClassifyIdentity(identity) == InlineKey <==> KeyLoadCall(identity) == NewPublicKeys("git", identity, "")
    ensures ClassifyIdentity(identity) == KeyFile <==> KeyLoadCall(identity) == NewPublicKeysFromFile("git", identity, "")
  {
  }

  /** The calls made for the identity: none without one, else the key load. */
  function KeySteps(identity: string, keyErr: Option<Error>): seq<Step> {
    if identity == "" then [] else [Step(KeyLoadCall(identity), ErrReply(keyErr))]
  }

  /** The identity is absent, or its key loaded: main goes on to clone. */
  predicate KeyLoads(o: Opts, p: Provider) {
    o.identity == "" || p.keyErr.None?
  }

  // Lines 54-60, 69 and 71-88: the clone options.

  /** The clone options for the flags and the credential `auth`. */
  function CloneOptionsOf(o: Opts, auth: Option<AuthMethod>): CloneOptions {
    CloneOptions(
      o.repository, o.remoteName,
      if |o.branch| > 0 then BranchRef(o.branch, o.tags) else "",
      o.singleBranch, o.depth, Recursivity(o.recursive), CloneTagMode(o.tags), auth)
  }

  /**
   * The clone options name a reference exactly when a branch was asked for,
   * and then the selected one; an accepted --tags value always gives a
   * library tag mode.
   */
  lemma CloneOptionsFollowFlags(o: Opts, auth: Option<AuthMethod>)
    requires o.tags in TagChoices
    ensures var co := CloneOptionsOf(o, auth);
      && (co.referenceName != "" <==> o.branch != "")
      && (o.branch != "" ==> co.referenceName == BranchRef(o.branch, o.tags))
      && co.tags != InvalidTagMode
      && (co.recurseSubmodules == DefaultSubmoduleRecursionDepth <==> o.recursive)
  {
  }

  // Lines 104-125: the branch switch on an existing repository.

  /** The forced checkout of the selected reference (lines 106-109). */
  function FirstCheckout(branchRef: string): Call {
    Checkout(CheckoutOptions(branchRef, None, false, true))
  }

  /** The forced checkout that creates the local branch at `hash` (lines 113-118). */
  function CreatingCheckout(branchRef: string, hash: Hash): Call {
    Checkout(CheckoutOptions(branchRef, Some(hash), true, true))
  }

  /** The lookup of the remote-tracking reference (line 111). */
  function TrackingLookup(o: Opts): Call {
    Reference(RemoteTrackingName(o.remoteName, o.branch), true)
  }

  /** The calls of lines 104-125 for HEAD `head`. */
  function SwitchSteps(o: Opts, branchRef: string, head: Ref, p: Provider): seq<Step> {
    if !NeedsCheckout(o.branch, head.name) then []
    else
      var first := Step(FirstCheckout(branchRef), ErrReply(p.checkoutErr));
      var reread := Step(Head, RefReply(p.headAfter));
      if p.checkoutErr == Some(ErrReferenceNotFound) then
        var lookup := Step(TrackingLookup(o), RefReply(p.remoteRef));
        if p.remoteRef.Err? then [first, lookup]
        else
          var create := Step(CreatingCheckout(branchRef, p.remoteRef.value.hash), ErrReply(p.createErr));
          if p.createErr.Some? then [first, lookup, create] else [first, lookup, create, reread]
      else if p.checkoutErr.Some? then [first]
      else [first, reread]
  }

  /**
   * The switch lets main go on: no checkout was due, or the checkout (or,
   * after reference-not-found, the lookup and the creating checkout) and
   * the second HEAD read succeeded.
   */
  predicate SwitchSucceeds(o: Opts, head: Ref, p: Provider) {
    || !NeedsCheckout(o.branch, head.name)
    || (&& (if p.checkoutErr == Some(ErrReferenceNotFound) then p.remoteRef.Ok? && p.createErr.None?
            else p.checkoutErr.None?)
        && p.headAfter.Ok?)
  }

  /** HEAD once the switch is over: re-read after a checkout, else as first read. */
  function SwitchedHead(o: Opts, head: Ref, p: Provider): Ref
    requires SwitchSucceeds(o, head, p)
  {
    if NeedsCheckout(o.branch, head.name) then p.headAfter.value else head
  }

  // Lines 127-148: the pull.

  /** A pull is due under --pull when HEAD is a branch. */
  predicate PullDue(o: Opts, current: Ref) {
    o.pull && IsBranch(current.name)
  }

  /** The pull options main fills for HEAD `current` (lines 129-141). */
  function PullOptionsFor(o: Opts, identityKey: Option<AuthMethod>, current: Ref): PullOptions {
    PullOptions(o.remoteName, current.name, o.depth, o.singleBranch, Recursivity(o.recursive),
                if |o.identity| > 0 then identityKey else None)
  }

  function PullSteps(o: Opts, identityKey: Option<AuthMethod>, current: Ref, p: Provider): seq<Step> {
    if PullDue(o, current) then [Step(Pull(PullOptionsFor(o, identityKey, current)), ErrReply(p.pullErr))] else []
  }

  /** No pull was due, or it succeeded or found nothing new. */
  predicate PullSucceeds(o: Opts, current: Ref, p: Provider) {
    !PullDue(o, current) || p.pullErr.None? || p.pullErr == Some(NoErrAlreadyUpToDate)
  }

  // Lines 92-148: the repository was already there.

  /** The existing repository opened and its worktree and HEAD were read. */
  predicate ReachesHead(p: Provider) {
    p.openErr.None? && p.worktreeErr.None? && p.head.Ok?
  }

  function OpenSteps(o: Opts, dest: string, branchRef: string, identityKey: Option<AuthMethod>, p: Provider): seq<Step> {
    var open := Step(PlainOpen(dest), ErrReply(p.openErr));
    if p.openErr.Some? then [open]
    else
      var worktree := Step(Worktree, ErrReply(p.worktreeErr));
      if p.worktreeErr.Some? then [open, worktree]
      else
        var readHead := Step(Head, RefReply(p.head));
        if p.head.Err? then [open, worktree, readHead]
        else
          var head := p.head.value;
          [open, worktree, readHead] + SwitchSteps(o, branchRef, head, p)
            + (if SwitchSucceeds(o, head, p) then PullSteps(o, identityKey, SwitchedHead(o, head, p), p) else [])
  }

  predicate OpenSucceeds(o: Opts, p: Provider) {
    && ReachesHead(p)
    && SwitchSucceeds(o, p.head.value, p)
    && PullSucceeds(o, SwitchedHead(o, p.head.value, p), p)
  }

  // Lines 153-169: --last.

  function LastSteps(dest: string, haveHandle: bool, p: Provider): seq<Step> {
    var reopen := if haveHandle then [] else [Step(PlainOpen(dest), ErrReply(p.reopenErr))];
    if !haveHandle && p.reopenErr.Some? then reopen
    else if p.lastHead.Err? then reopen + [Step(Head, RefReply(p.lastHead))]
    else reopen + [Step(Head, RefReply(p.lastHead)), Step(CommitObject(p.lastHead.value.hash), ErrReply(p.commitErr))]
  }

  /** A handle was at hand or the reopen succeeded, and HEAD was read. */
  predicate ReachesLastHead(haveHandle: bool, p: Provider) {
    (haveHandle || p.reopenErr.None?) && p.lastHead.Ok?
  }

  predicate LastSucceeds(haveHandle: bool, p: Provider) {
    ReachesLastHead(haveHandle, p) && p.commitErr.None?
  }

  // Lines 41-169: main.

  /** The PlainClone call of line 90 with the provider's answer. */
  function CloneStep(o: Opts, p: Provider): Step {
    Step(PlainClone(Destination(o.repository, o.directory), false, CloneOptionsOf(o, IdentityAuth(o.identity))),
         ErrReply(p.cloneErr))
  }

  /** Lines 90-151: the clone, and on an existing repository the open-existing block. */
  function CloneStageSteps(o: Opts, p: Provider): seq<Step> {
    [CloneStep(o, p)]
      + if p.cloneErr == Some(ErrRepositoryAlreadyExists)
        then OpenSteps(o, Destination(o.repository, o.directory), BranchRef(o.branch, o.tags), IdentityAuth(o.identity), p)
        else []
  }

  predicate CloneStageSucceeds(o: Opts, p: Provider) {
    || p.cloneErr.None?
    || (p.cloneErr == Some(ErrRepositoryAlreadyExists) && OpenSucceeds(o, p))
  }

  /** Every call main makes for the parse result `args`, in order, with its answer. */
  function MainSteps(args: ParseResult, p: Provider): seq<Step> {
    if !Accepted(args) then []
    else
      var o := args.opts;
      if !KeyLoads(o, p) then KeySteps(o.identity, p.keyErr)
      else
        KeySteps(o.identity, p.keyErr) + CloneStageSteps(o, p)
          + if o.lastCommit && CloneStageSucceeds(o, p)
            then LastSteps(Destination(o.repository, o.directory), p.cloneErr.None?, p)
            else []
  }

  /** main exits 0: the parse failed, or every step it made succeeded or was recovered from. */
  predicate MainSucceeds(args: ParseResult, p: Provider) {
    || !Accepted(args)
    || (&& KeyLoads(args.opts, p)
        && CloneStageSucceeds(args.opts, p)
        && (args.opts.lastCommit ==> LastSucceeds(p.cloneErr.None?, p)))
  }

  /** The branch name --last prints at line 163, once HEAD was read. */
  function ShownBranch(args: ParseResult, p: Provider): Option<string> {
    if && Accepted(args) && KeyLoads(args.opts, p) && CloneStageSucceeds(args.opts, p)
       && args.opts.lastCommit && ReachesLastHead(p.cloneErr.None?, p)
    then Some(Base(p.lastHead.value.name))
    else None
  }
}
