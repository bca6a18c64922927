/**
 * The part of go-git (and of its ssh transport) that main.go talks to, as
 * values: the sentinel errors it compares against, the option records it
 * fills, the calls it makes and the answers those calls give. What the
 * library does inside a call is not modelled; a Provider fixes the answer
 * at each call site instead.
 */
module GoGit {
  import opened Wrappers
  import opened GoStrings

  /** The error values main.go tells apart; every other error is OtherError. */
  datatype Error =
    | ErrRepositoryAlreadyExists   // git.ErrRepositoryAlreadyExists
    | ErrReferenceNotFound         // plumbing.ErrReferenceNotFound
    | NoErrAlreadyUpToDate         // git.NoErrAlreadyUpToDate
    | OtherError(message: string)

  /** A value-or-error return, as in `ref, err := r.Head()`. */
  datatype Result<+T> = Ok(value: T) | Err(error: Error)

  type Hash = string

  /** plumbing.Reference: a reference name and the hash it points at. */
  datatype Ref = Ref(name: string, hash: Hash)

  /** plumbing.ReferenceName.IsBranch */
  predicate IsBranch(name: string) {
    HasPrefix(name, "refs/heads/")
  }

  /** git.TagMode; InvalidTagMode is the zero value a CloneOptions starts with. */
  datatype TagMode = InvalidTagMode | AllTags | NoTags | TagFollowing

  /** git.SubmoduleRescursivity: unset, or the library's default depth (its magnitude is not modelled). */
  datatype SubmoduleRecursivity = NoRecurseSubmodules | DefaultSubmoduleRecursionDepth

  /** Where an ssh.PublicKeys credential took its private key from. */
  datatype KeySource = PemBytes(pem: string) | PemFile(path: string)

  /** ssh.AuthMethod as built by ssh.NewPublicKeys or ssh.NewPublicKeysFromFile. */
  datatype AuthMethod = PublicKeys(user: string, source: KeySource)

  /** git.CloneOptions, without the Progress writer; "" is the zero ReferenceName. */
  datatype CloneOptions = CloneOptions(
    url: string,
    remoteName: string,
    referenceName: string,
    singleBranch: bool,
    depth: int,
    recurseSubmodules: SubmoduleRecursivity,
    tags: TagMode,
    auth: Option<AuthMethod>)

  /** git.CheckoutOptions; None is the zero Hash. */
  datatype CheckoutOptions = CheckoutOptions(branch: string, hash: Option<Hash>, create: bool, force: bool)

  /** git.PullOptions, without the Progress writer. */
  datatype PullOptions = PullOptions(
    remoteName: string,
    referenceName: string,
    depth: int,
    singleBranch: bool,
    recurseSubmodules: SubmoduleRecursivity,
    auth: Option<AuthMethod>)

  /** A call into ssh or go-git, with the arguments main.go passes. */
  datatype Call =
    | NewPublicKeys(user: string, pemBytes: string, password: string)
    | NewPublicKeysFromFile(user: string, pemFile: string, password: string)
    | PlainClone(path: string, isBare: bool, options: CloneOptions)
    | PlainOpen(path: string)
    | Worktree
    | Head
    | Checkout(checkout: CheckoutOptions)
    | Reference(refName: string, resolved: bool)
    | Pull(pull: PullOptions)
    | CommitObject(hash: Hash)

  /** What a call answered: nothing of interest, a reference, or an error. */
  datatype Reply = Done | GotRef(ref: Ref) | Raised(error: Error)

  function ErrReply(err: Option<Error>): (r: Reply)
    ensures r.Raised? <==> err.Some?
    ensures err.Some? ==> r.error == err.value
  {
    if err.Some? then Raised(err.value) else Done
  }

  function RefReply(res: Result<Ref>): (r: Reply)
    ensures r.Raised? <==> res.Err?
    ensures res.Ok? ==> r == GotRef(res.value)
  {
    if res.Ok? then GotRef(res.value) else Raised(res.error)
  }

  /** The error of a value-or-error return, nil when there is none. */
  function ErrorOf<T>(r: Result<T>): (e: Option<Error>)
    ensures e.None? <==> r.Ok?
  {
    if r.Ok? then None else Some(r.error)
  }

  /** One call and its answer. */
  datatype Step = Step(call: Call, reply: Reply)

  /**
   * The three error answers main.go recovers from: the clone target already
   * holding a repository, the first (non-creating) checkout not finding the
   * local branch, and a pull that has nothing to fetch.
   */
  predicate Recovered(c: Call, e: Error) {
    || (c.PlainClone? && e == ErrRepositoryAlreadyExists)
    || (c.Checkout? && !c.checkout.create && e == ErrReferenceNotFound)
    || (c.Pull? && e == NoErrAlreadyUpToDate)
  }

  /** A step whose error ends the program. */
  predicate Fatal(s: Step) {
    s.reply.Raised? && !Recovered(s.call, s.reply.error)
  }

  /**
   * The answers the outside world gives, one per call site of main.go:
   * ssh key loading, PlainClone, PlainOpen and Worktree and Head on the
   * existing repository, the first checkout, the remote-tracking lookup,
   * the creating checkout, Head after the checkout, Pull, and for --last
   * PlainOpen, Head and CommitObject.
   */
  datatype Provider = Provider(
    keyErr: Option<Error>,
    cloneErr: Option<Error>,
    openErr: Option<Error>,
    worktreeErr: Option<Error>,
    head: Result<Ref>,
    checkoutErr: Option<Error>,
    remoteRef: Result<Ref>,
    createErr: Option<Error>,
    headAfter: Result<Ref>,
    pullErr: Option<Error>,
    reopenErr: Option<Error>,
    lastHead: Result<Ref>,
    commitErr: Option<Error>)
}
