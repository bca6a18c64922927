# git-clone in Dafny

A model of `main.go` of git-clone, a small command-line wrapper around the
go-git library. git-clone clones a repository into a directory. When that
directory already holds the repository, it opens it instead: it switches the
checkout to the branch `--branch` asks for and, with `--pull`, pulls into it.
With `--last` it then shows HEAD's branch and commit.

The program's own logic is modelled exactly:

- how the destination directory, the reference name, the tag mode and the
  kind of identity are derived from the flags;
- how the clone and pull option records are filled;
- which go-git calls `main` makes, in which order, and with which options;
- which library errors it recovers from;
- the exit code it ends with.

The library is not modelled. A `Provider` value fixes the answer of every
call site of `main.go`: an error or not, and the reference returned. `Run`
returns three things:

- the trace of calls made, each with the answer it got;
- the exit code;
- the branch name `--last` shows.

Modules:

- `wrappers.dfy`: `Option`.
- `go_strings.dfy` (`GoStrings`): Go's `strings.HasPrefix`, `HasSuffix`,
  `TrimSuffix`, `Index` and `Contains`, and `path.Base`. Base is
  characterised as the last slash-separated element of a path, and that
  element is shown to be unique.
- `go_git.dfy` (`GoGit`): go-git's sentinel errors, option records, calls
  and replies. Also `Recovered`, the three error answers `main` tolerates,
  and `Fatal`, every other error answer.
- `clone_args.dfy` (`CloneArgs`): the `opts` flag struct and the pure
  derivations `main` makes from it.
- `flow_spec.dfy` (`FlowSpec`): `checkIfError`, and for each block of `main`
  the exact sequence of calls it makes, each with its answer, plus a
  predicate saying when the block lets `main` go on. `MainSteps` is the
  whole run and `MainSucceeds` says when it exits 0.
- `clone_flow.dfy` (`CloneFlow`): the body of `main` as methods, block by
  block, with `Run` as `main` itself. Each method is proved to make exactly
  the calls `FlowSpec` gives for its block, to continue exactly when its
  success predicate holds, and to stop at the first fatal step.
- `flow_properties.dfy` (`FlowProperties`): what `main` promises, proved
  about those call sequences. These cover when a checkout, the fallback
  lookup and a pull happen and with which options, which clone outcome
  leads where, what `--last` reports, and that a run in which every call
  succeeds exits 0.

The property every flow method keeps is `StopsAtFirstFatal`: the trace ends
at its first fatal step, and the exit code is 1 exactly when the last step
is fatal.

`main.go:43-45` calls `os.Exit(0)` on every `flags.Parse` error, including
a `--tags` value outside its choices and `--help`. So `Run` returns exit
code 0 and an empty trace for them.

## Model

| member | source | states |
|---|---|---|
| GoStrings.TrimSuffix | main.go:51 | With the suffix, the result followed by the suffix is the input; without it, the result is the input unchanged. |
| GoStrings.OccursAtTail | main.go:63 | Text occurs at position j > 0 of a string exactly when it occurs at j - 1 of the string without its first character. |
| GoStrings.IndexIsFirstOccurrence | main.go:63 | `Index` is -1 when the text does not occur; otherwise the text occurs there and at no earlier position. |
| GoStrings.ContainsIffOccurs | main.go:63 | `strings.Contains` holds exactly when the text occurs at some position. |
| GoStrings.TrimTrailingSlashesSpec | main.go:51 | `path.Base`'s first step removes exactly the trailing slashes: the rest is a prefix of the input, is empty or ends in a non-slash, and only slashes were dropped. |
| GoStrings.LastSlashSpec | main.go:51 | The position found is that of the last '/', or -1 when there is none. |
| GoStrings.Base | main.go:51 | `path.Base` never returns the empty string. |
| GoStrings.BaseOfSlashes | main.go:51 | `path.Base` of "" is "." and of a string of slashes only is "/". |
| GoStrings.BaseIsLastElement | main.go:51 | For any other path, `path.Base` is the last slash-separated element, trailing slashes ignored. |
| GoStrings.LastElementUnique | main.go:51 | A path has only one last element. |
| GoStrings.BaseOfLastElement | main.go:51 | Given the bounds of the last element, `path.Base` is exactly that slice. |
| GoStrings.BaseHasNoSlash | main.go:163 | The shown branch name, and any Base, holds no '/' unless it is "/". |
| CloneArgs.CloneTagMode | main.go:81-88 | `--tags` gets a library tag mode exactly when it is one of "all", "no", "following". |
| CloneArgs.TagModeOneToOne | main.go:81-88 | The three choices map to three different library modes. |
| CloneArgs.Destination | main.go:47-52 | A non-empty directory argument is the destination unchanged. |
| CloneArgs.DestinationHasNoSlash | main.go:47-52 | A derived destination is one path element: no '/' unless it is "/". |
| CloneArgs.DestinationIsLastElement | main.go:47-52 | Without a directory, the destination is the URL's last element with one trailing ".git" removed if present. |
| CloneArgs.DestinationOfSlashes | main.go:47-52 | Without a directory, an empty URL gives "." and a URL of slashes gives "/". |
| CloneArgs.SampleDestination | main.go:47-52 | `https://example.com/sample.git` clones into `sample`. |
| CloneArgs.DotGitDestination | main.go:47-52 | `https://h/.git` gives the empty destination. |
| CloneArgs.BranchRef | main.go:71-74 | The reference is `refs/<branch>` exactly when the branch starts with `tags/` and the tag mode is not "no", else `refs/heads/<branch>`. |
| CloneArgs.BranchRefIsBranch | main.go:71-74 | The selected reference is a branch reference exactly when it is not a tag selection. |
| CloneArgs.RemoteTrackingName | main.go:111 | The lookup name is `refs/remotes/`, then the remote name, then '/', then the branch: its length is the sum, and the remote and the branch sit at those positions. |
| CloneArgs.RemoteTrackingNameSplits | main.go:111 | For a remote name without '/', the first '/' after `refs/remotes/` ends the remote name and the rest is exactly the branch. |
| CloneArgs.NoCheckoutOnMatchingSuffix | main.go:104 | No checkout when HEAD's name ends with the branch text, whatever precedes it. |
| CloneArgs.NoCheckoutOnSelectedRef | main.go:104 | No checkout when HEAD already is the selected reference. |
| CloneArgs.Recursivity | main.go:78-80 | Submodules recurse to the default depth exactly under `--recursive`. |
| CloneArgs.ClassifyIdentity | main.go:62-67 | The identity is unused exactly when empty, and is inline key material exactly when it contains `RSA PRIVATE KEY`. |
| CloneArgs.IdentityAuth | main.go:62-69 | No credential for an empty identity; otherwise user "git" with the identity as key bytes when it is inline, as key file path otherwise. |
| FlowSpec.CheckIfError | main.go:32-39 | No error continues; any error exits with status 1. |
| FlowSpec.StopsAtFirstFatalAppend | main.go:32-39 | A trace that continued, followed by one that stops at its first fatal step, stops at its first fatal step. |
| FlowSpec.KeyLoadCallByKind | main.go:63-67 | The key is parsed from the text for an inline identity and read from a file for a key-file identity. |
| FlowSpec.CloneOptionsFollowFlags | main.go:71-88 | The clone options name a reference exactly when a branch was asked for, and then the selected one; an accepted `--tags` always gives a library tag mode; recursion is set exactly under `--recursive`. |
| CloneFlow.SetUpIdentity | main.go:61-70 | No call for an empty identity, else exactly one key load of the right kind; a load error exits 1 and stops there; on success the key is the identity's credential. |
| CloneFlow.FillCloneOptions | main.go:54-88 | The clone options are those the flags and the credential determine, with the selected reference as branch reference. |
| CloneFlow.SwitchBranch | main.go:104-125 | Every call with its answer, in order, as `SwitchSteps` lists them, nothing after the first fatal answer; continues exactly when `SwitchSucceeds`, and then HEAD is the re-read one (or the first one when no checkout was due). |
| CloneFlow.PullHead | main.go:127-148 | One pull with the options for the current HEAD exactly when one is due; continues exactly when there was none, it succeeded, or it found the branch up to date. |
| CloneFlow.OpenExisting | main.go:92-148 | Open, worktree, HEAD, then the switch's calls and the pull's, each with its answer, stopping at the first fatal one; continues exactly when every stage did. |
| CloneFlow.ShowLastCommit | main.go:153-169 | Reopens only without a handle, reads HEAD, reads the commit at its hash; stops at the first fatal answer; shows `path.Base` of HEAD's name exactly when HEAD was read. |
| CloneFlow.CloneOrOpen | main.go:90-151 | The clone with the options the flags ask for; after already-exists the whole open-existing block follows, otherwise nothing; continues exactly when the clone succeeded or the existing repository was brought up to date. |
| CloneFlow.Run | main.go:41-169 | The calls are exactly `MainSteps`; the exit code is 0 exactly when `MainSucceeds` and 1 otherwise, and 1 exactly when the last call failed fatally; the branch shown by `--last` is `ShownBranch`. |
| FlowProperties.SwitchChecksOutIffNeeded | main.go:104-109 | The switch makes a call exactly when `NeedsCheckout`, the first is the forced checkout of the selected reference, and it makes only checkout, lookup and HEAD calls. |
| FlowProperties.SwitchFallsBackOnlyAfterNotFound | main.go:110-122 | After reference-not-found the remote-tracking lookup comes second and, when found, the creating checkout at its hash third; any lookup or creating checkout implies reference-not-found. |
| FlowProperties.SwitchEndsReadingHead | main.go:123-124 | A switch that checked out and went on ends by re-reading HEAD, and that answer is HEAD from then on. |
| FlowProperties.OpenChecksOutIffNeeded | main.go:95-109 | Once HEAD was read, the first three calls are open, worktree and HEAD; the fourth is the forced checkout exactly when needed; without need there is no checkout at all. |
| FlowProperties.OpenPullsOnlyWhenDue | main.go:127-142 | A pull is only ever the last call, after HEAD was read and the switch went on, for a due pull, with the flags' options for HEAD after the switch; if the switch went on, the last call is a pull exactly when one is due. |
| FlowProperties.ParseErrorExitsZero | main.go:42-45 | A failed parse makes no call, exits 0 and shows nothing. |
| FlowProperties.KeyErrorExitsOne | main.go:62-70 | A key that does not load is the only call, and main exits 1. |
| FlowProperties.ClonedSkipsExisting | main.go:90-151 | After a clean clone only `--last`'s calls follow: no worktree, checkout, lookup or pull. |
| FlowProperties.MainStepsBlocks | main.go:61-169 | Once the key loaded, the calls are the key load, the clone, the open-existing block after already-exists, and `--last`'s calls after a stage that went on. |
| FlowProperties.AlreadyExistsOpensExisting | main.go:90-99 | After already-exists the clone is followed directly by the whole open-existing block, starting with PlainOpen of the destination. |
| FlowProperties.OtherCloneErrorExitsOne | main.go:149-151 | Any other clone error ends main right after the clone with exit 1. |
| FlowProperties.PullOnlyOnExistingWithCloneCredential | main.go:127-141 | Every pull of a run comes after already-exists and carries the identity's credential, the same one the clone was given. |
| FlowProperties.LastCommitReport | main.go:153-166 | With `--last` and exit 0 the run ends reading HEAD and then its commit; the call before is a PlainOpen exactly when the clone found the repository already there; the branch shown is `path.Base` of HEAD's name. |
| FlowProperties.AllAnswersOkExitsZero | main.go:41-169 | When no call fails, main exits 0. |
| FlowProperties.SampleCloneScenario | main.go:47-90 | `git-clone https://example.com/sample.git` makes one call, the clone into `sample` with remote `origin` and all tags, and exits 0. |
| FlowProperties.ReleaseSwitch | main.go:104-125 | On `main`, switching to `release` when the local branch is missing looks up `refs/remotes/origin/release`, creates the branch at its hash and re-reads HEAD. |
| FlowProperties.ReleaseIsBranch | main.go:71-74 | `--branch release` selects `refs/heads/release`, a branch reference. |
| FlowProperties.ReleaseBranchScenario | main.go:92-148 | `--branch release --pull` on an existing checkout of main makes exactly the nine calls from clone to pull, and exits 0. |
| FlowProperties.ShownBranchOfPlainBranch | main.go:163 | For a branch name without '/', the shown name is the branch name itself. |

## Left out

- go-git's work inside `PlainClone`, `PlainOpen`, `Worktree`, `Head`, `Checkout`, `Reference`, `Pull` and `CommitObject`. This is network, filesystem and object-store code outside the program; each call site's answer is a `Provider` field.
- ssh key parsing in `ssh.NewPublicKeys` and `ssh.NewPublicKeysFromFile`. This is foreign crypto and file I/O; only its success or failure is modelled.
- The flag parser's internals, its defaults (`origin`, `all`) and the `GIT_CLONE_KEY` environment fallback. `Opts` holds the values after parsing, and a `--tags` value outside the choices is treated as the parse error it is.
- Coloured console output, progress streaming to stdout and the printed commit. These are presentation only; only the branch name shown by `--last` is returned.
- The value of `git.DefaultSubmoduleRecursionDepth`. It is a constant of the library, modelled as a marker that is set exactly under `--recursive`.
- The clone handle go-git returns together with an error other than already-exists. That path exits 1 before the handle is used, so the model treats the handle as absent exactly when `PlainClone` reported an error.
- The `--last` reopen after already-exists. It happens because go-git's `PlainClone` returns a nil repository together with `ErrRepositoryAlreadyExists`, and because the `:=` at `main.go:95` declares a new `r` inside the block, so the outer `r` stays nil. The model passes "no handle" to `ShowLastCommit` after any clone error; it does not model a library that returned a handle alongside that error.
- Bytes that are not valid UTF-8. Go strings are byte strings and the model's strings are sequences of characters, so arguments that are not valid UTF-8 cannot be represented. For valid UTF-8 the string tests agree: the literals main tests for are ASCII, and UTF-8 is self-synchronising, so prefix, suffix, substring and '/' tests give the same answers on bytes and on characters.
- CloneArgs.Destination: its own contract covers only the directory argument. The derived case is stated by `DestinationIsLastElement`, `DestinationOfSlashes` and `DestinationHasNoSlash`.
