# watchpkgsite, modelled in Dafny

watchpkgsite keeps a local Go module checkout in sync with its remote and
serves its documentation with `pkgsite`. It restarts the documentation
server whenever new commits arrive. This project models the sequential
decision logic inside that program's goroutines and proves what the logic
promises:

- **The `git status` parser** (`errors.dfy`, `git_status.dfy`, `git_status_cases.dfy`):
  - `parseLocalBranch`, `parseRemoteBranchAndSyncState` and the post-exec part of `GitStatus`.
  - The four regular expressions are string functions.
    - `^On branch (.+)` is characterised by `Git.ParseLocalBranch`'s own contract.
    - The three `Your branch is … '(.+)'` patterns are proved against a declarative reading (`Git.Captures`).
  - In both cases RE2's behaviour is followed:
    - the leftmost match is taken;
    - `.` does not match a newline;
    - `^` anchors at the start of the input;
    - the greedy `(.+)'` runs to the last quote on its line.
  - The test file's three inputs are checked against the model.
- **The repository watcher** (`giteng.dfy`):
  - `GitEngine` is a class.
  - Its `background` loop is a method over a schedule of `select` outcomes.
  - The `onGitStatus` dispatch is a helper method.
  - Both are proved against the pure `Giteng.TickEffects` and `Giteng.Polling`.
- **The documentation-server supervisor** (`doceng.dfy`):
  - `DocEngine` is a class.
  - It holds the runtime generation counter, the set of generations that have had `Kill` called, and the log of runtime operations.
  - Its `background` loop is proved against the pure `Doceng.Supervise`.
  - It keeps the invariant `Doceng.Inv`: launches = 1 + reloads, every earlier generation has been killed, and each kill is followed by the next launch.
- **The coordinator** (`root.dfy`):
  - The bridge turns each `update` event into one `reload` command.
  - The exit decision loop cancels the context before it returns 0 or 1.
  - SIGHUP is ignored.

`sync.dfy` gives the Go primitives the model needs:
- a channel, seen from the sender side as the sequence of values sent;
- a wait group's counter;
- a cancellable context that counts `cancelCtx` calls.

`scenarios.dfy` composes the parts on the status results of the test inputs.

Collaborators are inputs:
- what `git fetch` and `git merge` return;
- what the `git status` subprocess prints (`Git.ExecOutput`);
- what `pkgsite.Run` and `Runtime.Kill` return (`Errors.Outcome`).

Go's `select` is an input schedule:
- `Giteng.Step` for the watcher's loop;
- `Doceng.DocStep` for the supervisor's loop;
- `Root.Trigger` for the coordinator's exit decision.

The watcher does not stop after a merge failure or an ahead state. The fatal error only returns from the `onGitStatus` closure (pkg/giteng/engine.go:80-81, 88-89), so polling continues until the context is done. `Giteng.EveryTickFetches` proves this.

## Model

| member | source | states |
|---|---|---|
| Git.LineLength | pkg/git/git_status.go:57 | The length of the run that `.` can match from the start of a string. No newline occurs before it, and it ends at a newline or at the end of the input. |
| Git.LastQuote | pkg/git/git_status.go:72 | Where a greedy `(.+)'` stops on one line: the last quote at index 1 or later. No quote comes after it, and None means no quote at index 1 or later. |
| Git.CaptureAtSound | pkg/git/git_status.go:72-82 | A capture the matcher finds at a position satisfies the pattern's declarative reading: prefix, a non-empty capture without newline, then a quote. |
| Git.CaptureAtComplete | pkg/git/git_status.go:72-82 | Every capture the pattern allows at a position is found by the matcher, and the one found is at least as long as any other (greediness). |
| Git.FindFrom | pkg/git/git_status.go:87-89 | A search from position p returns the first position at or after p where the pattern matches, with that position's capture. None means the pattern matches at no position from p on. |
| Git.FindIsLeftmostLongest | pkg/git/git_status.go:87-89 | `FindAllSubmatch(..)[0]`: no match exactly when the pattern occurs nowhere. Otherwise the match is the leftmost occurrence, with its longest capture. |
| Git.LocalBranchOfFirstLine | pkg/git/git_status.go:56-68 | An input whose first line is `On branch ` plus a non-empty name parses to exactly that name, whatever follows. |
| Git.ParseLocalBranch | pkg/git/git_status.go:56-69 | Ok exactly when the input starts with `On branch ` followed by a non-newline character. The name is the rest of the first line and holds no newline. Any other input gives the error. |
| Git.ParseRemoteBranchAndSyncState | pkg/git/git_status.go:71-108 | The only error is the one for "no phrase found"; `unreachable` is never returned. On success the branch is the leftmost match's capture of the reported state's pattern, non-empty and without a newline. |
| Git.CaptureIsOneLine | pkg/git/git_status.go:95-105 | A found capture is non-empty and contains no newline. |
| Git.SyncStatePriority | pkg/git/git_status.go:87-105 | Error exactly when none of the three phrases occurs. UpToDate exactly when the up-to-date phrase occurs. Behind exactly when it does not and the behind phrase does. Ahead exactly when only the ahead phrase occurs. |
| Git.RemoteBranchIsGreedyCapture | pkg/git/git_status.go:72-105 | The remote branch is followed by a quote in the input, runs to the last quote on its line, and comes from the leftmost occurrence of the phrase. |
| Git.GitStatus | pkg/git/git_status.go:31-53 | Ok exactly when the exec succeeded and both parsers succeed. The result carries both parsers' values, and `Raw` is the output. Exec failures and local-branch failures give their own errors. |
| GitStatusCases.OnMain | pkg/git/git_status_test.go:12-21 | Any input whose first line is `On branch main` parses to `main`. |
| GitStatusCases.UpToDateCaseLocalBranch | pkg/git/git_status_test.go:12-21 | The up-to-date test input gives local branch `main`. |
| GitStatusCases.UpToDateCase | pkg/git/git_status.go:95-97 | The up-to-date test input gives (UpToDate, `origin/main`). |
| GitStatusCases.BehindCaseNotUpToDate | pkg/git/git_status_test.go:25-30 | The up-to-date phrase does not occur in the behind test input. |
| GitStatusCases.BehindCase | pkg/git/git_status_test.go:25-36 | The behind test input gives (Behind, `origin/main`). |
| GitStatusCases.AheadCaseNeitherUpToDateNorBehind | pkg/git/git_status_test.go:40-50 | Neither the up-to-date phrase nor the behind phrase occurs in the ahead test input. |
| GitStatusCases.AheadCase | pkg/git/git_status_test.go:40-56 | The ahead test input gives (Ahead, `origin/main`). |
| GitStatusCases.RemoteIsUpToDate | pkg/git/git_status.go:95-97 | When the up-to-date search finds a capture, the parser reports UpToDate with it. |
| GitStatusCases.RemoteIsBehind | pkg/git/git_status.go:99-101 | When the up-to-date search finds nothing and the behind search finds a capture, the parser reports Behind with it. |
| GitStatusCases.RemoteIsAhead | pkg/git/git_status.go:103-105 | When only the ahead search finds a capture, the parser reports Ahead with it. |
| GitStatusCases.BehindOnSecondLine | pkg/git/git_status.go:99-101 | An output whose second line is the behind phrase, and in which the up-to-date phrase is absent, gives Behind with the quoted name. |
| GitStatusCases.AheadOnSecondLine | pkg/git/git_status.go:103-105 | An output whose second line is the ahead phrase, and in which the other phrases are absent, gives Ahead with the quoted name. |
| GitStatusCases.StatusOfMain | pkg/git/git_status.go:36-53 | When both parsers give `main` and (state, `origin/main`), GitStatus succeeds with those values and `Raw` equal to the output. |
| GitStatusCases.UpToDateStatus | pkg/git/git_status.go:36-53 | GitStatus on the up-to-date test output succeeds with `main`, `origin/main` and UpToDate. |
| GitStatusCases.BehindCaseLocalBranch | pkg/git/git_status_test.go:25-30 | The behind test input gives local branch `main`. |
| GitStatusCases.BehindStatus | pkg/git/git_status.go:36-53 | GitStatus on the behind test output succeeds with `main`, `origin/main` and Behind. |
| GitStatusCases.AheadCaseLocalBranch | pkg/git/git_status_test.go:40-50 | The ahead test input gives local branch `main`. |
| GitStatusCases.AheadStatus | pkg/git/git_status.go:36-53 | GitStatus on the ahead test output succeeds with `main`, `origin/main` and Ahead. |
| Giteng.GitEngine.constructor | pkg/giteng/engine.go:25-37 | NewGitEngine keeps the workdir, the interval and the fatal-error channel, and has run no subprocess. |
| Giteng.GitEngine.Start | pkg/giteng/engine.go:39-46 | Start returns nil. |
| Giteng.GitEngine.Stop | pkg/giteng/engine.go:48-50 | Stop returns nil. |
| Giteng.GitEngine.OnGitStatus | pkg/giteng/engine.go:65-92 | The closure adds exactly the merges, events and fatal errors of the dispatch table `Giteng.Dispatch` to the engine's log, and nothing else. |
| Giteng.GitEngine.Tick | pkg/giteng/engine.go:99-125 | One timer firing runs exactly the subprocesses, events and fatal errors of `Giteng.TickEffects`. |
| Giteng.GitEngine.Background | pkg/giteng/engine.go:52-128 | Over a schedule, the loop's subprocesses, events and fatal errors are those of `Giteng.Polling`. It returns exactly when the context is done, and wg.Done runs once then and never otherwise. |
| Giteng.PollingAt | pkg/giteng/engine.go:94-127 | A done context ends the loop with no effect. A timer firing adds one tick's effects before the rest of the schedule. |
| Giteng.FetchFailureEndsTick | pkg/giteng/engine.go:103-109 | A fetch error ends the tick: no status, no merge, no event, no fatal error. |
| Giteng.StatusFailureEndsTick | pkg/giteng/engine.go:115-121 | A status error ends the tick after the status call: no merge, no event, no fatal error. |
| Giteng.TickDispatch | pkg/giteng/engine.go:72-91 | UpToDate does nothing. Behind merges exactly `[RemoteBranch]`, then sends one `update` event on success or one fatal error on failure. Ahead sends one fatal error and never merges. |
| Giteng.TickShape | pkg/giteng/engine.go:99-125 | Fetch comes first and status second. A merge happens only third, only for Behind, with the remote branch as its only argument. A tick sends at most one event or fatal error, and an event only after a successful merge. |
| Giteng.TickCounts | pkg/giteng/engine.go:77-85 | A tick runs exactly one fetch. Its merges equal its events plus its merge failures. Every event is an `update`. |
| Giteng.EveryTickFetches | pkg/giteng/engine.go:94-127 | Fatal errors do not end the loop: the number of fetches is the number of timer firings before the context is done. |
| Giteng.EventsFollowMerges | pkg/giteng/engine.go:77-85 | Over any schedule, every event is an `update`, and events plus merge failures equal merge attempts. |
| Giteng.NothingAfterContextDone | pkg/giteng/engine.go:96-98 | Once the context is done, nothing scheduled after it has any effect. |
| Doceng.Step | pkg/doceng/engine.go:65-96 | One turn of the loop never lowers the number of runtimes launched. |
| Doceng.LoopAt | pkg/doceng/engine.go:65-96 | A turn that returns ends the loop. A turn that continues hands its state to the rest of the schedule. |
| Doceng.DocEngine.constructor | pkg/doceng/engine.go:24-36 | NewDocEngine keeps the workdir, the address and the fatal-error channel, and nothing has been launched. |
| Doceng.DocEngine.Start | pkg/doceng/engine.go:38-45 | Start returns nil. |
| Doceng.DocEngine.Stop | pkg/doceng/engine.go:47-49 | Stop returns nil. |
| Doceng.DocEngine.LaunchRuntime | pkg/doceng/engine.go:59-63 | `pkgsite.Run` with the engine's own workdir and address starts the next generation. A failure sends one fatal error, `LaunchNext` in both cases. |
| Doceng.DocEngine.KillRuntime | pkg/doceng/engine.go:83 | Kill is called on the current generation, and only that changes. |
| Doceng.DocEngine.Background | pkg/doceng/engine.go:51-97 | Over a schedule, the runtime operations, generations, killed set and fatal errors are those of `Doceng.Supervise`. It returns exactly when the specification does, calling wg.Done once then. |
| Doceng.FirstLaunchFailure | pkg/doceng/engine.go:59-63 | If the first launch fails, one fatal error is sent, nothing else runs, and no command is handled. |
| Doceng.ReloadKillsThenLaunches | pkg/doceng/engine.go:79-92 | A reload kills the current generation, then launches the next with the same workdir and address. The loop continues exactly when the launch succeeds; otherwise one fatal error is sent. |
| Doceng.KillFailureEndsLoop | pkg/doceng/engine.go:83-86 | A kill failure during a reload sends one fatal error and returns without launching. |
| Doceng.OtherCommandIgnored | pkg/doceng/engine.go:78-94 | A command of any other kind changes nothing. |
| Doceng.ContextDoneKillsQuietly | pkg/doceng/engine.go:68-75 | On context done the current runtime is killed and the loop returns. No fatal error is sent, whatever the kill answers. |
| Doceng.StepKeepsInv | pkg/doceng/engine.go:65-96 | A turn that continues keeps `Inv` and adds one launch per reload. A turn that returns leaves every launched generation killed, with at most one fatal error. It sends none exactly when the context was done. |
| Doceng.LoopKeepsInv | pkg/doceng/engine.go:65-96 | While the loop runs it keeps `Inv`, launches = launches before + reloads handled, and no done context has been seen. Once it returns, every launched runtime has had Kill called and at most one fatal error was sent, exactly one when the schedule held no done context. |
| Doceng.SuperviseKeepsInv | pkg/doceng/engine.go:59-96 | For the whole goroutine: launches = 1 + reloads while it runs, and every runtime killed with at most one fatal error once it returns, exactly one when the schedule held no done context. |
| Root.Bridge | cmd/watchpkgsite/app/root/run.go:35-44 | The bridge sends exactly the commands of `Root.CommandsFor` for the events it receives, in order. |
| Root.OneReloadPerUpdate | cmd/watchpkgsite/app/root/run.go:37-41 | N update events give exactly N commands, every one a `reload`. Other events give nothing. |
| Root.CommandsForAppend | cmd/watchpkgsite/app/root/run.go:36-43 | The bridge preserves order: the commands for two event batches are those of the first, then those of the second. |
| Root.Decide | cmd/watchpkgsite/app/root/run.go:94-110 | Decision table: a nil exit value gives 0, a non-nil one gives 1, SIGINT/SIGTERM gives 0, and only SIGHUP keeps the loop waiting. |
| Root.AwaitExit | cmd/watchpkgsite/app/root/run.go:91-112 | The loop returns `Root.ExitCode` of the triggers. Every return calls cancelCtx exactly once before it. While only SIGHUPs arrive, the context is untouched. |
| Root.FirstDecisiveTrigger | cmd/watchpkgsite/app/root/run.go:91-112 | The loop returns exactly when some trigger is not a SIGHUP, and the first such trigger alone decides the code. |
| Root.ExitCodeIsZeroOrOne | cmd/watchpkgsite/app/root/run.go:94-107 | The exit code is always 0 or 1. |
| Root.HangupsAreIgnored | cmd/watchpkgsite/app/root/run.go:109-110 | SIGHUPs received before the other triggers change nothing about the decision. |
| Scenarios.UpToDateTicksAreQuiet | pkg/giteng/engine.go:74-75 | Three ticks on an up-to-date branch run three fetches and three status calls, with no merge, no event and no fatal error. |
| Scenarios.BehindTickReloadsDocServer | cmd/watchpkgsite/app/root/run.go:38-41 | A tick behind `origin/main` merges it and sends one update. The bridge makes one reload of it, and the supervisor kills its current runtime and launches the next with the same workdir and address. |
| Scenarios.AheadTickKeepsPolling | pkg/giteng/engine.go:87-89 | An ahead tick adds the fetch and status calls and `LocalAhead` as its only fatal error, and no event. The ticks after it run as if it had not happened. |
| Scenarios.AheadTickExitsWithOne | cmd/watchpkgsite/app/root/run.go:91-112 | After an ahead tick the watcher has sent a fatal error. Given any number of SIGHUPs first and then that error, the coordinator returns 1. |
| Scenarios.BehindTickMerges | pkg/giteng/engine.go:77-85 | A tick whose status is "main behind origin/main" merges origin/main and sends one update, and the bridge makes one reload of it. |
| Scenarios.BehindOutputReloads | pkg/giteng/engine.go:115-125 | The parser's behind test output, given to `Git.GitStatus` as what `git status` printed, makes the tick merge origin/main and send one update, which the bridge turns into one reload. |

## Left out

- The subprocesses:
  - `git fetch`, `git merge`, the `exec.Command`/`cmd.Output` part of `GitStatus`, and `pkgsite.Run`/`Runtime.Kill` are not modelled.
  - Their outcomes are inputs, and the model records only which of them were invoked and with which arguments.
  - pkg/pkgsite/pkgsite.go, pkg/git/git_fetch.go and pkg/git/git_merge.go are not part of this model.
- The working directory that `runopts.Dir` passes to the git subprocesses is not recorded on `Giteng.GitCall`.
- Logging, the logger setup (`makeLogger`, `makeWriter`, `mkdir`) and the command-line layer are left out. They have no effect on the decisions.
- Concurrency mechanics are not modelled:
  - goroutine scheduling, and channel capacities and blocking;
  - `time.After` intervals and `signal.Notify`.
  - Each `select` is a schedule given as input. `Start` returns nil and the goroutine it launches is the separate `Background` method.
  - A channel is the sequence of values sent on it. The receive side, and values dropped or never read, are not modelled.
- The coordinator's `cancelCtx` and the workers' `ctx.Done()` are separate inputs. The model does not tie a worker's `ContextDone` step to the coordinator's cancellation.
- The wait-group join at run.go:22-24 is left out, and so is the early return at run.go:26-30. Nothing about termination is claimed for that path.
- Git.ParseLocalBranch: works on characters, where the source works on bytes. No encoding is modelled.
- Git.ParseRemoteBranchAndSyncState: works on characters, where the source works on bytes. No encoding is modelled.
- The status result a tick sees (`Giteng.TickInput.status`) is an input. Nothing ties it to `Git.GitStatus` of some output, except in `Scenarios.BehindOutputReloads`. The other scenarios take any raw text.
- The `regexp.Compile` error returns (pkg/git/git_status.go:58-60, 73-85) are left out. The patterns are constants that compile, so those branches cannot be taken.
- `pkgsite.Run` and `Runtime.Kill` always return a nil error (pkg/pkgsite/pkgsite.go:78, 81-85). The model still treats them as fallible operations, so the launch- and kill-failure branches of the supervisor are modelled even though the shipped program never takes them.
- Errors carry only the cause string. The source wraps it with `fmt.Errorf`, and that text is not modelled.
- Giteng.GitEngine.Background: the interval between ticks is not modelled, only the order of ticks.
- Doceng.DocEngine.Background: the runtime bookkeeping starts afresh on each call, as the Go runtime variable is local to the goroutine.
