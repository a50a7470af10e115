# Cross-validation of clients and validators (hive `validator.go`)

This project models the validation engine of hive's `validator.go` and proves
properties of that model. The engine runs every validator container against
every client container and collects one verdict per pair:

- **Client launch.** Each pair's client is created, started and inspected,
  then polled until its RPC port accepts a connection.
- **Validator run.** A validator is then created and handed the client's
  address, ID and the docker host alias. It receives the client's identity
  script (best effort), is started and waited for. Its exit code decides the
  verdict.
- **Teardown.** Every container that was created is torn down on every way
  out.

The container daemon, the network and the clock are replaced by a scripted
oracle (`Daemon.Script`), and every request is recorded as a `Daemon.Action`.
That lets the proofs speak about the exact sequence of requests a run makes.

Modules, in dependency order:

- `Wrappers`: `Option` and `Result`.
- `Daemon`: the scripted daemon and the requests made of it.
- `Naming`: the two pure pieces, the per-pair log path and the validator's
  environment.
- `Readiness`: the readiness poll. `Probe` is one round and `Poll` is the
  loop. Both are proved against functions of the scripted rounds.
- `Validation`: `validationResult` (`Verdict`) and the controller `validate`.
  `Validate`, with `LaunchValidator` for its second half, uses early exits
  and an explicit stack of deferred cleanups. It is proved to compute exactly
  the reference definition `RunPair`.
- `Runs`: what every run guarantees, as lemmas about `RunPair`. This covers
  the verdict rules, errors, teardown order and counts, the validator's
  environment, the best-effort copy, and daemon answers that are never read.
- `Sweep`: `validateClients`. Its nested loops fill the verdict matrix in
  place. They pick any remaining key, because Go's map order is arbitrary.
  The loops are proved to fill exactly `Filled`: a row for every client and,
  in it, one cell per validator holding that pair's verdict.

Behaviour of the code worth knowing:

- A client that never becomes ready and never stops makes the code poll
  forever. The model requires the scripted poll to end (`Readiness.Ends`).
- The code does not reject an empty validator set. The sweep then returns an
  empty matrix and no error (`Sweep.FullMatrix`).
- A failure to make a validator's log directory aborts the whole sweep with
  no matrix. It is not contained to that validator's pairs.
- The validator's log stream (`vwaiter`) is never closed by `validate` (there
  is no `vwaiter.Close()`). Only the client's stream is (`Runs.CleanupCounts`).

## Model

| member | source | states |
|---|---|---|
| Naming.SanitizeName | validator.go:63 | The client's log entry name has the same length as the client name and no path separator. Each separator becomes `_` and every other character is kept. |
| Naming.SanitizeIdempotent | validator.go:63 | Sanitising an already sanitised name changes nothing. |
| Naming.SanitizeKeepsPlainNames | validator.go:63 | A name is its own log entry name exactly when it holds no separator. |
| Naming.Join | validator.go:63 | The joined path is one separator longer than the directory and the name together. |
| Naming.JoinParts | validator.go:63 | The joined path is the directory, one separator, then the name. With a sanitised name, no separator follows the directory. |
| Naming.ValidatorEnv | validator.go:151 | The validator's environment has exactly three entries. |
| Naming.ValidatorEnvReadBack | validator.go:151 | Reading `HIVE_CLIENT_IP`, `HIVE_CLIENT_ID` and `HIVE_DOCKER_HOST_ALIAS` back from that environment gives the client address, the client ID and the alias unchanged. |
| Readiness.FirstTerminal | validator.go:123-145 | The poll's last round is the first round that fails the inspect, finds the client stopped, or has its dial accepted. |
| Readiness.OutcomeOfFirstTerminal | validator.go:123-145 | The poll is ready exactly when its last round found the client running and the dial accepted. It ends "exited" exactly when the client was found not running, and with the inspect's own error exactly when the inspect failed. |
| Readiness.PollTraceShape | validator.go:123-145 | The poll opens with an inspect of the client. It makes only inspects of the client, dials of port 8545, closes of an accepted connection and sleeps. Every dial directly follows an inspect in the same round, and every close directly follows the dial it closes. The poll ends with a close exactly when it is ready (the accepted dial, then its close), and with an undialled inspect otherwise. |
| Readiness.OneInspectPerRound | validator.go:125-130 | The client is inspected exactly once per round. |
| Readiness.Probe | validator.go:124-144 | One round ends the poll exactly when it is terminal, with that round's outcome and requests. It dials at the address that round's inspect reported, and closes an accepted connection at once. |
| Readiness.Poll | validator.go:123-145 | The loop yields exactly the poll's outcome and requests. |
| Validation.PollError | validator.go:125-135 | The wait gives no error exactly when it ended ready. A stopped client gives "terminated unexpectedly". |
| Validation.StepErrors | validator.go:88-197 | A run has exactly `StepCount` (eight) step reports. Their order is fixed by the definition and tied to the code only through `Validate`'s proof against `RunPair`. |
| Validation.RunDeferred | validator.go:84 | The deferred stack is unwound last registered first (`Unwind`). |
| Validation.Validate | validator.go:79-201 | The controller's verdict and requests are exactly those of `RunPair`, on every exit path. |
| Validation.LaunchValidator | validator.go:146-200 | The validator half takes a ready client to the verdict `validate` returns and to the cleanups it registers. |
| Runs.StageMeaning | validator.go:88-197 | A run gets past each step exactly when the daemon's answers to that step and to all earlier steps succeeded. |
| Runs.UnwindIsLifo | validator.go:84 | Unwinding makes the cleanups' requests last registered first. It changes the verdict only by stamping `End`, after every other cleanup. |
| Runs.RegisteredAt | validator.go:84-166 | A cleanup is registered only once its resource exists: the `End` stamp first, then the client's removal after its create, the log close after its start, and the validator's removal after its create. |
| Runs.LifoOrder | validator.go:84-166 | Each possible cleanup stack tears down what was set up last first. |
| Runs.RunCleanup | validator.go:84-166 | A run's cleanups are the validator's removal, the client log close and the client's removal, each exactly when its resource was set up, in that order. `End` sits at the bottom of the stack. |
| Runs.Teardown | validator.go:81-201 | A run's requests are its step requests followed by `TeardownOrder`. `End` is read after the last cleanup, and the rest of the verdict is what the `return` left. |
| Runs.VerdictRules | validator.go:81-199 | `Start` is read before any request. Success holds exactly when every step passed and the exit code is 0. There is no error exactly when every step passed, so a nonzero exit fails the run without an error and success implies no error. |
| Runs.FailureErrors | validator.go:88-197 | The first failing step's error is the run's error. A stopped client gives "terminated unexpectedly". |
| Runs.EndNotBeforeStart | validator.go:81-84 | Under a clock that never runs backwards, `End >= Start`. |
| Runs.StepContents | validator.go:88-192 | No step makes a cleanup request. Only the validator step creates a validator, with the environment from the pre-poll inspect. Only the start step copies `/enode.sh`. |
| Runs.ThroughContents | validator.go:88-192 | Over steps 0 to n, a validator is created exactly once the validator step is reached and `/enode.sh` is copied exactly once the copy step is reached. |
| Runs.ThroughPrefix | validator.go:88-192 | The steps' requests are made in step order. |
| Runs.RunContents | validator.go:88-192 | A run's step requests create a validator exactly when the client became ready. They copy the script exactly when the validator was created. They request no cleanup. |
| Runs.ValidatorLaunch | validator.go:113-153 | A validator is created exactly when the client became ready, directly after the poll. It always gets the address from the inspect before the poll (not the one the poll dialled), the client ID and the alias. |
| Runs.CleanupCounts | validator.go:96-111 | The cleanups remove each container once per successful create, always forcibly. They close the client's log exactly when the client was started. |
| Runs.RemovedExactlyWhenCreated | validator.go:96-166 | The client is force-removed once exactly when its create succeeded, and likewise the validator. Every removal is forced. |
| Runs.RemovedOnce | validator.go:96-166 | With distinct IDs, a container is removed at most once, and exactly when its create succeeded. |
| Runs.UnreadAnswers | validator.go:98-172 | The answers to the copy and to the removals change nothing in the run. |
| Runs.RemovalIsLoggedOnly | validator.go:96-101 | A failed removal changes neither the verdict nor any request. |
| Runs.CopyAnswerIgnored | validator.go:169-172 | A failed copy changes neither the verdict nor any later request. |
| Runs.CopyIsBestEffort | validator.go:168-176 | The copy is made exactly when the validator was created, from client to validator, directly followed by the validator's start. |
| Sweep.RunCell | validator.go:61-63 | Running one pair gives its verdict, logging under the validator's directory at the client's sanitised name. |
| Sweep.Record | validator.go:70-73 | The client's row is created on demand and its cell for the validator is set. No other row changes. |
| Sweep.SweepClients | validator.go:59-74 | One pass of the inner loop adds the validator's cell to every client's row, so the matrix is `Filled` with one more validator done. |
| Sweep.SweepValidators | validator.go:53-76 | The loops succeed exactly when every validator's log directory can be made. A failure returns that error. On success the matrix is `Filled` for every validator. |
| Sweep.ValidateClients | validator.go:32-77 | A failed client build returns its error, as does a failed validator build. An empty client set returns "pattern did not match any clients". Otherwise the result is `SweepValidators`' result. |
| Sweep.FullMatrix | validator.go:51-76 | A complete matrix has a row for every client, or none when there are no validators. Every row has exactly one cell per validator. |
| Sweep.CellOfSweep | validator.go:63-73 | Each cell of a complete matrix is `validate`'s verdict for that pair. No failed pair is missing. |

## Left out

- Docker and the network are a per-pair `Script` of answers: `createClientContainer`, `runContainer`, `InspectContainer`, `CreateContainer`, `copyBetweenContainers`, `RemoveContainer` and `net.Dial`. The sleep and the close of the probe connection have no answer and are recorded only as requests. The clock is a function of the number of requests made so far. The model checks no real I/O.
- `buildClients`, `buildValidators` and `makeTestOutputDirectory` are not part of this model. Their results are parameters: the two build results and a log directory per validator.
- Logging (`log15`), the short IDs `cc.ID[:8]` and `vc.ID[:8]`, and log message durations are left out. These only reach the log, though the slice would make Go panic on an ID shorter than eight characters.
- The `cwaiter` and `vwaiter` streaming internals are left out. `vwaiter.Wait` is one `WaitExit` request, and the daemon's exit-status answer is the single place its outcome shows.
- `validationResultSummary` and `summaryData` are not part of this model. The global `dockerHostAlias` flag is a parameter.
- Readiness.Poll: a poll that never ends is not modelled. Every pair's scripted poll must end (`Readiness.Ends`, `Sweep.AllEnd`), because the code waits forever otherwise.
- Naming.Join: `filepath.Join` is modelled for a clean directory and a one-component name. Its path cleaning is left out. The separator is fixed to `/`.
- `validationResult` is returned by pointer but not shared before `validate` returns. It is a value here, so aliasing does not arise.
- Sweep.Cell: a pair the sweep never runs has no verdict. The zero verdict stands in for it in the specification function only.
- The time the sweep logs for each pair is left out.
- `CreateClient`, `StartContainer` and `CopyFile` record only the images, container IDs, overrides, log file and script path of these opaque calls. The constant arguments are not recorded: the two `nil`s of `createClientContainer`, the trailing `false` of `runContainer`, and the `""` and `true` of `copyBetweenContainers`.
