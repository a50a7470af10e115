/** The pairwise run controller (`validate` in validator.go): one client and
    one validator container driven through create, start, readiness wait,
    validator launch, wait and exit-code inspection, with every container it
    created torn down on every way out.

    The run is eight daemon steps, each of which can fail; the run stops at
    the first failure. `RunPair` is the reference definition of a run, stated
    in terms of how many steps passed (`Stage`): which requests were made,
    which cleanups were registered and what the verdict is. `Validate` is the
    controller itself, an imperative method with early exits and an explicit
    stack of deferred cleanups, proved to compute exactly `RunPair`. */
module Validation {
  import opened Wrappers
  import opened Daemon
  import opened Naming
  import opened Readiness

  /** `validationResult`: when the run started and ended, whether the
      validator passed, and the failure that stopped the run, if any. */
  datatype Verdict = Verdict(start: int, end: int, success: bool, error: Option<string>)

  /** A cleanup registered with `defer`. */
  datatype Deferred =
    | StampEnd                   // result.End = time.Now()
    | RemoveOnExit(id: string)   // force-remove a container
    | CloseOnExit(id: string)    // close the client's log stream

  /** A run: its verdict and the requests it made, in order. */
  datatype PairRun = PairRun(verdict: Verdict, trace: seq<Action>)

  /** The zero `time.Time` that `End` holds until it is stamped. */
  const ZeroTime: int := 0

  /** The log file names under the pair's log directory. */
  const ClientLog: string := "client.log"
  const ValidatorLog: string := "validator.log"

  /** The number of steps of a run. */
  const StepCount: nat := 8

  // ---------------------------------------------------------------------
  // The reference definition of a run

  /** The error of the readiness wait, if it did not end ready. */
  function PollError(o: Outcome): (e: Option<string>)
    ensures e.None? <==> o == Ready
    ensures o == ProcessExited ==> e == Some(Terminated)
  {
    match o
    case Ready => None
    case ProcessExited => Some(Terminated)
    case ProbeError(msg) => Some(msg)
  }

  /** What each step of a run reports, in the order the steps run: create,
      start and inspect the client, wait for it, create, start and inspect
      the validator, and inspect its exit status after the wait. */
  function StepErrors(s: Script): (errs: seq<Option<string>>)
    requires Ends(s.ticks)
    ensures |errs| == StepCount
  {
    [ ErrorOf(s.createClient), s.runClient, ErrorOf(s.inspectClient), PollError(PollOutcome(s.ticks)),
      ErrorOf(s.createValidator), s.runValidator, ErrorOf(s.inspectValidator), ErrorOf(s.exitStatus) ]
  }

  /** The index of the first failing step from step `i` on, or `|errs|`. */
  function PassedFrom(errs: seq<Option<string>>, i: nat): (k: nat)
    requires i <= |errs|
    ensures i <= k <= |errs|
    ensures forall j :: i <= j < k ==> errs[j].None?
    ensures k < |errs| ==> errs[k].Some?
    decreases |errs| - i
  {
    if i == |errs| || errs[i].Some? then i else PassedFrom(errs, i + 1)
  }

  /** The number of steps that pass before the first failing one. */
  function Passed(errs: seq<Option<string>>): (k: nat)
    ensures k <= |errs|
    ensures forall j :: 0 <= j < k ==> errs[j].None?
    ensures k < |errs| ==> errs[k].Some?
  {
    PassedFrom(errs, 0)
  }

  /** How far a run gets: the index of the step that fails, or `StepCount`. */
  function Stage(s: Script): (k: nat)
    requires Ends(s.ticks)
    ensures k <= StepCount
  {
    Passed(StepErrors(s))
  }

  /** A run that reaches step `k` gets past it when the step passes. */
  lemma StagePasses(s: Script, k: nat)
    requires Ends(s.ticks) && k < StepCount && Stage(s) >= k
    requires StepErrors(s)[k].None?
    ensures Stage(s) > k
  {
  }

  /** A run that reaches step `k` stops there when the step fails. */
  lemma StageStops(s: Script, k: nat)
    requires Ends(s.ticks) && k < StepCount && Stage(s) >= k
    requires StepErrors(s)[k].Some?
    ensures Stage(s) == k
  {
  }

  /** The ID a successful create returned. */
  function IdOf(r: Result<string>): string
  {
    if r.Ok? then r.value else ""
  }

  /** The address a successful inspect reported. */
  function AddressOf(r: Result<Inspection>): string
  {
    if r.Ok? then r.value.ip else ""
  }

  /** The requests step `n` makes. The validator learns the client address
      found by the inspect before the poll. */
  function StepRequests(s: Script, client: string, validator: string, overrides: seq<string>,
                        alias: string, logdir: string, n: nat): seq<Action>
    requires Ends(s.ticks) && n < StepCount
  {
    var cc := IdOf(s.createClient);
    var vc := IdOf(s.createValidator);
    match n
    case 0 => [CreateClient(client, validator, overrides)]
    case 1 => [StartContainer(cc, Join(logdir, ClientLog))]
    case 2 => [Inspect(cc)]
    case 3 => PollTrace(cc, s.ticks)
    case 4 => [CreateValidator(validator, ValidatorEnv(AddressOf(s.inspectClient), cc, alias))]
    case 5 => [CopyFile(cc, vc, EnodeScript), StartContainer(vc, Join(logdir, ValidatorLog))]
    case 6 => [Inspect(vc)]
    case _ => [WaitExit(vc), Inspect(vc)]
  }

  /** The requests of steps `0` to `n`. */
  function RequestsThrough(s: Script, client: string, validator: string, overrides: seq<string>,
                           alias: string, logdir: string, n: nat): seq<Action>
    requires Ends(s.ticks) && n < StepCount
  {
    (if n == 0 then [] else RequestsThrough(s, client, validator, overrides, alias, logdir, n - 1))
    + StepRequests(s, client, validator, overrides, alias, logdir, n)
  }

  /** The requests of a run: those of every step up to and including the one
      that fails (of all of them when none fails). */
  function Requests(s: Script, client: string, validator: string, overrides: seq<string>,
                    alias: string, logdir: string): seq<Action>
    requires Ends(s.ticks)
  {
    var k := Stage(s);
    RequestsThrough(s, client, validator, overrides, alias, logdir, if k < StepCount then k else StepCount - 1)
  }

  /** The cleanup registered once step `n` has passed: the client's removal
      once it exists, the close of its log stream once it runs, the
      validator's removal once it exists. */
  function StepCleanup(s: Script, n: nat): seq<Deferred>
  {
    if n == 0 then [RemoveOnExit(IdOf(s.createClient))]
    else if n == 1 then [CloseOnExit(IdOf(s.createClient))]
    else if n == 4 then [RemoveOnExit(IdOf(s.createValidator))]
    else []
  }

  /** The cleanups registered before step `n` runs, oldest first; the `End`
      stamp is registered before any step. */
  function RegisteredBefore(s: Script, n: nat): seq<Deferred>
  {
    if n == 0 then [StampEnd] else RegisteredBefore(s, n - 1) + StepCleanup(s, n - 1)
  }

  /** The cleanups registered by the time the run returns. */
  function Registered(s: Script): seq<Deferred>
    requires Ends(s.ticks)
  {
    RegisteredBefore(s, Stage(s))
  }

  /** The verdict at the `return`: `Start` read before any request, `End`
      not yet stamped, the failing step's error, and success when every step
      passed and the validator exited with code 0. */
  function Returned(s: Script): Verdict
    requires Ends(s.ticks)
  {
    var k := Stage(s);
    var errs := StepErrors(s);
    Verdict(s.clock(0), ZeroTime,
            k == StepCount && s.exitStatus.Ok? && s.exitStatus.value.exitCode == 0,
            if k < StepCount then errs[k] else None)
  }

  /** The request a deferred cleanup makes (stamping `End` makes none). */
  function CleanupRequest(d: Deferred): seq<Action>
  {
    match d
    case StampEnd => []
    case RemoveOnExit(id) => [Remove(id, true)]
    case CloseOnExit(id) => [CloseLogs(id)]
  }

  /** One deferred cleanup: stamping `End` reads the clock, every other one
      makes its request. A failed removal is only logged, so the daemon's
      answer to it changes nothing but the log. */
  function Perform(clock: nat -> int, d: Deferred, r: PairRun): PairRun
  {
    if d.StampEnd? then r.(verdict := r.verdict.(end := clock(|r.trace|)))
    else r.(trace := r.trace + CleanupRequest(d))
  }

  /** The deferred cleanups run last-registered first. */
  function Unwind(clock: nat -> int, stack: seq<Deferred>, r: PairRun): PairRun
    decreases |stack|
  {
    if stack == [] then r
    else Unwind(clock, stack[..|stack| - 1], Perform(clock, stack[|stack| - 1], r))
  }

  /** One run from start to finish, cleanups included. */
  function RunPair(s: Script, client: string, validator: string, overrides: seq<string>,
                   alias: string, logdir: string): PairRun
    requires Ends(s.ticks)
  {
    Unwind(s.clock, Registered(s), PairRun(Returned(s), Requests(s, client, validator, overrides, alias, logdir)))
  }

  // ---------------------------------------------------------------------
  // The controller

  /** Runs the deferred cleanups, last registered first. */
  method RunDeferred(clock: nat -> int, stack: seq<Deferred>, r: PairRun) returns (done: PairRun)
    ensures done == Unwind(clock, stack, r)
  {
    var pending := stack;
    done := r;
    while |pending| > 0
      invariant Unwind(clock, stack, r) == Unwind(clock, pending, done)
      decreases |pending|
    {
      var d := pending[|pending| - 1];
      pending := pending[..|pending| - 1];
      done := Perform(clock, d, done);
    }
  }

  /** The controller. Every `return` of the source leaves the labelled block;
      the deferred cleanups then run. The validator's half of the run is
      `LaunchValidator`. */
  method Validate(s: Script, client: string, validator: string, overrides: seq<string>,
                  alias: string, logdir: string)
    returns (result: Verdict, trace: seq<Action>)
    requires Ends(s.ticks)
    ensures PairRun(result, trace) == RunPair(s, client, validator, overrides, alias, logdir)
  {
    trace := [];
    result := Verdict(s.clock(|trace|), ZeroTime, false, None);
    var deferred := [StampEnd];
    label body: {
      trace := [CreateClient(client, validator, overrides)];
      if s.createClient.Err? {
        result := result.(error := Some(s.createClient.error));
        StageStops(s, 0);
        break body;
      }
      var cc := s.createClient.value;
      StagePasses(s, 0);
      deferred := deferred + [RemoveOnExit(cc)];
      assert deferred == RegisteredBefore(s, 1);

      trace := trace + [StartContainer(cc, Join(logdir, ClientLog))];
      assert trace == RequestsThrough(s, client, validator, overrides, alias, logdir, 1);
      if s.runClient.Some? {
        result := result.(error := s.runClient);
        StageStops(s, 1);
        break body;
      }
      StagePasses(s, 1);
      deferred := deferred + [CloseOnExit(cc)];
      assert deferred == RegisteredBefore(s, 2);

      trace := trace + [Inspect(cc)];
      assert trace == RequestsThrough(s, client, validator, overrides, alias, logdir, 2);
      if s.inspectClient.Err? {
        result := result.(error := Some(s.inspectClient.error));
        StageStops(s, 2);
        break body;
      }
      var cip := s.inspectClient.value.ip;
      StagePasses(s, 2);
      assert deferred == RegisteredBefore(s, 3);

      // Wait for the RPC port to open or the client to die.
      var outcome, polled := Poll(cc, s.ticks);
      trace := trace + polled;
      assert trace == RequestsThrough(s, client, validator, overrides, alias, logdir, 3);
      match outcome {
        case ProbeError(e) =>
          result := result.(error := Some(e));
          StageStops(s, 3);
          break body;
        case ProcessExited =>
          result := result.(error := Some(Terminated));
          StageStops(s, 3);
          break body;
        case Ready =>
      }
      StagePasses(s, 3);
      assert deferred == RegisteredBefore(s, 4);
      result, trace, deferred := LaunchValidator(s, client, validator, overrides, alias, logdir,
                                                 cc, cip, result, trace, deferred);
    }
    assert PairRun(result, trace) == PairRun(Returned(s), Requests(s, client, validator, overrides, alias, logdir));
    assert deferred == Registered(s);
    var finished := RunDeferred(s.clock, deferred, PairRun(result, trace));
    result, trace := finished.verdict, finished.trace;
  }

  /** The validator's half of `validate`, entered once the client is ready:
      create the validator with the client's address, ID and the host alias,
      copy the identity script (a failure is only a warning), start the
      validator, inspect it, wait for it, and read its exit code. */
  method LaunchValidator(s: Script, client: string, validator: string, overrides: seq<string>,
                         alias: string, logdir: string, cc: string, cip: string,
                         result0: Verdict, trace0: seq<Action>, deferred0: seq<Deferred>)
    returns (result: Verdict, trace: seq<Action>, deferred: seq<Deferred>)
    requires Ends(s.ticks) && Stage(s) >= 4
    requires s.createClient == Ok(cc) && s.inspectClient.Ok? && s.inspectClient.value.ip == cip
    requires result0 == Verdict(s.clock(0), ZeroTime, false, None)
    requires trace0 == RequestsThrough(s, client, validator, overrides, alias, logdir, 3)
    requires deferred0 == RegisteredBefore(s, 4)
    ensures PairRun(result, trace) == PairRun(Returned(s), Requests(s, client, validator, overrides, alias, logdir))
    ensures deferred == Registered(s)
  {
    result, trace, deferred := result0, trace0, deferred0;
    label body: {
      trace := trace + [CreateValidator(validator, ValidatorEnv(cip, cc, alias))];
      assert trace == RequestsThrough(s, client, validator, overrides, alias, logdir, 4);
      if s.createValidator.Err? {
        result := result.(error := Some(s.createValidator.error));
        StageStops(s, 4);
        break body;
      }
      var vc := s.createValidator.value;
      StagePasses(s, 4);
      deferred := deferred + [RemoveOnExit(vc)];
      assert deferred == RegisteredBefore(s, 5);

      // Copy the identity script, then start the validator; a failed copy
      // is only a warning.
      trace := trace + [CopyFile(cc, vc, EnodeScript), StartContainer(vc, Join(logdir, ValidatorLog))];
      assert trace == RequestsThrough(s, client, validator, overrides, alias, logdir, 5);
      if s.runValidator.Some? {
        result := result.(error := s.runValidator);
        StageStops(s, 5);
        break body;
      }
      StagePasses(s, 5);
      assert deferred == RegisteredBefore(s, 6);
      trace := trace + [Inspect(vc)];
      assert trace == RequestsThrough(s, client, validator, overrides, alias, logdir, 6);
      if s.inspectValidator.Err? {
        result := result.(error := Some(s.inspectValidator.error));
        StageStops(s, 6);
        break body;
      }
      StagePasses(s, 6);
      assert deferred == RegisteredBefore(s, 7);
      // Wait for the validator to exit, then read its exit code.
      trace := trace + [WaitExit(vc), Inspect(vc)];
      assert trace == RequestsThrough(s, client, validator, overrides, alias, logdir, 7);
      if s.exitStatus.Err? {
        result := result.(error := Some(s.exitStatus.error));
        StageStops(s, 7);
        break body;
      }
      assert deferred == RegisteredBefore(s, 8);
      result := result.(success := s.exitStatus.value.exitCode == 0);
      StagePasses(s, 7);
    }
  }
}
