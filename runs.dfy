/** What every run of the pairwise controller guarantees. The lemmas are
    about the reference definition `Validation.RunPair`, which
    `Validation.Validate` is proved to compute. */
module Runs {
  import opened Wrappers
  import opened Daemon
  import opened Naming
  import opened Readiness
  import opened Validation

  // ---------------------------------------------------------------------
  // How far a run gets, in the daemon's own terms

  /** The client container was created. */
  predicate ClientCreated(s: Script)
  {
    s.createClient.Ok?
  }

  /** ... and started, its log streaming to the client log. */
  predicate ClientStarted(s: Script)
  {
    ClientCreated(s) && s.runClient.None?
  }

  /** ... and its address was read. */
  predicate ClientInspected(s: Script)
  {
    ClientStarted(s) && s.inspectClient.Ok?
  }

  /** ... and its RPC port accepted a connection. */
  predicate ClientReady(s: Script)
    requires Ends(s.ticks)
  {
    ClientInspected(s) && PollOutcome(s.ticks) == Ready
  }

  /** The validator container was created. */
  predicate ValidatorCreated(s: Script)
    requires Ends(s.ticks)
  {
    ClientReady(s) && s.createValidator.Ok?
  }

  /** ... and started. */
  predicate ValidatorStarted(s: Script)
    requires Ends(s.ticks)
  {
    ValidatorCreated(s) && s.runValidator.None?
  }

  /** ... and inspected once running. */
  predicate ValidatorInspected(s: Script)
    requires Ends(s.ticks)
  {
    ValidatorStarted(s) && s.inspectValidator.Ok?
  }

  /** ... and its exit status was read after it finished. */
  predicate ValidatorExited(s: Script)
    requires Ends(s.ticks)
  {
    ValidatorInspected(s) && s.exitStatus.Ok?
  }

  /** A run gets past step `n` exactly when it gets past every earlier
      step and step `n` passes. */
  lemma PassedStep(errs: seq<Option<string>>, n: nat)
    requires n < |errs|
    ensures Passed(errs) > n <==> (n == 0 || Passed(errs) > n - 1) && errs[n].None?
  {
  }

  /** The number of steps a run passes, read off the daemon's answers: each
      milestone is reached exactly when the run gets past that many steps. */
  lemma StageMeaning(s: Script)
    requires Ends(s.ticks)
    ensures Stage(s) >= 1 <==> ClientCreated(s)
    ensures Stage(s) >= 2 <==> ClientStarted(s)
    ensures Stage(s) >= 3 <==> ClientInspected(s)
    ensures Stage(s) >= 4 <==> ClientReady(s)
    ensures Stage(s) >= 5 <==> ValidatorCreated(s)
    ensures Stage(s) >= 6 <==> ValidatorStarted(s)
    ensures Stage(s) >= 7 <==> ValidatorInspected(s)
    ensures Stage(s) == StepCount <==> ValidatorExited(s)
  {
    var errs := StepErrors(s);
    PassedStep(errs, 0);
    PassedStep(errs, 1);
    PassedStep(errs, 2);
    PassedStep(errs, 3);
    PassedStep(errs, 4);
    PassedStep(errs, 5);
    PassedStep(errs, 6);
    PassedStep(errs, 7);
  }

  // ---------------------------------------------------------------------
  // Teardown

  /** The requests of a stack of cleanups, last registered first. */
  function CleanupTrace(stack: seq<Deferred>): seq<Action>
    decreases |stack|
  {
    if stack == [] then [] else CleanupRequest(stack[|stack| - 1]) + CleanupTrace(stack[..|stack| - 1])
  }

  /** Unwinding a stack whose only `End` stamp, if any, sits at the bottom
      appends the cleanups' requests last registered first, and changes the
      verdict only by stamping `End`, with the clock read after every other
      cleanup. */
  lemma {:induction false} UnwindIsLifo(clock: nat -> int, stack: seq<Deferred>, r: PairRun)
    requires forall i :: 0 < i < |stack| ==> !stack[i].StampEnd?
    ensures Unwind(clock, stack, r).trace == r.trace + CleanupTrace(stack)
    ensures (stack == [] || !stack[0].StampEnd?) ==> Unwind(clock, stack, r).verdict == r.verdict
    ensures stack != [] && stack[0].StampEnd? ==>
      Unwind(clock, stack, r).verdict == r.verdict.(end := clock(|r.trace| + |CleanupTrace(stack)|))
    decreases |stack|
  {
    if stack != [] {
      var top := stack[|stack| - 1];
      var rest := stack[..|stack| - 1];
      var next := Perform(clock, top, r);
      UnwindIsLifo(clock, rest, next);
      assert next.trace == r.trace + CleanupRequest(top);
      assert CleanupTrace(stack) == CleanupRequest(top) + CleanupTrace(rest);
      if rest == [] {
        assert stack[0] == top;
      } else {
        assert rest[0] == stack[0];
        assert !top.StampEnd?;
      }
    }
  }

  /** The cleanups on the stack when step `n` is reached: the `End` stamp;
      then the client's removal once the client exists; the close of its
      log stream once it runs; the validator's removal once the validator
      exists. */
  lemma {:induction false} RegisteredAt(s: Script, n: nat)
    ensures var cc := IdOf(s.createClient);
      RegisteredBefore(s, n) ==
        if n == 0 then [StampEnd]
        else if n == 1 then [StampEnd, RemoveOnExit(cc)]
        else if n < 5 then [StampEnd, RemoveOnExit(cc), CloseOnExit(cc)]
        else [StampEnd, RemoveOnExit(cc), CloseOnExit(cc), RemoveOnExit(IdOf(s.createValidator))]
  {
    if n > 0 {
      RegisteredAt(s, n - 1);
    }
  }

  /** The cleanup requests of each stack a run can end with: whatever was
      set up last is torn down first. */
  lemma LifoOrder(cc: string, vc: string)
    ensures CleanupTrace([StampEnd]) == []
    ensures CleanupTrace([StampEnd, RemoveOnExit(cc)]) == [Remove(cc, true)]
    ensures CleanupTrace([StampEnd, RemoveOnExit(cc), CloseOnExit(cc)]) == [CloseLogs(cc), Remove(cc, true)]
    ensures CleanupTrace([StampEnd, RemoveOnExit(cc), CloseOnExit(cc), RemoveOnExit(vc)])
      == [Remove(vc, true), CloseLogs(cc), Remove(cc, true)]
  {
    var s1 := [StampEnd];
    var s2 := [StampEnd, RemoveOnExit(cc)];
    var s3 := [StampEnd, RemoveOnExit(cc), CloseOnExit(cc)];
    var s4 := [StampEnd, RemoveOnExit(cc), CloseOnExit(cc), RemoveOnExit(vc)];
    assert s1[..0] == [];
    assert s2[..1] == s1;
    assert s3[..2] == s2;
    assert s4[..3] == s3;
    assert CleanupTrace(s1) == [];
    assert CleanupTrace(s2) == [Remove(cc, true)] + CleanupTrace(s1);
    assert CleanupTrace(s3) == [CloseLogs(cc)] + CleanupTrace(s2);
    assert CleanupTrace(s4) == [Remove(vc, true)] + CleanupTrace(s3);
  }

  /** The cleanups for a run that created the validator, started the
      client and created the client as the flags say: the validator's
      removal, then the close of the client's log stream, then the client's
      removal, each only when its flag holds. */
  function CleanupsFor(validatorCreated: bool, clientStarted: bool, clientCreated: bool,
                       cc: string, vc: string): seq<Action>
  {
    (if validatorCreated then [Remove(vc, true)] else [])
    + (if clientStarted then [CloseLogs(cc)] else [])
    + (if clientCreated then [Remove(cc, true)] else [])
  }

  /** The cleanups a run makes, read off how far it got. */
  function TeardownOrder(s: Script): seq<Action>
    requires Ends(s.ticks)
  {
    CleanupsFor(ValidatorCreated(s), ClientStarted(s), ClientCreated(s), IdOf(s.createClient), IdOf(s.createValidator))
  }

  /** Unwinding the stack a run ends with makes exactly the cleanups of what
      it set up, in reverse order of setup; `End` is stamped at the bottom. */
  lemma RunCleanup(s: Script)
    requires Ends(s.ticks)
    ensures CleanupTrace(Registered(s)) == TeardownOrder(s)
    ensures Registered(s)[0] == StampEnd && forall i :: 0 < i < |Registered(s)| ==> !Registered(s)[i].StampEnd?
  {
    var k := Stage(s);
    var cc, vc := IdOf(s.createClient), IdOf(s.createValidator);
    RegisteredAt(s, k);
    LifoOrder(cc, vc);
    StageMeaning(s);
    if k == 0 {
      assert TeardownOrder(s) == CleanupsFor(false, false, false, cc, vc);
    } else if k == 1 {
      assert TeardownOrder(s) == CleanupsFor(false, false, true, cc, vc);
    } else if k < 5 {
      assert TeardownOrder(s) == CleanupsFor(false, true, true, cc, vc);
    } else {
      assert TeardownOrder(s) == CleanupsFor(true, true, true, cc, vc);
    }
  }

  /** Every run ends with its step requests, then the cleanups of what it
      set up, in reverse order of setup (`TeardownOrder`); and `End` is stamped
      last, after every cleanup, the verdict being otherwise the one the
      `return` left. */
  lemma Teardown(s: Script, client: string, validator: string, overrides: seq<string>,
                 alias: string, logdir: string)
    requires Ends(s.ticks)
    ensures var run := RunPair(s, client, validator, overrides, alias, logdir);
      && run.trace == Requests(s, client, validator, overrides, alias, logdir) + TeardownOrder(s)
      && run.verdict == Returned(s).(end := s.clock(|run.trace|))
  {
    RunCleanup(s);
    UnwindIsLifo(s.clock, Registered(s), PairRun(Returned(s), Requests(s, client, validator, overrides, alias, logdir)));
  }

  // ---------------------------------------------------------------------
  // The verdict

  /** The verdict a run reports: `Start` read before the first request;
      success exactly when every step passed and the validator exited with
      code 0; no error exactly when every step passed (so a nonzero exit code
      fails the run without an error, and success implies no error). */
  lemma VerdictRules(s: Script, client: string, validator: string, overrides: seq<string>,
                     alias: string, logdir: string)
    requires Ends(s.ticks)
    ensures var v := RunPair(s, client, validator, overrides, alias, logdir).verdict;
      && v.start == s.clock(0)
      && (v.success <==> ValidatorExited(s) && s.exitStatus.value.exitCode == 0)
      && (v.error.None? <==> ValidatorExited(s))
  {
    Teardown(s, client, validator, overrides, alias, logdir);
    StageMeaning(s);
  }

  /** A failed step's error is the run's error: the first failing step, in
      the order the steps run, decides it; a client that stops running during
      the wait gives "terminated unexpectedly". */
  lemma FailureErrors(s: Script, client: string, validator: string, overrides: seq<string>,
                      alias: string, logdir: string)
    requires Ends(s.ticks)
    ensures var e := RunPair(s, client, validator, overrides, alias, logdir).verdict.error;
      && (s.createClient.Err? ==> e == Some(s.createClient.error))
      && (ClientCreated(s) && s.runClient.Some? ==> e == s.runClient)
      && (ClientStarted(s) && s.inspectClient.Err? ==> e == Some(s.inspectClient.error))
      && (ClientInspected(s) && PollOutcome(s.ticks).ProbeError? ==> e == Some(PollOutcome(s.ticks).error))
      && (ClientInspected(s) && PollOutcome(s.ticks) == ProcessExited ==> e == Some(Terminated))
      && (ClientReady(s) && s.createValidator.Err? ==> e == Some(s.createValidator.error))
      && (ValidatorCreated(s) && s.runValidator.Some? ==> e == s.runValidator)
      && (ValidatorStarted(s) && s.inspectValidator.Err? ==> e == Some(s.inspectValidator.error))
      && (ValidatorInspected(s) && s.exitStatus.Err? ==> e == Some(s.exitStatus.error))
  {
    Teardown(s, client, validator, overrides, alias, logdir);
    StageMeaning(s);
  }

  /** `End` is read after `Start`, so under a clock that never runs backwards
      a run never ends before it starts. */
  lemma EndNotBeforeStart(s: Script, client: string, validator: string, overrides: seq<string>,
                          alias: string, logdir: string)
    requires Ends(s.ticks) && Monotone(s.clock)
    ensures var v := RunPair(s, client, validator, overrides, alias, logdir).verdict;
      v.start <= v.end
  {
    Teardown(s, client, validator, overrides, alias, logdir);
    var run := RunPair(s, client, validator, overrides, alias, logdir);
    assert s.clock(0) <= s.clock(|run.trace|);
  }

  // ---------------------------------------------------------------------
  // What the run asks of the daemon

  /** What each step asks for: no step makes a cleanup request; only step 4
      asks for a validator, with the environment built from the client address
      of the inspect before the poll, the client ID and the host alias; only
      step 5 copies the identity script, from the client to the validator. */
  lemma StepContents(s: Script, client: string, validator: string, overrides: seq<string>,
                     alias: string, logdir: string, n: nat)
    requires Ends(s.ticks) && n < StepCount
    ensures var sr := StepRequests(s, client, validator, overrides, alias, logdir, n);
      var cc := IdOf(s.createClient);
      var create := CreateValidator(validator, ValidatorEnv(AddressOf(s.inspectClient), cc, alias));
      var copy := CopyFile(cc, IdOf(s.createValidator), EnodeScript);
      && (forall a :: a in sr ==> !a.Remove? && !a.CloseLogs?)
      && (forall a :: a in sr && a.CreateValidator? <==> n == 4 && a == create)
      && (forall a :: a in sr && a.CopyFile? <==> n == 5 && a == copy)
  {
    if n == 3 {
      PollTraceShape(IdOf(s.createClient), s.ticks);
    }
  }

  /** The requests of steps `0` to `n` make no cleanup request; they ask for
      a validator exactly once step 4 is reached, and copy the identity script
      exactly once step 5 is reached (`StepContents`). */
  lemma {:induction false} ThroughContents(s: Script, client: string, validator: string, overrides: seq<string>,
                                           alias: string, logdir: string, n: nat)
    requires Ends(s.ticks) && n < StepCount
    ensures var rt := RequestsThrough(s, client, validator, overrides, alias, logdir, n);
      var cc := IdOf(s.createClient);
      var create := CreateValidator(validator, ValidatorEnv(AddressOf(s.inspectClient), cc, alias));
      var copy := CopyFile(cc, IdOf(s.createValidator), EnodeScript);
      && (forall a :: a in rt ==> !a.Remove? && !a.CloseLogs?)
      && (forall a :: a in rt && a.CreateValidator? <==> n >= 4 && a == create)
      && (forall a :: a in rt && a.CopyFile? <==> n >= 5 && a == copy)
    decreases n
  {
    StepContents(s, client, validator, overrides, alias, logdir, n);
    var sr := StepRequests(s, client, validator, overrides, alias, logdir, n);
    if n == 0 {
      assert RequestsThrough(s, client, validator, overrides, alias, logdir, n) == [] + sr;
    } else {
      ThroughContents(s, client, validator, overrides, alias, logdir, n - 1);
      var prev := RequestsThrough(s, client, validator, overrides, alias, logdir, n - 1);
      assert RequestsThrough(s, client, validator, overrides, alias, logdir, n) == prev + sr;
      var cc := IdOf(s.createClient);
      ConcatContents(prev, sr, CreateValidator(validator, ValidatorEnv(AddressOf(s.inspectClient), cc, alias)),
                     CopyFile(cc, IdOf(s.createValidator), EnodeScript), n - 1 >= 4, n == 4, n - 1 >= 5, n == 5);
    }
  }

  /** The contents facts of `ThroughContents` carry over a concatenation:
      `create` and `copy` are asked for in `prev + sr` exactly when in one
      of the two. */
  lemma ConcatContents(prev: seq<Action>, sr: seq<Action>, create: Action, copy: Action,
                       createdBefore: bool, createdNow: bool, copiedBefore: bool, copiedNow: bool)
    requires forall a :: a in prev ==> !a.Remove? && !a.CloseLogs?
    requires forall a :: a in sr ==> !a.Remove? && !a.CloseLogs?
    requires forall a :: a in prev && a.CreateValidator? <==> createdBefore && a == create
    requires forall a :: a in sr && a.CreateValidator? <==> createdNow && a == create
    requires forall a :: a in prev && a.CopyFile? <==> copiedBefore && a == copy
    requires forall a :: a in sr && a.CopyFile? <==> copiedNow && a == copy
    ensures forall a :: a in prev + sr ==> !a.Remove? && !a.CloseLogs?
    ensures forall a :: a in prev + sr && a.CreateValidator? <==> (createdBefore || createdNow) && a == create
    ensures forall a :: a in prev + sr && a.CopyFile? <==> (copiedBefore || copiedNow) && a == copy
  {
  }

  /** The requests of steps `0` to `m` open the requests of steps `0` to `n`
      for `m <= n`: the steps run in order. */
  lemma {:induction false} ThroughPrefix(s: Script, client: string, validator: string, overrides: seq<string>,
                                         alias: string, logdir: string, m: nat, n: nat)
    requires Ends(s.ticks) && m <= n < StepCount
    ensures RequestsThrough(s, client, validator, overrides, alias, logdir, m)
         <= RequestsThrough(s, client, validator, overrides, alias, logdir, n)
    decreases n
  {
    if m < n {
      ThroughPrefix(s, client, validator, overrides, alias, logdir, m, n - 1);
      var prev := RequestsThrough(s, client, validator, overrides, alias, logdir, n - 1);
      var sr := StepRequests(s, client, validator, overrides, alias, logdir, n);
      PrefixExtends(RequestsThrough(s, client, validator, overrides, alias, logdir, m), prev, sr);
    }
  }

  /** A prefix of a sequence is a prefix of any extension of it. */
  lemma PrefixExtends<T>(a: seq<T>, b: seq<T>, c: seq<T>)
    requires a <= b
    ensures a <= b + c
  {
    assert (b + c)[..|b|] == b;
  }

  /** The run's requests are those of its steps followed by its cleanups:
      the step requests make no cleanup request, ask for a validator exactly
      when the client became ready, and copy the identity script exactly when
      the validator was created. */
  lemma RunContents(s: Script, client: string, validator: string, overrides: seq<string>,
                    alias: string, logdir: string)
    requires Ends(s.ticks)
    ensures var req := Requests(s, client, validator, overrides, alias, logdir);
      var cc := IdOf(s.createClient);
      var create := CreateValidator(validator, ValidatorEnv(AddressOf(s.inspectClient), cc, alias));
      var copy := CopyFile(cc, IdOf(s.createValidator), EnodeScript);
      && (forall a :: a in req ==> !a.Remove? && !a.CloseLogs?)
      && (forall a :: a in req && a.CreateValidator? <==> ClientReady(s) && a == create)
      && (forall a :: a in req && a.CopyFile? <==> ValidatorCreated(s) && a == copy)
  {
    var k := Stage(s);
    StageMeaning(s);
    ThroughContents(s, client, validator, overrides, alias, logdir, if k < StepCount then k else StepCount - 1);
  }

  /** The validator is asked for exactly when the client became ready, right
      after the poll's accepted dial, and always with the environment built
      from the address of the inspect before the poll (not the one the poll
      dialled), the client's ID and the host alias. */
  lemma ValidatorLaunch(s: Script, client: string, validator: string, overrides: seq<string>,
                        alias: string, logdir: string)
    requires Ends(s.ticks)
    ensures var tr := RunPair(s, client, validator, overrides, alias, logdir).trace;
      var create := CreateValidator(validator, ValidatorEnv(AddressOf(s.inspectClient), IdOf(s.createClient), alias));
      && (forall a :: a in tr && a.CreateValidator? <==> ClientReady(s) && a == create)
      && (ClientReady(s) ==>
            RequestsThrough(s, client, validator, overrides, alias, logdir, 3) + [create] <= tr)
  {
    var k := Stage(s);
    var req := Requests(s, client, validator, overrides, alias, logdir);
    var tr := RunPair(s, client, validator, overrides, alias, logdir).trace;
    Teardown(s, client, validator, overrides, alias, logdir);
    RunCleanup(s);
    RunContents(s, client, validator, overrides, alias, logdir);
    StageMeaning(s);
    PrefixExtends(req, req, TeardownOrder(s));
    if k >= 4 {
      ThroughPrefix(s, client, validator, overrides, alias, logdir, 4, if k < StepCount then k else StepCount - 1);
      PrefixTrans(RequestsThrough(s, client, validator, overrides, alias, logdir, 4), req, tr);
    }
  }

  /** The prefix order is transitive. */
  lemma PrefixTrans<T>(a: seq<T>, b: seq<T>, c: seq<T>)
    requires a <= b && b <= c
    ensures a <= c
  {
    assert c[..|b|][..|a|] == c[..|a|];
  }

  /** An action is one of the cleanups exactly when its flag holds. */
  lemma CleanupMembers(v: bool, c: bool, r: bool, cc: string, vc: string, a: Action)
    ensures a in CleanupsFor(v, c, r, cc, vc) <==>
      (v && a == Remove(vc, true)) || (c && a == CloseLogs(cc)) || (r && a == Remove(cc, true))
  {
    var x: seq<Action> := if v then [Remove(vc, true)] else [];
    var y: seq<Action> := if c then [CloseLogs(cc)] else [];
    var z: seq<Action> := if r then [Remove(cc, true)] else [];
    assert CleanupsFor(v, c, r, cc, vc) == x + y + z;
    assert a in x + y + z <==> a in x || a in y || a in z;
  }

  /** The cleanups remove a container once for each flagged creation of it. */
  lemma CleanupRemovals(v: bool, c: bool, r: bool, cc: string, vc: string, id: string)
    ensures multiset(CleanupsFor(v, c, r, cc, vc))[Remove(id, true)] ==
      (if r && cc == id then 1 else 0) + (if v && vc == id then 1 else 0)
  {
    var x: seq<Action> := if v then [Remove(vc, true)] else [];
    var y: seq<Action> := if c then [CloseLogs(cc)] else [];
    var z: seq<Action> := if r then [Remove(cc, true)] else [];
    assert CleanupsFor(v, c, r, cc, vc) == x + y + z;
    assert multiset(x + y + z) == multiset(x) + multiset(y) + multiset(z);
    assert multiset(y)[Remove(id, true)] == 0;
  }

  /** The cleanups remove each container exactly as many times as it was
      created, always forcibly, and close the client's log stream exactly
      when the client was started. */
  lemma CleanupCounts(s: Script)
    requires Ends(s.ticks)
    ensures var cleanup := TeardownOrder(s);
      && (forall id :: multiset(cleanup)[Remove(id, true)] ==
            (if s.createClient == Ok(id) then 1 else 0)
            + (if ValidatorCreated(s) && s.createValidator == Ok(id) then 1 else 0))
      && (forall a :: a in cleanup ==> (a.Remove? && a.force) || a.CloseLogs?)
      && (forall id :: CloseLogs(id) in cleanup <==> ClientStarted(s) && s.createClient == Ok(id))
  {
    var v, c, r := ValidatorCreated(s), ClientStarted(s), ClientCreated(s);
    var cc, vc := IdOf(s.createClient), IdOf(s.createValidator);
    forall id
      ensures multiset(TeardownOrder(s))[Remove(id, true)] ==
        (if s.createClient == Ok(id) then 1 else 0) + (if v && s.createValidator == Ok(id) then 1 else 0)
    {
      CleanupRemovals(v, c, r, cc, vc, id);
    }
    forall a: Action
      ensures a in TeardownOrder(s) ==> (a.Remove? && a.force) || a.CloseLogs?
    {
      CleanupMembers(v, c, r, cc, vc, a);
    }
    forall id
      ensures CloseLogs(id) in TeardownOrder(s) <==> c && s.createClient == Ok(id)
    {
      CleanupMembers(v, c, r, cc, vc, CloseLogs(id));
    }
  }

  /** Each container is force-removed exactly as many times as it was
      created: the client once when its creation succeeded, the validator once
      when its creation succeeded; every removal is forced; and the client's
      log stream is closed exactly when the client was started. */
  lemma RemovedExactlyWhenCreated(s: Script, client: string, validator: string, overrides: seq<string>,
                                  alias: string, logdir: string)
    requires Ends(s.ticks)
    ensures var tr := RunPair(s, client, validator, overrides, alias, logdir).trace;
      && (forall id :: multiset(tr)[Remove(id, true)] ==
            (if s.createClient == Ok(id) then 1 else 0)
            + (if ValidatorCreated(s) && s.createValidator == Ok(id) then 1 else 0))
      && (forall a :: a in tr && a.Remove? ==> a.force)
      && (forall id :: CloseLogs(id) in tr <==> ClientStarted(s) && s.createClient == Ok(id))
  {
    var req := Requests(s, client, validator, overrides, alias, logdir);
    var cleanup := TeardownOrder(s);
    var tr := RunPair(s, client, validator, overrides, alias, logdir).trace;
    Teardown(s, client, validator, overrides, alias, logdir);
    CleanupCounts(s);
    RunContents(s, client, validator, overrides, alias, logdir);
    assert multiset(tr) == multiset(req) + multiset(cleanup);
    forall id
      ensures multiset(req)[Remove(id, true)] == 0
    {
      assert Remove(id, true) !in req;
    }
  }

  /** With distinct container IDs, a container is removed exactly when its
      creation succeeded, and at most once. */
  lemma RemovedOnce(s: Script, client: string, validator: string, overrides: seq<string>,
                    alias: string, logdir: string)
    requires Ends(s.ticks) && DistinctIds(s)
    ensures var tr := RunPair(s, client, validator, overrides, alias, logdir).trace;
      forall id :: multiset(tr)[Remove(id, true)] <= 1
        && (Remove(id, true) in tr <==> s.createClient == Ok(id) || (ValidatorCreated(s) && s.createValidator == Ok(id)))
  {
    RemovedExactlyWhenCreated(s, client, validator, overrides, alias, logdir);
  }

  /** The requests of steps `0` to `n` read no answer to the copy or to the
      removals. */
  lemma {:induction false} ThroughUnread(s: Script, client: string, validator: string, overrides: seq<string>,
                                         alias: string, logdir: string,
                                         copy: Option<string>, removeClient: Option<string>, removeValidator: Option<string>,
                                         n: nat)
    requires Ends(s.ticks) && n < StepCount
    ensures var t := s.(copyEnode := copy, removeClient := removeClient, removeValidator := removeValidator);
      RequestsThrough(t, client, validator, overrides, alias, logdir, n)
      == RequestsThrough(s, client, validator, overrides, alias, logdir, n)
    decreases n
  {
    if n > 0 {
      ThroughUnread(s, client, validator, overrides, alias, logdir, copy, removeClient, removeValidator, n - 1);
    }
  }

  /** The cleanups registered before step `n` read no answer to the copy or
      to the removals. */
  lemma {:induction false} RegisteredUnread(s: Script, copy: Option<string>, removeClient: Option<string>,
                                            removeValidator: Option<string>, n: nat)
    ensures var t := s.(copyEnode := copy, removeClient := removeClient, removeValidator := removeValidator);
      RegisteredBefore(t, n) == RegisteredBefore(s, n)
    decreases n
  {
    if n > 0 {
      RegisteredUnread(s, copy, removeClient, removeValidator, n - 1);
    }
  }

  /** A run reads no answer to the copy or to the removals: a script that
      differs only in those answers gives the same run. */
  lemma UnreadAnswers(s: Script, client: string, validator: string, overrides: seq<string>,
                      alias: string, logdir: string,
                      copy: Option<string>, removeClient: Option<string>, removeValidator: Option<string>)
    requires Ends(s.ticks)
    ensures var t := s.(copyEnode := copy, removeClient := removeClient, removeValidator := removeValidator);
      RunPair(t, client, validator, overrides, alias, logdir) == RunPair(s, client, validator, overrides, alias, logdir)
  {
    var t := s.(copyEnode := copy, removeClient := removeClient, removeValidator := removeValidator);
    assert StepErrors(s) == StepErrors(t);
    var k := Stage(s);
    ThroughUnread(s, client, validator, overrides, alias, logdir, copy, removeClient, removeValidator,
                  if k < StepCount then k else StepCount - 1);
    RegisteredUnread(s, copy, removeClient, removeValidator, k);
  }

  /** The daemon's answer to a removal is only logged: it changes neither the
      verdict nor any request of the run. */
  lemma RemovalIsLoggedOnly(s: Script, client: string, validator: string, overrides: seq<string>,
                            alias: string, logdir: string, clientAnswer: Option<string>, validatorAnswer: Option<string>)
    requires Ends(s.ticks)
    ensures RunPair(s.(removeClient := clientAnswer, removeValidator := validatorAnswer),
                    client, validator, overrides, alias, logdir)
         == RunPair(s, client, validator, overrides, alias, logdir)
  {
    UnreadAnswers(s, client, validator, overrides, alias, logdir, s.copyEnode, clientAnswer, validatorAnswer);
  }

  /** The copy of the identity script is best effort: its answer changes
      neither the verdict nor any request of the run. */
  lemma CopyAnswerIgnored(s: Script, client: string, validator: string, overrides: seq<string>,
                          alias: string, logdir: string, answer: Option<string>)
    requires Ends(s.ticks)
    ensures RunPair(s.(copyEnode := answer), client, validator, overrides, alias, logdir)
         == RunPair(s, client, validator, overrides, alias, logdir)
  {
    UnreadAnswers(s, client, validator, overrides, alias, logdir, answer, s.removeClient, s.removeValidator);
  }

  /** The copy is made exactly when the validator was created, from the
      client to the validator, and is always followed by the validator's
      start. */
  lemma CopyIsBestEffort(s: Script, client: string, validator: string, overrides: seq<string>,
                         alias: string, logdir: string)
    requires Ends(s.ticks)
    ensures var tr := RunPair(s, client, validator, overrides, alias, logdir).trace;
      var cc := IdOf(s.createClient);
      var vc := IdOf(s.createValidator);
      var copy := CopyFile(cc, vc, EnodeScript);
      && (forall a :: a in tr && a.CopyFile? <==> ValidatorCreated(s) && a == copy)
      && (ValidatorCreated(s) ==>
            RequestsThrough(s, client, validator, overrides, alias, logdir, 4)
            + [copy, StartContainer(vc, Join(logdir, ValidatorLog))] <= tr)
  {
    var k := Stage(s);
    var req := Requests(s, client, validator, overrides, alias, logdir);
    var tr := RunPair(s, client, validator, overrides, alias, logdir).trace;
    Teardown(s, client, validator, overrides, alias, logdir);
    CleanupCounts(s);
    RunContents(s, client, validator, overrides, alias, logdir);
    StageMeaning(s);
    PrefixExtends(req, req, TeardownOrder(s));
    if k >= 5 {
      ThroughPrefix(s, client, validator, overrides, alias, logdir, 5, if k < StepCount then k else StepCount - 1);
      PrefixTrans(RequestsThrough(s, client, validator, overrides, alias, logdir, 5), req, tr);
    }
  }
}
