/** The matrix orchestrator (`validateClients` in validator.go): every
    validator is run against every client, and the verdicts are collected in
    a map from client name to a map from validator name to verdict. The image
    builds, the log directories and each pair's daemon are outside the model:
    the built image maps arrive as results, the log directory of each
    validator is a function of its name, and each pair's daemon answers are a
    script chosen by the pair. Go's map iteration order is arbitrary, so the
    loops pick any key not yet visited. */
module Sweep {
  import opened Wrappers
  import opened Daemon
  import opened Naming
  import opened Readiness
  import opened Validation

  /** The error of a sweep whose client pattern matched nothing. */
  const NoClients: string := "pattern did not match any clients"

  /** The verdicts of a sweep, by client, then by validator. */
  type Matrix = map<string, map<string, Verdict>>

  /** What every pair of a sweep shares: the built client and validator
      images by name, where each validator logs, each pair's daemon, the
      client overrides and the host alias. */
  datatype Setup = Setup(clients: map<string, string>, validators: map<string, string>,
                         logDirFor: string -> Result<string>, scriptFor: (string, string) -> Script,
                         overrides: seq<string>, alias: string)

  /** Every pair's readiness poll ends (the model's stand-in for a
      terminating wait). */
  predicate AllEnd(clients: map<string, string>, validators: map<string, string>,
                   scriptFor: (string, string) -> Script)
  {
    forall c, v :: c in clients && v in validators ==> Ends(scriptFor(c, v).ticks)
  }

  /** The verdict of one pair: the run of the client image against the
      validator image, logging under the validator's directory in an entry
      named after the client with every separator made `_`. */
  function PairVerdict(s: Script, client: string, clientImage: string, validatorImage: string,
                       overrides: seq<string>, alias: string, logdir: string): Verdict
    requires Ends(s.ticks)
  {
    RunPair(s, clientImage, validatorImage, overrides, alias, Join(logdir, SanitizeName(client))).verdict
  }

  /** The validators in `done` are validators of the sweep whose log
      directory was made. */
  ghost predicate Visited(w: Setup, done: set<string>)
  {
    forall v :: v in done ==> v in w.validators && w.logDirFor(v).Ok?
  }

  /** Client `c`'s verdict against validator `v`, for a pair the sweep runs;
      a pair it never runs (or whose wait never ends) has no verdict, and the
      zero verdict stands in for it. */
  function Cell(w: Setup, c: string, v: string): Verdict
  {
    if c in w.clients && v in w.validators && w.logDirFor(v).Ok? && Ends(w.scriptFor(c, v).ticks) then
      PairVerdict(w.scriptFor(c, v), c, w.clients[c], w.validators[v], w.overrides, w.alias, w.logDirFor(v).value)
    else
      Verdict(ZeroTime, ZeroTime, false, None)
  }

  /** The row client `c` should have once the validators in `done` ran. */
  ghost function ExpectedRow(w: Setup, c: string, done: set<string>): map<string, Verdict>
  {
    map v | v in done :: Cell(w, c, v)
  }

  /** The matrix once the validators in `done` have run: no rows before the
      first validator, then a row for every client holding its expected
      verdicts. */
  ghost predicate Filled(w: Setup, matrix: Matrix, done: set<string>)
  {
    && Visited(w, done)
    && (forall c :: c in matrix <==> done != {} && c in w.clients)
    && (forall c :: c in matrix ==> matrix[c] == ExpectedRow(w, c, done))
  }

  /** Setting a row's cell for one more validator gives the row expected
      with that validator done. */
  lemma ExtendRow(w: Setup, c: string, done: set<string>, v: string)
    ensures ExpectedRow(w, c, done)[v := Cell(w, c, v)] == ExpectedRow(w, c, done + {v})
  {
  }

  /** No validator done, no verdict expected. */
  lemma EmptyRow(w: Setup, c: string)
    ensures ExpectedRow(w, c, {}) == map[]
  {
  }

  /** One pair's run, as the sweep records it. */
  method RunCell(w: Setup, c: string, v: string, logdir: string) returns (verdict: Verdict)
    requires c in w.clients && v in w.validators && w.logDirFor(v) == Ok(logdir)
    requires Ends(w.scriptFor(c, v).ticks)
    ensures verdict == Cell(w, c, v)
  {
    var trace: seq<Action>;
    verdict, trace := Validate(w.scriptFor(c, v), w.clients[c], w.validators[v], w.overrides, w.alias,
                               Join(logdir, SanitizeName(c)));
  }

  /** `results[client][validator] = result`: the client's row is created on
      demand, then its cell for the validator is set; no other row changes. */
  method Record(matrix0: Matrix, c: string, v: string, verdict: Verdict) returns (matrix: Matrix)
    ensures forall d :: d in matrix <==> d in matrix0 || d == c
    ensures matrix[c] == (if c in matrix0 then matrix0[c] else map[])[v := verdict]
    ensures forall d :: d in matrix0 && d != c ==> matrix[d] == matrix0[d]
  {
    matrix := matrix0;
    if c !in matrix {
      matrix := matrix[c := map[]];
    }
    matrix := matrix[c := matrix[c][v := verdict]];
  }

  /** Recording client `c`'s row for validator `v` moves `c` from the
      clients still to run to those done, and leaves every other row. */
  lemma RowsStep(w: Setup, before: Matrix, after: Matrix, c: string, pending: set<string>,
                 done: set<string>, v: string)
    requires c in pending
    requires forall d :: d in before ==> before[d] == ExpectedRow(w, d, if d in pending then done else done + {v})
    requires forall d :: d in after <==> d in before || d == c
    requires after[c] == ExpectedRow(w, c, done + {v})
    requires forall d :: d in before && d != c ==> after[d] == before[d]
    ensures forall d :: d in after ==> after[d] == ExpectedRow(w, d, if d in pending - {c} then done else done + {v})
  {
    forall d | d in after
      ensures after[d] == ExpectedRow(w, d, if d in pending - {c} then done else done + {v})
    {
      if d != c {
        assert after[d] == before[d];
      }
    }
  }

  /** One pass of the inner loop: runs validator `v` against every client,
      recording each verdict in the client's row. */
  method SweepClients(w: Setup, v: string, logdir: string, matrix0: Matrix, ghost done: set<string>)
    returns (matrix: Matrix)
    requires AllEnd(w.clients, w.validators, w.scriptFor)
    requires v in w.validators && v !in done && w.logDirFor(v) == Ok(logdir)
    requires Filled(w, matrix0, done)
    ensures Filled(w, matrix, done + {v})
  {
    matrix := matrix0;
    var pending := w.clients.Keys;
    while pending != {}
      invariant pending <= w.clients.Keys
      invariant forall d :: d in matrix <==> d in matrix0 || (d in w.clients && d !in pending)
      invariant forall d :: d in matrix ==> matrix[d] == ExpectedRow(w, d, if d in pending then done else done + {v})
      decreases pending
    {
      var c :| c in pending;
      var verdict := RunCell(w, c, v, logdir);
      ExtendRow(w, c, done, v);
      if c !in matrix {
        EmptyRow(w, c);
      }
      ghost var before := matrix;
      matrix := Record(matrix, c, v, verdict);
      RowsStep(w, before, matrix, c, pending, done, v);
      pending := pending - {c};
    }
  }

  /** Every validator's log directory can be made. */
  ghost predicate LogDirsMade(w: Setup)
  {
    forall v :: v in w.validators ==> w.logDirFor(v).Ok?
  }

  /** `error` is the error of making some validator's log directory. */
  ghost predicate LogDirFailed(w: Setup, error: string)
  {
    exists v :: v in w.validators && w.logDirFor(v) == Err(error)
  }

  /** The loops of the sweep, once the builds have succeeded: validator by
      validator, its log directory is made (a failure ends the sweep with
      that error) and it is run against every client. */
  method SweepValidators(w: Setup) returns (results: Result<Matrix>)
    requires AllEnd(w.clients, w.validators, w.scriptFor)
    ensures results.Ok? <==> LogDirsMade(w)
    ensures results.Err? ==> LogDirFailed(w, results.error)
    ensures results.Ok? ==> Filled(w, results.value, w.validators.Keys)
  {
    var matrix: Matrix := map[];
    var todo := w.validators.Keys;
    ghost var done: set<string> := {};
    while todo != {}
      invariant todo + done == w.validators.Keys && todo !! done
      invariant Filled(w, matrix, done)
      decreases todo
    {
      var v :| v in todo;
      var logdir := w.logDirFor(v);
      if logdir.Err? {
        return Err(logdir.error);
      }
      matrix := SweepClients(w, v, logdir.value, matrix, done);
      todo, done := todo - {v}, done + {v};
    }
    results := Ok(matrix);
  }

  /** The sweep: a failed client build, an empty client set or a failed
      validator build is returned at once, with no matrix; otherwise the
      loops run (an empty validator set is not an error, and gives the empty
      matrix). */
  method ValidateClients(clients: Result<map<string, string>>, validators: Result<map<string, string>>,
                         logDirFor: string -> Result<string>, scriptFor: (string, string) -> Script,
                         overrides: seq<string>, alias: string)
    returns (results: Result<Matrix>)
    requires clients.Ok? && validators.Ok? ==> AllEnd(clients.value, validators.value, scriptFor)
    ensures clients.Err? ==> results == Err(clients.error)
    ensures clients.Ok? && |clients.value| == 0 ==> results == Err(NoClients)
    ensures clients.Ok? && |clients.value| > 0 && validators.Err? ==> results == Err(validators.error)
    ensures clients.Ok? && |clients.value| > 0 && validators.Ok? ==>
      var w := Setup(clients.value, validators.value, logDirFor, scriptFor, overrides, alias);
      && (results.Ok? <==> LogDirsMade(w))
      && (results.Err? ==> LogDirFailed(w, results.error))
      && (results.Ok? ==> Filled(w, results.value, w.validators.Keys))
  {
    if clients.Err? {
      return Err(clients.error);
    }
    if |clients.value| == 0 {
      return Err(NoClients);
    }
    if validators.Err? {
      return Err(validators.error);
    }
    var w := Setup(clients.value, validators.value, logDirFor, scriptFor, overrides, alias);
    results := SweepValidators(w);
  }

  /** A complete sweep has a row for every client (none when there are no
      validators), and every row has a cell for every validator. */
  lemma FullMatrix(w: Setup, matrix: Matrix)
    requires Filled(w, matrix, w.validators.Keys)
    ensures matrix.Keys == (if |w.validators| == 0 then {} else w.clients.Keys)
    ensures forall c :: c in matrix ==> matrix[c].Keys == w.validators.Keys
  {
    assert |w.validators| == 0 <==> w.validators.Keys == {};
  }

  /** Each cell of a complete sweep is the verdict of running that client
      against that validator. */
  lemma CellOfSweep(w: Setup, matrix: Matrix, c: string, v: string)
    requires AllEnd(w.clients, w.validators, w.scriptFor)
    requires Filled(w, matrix, w.validators.Keys)
    requires c in matrix && v in matrix[c]
    ensures c in w.clients && v in w.validators && w.logDirFor(v).Ok? && Ends(w.scriptFor(c, v).ticks)
    ensures matrix[c][v] == PairVerdict(w.scriptFor(c, v), c, w.clients[c], w.validators[v], w.overrides,
                                        w.alias, w.logDirFor(v).value)
  {
    assert matrix[c][v] == Cell(w, c, v);
  }
}
