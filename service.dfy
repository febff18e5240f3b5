/**
 * `GoService`: compile a submission, run it, and grade its output with a checker
 * written in Python.
 *
 * The operating system and the Python interpreter are oracles here: how a child
 * process ends is a `Spawn` value given to each operation, the verdict of the user's
 * checker is a function `evaluate` of the program text and its two arguments, and the
 * side effects the code performs (spawning, killing, `chmod`, `chown`, calls of
 * `_execute` and `_check`) are counted in the ghost logs of a `Host`.
 */
module GoService {
  import opened Wrappers
  import Messages
  import Utils
  import opened Entities

  // ---------------------------------------------------------------------------------
  // Exceptions and oracles
  // ---------------------------------------------------------------------------------

  /**
   * The exceptions the service lets escape, each with the text it carries. `SpawnFault`
   * and `CheckerAbort` are raised by `Popen` and by the checker and pass through unwrapped.
   */
  datatype Fault =
    | CompileFault(details: string)
    | ExecutionFault(details: string)
    | CheckerFault(message: string, cause: Option<string>)
    | SpawnFault(details: string)
    | CheckerAbort(details: string)

  datatype Result<T> = Ok(value: T) | Err(fault: Fault)

  /**
   * The `message` of an exception of the service's own: MSG_7 for a compile exception,
   * MSG_6 for an execution exception, the given text for a checker exception; an
   * exception raised by `Popen` or by the checker itself has none.
   */
  function Message(f: Fault): (m: Option<string>)
    ensures f.CompileFault? ==> m == Some(Messages.CompileFailed)
    ensures f.ExecutionFault? ==> m == Some(Messages.ExecutionFailed)
    ensures f.CheckerFault? ==> m == Some(f.message)
    ensures m.None? <==> f.SpawnFault? || f.CheckerAbort?
  {
    match f
    case CompileFault(_) => Some(Messages.CompileFailed)
    case ExecutionFault(_) => Some(Messages.ExecutionFailed)
    case CheckerFault(msg, _) => Some(msg)
    case SpawnFault(_) => None
    case CheckerAbort(_) => None
  }

  /** How `communicate` on a spawned process ended. */
  datatype Communication =
    | Finished(stdout: Option<string>, stderr: Option<string>)
    | Expired
    | Broken(details: string)

  /** Whether `Popen` raised, and otherwise how the process talked back. */
  datatype Spawn = SpawnFailed(details: string) | Spawned(comm: Communication)

  /** A build: the toolchain process, and whether `chmod` and `chown` would raise. */
  datatype Build = Build(spawn: Spawn, chmodFault: Option<string>, chownFault: Option<string>)

  /**
   * What `exec` of the checker program left in `result`, or what it raised: an
   * `Exception` (`Raised`), or a `BaseException` outside it such as `SystemExit`
   * (`Aborted`), which `_check` does not catch.
   */
  datatype Verdict = Bool(b: bool) | NonBool | Raised(details: string) | Aborted(details: string)

  /** Python truthiness of an optional text: present and not empty. */
  predicate Truthy(s: Option<string>) {
    s.Some? && s.value != []
  }

  /** `s or None`. */
  function OrNone(s: Option<string>): (r: Option<string>)
    ensures Truthy(r) <==> Truthy(s)
    ensures r.Some? ==> r == s
    ensures !Truthy(s) ==> r.None?
  {
    if Truthy(s) then s else None
  }

  /** The side effects of the service, as counts and call logs. */
  class Host {
    ghost var compiles: nat
    ghost var spawns: nat
    ghost var kills: nat
    ghost var chmods: nat
    ghost var chowns: nat
    /** The `data_in` of each `_execute` call, in order. */
    ghost var executions: seq<Option<string>>
    /** The `right_value` and `value` of each `_check` call, in order. */
    ghost var checks: seq<(string, Option<string>)>

    constructor ()
      ensures compiles == spawns == kills == chmods == chowns == 0
      ensures executions == [] && checks == []
    {
      compiles, spawns, kills, chmods, chowns := 0, 0, 0, 0, 0;
      executions, checks := [], [];
    }
  }

  // ---------------------------------------------------------------------------------
  // _validate_checker_func and _check
  // ---------------------------------------------------------------------------------

  const CHECKER_HEADER := "def checker(right_value: str, value: str) -> bool:"
  const RETURN := "return"
  /** The line `_check` appends so that `exec` stores the verdict in `result`. */
  const CALL := "\nresult = checker(right_value, value)"

  /**
   * `_validate_checker_func`: the source must start with the exact signature line, and
   * must then contain `return` somewhere; the signature is checked first.
   */
  function ValidateChecker(src: string): (r: Option<Fault>)
    ensures r.None? <==> CHECKER_HEADER <= src && exists i :: Utils.OccursAt(src, RETURN, i)
    ensures !(CHECKER_HEADER <= src) ==> r == Some(CheckerFault(Messages.InvalidSignature, None))
    ensures CHECKER_HEADER <= src && (forall i :: !Utils.OccursAt(src, RETURN, i)) ==>
      r == Some(CheckerFault(Messages.MissingReturn, None))
  {
    if !(CHECKER_HEADER <= src) then Some(CheckerFault(Messages.InvalidSignature, None))
    else if !Utils.Contains(src, RETURN) then Some(CheckerFault(Messages.MissingReturn, None))
    else None
  }

  /**
   * `_check`: validate, then run the checker on the expected and the actual output; an
   * `Exception` becomes MSG_5 with its text, a verdict that is not a `bool` MSG_4, and any
   * other `BaseException` escapes as it is.
   */
  function Check(checker: string, rightValue: string, value: Option<string>,
                 evaluate: (string, string, Option<string>) -> Verdict): (r: Result<bool>)
    ensures ValidateChecker(checker).Some? ==> r == Err(ValidateChecker(checker).value)
    ensures r.Ok? <==>
      ValidateChecker(checker).None? && evaluate(checker + CALL, rightValue, value).Bool?
    ensures r.Ok? ==> r.value == evaluate(checker + CALL, rightValue, value).b
    ensures ValidateChecker(checker).None? && evaluate(checker + CALL, rightValue, value).NonBool? ==>
      r == Err(CheckerFault(Messages.NonBoolean, None))
    ensures ValidateChecker(checker).None? && evaluate(checker + CALL, rightValue, value).Raised? ==>
      r == Err(CheckerFault(Messages.CheckerFailed, Some(evaluate(checker + CALL, rightValue, value).details)))
    ensures ValidateChecker(checker).None? && evaluate(checker + CALL, rightValue, value).Aborted? ==>
      r == Err(CheckerAbort(evaluate(checker + CALL, rightValue, value).details))
  {
    match ValidateChecker(checker)
    case Some(f) => Err(f)
    case None =>
      match evaluate(checker + CALL, rightValue, value)
      case Bool(b) => Ok(b)
      case NonBool => Err(CheckerFault(Messages.NonBoolean, None))
      case Raised(d) => Err(CheckerFault(Messages.CheckerFailed, Some(d)))
      case Aborted(d) => Err(CheckerAbort(d))
  }

  /** A checker that fails validation is never run: the evaluator cannot change the result. */
  lemma CheckValidatesFirst(checker: string, rightValue: string, value: Option<string>,
                            e1: (string, string, Option<string>) -> Verdict,
                            e2: (string, string, Option<string>) -> Verdict)
    requires ValidateChecker(checker).Some?
    ensures Check(checker, rightValue, value, e1) == Check(checker, rightValue, value, e2)
    ensures Check(checker, rightValue, value, e1).Err?
  {
  }

  /** Any source without the exact signature line is refused with MSG_2, whatever follows. */
  lemma SignatureRequired(prefix: string, body: string)
    requires |prefix| == |CHECKER_HEADER| && prefix != CHECKER_HEADER
    ensures ValidateChecker(prefix + body) == Some(CheckerFault(Messages.InvalidSignature, None))
  {
    var src := prefix + body;
    assert src[..|prefix|] == prefix;
  }

  /** `_check` as a call: the logged arguments, then the result of `Check`. */
  method CheckCall(host: Host, checker: string, rightValue: string, value: Option<string>,
                   evaluate: (string, string, Option<string>) -> Verdict) returns (r: Result<bool>)
    modifies host
    ensures r == Check(checker, rightValue, value, evaluate)
    ensures host.checks == old(host.checks) + [(rightValue, value)]
    ensures host.executions == old(host.executions)
    ensures host.compiles == old(host.compiles) && host.spawns == old(host.spawns)
    ensures host.kills == old(host.kills)
    ensures host.chmods == old(host.chmods) && host.chowns == old(host.chowns)
  {
    host.checks := host.checks + [(rightValue, value)];
    r := Check(checker, rightValue, value, evaluate);
  }

  // ---------------------------------------------------------------------------------
  // _compile
  // ---------------------------------------------------------------------------------

  /** `chmod` runs when the toolchain finished with empty or no diagnostics. */
  predicate ChmodRuns(b: Build) {
    b.spawn.Spawned? && b.spawn.comm.Finished? && !Truthy(b.spawn.comm.stderr)
  }

  /** `chown` runs when `chmod` ran and did not raise. */
  predicate ChownRuns(b: Build) {
    ChmodRuns(b) && b.chmodFault.None?
  }

  /**
   * `_compile`: a deadline gives MSG_1; any other exception, from `Popen`,
   * `communicate`, `chmod` or `chown`, becomes a compile exception with its text;
   * otherwise the cleaned diagnostics, or `None` when there were none.
   */
  function CompileOutcome(b: Build): (r: Result<Option<string>>)
    ensures b.spawn.SpawnFailed? ==> r == Err(CompileFault(b.spawn.details))
    ensures b.spawn == Spawned(Expired) ==> r == Ok(Some(Messages.TimeExceeded))
    ensures b.spawn.Spawned? && b.spawn.comm.Broken? ==> r == Err(CompileFault(b.spawn.comm.details))
    ensures r.Err? <==>
      b.spawn.SpawnFailed? || b.spawn.comm.Broken? ||
      (ChmodRuns(b) && (b.chmodFault.Some? || b.chownFault.Some?))
    ensures ChmodRuns(b) && b.chmodFault.Some? ==> r == Err(CompileFault(b.chmodFault.value))
    ensures ChownRuns(b) && b.chownFault.Some? ==> r == Err(CompileFault(b.chownFault.value))
    ensures r.Ok? && b.spawn.comm.Finished? ==> r.value == Utils.CleanError(b.spawn.comm.stderr)
    ensures r.Ok? ==> (Truthy(r.value) <==> b.spawn.comm.Expired? || Truthy(b.spawn.comm.stderr))
  {
    Utils.SentinelsAreFixedPoints();
    match b.spawn
    case SpawnFailed(d) => Err(CompileFault(d))
    case Spawned(comm) =>
      match comm
      case Expired => Ok(Utils.CleanError(Some(Messages.TimeExceeded)))
      case Broken(d) => Err(CompileFault(d))
      case Finished(_, err) =>
        Utils.CleanErrorKeepsTruthiness(err);
        if Truthy(err) then Ok(Utils.CleanError(err))
        else if b.chmodFault.Some? then Err(CompileFault(b.chmodFault.value))
        else if b.chownFault.Some? then Err(CompileFault(b.chownFault.value))
        else Ok(Utils.CleanError(err))
  }

  /** One increment when `c` holds. */
  function Count(c: bool): nat {
    if c then 1 else 0
  }

  /**
   * `_compile` as it runs: the toolchain process, when it was created, is killed exactly
   * once whatever happens; `chmod` and `chown` run only after an empty stderr.
   */
  method Compile(host: Host, b: Build) returns (r: Result<Option<string>>)
    modifies host
    ensures r == CompileOutcome(b)
    ensures host.compiles == old(host.compiles) + 1
    ensures host.spawns == old(host.spawns) + Count(b.spawn.Spawned?)
    ensures host.kills == old(host.kills) + Count(b.spawn.Spawned?)
    ensures host.chmods == old(host.chmods) + Count(ChmodRuns(b))
    ensures host.chowns == old(host.chowns) + Count(ChownRuns(b))
    ensures host.executions == old(host.executions) && host.checks == old(host.checks)
  {
    host.compiles := host.compiles + 1;
    var error: Option<string> := None;
    var fault: Option<Fault> := None;
    var spawned := false;
    match b.spawn {
      case SpawnFailed(d) =>
        fault := Some(CompileFault(d));
      case Spawned(comm) =>
        spawned := true;
        host.spawns := host.spawns + 1;
        match comm {
          case Expired =>
            error := Some(Messages.TimeExceeded);
          case Broken(d) =>
            fault := Some(CompileFault(d));
          case Finished(_, err) =>
            error := err;
            if !Truthy(err) {
              host.chmods := host.chmods + 1;
              if b.chmodFault.Some? {
                fault := Some(CompileFault(b.chmodFault.value));
              } else {
                host.chowns := host.chowns + 1;
                if b.chownFault.Some? {
                  fault := Some(CompileFault(b.chownFault.value));
                }
              }
            }
        }
    }
    // finally: kill the process when it exists
    if spawned {
      host.kills := host.kills + 1;
    }
    if fault.Some? {
      return Err(fault.value);
    }
    r := Ok(Utils.CleanError(error));
  }

  // ---------------------------------------------------------------------------------
  // _execute
  // ---------------------------------------------------------------------------------

  /**
   * `_execute`: `Popen` sits outside the `try`, so its exception escapes unwrapped; a
   * deadline gives no output and MSG_1; any other `communicate` failure becomes an
   * execution exception; otherwise both texts are cleaned, empty ones becoming `None`.
   */
  function ExecuteOutcome(p: Spawn): (r: Result<ExecuteResult>)
    ensures p.SpawnFailed? ==> r == Err(SpawnFault(p.details))
    ensures p == Spawned(Expired) ==> r == Ok(ExecuteResult(None, Some(Messages.TimeExceeded)))
    ensures p.Spawned? && p.comm.Broken? ==> r == Err(ExecutionFault(p.comm.details))
    ensures r.Ok? <==> p.Spawned? && !p.comm.Broken?
    ensures r.Ok? ==> (r.value.result.None? <==> p.comm.Expired? || !Truthy(p.comm.stdout))
    ensures r.Ok? && r.value.result.Some? ==>
      r.value.result == Utils.CleanStr(p.comm.stdout) &&
      Utils.CR !in r.value.result.value && !Utils.EndsWithLF(r.value.result.value)
    ensures r.Ok? && p.comm.Finished? ==>
      (r.value.error.None? <==> !Truthy(p.comm.stderr)) &&
      (r.value.error.Some? ==> r.value.error == Utils.CleanError(p.comm.stderr) &&
                               Truthy(r.value.error))
  {
    Utils.SentinelsAreFixedPoints();
    match p
    case SpawnFailed(d) => Err(SpawnFault(d))
    case Spawned(comm) =>
      match comm
      case Expired => Ok(ExecuteResult(Utils.CleanStr(None), Utils.CleanError(Some(Messages.TimeExceeded))))
      case Broken(d) => Err(ExecutionFault(d))
      case Finished(out, err) =>
        Utils.CleanErrorKeepsTruthiness(OrNone(err));
        Ok(ExecuteResult(Utils.CleanStr(OrNone(out)), Utils.CleanError(OrNone(err))))
  }

  /** Output made only of line feeds is reported as the empty text, not as `None`. */
  lemma ExecuteNewlineOutput(err: Option<string>)
    ensures ExecuteOutcome(Spawned(Finished(Some("\n"), err))).value.result == Some("")
  {
    Utils.CleanStrNewlineOnly();
  }

  /**
   * The messages the tests expect: every compile exception carries MSG_7, an execution
   * exception from `communicate` MSG_6, and a checker exception one of MSG_2 .. MSG_5.
   */
  lemma FaultMessages(b: Build, p: Spawn, checker: string, rightValue: string, value: Option<string>,
                      evaluate: (string, string, Option<string>) -> Verdict)
    ensures CompileOutcome(b).Err? ==> Message(CompileOutcome(b).fault) == Some(Messages.CompileFailed)
    ensures p.Spawned? && ExecuteOutcome(p).Err? ==>
      Message(ExecuteOutcome(p).fault) == Some(Messages.ExecutionFailed)
    ensures Check(checker, rightValue, value, evaluate).Err? ==>
      var m := Message(Check(checker, rightValue, value, evaluate).fault);
      m.None? || m.value in {Messages.InvalidSignature, Messages.MissingReturn,
                             Messages.NonBoolean, Messages.CheckerFailed}
  {
  }

  /** `_execute` as it runs: once the process exists, it is killed exactly once. */
  method Execute(host: Host, dataIn: Option<string>, p: Spawn) returns (r: Result<ExecuteResult>)
    modifies host
    ensures r == ExecuteOutcome(p)
    ensures host.executions == old(host.executions) + [dataIn]
    ensures host.spawns == old(host.spawns) + Count(p.Spawned?)
    ensures host.kills == old(host.kills) + Count(p.Spawned?)
    ensures host.compiles == old(host.compiles)
    ensures host.chmods == old(host.chmods) && host.chowns == old(host.chowns)
    ensures host.checks == old(host.checks)
  {
    host.executions := host.executions + [dataIn];
    if p.SpawnFailed? {
      return Err(SpawnFault(p.details));
    }
    host.spawns := host.spawns + 1;
    var result: Option<string> := None;
    var error: Option<string> := None;
    var fault: Option<Fault> := None;
    match p.comm {
      case Finished(out, err) =>
        result, error := out, err;
      case Expired =>
        result, error := None, Some(Messages.TimeExceeded);
      case Broken(d) =>
        fault := Some(ExecutionFault(d));
    }
    // finally: the process is always killed
    host.kills := host.kills + 1;
    if fault.Some? {
      return Err(fault.value);
    }
    r := Ok(ExecuteResult(Utils.CleanStr(OrNone(result)), Utils.CleanError(OrNone(error))));
  }

  // ---------------------------------------------------------------------------------
  // debug
  // ---------------------------------------------------------------------------------

  /**
   * `debug`: compile; on diagnostics report them and do not run; otherwise run once on
   * the request's input and report both cleaned texts. The workspace is removed only
   * when no exception escapes.
   */
  method Debug(host: Host, data: DebugData, b: Build, run: Spawn) returns (r: Option<Fault>, file: GoFile)
    modifies host, data
    ensures fresh(file) && file.code == data.code
    ensures file.removals == Count(r.None?)
    ensures host.compiles == old(host.compiles) + 1
    ensures host.spawns == old(host.spawns) + Count(b.spawn.Spawned?) +
      Count(CompileOutcome(b).Ok? && !Truthy(CompileOutcome(b).value) && run.Spawned?)
    ensures host.kills - old(host.kills) == host.spawns - old(host.spawns)
    ensures host.chmods == old(host.chmods) + Count(ChmodRuns(b))
    ensures host.chowns == old(host.chowns) + Count(ChownRuns(b))
    ensures host.checks == old(host.checks)
    ensures CompileOutcome(b).Err? ==>
      r == Some(CompileOutcome(b).fault) && host.executions == old(host.executions) &&
      data.result == old(data.result) && data.error == old(data.error)
    ensures CompileOutcome(b).Ok? && Truthy(CompileOutcome(b).value) ==>
      r.None? && host.executions == old(host.executions) &&
      data.error == CompileOutcome(b).value && data.result == old(data.result)
    ensures CompileOutcome(b).Ok? && !Truthy(CompileOutcome(b).value) ==>
      host.executions == old(host.executions) + [data.dataIn] &&
      match ExecuteOutcome(run)
      case Err(f) => r == Some(f) && data.result == old(data.result) && data.error == old(data.error)
      case Ok(x) => r.None? && data.result == x.result && data.error == x.error
  {
    file := new GoFile(data.code);
    var compiled := Compile(host, b);
    if compiled.Err? {
      return Some(compiled.fault), file;
    }
    var error := compiled.value;
    if Truthy(error) {
      data.error := error;
    } else {
      var executed := Execute(host, data.dataIn, run);
      if executed.Err? {
        return Some(executed.fault), file;
      }
      data.result := executed.value.result;
      data.error := executed.value.error;
    }
    file.Remove();
    r := None;
  }

  // ---------------------------------------------------------------------------------
  // testing
  // ---------------------------------------------------------------------------------

  /** A test case after a failed build: the diagnostics as error, and a failing verdict. */
  function Stamp(t: TestData, error: Option<string>): (r: TestData)
    ensures r.error == error && r.ok == Some(false)
    ensures r.dataIn == t.dataIn && r.dataOut == t.dataOut && r.result == t.result
  {
    t.(error := error, ok := Some(false))
  }

  /**
   * A test case after its turn in the loop, the exception that ended the loop there, and
   * whether the turn reached `_check`.
   */
  datatype Graded = Graded(test: TestData, fault: Option<Fault>, checked: bool)

  /**
   * One turn of the loop after a good build: run on the case's input, store output and
   * diagnostics, then check the output against the expected one and store the verdict.
   * An exception from the run leaves the case as it was; one from the check leaves the
   * output and diagnostics stored and the verdict as it was.
   */
  function Grade(t: TestData, checker: string, run: Spawn,
                 evaluate: (string, string, Option<string>) -> Verdict): (g: Graded)
    ensures g.test.dataIn == t.dataIn && g.test.dataOut == t.dataOut
    ensures g.checked <==> ExecuteOutcome(run).Ok?
    ensures ExecuteOutcome(run).Err? ==> g.test == t && g.fault == Some(ExecuteOutcome(run).fault)
    ensures ExecuteOutcome(run).Ok? ==>
      g.test.result == ExecuteOutcome(run).value.result &&
      g.test.error == ExecuteOutcome(run).value.error
    ensures ExecuteOutcome(run).Ok? ==>
      var c := Check(checker, t.dataOut, g.test.result, evaluate);
      (c.Ok? ==> g.fault.None? && g.test.ok == Some(c.value)) &&
      (c.Err? ==> g.fault == Some(c.fault) && g.test.ok == t.ok)
  {
    match ExecuteOutcome(run)
    case Err(f) => Graded(t, Some(f), false)
    case Ok(x) =>
      var ran := t.(result := x.result, error := x.error);
      match Check(checker, t.dataOut, x.result, evaluate)
      case Err(f) => Graded(ran, Some(f), true)
      case Ok(v) => Graded(ran.(ok := Some(v)), None, true)
  }

  /** The turns of the first `n` cases, case `k` running as `runs(k)`, as if each took one. */
  function Outcomes(tests: seq<TestData>, checker: string, runs: nat -> Spawn,
                    evaluate: (string, string, Option<string>) -> Verdict, n: nat): (g: seq<Graded>)
    requires n <= |tests|
    ensures |g| == n
  {
    if n == 0 then []
    else Outcomes(tests, checker, runs, evaluate, n - 1) + [Grade(tests[n - 1], checker, runs(n - 1), evaluate)]
  }

  lemma {:induction false} OutcomesAt(tests: seq<TestData>, checker: string, runs: nat -> Spawn,
                                      evaluate: (string, string, Option<string>) -> Verdict, n: nat, k: nat)
    requires k < n <= |tests|
    ensures Outcomes(tests, checker, runs, evaluate, n)[k] == Grade(tests[k], checker, runs(k), evaluate)
  {
    if k < n - 1 {
      OutcomesAt(tests, checker, runs, evaluate, n - 1, k);
    }
  }

  /** The index of the first turn that raises, or the number of turns when none does. */
  function FirstFault(graded: seq<Graded>, from: nat): (k: nat)
    requires from <= |graded|
    ensures from <= k <= |graded|
    ensures forall j :: from <= j < k ==> graded[j].fault.None?
    ensures k < |graded| ==> graded[k].fault.Some?
    decreases |graded| - from
  {
    if from == |graded| then from
    else if graded[from].fault.Some? then from
    else FirstFault(graded, from + 1)
  }

  /** The inputs of the cases, in order. */
  function Inputs(tests: seq<TestData>): (r: seq<Option<string>>)
    ensures |r| == |tests| && forall k :: 0 <= k < |r| ==> r[k] == tests[k].dataIn
  {
    seq(|tests|, k requires 0 <= k < |tests| => tests[k].dataIn)
  }

  /** The expected outputs and stored outputs of the cases, in order: what `_check` is given. */
  function Checked(tests: seq<TestData>): (r: seq<(string, Option<string>)>)
    ensures |r| == |tests| && forall k :: 0 <= k < |r| ==> r[k] == (tests[k].dataOut, tests[k].result)
  {
    seq(|tests|, k requires 0 <= k < |tests| => (tests[k].dataOut, tests[k].result))
  }

  /** How many cases reach `_execute`: all of them, or those up to the one that raises. */
  function Executed(graded: seq<Graded>): (m: nat)
    ensures m <= |graded|
  {
    var stop := FirstFault(graded, 0);
    if stop < |graded| then stop + 1 else stop
  }

  /** How many cases reach `_check`: as `Executed`, less the one whose run raised. */
  function CheckedCount(graded: seq<Graded>): (m: nat)
    ensures m <= |graded|
  {
    var stop := FirstFault(graded, 0);
    if stop < |graded| && !graded[stop].checked then stop else Executed(graded)
  }

  /** How many of the runs of the first `n` cases create a process. */
  function Spawns(runs: nat -> Spawn, n: nat): (m: nat)
    ensures m <= n
    ensures m == n <==> forall k :: 0 <= k < n ==> runs(k).Spawned?
  {
    if n == 0 then 0 else Spawns(runs, n - 1) + Count(runs(n - 1).Spawned?)
  }

  /**
   * The loop of `testing` after a good build took `before` to `after` and ended with `r`,
   * where `graded` are the turns of the cases: the cases before the first turn that raises
   * took their turn, that one took its turn up to the exception, which is `r`, and the
   * later ones are untouched.
   */
  ghost predicate SuiteGraded(before: seq<TestData>, after: seq<TestData>, graded: seq<Graded>,
                              r: Option<Fault>)
    requires |graded| == |before|
  {
    var n := |before|;
    var stop := FirstFault(graded, 0);
    && |after| == n
    && (forall k :: 0 <= k < stop ==> after[k] == graded[k].test)
    && (forall k :: stop < k < n ==> after[k] == before[k])
    && (stop == n <==> r.None?)
    && (stop < n ==> after[stop] == graded[stop].test && r == graded[stop].fault)
  }

  /** The loop of `testing` after diagnostics: every case stamped with them. */
  method StampAll(tests: array<TestData>, error: Option<string>)
    modifies tests
    ensures forall k :: 0 <= k < tests.Length ==> tests[k] == Stamp(old(tests[k]), error)
  {
    var i := 0;
    while i < tests.Length
      invariant 0 <= i <= tests.Length
      invariant forall k :: 0 <= k < i ==> tests[k] == Stamp(old(tests[k]), error)
      invariant forall k :: i <= k < tests.Length ==> tests[k] == old(tests[k])
    {
      tests[i] := Stamp(tests[i], error);
      i := i + 1;
    }
  }

  /**
   * The loop of `testing` after a good build: the cases take their turns in order, case
   * `i` running as `runs(i)`, until the first exception.
   */
  method GradeAll(host: Host, tests: array<TestData>, checker: string, runs: nat -> Spawn,
                  evaluate: (string, string, Option<string>) -> Verdict) returns (r: Option<Fault>)
    modifies host, tests
    ensures var graded := Outcomes(old(tests[..]), checker, runs, evaluate, tests.Length);
      && SuiteGraded(old(tests[..]), tests[..], graded, r)
      && host.executions == old(host.executions) + Inputs(old(tests[..])[..Executed(graded)])
      && host.checks == old(host.checks) + Checked(tests[..CheckedCount(graded)])
      && host.spawns == old(host.spawns) + Spawns(runs, Executed(graded))
    ensures host.compiles == old(host.compiles)
    ensures host.kills - old(host.kills) == host.spawns - old(host.spawns)
    ensures host.chmods == old(host.chmods) && host.chowns == old(host.chowns)
  {
    ghost var initial := tests[..];
    ghost var graded := Outcomes(initial, checker, runs, evaluate, tests.Length);
    ghost var stop := FirstFault(graded, 0);
    var n := tests.Length;
    var i := 0;
    r := None;
    // an exception ends the loop: the turn that raised is the last one
    while i < n && r.None?
      invariant 0 <= i <= n
      invariant r.None? ==> i <= stop
      invariant r.Some? ==> 0 < i && i - 1 == stop && r == graded[i - 1].fault
      invariant tests[..] == Partial(initial, graded, i)
      invariant host.executions == old(host.executions) + Inputs(initial[..i])
      invariant host.checks == old(host.checks) + Checked(tests[..i - Count(Unchecked(graded, r, i))])
      invariant host.compiles == old(host.compiles)
      invariant host.spawns == old(host.spawns) + Spawns(runs, i)
      invariant host.kills == old(host.kills) + Spawns(runs, i)
      invariant host.chmods == old(host.chmods) && host.chowns == old(host.chowns)
    {
      r := Turn(host, tests, i, checker, runs, evaluate, initial);
      FirstFaultStep(graded, i);
      PartialStep(initial, graded, i);
      InputsSnoc(initial, i);
      if graded[i].checked {
        CheckedSnoc(tests[..], i);
      }
      i := i + 1;
    }
    LoopEnded(initial, tests[..], graded, i, r);
  }

  /** The cases after the first `i` turns: those `i` as their turns left them, the rest as before. */
  function Partial(before: seq<TestData>, graded: seq<Graded>, i: nat): (s: seq<TestData>)
    requires |graded| == |before| && i <= |before|
    ensures |s| == |before|
  {
    seq(|before|, k requires 0 <= k < |before| => if k < i then graded[k].test else before[k])
  }

  lemma PartialStep(before: seq<TestData>, graded: seq<Graded>, i: nat)
    requires |graded| == |before| && i < |before|
    ensures Partial(before, graded, i + 1) == Partial(before, graded, i)[i := graded[i].test]
  {
  }

  /** The last turn raised in `_execute`, so it made no `_check` call. */
  predicate Unchecked(graded: seq<Graded>, r: Option<Fault>, i: nat) {
    r.Some? && 0 < i <= |graded| && !graded[i - 1].checked
  }

  /** The loop has ended after `i` turns with `r`: the postcondition of `GradeAll`. */
  lemma LoopEnded(before: seq<TestData>, after: seq<TestData>, graded: seq<Graded>, i: nat, r: Option<Fault>)
    requires |after| == |before| == |graded| && i <= |before|
    requires r.None? ==> i == |before| && i <= FirstFault(graded, 0)
    requires r.Some? ==> 0 < i && i - 1 == FirstFault(graded, 0) && r == graded[i - 1].fault
    requires after == Partial(before, graded, i)
    ensures SuiteGraded(before, after, graded, r)
    ensures Executed(graded) == i
    ensures CheckedCount(graded) == i - Count(Unchecked(graded, r, i))
  {
  }

  /** The loop may go on past turn `i` exactly when that turn does not raise. */
  lemma FirstFaultStep(graded: seq<Graded>, i: nat)
    requires i < |graded| && i <= FirstFault(graded, 0)
    ensures graded[i].fault.None? ==> i < FirstFault(graded, 0)
    ensures graded[i].fault.Some? ==> i == FirstFault(graded, 0)
  {
  }

  lemma InputsSnoc(tests: seq<TestData>, i: nat)
    requires i < |tests|
    ensures Inputs(tests[..i + 1]) == Inputs(tests[..i]) + [tests[i].dataIn]
  {
  }

  lemma CheckedSnoc(tests: seq<TestData>, i: nat)
    requires i < |tests|
    ensures Checked(tests[..i + 1]) == Checked(tests[..i]) + [(tests[i].dataOut, tests[i].result)]
  {
  }

  /**
   * One turn of the loop of `testing` on case `i`, which still holds `before[i]`:
   * `_execute` on its input, then `_check` on its stored output unless the run raised.
   */
  method Turn(host: Host, tests: array<TestData>, i: nat, checker: string, runs: nat -> Spawn,
              evaluate: (string, string, Option<string>) -> Verdict, ghost before: seq<TestData>)
    returns (r: Option<Fault>)
    requires i < tests.Length == |before| && tests[i] == before[i]
    modifies host, tests
    ensures var g := Outcomes(before, checker, runs, evaluate, |before|)[i];
      && tests[i] == g.test && r == g.fault && (g.checked || r.Some?)
      && host.checks == old(host.checks) + if g.checked then [(tests[i].dataOut, tests[i].result)] else []
    ensures tests[..] == old(tests[..])[i := tests[i]]
    ensures host.executions == old(host.executions) + [before[i].dataIn]
    ensures host.compiles == old(host.compiles)
    ensures host.spawns == old(host.spawns) + Count(runs(i).Spawned?)
    ensures host.kills == old(host.kills) + Count(runs(i).Spawned?)
    ensures host.chmods == old(host.chmods) && host.chowns == old(host.chowns)
  {
    OutcomesAt(before, checker, runs, evaluate, |before|, i);
    var test := tests[i];
    var executed := Execute(host, test.dataIn, runs(i));
    if executed.Err? {
      return Some(executed.fault);
    }
    test := test.(result := executed.value.result, error := executed.value.error);
    tests[i] := test;
    var verdict := CheckCall(host, checker, test.dataOut, test.result, evaluate);
    if verdict.Err? {
      return Some(verdict.fault);
    }
    tests[i] := test.(ok := Some(verdict.value));
    r := None;
  }

  /**
   * `testing`: compile once. After diagnostics, every case gets them as its error and a
   * failing verdict, and nothing runs. Otherwise the cases take their turns in order,
   * case `i` running as `runs(i)`; the first exception ends the loop, leaves the later
   * cases untouched and skips the removal of the workspace.
   */
  method Testing(host: Host, data: TestsData, b: Build, runs: nat -> Spawn,
                 evaluate: (string, string, Option<string>) -> Verdict)
    returns (r: Option<Fault>, file: GoFile)
    modifies host, data.tests
    ensures fresh(file) && file.code == data.code
    ensures file.removals == Count(r.None?)
    ensures host.compiles == old(host.compiles) + 1
    ensures host.kills - old(host.kills) == host.spawns - old(host.spawns)
    ensures host.chmods == old(host.chmods) + Count(ChmodRuns(b))
    ensures host.chowns == old(host.chowns) + Count(ChownRuns(b))
    ensures CompileOutcome(b).Err? ==>
      r == Some(CompileOutcome(b).fault) && data.tests[..] == old(data.tests[..]) &&
      host.executions == old(host.executions) && host.checks == old(host.checks) &&
      host.spawns == old(host.spawns) + Count(b.spawn.Spawned?)
    ensures CompileOutcome(b).Ok? && Truthy(CompileOutcome(b).value) ==>
      r.None? && host.executions == old(host.executions) && host.checks == old(host.checks) &&
      host.spawns == old(host.spawns) + Count(b.spawn.Spawned?) &&
      forall k :: 0 <= k < data.tests.Length ==>
        data.tests[k] == Stamp(old(data.tests[k]), CompileOutcome(b).value)
    ensures CompileOutcome(b).Ok? && !Truthy(CompileOutcome(b).value) ==>
      var before := old(data.tests[..]);
      var graded := Outcomes(before, data.checker, runs, evaluate, |before|);
      && SuiteGraded(before, data.tests[..], graded, r)
      && host.executions == old(host.executions) + Inputs(before[..Executed(graded)])
      && host.checks == old(host.checks) + Checked(data.tests[..CheckedCount(graded)])
      && host.spawns == old(host.spawns) + Count(b.spawn.Spawned?) + Spawns(runs, Executed(graded))
  {
    file := new GoFile(data.code);
    var compiled := Compile(host, b);
    if compiled.Err? {
      return Some(compiled.fault), file;
    }
    var error := compiled.value;
    if Truthy(error) {
      StampAll(data.tests, error);
      r := None;
    } else {
      r := GradeAll(host, data.tests, data.checker, runs, evaluate);
    }
    if r.None? {
      file.Remove();
    }
  }
}
