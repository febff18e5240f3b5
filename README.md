# sandbox-golang1.23: the grading core in Dafny

This is a model of the core of a small service that compiles a Go submission, runs it on
inputs, and grades each output with a checker function written in Python. It has two
parts.

* **The sanitiser** (module `Utils`, from `src/app/utils.py`).
  * `clean_str` deletes carriage returns and strips trailing line feeds from a program's output.
  * `clean_error` rewrites scratch-directory paths matching `/(tmp|sandbox)/\S*\.go` to `main.go`.
    It then maps a deadline kill to the time-out sentinel (MSG_1) and a core dump to MSG_8.
  * The regular-expression substitution is modelled as an explicit left-to-right scan, `Rewrite`.
    Each match is found at the leftmost start (`MatchAt`). It is greedy over the run of
    non-whitespace characters, and backs off to the last `.go` in that run (`BackOff`).
  * `MatchAtIsLongestMatch` proves that this scan finds the longest prefix in the language
    of the pattern, as defined declaratively by `PathWord`.
* **The service's decision logic** (module `GoService`, from `src/app/service/main.py`).
  * The pure parts are functions. `ValidateChecker` and `Check` classify the checker and its
    verdict. `CompileOutcome` and `ExecuteOutcome` turn a process outcome into a value or an
    exception.
  * The parts that run step by step are methods. `Compile` and `Execute` run the process and
    always kill it. `Debug` and `Testing` fill in the request records in place.
  * Side effects are counted in the ghost logs of a `Host` object: compiles, spawns, kills,
    `chmod`, `chown`, the inputs given to `_execute` and the arguments given to `_check`.

The operating system and the Python interpreter are oracles:

* How a child process ends is a `Spawn` value:
  * `Popen` raised;
  * `communicate` returned `(stdout, stderr)`;
  * `communicate` hit the deadline;
  * `communicate` raised.
* A build also carries whether `chmod` and `chown` would raise.
* The checker's verdict is a function `evaluate` of the program text handed to `exec` and the
  two arguments. It returns a bool, a non-bool, the text of an `Exception`, or the text of
  another `BaseException`.
* In `testing`, case `i` runs as `runs(i)`.

Module `Entities` holds the records:

* `GoFile`, the scratch workspace, whose `remove` is counted;
* `ExecuteResult`;
* the `DebugData` request;
* the `TestsData` request, whose cases sit in an array updated in place.

Module `Messages` holds the sentinel texts.

The model keeps these facts of the code, which a reader might expect to be otherwise:

* `rstrip('\n')` removes every trailing line feed, not just one.
* `file.remove()` is not in a `finally`. A compile, execution or checker exception escapes
  without removing the workspace.
* In `testing`, an exception from one case ends the whole loop. The later cases are left
  untouched.
* In `_execute`, `Popen` sits outside the `try`. Its exception escapes as it is, not as an
  execution exception, and nothing is killed. The model gives it its own `SpawnFault`.
* `_check` catches only `Exception`. A checker that raises another `BaseException`, such as
  `SystemExit` from `exit()`, lets it escape as it is. The model gives it its own
  `CheckerAbort`, and in `testing` it ends the loop like any other exception.

## Model

| member | source | states |
|---|---|---|
| Utils.Contains | src/app/utils.py:20-22 | the `in` test, as a scan: it holds exactly when the phrase occurs at some index |
| Utils.DeleteCR | src/app/utils.py:8 | no carriage return is left; every other character keeps its count; text without one is unchanged |
| Utils.DeleteCRAppend | src/app/utils.py:8 | deleting carriage returns distributes over concatenation |
| Utils.StripTrailingLF | src/app/utils.py:8 | the result is a prefix of the input, does not end with a line feed, and only line feeds were removed |
| Utils.CleanStr | src/app/utils.py:6-9 | `None` maps to `None`; otherwise the result has no carriage return and no trailing line feed, and removing the carriage returns from the input gives the result followed by line feeds only |
| Utils.StripLFs | src/app/utils.py:8 | text that does not end in a line feed, followed by any number of line feeds, strips back to itself |
| Utils.CleanStrUnique | src/app/utils.py:6-9 | if removing carriage returns leaves `t` plus line feeds, and `t` does not end in one, the result is exactly `t` |
| Utils.CleanStrIdempotent | src/app/utils.py:6-9 | cleaning twice equals cleaning once |
| Utils.CleanStrTrailing | src/app/utils.py:8 | a trailing carriage return and any line feeds after it are all removed |
| Utils.CleanStrNewlineOnly | src/app/utils.py:8 | output consisting of one line feed cleans to the empty text, not to `None` |
| Utils.DirPrefix | src/app/utils.py:14 | the length of the `/tmp/` or `/sandbox/` prefix, and 0 exactly when neither prefix is present |
| Utils.DirsExclusive | src/app/utils.py:14 | no text starts with both directory prefixes |
| Utils.NonSpaceRun | src/app/utils.py:14 | the run of non-whitespace characters at the start, ending at whitespace or at the end of the text |
| Utils.RunIsLongest | src/app/utils.py:14 | every non-whitespace prefix fits inside that run |
| Utils.BackOff | src/app/utils.py:14 | the last end of `.go` in a window, or none when the window has none |
| Utils.MatchAt | src/app/utils.py:14 | a match is at least as long as `/tmp/.go` and fits in the text |
| Utils.PathWordPrefix | src/app/utils.py:14 | a prefix matches the pattern exactly when it is a directory prefix, then non-whitespace within the run, then a `.go` ending |
| Utils.Rewrite | src/app/utils.py:15-19 | `re.sub` as a left-to-right scan: it yields the empty text exactly for the empty text; `MatchAtIsLongestMatch` shows each match it takes is the longest pattern word at that start, `RewriteLeftmost` that the leftmost match is replaced by `main.go` with the text before it kept, and `RewriteIdentity` that text with no match is unchanged |
| Utils.MatchAtIsLongestMatch | src/app/utils.py:14-19 | the scan's match is in the pattern's language and no longer prefix is; with no match, no prefix is |
| Utils.RewriteSkip | src/app/utils.py:15-19 | text before the first match position is copied unchanged |
| Utils.RewriteLeftmost | src/app/utils.py:15-19 | the leftmost, longest match is replaced by `main.go`, the text before it is kept, and the scan resumes after it |
| Utils.MatchAtLongest | src/app/utils.py:14 | a pattern prefix with no longer pattern prefix is what the scan finds |
| Utils.RewriteAtMatch | src/app/utils.py:15-19 | a match at the start becomes `main.go`, and the rest is rewritten |
| Utils.RewriteIdentity | src/app/utils.py:15-19 | text with no match anywhere is unchanged |
| Utils.NoDirNoMatch | src/app/utils.py:14 | text with neither `/tmp/` nor `/sandbox/` has no match anywhere |
| Utils.RewritePassThrough | src/app/utils.py:14-19 | text with neither directory is returned unchanged by the rewrite |
| Utils.DiagnosticLongest | src/app/service/tests/test_service.py:266-309 | in `<dir><name>.go<tail>` followed by whitespace, the match ends at `.go` |
| Utils.RewriteDiagnostic | src/app/service/tests/test_service.py:266-309 | `/sandbox/<name>.go:2:5: …` becomes `main.go:2:5: …`, and the rest is rewritten independently |
| Utils.RewriteDiagnosticLine | src/app/service/tests/test_service.py:266-309 | with no further scratch path, the rest of the diagnostic is kept verbatim |
| Utils.CleanError | src/app/utils.py:12-24 | `None` maps to `None`; otherwise the result is one of the two sentinels or the path-rewritten text |
| Utils.CleanErrorSentinels | src/app/utils.py:20-24 | the deadline phrase wins over the core-dump phrase, and each maps to exactly its sentinel |
| Utils.CleanErrorPassThrough | src/app/utils.py:14-24 | text with neither scratch directory nor trigger phrase is returned unchanged |
| Utils.SentinelsAreFixedPoints | src/app/utils.py:20-23 | MSG_1 and MSG_8 are returned unchanged by `clean_error` |
| Utils.CleanErrorKeepsTruthiness | src/app/utils.py:12-24 | the result is a non-empty text exactly when the input is |
| Entities.GoFile.constructor | src/app/service/entities.py:12-17 | a fresh workspace holding the code, not yet removed |
| Entities.GoFile.Remove | src/app/service/entities.py:19-25 | removal always returns and counts one more removal |
| GoService.OrNone | src/app/service/main.py:84-85 | `s or None`: `s` itself when it is a non-empty text, and otherwise `None` |
| GoService.Message | src/app/service/tests/test_service.py:313-410 | a compile exception carries MSG_7, an execution exception MSG_6, a checker exception its given message; exceptions from `Popen` or the checker itself carry none |
| GoService.FaultMessages | src/app/service/main.py:25-115 | every compile exception carries MSG_7, an execution exception from `communicate` MSG_6, and a checker exception one of MSG_2 … MSG_5 |
| GoService.ValidateChecker | src/app/service/main.py:88-95 | accepted exactly when the source starts with the signature line and contains `return`; MSG_2 without the signature, whatever the body; MSG_3 without `return` |
| GoService.SignatureRequired | src/app/service/main.py:90-93 | any other line of the signature's length is refused with MSG_2, whatever follows |
| GoService.Check | src/app/service/main.py:97-115 | validation failures pass through; otherwise a bool verdict is returned unchanged, a non-bool gives MSG_4, an `Exception` gives MSG_5 with its text, and any other `BaseException` escapes as it is |
| GoService.CheckValidatesFirst | src/app/service/main.py:99 | a checker that fails validation is never evaluated: every evaluator gives the same error |
| GoService.CheckCall | src/app/service/main.py:97-115 | returns `Check` and logs the expected and actual output as one `_check` call |
| GoService.CompileOutcome | src/app/service/main.py:25-53 | `Popen` or `communicate` failure gives a compile exception; a deadline gives MSG_1; `chmod` or `chown` failure after empty diagnostics gives a compile exception; otherwise the cleaned diagnostics, truthy exactly when stderr was |
| GoService.Compile | src/app/service/main.py:25-53 | returns `CompileOutcome`; kills the toolchain exactly when it was created; runs `chmod` and `chown` only after empty diagnostics |
| GoService.ExecuteOutcome | src/app/service/main.py:55-86 | a deadline gives no output and MSG_1; a `communicate` failure gives an execution exception; otherwise output is `None` exactly when stdout was empty or `None`, else the cleaned text, and diagnostics are `None` exactly when stderr was empty or `None`, else the cleaned text (never empty) |
| GoService.ExecuteNewlineOutput | src/app/service/main.py:83-86 | stdout of a single line feed is reported as the empty text, not `None` |
| GoService.Execute | src/app/service/main.py:55-86 | returns `ExecuteOutcome`, logs the input, and kills the process exactly once when it was created |
| GoService.Debug | src/app/service/main.py:117-132 | one compile; with diagnostics, report them and run nothing; otherwise run once on the input and copy both texts; one removal exactly when no exception escapes; the exact number of processes spawned, each killed once; `chmod` and `chown` as the compile leaves them |
| GoService.Stamp | src/app/service/main.py:140-142 | a case after a failed build carries the diagnostics and a failing verdict, and nothing else changes |
| GoService.Grade | src/app/service/main.py:143-154 | one case's turn: an execution exception leaves it as it was; otherwise output and diagnostics are stored; a good verdict is stored, and a checker exception leaves the verdict as it was |
| GoService.Outcomes | src/app/service/main.py:139-154 | one turn per case |
| GoService.OutcomesAt | src/app/service/main.py:139-154 | turn `k` is `Grade` of case `k` run as `runs(k)` |
| GoService.Spawns | src/app/service/main.py:139-147 | how many of the first `n` runs create a process: at most `n`, and exactly `n` when every one does |
| GoService.FirstFault | src/app/service/main.py:139-154 | the first turn that raises; every earlier one does not |
| GoService.StampAll | src/app/service/main.py:139-142 | after diagnostics every case is stamped with them |
| GoService.Turn | src/app/service/main.py:143-154 | one pass of the loop body updates only case `i`; it logs one `_execute` call, and one `_check` call exactly when the run did not raise; it spawns and kills at most one process |
| GoService.GradeAll | src/app/service/main.py:139-154 | turns are taken in order up to and including the first exception; later cases are untouched; `_execute` sees the inputs in order; `_check` sees each stored output in order; one process spawned and killed per executed case whose run could be spawned; no `chmod`, `chown` or compile |
| GoService.Testing | src/app/service/main.py:134-156 | one compile; a compile exception changes no case; diagnostics stamp every case with nothing run; otherwise `GradeAll`; count and order of cases are kept; one removal exactly when no exception escapes; the exact number of processes spawned, each killed once; `chmod` and `chown` as the compile leaves them |

## Left out

- Values that are neither text nor `None`, which `clean_str` and `clean_error` return untouched. Every caller passes text or `None`, so the model's type is `Option<string>`.
- A `BaseException` that is not an `Exception` (such as `KeyboardInterrupt`) raised by `communicate`, `chmod` or `chown`, which would also escape `_compile` and `_execute` unwrapped: a `Spawn` or `Build` only raises an `Exception`.
- Processes, the wall-clock deadline and the privilege drop in `_preexec_fn` (main.py:17-23). A process is an input `Spawn` value; spawning, killing, `chmod` and `chown` are ghost counters.
- `exec` of the user's checker: it is the oracle `evaluate`, a function of the program text and the two arguments. This makes it deterministic and free of side effects on the service.
- The texts of MSG_1 … MSG_8. The `messages` module is not part of this model, so the constants are distinct stand-ins. The model assumes, as the service's tests do, that the two sentinels pass through `clean_error` unchanged, and proves this for the stand-ins.
- The `config` module (deadline, sandbox user and group) is not part of this model.
- The `exceptions` module is not part of this model. Exceptions are the `Fault` datatype, which keeps the details each one carries; `GoService.Message` gives the message the service attaches (MSG_6, MSG_7, or the checker's).
- `src/app/entities.py` is not part of this model. `DebugData` and `TestsData` are reduced to the fields the service reads and writes.
- The Flask routes and schemas in `src/app/main.py`: transport plumbing.
- `GoFile`'s directory and file paths, its `mkdtemp` call and its file writes. A failure of `mkdtemp` or of the write is not modelled. Removal is a counter, because it swallows every error.
- Aliasing of test records: the cases are values in an array, so one record shared by two positions of the list is not modelled.
- Unicode whitespace for `\S`: `Utils.IsSpace` lists the characters Python's `str` treats as whitespace, as a fixed table.
