/**
 * The records the service works on: the scratch workspace of one submission, the pair
 * `_execute` returns, and the request records `debug` and `testing` fill in.
 */
module Entities {
  import opened Wrappers

  /** `ExecuteResult`: the cleaned standard output and standard error of one run. */
  datatype ExecuteResult = ExecuteResult(result: Option<string>, error: Option<string>)

  /**
   * `GoFile`: a fresh scratch directory holding `main.go` with the submitted code and,
   * after a build, `main.out`. Only the number of `remove` calls is kept: removal
   * swallows every error, so it always returns.
   */
  class GoFile {
    const code: string
    ghost var removals: nat

    constructor (code: string)
      ensures this.code == code && removals == 0
    {
      this.code := code;
      removals := 0;
    }

    /** `remove`: delete both files and the directory, ignoring failures. */
    method Remove()
      modifies this
      ensures removals == old(removals) + 1
    {
      removals := removals + 1;
    }
  }

  /** The debug request: code and standard input in, output and diagnostics out. */
  class DebugData {
    const code: string
    const dataIn: Option<string>
    var result: Option<string>
    var error: Option<string>

    constructor (code: string, dataIn: Option<string>)
      ensures this.code == code && this.dataIn == dataIn && result.None? && error.None?
    {
      this.code := code;
      this.dataIn := dataIn;
      result := None;
      error := None;
    }
  }

  /** One test case: its input and expected output, and the fields the run fills in. */
  datatype TestData = TestData(
    dataIn: Option<string>,
    dataOut: string,
    result: Option<string>,
    error: Option<string>,
    ok: Option<bool>)

  /** The testing request: code, checker source and the ordered test cases. */
  class TestsData {
    const code: string
    const checker: string
    const tests: array<TestData>

    constructor (code: string, checker: string, tests: seq<TestData>)
      ensures this.code == code && this.checker == checker
      ensures fresh(this.tests) && this.tests[..] == tests
    {
      this.code := code;
      this.checker := checker;
      this.tests := new TestData[|tests|](i requires 0 <= i < |tests| => tests[i]);
    }
  }
}
