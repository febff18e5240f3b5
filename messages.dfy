/**
 * The service's fixed sentinel texts (its `messages` catalogue, `MSG_1` .. `MSG_8`).
 * The catalogue module is not part of this model, so the texts below are stand-ins.
 * What the model relies on is only that they are non-empty, pairwise distinct, and
 * that the two sentinels `clean_error` produces survive `clean_error` unchanged
 * (see Utils.SentinelsAreFixedPoints).
 */
module Messages {

  /** MSG_1: the program or the toolchain ran past the deadline. */
  const TimeExceeded: string := "Execution time exceeded"
  /** MSG_2: the checker does not start with the required signature. */
  const InvalidSignature: string := "Invalid checker signature"
  /** MSG_3: the checker has no return statement. */
  const MissingReturn: string := "Checker has no return statement"
  /** MSG_4: the checker returned something other than a bool. */
  const NonBoolean: string := "Checker must return a boolean"
  /** MSG_5: evaluating the checker raised. */
  const CheckerFailed: string := "Checker evaluation failed"
  /** MSG_6: the message of an ExecutionException. */
  const ExecutionFailed: string := "Execution failed"
  /** MSG_7: the message of a CompileException. */
  const CompileFailed: string := "Compilation failed"
  /** MSG_8: the program dumped core. */
  const CoreDumped: string := "Core dumped"
}
