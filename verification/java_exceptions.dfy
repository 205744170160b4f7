/** The Java exception classes the model distinguishes. */
module JavaExceptions {
  /**
   * Java exceptions, by class, as the gateway and the Java clients raise or
   * let them through. `Runtime` is any other unchecked exception (a buffer
   * underflow or overflow, a negative array size, a failed cast); `Checked`
   * any other checked one.
   */
  datatype Thrown =
    | NullPointer
    | IllegalArgument(message: string)
    | IllegalState(message: string)
    | UnsupportedOperation
    | Runtime
    | Interrupted
    | Checked

  /** Unchecked exceptions: everything but `InterruptedException` and other checked ones. */
  predicate IsUnchecked(e: Thrown)
  {
    !(e.Interrupted? || e.Checked?)
  }
}
