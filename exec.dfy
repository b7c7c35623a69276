/**
 * Subprocesses as the modelled programs see them: `execSync` either returns the
 * command's stdout or throws. No command is ever run; a shell is a function from the
 * command text to its outcome, given as an input.
 */
module Exec {
  import opened Wrappers

  /**
   * What `execSync` did: returned its stdout, or threw with an exit status (None: `null`,
   * the process was killed by a signal), a message and a stderr.
   */
  datatype ExecOutcome =
    | ExecOk(stdout: string)
    | ExecFailed(status: Option<int>, message: string, stderr: Option<string>)

  /** The outcome of every command line, in the working directory of the caller. */
  type Shell = string -> ExecOutcome
}
