/**
 * The few facts about a child process (QProcess) that the download logic
 * reacts to: how it ended and which error it reported.
 */
module Process {

  /** QProcess::ExitStatus. A process killed by a signal ends with CrashExit. */
  datatype ExitStatus = NormalExit | CrashExit

  /** QProcess::ProcessError. */
  datatype ProcessError = FailedToStart | Crashed | Timedout | WriteError | ReadError | UnknownError
}
