/**
 * The download queue engine as a state machine: its state, what each
 * operation and each process event does to it, and the signals each one
 * emits. The class in download_queue.dfy performs these transitions in
 * place; this module states them.
 *
 * A QProcess is reduced to the events that reach the queue (a stdout
 * chunk, a stderr chunk, finished(exitCode, exitStatus)); a QTimer
 * single-shot is a pending entry in `timers` that a later step fires; the
 * mutex is dropped because the model is sequential.
 */
module QueueModel {
  import opened Common
  import opened Text
  import opened DownloadItems
  import opened Process
  import opened ProgressParser
  import opened YtDlpCommand

  /** m_currentProcess: none, a running yt-dlp started with `arguments`, or
      a process that is no longer running but has not been released. */
  datatype ProcessState = NoProcess | ProcessRunning(arguments: seq<string>) | ProcessExited

  /** A QTimer::singleShot call still waiting to fire. */
  datatype Deferred = StartQueueLater | ProcessNextLater

  /** The queue's signals. */
  datatype Signal =
    | DownloadAddedToQueue(totalCount: int)
    | DownloadStarted(item: DownloadItem)
    | DownloadProgress(percentage: int)
    | DownloadCompleted(item: DownloadItem)
    | DownloadFailed(item: DownloadItem, error: string)
    | QueueFinished
    | QueueStatusChanged(current: int, total: int)

  /** The queue's fields. */
  datatype QueueState = QueueState(
    queue: seq<DownloadItem>,
    history: seq<DownloadItem>,
    current: DownloadItem,
    hasCurrent: bool,
    running: bool,
    paused: bool,
    completedCount: int,
    totalCount: int,
    totalFragments: int,
    currentFragment: int,
    process: ProcessState,
    timers: seq<Deferred>)

  /** A state is its fields. */
  lemma Rebuild(s: QueueState)
    ensures s == QueueState(s.queue, s.history, s.current, s.hasCurrent, s.running, s.paused,
                            s.completedCount, s.totalCount, s.totalFragments, s.currentFragment, s.process, s.timers)
  {
  }

  /** The new state, the signals emitted in order, and the command lines
      written to the log (with the password masked). */
  datatype Step = Step(state: QueueState, emitted: seq<Signal>, logged: seq<string>)

  /** The state right after construction. */
  function Initial(): (s: QueueState)
    ensures s.queue == [] && s.history == [] && !s.hasCurrent && !s.running && !s.paused
    ensures s.completedCount == 0 && s.totalCount == 0 && s.process == NoProcess && s.timers == []
  {
    QueueState([], [], EmptyItem(), false, false, false, 0, 0, 0, 0, NoProcess, [])
  }

  // ---------------------------------------------------------------- invariant

  /** The bookkeeping every reachable state keeps:
      - the completed count is the length of the history;
      - finished, pending and current items together never exceed the total;
      - pending items are exactly as added;
      - the history holds only Completed and Failed items (a cancelled
        download is finalized as Failed). */
  predicate Books(s: QueueState)
  {
    && s.completedCount == |s.history|
    && s.completedCount + |s.queue| + (if s.hasCurrent then 1 else 0) <= s.totalCount
    && (forall i :: 0 <= i < |s.queue| ==> IsFresh(s.queue[i]))
    && (forall i :: 0 <= i < |s.history| ==> s.history[i].status == Completed || s.history[i].status == Failed)
  }

  /** A current download has a running process, is Downloading or
      Cancelled, and has non-negative progress. */
  predicate CurrentLive(s: QueueState)
  {
    s.hasCurrent ==>
      s.process.ProcessRunning?
      && (s.current.status == Downloading || s.current.status == Cancelled)
      && s.current.progress >= 0
  }

  /** What every state between two operations satisfies. */
  predicate Valid(s: QueueState)
  {
    Books(s) && CurrentLive(s)
  }

  /** No download has been lost: every added download is finished, pending
      or current. */
  predicate Accounted(s: QueueState)
  {
    s.completedCount + |s.queue| + (if s.hasCurrent then 1 else 0) == s.totalCount
  }

  // ---------------------------------------------------------------- finalizing a download

  const CrashMessage := "Process crashed unexpectedly"
  const LaunchFailureMessage := "Could not start yt-dlp"

  function ErrorCodeMessage(exitCode: int): string
  {
    "Process finished with error code: " + IntToString(exitCode)
  }

  /** The current download as the finish handler leaves it: a crash fails
      it, exit code 0 completes it at 100%, any other code fails it; a
      failure keeps an error text already collected and otherwise gets one
      for its cause. */
  function Finalized(item: DownloadItem, exitCode: int, exitStatus: ExitStatus): (r: DownloadItem)
    ensures r.status == Completed || r.status == Failed
  {
    match exitStatus
    case CrashExit =>
      item.(status := Failed, errorMessage := if item.errorMessage == "" then CrashMessage else item.errorMessage)
    case NormalExit =>
      if exitCode == 0 then item.(status := Completed, progress := 100)
      else item.(status := Failed, errorMessage := if item.errorMessage == "" then ErrorCodeMessage(exitCode) else item.errorMessage)
  }

  /** Success exactly for a normal exit with code 0, which completes the
      download at 100%; otherwise it fails, keeping its progress and any
      error text already collected, or getting one for its cause. The
      request itself is untouched. */
  lemma FinalizedOutcome(item: DownloadItem, exitCode: int, exitStatus: ExitStatus)
    ensures var r := Finalized(item, exitCode, exitStatus);
      && (r.status == Completed <==> exitStatus == NormalExit && exitCode == 0)
      && (r.status == Completed || r.status == Failed)
      && (r.status == Completed ==> r.progress == 100 && r.errorMessage == item.errorMessage)
      && (r.status == Failed ==> r.progress == item.progress)
      && (item.errorMessage != "" ==> r.errorMessage == item.errorMessage)
      && (item.errorMessage == "" && exitStatus == CrashExit ==> r.errorMessage == CrashMessage)
      && (item.errorMessage == "" && exitStatus == NormalExit && exitCode != 0 ==> r.errorMessage == ErrorCodeMessage(exitCode))
      && r.url == item.url && r.username == item.username && r.password == item.password
      && r.downloadDir == item.downloadDir && r.title == item.title
  {
  }

  /** The signal reporting a finalized download. */
  function Outcome(item: DownloadItem): Signal
  {
    if item.status == Completed then DownloadCompleted(item) else DownloadFailed(item, item.errorMessage)
  }

  /** onDownloadFinished: nothing without a current download; otherwise the
      download is finalized and appended to the history, the count goes up,
      the process is released and the next dispatch is scheduled. */
  function Finish(s: QueueState, exitCode: int, exitStatus: ExitStatus): Step
  {
    if !s.hasCurrent then Step(s, [], [])
    else
      var item := Finalized(s.current, exitCode, exitStatus);
      var s1 := s.(current := item, history := s.history + [item], completedCount := s.completedCount + 1,
                   hasCurrent := false, process := NoProcess, timers := s.timers + [ProcessNextLater]);
      Step(s1, [Outcome(item), QueueStatusChanged(s1.completedCount, s1.totalCount)], [])
  }

  /** The running process ends: finished(exitCode, exitStatus) is delivered. */
  function ProcessExit(s: QueueState, exitCode: int, exitStatus: ExitStatus): Step
    requires s.process.ProcessRunning?
  {
    Finish(s.(process := ProcessExited), exitCode, exitStatus)
  }

  // ---------------------------------------------------------------- dispatch

  /** The arguments a queued download is started with. */
  function QueueArguments(item: DownloadItem): seq<string>
  {
    CredentialedArguments(item.username, item.password, item.downloadDir, QueueFormat, item.url)
  }

  /** startDownloadProcess for the current download. `launched` says whether
      the process started; if it did not, the download fails at once through
      the finish handler with (-1, CrashExit). A process left over from
      before is discarded without reaching the finish handler, which is what
      the "clean up any existing process" step is for; CleanupAsWritten
      states what the code does instead when that process still runs. */
  function Launch(s: QueueState, launched: bool): Step
  {
    var args := QueueArguments(s.current);
    var logged := [MaskedCommand(args, s.current.password)];
    var s1 := s.(totalFragments := 0, currentFragment := 0);
    if launched then Step(s1.(process := ProcessRunning(args)), [], logged)
    else
      var failed := s1.(current := s1.current.(status := Failed, errorMessage := LaunchFailureMessage), process := ProcessExited);
      var f := Finish(failed, -1, CrashExit);
      Step(f.state, f.emitted, logged)
  }

  /** cleanupCurrentProcess as written, at the start of a launch. A process
      still running is killed and waited for; when it ends within the wait
      (`reaped`), its finished(code, CrashExit) is delivered inside the wait
      and the finish handler finalizes whatever is current, which is the
      download being launched. That handler's own cleanup clears
      m_currentProcess, so the outer cleanup then calls deleteLater()
      through a null pointer: `nullRelease`. */
  datatype Cleanup = Cleanup(step: Step, nullRelease: bool)

  function CleanupAsWritten(s: QueueState, reaped: Option<int>): (c: Cleanup)
    ensures c.nullRelease <==> s.process.ProcessRunning? && reaped.Some? && s.hasCurrent
    ensures !c.nullRelease ==> c.step.state == s.(process := NoProcess) && c.step.emitted == []
  {
    if s.process.ProcessRunning? && reaped.Some? && s.hasCurrent then
      Cleanup(Finish(s.(process := ProcessExited), reaped.value, CrashExit), true)
    else Cleanup(Step(s.(process := NoProcess), [], []), false)
  }

  /** processNextDownload: stop if paused, finish the run if nothing is
      pending, otherwise take the head of the queue and start it. */
  function Dispatch(s: QueueState, launched: bool): Step
  {
    if s.paused then Step(s.(running := false), [], [])
    else if s.queue == [] then Step(s.(running := false, hasCurrent := false), [QueueFinished], [])
    else
      var item := s.queue[0].(status := Downloading);
      var s1 := s.(queue := s.queue[1..], current := item, hasCurrent := true);
      var l := Launch(s1, launched);
      Step(l.state, [DownloadStarted(item), QueueStatusChanged(s.completedCount + 1, s.totalCount)] + l.emitted, l.logged)
  }

  // ---------------------------------------------------------------- queue management

  /** addDownload: append a new request and schedule a start unless the
      queue is running or paused. */
  function Add(s: QueueState, url: string, user: string, pass: string, dir: string): Step
  {
    var s1 := s.(queue := s.queue + [NewItem(url, user, pass, dir)], totalCount := s.totalCount + 1,
                 timers := s.timers + (if !s.running && !s.paused then [StartQueueLater] else []));
    Step(s1, [DownloadAddedToQueue(s1.totalCount)], [])
  }

  /** startQueue: nothing if running; otherwise run, unpause and dispatch. */
  function Start(s: QueueState, launched: bool): Step
  {
    if s.running then Step(s, [], [])
    else Dispatch(s.(running := true, paused := false), launched)
  }

  /** pauseQueue: a running process is allowed to finish (the queue stays
      running until the next dispatch sees the pause). */
  function Pause(s: QueueState): Step
  {
    Step(s.(paused := true, running := s.process.ProcessRunning? && s.running), [], [])
  }

  /** cancelCurrentDownload: with a running process, mark the download
      Cancelled and kill the process. `reaped` is the exit code if the
      process ended within the wait (its finish is then handled at once),
      None if it was still running. */
  function Cancel(s: QueueState, reaped: Option<int>): Step
  {
    if !s.process.ProcessRunning? then Step(s, [], [])
    else
      var s1 := s.(current := s.current.(status := Cancelled));
      match reaped
      case None => Step(s1, [], [])
      case Some(exitCode) => ProcessExit(s1, exitCode, CrashExit)
  }

  /** clearQueue: cancel, drop every pending request, stop and unpause;
      counters and history stay. */
  function Clear(s: QueueState, reaped: Option<int>): Step
  {
    var c := Cancel(s, reaped);
    var s1 := c.state.(queue := [], running := false, paused := false);
    Step(s1, c.emitted + [QueueStatusChanged(s1.completedCount, s1.totalCount)], c.logged)
  }

  /** resetQueue: cancel and forget everything, counters included. */
  function Reset(s: QueueState, reaped: Option<int>): Step
  {
    var c := Cancel(s, reaped);
    var s1 := c.state.(queue := [], history := [], completedCount := 0, totalCount := 0,
                       running := false, paused := false, hasCurrent := false);
    Step(s1, c.emitted + [QueueStatusChanged(0, 0)], c.logged)
  }

  /** A pending single-shot timer fires. */
  function FireTimer(s: QueueState, i: nat, launched: bool): Step
    requires i < |s.timers|
  {
    var s1 := s.(timers := s.timers[..i] + s.timers[i + 1..]);
    match s.timers[i]
    case StartQueueLater => Start(s1, launched)
    case ProcessNextLater => Dispatch(s1, launched)
  }

  // ---------------------------------------------------------------- process output

  /** onDownloadOutput: a stdout chunk, trimmed; an empty one is ignored. */
  function Output(s: QueueState, data: string): Step
  {
    var line := Trimmed(data);
    if s.process == NoProcess || line == [] then Step(s, [], [])
    else ReadingStep(s, ReadLine(line))
  }

  /** What a reading of a non-empty stdout line does to the state: the
      fragment counters, the progress and its signal, and the title. */
  function ReadingStep(s: QueueState, r: LineReading): Step
  {
    var item := s.current.(progress := ProgressOf(s.current.progress, r), title := TitleOf(s.current.title, r));
    var s1 := s.(current := item,
                 totalFragments := TotalOf(s.totalFragments, r),
                 currentFragment := FragmentOf(s.currentFragment, r));
    Step(s1, ProgressSignals(s.current.progress, r), [])
  }

  /** The progress signal a reading raises, if any. */
  function ProgressSignals(progress: int, r: LineReading): (emitted: seq<Signal>)
    ensures ReportOf(progress, r).None? <==> emitted == []
    ensures ReportOf(progress, r).Some? ==> emitted == [DownloadProgress(ReportOf(progress, r).value)]
  {
    match ReportOf(progress, r)
    case Some(p) => [DownloadProgress(p)]
    case None => []
  }

  /** The error text after a stderr chunk: the trimmed chunk and a line
      break are appended, an empty chunk changes nothing. */
  function AppendedError(message: string, data: string): (r: string)
    ensures Trimmed(data) == [] ==> r == message
    ensures Trimmed(data) != [] ==> |r| == |message| + |Trimmed(data)| + 1
    ensures StartsWith(r, message)
    ensures Trimmed(data) != [] ==> r[|message|..] == Trimmed(data) + "\n"
  {
    var chunk := Trimmed(data);
    if chunk == [] then message
    else
      ConcatParts(message, chunk + "\n");
      message + (chunk + "\n")
  }

  /** onDownloadError: a stderr chunk. */
  function ErrorOutput(s: QueueState, data: string): Step
  {
    if s.process == NoProcess then Step(s, [], [])
    else Step(s.(current := s.current.(errorMessage := AppendedError(s.current.errorMessage, data))), [], [])
  }

  // ---------------------------------------------------------------- read-only views

  /** updateProgressLabel: the number shown as "Progress (n/total)". */
  function ProgressNumber(s: QueueState): int
  {
    if s.hasCurrent then s.completedCount + 1 else s.completedCount
  }

  /** getCurrentDownload: the current item, or a default item when none. */
  function CurrentDownload(s: QueueState): DownloadItem
  {
    if s.hasCurrent then s.current else EmptyItem()
  }
}
