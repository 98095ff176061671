/**
 * What the queue engine's transitions guarantee: the invariant each one
 * keeps, the FIFO discipline, the run/pause flags, the finish mapping, and
 * the progress rules as the current download sees them.
 */
module QueueProperties {
  import opened Common
  import opened Text
  import opened DownloadItems
  import opened Process
  import opened ProgressParser
  import opened ProgressProperties
  import opened YtDlpCommand
  import opened QueueModel

  // ---------------------------------------------------------------- the invariant

  lemma InitialValid()
    ensures Valid(Initial()) && Accounted(Initial())
  {
  }

  /** Finishing from any state with sound books leaves a valid state. */
  lemma FinishValid(s: QueueState, exitCode: int, exitStatus: ExitStatus)
    requires Books(s)
    ensures Valid(Finish(s, exitCode, exitStatus).state)
  {
    if s.hasCurrent {
      var item := Finalized(s.current, exitCode, exitStatus);
      var h := s.history + [item];
      assert forall i :: 0 <= i < |h| ==> h[i] == (if i < |s.history| then s.history[i] else item);
    }
  }

  lemma LaunchValid(s: QueueState, launched: bool)
    requires Books(s) && s.hasCurrent && s.current.status == Downloading && s.current.progress >= 0
    ensures Valid(Launch(s, launched).state)
  {
    if !launched {
      var failed := s.(current := s.current.(status := Failed, errorMessage := LaunchFailureMessage), process := ProcessExited);
      FinishValid(failed, -1, CrashExit);
    }
  }

  lemma DispatchValid(s: QueueState, launched: bool)
    requires Valid(s)
    ensures Valid(Dispatch(s, launched).state)
  {
    if !s.paused && s.queue != [] {
      var item := s.queue[0].(status := Downloading);
      var s1 := s.(queue := s.queue[1..], current := item, hasCurrent := true);
      assert forall i :: 0 <= i < |s1.queue| ==> s1.queue[i] == s.queue[i + 1];
      LaunchValid(s1, launched);
    }
  }

  lemma AddValid(s: QueueState, url: string, user: string, pass: string, dir: string)
    requires Valid(s)
    ensures Valid(Add(s, url, user, pass, dir).state)
  {
    var q := s.queue + [NewItem(url, user, pass, dir)];
    assert forall i :: 0 <= i < |q| ==> q[i] == (if i < |s.queue| then s.queue[i] else NewItem(url, user, pass, dir));
  }

  lemma StartValid(s: QueueState, launched: bool)
    requires Valid(s)
    ensures Valid(Start(s, launched).state)
  {
    if !s.running {
      DispatchValid(s.(running := true, paused := false), launched);
    }
  }

  lemma PauseValid(s: QueueState)
    requires Valid(s)
    ensures Valid(Pause(s).state)
  {
  }

  lemma CancelValid(s: QueueState, reaped: Option<int>)
    requires Valid(s)
    ensures Valid(Cancel(s, reaped).state)
  {
    if s.process.ProcessRunning? && reaped.Some? {
      var s1 := s.(current := s.current.(status := Cancelled));
      FinishValid(s1.(process := ProcessExited), reaped.value, CrashExit);
    }
  }

  lemma ClearValid(s: QueueState, reaped: Option<int>)
    requires Valid(s)
    ensures Valid(Clear(s, reaped).state)
  {
    CancelValid(s, reaped);
  }

  lemma ResetValid(s: QueueState, reaped: Option<int>)
    requires Valid(s)
    ensures Valid(Reset(s, reaped).state) && Accounted(Reset(s, reaped).state)
  {
  }

  lemma ProcessExitValid(s: QueueState, exitCode: int, exitStatus: ExitStatus)
    requires Valid(s) && s.process.ProcessRunning?
    ensures Valid(ProcessExit(s, exitCode, exitStatus).state)
  {
    FinishValid(s.(process := ProcessExited), exitCode, exitStatus);
  }

  lemma FireTimerValid(s: QueueState, i: nat, launched: bool)
    requires Valid(s) && i < |s.timers|
    ensures Valid(FireTimer(s, i, launched).state)
  {
    var s1 := s.(timers := s.timers[..i] + s.timers[i + 1..]);
    StartValid(s1, launched);
    DispatchValid(s1, launched);
  }

  lemma OutputValid(s: QueueState, data: string)
    requires Valid(s)
    ensures Valid(Output(s, data).state)
  {
    var line := Trimmed(data);
    if s.process != NoProcess && line != [] && s.hasCurrent {
      ProgressStaysNonNegative(s.current.progress, line);
    }
  }

  lemma ErrorOutputValid(s: QueueState, data: string)
    requires Valid(s)
    ensures Valid(ErrorOutput(s, data).state)
  {
  }

  // ---------------------------------------------------------------- adding and dispatching

  /** addDownload puts a new Pending item with no progress at the tail and
      counts it; finished downloads and the current one are untouched, and
      a start is scheduled exactly when the queue is neither running nor
      paused. */
  lemma AddAppends(s: QueueState, url: string, user: string, pass: string, dir: string)
    ensures var r := Add(s, url, user, pass, dir);
            && |r.state.queue| == |s.queue| + 1 && r.state.queue[..|s.queue|] == s.queue
            && r.state.queue[|s.queue|].url == url && r.state.queue[|s.queue|].username == user
            && r.state.queue[|s.queue|].password == pass && r.state.queue[|s.queue|].downloadDir == dir
            && r.state.queue[|s.queue|].status == Pending && r.state.queue[|s.queue|].progress == 0
            && r.state.totalCount == s.totalCount + 1
            && r.state.completedCount == s.completedCount && r.state.history == s.history
            && r.state.current == s.current && r.state.hasCurrent == s.hasCurrent
            && r.state.running == s.running && r.state.paused == s.paused
            && (StartQueueLater in r.state.timers[|s.timers|..] <==> !s.running && !s.paused)
            && r.emitted == [DownloadAddedToQueue(s.totalCount + 1)]
  {
    var r := Add(s, url, user, pass, dir);
    assert r.state.queue[..|s.queue|] == s.queue;
    assert r.state.timers[|s.timers|..] == (if !s.running && !s.paused then [StartQueueLater] else []);
  }

  /** A dispatch removes exactly the head of the queue and makes it the
      current download, Downloading, with fragment tracking reset and a
      process started with the queue's arguments. */
  lemma DispatchTakesHead(s: QueueState)
    requires Valid(s) && !s.paused && s.queue != []
    ensures var r := Dispatch(s, true);
            && s.queue == [r.state.current.(status := Pending)] + r.state.queue
            && r.state.current.status == Downloading && r.state.hasCurrent && r.state.running == s.running
            && r.state.totalFragments == 0 && r.state.currentFragment == 0
            && r.state.process == ProcessRunning(QueueArguments(r.state.current))
            && r.state.history == s.history && r.state.completedCount == s.completedCount
            && r.emitted == [DownloadStarted(r.state.current), QueueStatusChanged(s.completedCount + 1, s.totalCount)]
            && r.logged == [MaskedCommand(QueueArguments(r.state.current), r.state.current.password)]
  {
    assert IsFresh(s.queue[0]);
    assert s.queue == [s.queue[0]] + s.queue[1..];
  }

  /** FIFO: adding at the tail does not change which download starts next,
      and the new one waits behind the rest. */
  lemma AddKeepsNextInLine(s: QueueState, url: string, user: string, pass: string, dir: string)
    requires !s.paused && s.queue != []
    ensures var next := Dispatch(Add(s, url, user, pass, dir).state, true).state;
            && next.current == Dispatch(s, true).state.current
            && next.queue == Dispatch(s, true).state.queue + [NewItem(url, user, pass, dir)]
  {
    var q := s.queue + [NewItem(url, user, pass, dir)];
    assert q[0] == s.queue[0];
    assert q[1..] == s.queue[1..] + [NewItem(url, user, pass, dir)];
  }

  /** A dispatch on an empty queue ends the run and emits queueFinished. */
  lemma DispatchOnEmpty(s: QueueState, launched: bool)
    requires !s.paused && s.queue == []
    ensures var r := Dispatch(s, launched);
            !r.state.running && !r.state.hasCurrent && r.emitted == [QueueFinished]
            && r.state.history == s.history && r.state.completedCount == s.completedCount
  {
  }

  /** A launch failure finalizes the head at once as Failed with the launch
      message, through the finish handler, and schedules the next dispatch. */
  lemma LaunchFailureRecorded(s: QueueState)
    requires Valid(s) && !s.paused && s.queue != []
    ensures var r := Dispatch(s, false);
            && |r.state.history| == |s.history| + 1 && r.state.history[..|s.history|] == s.history
            && r.state.history[|s.history|].status == Failed
            && r.state.history[|s.history|].errorMessage == LaunchFailureMessage
            && r.state.history[|s.history|].url == s.queue[0].url
            && r.state.completedCount == s.completedCount + 1 && !r.state.hasCurrent
            && r.state.process == NoProcess && r.state.queue == s.queue[1..]
            && r.state.timers == s.timers + [ProcessNextLater]
            && |r.emitted| == 4 && r.emitted[2] == DownloadFailed(r.state.history[|s.history|], LaunchFailureMessage)
  {
    var r := Dispatch(s, false);
    assert r.state.history[..|s.history|] == s.history;
  }

  // ---------------------------------------------------------------- run and pause flags

  /** startQueue does nothing on a running queue; on a stopped one it
      unpauses, and the queue then runs exactly when there was something
      to start. */
  lemma StartFlags(s: QueueState, launched: bool)
    ensures s.running ==> Start(s, launched) == Step(s, [], [])
    ensures !s.running ==> !Start(s, launched).state.paused
                           && (Start(s, launched).state.running <==> s.queue != [])
  {
  }

  /** pauseQueue always sets the pause flag but stops the run only when no
      process is running; the next dispatch then stops it without touching
      the queue. */
  lemma PauseFlags(s: QueueState, launched: bool)
    ensures var p := Pause(s).state;
            && p.paused
            && (p.running <==> s.running && s.process.ProcessRunning?)
            && p.queue == s.queue && p.hasCurrent == s.hasCurrent
    ensures var d := Dispatch(Pause(s).state, launched);
            !d.state.running && d.state.queue == s.queue && d.state.hasCurrent == s.hasCurrent && d.emitted == []
  {
  }

  // ---------------------------------------------------------------- finishing and cancelling

  /** Without a current download the finish handler does nothing. */
  lemma FinishWithoutCurrent(s: QueueState, exitCode: int, exitStatus: ExitStatus)
    requires !s.hasCurrent
    ensures Finish(s, exitCode, exitStatus) == Step(s, [], [])
  {
  }

  /** With one, the finalized download is appended to the history, counted,
      and no longer current; nothing pending changes. */
  lemma FinishRecords(s: QueueState, exitCode: int, exitStatus: ExitStatus)
    requires s.hasCurrent
    ensures var r := Finish(s, exitCode, exitStatus).state;
            && r.history == s.history + [Finalized(s.current, exitCode, exitStatus)]
            && r.completedCount == s.completedCount + 1 && !r.hasCurrent
            && r.queue == s.queue && r.totalCount == s.totalCount
            && r.process == NoProcess && r.timers == s.timers + [ProcessNextLater]
  {
  }

  /** A cancelled download whose process dies in time ends in the history
      as Failed, not Cancelled: the kill is reported as a crash. */
  lemma CancelledEndsFailed(s: QueueState, exitCode: int)
    requires Valid(s) && s.hasCurrent
    ensures var r := Cancel(s, Some(exitCode)).state;
            && |r.history| == |s.history| + 1
            && r.history[|s.history|].status == Failed
            && r.history[|s.history|].errorMessage == (if s.current.errorMessage == "" then CrashMessage else s.current.errorMessage)
            && !r.hasCurrent
  {
  }

  /** A process that survives the kill leaves the download current, marked
      Cancelled, with nothing recorded yet. */
  lemma CancelUnreaped(s: QueueState)
    requires Valid(s) && s.hasCurrent
    ensures var r := Cancel(s, None).state;
            r.hasCurrent && r.current.status == Cancelled && r.history == s.history && r.process == s.process
  {
  }

  /** Distinct exit codes give distinct default messages. */
  lemma ErrorCodeMessageInjective(a: int, b: int)
    requires ErrorCodeMessage(a) == ErrorCodeMessage(b)
    ensures a == b
  {
    var prefix := "Process finished with error code: ";
    assert IntToString(a) == ErrorCodeMessage(a)[|prefix|..];
    assert IntToString(b) == ErrorCodeMessage(b)[|prefix|..];
    IntToStringInjective(a, b);
  }

  // ---------------------------------------------------------------- clear and reset

  /** clearQueue drops every pending request and both flags but keeps the
      total; the history keeps every finished download and gains at most
      the cancelled one. */
  lemma ClearKeepsHistory(s: QueueState, reaped: Option<int>)
    requires Valid(s)
    ensures var r := Clear(s, reaped);
            && r.state.queue == [] && !r.state.running && !r.state.paused
            && r.state.totalCount == s.totalCount
            && r.state.history[..|s.history|] == s.history
            && |s.history| <= |r.state.history| <= |s.history| + 1
            && r.emitted[|r.emitted| - 1] == QueueStatusChanged(r.state.completedCount, s.totalCount)
    ensures !s.process.ProcessRunning? ==>
              Clear(s, reaped).state.history == s.history && Clear(s, reaped).state.completedCount == s.completedCount
  {
    var r := Clear(s, reaped);
    assert r.state.history[..|s.history|] == s.history;
  }

  /** resetQueue forgets everything and reports (0, 0). */
  lemma ResetClearsAll(s: QueueState, reaped: Option<int>)
    ensures var r := Reset(s, reaped);
            && r.state.queue == [] && r.state.history == [] && r.state.completedCount == 0 && r.state.totalCount == 0
            && !r.state.hasCurrent && !r.state.running && !r.state.paused
            && r.emitted[|r.emitted| - 1] == QueueStatusChanged(0, 0)
  {
  }

  // ---------------------------------------------------------------- accounting

  /** Adding, finishing and dispatching with no current download keep
      every added download accounted for. */
  lemma AccountedKept(s: QueueState, url: string, user: string, pass: string, dir: string, exitCode: int, exitStatus: ExitStatus, launched: bool)
    requires Accounted(s)
    ensures Accounted(Add(s, url, user, pass, dir).state)
    ensures Accounted(Finish(s, exitCode, exitStatus).state)
    ensures !s.hasCurrent ==> Accounted(Dispatch(s, launched).state)
  {
    if !s.hasCurrent && !s.paused && s.queue != [] {
      var s1 := s.(queue := s.queue[1..], current := s.queue[0].(status := Downloading), hasCurrent := true);
      assert Accounted(s1);
      if !launched {
        var failed := s1.(current := s1.current.(status := Failed, errorMessage := LaunchFailureMessage), process := ProcessExited);
        assert Accounted(failed);
      }
    }
  }

  // ---------------------------------------------------------------- a launch over a running process

  /** A download finishes; within the second before its deferred dispatch
      the queue is paused, two requests are added and the queue is resumed,
      which launches the first of them. The deferred dispatch is then still
      pending while that download's process runs. */
  function PausedResumeTrace(): QueueState
  {
    var s1 := Add(Initial(), "a", "u", "p", "d").state;
    var s2 := FireTimer(s1, 0, true).state;
    assert s2.process.ProcessRunning?;
    var s3 := ProcessExit(s2, 0, NormalExit).state;
    var s4 := Pause(s3).state;
    var s5 := Add(s4, "b", "u", "p", "d").state;
    var s6 := Add(s5, "c", "u", "p", "d").state;
    Start(s6, true).state
  }

  /** So a valid state reaches startDownloadProcess with the old process
      still running: the deferred dispatch takes the next request while the
      previous one runs, and the cleanup as written goes through the null
      pointer once the kill ends that process. (A cancel whose process
      outlives the wait, followed by a restart, is a second route.) */
  lemma StaleLaunchReachable(code: int)
    ensures var t := PausedResumeTrace();
      && Valid(t) && t.timers == [ProcessNextLater] && !t.paused && t.process.ProcessRunning? && |t.queue| == 1
      && CleanupAsWritten(t.(timers := [], queue := [], current := t.queue[0].(status := Downloading), hasCurrent := true),
                          Some(code)).nullRelease
  {
  }

  /** As written, that cleanup fails the download being launched with the
      crash message and archives it before its own process even starts. */
  lemma StaleCleanupFailsNewDownload(s: QueueState, code: int)
    requires Books(s) && s.hasCurrent && s.process.ProcessRunning?
    requires s.current.status == Downloading && s.current.errorMessage == ""
    ensures var c := CleanupAsWritten(s, Some(code));
      && c.nullRelease && !c.step.state.hasCurrent && c.step.state.process == NoProcess
      && c.step.state.history == s.history + [s.current.(status := Failed, errorMessage := CrashMessage)]
      && c.step.state.completedCount == s.completedCount + 1
  {
  }

  /** The launch the model performs, whatever process was there before: the
      current download runs under the new process, nothing is archived and
      nothing is emitted. */
  lemma LaunchStartsCurrent(s: QueueState)
    ensures var l := Launch(s, true);
      && l.state.process == ProcessRunning(QueueArguments(s.current))
      && l.state.current == s.current && l.state.hasCurrent == s.hasCurrent
      && l.state.history == s.history && l.state.completedCount == s.completedCount
      && l.emitted == []
  {
  }

  /** A dispatch while a download is still current (a cancelled process
      that outlived the kill, then a new start) overwrites it: that
      download is neither finished, pending nor current any more. */
  lemma DispatchOverCurrentDrops(s: QueueState)
    requires Accounted(s) && s.hasCurrent && !s.paused && s.queue != []
    ensures !Accounted(Dispatch(s, true).state)
  {
  }

  // ---------------------------------------------------------------- progress of the current download

  /** Output with no process, or that trims to nothing, changes nothing. */
  lemma OutputIgnored(s: QueueState, data: string)
    requires s.process == NoProcess || Trimmed(data) == []
    ensures Output(s, data) == Step(s, [], [])
  {
  }

  /** A reading with a fragment report never lowers the current download's
      progress nor takes it above 100, and any progress it reports lies in
      that range too. */
  lemma ReadingFragmentNeverLowers(s: QueueState, r: LineReading)
    requires r.fragment.Some? && s.current.progress <= 100
    ensures var st := ReadingStep(s, r);
            && s.current.progress <= st.state.current.progress <= 100
            && forall p :: DownloadProgress(p) in st.emitted ==> s.current.progress <= p <= 100
  {
    var report := ReportOf(s.current.progress, r);
    assert report.Some? ==> s.current.progress <= report.value <= 100;
  }

  /** A fragment-progress chunk never lowers the current download's
      progress, never takes it above 100, and any progress it reports is
      in that range. */
  lemma OutputFragmentNeverLowers(s: QueueState, data: string)
    requires FragmentProgress(Trimmed(data)).Some? && s.current.progress <= 100
    ensures var r := Output(s, data);
            && s.current.progress <= r.state.current.progress <= 100
            && forall p :: DownloadProgress(p) in r.emitted ==> s.current.progress <= p <= 100
  {
    var line := Trimmed(data);
    if s.process != NoProcess && line != [] {
      ReadingFragmentNeverLowers(s, ReadLine(line));
    }
  }

  /** A simple-percentage chunk sets progress to its truncated value,
      whatever the progress was, and reports it. */
  lemma OutputSimpleUnguarded(s: QueueState, data: string)
    requires s.process != NoProcess
    requires var line := Trimmed(data);
             FragmentProgress(line).None? && SimpleProgress(line).Some? && !IsCompletionBanner(line)
    ensures var r := Output(s, data);
            var v := Trunc(SimpleProgress(Trimmed(data)).value);
            r.state.current.progress == v && r.emitted == [DownloadProgress(v)]
  {
    SimplePathUnguarded(s.current.progress, Trimmed(data));
  }

  /** The completion banner sets progress to 100. */
  lemma OutputBanner(s: QueueState, data: string)
    requires s.process != NoProcess && IsCompletionBanner(Trimmed(data))
    ensures Output(s, data).state.current.progress == 100
  {
  }

  /** A title, once set, is never replaced. */
  lemma OutputKeepsTitle(s: QueueState, data: string)
    requires s.current.title != ""
    ensures Output(s, data).state.current.title == s.current.title
  {
  }

  // ---------------------------------------------------------------- views

  /** The label number is the finished count, plus one while a download is
      current, and never exceeds the total. */
  lemma ProgressNumberBounds(s: QueueState)
    requires Valid(s)
    ensures 0 <= ProgressNumber(s) <= s.totalCount
    ensures ProgressNumber(s) == s.completedCount + 1 <==> s.hasCurrent
  {
  }

  /** Without a current download the default item is reported. */
  lemma CurrentDownloadDefault(s: QueueState)
    requires !s.hasCurrent
    ensures CurrentDownload(s).status == Pending && CurrentDownload(s).url == "" && CurrentDownload(s).progress == 0
  {
  }
}
