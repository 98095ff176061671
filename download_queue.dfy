/**
 * The download queue object: its fields, updated in place by its methods
 * in the order the implementation updates them. Each method is proved to
 * perform the transition of the same name in QueueModel and to keep the
 * queue's invariant; the signals it emits are recorded in a ghost log, and
 * so is the redacted command line of each launched process.
 */
module QueueEngine {
  import opened Common
  import opened Text
  import opened DownloadItems
  import opened Process
  import opened ProgressParser
  import opened YtDlpCommand
  import opened QueueModel
  import opened QueueProperties

  class DownloadQueue {
    var queue: seq<DownloadItem>
    var completedDownloads: seq<DownloadItem>
    var currentDownload: DownloadItem
    var hasCurrentDownload: bool
    var running: bool
    var paused: bool
    var completedCount: int
    var totalCount: int
    var totalFragments: int
    var currentFragment: int
    var process: ProcessState
    var timers: seq<Deferred>
    ghost var signals: seq<Signal>
    ghost var commandLog: seq<string>

    /** The fields as a value. */
    function State(): QueueState
      reads this
    {
      QueueState(queue, completedDownloads, currentDownload, hasCurrentDownload, running, paused,
                 completedCount, totalCount, totalFragments, currentFragment, process, timers)
    }

    predicate Valid()
      reads this
    {
      QueueModel.Valid(State())
    }

    /** The fields hold `s`, field by field. */
    predicate Holds(s: QueueState)
      reads this
    {
      && queue == s.queue && completedDownloads == s.history && currentDownload == s.current
      && hasCurrentDownload == s.hasCurrent && running == s.running && paused == s.paused
      && completedCount == s.completedCount && totalCount == s.totalCount
      && totalFragments == s.totalFragments && currentFragment == s.currentFragment
      && process == s.process && timers == s.timers
    }

    /** The fields now hold `step`'s state, and its signals and log lines
        were appended. */
    twostate predicate Performed(step: Step)
      reads this
    {
      Holds(step.state) && signals == old(signals) + step.emitted && commandLog == old(commandLog) + step.logged
    }

    constructor ()
      ensures Valid() && Holds(Initial()) && signals == [] && commandLog == []
    {
      queue := [];
      completedDownloads := [];
      currentDownload := EmptyItem();
      hasCurrentDownload := false;
      running := false;
      paused := false;
      completedCount := 0;
      totalCount := 0;
      totalFragments := 0;
      currentFragment := 0;
      process := NoProcess;
      timers := [];
      signals := [];
      commandLog := [];
    }

    method AddDownload(url: string, username: string, password: string, downloadDir: string)
      requires Valid()
      modifies this
      ensures Valid() && Performed(Add(old(State()), url, username, password, downloadDir))
    {
      AddValid(State(), url, username, password, downloadDir);
      queue := queue + [NewItem(url, username, password, downloadDir)];
      totalCount := totalCount + 1;
      signals := signals + [DownloadAddedToQueue(totalCount)];
      if !running && !paused {
        timers := timers + [StartQueueLater];
      }
    }

    method StartQueue(launched: bool)
      requires Valid()
      modifies this
      ensures Valid() && Performed(Start(old(State()), launched))
    {
      if running {
        return;
      }
      running := true;
      paused := false;
      ProcessNextDownload(launched);
    }

    method PauseQueue()
      requires Valid()
      modifies this
      ensures Valid() && Performed(Pause(old(State())))
    {
      paused := true;
      if !process.ProcessRunning? {
        running := false;
      }
    }

    method ClearQueue(reaped: Option<int>)
      requires Valid()
      modifies this
      ensures Valid() && Performed(Clear(old(State()), reaped))
    {
      ClearValid(State(), reaped);
      ghost var cancelled := Cancel(State(), reaped);
      if process.ProcessRunning? {
        CancelCurrentDownload(reaped);
      }
      assert Performed(cancelled);
      DropPending();
      assert signals == old(signals) + (cancelled.emitted + [QueueStatusChanged(completedCount, totalCount)]);
    }

    /** Every pending request is dropped and the queue stops, unpaused. */
    method DropPending()
      modifies this`queue, this`running, this`paused, this`signals
      ensures queue == [] && !running && !paused
      ensures signals == old(signals) + [QueueStatusChanged(completedCount, totalCount)]
    {
      queue := [];
      running := false;
      paused := false;
      signals := signals + [QueueStatusChanged(completedCount, totalCount)];
    }

    method ResetQueue(reaped: Option<int>)
      requires Valid()
      modifies this
      ensures Valid() && Performed(Reset(old(State()), reaped))
    {
      ResetValid(State(), reaped);
      ghost var cancelled := Cancel(State(), reaped);
      if process.ProcessRunning? {
        CancelCurrentDownload(reaped);
      }
      assert Performed(cancelled);
      ForgetAll();
      assert signals == old(signals) + (cancelled.emitted + [QueueStatusChanged(0, 0)]);
    }

    /** Pending requests, history, counters, flags and the current download
        are all forgotten. */
    method ForgetAll()
      modifies this`queue, this`completedDownloads, this`completedCount, this`totalCount
      modifies this`running, this`paused, this`hasCurrentDownload, this`signals
      ensures queue == [] && completedDownloads == [] && completedCount == 0 && totalCount == 0
      ensures !running && !paused && !hasCurrentDownload
      ensures signals == old(signals) + [QueueStatusChanged(0, 0)]
    {
      queue := [];
      completedDownloads := [];
      completedCount := 0;
      totalCount := 0;
      running := false;
      paused := false;
      hasCurrentDownload := false;
      signals := signals + [QueueStatusChanged(0, 0)];
    }

    /** Kills the running process; `reaped` is its exit code if it ended
        within the wait, in which case its finish is handled at once. */
    method CancelCurrentDownload(reaped: Option<int>)
      requires Valid()
      modifies this
      ensures Valid() && Performed(Cancel(old(State()), reaped))
    {
      if process.ProcessRunning? {
        currentDownload := currentDownload.(status := Cancelled);
        if reaped.Some? {
          OnProcessFinished(reaped.value, CrashExit);
        }
      }
    }

    method ProcessNextDownload(launched: bool)
      requires Valid()
      modifies this
      ensures Valid() && Performed(Dispatch(old(State()), launched))
    {
      if paused {
        running := false;
        return;
      }
      if queue == [] {
        running := false;
        hasCurrentDownload := false;
        signals := signals + [QueueFinished];
        return;
      }
      DispatchHead(launched);
    }

    /** Dispatch with a pending download and no pause: the head starts. */
    method DispatchHead(launched: bool)
      requires Valid() && !paused && queue != []
      modifies this
      ensures Valid() && Performed(Dispatch(old(State()), launched))
    {
      assert IsFresh(queue[0]);
      TakeNext();
      assert forall i :: 0 <= i < |queue| ==> queue[i] == old(queue)[i + 1];
      assert State() == old(State()).(queue := old(queue)[1..], current := old(queue)[0].(status := Downloading), hasCurrent := true);
      ghost var started := signals[|old(signals)|..];
      ghost var launch := Launch(State(), launched);
      StartDownloadProcess(launched);
      assert signals == old(signals) + (started + launch.emitted);
    }

    /** The head of the queue becomes the current download, Downloading. */
    method TakeNext()
      requires queue != []
      modifies this`queue, this`currentDownload, this`hasCurrentDownload, this`signals
      ensures currentDownload == old(queue)[0].(status := Downloading)
      ensures queue == old(queue)[1..] && hasCurrentDownload
      ensures signals == old(signals) + [DownloadStarted(currentDownload), QueueStatusChanged(completedCount + 1, totalCount)]
    {
      currentDownload := queue[0];
      queue := queue[1..];
      hasCurrentDownload := true;
      currentDownload := currentDownload.(status := Downloading);
      signals := signals + [DownloadStarted(currentDownload), QueueStatusChanged(completedCount + 1, totalCount)];
    }

    /** Starts yt-dlp for the current download; `launched` says whether it
        started. A process left over from before is discarded. */
    method StartDownloadProcess(launched: bool)
      requires Books(State()) && hasCurrentDownload
      requires currentDownload.status == Downloading && currentDownload.progress >= 0
      modifies this
      ensures Valid() && Performed(Launch(old(State()), launched))
    {
      LaunchValid(State(), launched);
      var arguments := QueueArguments(currentDownload);
      PrepareLaunch(arguments);
      if launched {
        process := ProcessRunning(arguments);
      } else {
        ghost var logged := commandLog;
        FailLaunch();
        assert commandLog == logged;
      }
    }

    /** Before the start: the old process is discarded, the fragment
        counters are reset and the command line is logged with the password
        masked. */
    method PrepareLaunch(arguments: seq<string>)
      modifies this`process, this`totalFragments, this`currentFragment, this`commandLog
      ensures process == NoProcess && totalFragments == 0 && currentFragment == 0
      ensures commandLog == old(commandLog) + [MaskedCommand(arguments, currentDownload.password)]
    {
      process := NoProcess;
      totalFragments := 0;
      currentFragment := 0;
      commandLog := commandLog + [MaskedCommand(arguments, currentDownload.password)];
    }

    /** yt-dlp did not start: the download fails with the launch message and
        goes through the finish handler as (-1, CrashExit). */
    method FailLaunch()
      modifies this
      ensures Performed(Finish(old(State()).(current := old(currentDownload).(status := Failed, errorMessage := LaunchFailureMessage),
                                             process := ProcessExited), -1, CrashExit))
    {
      process := ProcessExited;
      currentDownload := currentDownload.(status := Failed, errorMessage := LaunchFailureMessage);
      OnDownloadFinished(-1, CrashExit);
    }

    /** The running process ends with finished(exitCode, exitStatus). */
    method OnProcessFinished(exitCode: int, exitStatus: ExitStatus)
      requires Valid() && process.ProcessRunning?
      modifies this
      ensures Valid() && Performed(ProcessExit(old(State()), exitCode, exitStatus))
    {
      process := ProcessExited;
      FinishValid(State(), exitCode, exitStatus);
      OnDownloadFinished(exitCode, exitStatus);
    }

    method OnDownloadFinished(exitCode: int, exitStatus: ExitStatus)
      modifies this
      ensures Performed(Finish(old(State()), exitCode, exitStatus))
    {
      if !hasCurrentDownload {
        return;
      }
      FinalizeCurrent(exitCode, exitStatus);
      Archive();
    }

    /** The finished download goes to the history and is counted, the
        process is released and the next dispatch scheduled. */
    method Archive()
      modifies this`completedDownloads, this`completedCount, this`hasCurrentDownload, this`signals, this`process, this`timers
      ensures completedDownloads == old(completedDownloads) + [currentDownload]
      ensures completedCount == old(completedCount) + 1 && !hasCurrentDownload
      ensures signals == old(signals) + [QueueStatusChanged(completedCount, totalCount)]
      ensures process == NoProcess && timers == old(timers) + [ProcessNextLater]
    {
      completedDownloads := completedDownloads + [currentDownload];
      completedCount := completedCount + 1;
      hasCurrentDownload := false;
      signals := signals + [QueueStatusChanged(completedCount, totalCount)];
      process := NoProcess;
      timers := timers + [ProcessNextLater];
    }

    /** The exit mapping of the finish handler: a crash fails the download,
        exit code 0 completes it at 100%, any other code fails it; a failure
        keeps an error text already collected and otherwise gets one for
        its cause. The matching signal is emitted. */
    method FinalizeCurrent(exitCode: int, exitStatus: ExitStatus)
      modifies this`currentDownload, this`signals
      ensures currentDownload == Finalized(old(currentDownload), exitCode, exitStatus)
      ensures signals == old(signals) + [Outcome(currentDownload)]
    {
      if exitStatus == CrashExit {
        currentDownload := currentDownload.(status := Failed);
        if currentDownload.errorMessage == "" {
          currentDownload := currentDownload.(errorMessage := CrashMessage);
        }
        signals := signals + [DownloadFailed(currentDownload, currentDownload.errorMessage)];
      } else if exitCode == 0 {
        currentDownload := currentDownload.(status := Completed, progress := 100);
        signals := signals + [DownloadCompleted(currentDownload)];
      } else {
        currentDownload := currentDownload.(status := Failed);
        if currentDownload.errorMessage == "" {
          currentDownload := currentDownload.(errorMessage := ErrorCodeMessage(exitCode));
        }
        signals := signals + [DownloadFailed(currentDownload, currentDownload.errorMessage)];
      }
    }

    /** A chunk of the process's standard output: trimmed, ignored when
        empty or when no process is running, otherwise read once and
        applied. */
    method OnDownloadOutput(data: string)
      requires Valid()
      modifies this
      ensures Valid() && Performed(Output(old(State()), data))
    {
      OutputValid(State(), data);
      if process == NoProcess {
        return;
      }
      var output := Trimmed(data);
      if output == [] {
        return;
      }
      ApplyReading(ReadLine(output));
    }

    /** The handler's updates for one reading, block by block: the
        announced fragment count, the progress report, the completion
        banner, then the title. */
    method ApplyReading(r: LineReading)
      modifies this`totalFragments, this`currentFragment, this`currentDownload, this`signals
      ensures Holds(ReadingStep(old(State()), r).state)
      ensures signals == old(signals) + ReadingStep(old(State()), r).emitted
    {
      ApplyAnnouncement(r);
      ApplyReport(r);
      ApplyBanner(r);
      ApplyTitle(r);
    }

    /** `[hlsnative] Total fragments: N` overwrites the stored count. */
    method ApplyAnnouncement(r: LineReading)
      modifies this`totalFragments
      ensures totalFragments == AnnouncedTotal(old(totalFragments), r)
    {
      match r.announced {
        case Some(n) => totalFragments := n;
        case None =>
      }
    }

    /** The progress report: the fragment pattern when it matched, the
        simple percentage otherwise. */
    method ApplyReport(r: LineReading)
      modifies this`totalFragments, this`currentFragment, this`currentDownload, this`signals
      ensures totalFragments == ReportedTotal(old(totalFragments), r)
      ensures currentFragment == FragmentOf(old(currentFragment), r)
      ensures currentDownload == old(currentDownload).(progress := ReportedProgress(old(currentDownload.progress), r))
      ensures signals == old(signals) + ProgressSignals(old(currentDownload.progress), r)
    {
      match r.fragment {
        case Some(c) =>
          var f := Reading(c);
          if f.total > 0 {
            ApplyFragmentReport(f);
          }
        case None =>
          match r.percent {
            case Some(v) =>
              currentDownload := currentDownload.(progress := Trunc(v));
              signals := signals + [DownloadProgress(Trunc(v))];
            case None =>
          }
      }
    }

    /** A fragment report with a positive count: fill the stored count if it
        is still 0, record the current fragment, and take the overall
        percentage if it does not lower the progress. */
    method ApplyFragmentReport(f: FragmentReport)
      requires f.total > 0
      modifies this`totalFragments, this`currentFragment, this`currentDownload, this`signals
      ensures totalFragments == (if old(totalFragments) == 0 then f.total else old(totalFragments))
      ensures currentFragment == f.index
      ensures match AcceptFragment(old(currentDownload.progress), f)
              case Some(p) => currentDownload == old(currentDownload).(progress := p) && signals == old(signals) + [DownloadProgress(p)]
              case None => currentDownload == old(currentDownload) && signals == old(signals)
    {
      if totalFragments == 0 {
        totalFragments := f.total;
      }
      currentFragment := f.index;
      match AcceptFragment(currentDownload.progress, f) {
        case Some(p) =>
          currentDownload := currentDownload.(progress := p);
          signals := signals + [DownloadProgress(p)];
        case None =>
      }
    }

    /** yt-dlp's completion banner sets the progress to 100. */
    method ApplyBanner(r: LineReading)
      modifies this`currentDownload
      ensures currentDownload == old(currentDownload).(progress := if r.banner then 100 else old(currentDownload.progress))
    {
      if r.banner {
        currentDownload := currentDownload.(progress := 100);
      }
    }

    /** The destination names the title, only while none is known. */
    method ApplyTitle(r: LineReading)
      modifies this`currentDownload
      ensures currentDownload == old(currentDownload).(title := TitleOf(old(currentDownload.title), r))
    {
      if currentDownload.title == "" {
        match r.destination {
          case Some(path) => currentDownload := currentDownload.(title := LastSegment(path));
          case None =>
        }
      }
    }

    /** A chunk of the process's standard error. */
    method OnDownloadError(data: string)
      requires Valid()
      modifies this
      ensures Valid() && Performed(ErrorOutput(old(State()), data))
    {
      if process == NoProcess {
        return;
      }
      var output := Trimmed(data);
      if output != [] {
        currentDownload := currentDownload.(errorMessage := currentDownload.errorMessage + (output + "\n"));
      }
    }

    /** The pending single-shot timer at index `i` fires. */
    method FireTimer(i: nat, launched: bool)
      requires Valid() && i < |timers|
      modifies this
      ensures Valid() && Performed(QueueModel.FireTimer(old(State()), i, launched))
    {
      var deferred := timers[i];
      timers := timers[..i] + timers[i + 1..];
      match deferred {
        case StartQueueLater => StartQueue(launched);
        case ProcessNextLater => ProcessNextDownload(launched);
      }
    }

    // ---------------------------------------------------------------- getters

    function IsRunning(): (r: bool)
      reads this
      ensures r == State().running
    {
      running
    }

    function IsPaused(): (r: bool)
      reads this
      ensures r == State().paused
    {
      paused
    }

    /** The number of finished downloads, not the one being worked on. */
    function GetCurrentIndex(): (r: int)
      reads this
      ensures Valid() ==> r == |completedDownloads| && r <= totalCount
      ensures Valid() && hasCurrentDownload ==> r < ProgressLabelNumber()
    {
      completedCount
    }

    function GetTotalCount(): (r: int)
      reads this
      ensures Valid() ==> r >= GetCurrentIndex() + GetQueueSize()
    {
      totalCount
    }

    /** Only the pending requests: the current download is held apart. */
    function GetQueueSize(): (r: int)
      reads this
      ensures r == |State().queue|
      ensures Valid() && hasCurrentDownload ==> r < totalCount - completedCount
    {
      |queue|
    }

    /** The finished downloads in the order they finished. */
    function GetCompletedDownloads(): (r: seq<DownloadItem>)
      reads this
      ensures Valid() ==> |r| == GetCurrentIndex() && forall i :: 0 <= i < |r| ==> r[i].IsFinished() && r[i].status != Cancelled
    {
      completedDownloads
    }

    function GetCurrentDownload(): (r: DownloadItem)
      reads this
      ensures !hasCurrentDownload ==> r.status == Pending && r.url == "" && r.progress == 0
      ensures hasCurrentDownload ==> r == currentDownload
    {
      CurrentDownload(State())
    }

    /** The number updateProgressLabel shows as "Progress (n/total)". */
    function ProgressLabelNumber(): (r: int)
      reads this
      ensures Valid() ==> 0 <= r <= totalCount
      ensures r == completedCount + 1 <==> hasCurrentDownload
    {
      ProgressNumber(State())
    }
  }
}
