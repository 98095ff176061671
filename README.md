# Vimeo downloader: the download queue, its progress parser and the download rules, in Dafny

The application drives yt-dlp from a Qt user interface. This project models
its core:

- **The download queue engine** (`DownloadQueue`). It holds a FIFO of
  pending requests, one current download, an append-only history, the
  completed and total counters, the running and paused flags, and the
  fragment bookkeeping of the current download. Its operations are add,
  start, pause, clear, reset, cancel and dispatch. Its process handlers
  react to a stdout chunk, a stderr chunk, and the end of the process.
  - `queue_model.dfy` (module `QueueModel`) states every operation as a
    transition on a `QueueState` value. Each transition also gives the
    signals emitted and the redacted command lines logged.
  - `download_queue.dfy` (module `QueueEngine`) is the class itself. Its
    fields are updated in place, in the order the implementation updates
    them. Every method is proved to perform its transition and to keep
    the queue's invariant.
  - `queue_properties.dfy` holds what the transitions promise.
- **The progress parser.** The four regular expressions of the stdout
  handler are written as explicit string matchers, with the search
  semantics of QRegularExpression: leftmost start, and a greedy `.*`.
  The parser also holds the fragment-based overall-progress formula, with
  its 100 cap and its monotonicity guard (`progress_parser.dfy`,
  `progress_properties.dfy`).
- **The download item** with its status, `isFinished` and status names
  (`download_item.dfy`).
- **The yt-dlp command lines.** There are three: a queued download, the
  single `Downloader`, and the main window's direct download. They are
  modelled together with how yt-dlp reads each of them and with the
  password masking of the logged copy (`yt_dlp_command.dfy`).
- **The single-download `Downloader`** (`downloader.dfy`). It has a
  two-state guard, exit and error messages, and percentage extraction.
  The method `CancelledDownloadFails` walks through one session as an
  example: a cancel, a refused second start, the two crash reports, and a
  restart.
- **The main window's decision tables** (`main_window.dfy`):
  - the download-button enable predicate;
  - the status-line priority chain;
  - the ordered checks of a click on Download, with its command line and
    logged copy;
  - the credentials-save guard;
  - the mapping of the direct download's end to a status line.

Modelling choices:

- A QProcess is reduced to the events that reach its owner. Whether a
  start succeeded is a `launched` parameter. Whether a killed process
  ended within the wait is a `reaped` parameter.
- A `QTimer::singleShot` is a pending entry in `timers`, and a later
  `FireTimer` step runs it.
- Signals are appended to a ghost log.
- `toDouble` of a captured percentage is an exact `real`.
- `static_cast<int>` is truncation toward zero, which is what C++ defines
  for a value within the int range.
- `toInt` of an over-long digit run is 0.

Behaviours worth knowing, each proved about the code as it stands. The
first two fall short of what the code itself announces: the status
`Cancelled` in `downloaditem.h`, and the comment "Ensure progress doesn't
exceed 100% and is monotonic" at `downloadqueue.cpp` line 261.

- A cancelled download does not stay Cancelled. `cancelCurrentDownload`
  sets Cancelled. The killed process then ends with `CrashExit`, and the
  finish handler overwrites the status with Failed
  (`QueueProperties.CancelledEndsFailed`).
- Progress is not monotone. Only the fragment path is guarded. The simple
  `[download] N%` path assigns its value unconditionally and uncapped
  (`ProgressProperties.SimplePathCanLower`).
- A `Total fragments: N` announcement overwrites the stored fragment total
  every time, while a fragment progress line fills it only while it is 0
  (`ProgressProperties.AnnouncementOverwritesTotal`,
  `ProgressProperties.FragmentLineFillsTotalOnce`).
- A download can be dropped without reaching a terminal state:
  - `clearQueue` discards pending requests but keeps `totalCount`;
  - a dispatch while a download is still current replaces it
    (`QueueProperties.DispatchOverCurrentDrops`);
  - the same dispatch can meet the previous process still running, which
    the cleanup as written mishandles (see "## Findings").
- The header `downloadqueue.h` is stale against the implementation:
  - its constructor lacks the tools-manager parameter;
  - it does not declare the fragment fields.

  The model follows `downloadqueue.cpp`.

## Model

| member | source | states |
|---|---|---|
| DownloadItems.EmptyItem | include/vimeodownloader/downloaditem.h:28-32 | the default item is Pending with progress 0 and empty texts |
| DownloadItems.NewItem | include/vimeodownloader/downloaditem.h:34-42 | the four-argument item copies url, user name, password and folder verbatim, is Pending with progress 0, has an empty title and error, and is not finished |
| DownloadItems.FinishedIffNotActive | include/vimeodownloader/downloaditem.h:44-48 | finished exactly when the status is neither Pending nor Downloading |
| DownloadItems.DownloadItem.StatusString | include/vimeodownloader/downloaditem.h:50-59 | every status has a non-empty name |
| DownloadItems.StatusStringInjective | include/vimeodownloader/downloaditem.h:50-59 | the five names are distinct: equal names mean equal statuses |
| QueueModel.Initial | src/core/downloadqueue.cpp:8-22 | the constructed queue is empty, idle and unpaused, has zero counters and no process or timer |
| QueueModel.Finalized | src/core/downloadqueue.cpp:328-347 | a finalized download is Completed or Failed, never Cancelled |
| QueueModel.FinalizedOutcome | src/core/downloadqueue.cpp:328-347 | Completed (at 100%) exactly for a normal exit with code 0; otherwise Failed, keeping an existing error text, or else the crash message or the error-code message; the request fields are untouched |
| QueueModel.ProgressSignals | src/core/downloadqueue.cpp:263-280 | a `downloadProgress` signal is emitted exactly when a value is reported, carrying that value |
| QueueModel.AppendedError | src/core/downloadqueue.cpp:311-316 | a non-empty trimmed stderr chunk is appended to the error text with a line break; an empty one changes nothing |
| QueueModel.CleanupAsWritten | src/core/downloadqueue.cpp:385-394 | as written, the cleanup at a launch goes through a null pointer exactly when a process still runs, the kill ends it within the wait and a download is current; otherwise the process is released and nothing is emitted |
| QueueProperties.InitialValid | src/core/downloadqueue.cpp:8-22 | the constructed queue satisfies the invariant and accounts for every request |
| QueueProperties.FinishValid | src/core/downloadqueue.cpp:319-362 | finishing keeps the invariant |
| QueueProperties.LaunchValid | src/core/downloadqueue.cpp:171-219 | launching, or failing to launch, keeps the invariant |
| QueueProperties.DispatchValid | src/core/downloadqueue.cpp:132-169 | dispatch keeps the invariant |
| QueueProperties.AddValid | src/core/downloadqueue.cpp:31-53 | adding keeps the invariant |
| QueueProperties.StartValid | src/core/downloadqueue.cpp:55-66 | starting keeps the invariant |
| QueueProperties.PauseValid | src/core/downloadqueue.cpp:68-79 | pausing keeps the invariant |
| QueueProperties.CancelValid | src/core/downloadqueue.cpp:122-130 | cancelling keeps the invariant |
| QueueProperties.ClearValid | src/core/downloadqueue.cpp:81-97 | clearing keeps the invariant |
| QueueProperties.ResetValid | src/core/downloadqueue.cpp:99-120 | resetting keeps the invariant and leaves every request accounted for |
| QueueProperties.ProcessExitValid | src/core/downloadqueue.cpp:319-362 | the end of a running process keeps the invariant |
| QueueProperties.FireTimerValid | src/core/downloadqueue.cpp:361 | firing a deferred start (line 51) or dispatch (line 361) keeps the invariant |
| QueueProperties.OutputValid | src/core/downloadqueue.cpp:221-304 | a stdout chunk keeps the invariant |
| QueueProperties.ErrorOutputValid | src/core/downloadqueue.cpp:306-317 | a stderr chunk keeps the invariant |
| QueueProperties.AddAppends | src/core/downloadqueue.cpp:31-53 | the new Pending item with progress 0 is appended at the tail with the request copied; the total rises by exactly one; the count, history, current item and flags are unchanged; a deferred start is scheduled exactly when neither running nor paused; `downloadAddedToQueue(total)` is emitted |
| QueueProperties.DispatchTakesHead | src/core/downloadqueue.cpp:157-199 | dispatch removes exactly the head (FIFO), which becomes current and Downloading; the fragment counters reset to 0; the process runs the queue command line; the signals and the masked log line are as the source emits them |
| QueueProperties.AddKeepsNextInLine | src/core/downloadqueue.cpp:35-37 | adding behind a non-empty queue does not change which download is dispatched next, and the new request waits at the tail |
| QueueProperties.DispatchOnEmpty | src/core/downloadqueue.cpp:144-155 | an empty queue stops running, clears the current item and emits `queueFinished`, keeping the history and the count |
| QueueProperties.LaunchFailureRecorded | src/core/downloadqueue.cpp:213-217 | a failed launch finalizes the head as Failed with "Could not start yt-dlp" through the finish handler: it is appended to the history, counted, reported as failed, and the next dispatch is scheduled |
| QueueProperties.StartFlags | src/core/downloadqueue.cpp:55-66 | starting while running changes nothing; otherwise paused is cleared and the queue stays running exactly when there is something to dispatch |
| QueueProperties.PauseFlags | src/core/downloadqueue.cpp:68-79 | pausing sets paused and keeps running only while a process runs; a dispatch while paused (lines 136-141) clears running without dequeuing or emitting |
| QueueProperties.FinishWithoutCurrent | src/core/downloadqueue.cpp:321 | the finish handler does nothing without a current download |
| QueueProperties.FinishRecords | src/core/downloadqueue.cpp:349-361 | the finalized item is appended to the history, the count rises by one, the current item is cleared, the process is released and a dispatch is scheduled |
| QueueProperties.CancelledEndsFailed | src/core/downloadqueue.cpp:328-334 | a cancel whose killed process is reaped records the download as Failed (not Cancelled), with the crash message unless an error text was already collected |
| QueueProperties.CancelUnreaped | src/core/downloadqueue.cpp:122-130 | a cancel whose process is not reaped within the wait leaves the download current and Cancelled |
| QueueProperties.ErrorCodeMessageInjective | src/core/downloadqueue.cpp:343 | the error-code message tells exit codes apart |
| QueueProperties.ClearKeepsHistory | src/core/downloadqueue.cpp:81-97 | clearing empties the pending queue and clears both flags; it keeps the total and the history, which grows only by a download the cancel reaped; it ends with `queueStatusChanged(count, total)` |
| QueueProperties.ResetClearsAll | src/core/downloadqueue.cpp:99-120 | a reset empties the queue and the history, zeroes both counters, clears the current item and both flags, and ends with `queueStatusChanged(0, 0)` |
| QueueProperties.AccountedKept | src/core/downloadqueue.cpp:31-37 | adding, finishing, and dispatching with no current download keep finished + pending + current equal to the total |
| QueueProperties.DispatchOverCurrentDrops | src/core/downloadqueue.cpp:158 | a dispatch while a download is current overwrites it, and the total no longer accounts for every request |
| QueueProperties.StaleLaunchReachable | src/core/downloadqueue.cpp:132-174 | a valid state reached by add, start, finish, pause, two adds and resume dispatches with the previous download's process still running, and the cleanup as written then goes through the null pointer |
| QueueProperties.StaleCleanupFailsNewDownload | src/core/downloadqueue.cpp:385-394 | as written, that cleanup finishes the download being launched as Failed with "Process crashed unexpectedly", archives and counts it, and leaves no process |
| QueueProperties.LaunchStartsCurrent | src/core/downloadqueue.cpp:171-211 | the launch as modelled, whatever process was there: the current download runs under a new process with its own command line; nothing is archived or emitted |
| QueueProperties.OutputIgnored | src/core/downloadqueue.cpp:223-228 | a chunk with no process, or one that trims to nothing, changes nothing |
| QueueProperties.ReadingFragmentNeverLowers | src/core/downloadqueue.cpp:243-268 | on a fragment line the progress and every reported value stay between the old progress and 100 |
| QueueProperties.OutputFragmentNeverLowers | src/core/downloadqueue.cpp:226-268 | the same for a whole stdout chunk |
| QueueProperties.OutputSimpleUnguarded | src/core/downloadqueue.cpp:269-281 | on a simple percentage line the progress becomes the truncated value, whatever it was, and that value is reported |
| QueueProperties.OutputBanner | src/core/downloadqueue.cpp:286-289 | a chunk containing "100% of" and "in " leaves progress at 100 |
| QueueProperties.OutputKeepsTitle | src/core/downloadqueue.cpp:292 | a title once set is never changed by stdout |
| QueueProperties.ProgressNumberBounds | src/core/downloadqueue.cpp:372 | the displayed number lies in 0..total and is count + 1 exactly while a download is current |
| QueueProperties.CurrentDownloadDefault | src/core/downloadqueue.cpp:364-367 | without a current download the getter returns a default Pending item |
| QueueEngine.DownloadQueue.constructor | src/core/downloadqueue.cpp:8-24 | the fields hold the initial state and the invariant holds |
| QueueEngine.DownloadQueue.AddDownload | src/core/downloadqueue.cpp:31-53 | performs the add transition in place and keeps the invariant |
| QueueEngine.DownloadQueue.StartQueue | src/core/downloadqueue.cpp:55-66 | performs the start transition in place and keeps the invariant |
| QueueEngine.DownloadQueue.PauseQueue | src/core/downloadqueue.cpp:68-79 | performs the pause transition in place and keeps the invariant |
| QueueEngine.DownloadQueue.ClearQueue | src/core/downloadqueue.cpp:81-97 | performs the clear transition in place (cancel first if a process runs) and keeps the invariant |
| QueueEngine.DownloadQueue.DropPending | src/core/downloadqueue.cpp:90-96 | the pending queue is emptied, both flags are cleared and `queueStatusChanged(count, total)` is emitted |
| QueueEngine.DownloadQueue.ResetQueue | src/core/downloadqueue.cpp:99-120 | performs the reset transition in place and keeps the invariant |
| QueueEngine.DownloadQueue.ForgetAll | src/core/downloadqueue.cpp:109-119 | queue, history, counters, flags and the current download are all cleared, and `queueStatusChanged(0, 0)` is emitted |
| QueueEngine.DownloadQueue.CancelCurrentDownload | src/core/downloadqueue.cpp:122-130 | performs the cancel transition in place and keeps the invariant |
| QueueEngine.DownloadQueue.ProcessNextDownload | src/core/downloadqueue.cpp:132-169 | performs the dispatch transition in place and keeps the invariant |
| QueueEngine.DownloadQueue.DispatchHead | src/core/downloadqueue.cpp:157-168 | the dispatch of a head item, performed in place |
| QueueEngine.DownloadQueue.TakeNext | src/core/downloadqueue.cpp:158-165 | the head leaves the queue and becomes current and Downloading; the start signals are emitted |
| QueueEngine.DownloadQueue.StartDownloadProcess | src/core/downloadqueue.cpp:171-219 | performs the launch transition in place and keeps the invariant |
| QueueEngine.DownloadQueue.PrepareLaunch | src/core/downloadqueue.cpp:174-210 | the old process is discarded (the corrected cleanup of "## Findings"), the fragment counters are reset, and the command line is logged with the password masked |
| QueueEngine.DownloadQueue.FailLaunch | src/core/downloadqueue.cpp:213-217 | the current download fails with the launch message and is finished as (-1, CrashExit) |
| QueueEngine.DownloadQueue.OnProcessFinished | src/core/downloadqueue.cpp:319-362 | the end of the running process performs the finish transition and keeps the invariant |
| QueueEngine.DownloadQueue.OnDownloadFinished | src/core/downloadqueue.cpp:319-362 | performs the finish transition in place |
| QueueEngine.DownloadQueue.FinalizeCurrent | src/core/downloadqueue.cpp:328-347 | the current download becomes its finalized form and its outcome signal is emitted |
| QueueEngine.DownloadQueue.Archive | src/core/downloadqueue.cpp:349-361 | the history, count, current flag, process and timers change as the finish handler leaves them |
| QueueEngine.DownloadQueue.OnDownloadOutput | src/core/downloadqueue.cpp:221-304 | performs the stdout transition in place and keeps the invariant |
| QueueEngine.DownloadQueue.ApplyReading | src/core/downloadqueue.cpp:231-302 | applies one parsed line: announcement, progress, banner and title, in the source's order |
| QueueEngine.DownloadQueue.ApplyAnnouncement | src/core/downloadqueue.cpp:232-237 | a fragment-total announcement overwrites the stored total |
| QueueEngine.DownloadQueue.ApplyReport | src/core/downloadqueue.cpp:240-283 | the progress, fragment counters and signal follow the reported value |
| QueueEngine.DownloadQueue.ApplyFragmentReport | src/core/downloadqueue.cpp:250-267 | the total is filled only while 0; the current fragment is taken; the progress is raised only when the guarded overall value allows it |
| QueueEngine.DownloadQueue.ApplyBanner | src/core/downloadqueue.cpp:286-289 | the completion banner sets progress to 100 |
| QueueEngine.DownloadQueue.ApplyTitle | src/core/downloadqueue.cpp:292-301 | the title follows the destination line only while empty |
| QueueEngine.DownloadQueue.OnDownloadError | src/core/downloadqueue.cpp:306-317 | performs the stderr transition in place and keeps the invariant |
| QueueEngine.DownloadQueue.FireTimer | src/core/downloadqueue.cpp:361 | runs one deferred start (line 51) or dispatch (line 361) and keeps the invariant |
| QueueEngine.DownloadQueue.IsRunning | include/vimeodownloader/downloadqueue.h:32 | returns the running flag as stored |
| QueueEngine.DownloadQueue.IsPaused | include/vimeodownloader/downloadqueue.h:33 | returns the paused flag as stored |
| QueueEngine.DownloadQueue.GetCurrentIndex | include/vimeodownloader/downloadqueue.h:34 | returns the completed count, which is the history length, within the total, and below the displayed number while a download is current |
| QueueEngine.DownloadQueue.GetTotalCount | include/vimeodownloader/downloadqueue.h:35 | returns the total, which covers finished and pending requests |
| QueueEngine.DownloadQueue.GetQueueSize | include/vimeodownloader/downloadqueue.h:36 | counts only the pending requests, not the current one |
| QueueEngine.DownloadQueue.GetCompletedDownloads | include/vimeodownloader/downloadqueue.h:40 | returns the history in append order, one finished (Completed or Failed) entry per completed download |
| QueueEngine.DownloadQueue.GetCurrentDownload | src/core/downloadqueue.cpp:364-367 | the current item while there is one, else a default item |
| QueueEngine.DownloadQueue.ProgressLabelNumber | src/core/downloadqueue.cpp:372 | count + 1 exactly while a download is current, else the count, within 0..total |
| ProgressParser.PercentAt | src/core/downloadqueue.cpp:271 | `\[download\]\s+(\d+(?:\.\d+)?)%` matched at a position: the tag, a non-empty number, and the match ends at '%' |
| ProgressParser.PercentTailAt | src/core/downloadqueue.cpp:271 | `(?:\.\d+)?%` matched at a position ends at its '%' |
| ProgressParser.NumberPercentAt | src/core/downloadqueue.cpp:271 | `(\d+(?:\.\d+)?)%` matched at a position has a non-empty whole part and ends at its '%' |
| ProgressParser.PercentValue | src/core/downloadqueue.cpp:246-275 | `toDouble` of a captured percentage lies between its whole part and the next integer, and is the whole part when there is no fraction |
| ProgressParser.FragmentAt | src/core/downloadqueue.cpp:240 | the fragment pattern matched at a position, with the greedy `.*` giving the last `(frag I/T)` on the line |
| ProgressParser.FragNumbersAt | src/core/downloadqueue.cpp:240 | `(\d+)/(\d+)\)` captures two non-empty digit runs |
| ProgressParser.FragSuffixAt | src/core/downloadqueue.cpp:240 | `\(frag (\d+)/(\d+)\)` matches only where the text starts with `(frag ` |
| ProgressParser.Reading | src/core/downloadqueue.cpp:245-248 | the percentage lies between its whole part and the next integer; a fragment number is its digits' value when that fits a 32-bit int, and 0 exactly when it does not |
| ProgressParser.TotalAt | src/core/downloadqueue.cpp:232-234 | `\[hlsnative\] Total fragments: (\d+)` matches only after its tag and gives a non-negative total |
| ProgressParser.DestinationAt | src/core/downloadqueue.cpp:293-295 | `\[download\] Destination: (.+)` captures the non-empty rest of the line after its tag |
| ProgressParser.SimpleProgress | src/core/downloadqueue.cpp:271-275 | a matched simple percentage is non-negative |
| ProgressParser.FragmentOverall | src/core/downloadqueue.cpp:258-262 | trunc(((I−1) + P/100) / T · 100) when that is below 100, and exactly 100 otherwise |
| ProgressParser.AcceptFragment | src/core/downloadqueue.cpp:262-267 | a fragment value is accepted only when at least the current progress, and then it is the capped overall value |
| ProgressParser.ReportOf | src/core/downloadqueue.cpp:243-283 | a fragment line reports only values between the current progress and 100; otherwise the simple value is reported, truncated |
| ProgressParser.ChunkReport | src/core/downloadqueue.cpp:243-283 | the same for a raw line: the fragment path is bounded, the simple path non-negative |
| ProgressProperties.FragmentLineShape | src/core/downloadqueue.cpp:240-248 | a `[download] P% … (frag I/T)` line is matched with exactly these captures |
| ProgressProperties.FragmentOverallInRange | src/core/downloadqueue.cpp:258-262 | with 1 ≤ I ≤ T and 0 ≤ P ≤ 100 the overall value lies in 0..100 |
| ProgressProperties.FragmentOverallMonotone | src/core/downloadqueue.cpp:258-259 | the overall value is monotone in the position (I−1)·100 + P |
| ProgressProperties.FragmentOverallExample | src/core/downloadqueue.cpp:258-267 | fragment 2 of 4 at 50% gives 37; a later 0% of fragment 2 (25) is refused at 37 |
| ProgressProperties.FragmentLineIsAlsoSimple | src/core/downloadqueue.cpp:240-271 | every fragment line also matches the simple pattern, so the fragment test's precedence matters |
| ProgressProperties.NoFragmentWithoutParen | src/core/downloadqueue.cpp:240 | a line without '(' is never a fragment line |
| ProgressProperties.FragmentPathGuarded | src/core/downloadqueue.cpp:243-268 | with a positive total a fragment line reports exactly the guarded value |
| ProgressProperties.FragmentPathNeverLowers | src/core/downloadqueue.cpp:243-289 | a fragment line never lowers progress and never takes it above 100 |
| ProgressProperties.SimplePathUnguarded | src/core/downloadqueue.cpp:269-281 | a simple line reports and sets its truncated value unconditionally |
| ProgressProperties.SimplePathCanLower | src/core/downloadqueue.cpp:269-281 | the line `[download] N%` sets progress to N whatever it was before, lower or above 100 |
| ProgressProperties.PlainPercentLineMatches | src/core/downloadqueue.cpp:271 | `[download] N%` matches the simple pattern with whole part N and no fraction |
| ProgressProperties.WholePercentReads | src/core/downloadqueue.cpp:271-275 | a match with whole part N and no fraction gives the value N |
| ProgressProperties.PlainPercentLineNoFragment | src/core/downloadqueue.cpp:240 | `[download] N%` is not a fragment line |
| ProgressProperties.PlainPercentLineNoBanner | src/core/downloadqueue.cpp:286 | `[download] N%` is not the completion banner |
| ProgressProperties.FragmentLineReport | src/core/downloadqueue.cpp:240-267 | a well-formed fragment line with int-sized numbers reports the guarded formula of its captures |
| ProgressProperties.BannerForces100 | src/core/downloadqueue.cpp:286-289 | a line with "100% of" and "in " leaves progress at 100 |
| ProgressProperties.ProgressStaysNonNegative | src/core/downloadqueue.cpp:243-289 | progress never becomes negative |
| ProgressProperties.AnnouncementOverwritesTotal | src/core/downloadqueue.cpp:232-236 | an announcement overwrites the stored fragment total unconditionally |
| ProgressProperties.FragmentLineFillsTotalOnce | src/core/downloadqueue.cpp:250-254 | a fragment line sets the stored total only while it is 0 |
| ProgressProperties.CurrentFragmentFollowsReport | src/core/downloadqueue.cpp:250-255 | the current fragment is the reported index when the total is positive |
| ProgressProperties.TitleSetOnce | src/core/downloadqueue.cpp:292 | a non-empty title is kept |
| ProgressProperties.TitleFromDestination | src/core/downloadqueue.cpp:293-300 | an empty title becomes the last '/'-separated segment of the destination path, which holds no '/' |
| YtDlpCommand.CredentialedArgumentsRead | src/core/downloadqueue.cpp:186-191 | yt-dlp reads `-u user -p pass --output dir/%(title)s.%(ext)s --format F` as four valued options, whatever the values look like, and reads the URL last: as the operand exactly when it does not look like an option |
| YtDlpCommand.LastRead | src/core/downloadqueue.cpp:191 | the last argument is read as the operand exactly when it does not start with '-' followed by more text |
| YtDlpCommand.DownloaderArgumentsRead | src/core/downloader.cpp:75-102 | the single-download command line reads as output, format `bv*+ba/b`, mp4 merging, `--progress`, then the optional ffmpeg location, the optional cookies, and the URL read last as for the queue |
| YtDlpCommand.CookiesIffYouTube | src/core/downloader.cpp:98-102 | browser cookies are requested exactly when the URL contains "youtube.com" or "youtu.be"; the URL is an operand exactly when it does not look like an option |
| YtDlpCommand.DownloaderUrlLast | src/core/downloader.cpp:102 | the URL is the last argument |
| YtDlpCommand.MaskHidesPassword | src/core/downloadqueue.cpp:210 | the logged command never contains a non-empty password without '*' |
| YtDlpCommand.MaskShown | src/core/downloadqueue.cpp:210 | a credentialed command line with a non-empty password logs the mask |
| YtDlpCommand.StarPasswordVisible | src/core/downloadqueue.cpp:210 | the password "*" still appears in its logged command, inside the mask |
| SingleDownload.ExitCodeMessage | src/core/downloader.cpp:144 | the error-code message starts with its fixed prefix, followed by the code |
| SingleDownload.ExitNotices | src/core/downloader.cpp:137-147 | the end ends with a finish notice, successful exactly for a normal exit with code 0; a failure is preceded by an error notice |
| SingleDownload.ExitMessagesDistinct | src/core/downloader.cpp:137-147 | exit codes are told apart, and never confused with a crash |
| SingleDownload.ProcessErrorMessage | src/core/downloader.cpp:155-174 | every error kind has a non-empty message |
| SingleDownload.ProcessErrorMessageInjective | src/core/downloader.cpp:155-174 | each error kind has its own message |
| SingleDownload.PercentMatchHasSign | src/core/downloader.cpp:191-196 | a line the pattern matches contains '%' |
| SingleDownload.OutputProgress | src/core/downloader.cpp:186-201 | progress is reported exactly when the trimmed chunk matches `[download] N%`, as N truncated (non-negative); the '%' pre-test never rejects a match |
| SingleDownload.OutputAgreesWithQueue | src/core/downloader.cpp:191-201 | on a line without a fragment report the downloader reports what the queue reports |
| SingleDownload.Downloader.constructor | src/core/downloader.cpp:10-15 | not downloading, empty URL, no process |
| SingleDownload.Downloader.DownloadVideo | src/core/downloader.cpp:56-118 | a download in progress or an empty URL is refused with its error and no state change; otherwise the URL is stored, the command line is announced and started, and a failed start clears the guard with the install message |
| SingleDownload.Downloader.CancelDownload | src/core/downloader.cpp:120-126 | a running process is killed; the guard is not cleared until the process ends |
| SingleDownload.Downloader.OnProcessFinished | src/core/downloader.cpp:133-148 | the guard is cleared and the exit notices are emitted |
| SingleDownload.Downloader.OnProcessError | src/core/downloader.cpp:150-178 | the guard is cleared and the error's message is reported as an error and an unsuccessful finish |
| SingleDownload.Downloader.OnProcessOutput | src/core/downloader.cpp:180-204 | a progress notice is emitted exactly when the chunk reports one |
| MainWindowRules.StatusOf | src/ui/mainwindow.cpp:350-376 | the line says "Ready to download" exactly when the button is enabled, and "Enter a Vimeo URL" exactly when the trimmed URL is empty |
| MainWindowRules.StatusCases | src/ui/mainwindow.cpp:357-375 | each remaining line names exactly one situation: a non-Vimeo URL, or the first missing one of credentials, folder and yt-dlp for a Vimeo URL |
| MainWindowRules.UrlStatus.Label | src/ui/mainwindow.cpp:363-375 | every status line is non-empty |
| MainWindowRules.LabelInjective | src/ui/mainwindow.cpp:363-375 | the six status lines are distinct |
| MainWindowRules.ValidateDownload | src/ui/mainwindow.cpp:224-280 | a click starts a download exactly when the button's enable predicate holds; yt-dlp then reads the user, password, output template and format `best` as option values and the trimmed URL last, as the operand unless it looks like an option |
| MainWindowRules.OptionLikeUrlAccepted | src/ui/mainwindow.cpp:231-280 | the URL "-vimeo.com" passes every check of a click, and the command line it starts then has no URL operand: yt-dlp reads it as an option |
| MainWindowRules.StatusAgreesWithClick | src/ui/mainwindow.cpp:363-375 | the click and the status line agree: ready iff started, an empty URL gives the same refusal, and for a Vimeo URL the line names the failing check |
| MainWindowRules.InvalidUrlClickOrder | src/ui/mainwindow.cpp:231-250 | with a non-Vimeo URL, a click reports missing credentials or folder first and the Vimeo warning only when both are set |
| MainWindowRules.LoggedCommand | src/ui/mainwindow.cpp:338 | the logged line starts with "Executing: yt-dlp " |
| MainWindowRules.ClickLogHidesPassword | src/ui/mainwindow.cpp:275-338 | an accepted click's logged command shows the mask and, for a password without '*', never the password |
| MainWindowRules.SaveCredentials | src/ui/mainwindow.cpp:492-504 | credentials are saved exactly when neither field is blank, and what is saved is the pair of trimmed texts, both non-empty |
| MainWindowRules.SavedCredentialsStable | src/ui/mainwindow.cpp:494-504 | saved credentials pass the credentials check, and saving them again stores the same pair |
| MainWindowRules.FinishedStatusText | src/ui/mainwindow.cpp:323-332 | the error-code line is shown exactly for a normal exit with a non-zero code |
| MainWindowRules.FinishedStatusMeaning | src/ui/mainwindow.cpp:323-332 | success is shown exactly for a normal exit with code 0, the crash line exactly for a crash |
| MainWindowRules.FinishedCodeInjective | src/ui/mainwindow.cpp:330 | the error-code line tells exit codes apart |
| MainWindowRules.DirectProgress | src/ui/mainwindow.cpp:283-307 | a chunk that trims to nothing leaves the bar as it was |
| MainWindowRules.DirectAgreesWithQueue | src/ui/mainwindow.cpp:283-307 | on a line without a fragment report the direct download shows the progress the queue records |
| Text.Trimmed | src/core/downloadqueue.cpp:226 | QString::trimmed: the result is a slice of the input with only white space around it, and it neither starts nor ends with white space |
| Text.TrimmedIdempotent | src/ui/mainwindow.cpp:494-495 | trimming twice is trimming once |
| Text.LastSegment | src/core/downloadqueue.cpp:297-299 | the last '/'-separated part of a path contains no '/' and ends the path |
| Text.IntToStringInjective | src/core/downloadqueue.cpp:343 | the decimal text of an integer tells integers apart |
| Text.Trunc | src/core/downloadqueue.cpp:259 | truncation toward zero: within one of the argument, on the side of zero |
| Text.DecimalValue | src/core/downloadqueue.cpp:246 | `toDouble` of "W.F": at least W and below W + 1, and exactly W without a fraction |
| Text.ToIntOrZero | src/core/downloadqueue.cpp:247-248 | `QString::toInt` of a digit run: its value when it fits a 32-bit int, and 0 exactly when it does not |

## Left out

- Widgets, the progress group's title text, message boxes, file dialogs and QSettings persistence: the main window's inputs are the fields of a `Form`.
- The wording of log messages: only the command line and its password masking are modelled.
- `QDateTime` timestamps of a download item: nothing in the core depends on them.
- The queue mutex: the model is sequential.
- Timer delays (100 ms, 1000 ms): only the order of the deferred steps is modelled.
- Process start, kill, `waitForStarted` and `waitForFinished`: they are the `launched` and `reaped` parameters. Reading the process's output is the `data` argument.
- Floating point: percentages are exact reals. The source evaluates the fragment formula in `double` and then truncates, so its value can be one below the model's: for `[download] 29% ... (frag 1/1)` the double result is 28.999999999999996, the source reports 28 and FragmentOverall gives 29.
- QRegularExpression in general: only the four patterns used are modelled, with `\s` as ASCII white space and `\d` as ASCII digits.
- Text.ContainsIgnoreCase: folds ASCII letters only, where Qt also folds other Unicode letters.
- The 32-bit width of `completedCount` and `totalCount`: they are unbounded integers and do not wrap.
- YtDlpCommand.MaskHidesPassword: proved only for passwords without '*'. A password made of stars survives inside the mask (StarPasswordVisible).
- QueueEngine.DownloadQueue.StartDownloadProcess: follows the corrected cleanup of "## Findings". A process still running at a launch is discarded. When the kill does not end it within the wait, its later end and the deletion of its object are not modelled.
- SingleDownload.Downloader.DownloadVideo: the Desktop location and the bundled ffmpeg are parameters. The operating-system branches that look for ffmpeg are not modelled.
- Text.Trunc: a percentage outside the int range has no defined `static_cast<int>` in C++ (x86 yields INT_MIN), while the model truncates without bound. So for `[download] 99999999999%` the model sets and reports 99999999999, and for a fragment line with a huge percentage FragmentOverall gives 100, where the source's result is undefined. Likewise `toDouble` of a capture beyond the `double` range fails and the source then reports nothing, while the model reads the exact value.
- The `errorOccurred(FailedToStart)` event that accompanies a failed start of the single downloader is a separate `OnProcessError` call.
- SingleDownload.Downloader.OnProcessOutput: the stderr half of the handler only logs, so it is not modelled.
- SingleDownload.Downloader.CancelDownload: the kill is recorded as a ghost flag. Its effects arrive later as two separate calls, because a killed or crashed QProcess emits `errorOccurred(Crashed)` before `finished(..., CrashExit)`, and both signals are connected. They are `OnProcessError(Crashed)` followed by `OnProcessFinished`, so the downloader reports two unsuccessful finishes: "yt-dlp se cerró inesperadamente." and then "Proceso terminado inesperadamente" (CancelledDownloadFails walks through this).
- The main window's "Downloading... N%" status text, with one decimal place, and its launch-failure status line: only the progress value and the end-of-process status line are modelled.
- The progress bar's handling of `setValue`: QProgressBar ignores a value outside its range and keeps showing the old one. The modelled progress is the value assigned.
- YtDlpCommand.ReadArguments knows which options take a value only for the options these command lines use. Any other option is read as standing alone.
- Tool detection and installation, colour utilities and application start-up are not part of this model.

## Findings

| source | as written | input that shows it | evidently intended | confidence | as-written member | corrected member |
|---|---|---|---|---|---|---|
| src/core/downloadqueue.cpp:385-394 | `startDownloadProcess` cleans up a still-running old process by killing it and waiting. The `finished` signal arrives during the wait, so `onDownloadFinished` fails and archives the download being launched. Its nested cleanup sets `m_currentProcess` to null, and the outer cleanup then calls `deleteLater()` through that null pointer. | Add A, let it start and finish with code 0. Within the next second, pause, add B and C, and resume. B launches, then the pending dispatch launches C while B's process runs, and the kill ends B's process within the wait. | The old process is released without reaching the finish handler, and the new download starts. | medium, not executed | QueueModel.CleanupAsWritten, QueueProperties.StaleLaunchReachable, QueueProperties.StaleCleanupFailsNewDownload | QueueModel.Launch, QueueProperties.LaunchStartsCurrent |
