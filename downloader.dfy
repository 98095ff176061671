/**
 * The single-download Downloader: one yt-dlp process at a time, guarded by
 * the isDownloading flag, and the messages it reports for the ways the
 * process can end. The process is abstract: starting it is a `launched`
 * parameter, its output, its end and its errors are events delivered by
 * calling the handler methods.
 */
module SingleDownload {
  import opened Common
  import opened Text
  import opened Process
  import opened ProgressParser
  import opened YtDlpCommand

  /** The signals the downloader emits; the command line stands for the
      "Ejecutando: yt-dlp ..." log line, whose wording is not modelled. */
  datatype Notice =
    | Executing(arguments: seq<string>)
    | DownloadStarted
    | DownloadProgress(percent: int)
    | DownloadFinished(success: bool, message: string)
    | DownloadError(message: string)

  const BusyMessage := "Ya hay una descarga en progreso"
  const EmptyUrlMessage := "URL vacía"
  const LaunchFailedMessage := "No se pudo iniciar yt-dlp. Asegúrate de que esté instalado y en el PATH."
  const CrashErrorMessage := "El proceso yt-dlp se cerró inesperadamente"
  const CrashFinishMessage := "Proceso terminado inesperadamente"
  const CompletedMessage := "Descarga completada"
  const ExitCodePrefix := "yt-dlp terminó con código de error: "

  // ---------------------------------------------------------------- the end of the process

  /** The message for an exit with a non-zero code. */
  function ExitCodeMessage(exitCode: int): (m: string)
    ensures StartsWith(m, ExitCodePrefix) && |m| > |ExitCodePrefix|
  {
    IntToStringDigits(exitCode);
    ConcatParts(ExitCodePrefix, IntToString(exitCode));
    ExitCodePrefix + IntToString(exitCode)
  }

  /** What the end of the process emits: a crash and a non-zero code report
      an error and then an unsuccessful finish; code 0 a successful finish. */
  function ExitNotices(exitCode: int, exitStatus: ExitStatus): (emitted: seq<Notice>)
    ensures |emitted| >= 1 && emitted[|emitted| - 1].DownloadFinished?
    ensures emitted[|emitted| - 1].success <==> exitStatus == NormalExit && exitCode == 0
    ensures emitted[|emitted| - 1].success ==> |emitted| == 1
    ensures !emitted[|emitted| - 1].success ==> |emitted| == 2 && emitted[0].DownloadError?
  {
    match exitStatus
    case CrashExit => [DownloadError(CrashErrorMessage), DownloadFinished(false, CrashFinishMessage)]
    case NormalExit =>
      if exitCode == 0 then [DownloadFinished(true, CompletedMessage)]
      else
        var message := ExitCodeMessage(exitCode);
        [DownloadError(message), DownloadFinished(false, message)]
  }

  /** The finish message of a failed exit names its exit code, and is never
      the crash message. */
  lemma ExitMessagesDistinct(a: int, b: int)
    requires a != 0 && b != 0
    ensures ExitNotices(a, NormalExit) == ExitNotices(b, NormalExit) ==> a == b
    ensures ExitNotices(a, NormalExit) != ExitNotices(b, CrashExit)
  {
    var m := ExitCodeMessage(a);
    assert CrashFinishMessage[0] == 'P' && m[0] == 'y';
    if ExitNotices(a, NormalExit) == ExitNotices(b, NormalExit) {
      var n := |ExitCodePrefix|;
      assert m[n..] == IntToString(a);
      assert ExitCodeMessage(b)[n..] == IntToString(b);
      IntToStringInjective(a, b);
    }
  }

  // ---------------------------------------------------------------- process errors

  /** The message reported for each kind of process error. */
  function ProcessErrorMessage(error: ProcessError): (m: string)
    ensures m != ""
  {
    match error
    case FailedToStart => "No se pudo iniciar yt-dlp. Verifica que esté instalado."
    case Crashed => "yt-dlp se cerró inesperadamente."
    case Timedout => "Tiempo de espera agotado."
    case WriteError => "Error de escritura en el proceso."
    case ReadError => "Error de lectura del proceso."
    case UnknownError => "Error desconocido en el proceso."
  }

  /** Each kind of error has its own message. */
  lemma ProcessErrorMessageInjective(a: ProcessError, b: ProcessError)
    requires ProcessErrorMessage(a) == ProcessErrorMessage(b)
    ensures a == b
  {
  }

  // ---------------------------------------------------------------- progress on stdout

  /** A string that holds `c` somewhere contains the one-character string `[c]`. */
  lemma CharWitness(s: string, c: char, k: int)
    requires 0 <= k < |s| && s[k] == c
    ensures Contains(s, [c])
  {
    assert s[k..k + 1] == [c];
    ContainsWitness(s, [c], k);
  }

  /** Wherever the `[download] N%` pattern matches, the line has a '%'. */
  lemma PercentMatchHasSign(line: string)
    ensures SimpleProgress(line).Some? ==> Contains(line, "%")
  {
    if SimpleProgress(line).Some? {
      var found := FirstMatch(line, 0, PercentAt).value;
      var t := line[found.start..];
      var p := found.value;
      assert t[p.length - 1] == '%';
      CharWitness(line, '%', found.start + p.length - 1);
    }
  }

  /** The progress a stdout chunk reports: a non-empty chunk whose trimmed
      text contains '%' and matches `[download] N%`, as N truncated. The
      '%' test never rejects a line the pattern would accept. */
  function OutputProgress(data: string): (r: Option<int>)
    ensures r.Some? <==> SimpleProgress(Trimmed(data)).Some?
    ensures r.Some? ==> r.value >= 0 && r.value == Trunc(SimpleProgress(Trimmed(data)).value)
  {
    if data == [] then
      assert Trimmed(data) == [];
      assert FirstMatch(Trimmed(data), 0, PercentAt).None?;
      None
    else
      var output := Trimmed(data);
      if !Contains(output, "%") then
        PercentMatchHasSign(output);
        None
      else
        match SimpleProgress(output)
        case Some(v) => Some(Trunc(v))
        case None => None
  }

  /** On a line without a fragment report the downloader reports the same
      progress the queue does. */
  lemma OutputAgreesWithQueue(progress: int, data: string)
    requires FragmentProgress(Trimmed(data)).None?
    ensures OutputProgress(data) == ChunkReport(progress, Trimmed(data))
  {
  }

  // ---------------------------------------------------------------- the downloader

  class Downloader {
    var isDownloading: bool
    var currentUrl: string
    /** Whether the process is in any state other than NotRunning. */
    var processRunning: bool
    /** Set when cancelling killed a running process. */
    ghost var killSent: bool
    ghost var notices: seq<Notice>

    /** A download in progress always has the URL it was started for. */
    ghost predicate Valid()
      reads this
    {
      isDownloading ==> currentUrl != []
    }

    constructor ()
      ensures Valid()
      ensures !isDownloading && currentUrl == [] && !processRunning && !killSent && notices == []
    {
      isDownloading := false;
      currentUrl := [];
      processRunning := false;
      killSent := false;
      notices := [];
    }

    predicate IsDownloading()
      reads this
    {
      isDownloading
    }

    /** Starts a download of `url` into `desktop`; `ffmpeg` is the bundled
        ffmpeg if one was found and `launched` whether the process started
        within the wait. A download in progress or an empty URL is refused
        with an error and nothing else changes. */
    method DownloadVideo(url: string, desktop: string, ffmpeg: Option<string>, launched: bool)
      requires Valid()
      modifies this
      ensures Valid()
      ensures old(isDownloading) ==>
        && isDownloading && currentUrl == old(currentUrl) && processRunning == old(processRunning)
        && notices == old(notices) + [DownloadError(BusyMessage)]
      ensures !old(isDownloading) && url == [] ==>
        && !isDownloading && currentUrl == old(currentUrl) && processRunning == old(processRunning)
        && notices == old(notices) + [DownloadError(EmptyUrlMessage)]
      ensures !old(isDownloading) && url != [] ==>
        && currentUrl == url && isDownloading == launched && processRunning == launched
        && notices == old(notices) + [Executing(DownloaderArguments(url, desktop, ffmpeg)), DownloadStarted]
                      + (if launched then [] else [DownloadError(LaunchFailedMessage)])
      ensures killSent == old(killSent)
    {
      if isDownloading {
        notices := notices + [DownloadError(BusyMessage)];
        return;
      }
      if url == [] {
        notices := notices + [DownloadError(EmptyUrlMessage)];
        return;
      }
      currentUrl := url;
      isDownloading := true;
      var arguments := DownloaderArguments(url, desktop, ffmpeg);
      notices := notices + [Executing(arguments), DownloadStarted];
      processRunning := launched;
      if !launched {
        isDownloading := false;
        notices := notices + [DownloadError(LaunchFailedMessage)];
      }
    }

    /** Kills a running process; its end arrives later as a finish event.
        The guard is not cleared here. */
    method CancelDownload()
      modifies this`killSent
      ensures killSent == (old(killSent) || processRunning)
    {
      if processRunning {
        killSent := true;
      }
    }

    /** The end of the process: the guard is cleared and the exit reported. */
    method OnProcessFinished(exitCode: int, exitStatus: ExitStatus)
      requires Valid()
      modifies this`isDownloading, this`processRunning, this`notices
      ensures Valid()
      ensures !isDownloading && !processRunning
      ensures notices == old(notices) + ExitNotices(exitCode, exitStatus)
    {
      isDownloading := false;
      processRunning := false;
      notices := notices + ExitNotices(exitCode, exitStatus);
    }

    /** A process error: the guard is cleared and the error reported. */
    method OnProcessError(error: ProcessError)
      requires Valid()
      modifies this`isDownloading, this`notices
      ensures Valid()
      ensures !isDownloading
      ensures notices == old(notices) + [DownloadError(ProcessErrorMessage(error)), DownloadFinished(false, ProcessErrorMessage(error))]
    {
      isDownloading := false;
      var message := ProcessErrorMessage(error);
      notices := notices + [DownloadError(message), DownloadFinished(false, message)];
    }

    /** A chunk of standard output: its progress, if any, is reported. */
    method OnProcessOutput(data: string)
      modifies this`notices
      ensures notices == old(notices) + (match OutputProgress(data) case Some(p) => [DownloadProgress(p)] case None => [])
    {
      if data != [] {
        var output := Trimmed(data);
        if Contains(output, "%") {
          match SimpleProgress(output)
          case Some(v) =>
            notices := notices + [DownloadProgress(Trunc(v))];
          case None =>
        }
      }
    }
  }

  /** A cancelled download reports two unsuccessful finishes: the killed
      process raises `errorOccurred(Crashed)` and then `finished` with
      `CrashExit`. Until the first of them arrives no other download may
      start. */
  method CancelledDownloadFails(url: string, desktop: string, next: string, exitCode: int)
    requires url != [] && next != []
  {
    var d := new Downloader();
    d.DownloadVideo(url, desktop, None, true);
    d.CancelDownload();
    assert d.killSent && d.isDownloading;
    ghost var before := d.notices;
    d.DownloadVideo(next, desktop, None, true);
    assert d.notices == before + [DownloadError(BusyMessage)] && d.currentUrl == url;
    ghost var refused := d.notices;
    d.OnProcessError(Crashed);
    d.OnProcessFinished(exitCode, CrashExit);
    assert d.notices == refused + [DownloadError(ProcessErrorMessage(Crashed)), DownloadFinished(false, ProcessErrorMessage(Crashed))]
                                + [DownloadError(CrashErrorMessage), DownloadFinished(false, CrashFinishMessage)];
    assert d.notices[|d.notices| - 3] == DownloadFinished(false, "yt-dlp se cerró inesperadamente.");
    assert d.notices[|d.notices| - 1] == DownloadFinished(false, CrashFinishMessage);
    d.DownloadVideo(next, desktop, None, true);
    assert d.currentUrl == next && d.isDownloading;
  }
}
