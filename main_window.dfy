/**
 * The decision tables of the main window's direct (single) download: when
 * the download button is enabled, which status line is shown, which check
 * refuses a click, the command line it runs and how it is logged, when
 * credentials are saved, and how the end of the process is reported.
 * Widgets, message boxes and QSettings are not modelled: their contents
 * are the fields of a Form.
 */
module MainWindowRules {
  import opened Common
  import opened Text
  import opened Process
  import opened ProgressParser
  import opened YtDlpCommand

  /** The host a URL must mention (case-insensitively) to be accepted. */
  const VimeoHost := "vimeo.com"

  /** What the checks read: the URL field as typed, the saved user name,
      password and download folder, and whether yt-dlp was found. */
  datatype Form = Form(urlText: string, username: string, password: string, folder: string, ytDlpInstalled: bool)

  /** The URL as the checks see it: the field's text, trimmed. */
  function Url(f: Form): string
  {
    Trimmed(f.urlText)
  }

  predicate IsVimeoUrl(f: Form)
  {
    Url(f) != [] && ContainsIgnoreCase(Url(f), VimeoHost)
  }

  predicate HasCredentials(f: Form)
  {
    f.username != [] && f.password != []
  }

  predicate HasFolder(f: Form)
  {
    f.folder != []
  }

  /** The enable predicate of the download button. */
  predicate DownloadEnabled(f: Form)
  {
    IsVimeoUrl(f) && HasCredentials(f) && HasFolder(f) && f.ytDlpInstalled
  }

  // ---------------------------------------------------------------- the status line

  /** The six status lines shown while the URL is edited. */
  datatype UrlStatus = InvalidUrl | CredentialsMissing | FolderMissing | ToolMissing | Ready | EnterUrl
  {
    function Label(): (text: string)
      ensures text != ""
    {
      match this
      case InvalidUrl => "Invalid URL - must be from Vimeo"
      case CredentialsMissing => "Save Vimeo credentials first"
      case FolderMissing => "Set download folder first"
      case ToolMissing => "yt-dlp is not installed"
      case Ready => "Ready to download"
      case EnterUrl => "Enter a Vimeo URL"
    }
  }

  /** The status line: the first branch of the priority chain that applies. */
  function StatusOf(f: Form): (st: UrlStatus)
    ensures st == Ready <==> DownloadEnabled(f)
    ensures st == EnterUrl <==> Url(f) == []
  {
    var url := Url(f);
    var valid := IsVimeoUrl(f);
    var credentials := HasCredentials(f);
    var folder := HasFolder(f);
    if url != [] && !valid then InvalidUrl
    else if valid && !credentials then CredentialsMissing
    else if valid && credentials && !folder then FolderMissing
    else if valid && credentials && folder && !f.ytDlpInstalled then ToolMissing
    else if valid && credentials && folder && f.ytDlpInstalled then Ready
    else EnterUrl
  }

  /** Each status line names exactly one situation: the chain's branches do
      not overlap and every form falls in one of them. */
  lemma StatusCases(f: Form)
    ensures StatusOf(f) == InvalidUrl <==> Url(f) != [] && !ContainsIgnoreCase(Url(f), VimeoHost)
    ensures StatusOf(f) == CredentialsMissing <==> IsVimeoUrl(f) && !HasCredentials(f)
    ensures StatusOf(f) == FolderMissing <==> IsVimeoUrl(f) && HasCredentials(f) && !HasFolder(f)
    ensures StatusOf(f) == ToolMissing <==> IsVimeoUrl(f) && HasCredentials(f) && HasFolder(f) && !f.ytDlpInstalled
  {
  }

  /** The six labels are distinct, so the status line tells the situations apart. */
  lemma LabelInjective(a: UrlStatus, b: UrlStatus)
    requires a.Label() == b.Label()
    ensures a == b
  {
  }

  // ---------------------------------------------------------------- a click on Download

  const EmptyUrlMessage := "Please enter a valid URL."
  const NoCredentialsMessage := "Please save Vimeo credentials first."
  const NoFolderMessage := "Please set a download folder first."
  const NotVimeoMessage := "Please enter a valid Vimeo URL."
  const NotInstalledMessage := "yt-dlp is not installed. Please install it first."

  /** A click on Download: the five checks in the order they are made, the
      first failing one refusing with its warning; otherwise the yt-dlp
      command line that is started. yt-dlp reads the credentials, the
      output template and the format as option values, and the trimmed URL
      last, as the operand unless it looks like an option. */
  function ValidateDownload(f: Form): (r: Result<seq<string>>)
    ensures r.Success? <==> DownloadEnabled(f)
    ensures r.Success? ==>
      ReadArguments(r.value) == [Valued("-u", f.username), Valued("-p", f.password),
                                 Valued("--output", f.folder + OutputTemplate),
                                 Valued("--format", DirectFormat)] + LastRead(Url(f))
  {
    var url := Url(f);
    if url == [] then Failure(EmptyUrlMessage)
    else if f.username == [] || f.password == [] then Failure(NoCredentialsMessage)
    else if f.folder == [] then Failure(NoFolderMessage)
    else if !ContainsIgnoreCase(url, VimeoHost) then Failure(NotVimeoMessage)
    else if !f.ytDlpInstalled then Failure(NotInstalledMessage)
    else
      CredentialedArgumentsRead(f.username, f.password, f.folder, DirectFormat, url);
      Success(CredentialedArguments(f.username, f.password, f.folder, DirectFormat, url))
  }

  /** A URL that starts with '-' and mentions the Vimeo host. */
  const OptionLikeUrl := "-vimeo.com"

  /** The Vimeo check does not keep option-like text out: "-vimeo.com"
      passes every check of a click, and yt-dlp then reads it as an option,
      so the command line it starts has no URL operand at all. */
  lemma OptionLikeUrlAccepted(user: string, pass: string, folder: string)
    requires user != [] && pass != [] && folder != []
    ensures var f := Form(OptionLikeUrl, user, pass, folder, true);
      && ValidateDownload(f).Success?
      && IsOption(Url(f))
      && forall a :: a in ReadArguments(ValidateDownload(f).value) ==> !a.Operand?
  {
    var f := Form(OptionLikeUrl, user, pass, folder, true);
    assert OptionLikeUrl[0] == '-' && OptionLikeUrl[|OptionLikeUrl| - 1] == 'm';
    TrimmedKeepsTrimmed(OptionLikeUrl);
    assert OptionLikeUrl[1..] == VimeoHost;
    ContainsWitness(OptionLikeUrl, VimeoHost, 1);
    ContainsImpliesIgnoreCase(OptionLikeUrl, VimeoHost);
  }

  /** The status line and a click agree: a click starts a download exactly
      when the line says "Ready to download", an empty URL gives the same
      refusal either way, and for a Vimeo URL the line names the check the
      click fails on. */
  lemma StatusAgreesWithClick(f: Form)
    ensures StatusOf(f) == Ready <==> ValidateDownload(f).Success?
    ensures StatusOf(f) == EnterUrl <==> ValidateDownload(f) == Failure(EmptyUrlMessage)
    ensures StatusOf(f) == CredentialsMissing ==> ValidateDownload(f) == Failure(NoCredentialsMessage)
    ensures StatusOf(f) == FolderMissing ==> ValidateDownload(f) == Failure(NoFolderMessage)
    ensures StatusOf(f) == ToolMissing ==> ValidateDownload(f) == Failure(NotInstalledMessage)
  {
  }

  /** The two tables check in different orders: with a non-Vimeo URL the
      line always says "Invalid URL", but a click reports missing
      credentials or folder first and the Vimeo warning only when both are
      set. */
  lemma InvalidUrlClickOrder(f: Form)
    requires StatusOf(f) == InvalidUrl
    ensures !HasCredentials(f) ==> ValidateDownload(f) == Failure(NoCredentialsMessage)
    ensures HasCredentials(f) && !HasFolder(f) ==> ValidateDownload(f) == Failure(NoFolderMessage)
    ensures HasCredentials(f) && HasFolder(f) ==> ValidateDownload(f) == Failure(NotVimeoMessage)
  {
  }

  /** The line that reports the command: every occurrence of the password
      in the space-joined command line replaced by the mask. */
  function LoggedCommand(args: seq<string>, pass: string): (line: string)
    ensures StartsWith(line, "Executing: yt-dlp ")
  {
    var prefix := "Executing: yt-dlp ";
    assert (prefix + MaskedCommand(args, pass))[..|prefix|] == prefix;
    prefix + MaskedCommand(args, pass)
  }

  /** The logged command of an accepted click shows the mask and, for a
      password without '*', never the password. */
  lemma ClickLogHidesPassword(f: Form)
    requires ValidateDownload(f).Success?
    ensures Contains(MaskedCommand(ValidateDownload(f).value, f.password), Mask)
    ensures Disjoint(f.password, Mask) ==> !Contains(MaskedCommand(ValidateDownload(f).value, f.password), f.password)
  {
    var args := ValidateDownload(f).value;
    MaskShown(f.username, f.password, f.folder, DirectFormat, Url(f));
    if Disjoint(f.password, Mask) {
      MaskHidesPassword(args, f.password);
    }
  }

  // ---------------------------------------------------------------- saving credentials

  /** A click on Save Credentials: the trimmed user name and password are
      stored only when both are non-empty. */
  function SaveCredentials(userText: string, passText: string): (r: Option<(string, string)>)
    ensures r.Some? <==> !AllSpace(userText) && !AllSpace(passText)
    ensures r.Some? ==> r.value.0 != [] && r.value.1 != []
    ensures r.Some? ==> r.value == (Trimmed(userText), Trimmed(passText))
  {
    var user := Trimmed(userText);
    var password := Trimmed(passText);
    if user == [] || password == [] then None else Some((user, password))
  }

  /** Saved credentials satisfy the credentials check, and typing them back
      in and saving again stores the same pair. */
  lemma SavedCredentialsStable(f: Form, userText: string, passText: string)
    requires SaveCredentials(userText, passText).Some?
    ensures var saved := SaveCredentials(userText, passText).value;
      && HasCredentials(f.(username := saved.0, password := saved.1))
      && SaveCredentials(saved.0, saved.1) == Some(saved)
  {
    TrimmedIdempotent(userText);
    TrimmedIdempotent(passText);
  }

  // ---------------------------------------------------------------- the end of the process

  const CrashedText := "Error: Process crashed unexpectedly"
  const CompletedText := "Download completed successfully"
  const ErrorCodePrefix := "Download error (code: "

  lemma OtherTextsLackPrefix()
    ensures !StartsWith(CrashedText, ErrorCodePrefix) && !StartsWith(CompletedText, ErrorCodePrefix)
  {
    var p := ErrorCodePrefix;
    assert p[0] == 'D' && p[9] == 'e';
    assert |p| == 22 && |CrashedText| == 35 && |CompletedText| == 31;
    assert CrashedText[0] == 'E' && CompletedText[9] == 'c';
    assert CrashedText[..|p|][0] != p[0] && CompletedText[..|p|][9] != p[9];
  }

  /** The status line when the direct download's process ends. */
  function FinishedStatusText(exitCode: int, exitStatus: ExitStatus): (text: string)
    ensures StartsWith(text, ErrorCodePrefix) <==> exitStatus == NormalExit && exitCode != 0
  {
    OtherTextsLackPrefix();
    match exitStatus
    case CrashExit => CrashedText
    case NormalExit =>
      if exitCode == 0 then CompletedText
      else
        var line := ErrorCodePrefix + (IntToString(exitCode) + ")");
        assert line[..|ErrorCodePrefix|] == ErrorCodePrefix;
        line
  }

  /** Success is reported exactly for a normal exit with code 0, the crash
      line exactly for a crash. */
  lemma FinishedStatusMeaning(code: int, status: ExitStatus)
    ensures FinishedStatusText(code, status) == CompletedText <==> status == NormalExit && code == 0
    ensures FinishedStatusText(code, status) == CrashedText <==> status == CrashExit
  {
    OtherTextsLackPrefix();
    assert CrashedText[0] != CompletedText[0];
  }

  /** The error line tells exit codes apart. */
  lemma FinishedCodeInjective(a: int, b: int)
    requires a != 0 && b != 0
    requires FinishedStatusText(a, NormalExit) == FinishedStatusText(b, NormalExit)
    ensures a == b
  {
    var text := FinishedStatusText(a, NormalExit);
    var n := |ErrorCodePrefix|;
    assert text[n..|text| - 1] == IntToString(a);
    assert FinishedStatusText(b, NormalExit)[n..|text| - 1] == IntToString(b);
    IntToStringInjective(a, b);
  }

  // ---------------------------------------------------------------- stdout of the direct download

  /** The value given to the progress bar after one stdout chunk: the
      truncated `[download] N%` value, then 100 on the completion banner;
      a chunk that trims to nothing changes nothing. */
  function DirectProgress(bar: int, data: string): (v: int)
    ensures AllSpace(data) ==> v == bar
  {
    var output := Trimmed(data);
    if output == [] then bar
    else
      var reported := match SimpleProgress(output) case Some(p) => Trunc(p) case None => bar;
      if IsCompletionBanner(output) then 100 else reported
  }

  /** On a line without a fragment report the direct download reads the
      same progress as the queue does. */
  lemma DirectAgreesWithQueue(bar: int, data: string)
    requires !AllSpace(data) && FragmentProgress(Trimmed(data)).None?
    ensures DirectProgress(bar, data) == ProgressOf(bar, ReadLine(Trimmed(data)))
  {
  }
}
