/**
 * The yt-dlp command lines the application builds, the redacted copy of a
 * command line that goes to the log, and a reader that takes a command
 * line apart again the way yt-dlp's option parser pairs options with
 * their values.
 */
module YtDlpCommand {
  import opened Common
  import opened Text

  /** Appended to the download folder: yt-dlp names the file after the video. */
  const OutputTemplate := "/%(title)s.%(ext)s"
  /** Best video plus best audio, falling back to the best single file. */
  const QueueFormat := "bv*+ba/b"
  /** The format the direct download of the main window asks for. */
  const DirectFormat := "best"
  /** What the logged command line shows instead of the password. */
  const Mask := "***"

  // ---------------------------------------------------------------- reading a command line

  /** One element of a command line as yt-dlp reads it. */
  datatype Argument = Valued(name: string, value: string) | Flag(name: string) | Operand(text: string)

  /** The options used here that take the next argument as their value. */
  predicate TakesValue(a: string)
  {
    a == "-u" || a == "-p" || a == "--output" || a == "--format" || a == "--merge-output-format"
    || a == "--ffmpeg-location" || a == "--cookies-from-browser"
  }

  /** What the option parser takes for an option: '-' followed by at least
      one more character. A lone "-" is an operand. */
  predicate IsOption(a: string)
  {
    |a| >= 2 && a[0] == '-'
  }

  /** Every argument read as an operand. */
  function Operands(args: seq<string>): (r: seq<Argument>)
    ensures |r| == |args| && forall i :: 0 <= i < |args| ==> r[i] == Operand(args[i])
  {
    seq(|args|, i requires 0 <= i < |args| => Operand(args[i]))
  }

  /** Reads a command line from the left, as yt-dlp's option parser does:
      "--" ends the options; an option that takes a value consumes the next
      argument, whatever it looks like; any other option stands alone;
      everything else is an operand. */
  function ReadArguments(args: seq<string>): seq<Argument>
    decreases |args|
  {
    if args == [] then []
    else if args[0] == "--" then Operands(args[1..])
    else if TakesValue(args[0]) && |args| >= 2 then [Valued(args[0], args[1])] + ReadArguments(args[2..])
    else if IsOption(args[0]) then [Flag(args[0])] + ReadArguments(args[1..])
    else [Operand(args[0])] + ReadArguments(args[1..])
  }

  /** How the last argument of a command line is read: it is an operand
      exactly when it does not look like an option. */
  function LastRead(a: string): (r: seq<Argument>)
    ensures r == [Operand(a)] <==> !IsOption(a)
    ensures Operand(a) in r <==> !IsOption(a)
  {
    if a == "--" then []
    else if IsOption(a) then [Flag(a)]
    else [Operand(a)]
  }

  lemma ReadValued(name: string, value: string, rest: seq<string>)
    requires TakesValue(name)
    ensures ReadArguments([name, value] + rest) == [Valued(name, value)] + ReadArguments(rest)
  {
    assert ([name, value] + rest)[2..] == rest;
  }

  lemma ReadFlag(name: string, rest: seq<string>)
    requires IsOption(name) && !TakesValue(name) && name != "--"
    ensures ReadArguments([name] + rest) == [Flag(name)] + ReadArguments(rest)
  {
    assert ([name] + rest)[1..] == rest;
  }

  lemma ReadLast(text: string)
    ensures ReadArguments([text]) == LastRead(text)
  {
    if text == "--" {
      assert [text][1..] == [];
    }
  }

  // ---------------------------------------------------------------- building command lines

  /** `-u user -p pass --output dir/%(title)s.%(ext)s --format F url`: the
      command line of a queued download (F = QueueFormat) and of the main
      window's direct download (F = DirectFormat). */
  function CredentialedArguments(user: string, pass: string, dir: string, format: string, url: string): seq<string>
  {
    ["-u", user] + (["-p", pass] + (["--output", dir + OutputTemplate] + (["--format", format] + [url])))
  }

  /** yt-dlp sees the user name, the password, the output template and the
      format as the values of their options, whatever they look like; the
      URL is read last, as the only operand unless it looks like an option. */
  lemma CredentialedArgumentsRead(user: string, pass: string, dir: string, format: string, url: string)
    ensures ReadArguments(CredentialedArguments(user, pass, dir, format, url))
            == [Valued("-u", user), Valued("-p", pass), Valued("--output", dir + OutputTemplate),
                Valued("--format", format)] + LastRead(url)
  {
    ReadLast(url);
    ReadValued("--format", format, [url]);
    ReadValued("--output", dir + OutputTemplate, ["--format", format] + [url]);
    ReadValued("-p", pass, ["--output", dir + OutputTemplate] + (["--format", format] + [url]));
    ReadValued("-u", user, ["-p", pass] + (["--output", dir + OutputTemplate] + (["--format", format] + [url])));
  }

  /** The URLs for which browser cookies are passed along. */
  predicate IsYouTube(url: string)
  {
    Contains(url, "youtube.com") || Contains(url, "youtu.be")
  }

  function FfmpegArguments(ffmpeg: Option<string>): seq<string>
  {
    match ffmpeg
    case None => []
    case Some(path) => ["--ffmpeg-location", path]
  }

  function CookieArguments(url: string): seq<string>
  {
    if IsYouTube(url) then ["--cookies-from-browser", "chrome"] else []
  }

  /** The single-download command line: output template, format, MP4 merging,
      progress, then the ffmpeg location when one was found, browser cookies
      for YouTube, and the URL last. */
  function DownloaderArguments(url: string, dir: string, ffmpeg: Option<string>): seq<string>
  {
    ["--output", dir + OutputTemplate] + (["--format", QueueFormat] + (["--merge-output-format", "mp4"]
      + (["--progress"] + (FfmpegArguments(ffmpeg) + (CookieArguments(url) + [url])))))
  }

  function FfmpegRead(ffmpeg: Option<string>): seq<Argument>
  {
    match ffmpeg
    case None => []
    case Some(path) => [Valued("--ffmpeg-location", path)]
  }

  function CookiesRead(url: string): seq<Argument>
  {
    if IsYouTube(url) then [Valued("--cookies-from-browser", "chrome")] else []
  }

  /** How yt-dlp reads the optional part and the URL. */
  lemma DownloaderTailRead(url: string, ffmpeg: Option<string>)
    ensures ReadArguments(FfmpegArguments(ffmpeg) + (CookieArguments(url) + [url]))
            == FfmpegRead(ffmpeg) + (CookiesRead(url) + LastRead(url))
  {
    var tail := CookieArguments(url) + [url];
    ReadLast(url);
    if IsYouTube(url) {
      ReadValued("--cookies-from-browser", "chrome", [url]);
    }
    match ffmpeg {
      case None =>
        assert FfmpegArguments(ffmpeg) + tail == tail;
      case Some(path) =>
        ReadValued("--ffmpeg-location", path, tail);
    }
  }

  /** How yt-dlp reads the single-download command line. */
  lemma DownloaderArgumentsRead(url: string, dir: string, ffmpeg: Option<string>)
    ensures ReadArguments(DownloaderArguments(url, dir, ffmpeg))
            == [Valued("--output", dir + OutputTemplate), Valued("--format", QueueFormat),
                Valued("--merge-output-format", "mp4"), Flag("--progress")]
               + (FfmpegRead(ffmpeg) + (CookiesRead(url) + LastRead(url)))
  {
    var more := FfmpegArguments(ffmpeg) + (CookieArguments(url) + [url]);
    var read := FfmpegRead(ffmpeg) + (CookiesRead(url) + LastRead(url));
    DownloaderTailRead(url, ffmpeg);
    ReadFlag("--progress", more);
    ReadValued("--merge-output-format", "mp4", ["--progress"] + more);
    ReadValued("--format", QueueFormat, ["--merge-output-format", "mp4"] + (["--progress"] + more));
    ReadValued("--output", dir + OutputTemplate, ["--format", QueueFormat] + (["--merge-output-format", "mp4"] + (["--progress"] + more)));
    assert [Valued("--output", dir + OutputTemplate)] + ([Valued("--format", QueueFormat)] + ([Valued("--merge-output-format", "mp4")] + ([Flag("--progress")] + read)))
        == [Valued("--output", dir + OutputTemplate), Valued("--format", QueueFormat),
            Valued("--merge-output-format", "mp4"), Flag("--progress")] + read;
  }

  /** Browser cookies are requested exactly for YouTube URLs, and the URL is
      taken as the operand exactly when it does not look like an option. */
  lemma CookiesIffYouTube(url: string, dir: string, ffmpeg: Option<string>)
    ensures Valued("--cookies-from-browser", "chrome") in ReadArguments(DownloaderArguments(url, dir, ffmpeg))
            <==> IsYouTube(url)
    ensures Operand(url) in ReadArguments(DownloaderArguments(url, dir, ffmpeg)) <==> !IsOption(url)
  {
    DownloaderArgumentsRead(url, dir, ffmpeg);
  }

  /** The URL is the last argument of the single-download command line. */
  lemma DownloaderUrlLast(url: string, dir: string, ffmpeg: Option<string>)
    ensures var args := DownloaderArguments(url, dir, ffmpeg); |args| >= 8 && args[|args| - 1] == url
  {
  }

  // ---------------------------------------------------------------- the logged copy

  /** The command line as logged: joined with spaces, every occurrence of
      the password replaced by the mask. */
  function MaskedCommand(args: seq<string>, pass: string): string
  {
    ReplaceAll(Join(args, " "), pass, Mask)
  }

  /** A non-empty password without '*' never appears in the logged command. */
  lemma MaskHidesPassword(args: seq<string>, pass: string)
    requires pass != [] && Disjoint(pass, Mask)
    ensures !Contains(MaskedCommand(args, pass), pass)
  {
    ReplaceAllRemoves(Join(args, " "), pass, Mask);
  }

  /** A credentialed command line with a non-empty password logs the mask. */
  lemma MaskShown(user: string, pass: string, dir: string, format: string, url: string)
    requires pass != []
    ensures Contains(MaskedCommand(CredentialedArguments(user, pass, dir, format, url), pass), Mask)
  {
    var args := CredentialedArguments(user, pass, dir, format, url);
    assert args[3] == pass;
    JoinContainsPart(args, " ", 3);
    ReplaceAllLeavesReplacement(Join(args, " "), pass, Mask);
  }

  /** The '*'-free condition cannot be dropped: the password "*" is still
      visible in its logged command line, inside the mask. */
  lemma StarPasswordVisible(user: string, dir: string, format: string, url: string)
    ensures Contains(MaskedCommand(CredentialedArguments(user, "*", dir, format, url), "*"), "*")
  {
    var logged := MaskedCommand(CredentialedArguments(user, "*", dir, format, url), "*");
    MaskShown(user, "*", dir, format, url);
    var i :| 0 <= i <= |logged| - |Mask| && OccursAt(logged, Mask, i);
    assert logged[i..i + 1] == "*" by {
      assert logged[i..i + 1] == logged[i..i + 3][..1];
    }
    ContainsWitness(logged, "*", i);
  }
}
