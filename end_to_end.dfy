/** How the three programs fit together: the main process launches the
    script with arguments it accepts, the script writes its transcript
    under the name of the recording, which the recent-transcriptions query
    lists, and what the script prints is what the renderer receives. */
module EndToEnd {
  import opened Results
  import opened Strings
  import opened Paths
  import opened RendererText
  import opened Session
  import opened MainProcess
  import opened TranscribeScript

  /** The interpreter is started with exactly the arguments the script's
      main block accepts: once the script's imports succeed, an existing
      audio file is transcribed. */
  lemma LaunchPassesArgvCheck(isPackaged: bool, resourcesPath: string, appDir: string,
                              fileExists: string -> bool, audioPath: string, env: ScriptEnv)
    requires env.importError.None?
    requires env.fileExists(audioPath)
    ensures var argv := PythonLaunch(isPackaged, resourcesPath, appDir, fileExists, audioPath).args;
            && RunScript(argv, env) == TranscribeScript.TranscribeAudio(audioPath, env)
            && RunScript(argv, env).modelsTried != []
  {
  }

  /** The home directory's trailing separators do not change it. */
  lemma TrimEndNoSlash(home: string)
    requires home == "" || home[|home| - 1] != '/'
    ensures TrimEnd(home, c => c == '/') == home
  {
  }

  /** With the transcriptions directory of the main process, the script
      writes the transcript of a recording stamped from an ISO instant to
      <stamp>.md in that same directory, a name the recent-transcriptions
      query keeps. */
  lemma TranscriptNamedLikeRecording(home: string, env: PipelineEnv)
    requires IsIsoInstant(env.isoNow)
    requires env.transcriptionsDir == TranscriptionsDir(home)
    requires home == "" || home[|home| - 1] != '/'
    ensures var stamp := Timestamp(env.isoNow);
            && MarkdownPath(home, AudioPath(env)) == Join(TranscriptionsDir(home), stamp + ".md")
            && EndsWith(stamp + ".md", ".md")
  {
    var stamp := Timestamp(env.isoNow);
    IsoStamp(env.isoNow);
    StampedMarkdownPath(home, env.transcriptionsDir, stamp);
    var md := stamp + ".md";
    assert md[|md| - 3..] == ".md";
  }

  lemma StampedMarkdownPath(home: string, dir: string, stamp: string)
    requires |stamp| > 0 && '.' !in stamp && '/' !in stamp
    requires home == "" || home[|home| - 1] != '/'
    ensures MarkdownPath(home, Join(dir, FinalFilename(stamp))) == Join(TranscriptionsDir(home), stamp + ".md")
  {
    assert '.' !in "mp3" && '/' !in "mp3";
    assert stamp + "." + "mp3" == FinalFilename(stamp);
    MarkdownPathOfStamp(home, dir, stamp, "mp3");
    TrimEndNoSlash(home);
  }

  /** A text str.strip() leaves unchanged, printed with its line break,
      resolves to itself unless it begins or ends with U+FEFF. */
  lemma StrippedTextResolves(text: string, errorOutput: string)
    requires Unpadded(text, IsPySpace)
    requires |text| == 0 || (text[0] != '\U{FEFF}' && text[|text| - 1] != '\U{FEFF}')
    ensures CloseResult(text + "\n", errorOutput, Some(0)) == Success(text)
  {
    if |text| > 0 {
      JsSpaceIsPySpaceOrBom(text[0]);
      JsSpaceIsPySpaceOrBom(text[|text| - 1]);
    }
    assert AllSpace("\n", IsJsSpace) && AllSpace("", IsJsSpace);
    assert "" + text + "\n" == text + "\n";
    CloseResultOfPadded("", text, "\n", errorOutput);
  }

  /** A successful run prints its stripped transcription and a line
      break, and writes that transcription into the markdown file. */
  lemma SuccessfulRun(argv: seq<string>, env: ScriptEnv) returns (text: string)
    requires RunScript(argv, env).exitCode == 0
    ensures var run := RunScript(argv, env);
            && run.stdout == text + "\n" && Unpadded(text, IsPySpace) && run.markdown.Some?
            && exists date, duration, file, language ::
                 run.markdown.value.content == MarkdownContent(date, duration, file, language, text)
  {
    var result := env.transcribe(LoadModel(env.loadModel).model.value).value;
    text := Trim(result.text, IsPySpace);
  }

  /** On exit code 0, however the decoded stdout text is split into chunks,
      the main process
      resolves with the script's transcription (the text of the markdown
      file) unless that text begins or ends with U+FEFF, which
      String.prototype.trim removes and str.strip does not. */
  lemma TranscriptReachesRenderer(argv: seq<string>, env: ScriptEnv, events: seq<StreamEvent>)
    requires RunScript(argv, env).exitCode == 0
    requires Concat(StdoutChunks(events)) == RunScript(argv, env).stdout
    requires var out := RunScript(argv, env).stdout;
             out[0] != '\U{FEFF}' && (|out| < 2 || out[|out| - 2] != '\U{FEFF}')
    ensures var run := RunScript(argv, env);
            var text := run.stdout[..|run.stdout| - 1];
            && CloseResult(Concat(StdoutChunks(events)), Concat(StderrChunks(events)), Some(0)) == Success(text)
            && run.markdown.Some?
            && exists date, duration, file, language ::
                 run.markdown.value.content == MarkdownContent(date, duration, file, language, text)
  {
    var out := RunScript(argv, env).stdout;
    var text := SuccessfulRun(argv, env);
    assert out[..|out| - 1] == text;
    if |text| > 0 {
      assert text[0] == out[0] && text[|text| - 1] == out[|out| - 2];
    }
    StrippedTextResolves(text, Concat(StderrChunks(events)));
  }

  /** Exit code 1 is rendered as "1" in the rejection message. */
  lemma ExitCodeOne()
    ensures ExitCodeText(Some(1)) == "1"
  {
    assert NatToString(1) == [DigitChar(1)];
  }

  /** The rejection for exit code 1 carries all of stderr, ending with its
      last line. */
  lemma FailureCarriesStderr(output: string, lines: seq<string>)
    requires |lines| > 0
    ensures var r := CloseResult(output, StderrText(lines), Some(1));
            && r == Failure("Python process failed (code 1): " + StderrText(lines))
            && EndsWith(r.error, lines[|lines| - 1] + "\n")
  {
    var prefix := "Python process failed (code " + ExitCodeText(Some(1)) + "): ";
    EndsWithAfter(prefix, StderrText(lines), lines[|lines| - 1] + "\n");
    FailurePrefixOne();
  }

  /** The rejection's prefix for exit code 1. */
  lemma FailurePrefixOne()
    ensures "Python process failed (code " + ExitCodeText(Some(1)) + "): " == "Python process failed (code 1): "
  {
    ExitCodeOne();
  }

  /** On a failing run, the rejection carries the exit code and everything
      the script printed to stderr, ending with its last message (the usage
      line, the missing file or the transcription error). */
  lemma ScriptErrorReachesRenderer(argv: seq<string>, env: ScriptEnv, events: seq<StreamEvent>)
    requires RunScript(argv, env).exitCode != 0
    requires Concat(StderrChunks(events)) == StderrText(RunScript(argv, env).stderr)
    ensures var run := RunScript(argv, env);
            var r := CloseResult(Concat(StdoutChunks(events)), Concat(StderrChunks(events)), Some(run.exitCode));
            && r == Failure("Python process failed (code 1): " + StderrText(run.stderr))
            && EndsWith(r.error, run.stderr[|run.stderr| - 1] + "\n")
  {
    var run := RunScript(argv, env);
    assert run.exitCode == 1 && |run.stderr| > 0;
    FailureCarriesStderr(Concat(StdoutChunks(events)), run.stderr);
  }
}
