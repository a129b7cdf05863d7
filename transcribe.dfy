/** The transcription script run by the main process: it checks its
    arguments, loads a Whisper model with fallback from 'large' to 'base' to
    'tiny', transcribes the file, writes a markdown document next to the
    other transcriptions and prints the transcribed text.

    Whisper, librosa, the clock and the file system are inputs: the outcome
    of each model load, the transcription result per loaded model, the
    duration and date texts, whether the file exists and whether writing
    the markdown file fails. */
module TranscribeScript {
  import opened Results
  import opened Strings
  import opened Paths

  // ---------------------------------------------------------------------
  // Detected language
  // ---------------------------------------------------------------------

  /** The display names of the language codes the script knows. */
  const LanguageNames: map<string, string> :=
    map["en" := "English", "fr" := "French", "es" := "Spanish", "de" := "German",
        "it" := "Italian", "pt" := "Portuguese", "ru" := "Russian", "ja" := "Japanese",
        "zh" := "Chinese", "ko" := "Korean"]

  /** The display of the detected language: 'unknown' when the result has
      no language; a known code's name; otherwise the code capitalized. A
      missing language therefore shows as 'Unknown'. */
  function LanguageDisplay(detected: Option<string>): (d: string)
    ensures detected.None? ==> d == "Unknown"
  {
    var code := if detected.Some? then detected.value else "unknown";
    UnknownIsNoCode();
    CapitalizeUnknown();
    if code in LanguageNames then LanguageNames[code] else Capitalize(code)
  }

  /** The ten codes the script knows show their fixed names. */
  lemma KnownLanguages()
    ensures LanguageDisplay(Some("en")) == "English" && LanguageDisplay(Some("fr")) == "French"
    ensures LanguageDisplay(Some("es")) == "Spanish" && LanguageDisplay(Some("de")) == "German"
    ensures LanguageDisplay(Some("it")) == "Italian" && LanguageDisplay(Some("pt")) == "Portuguese"
    ensures LanguageDisplay(Some("ru")) == "Russian" && LanguageDisplay(Some("ja")) == "Japanese"
    ensures LanguageDisplay(Some("zh")) == "Chinese" && LanguageDisplay(Some("ko")) == "Korean"
  {
  }

  /** Any other code shows capitalized: its first character upper-cased,
      the rest lower-cased. */
  lemma OtherLanguage(code: string)
    requires code !in LanguageNames
    ensures var d := LanguageDisplay(Some(code));
            |d| == |code| && (|code| > 0 ==> d[0] == UpperChar(code[0]) && d[1..] == Lower(code[1..]))
  {
  }

  lemma UnknownIsNoCode()
    ensures "unknown" !in LanguageNames
  {
    assert |"unknown"| == 7;
    forall k | k in LanguageNames ensures k != "unknown" {
      assert |k| == 2;
    }
  }

  lemma CapitalizeUnknown()
    ensures Capitalize("unknown") == "Unknown"
  {
    assert UpperChar('u') == 'U';
    assert Lower("nknown") == "nknown";
  }

  /** Every display is already capitalized: capitalizing it again changes
      nothing. */
  lemma LanguageDisplayCapitalized(detected: Option<string>)
    ensures Capitalize(LanguageDisplay(detected)) == LanguageDisplay(detected)
  {
    var code := if detected.Some? then detected.value else "unknown";
    if code in LanguageNames {
      NamesCapitalized(code);
    } else {
      CapitalizeIdempotent(code);
    }
  }

  /** An upper-case ASCII letter followed by lower-case ones. */
  predicate IsCapitalizedWord(w: string)
  {
    |w| > 0 && 'A' <= w[0] <= 'Z' && forall i :: 1 <= i < |w| ==> 'a' <= w[i] <= 'z'
  }

  lemma CapitalizedWordFixed(w: string)
    requires IsCapitalizedWord(w)
    ensures Capitalize(w) == w
  {
    assert Lower(w[1..]) == w[1..];
  }

  lemma NamesCapitalized(code: string)
    requires code in LanguageNames
    ensures Capitalize(LanguageNames[code]) == LanguageNames[code]
  {
    var n := LanguageNames[code];
    if code in {"en", "fr", "es", "de", "it"} {
      EuropeanNamesCapitalized(n);
    } else {
      OtherNamesCapitalized(n);
    }
    CapitalizedWordFixed(n);
  }

  lemma EuropeanNamesCapitalized(n: string)
    requires n in {"English", "French", "Spanish", "German", "Italian"}
    ensures IsCapitalizedWord(n)
  {
    if n == "English" { assert IsCapitalizedWord("English"); }
    else if n == "French" { assert IsCapitalizedWord("French"); }
    else if n == "Spanish" { assert IsCapitalizedWord("Spanish"); }
    else if n == "German" { assert IsCapitalizedWord("German"); }
    else { assert IsCapitalizedWord("Italian"); }
  }

  lemma OtherNamesCapitalized(n: string)
    requires n in {"Portuguese", "Russian", "Japanese", "Chinese", "Korean"}
    ensures IsCapitalizedWord(n)
  {
    if n == "Portuguese" { assert IsCapitalizedWord("Portuguese"); }
    else if n == "Russian" { assert IsCapitalizedWord("Russian"); }
    else if n == "Japanese" { assert IsCapitalizedWord("Japanese"); }
    else if n == "Chinese" { assert IsCapitalizedWord("Chinese"); }
    else { assert IsCapitalizedWord("Korean"); }
  }

  // ---------------------------------------------------------------------
  // Model loading
  // ---------------------------------------------------------------------

  /** The models tried, in order. */
  const ModelOrder: seq<string> := ["large", "base", "tiny"]

  /** The model names passed to load_model, the progress lines on stderr,
      and the loaded model's name or the last load's error. */
  datatype LoadRun = LoadRun(tried: seq<string>, log: seq<string>, model: Result<string, string>)

  /** The nested try blocks around load_model: the names tried are a
      prefix of large, base, tiny; every one tried before the last failed to
      load; the model is the last one tried when it loads, and otherwise all
      three failed and the error is tiny's. */
  function LoadModel(load: string -> Result<(), string>): (r: LoadRun)
    ensures 0 < |r.tried| <= |ModelOrder| && r.tried == ModelOrder[..|r.tried|]
    ensures forall j :: 0 <= j < |r.tried| - 1 ==> load(r.tried[j]).Failure?
    ensures r.model.Success? ==> r.model.value == r.tried[|r.tried| - 1] && load(r.model.value).Success?
    ensures r.model.Failure? ==>
              r.tried == ModelOrder && load("tiny").Failure? && r.model.error == load("tiny").error
  {
    assert ModelOrder[..1] == ["large"] && ModelOrder[..2] == ["large", "base"];
    assert ModelOrder[..3] == ModelOrder;
    match load("large")
    case Success(_) => LoadRun(["large"], ["Loaded large model"], Success("large"))
    case Failure(e) =>
      var log1 := ["Failed to load large model, trying base: " + e];
      match load("base")
      case Success(_) => LoadRun(["large", "base"], log1 + ["Loaded base model"], Success("base"))
      case Failure(e2) =>
        var log2 := log1 + ["Failed to load base model, trying tiny: " + e2];
        match load("tiny")
        case Success(_) => LoadRun(["large", "base", "tiny"], log2 + ["Loaded tiny model"], Success("tiny"))
        case Failure(e3) => LoadRun(["large", "base", "tiny"], log2, Failure(e3))
  }

  /** The first of names that loads, if any. */
  function FirstLoadable(names: seq<string>, load: string -> Result<(), string>): (r: Option<nat>)
    ensures r.Some? ==>
              r.value < |names| && load(names[r.value]).Success?
              && forall j :: 0 <= j < r.value ==> load(names[j]).Failure?
    ensures r.None? ==> forall j :: 0 <= j < |names| ==> load(names[j]).Failure?
    decreases |names|
  {
    if |names| == 0 then None
    else if load(names[0]).Success? then Some(0)
    else match FirstLoadable(names[1..], load)
      case None => None
      case Some(k) => Some(k + 1)
  }

  /** The fallback loads the first model of large, base, tiny that loads,
      after trying exactly the ones before it; when none loads, the error is
      the one from 'tiny'. */
  lemma LoadModelIsFirstLoadable(load: string -> Result<(), string>)
    ensures var run := LoadModel(load);
            var first := FirstLoadable(ModelOrder, load);
            && (run.model.Success? <==> first.Some?)
            && (first.Some? ==> run.model.value == ModelOrder[first.value] && run.tried == ModelOrder[..first.value + 1])
            && (first.None? ==> run.tried == ModelOrder && run.model.error == load("tiny").error)
  {
    var run := LoadModel(load);
    var first := FirstLoadable(ModelOrder, load);
    var n := |run.tried|;
    assert forall j :: 0 <= j < n ==> run.tried[j] == ModelOrder[j];
    if run.model.Success? {
      assert load(ModelOrder[n - 1]).Success?;
      assert forall j :: 0 <= j < n - 1 ==> load(ModelOrder[j]).Failure?;
      assert first.Some? && first.value == n - 1;
    } else {
      assert forall j :: 0 <= j < |ModelOrder| ==> load(ModelOrder[j]).Failure?;
      assert first.None?;
    }
  }

  /** The progress lines of the fallback: one per name tried, less the
      last one when no model loads, the last naming the loaded model. */
  lemma LoadModelLog(load: string -> Result<(), string>)
    ensures var run := LoadModel(load);
            && |run.log| == |run.tried| - (if run.model.Success? then 0 else 1)
            && (run.model.Success? ==> run.log[|run.log| - 1] == "Loaded " + run.model.value + " model")
  {
  }

  // ---------------------------------------------------------------------
  // The markdown document
  // ---------------------------------------------------------------------

  /** One header line: a key, a value, a trailer and a line break. */
  function HeaderLine(key: string, value: string, trailer: string): string
  {
    key + value + trailer + "\n"
  }

  /** The markdown file's text: the title, the date, duration, file and
      language lines (the first three ending in two spaces, a markdown line
      break), a blank line, a rule, a blank line and the transcription, with
      a final line break. */
  function MarkdownContent(date: string, duration: string, file: string, language: string,
                           text: string): (c: string)
    ensures StartsWith(c, "# Transcription\n")
    ensures EndsWith(c, "\n---\n\n" + text + "\n")
  {
    var body := "\n---\n\n" + (text + "\n");
    var c := "# Transcription\n"
      + (HeaderLine("**Date:** ", date, "  ")
      + (HeaderLine("**Duration:** ", duration, "  ")
      + (HeaderLine("**File:** ", file, "  ")
      + (HeaderLine("**Detected Language:** ", language, "")
      + body))));
    assert c[..16] == "# Transcription\n";
    assert c[|c| - |body|..] == body;
    assert body == "\n---\n\n" + text + "\n";
    c
  }

  /** The fields a markdown document carries. */
  datatype Transcript = Transcript(date: string, duration: string, file: string, language: string, text: string)

  /** The first line of s and what follows its line break. */
  function SplitLine(s: string): (r: Option<(string, string)>)
    ensures r.Some? ==> s == r.value.0 + "\n" + r.value.1 && '\n' !in r.value.0
  {
    var k := IndexOf(s, '\n');
    if k < 0 then None
    else
      assert s == s[..k] + "\n" + s[k + 1..];
      assert forall i :: 0 <= i < k ==> s[..k][i] != '\n';
      Some((s[..k], s[k + 1..]))
  }

  /** The value of a line key + value + trailer. */
  function Field(line: string, key: string, trailer: string): (v: Option<string>)
    ensures v.Some? ==> line == key + v.value + trailer
  {
    if |key| + |trailer| <= |line| && StartsWith(line, key) && EndsWith(line, trailer) then
      var v := line[|key|..|line| - |trailer|];
      assert line == line[..|key|] + v + line[|line| - |trailer|..];
      Some(v)
    else None
  }

  /** The value of the header line that starts s, and the text after it. */
  function ReadHeader(s: string, key: string, trailer: string): (r: Option<(string, string)>)
    ensures r.Some? ==> s == HeaderLine(key, r.value.0, trailer) + r.value.1
  {
    match SplitLine(s)
    case None => None
    case Some((line, rest)) =>
      match Field(line, key, trailer)
      case None => None
      case Some(v) => Some((v, rest))
  }

  /** The transcription after the rule, without its final line break. */
  function ReadBody(s: string): (text: Option<string>)
    ensures text.Some? ==> s == "\n---\n\n" + (text.value + "\n")
  {
    if |s| >= 7 && StartsWith(s, "\n---\n\n") && EndsWith(s, "\n") then
      var t := s[6..|s| - 1];
      assert s == s[..6] + t + s[|s| - 1..];
      Some(t)
    else None
  }

  /** Reads a markdown document back into its fields; None when the text
      does not have the layout. */
  function ParseMarkdown(content: string): (r: Option<Transcript>)
    ensures r.Some? ==>
              content == MarkdownContent(r.value.date, r.value.duration, r.value.file,
                                         r.value.language, r.value.text)
  {
    if !StartsWith(content, "# Transcription\n") then None
    else
      var r1 := content[16..];
      assert content == "# Transcription\n" + r1;
      match ReadHeader(r1, "**Date:** ", "  ")
      case None => None
      case Some((date, r2)) =>
        match ReadHeader(r2, "**Duration:** ", "  ")
        case None => None
        case Some((duration, r3)) =>
          match ReadHeader(r3, "**File:** ", "  ")
          case None => None
          case Some((file, r4)) =>
            match ReadHeader(r4, "**Detected Language:** ", "")
            case None => None
            case Some((language, r5)) =>
              match ReadBody(r5)
              case None => None
              case Some(text) => Some(Transcript(date, duration, file, language, text))
  }

  lemma SplitLineOf(line: string, rest: string)
    requires '\n' !in line
    ensures SplitLine(line + "\n" + rest) == Some((line, rest))
  {
    var s := line + "\n" + rest;
    IndexOfIs(s, '\n', |line|);
    assert s[..|line|] == line && s[|line| + 1..] == rest;
  }

  lemma FieldOf(key: string, v: string, trailer: string)
    ensures Field(key + v + trailer, key, trailer) == Some(v)
  {
    var line := key + v + trailer;
    assert line[..|key|] == key;
    assert line[|line| - |trailer|..] == trailer;
    assert line[|key|..|line| - |trailer|] == v;
  }

  /** A header line of single-line parts reads back as its value. */
  lemma ReadHeaderOf(key: string, v: string, trailer: string, rest: string)
    requires '\n' !in key && '\n' !in v && '\n' !in trailer
    ensures ReadHeader(HeaderLine(key, v, trailer) + rest, key, trailer) == Some((v, rest))
  {
    var line := key + v + trailer;
    forall i | 0 <= i < |line| ensures line[i] != '\n' {
      if i < |key| { assert line[i] == key[i]; }
      else if i < |key| + |v| { assert line[i] == v[i - |key|]; }
      else { assert line[i] == trailer[i - |key| - |v|]; }
    }
    assert HeaderLine(key, v, trailer) + rest == line + "\n" + rest;
    SplitLineOf(line, rest);
    FieldOf(key, v, trailer);
  }

  /** The document reads back as the fields it was written from, whatever
      the transcription text, provided the header values are single lines. */
  lemma MarkdownRoundTrip(date: string, duration: string, file: string, language: string, text: string)
    requires '\n' !in date && '\n' !in duration && '\n' !in file && '\n' !in language
    ensures ParseMarkdown(MarkdownContent(date, duration, file, language, text))
            == Some(Transcript(date, duration, file, language, text))
  {
    var r5 := "\n---\n\n" + (text + "\n");
    var r4 := HeaderLine("**Detected Language:** ", language, "") + r5;
    var r3 := HeaderLine("**File:** ", file, "  ") + r4;
    var r2 := HeaderLine("**Duration:** ", duration, "  ") + r3;
    var r1 := HeaderLine("**Date:** ", date, "  ") + r2;
    var content := MarkdownContent(date, duration, file, language, text);
    assert content == "# Transcription\n" + r1;
    assert content[..16] == "# Transcription\n" && content[16..] == r1;
    assert '\n' !in "**Date:** " && '\n' !in "**Duration:** " && '\n' !in "**File:** ";
    assert '\n' !in "**Detected Language:** " && '\n' !in "  " && '\n' !in "";
    ReadHeaderOf("**Date:** ", date, "  ", r2);
    ReadHeaderOf("**Duration:** ", duration, "  ", r3);
    ReadHeaderOf("**File:** ", file, "  ", r4);
    ReadHeaderOf("**Detected Language:** ", language, "", r5);
    ReadBodyOf(text);
  }

  lemma ReadBodyOf(text: string)
    ensures ReadBody("\n---\n\n" + (text + "\n")) == Some(text)
  {
    var s := "\n---\n\n" + (text + "\n");
    assert s[..6] == "\n---\n\n" && s[|s| - 1..] == "\n";
    assert s[6..|s| - 1] == text;
  }

  /** The markdown path: the audio file's base name without its extension,
      with '.md', in ~/transcriptions. */
  function MarkdownPath(home: string, audioPath: string): (p: string)
    ensures p == ExpandHome(home, "transcriptions") + "/" + SplitExtRoot(Basename(audioPath)) + ".md"
  {
    var dir := ExpandHome(home, "transcriptions");
    var name := SplitExtRoot(Basename(audioPath)) + ".md";
    assert name[0] != '/' by {
      var b := Basename(audioPath);
      if |SplitExtRoot(b)| > 0 { assert name[0] == b[0]; }
    }
    assert dir[|dir| - 1] == 's';
    PyJoinRelative(dir, name);
    PyJoin(dir, name)
  }

  /** An audio file named stamp.ext in any directory gets the markdown file
      ~/transcriptions/stamp.md: the transcript shares the recording's
      stamp. */
  lemma MarkdownPathOfStamp(home: string, dir: string, stamp: string, ext: string)
    requires |stamp| > 0 && '.' !in stamp && '/' !in stamp
    requires '.' !in ext && '/' !in ext
    ensures MarkdownPath(home, Join(dir, stamp + "." + ext))
            == Join(ExpandHome(home, "transcriptions"), stamp + ".md")
  {
    var name := stamp + "." + ext;
    assert '/' !in name by {
      forall i | 0 <= i < |name| ensures name[i] != '/' {
        if i < |stamp| { assert name[i] == stamp[i]; }
        else if i > |stamp| { assert name[i] == ext[i - |stamp| - 1]; }
      }
    }
    BasenameOfJoin(dir, name);
    SplitExtOfStem(stamp, ext);
    var dirPath := ExpandHome(home, "transcriptions");
    var md := stamp + ".md";
    assert MarkdownPath(home, Join(dir, name)) == PyJoin(dirPath, md);
    assert md[0] == stamp[0];
    assert dirPath[|dirPath| - 1] == 's';
    PyJoinRelative(dirPath, md);
  }

  // ---------------------------------------------------------------------
  // The script
  // ---------------------------------------------------------------------

  /** What Whisper returns: the text and, when present, the language code. */
  datatype WhisperResult = WhisperResult(text: string, language: Option<string>)

  /** The script's surroundings: HOME, which paths exist, the outcome of
      load_model per model name, the outcome of transcribe per loaded
      model, the duration and date texts, the error of the markdown
      write, if any, and the exception line of a failed module-level
      import (whisper_timestamped, librosa or certifi), if any. */
  datatype ScriptEnv = ScriptEnv(
    importError: Option<string>,
    home: string,
    fileExists: string -> bool,
    loadModel: string -> Result<(), string>,
    transcribe: string -> Result<WhisperResult, string>,
    durationText: string,
    dateText: string,
    writeError: Option<string>)

  datatype MarkdownFile = MarkdownFile(path: string, content: string)

  /** What a run of the script does: its stdout text, its stderr lines, its
      exit code, the models it tried to load and the markdown file it
      wrote. */
  datatype ScriptRun = ScriptRun(stdout: string, stderr: seq<string>, exitCode: int,
                                 modelsTried: seq<string>, markdown: Option<MarkdownFile>)

  /** The stderr text of the printed lines: each line with its line break. */
  function StderrText(lines: seq<string>): (t: string)
    ensures |lines| > 0 ==> EndsWith(t, lines[|lines| - 1] + "\n")
    ensures |t| >= |lines|
    decreases |lines|
  {
    if |lines| == 0 then ""
    else
      var prefix := StderrText(lines[..|lines| - 1]);
      var last := lines[|lines| - 1] + "\n";
      assert (prefix + last)[|prefix + last| - |last|..] == last;
      prefix + last
  }

  const Usage := "Usage: python transcribe.py <audio_file_path>"

  const ErrorPrefix := "Error during transcription: "

  /** transcribe_audio(path). */
  function TranscribeAudio(path: string, env: ScriptEnv): (run: ScriptRun)
    ensures run.modelsTried == LoadModel(env.loadModel).tried
    ensures run.exitCode == 0 <==>
              && LoadModel(env.loadModel).model.Success?
              && env.transcribe(LoadModel(env.loadModel).model.value).Success?
              && env.writeError.None?
    ensures run.exitCode != 0 ==>
              run.exitCode == 1 && run.stdout == "" && run.markdown.None?
              && |run.stderr| > 0 && StartsWith(run.stderr[|run.stderr| - 1], ErrorPrefix)
    ensures run.exitCode == 0 ==>
              var result := env.transcribe(LoadModel(env.loadModel).model.value).value;
              var text := Trim(result.text, IsPySpace);
              && run.stdout == text + "\n"
              && run.markdown == Some(MarkdownFile(MarkdownPath(env.home, path),
                   MarkdownContent(env.dateText, env.durationText, Basename(path),
                                   LanguageDisplay(result.language), text)))
              && run.stderr == ["Loading Whisper model..."] + LoadModel(env.loadModel).log + ["Transcribing audio..."]
  {
    var load := LoadModel(env.loadModel);
    var started := ["Loading Whisper model..."] + load.log;
    match load.model
    case Failure(e) => ErrorRun(started, e, load.tried)
    case Success(model) =>
      var progress := started + ["Transcribing audio..."];
      match env.transcribe(model)
      case Failure(e) => ErrorRun(progress, e, load.tried)
      case Success(result) =>
        var text := Trim(result.text, IsPySpace);
        var content := MarkdownContent(env.dateText, env.durationText, Basename(path),
                                       LanguageDisplay(result.language), text);
        match env.writeError
        case Some(e) => ErrorRun(progress, e, load.tried)
        case None =>
          ScriptRun(text + "\n", progress, 0, load.tried,
                    Some(MarkdownFile(MarkdownPath(env.home, path), content)))
  }

  /** The except clause: the error line after the lines printed so far,
      exit code 1. */
  function ErrorRun(printed: seq<string>, message: string, tried: seq<string>): (run: ScriptRun)
    ensures run.exitCode == 1 && run.stdout == "" && run.markdown.None? && run.modelsTried == tried
    ensures |run.stderr| == |printed| + 1 && run.stderr[..|printed|] == printed
    ensures StartsWith(run.stderr[|printed|], ErrorPrefix)
    ensures run.stderr[|printed|][|ErrorPrefix|..] == message
  {
    var line := ErrorPrefix + message;
    assert line[..|ErrorPrefix|] == ErrorPrefix;
    ScriptRun("", printed + [line], 1, tried, None)
  }

  /** The first line an uncaught exception prints on stderr. */
  const TracebackHeader := "Traceback (most recent call last):"

  /** The script as the interpreter runs it: a failed module-level import
      ends it with a traceback and exit code 1 before the main block runs;
      otherwise the main block checks sys.argv for exactly one argument
      naming an existing file, or prints the usage or missing-file message
      and exits 1 before any model is loaded. */
  function RunScript(argv: seq<string>, env: ScriptEnv): (run: ScriptRun)
    ensures run.exitCode == 0 || run.exitCode == 1
    ensures run.exitCode != 0 ==> run.stdout == "" && run.markdown.None? && |run.stderr| > 0
    ensures env.importError.Some? ==>
              run == ScriptRun("", [TracebackHeader, env.importError.value], 1, [], None)
    ensures env.importError.None? && |argv| != 2 ==> run == ScriptRun("", [Usage], 1, [], None)
    ensures env.importError.None? && |argv| == 2 && !env.fileExists(argv[1]) ==>
              run == ScriptRun("", ["Audio file does not exist: " + argv[1]], 1, [], None)
    ensures run.modelsTried != [] <==> env.importError.None? && |argv| == 2 && env.fileExists(argv[1])
  {
    if env.importError.Some? then ScriptRun("", [TracebackHeader, env.importError.value], 1, [], None)
    else if |argv| != 2 then ScriptRun("", [Usage], 1, [], None)
    else if !env.fileExists(argv[1]) then ScriptRun("", ["Audio file does not exist: " + argv[1]], 1, [], None)
    else TranscribeAudio(argv[1], env)
  }

  /** Everything other than the stripped transcription goes to stderr:
      stdout is empty or the transcription and one line break, and the
      transcription has no surrounding whitespace. */
  lemma StdoutIsTranscriptOnly(argv: seq<string>, env: ScriptEnv)
    ensures var run := RunScript(argv, env);
            run.stdout == "" ||
            exists text :: run.stdout == text + "\n" && Unpadded(text, IsPySpace)
  {
    var run := RunScript(argv, env);
    if run.exitCode == 0 {
      var result := env.transcribe(LoadModel(env.loadModel).model.value).value;
      var text := Trim(result.text, IsPySpace);
      assert run.stdout == text + "\n";
    }
  }
}
