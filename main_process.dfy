/** The main process's handlers: the transcriptions directory, the
    'get-recent-transcriptions' query, and the 'transcribe-audio' handler,
    which picks the Python interpreter, runs the transcription script and
    turns the script's output streams and exit code into a result.

    The directory listing and the file statistics are inputs (a listing
    that may fail, and per entry a birth time that may fail to be read);
    the child process is the sequence of its output events and its exit
    code. */
module MainProcess {
  import opened Results
  import opened Strings
  import opened Paths

  /** The transcriptions directory: the home directory joined with
      'transcriptions'. */
  function TranscriptionsDir(home: string): (dir: string)
    ensures EndsWith(dir, "/transcriptions") && StartsWith(dir, home)
  {
    Join(home, "transcriptions")
  }

  // ---------------------------------------------------------------------
  // get-recent-transcriptions
  // ---------------------------------------------------------------------

  /** One name of the directory listing, with the birth time statSync would
      report for it, or None when statSync throws. */
  datatype DirEntry = DirEntry(name: string, birthtime: Option<int>)

  /** An entry of the returned list; created is the birth time in
      milliseconds. */
  datatype TranscriptFile = TranscriptFile(name: string, path: string, created: int)

  /** The entries whose name ends with '.md', in listing order. */
  function MdEntries(entries: seq<DirEntry>): (r: seq<DirEntry>)
    ensures forall e :: e in r <==> e in entries && EndsWith(e.name, ".md")
    ensures |r| <= |entries|
    ensures forall e :: multiset(r)[e] == if EndsWith(e.name, ".md") then multiset(entries)[e] else 0
    decreases |entries|
  {
    if |entries| == 0 then []
    else
      var last := entries[|entries| - 1];
      var prefix := MdEntries(entries[..|entries| - 1]);
      assert entries == entries[..|entries| - 1] + [last];
      assert multiset(entries) == multiset(entries[..|entries| - 1]) + multiset{last};
      if EndsWith(last.name, ".md") then prefix + [last] else prefix
  }

  /** The map step: each entry with its path and birth time, or None as soon
      as one statSync throws. */
  function StatAll(dir: string, entries: seq<DirEntry>): (r: Option<seq<TranscriptFile>>)
    ensures r.Some? <==> forall i :: 0 <= i < |entries| ==> entries[i].birthtime.Some?
    ensures r.Some? ==>
              |r.value| == |entries|
              && forall i :: 0 <= i < |entries| ==>
                   r.value[i] == TranscriptFile(entries[i].name, Join(dir, entries[i].name),
                                                entries[i].birthtime.value)
    decreases |entries|
  {
    if |entries| == 0 then Some([])
    else
      var last := entries[|entries| - 1];
      match StatAll(dir, entries[..|entries| - 1])
      case None => None
      case Some(files) =>
        match last.birthtime
        case None => None
        case Some(t) => Some(files + [TranscriptFile(last.name, Join(dir, last.name), t)])
  }

  /** No entry is older than a later one. */
  predicate NewestFirst(fs: seq<TranscriptFile>)
  {
    forall i, j :: 0 <= i < j < |fs| ==> fs[i].created >= fs[j].created
  }

  /** x inserted into a newest-first list after every entry at least as new
      as x, which keeps equal times in their original order. */
  function Insert(x: TranscriptFile, l: seq<TranscriptFile>): (r: seq<TranscriptFile>)
    requires NewestFirst(l)
    ensures NewestFirst(r)
    ensures multiset(r) == multiset(l) + multiset{x}
    ensures forall y :: y in r ==> y == x || y in l
    decreases |l|
  {
    if |l| == 0 then [x]
    else if l[0].created >= x.created then
      var rest := Insert(x, l[1..]);
      InsertAfterHead(x, l, rest);
      assert l == [l[0]] + l[1..];
      [l[0]] + rest
    else
      [x] + l
  }

  /** The step of Insert that keeps the head: the head is at least as new
      as everything inserted after it. */
  lemma InsertAfterHead(x: TranscriptFile, l: seq<TranscriptFile>, rest: seq<TranscriptFile>)
    requires |l| > 0 && NewestFirst(l) && l[0].created >= x.created
    requires NewestFirst(rest) && forall y :: y in rest ==> y == x || y in l[1..]
    ensures NewestFirst([l[0]] + rest)
  {
    var r := [l[0]] + rest;
    forall i, j | 0 <= i < j < |r| ensures r[i].created >= r[j].created {
      if i > 0 {
        assert r[i] == rest[i - 1] && r[j] == rest[j - 1];
      } else {
        assert r[j] == rest[j - 1] && r[j] in rest;
        if r[j] != x {
          var k :| 0 <= k < |l[1..]| && l[1..][k] == r[j];
          assert l[k + 1] == r[j];
        }
      }
    }
  }

  /** sort((a, b) => b.created - a.created): a stable sort, newest first. */
  function SortNewestFirst(fs: seq<TranscriptFile>): (r: seq<TranscriptFile>)
    ensures NewestFirst(r)
    ensures multiset(r) == multiset(fs)
    decreases |fs|
  {
    if |fs| == 0 then []
    else
      assert fs == fs[..|fs| - 1] + [fs[|fs| - 1]];
      Insert(fs[|fs| - 1], SortNewestFirst(fs[..|fs| - 1]))
  }

  /** The handler: the ten newest '.md' files of the directory, or [] when
      reading the directory or any statSync throws. */
  function RecentTranscriptions(dir: string, listing: Option<seq<DirEntry>>): (r: seq<TranscriptFile>)
    ensures |r| <= 10 && NewestFirst(r)
    ensures listing.None? ==> r == []
  {
    match listing
    case None => []
    case Some(entries) =>
      match StatAll(dir, MdEntries(entries))
      case None => []
      case Some(files) => Take(SortNewestFirst(files), 10)
  }

  /** Every listed entry is a '.md' name of the directory, kept verbatim,
      with its path under the directory and its birth time; there are at
      most ten, newest first. */
  lemma RecentShape(dir: string, listing: Option<seq<DirEntry>>)
    ensures var r := RecentTranscriptions(dir, listing);
            && |r| <= 10
            && NewestFirst(r)
            && forall f :: f in r ==>
                 && EndsWith(f.name, ".md") && f.path == Join(dir, f.name)
                 && listing.Some? && DirEntry(f.name, Some(f.created)) in listing.value
  {
    var r := RecentTranscriptions(dir, listing);
    if listing.Some? {
      var md := MdEntries(listing.value);
      var st := StatAll(dir, md);
      if st.Some? {
        var sorted := SortNewestFirst(st.value);
        forall f | f in r
          ensures EndsWith(f.name, ".md") && f.path == Join(dir, f.name)
          ensures DirEntry(f.name, Some(f.created)) in listing.value
        {
          assert f in multiset(sorted);
          assert f in st.value;
          var i :| 0 <= i < |st.value| && st.value[i] == f;
          assert md[i] in md;
        }
      }
    }
  }

  /** When the listing and every statSync succeed, the list holds
      min(10, number of '.md' files) of them, and no file left out is newer
      than a file listed: the list is the ten newest. */
  lemma RecentAreNewest(dir: string, entries: seq<DirEntry>)
    requires StatAll(dir, MdEntries(entries)).Some?
    ensures var files := StatAll(dir, MdEntries(entries)).value;
            var r := RecentTranscriptions(dir, Some(entries));
            && |files| == |MdEntries(entries)|
            && |r| == (if |files| <= 10 then |files| else 10)
            && multiset(r) <= multiset(files)
            && forall f, k :: f in multiset(files) - multiset(r) && k in r ==> f.created <= k.created
  {
    var files := StatAll(dir, MdEntries(entries)).value;
    var sorted := SortNewestFirst(files);
    var r := RecentTranscriptions(dir, Some(entries));
    PrefixIsNewest(sorted, |r|);
    forall f: TranscriptFile | f in multiset(files) - multiset(r) ensures f in sorted[|r|..] {
      assert f in multiset(sorted[|r|..]);
    }
  }

  /** The first n entries of a newest-first list are at least as new as
      the others. */
  lemma PrefixIsNewest(sorted: seq<TranscriptFile>, n: nat)
    requires NewestFirst(sorted) && n <= |sorted|
    ensures multiset(sorted) == multiset(sorted[..n]) + multiset(sorted[n..])
    ensures forall f, k :: f in sorted[n..] && k in sorted[..n] ==> f.created <= k.created
  {
    assert sorted == sorted[..n] + sorted[n..];
    forall f, k | f in sorted[n..] && k in sorted[..n]
      ensures f.created <= k.created
    {
      var j :| 0 <= j < |sorted[n..]| && sorted[n..][j] == f;
      var i :| 0 <= i < n && sorted[..n][i] == k;
      assert sorted[i] == k && sorted[n + j] == f;
    }
  }

  /** Any failure gives the empty list: the directory cannot be read, or a
      '.md' entry cannot be statted. */
  lemma RecentOnError(dir: string, listing: Option<seq<DirEntry>>)
    requires listing.None? ||
             exists e :: e in listing.value && EndsWith(e.name, ".md") && e.birthtime.None?
    ensures RecentTranscriptions(dir, listing) == []
  {
    if listing.Some? {
      var e :| e in listing.value && EndsWith(e.name, ".md") && e.birthtime.None?;
      var md := MdEntries(listing.value);
      assert e in md;
      var i :| 0 <= i < |md| && md[i] == e;
      assert StatAll(dir, md).None?;
    }
  }

  // ---------------------------------------------------------------------
  // transcribe-audio
  // ---------------------------------------------------------------------

  /** The program and arguments spawn is called with. */
  datatype Launch = Launch(executable: string, args: seq<string>)

  /** The interpreter and script: under the unpacked resources in a packaged
      app; in development the local python_env interpreter when it exists
      (else 'python3' from the PATH) and the script next to the sources. */
  function PythonLaunch(isPackaged: bool, resourcesPath: string, appDir: string,
                        fileExists: string -> bool, audioPath: string): (l: Launch)
    ensures |l.args| == 2 && l.args[1] == audioPath
    ensures isPackaged ==>
              l.executable == JoinAll(resourcesPath, ["app.asar.unpacked", "python_env", "bin", "python3"])
              && l.args[0] == JoinAll(resourcesPath, ["app.asar.unpacked", "python", "transcribe.py"])
    ensures !isPackaged ==>
              var local := JoinAll(appDir, ["..", "python_env", "bin", "python3"]);
              l.executable == (if fileExists(local) then local else "python3")
              && l.args[0] == JoinAll(appDir, ["..", "python", "transcribe.py"])
  {
    if isPackaged then
      Launch(JoinAll(resourcesPath, ["app.asar.unpacked", "python_env", "bin", "python3"]),
             [JoinAll(resourcesPath, ["app.asar.unpacked", "python", "transcribe.py"]), audioPath])
    else
      var local := JoinAll(appDir, ["..", "python_env", "bin", "python3"]);
      Launch(if fileExists(local) then local else "python3",
             [JoinAll(appDir, ["..", "python", "transcribe.py"]), audioPath])
  }

  lemma {:induction false} JoinAllLast(dir: string, names: seq<string>, name: string)
    ensures JoinAll(dir, names + [name]) == Join(JoinAll(dir, names), name)
    decreases |names|
  {
    if |names| == 0 {
      assert JoinAll(Join(dir, name), []) == Join(dir, name);
    } else {
      assert (names + [name])[1..] == names[1..] + [name];
      JoinAllLast(Join(dir, names[0]), names[1..], name);
    }
  }

  /** The base name of a path joined segment by segment is its last
      segment. */
  lemma JoinAllBasename(dir: string, names: seq<string>, name: string)
    requires '/' !in name
    ensures Basename(JoinAll(dir, names + [name])) == name
  {
    JoinAllLast(dir, names, name);
    BasenameOfJoin(JoinAll(dir, names), name);
  }

  /** Whichever branch is taken, the program run is a 'python3' and the
      script is a 'transcribe.py', and the bundled interpreter of a packaged
      app lies under its unpacked resources. */
  lemma LaunchRunsTranscribeScript(isPackaged: bool, resourcesPath: string, appDir: string,
                                   fileExists: string -> bool, audioPath: string)
    ensures var l := PythonLaunch(isPackaged, resourcesPath, appDir, fileExists, audioPath);
            && Basename(l.executable) == "python3"
            && Basename(l.args[0]) == "transcribe.py"
            && (isPackaged ==> StartsWith(l.executable, resourcesPath + "/app.asar.unpacked/"))
  {
    if isPackaged {
      LaunchBasenames(resourcesPath, "app.asar.unpacked");
      PackagedUnderResources(resourcesPath);
    } else {
      LaunchBasenames(appDir, "..");
      assert "python3"[0] != '/' && "python3"[1] != '/' && "python3"[2] != '/';
      LastIndexOfAbsent("python3", '/');
    }
  }

  lemma LaunchBasenames(base: string, first: string)
    ensures Basename(JoinAll(base, [first, "python_env", "bin", "python3"])) == "python3"
    ensures Basename(JoinAll(base, [first, "python", "transcribe.py"])) == "transcribe.py"
  {
    assert '/' !in "python3" && '/' !in "transcribe.py";
    assert [first, "python_env", "bin", "python3"] == [first, "python_env", "bin"] + ["python3"];
    assert [first, "python", "transcribe.py"] == [first, "python"] + ["transcribe.py"];
    JoinAllBasename(base, [first, "python_env", "bin"], "python3");
    JoinAllBasename(base, [first, "python"], "transcribe.py");
  }

  lemma PackagedUnderResources(resourcesPath: string)
    ensures StartsWith(JoinAll(resourcesPath, ["app.asar.unpacked", "python_env", "bin", "python3"]),
                       resourcesPath + "/app.asar.unpacked/")
  {
    var names := ["app.asar.unpacked", "python_env", "bin", "python3"];
    var p := Join(resourcesPath, "app.asar.unpacked");
    assert names[0] == "app.asar.unpacked" && names[1..] == ["python_env", "bin", "python3"];
    assert JoinAll(resourcesPath, names) == JoinAll(p, names[1..]);
    assert p + "/" == resourcesPath + "/app.asar.unpacked/";
  }

  /** A data event of the child process: a decoded chunk of stdout or of
      stderr. */
  datatype StreamEvent = Stdout(data: string) | Stderr(data: string)

  /** The stdout chunks, in arrival order: one per stdout event. */
  function StdoutChunks(events: seq<StreamEvent>): seq<string>
    decreases |events|
  {
    if |events| == 0 then []
    else
      var last := events[|events| - 1];
      StdoutChunks(events[..|events| - 1]) + (if last.Stdout? then [last.data] else [])
  }

  /** The stderr chunks, in arrival order: one per stderr event, so that
      every event lands in exactly one of the two streams. */
  function StderrChunks(events: seq<StreamEvent>): seq<string>
    decreases |events|
  {
    if |events| == 0 then []
    else
      var last := events[|events| - 1];
      StderrChunks(events[..|events| - 1]) + (if last.Stderr? then [last.data] else [])
  }

  /** The 'data' handlers: output and errorOutput grow by each chunk. */
  method CollectOutput(events: seq<StreamEvent>) returns (output: string, errorOutput: string)
    ensures output == Concat(StdoutChunks(events))
    ensures errorOutput == Concat(StderrChunks(events))
  {
    output := "";
    errorOutput := "";
    var i := 0;
    while i < |events|
      invariant 0 <= i <= |events|
      invariant output == Concat(StdoutChunks(events[..i]))
      invariant errorOutput == Concat(StderrChunks(events[..i]))
    {
      assert events[..i + 1][..i] == events[..i];
      var d := events[i].data;
      assert events[..i + 1] == events[..i] + [events[i]];
      assert events[..i + 1][..i] == events[..i];
      if events[i].Stdout? {
        assert StdoutChunks(events[..i + 1]) == StdoutChunks(events[..i]) + [d];
        assert StderrChunks(events[..i + 1]) == StderrChunks(events[..i]);
        ConcatAppend(StdoutChunks(events[..i]), d);
        output := output + d;
      } else {
        assert StderrChunks(events[..i + 1]) == StderrChunks(events[..i]) + [d];
        assert StdoutChunks(events[..i + 1]) == StdoutChunks(events[..i]);
        ConcatAppend(StderrChunks(events[..i]), d);
        errorOutput := errorOutput + d;
      }
      i := i + 1;
    }
    assert events[..|events|] == events;
  }

  /** The 'close' handler: resolve with the trimmed stdout on exit code 0;
      otherwise reject with the code and stderr, or 'No error details' when
      stderr is empty. A null code (the process was killed) is rendered as
      'null'. */
  function CloseResult(output: string, errorOutput: string, code: Option<int>): (r: Result<string, string>)
    ensures r.Success? <==> code == Some(0)
    ensures r.Success? ==> r.value == Trim(output, IsJsSpace) && Unpadded(r.value, IsJsSpace)
    ensures r.Failure? ==>
              StartsWith(r.error, "Python process failed (code " + ExitCodeText(code) + "): ")
              && EndsWith(r.error, if errorOutput == "" then "No error details" else errorOutput)
              && |r.error| == |"Python process failed (code " + ExitCodeText(code) + "): "|
                              + |if errorOutput == "" then "No error details" else errorOutput|
  {
    if code == Some(0) then Success(Trim(output, IsJsSpace))
    else
      var detail := if errorOutput == "" then "No error details" else errorOutput;
      var prefix := "Python process failed (code " + ExitCodeText(code) + "): ";
      assert (prefix + detail)[..|prefix|] == prefix;
      Failure(prefix + detail)
  }

  /** stdout holding a text that does not begin or end in whitespace,
      surrounded by whitespace (the script's trailing newline), resolves to
      that text. */
  lemma CloseResultOfPadded(pre: string, text: string, post: string, errorOutput: string)
    requires AllSpace(pre, IsJsSpace) && AllSpace(post, IsJsSpace) && Unpadded(text, IsJsSpace)
    ensures CloseResult(pre + text + post, errorOutput, Some(0)) == Success(text)
  {
    TrimPadded(pre, text, post, IsJsSpace);
  }

  /** The whole handler on one run of the script: the launch it spawns and
      the promise's outcome. */
  method TranscribeAudio(isPackaged: bool, resourcesPath: string, appDir: string,
                         fileExists: string -> bool, audioPath: string,
                         events: seq<StreamEvent>, code: Option<int>)
    returns (launch: Launch, result: Result<string, string>)
    ensures launch == PythonLaunch(isPackaged, resourcesPath, appDir, fileExists, audioPath)
    ensures result == CloseResult(Concat(StdoutChunks(events)), Concat(StderrChunks(events)), code)
  {
    launch := PythonLaunch(isPackaged, resourcesPath, appDir, fileExists, audioPath);
    var output, errorOutput := CollectOutput(events);
    result := CloseResult(output, errorOutput, code);
  }

  /** The stderr events do not affect stdout, and the other way round: the
      outputs of the events one after the other are the outputs of each
      part, joined. */
  lemma {:induction false} ChunksOfAppend(us: seq<StreamEvent>, vs: seq<StreamEvent>)
    ensures StdoutChunks(us + vs) == StdoutChunks(us) + StdoutChunks(vs)
    ensures StderrChunks(us + vs) == StderrChunks(us) + StderrChunks(vs)
    decreases |vs|
  {
    if |vs| == 0 {
      assert us + vs == us;
    } else {
      var vs' := vs[..|vs| - 1];
      var e := vs[|vs| - 1];
      assert (us + vs)[..|us + vs| - 1] == us + vs' && (us + vs)[|us + vs| - 1] == e;
      ChunksOfAppend(us, vs');
      var out: seq<string> := if e.Stdout? then [e.data] else [];
      var err: seq<string> := if e.Stderr? then [e.data] else [];
      assert StdoutChunks(us + vs) == StdoutChunks(us + vs') + out;
      assert StdoutChunks(vs) == StdoutChunks(vs') + out;
      assert StderrChunks(us + vs) == StderrChunks(us + vs') + err;
      assert StderrChunks(vs) == StderrChunks(vs') + err;
    }
  }

  /** Every collected chunk comes from an event of its own stream, and the
      two streams together account for every event. */
  lemma {:induction false} ChunksComeFromEvents(events: seq<StreamEvent>)
    ensures forall c :: c in StdoutChunks(events) ==> Stdout(c) in events
    ensures forall c :: c in StderrChunks(events) ==> Stderr(c) in events
    ensures |StdoutChunks(events)| + |StderrChunks(events)| == |events|
    decreases |events|
  {
    if |events| > 0 {
      var front := events[..|events| - 1];
      var e := events[|events| - 1];
      ChunksComeFromEvents(front);
      assert events == front + [e];
      assert StdoutChunks(events) == StdoutChunks(front) + (if e.Stdout? then [e.data] else []);
      assert StderrChunks(events) == StderrChunks(front) + (if e.Stderr? then [e.data] else []);
    }
  }
}
