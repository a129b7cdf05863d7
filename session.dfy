/** The renderer's recording session controller, TranscriptionApp. Its
    fields are updated in place by the click handler, startRecording, the
    recorder's data events, stopRecording, the timer tick and
    processRecording. Each step is specified by a function from the old
    state (an AppState snapshot of the fields) and the step's inputs to the
    new state; the class's methods are proved to perform exactly that step.

    The microphone, the recorder, the encoder and the IPC calls are
    represented by their outcomes: a Capture value for getUserMedia and
    MediaRecorder, the bytes of each data event, the end event of the
    ffmpeg process and the reply to 'transcribe-audio'. */
module Session {
  import opened Results
  import opened Strings
  import opened Paths
  import opened RendererText

  /** The bytes of one recorder data event (a Blob). */
  type Chunk = seq<bv8>

  /** How startRecording's try block ends: the microphone and recorder were
      acquired and started; getUserMedia or the MediaRecorder constructor
      threw; or mediaRecorder.start threw after the recorder was installed
      and audioChunks reset. */
  datatype Capture = Granted | Denied | StartFailed

  /** The fields of TranscriptionApp, and the texts of the status, timer and
      record-button elements that its methods write. hasRecorder says
      whether this.mediaRecorder is set; timerScheduled whether an interval
      is in timerInterval. */
  datatype AppState = AppState(
    isRecording: bool,
    hasRecorder: bool,
    audioChunks: seq<Chunk>,
    recordingStartTime: Option<int>,
    timerScheduled: bool,
    timerText: string,
    status: string,
    button: Button,
    currentTranscription: string)

  /** What every step keeps: a recording has a recorder, the timer runs
      exactly while recording, and a running timer has a start time. */
  predicate Inv(s: AppState)
  {
    && (s.isRecording ==> s.hasRecorder)
    && (s.timerScheduled <==> s.isRecording)
    && (s.timerScheduled ==> s.recordingStartTime.Some?)
  }

  /** The constructor's state; the status, timer and button texts are those
      of the page. */
  function Initial(status: string, timerText: string, button: Button): (s: AppState)
    ensures Inv(s) && !s.isRecording && s.audioChunks == []
  {
    AppState(false, false, [], None, false, timerText, status, button, "")
  }

  /** updateStatus(msg): the status text, then updateUI. Only the status
      and the button change, and the button agrees with the new status. */
  function WithStatus(s: AppState, msg: string): (r: AppState)
    ensures r.status == msg && r.button == ButtonMode(r.isRecording, r.status)
    ensures r.(status := s.status, button := s.button) == s
  {
    s.(status := msg, button := ButtonMode(s.isRecording, msg))
  }

  /** startRecording. */
  function StartStep(s: AppState, capture: Capture, now: int): (r: AppState)
    ensures capture == Granted ==>
              r.isRecording && r.hasRecorder && r.audioChunks == [] && r.recordingStartTime == Some(now)
              && r.timerScheduled && r.button == Stop && r.status == s.status
    ensures capture != Granted ==>
              r.isRecording == s.isRecording && r.timerScheduled == s.timerScheduled
              && r.recordingStartTime == s.recordingStartTime && r.status == MicErrorStatus
              && r.button == ButtonMode(s.isRecording, MicErrorStatus)
    ensures capture == Denied ==> r.audioChunks == s.audioChunks && r.hasRecorder == s.hasRecorder
    ensures capture == StartFailed ==> r.audioChunks == [] && r.hasRecorder
    ensures r.currentTranscription == s.currentTranscription && r.timerText == s.timerText
  {
    match capture
    case Denied => WithStatus(s, MicErrorStatus)
    case StartFailed => WithStatus(s.(hasRecorder := true, audioChunks := []), MicErrorStatus)
    case Granted =>
      var started := s.(hasRecorder := true, audioChunks := [], isRecording := true, recordingStartTime := Some(now));
      started.(button := ButtonMode(true, started.status), timerScheduled := true)
  }

  /** The guard of stopRecording: a recorder exists and is recording. */
  predicate CanStop(s: AppState) { s.hasRecorder && s.isRecording }

  /** stopRecording. */
  function StopStep(s: AppState): (r: AppState)
    ensures CanStop(s) ==>
              !r.isRecording && !r.timerScheduled && r.status == ProcessingStatus
              && r.button == Processing
              && r.audioChunks == s.audioChunks && r.recordingStartTime == s.recordingStartTime
              && r.currentTranscription == s.currentTranscription && r.timerText == s.timerText
              && r.hasRecorder
    ensures !CanStop(s) ==> r == s
    ensures !CanStop(r)
  {
    ButtonWhileProcessing();
    if CanStop(s) then WithStatus(s.(isRecording := false, timerScheduled := false), ProcessingStatus) else s
  }

  /** The record button's click handler. It looks at isRecording alone:
      while recording it stops (when a recorder exists); otherwise it starts
      a recording whenever the microphone is granted, whatever the status
      says, even while an earlier recording is still being converted or
      transcribed. */
  function ClickStep(s: AppState, capture: Capture, now: int): (r: AppState)
    ensures CanStop(s) ==>
              !r.isRecording && r.status == ProcessingStatus && r.audioChunks == s.audioChunks
    ensures s.isRecording && !s.hasRecorder ==> r == s
    ensures !s.isRecording ==>
              r.isRecording == (capture == Granted)
              && r.status == (if capture == Granted then s.status else MicErrorStatus)
              && (capture == Granted ==> r.audioChunks == [] && r.recordingStartTime == Some(now))
  {
    if s.isRecording then StopStep(s) else StartStep(s, capture, now)
  }

  /** ondataavailable: a non-empty chunk is appended after the earlier
      ones, an empty one is dropped, and nothing else changes; so when no
      kept chunk was empty, none is afterwards. */
  function DataStep(s: AppState, data: Chunk): (r: AppState)
    ensures |r.audioChunks| == |s.audioChunks| + (if |data| > 0 then 1 else 0)
    ensures r.audioChunks[..|s.audioChunks|] == s.audioChunks
    ensures |data| > 0 ==> r.audioChunks[|s.audioChunks|] == data
    ensures r.(audioChunks := s.audioChunks) == s
    ensures (forall i :: 0 <= i < |s.audioChunks| ==> |s.audioChunks[i]| > 0) ==>
              forall i :: 0 <= i < |r.audioChunks| ==> |r.audioChunks[i]| > 0
  {
    if |data| > 0 then s.(audioChunks := s.audioChunks + [data]) else s
  }

  /** The timer callback at time now: it shows the elapsed time; before ten
      minutes nothing else changes, and from ten minutes on the recording is
      stopped as by stopRecording and cannot be stopped again. */
  function TickStep(s: AppState, now: int): (r: AppState)
    requires s.recordingStartTime.Some?
    ensures r.timerText == TimerText(now - s.recordingStartTime.value)
    ensures now - s.recordingStartTime.value < 600000 ==> r == s.(timerText := r.timerText)
    ensures now - s.recordingStartTime.value >= 600000 ==>
              !CanStop(r) && (CanStop(s) ==> !r.isRecording && r.status == ProcessingStatus)
  {
    var elapsed := now - s.recordingStartTime.value;
    var text := TimerText(elapsed);
    AutoStopThreshold(elapsed);
    Show(s, text, Minutes(elapsed) >= 10)
  }

  /** The tick's effect for a given timer text: the text is shown, then
      stopRecording runs when stop holds. */
  function Show(s: AppState, text: string, stop: bool): (r: AppState)
    ensures r.timerText == text
    ensures !stop ==> r == s.(timerText := text)
    ensures stop ==> !CanStop(r) && (CanStop(s) ==> !r.isRecording && r.status == ProcessingStatus)
  {
    var shown := s.(timerText := text);
    if stop then StopStep(shown) else shown
  }

  // ---------------------------------------------------------------------
  // processRecording
  // ---------------------------------------------------------------------

  /** How a child process ends for a caller that settles on the first of
      'error' and 'close': a spawn error, or 'close' with its exit code
      (null when a signal ended it). */
  datatype ProcessEnd = SpawnError(message: string) | Closed(code: Option<int>)

  /** The temporary file after a successful conversion: absent, removed, or
      present with unlinkSync throwing. */
  datatype Cleanup = TempAbsent | TempRemoved | RemoveFailed

  /** The outcomes processRecording meets: the date, the reply to
      'get-transcriptions-dir', whether writeFileSync succeeds, how ffmpeg
      ends, the clean-up, and the reply to 'transcribe-audio'. */
  datatype PipelineEnv = PipelineEnv(
    isoNow: string,
    transcriptionsDir: string,
    writeOk: bool,
    ffmpeg: ProcessEnd,
    cleanup: Cleanup,
    transcription: Result<string, string>)

  datatype FileWrite = FileWrite(path: string, bytes: seq<bv8>)

  /** What processRecording does outside the app: the file it writes, the
      arguments it runs ffmpeg with, the file it removes and the audio path
      it asks the main process to transcribe. */
  datatype Effects = Effects(
    written: Option<FileWrite>,
    ffmpegArgs: Option<seq<string>>,
    removed: Option<string>,
    transcribeRequest: Option<string>)

  /** The statuses processRecording sets, in order; its effects; and the
      transcription it stores. */
  datatype PipelineRun = PipelineRun(statuses: seq<string>, effects: Effects, transcription: Option<string>)

  /** The option flag is immediately followed by value in args. */
  predicate HasOption(args: seq<string>, flag: string, value: string)
  {
    exists i :: 0 <= i < |args| - 1 && args[i] == flag && args[i + 1] == value
  }

  /** convertToMp3's ffmpeg arguments: the input file first, so that the
      options after it apply to the output, then the mp3 codec at 128k,
      44100 Hz, one channel, overwrite, and the output file last. */
  function FfmpegArgs(input: string, output: string): (args: seq<string>)
    ensures HasOption(args, "-i", input)
    ensures HasOption(args, "-acodec", "mp3") && HasOption(args, "-ab", "128k")
    ensures HasOption(args, "-ar", "44100") && HasOption(args, "-ac", "1")
    ensures "-y" in args && args[|args| - 1] == output && |args| == 12
    ensures args[0] == "-i" && args[1] == input
  {
    var args := ["-i", input, "-acodec", "mp3", "-ab", "128k", "-ar", "44100", "-ac", "1", "-y", output];
    assert args[0] == "-i" && args[1] == input && args[2] == "-acodec" && args[3] == "mp3";
    assert args[4] == "-ab" && args[5] == "128k" && args[6] == "-ar" && args[7] == "44100";
    assert args[8] == "-ac" && args[9] == "1" && args[10] == "-y";
    args
  }

  /** convertToMp3's promise: resolved on close with code 0, rejected with
      the code otherwise, rejected with the error on a spawn error. */
  function ConversionResult(end: ProcessEnd): (r: Result<(), string>)
    ensures r.Success? <==> end == Closed(Some(0))
    ensures end.SpawnError? ==> r == Failure(end.message)
    ensures end.Closed? && end.code != Some(0) ==>
              r == Failure("FFmpeg conversion failed with code " + ExitCodeText(end.code))
  {
    match end
    case SpawnError(m) => Failure(m)
    case Closed(code) =>
      if code == Some(0) then Success(()) else Failure("FFmpeg conversion failed with code " + ExitCodeText(code))
  }

  /** The recording written before conversion: the transcriptions
      directory, '/', the stamp and '.webm'. */
  function TempPath(env: PipelineEnv): (p: string)
    ensures |p| == |env.transcriptionsDir| + 1 + |Timestamp(env.isoNow)| + 5
    ensures StartsWith(p, env.transcriptionsDir + "/") && EndsWith(p, ".webm")
    ensures p[|env.transcriptionsDir| + 1..|p| - 5] == Timestamp(env.isoNow)
  {
    var p := Join(env.transcriptionsDir, TempFilename(Timestamp(env.isoNow)));
    assert p == env.transcriptionsDir + "/" + Timestamp(env.isoNow) + ".webm";
    p
  }

  /** The converted recording: the same directory and stamp, with '.mp3'. */
  function AudioPath(env: PipelineEnv): (p: string)
    ensures |p| == |env.transcriptionsDir| + 1 + |Timestamp(env.isoNow)| + 4
    ensures StartsWith(p, env.transcriptionsDir + "/") && EndsWith(p, ".mp3")
    ensures p[|env.transcriptionsDir| + 1..|p| - 4] == Timestamp(env.isoNow)
  {
    var p := Join(env.transcriptionsDir, FinalFilename(Timestamp(env.isoNow)));
    assert p == env.transcriptionsDir + "/" + Timestamp(env.isoNow) + ".mp3";
    p
  }

  /** processRecording on the recorded chunks. */
  function Pipeline(chunks: seq<Chunk>, env: PipelineEnv): (run: PipelineRun)
    ensures run.statuses in [[PipelineErrorStatus],
                             [ConvertingStatus, PipelineErrorStatus],
                             [ConvertingStatus, TranscribingStatus, PipelineErrorStatus],
                             [ConvertingStatus, TranscribingStatus, CompleteStatus]]
    ensures run.transcription.Some? <==> run.statuses[|run.statuses| - 1] == CompleteStatus
    ensures run.transcription.Some? <==>
              env.writeOk && env.ffmpeg == Closed(Some(0)) && env.cleanup != RemoveFailed
              && env.transcription.Success?
    ensures run.transcription.Some? ==> run.transcription.value == env.transcription.value
    ensures run.effects.written.Some? <==> env.writeOk
    ensures run.effects.written.Some? ==> run.effects.written.value == FileWrite(TempPath(env), Concat(chunks))
    ensures run.effects.ffmpegArgs.Some? <==> env.writeOk
    ensures run.effects.ffmpegArgs.Some? ==> run.effects.ffmpegArgs.value == FfmpegArgs(TempPath(env), AudioPath(env))
    ensures run.effects.removed.Some? <==>
              env.writeOk && env.ffmpeg == Closed(Some(0)) && env.cleanup == TempRemoved
    ensures run.effects.removed.Some? ==> run.effects.removed.value == TempPath(env)
    ensures run.effects.transcribeRequest.Some? <==> TranscribingStatus in run.statuses
    ensures run.effects.transcribeRequest.Some? ==> run.effects.transcribeRequest.value == AudioPath(env)
  {
    var temp := TempPath(env);
    var audio := AudioPath(env);
    if !env.writeOk then
      PipelineRun([PipelineErrorStatus], Effects(None, None, None, None), None)
    else
      var written := Some(FileWrite(temp, Concat(chunks)));
      var args := Some(FfmpegArgs(temp, audio));
      if ConversionResult(env.ffmpeg).Failure? || env.cleanup == RemoveFailed then
        PipelineRun([ConvertingStatus, PipelineErrorStatus], Effects(written, args, None, None), None)
      else
        var removed := if env.cleanup == TempRemoved then Some(temp) else None;
        match env.transcription
        case Failure(_) =>
          PipelineRun([ConvertingStatus, TranscribingStatus, PipelineErrorStatus],
                      Effects(written, args, removed, Some(audio)), None)
        case Success(text) =>
          PipelineRun([ConvertingStatus, TranscribingStatus, CompleteStatus],
                      Effects(written, args, removed, Some(audio)), Some(text))
  }

  /** The app's state after processRecording: the last status is shown,
      the button follows it, a transcription is stored when the run has
      one, and the recording fields are left as they are. */
  function AfterPipeline(s: AppState, run: PipelineRun): (r: AppState)
    requires |run.statuses| > 0
    ensures r.status == run.statuses[|run.statuses| - 1]
    ensures r.button == ButtonMode(s.isRecording, r.status)
    ensures r.currentTranscription == if run.transcription.Some? then run.transcription.value else s.currentTranscription
    ensures r.(status := s.status, button := s.button, currentTranscription := s.currentTranscription) == s
  {
    var last := run.statuses[|run.statuses| - 1];
    var s' := WithStatus(s, last);
    if run.transcription.Some? then s'.(currentTranscription := run.transcription.value) else s'
  }

  // ---------------------------------------------------------------------
  // Properties of the steps
  // ---------------------------------------------------------------------

  /** Every step keeps the invariant. */
  lemma StepsKeepInv(s: AppState, capture: Capture, now: int, data: Chunk, env: PipelineEnv)
    requires Inv(s)
    ensures Inv(StartStep(s, capture, now))
    ensures Inv(StopStep(s)) && Inv(ClickStep(s, capture, now)) && Inv(DataStep(s, data))
    ensures s.timerScheduled ==> Inv(TickStep(s, now))
    ensures Inv(AfterPipeline(s, Pipeline(s.audioChunks, env)))
  {
    StartKeepsInv(s, capture, now);
    StopKeepsInv(s);
    DataKeepsInv(s, data);
    if s.timerScheduled {
      TickKeepsInv(s, now);
    }
    PipelineKeepsInv(s, env);
  }

  lemma StartKeepsInv(s: AppState, capture: Capture, now: int)
    requires Inv(s)
    ensures Inv(StartStep(s, capture, now))
  {
  }

  lemma StopKeepsInv(s: AppState)
    requires Inv(s)
    ensures Inv(StopStep(s))
  {
  }

  lemma DataKeepsInv(s: AppState, data: Chunk)
    requires Inv(s)
    ensures Inv(DataStep(s, data))
  {
  }

  lemma TickKeepsInv(s: AppState, now: int)
    requires Inv(s) && s.timerScheduled
    ensures Inv(TickStep(s, now))
  {
    var elapsed := now - s.recordingStartTime.value;
    ShowKeepsInv(s, TimerText(elapsed), Minutes(elapsed) >= 10);
  }

  /** Showing a timer text, and stopping or not, keeps the invariant. */
  lemma ShowKeepsInv(s: AppState, text: string, stop: bool)
    requires Inv(s)
    ensures Inv(Show(s, text, stop))
  {
    StopKeepsInv(s.(timerText := text));
  }

  lemma PipelineKeepsInv(s: AppState, env: PipelineEnv)
    requires Inv(s)
    ensures Inv(AfterPipeline(s, Pipeline(s.audioChunks, env)))
  {
  }

  /** A second stopRecording changes nothing. */
  lemma StopIdempotent(s: AppState)
    ensures StopStep(StopStep(s)) == StopStep(s)
  {
  }

  /** A sequence of data events, one after the other. */
  function Deliver(s: AppState, ds: seq<Chunk>): AppState
    decreases |ds|
  {
    if |ds| == 0 then s else Deliver(DataStep(s, ds[0]), ds[1..])
  }

  /** The non-empty chunks of ds, in order. */
  function NonEmpty(ds: seq<Chunk>): (r: seq<Chunk>)
    ensures forall i :: 0 <= i < |r| ==> |r[i]| > 0
    ensures |r| <= |ds|
    decreases |ds|
  {
    if |ds| == 0 then [] else (if |ds[0]| > 0 then [ds[0]] else []) + NonEmpty(ds[1..])
  }

  /** NonEmpty keeps every non-empty chunk of ds as often as it occurs and
      nothing else. */
  lemma {:induction false} NonEmptyKeepsChunks(ds: seq<Chunk>)
    ensures multiset(NonEmpty(ds)) <= multiset(ds)
    ensures forall c :: |c| > 0 ==> multiset(NonEmpty(ds))[c] == multiset(ds)[c]
    decreases |ds|
  {
    if |ds| > 0 {
      NonEmptyKeepsChunks(ds[1..]);
      assert ds == [ds[0]] + ds[1..];
      assert multiset(ds) == multiset([ds[0]]) + multiset(ds[1..]);
    }
  }

  /** Data events append their non-empty chunks in delivery order and touch
      nothing else. */
  lemma {:induction false} DeliverAppends(s: AppState, ds: seq<Chunk>)
    ensures Deliver(s, ds) == s.(audioChunks := s.audioChunks + NonEmpty(ds))
    decreases |ds|
  {
    if |ds| > 0 {
      var next := DataStep(s, ds[0]);
      DeliverAppends(next, ds[1..]);
      if |ds[0]| > 0 {
        assert NonEmpty(ds) == [ds[0]] + NonEmpty(ds[1..]);
        assert next.audioChunks == s.audioChunks + [ds[0]];
        assert (s.audioChunks + [ds[0]]) + NonEmpty(ds[1..]) == s.audioChunks + NonEmpty(ds);
      } else {
        assert NonEmpty(ds) == NonEmpty(ds[1..]);
        assert next == s;
      }
    }
  }

  /** Dropping empty chunks does not change the bytes. */
  lemma {:induction false} ConcatNonEmpty(ds: seq<Chunk>)
    ensures Concat(NonEmpty(ds)) == Concat(ds)
    decreases |ds|
  {
    if |ds| > 0 {
      ConcatNonEmpty(ds[1..]);
      var head: seq<Chunk> := if |ds[0]| > 0 then [ds[0]] else [];
      ConcatSplit(head, NonEmpty(ds[1..]));
      ConcatSplit([ds[0]], ds[1..]);
      assert ds == [ds[0]] + ds[1..];
      assert Concat([ds[0]]) == ds[0] by {
        assert [ds[0]][..0] == [];
      }
      if |ds[0]| == 0 {
        assert Concat(head) == [];
      } else {
        assert Concat(head) == ds[0] by {
          assert head == [ds[0]];
          assert [ds[0]][..0] == [];
        }
      }
    }
  }

  /** From ten minutes on, a tick shows the time and then performs exactly
      the stop that a click on the record button would. */
  lemma AutoStopIsClickStop(s: AppState, now: int, capture: Capture, clickTime: int)
    requires Inv(s) && s.timerScheduled
    requires now - s.recordingStartTime.value >= 600000
    ensures var shown := s.(timerText := TimerText(now - s.recordingStartTime.value));
            TickStep(s, now) == ClickStep(shown, capture, clickTime)
  {
    var text := TimerText(now - s.recordingStartTime.value);
    TickAfterLimit(s, now);
    ShownStopIsClick(s, text, capture, clickTime);
  }

  /** From ten minutes on, a tick shows the time and then stops. */
  lemma TickAfterLimit(s: AppState, now: int)
    requires s.recordingStartTime.Some?
    requires now - s.recordingStartTime.value >= 600000
    ensures TickStep(s, now) == Show(s, TimerText(now - s.recordingStartTime.value), true)
  {
    AutoStopThreshold(now - s.recordingStartTime.value);
  }

  /** Stopping after showing any timer text is what a click does then. */
  lemma ShownStopIsClick(s: AppState, text: string, capture: Capture, clickTime: int)
    requires Inv(s) && s.isRecording
    ensures Show(s, text, true) == ClickStep(s.(timerText := text), capture, clickTime)
  {
  }

  /** The button a status set by processRecording shows when no new
      recording has started: 'Processing' while transcribing, 'Record' for
      the others. */
  lemma PipelineStatusButton(status: string)
    requires status == ConvertingStatus || status == TranscribingStatus
             || status == CompleteStatus || status == PipelineErrorStatus
    ensures ButtonMode(false, status) == (if status == TranscribingStatus then Processing else Record)
  {
    if status == TranscribingStatus {
      ButtonWhileProcessing();
    } else if status == ConvertingStatus {
      ButtonWhileConverting();
    } else if status == CompleteStatus {
      ButtonAfterComplete();
    } else {
      ButtonAfterPipelineError();
    }
  }

  /** Along processRecording the button shows 'Record' while converting
      (a new recording may be started then), 'Processing' while
      transcribing, and 'Record' again at the end. */
  lemma PipelineButtons(chunks: seq<Chunk>, env: PipelineEnv)
    ensures var st := Pipeline(chunks, env).statuses;
            forall i :: 0 <= i < |st| ==>
              ButtonMode(false, st[i]) == (if st[i] == TranscribingStatus then Processing else Record)
  {
    var st := Pipeline(chunks, env).statuses;
    forall i | 0 <= i < |st|
      ensures ButtonMode(false, st[i]) == (if st[i] == TranscribingStatus then Processing else Record)
    {
      PipelineStatusButton(st[i]);
    }
  }

  /** A whole session from a state that is not recording: a click with the
      microphone granted, data events ds, a click at stop, and the data
      events late that the recorder still fires after stop() and before
      onstop. The recording stops, the file written holds exactly the
      delivered bytes in order, and when every stage succeeds the
      transcription is stored, the status is 'Complete' and the button
      offers 'Record'. */
  lemma SessionEndToEnd(s: AppState, start: int, ds: seq<Chunk>, stop: int, late: seq<Chunk>, env: PipelineEnv)
    requires Inv(s) && !s.isRecording
    ensures var recording := Deliver(ClickStep(s, Granted, start), ds);
            var stopped := Deliver(ClickStep(recording, Granted, stop), late);
            var run := Pipeline(stopped.audioChunks, env);
            && CanStop(recording) && !stopped.isRecording && stopped.status == ProcessingStatus
            && (env.writeOk ==> run.effects.written == Some(FileWrite(TempPath(env), Concat(ds) + Concat(late))))
            && (run.transcription.Some? ==>
                  var done := AfterPipeline(stopped, run);
                  done.currentTranscription == env.transcription.value
                  && done.status == CompleteStatus && done.button == Record)
  {
    RecordAndStop(s, start, ds, stop);
    var halted := ClickStep(Deliver(ClickStep(s, Granted, start), ds), Granted, stop);
    DeliverAppends(halted, late);
    var stopped := Deliver(halted, late);
    assert stopped.audioChunks == NonEmpty(ds) + NonEmpty(late);
    ConcatSplit(NonEmpty(ds), NonEmpty(late));
    ConcatNonEmpty(ds);
    ConcatNonEmpty(late);
    CompletedRun(stopped, env);
  }

  /** A granted click, data events ds and a second click: the recording
      stops holding exactly the non-empty chunks of ds. */
  lemma RecordAndStop(s: AppState, start: int, ds: seq<Chunk>, stop: int)
    requires Inv(s) && !s.isRecording
    ensures var recording := Deliver(ClickStep(s, Granted, start), ds);
            var stopped := ClickStep(recording, Granted, stop);
            && CanStop(recording) && !stopped.isRecording && stopped.status == ProcessingStatus
            && stopped.audioChunks == NonEmpty(ds)
  {
    var started := ClickStep(s, Granted, start);
    assert started == StartStep(s, Granted, start);
    DeliverAppends(started, ds);
    var recording := Deliver(started, ds);
    assert started.audioChunks + NonEmpty(ds) == NonEmpty(ds);
    assert recording.audioChunks == NonEmpty(ds) && CanStop(recording);
    assert ClickStep(recording, Granted, stop) == StopStep(recording);
  }

  /** Outside a recording, a run that stores a transcription leaves
      'Complete' and 'Record'. */
  lemma CompletedRun(s: AppState, env: PipelineEnv)
    requires !s.isRecording
    ensures var run := Pipeline(s.audioChunks, env);
            run.transcription.Some? ==>
              var done := AfterPipeline(s, run);
              done.currentTranscription == env.transcription.value
              && done.status == CompleteStatus && done.button == Record
  {
    var run := Pipeline(s.audioChunks, env);
    if run.transcription.Some? {
      ButtonAfterComplete();
      assert run.statuses[|run.statuses| - 1] == CompleteStatus;
    }
  }

  // ---------------------------------------------------------------------
  // The object
  // ---------------------------------------------------------------------

  class TranscriptionApp {
    var isRecording: bool
    var hasRecorder: bool
    var audioChunks: seq<Chunk>
    var recordingStartTime: Option<int>
    var timerScheduled: bool
    var timerText: string
    var status: string
    var button: Button
    var currentTranscription: string

    function State(): AppState
      reads this
    {
      AppState(isRecording, hasRecorder, audioChunks, recordingStartTime, timerScheduled,
               timerText, status, button, currentTranscription)
    }

    constructor (initialStatus: string, initialTimerText: string, initialButton: Button)
      ensures State() == Initial(initialStatus, initialTimerText, initialButton)
    {
      isRecording := false;
      hasRecorder := false;
      audioChunks := [];
      recordingStartTime := None;
      timerScheduled := false;
      timerText := initialTimerText;
      status := initialStatus;
      button := initialButton;
      currentTranscription := "";
    }

    /** updateUI. */
    method UpdateUI()
      modifies this
      ensures State() == old(State()).(button := ButtonMode(old(isRecording), old(status)))
    {
      button := ButtonMode(isRecording, status);
    }

    /** updateStatus. */
    method UpdateStatus(message: string)
      modifies this
      ensures State() == WithStatus(old(State()), message)
    {
      status := message;
      UpdateUI();
    }

    /** The record button's click handler. */
    method Click(capture: Capture, now: int)
      modifies this
      ensures State() == ClickStep(old(State()), capture, now)
    {
      if isRecording {
        var _ := StopRecording();
      } else {
        StartRecording(capture, now);
      }
    }

    method StartRecording(capture: Capture, now: int)
      modifies this
      ensures State() == StartStep(old(State()), capture, now)
    {
      ghost var s0 := State();
      if capture == Denied {
        UpdateStatus(MicErrorStatus);
        return;
      }
      hasRecorder := true;
      audioChunks := [];
      if capture == StartFailed {
        assert State() == s0.(hasRecorder := true, audioChunks := []);
        UpdateStatus(MicErrorStatus);
        return;
      }
      isRecording := true;
      recordingStartTime := Some(now);
      ghost var started := State();
      assert started == s0.(hasRecorder := true, audioChunks := [], isRecording := true, recordingStartTime := Some(now));
      UpdateUI();
      timerScheduled := true;
      assert State() == started.(button := ButtonMode(true, started.status), timerScheduled := true);
    }

    /** The recorder's ondataavailable handler. */
    method OnDataAvailable(data: Chunk)
      modifies this
      ensures State() == DataStep(old(State()), data)
    {
      if |data| > 0 {
        audioChunks := audioChunks + [data];
      }
    }

    /** stopRecording; stopped tells whether the recorder was stopped, so
        that its onstop callback runs processRecording. */
    method StopRecording() returns (stopped: bool)
      modifies this
      ensures stopped == CanStop(old(State()))
      ensures State() == StopStep(old(State()))
    {
      stopped := hasRecorder && isRecording;
      if stopped {
        isRecording := false;
        timerScheduled := false;
        UpdateStatus(ProcessingStatus);
        UpdateUI();
      }
    }

    /** The interval callback that startTimer schedules, run at time now. */
    method TimerTick(now: int)
      requires Inv(State()) && timerScheduled
      modifies this
      ensures State() == TickStep(old(State()), now)
    {
      var elapsed := now - recordingStartTime.value;
      var minutes := elapsed / 60000;
      var seconds := JsRem(elapsed, 60000) / 1000;
      timerText := IntToString(minutes) + ":" + PadStart(IntToString(seconds), 2, '0');
      if minutes >= 10 {
        var _ := StopRecording();
      }
    }

    /** processRecording, run by the recorder's onstop callback. */
    method ProcessRecording(env: PipelineEnv) returns (run: PipelineRun)
      modifies this
      ensures run == Pipeline(old(audioChunks), env)
      ensures State() == AfterPipeline(old(State()), run)
    {
      var bytes := Concat(audioChunks);
      var stamp := Timestamp(env.isoNow);
      var tempPath := Join(env.transcriptionsDir, TempFilename(stamp));
      var audioPath := Join(env.transcriptionsDir, FinalFilename(stamp));
      if !env.writeOk {
        UpdateStatus(PipelineErrorStatus);
        return PipelineRun([PipelineErrorStatus], Effects(None, None, None, None), None);
      }
      var effects := Effects(Some(FileWrite(tempPath, bytes)), None, None, None);
      UpdateStatus(ConvertingStatus);
      effects := effects.(ffmpegArgs := Some(FfmpegArgs(tempPath, audioPath)));
      var converted := ConversionResult(env.ffmpeg);
      if converted.Failure? || env.cleanup == RemoveFailed {
        UpdateStatus(PipelineErrorStatus);
        return PipelineRun([ConvertingStatus, PipelineErrorStatus], effects, None);
      }
      if env.cleanup == TempRemoved {
        effects := effects.(removed := Some(tempPath));
      }
      UpdateStatus(TranscribingStatus);
      effects := effects.(transcribeRequest := Some(audioPath));
      if env.transcription.Failure? {
        UpdateStatus(PipelineErrorStatus);
        return PipelineRun([ConvertingStatus, TranscribingStatus, PipelineErrorStatus], effects, None);
      }
      currentTranscription := env.transcription.value;
      UpdateStatus(CompleteStatus);
      run := PipelineRun([ConvertingStatus, TranscribingStatus, CompleteStatus], effects, Some(env.transcription.value));
    }
  }
}
