# EchoDown recording and transcription core, in Dafny

EchoDown (claude-local-transcribe) is a desktop app. The user records from
the microphone. The recording is saved and converted to MP3 with ffmpeg.
A Python script runs Whisper on it, prints the transcription and writes it
as a markdown file under `~/transcriptions`. The window lists the ten newest
transcripts.

This project models the logic inside the three programs of the app:

- **The renderer's `TranscriptionApp`** (module `Session`, class
  `Session.TranscriptionApp`). Its fields change in place, step by step:
  the click toggle, `startRecording`, the data events, `stopRecording`, the
  timer tick with its ten-minute auto-stop, and the sequence of stages in
  `processRecording`. Each method is proved to perform one pure step
  function over a snapshot of the fields (`AppState`). The lemmas about the
  app are proved on those step functions.
- **The renderer's pure helpers** (module `RendererText`): the filename
  stamp taken from the ISO date, the `m:ss` timer text, and the record
  button's mode, which is read off the status text.
- **The main process** (module `MainProcess`):
  - the `get-recent-transcriptions` query (filter, stat, stable sort
    newest first, ten entries, `[]` on any error);
  - the choice of Python interpreter and script;
  - the `transcribe-audio` handler, which collects the output streams
    (a `while` loop over the data events) and applies the exit-code rule.
- **The transcription script** (module `TranscribeScript`):
  - the argv checks;
  - the large → base → tiny model fallback;
  - the language display (a fixed table, with `capitalize` as the fallback);
  - the markdown document and its path;
  - what goes to stdout and stderr, and the exit code.
- **How the programs fit together** (module `EndToEnd`):
  - the launch passes the script's argv check;
  - the transcript is named after the recording's stamp, in the directory
    the main process lists;
  - what the script prints is what the renderer receives, or the error
    message that carries the script's stderr.

The library behaviour this code depends on is modelled explicitly in
`Strings` and `Paths`:

- JavaScript's `%` on negative numbers;
- `padStart`;
- `String.prototype.trim` against Python's `str.strip`, which use
  different sets of whitespace;
- Python's `str.capitalize` (ASCII only);
- Node's `path.join`;
- posixpath's `basename`, `splitext`, `join` and `expanduser`.

The outside world is given as inputs:

- the microphone outcome (`Capture`);
- the bytes of each data event;
- the date string;
- the reply to `get-transcriptions-dir`;
- whether `writeFileSync` succeeds;
- how ffmpeg ends;
- the outcome of the temp-file clean-up;
- the reply to `transcribe-audio`;
- the directory listing and birth times;
- the child process's output events and exit code;
- for the script: HOME, which files exist, the outcome of each load and
  transcription, the date and duration texts, and the result of the
  markdown write.

## Model

| member | source | states |
|---|---|---|
| RendererText.Timestamp | src/renderer.js:120-123 | the stamp is the first min(19, length) characters of the ISO date, with every ':' and '.' replaced by '-'; it contains neither character |
| RendererText.IsoStamp | src/renderer.js:119-123 | for a `toISOString` date the stamp is exactly `YYYY-MM-DDTHH-mm-ss`: 19 characters, no '/' |
| RendererText.StampHasNoSeparator | src/renderer.js:126-130 | a date without '/' gives a stamp without '/', so the temp and final files lie directly in the transcriptions directory |
| RendererText.JsRem | src/renderer.js:195 | JavaScript's `%` for a positive divisor: Euclidean on non-negative operands; for a negative operand the result lies in (-b, 0] |
| RendererText.JsRemCongruent | src/renderer.js:195 | a and JavaScript's a % b differ by a multiple of b, which with the range above fixes the result |
| RendererText.Minutes | src/renderer.js:194 | whole minutes, non-negative for a non-negative elapsed time |
| RendererText.Seconds | src/renderer.js:195 | the seconds shown are 0..59 for a non-negative elapsed time and -60..0 for a negative one |
| RendererText.AutoStopThreshold | src/renderer.js:199 | the auto-stop test `minutes >= 10` holds exactly from 600000 ms on |
| RendererText.MinutesAndSeconds | src/renderer.js:193-195 | minutes * 60 + seconds is the whole number of elapsed seconds |
| RendererText.PaddedSecondsReadBack | src/renderer.js:196 | seconds below 60, padded to two digits, are exactly two characters and parse back to the same number |
| RendererText.TimerText | src/renderer.js:193-196 | for a non-negative elapsed time the text has at least four characters and a ':' third from the end, before the two seconds digits |
| RendererText.TimerTextOfNonNegative | src/renderer.js:196 | for a non-negative elapsed time the text is the minutes' digits, ':' and the padded seconds' digits, with no sign |
| RendererText.TimerTextReadsBack | src/renderer.js:193-196 | the `m:ss` text of a non-negative elapsed time reads back as its whole seconds, with exactly two seconds digits |
| RendererText.ReadTimerOf | src/renderer.js:196 | minutes, ':' and two-digit seconds below 60 read back as minutes * 60 + seconds |
| RendererText.ButtonMode | src/renderer.js:219-230 | the button shows Stop exactly while recording |
| RendererText.ButtonModeMeaning | src/renderer.js:223-226 | the button shows Processing exactly when not recording and 'Processing' or 'Transcribing' occurs somewhere in the status |
| RendererText.ButtonWhileProcessing | src/renderer.js:223-226 | 'Processing...' and 'Transcribing...' make the button show Processing |
| RendererText.NoKeyword | src/renderer.js:223-230 | a status with no 'P' and no 'T' makes the button show Record |
| RendererText.ButtonWhileConverting | src/renderer.js:223-230 | 'Converting audio...' shows Record, although a recording is being processed |
| RendererText.ButtonAfterComplete | src/renderer.js:223-230 | 'Complete' shows Record |
| RendererText.ButtonAfterPipelineError | src/renderer.js:223-230 | 'Error: Failed to process recording' shows Record |
| RendererText.ButtonAfterMicError | src/renderer.js:223-230 | 'Error: Could not access microphone' shows Record |
| Session.Initial | src/renderer.js:7-13 | the constructor's state keeps the invariant, is not recording and has no chunks |
| Session.StartStep | src/renderer.js:50-98 | with the microphone granted, chunks are reset, recording is on with the start time, the timer runs and the button shows Stop. On a failure, isRecording, the timer and the start time are unchanged and the status is the microphone error. A throw at `start` has already reset the chunks and installed the recorder. On a failure the button follows the microphone-error status (Record when not recording) |
| Session.StopStep | src/renderer.js:101-109 | with a recorder that is recording: recording and the timer stop, the status is 'Processing...', the button shows Processing, and chunks and start time are kept. Otherwise nothing changes. Afterwards it can never stop again |
| Session.ClickStep | src/renderer.js:32-38 | a click while recording with a recorder stops: not recording, status 'Processing...', chunks kept; recording without a recorder changes nothing. Outside a recording it starts exactly when the microphone is granted, whatever the status says (even while an earlier recording is still being processed), with no chunks and the click time as start time; a refusal shows the microphone error |
| Session.DataStep | src/renderer.js:76-80 | a non-empty chunk is appended after the old chunks, an empty one is dropped; nothing else changes and all kept chunks stay non-empty |
| Session.TickStep | src/renderer.js:192-202 | the timer shows the text of now minus the start time. Before 600000 ms nothing else changes; from 600000 ms on the app can no longer stop, and a recording app is stopped with status 'Processing...' |
| Session.WithStatus | src/renderer.js:233-236 | the status is the message and the button its mode; no other field changes |
| Session.TempPath | src/renderer.js:126-129 | the temp path is the directory, '/', the stamp of the date and '.webm' |
| Session.AudioPath | src/renderer.js:127-130 | the final path is the directory, '/', the stamp of the date and '.mp3' |
| Session.FfmpegArgs | src/renderer.js:165-173 | ffmpeg gets -i with the input path first, ahead of the output options -acodec mp3, -ab 128k, -ar 44100, -ac 1, -y, and the output path last, twelve arguments in all |
| Session.AfterPipeline | src/renderer.js:138-158 | the status is the last one the run set and the button follows it; the transcription is stored only when the run produced one; no other field changes |
| Session.ConversionResult | src/renderer.js:175-185 | conversion succeeds exactly on close with code 0; a spawn error rejects with its message; any other code rejects with 'FFmpeg conversion failed with code N' (N is 'null' for a signal) |
| Session.Pipeline | src/renderer.js:111-159 | the statuses are one of the four sequences Error / Converting, Error / Converting, Transcribing, Error / Converting, Transcribing, Complete. The temp file holds the in-order concatenation of the chunks. ffmpeg runs on the temp and final paths exactly when the write succeeds. The temp file is removed only after ffmpeg closes with code 0. The transcription is requested exactly when 'Transcribing...' is shown, and is stored exactly when every stage succeeds |
| Session.StepsKeepInv | src/renderer.js:32-109 | every step (start, stop, click, data, tick, processRecording) keeps the invariant: recording implies a recorder, and the timer runs exactly while recording, with a start time |
| Session.StartKeepsInv | src/renderer.js:50-98 | startRecording keeps the invariant |
| Session.StopKeepsInv | src/renderer.js:101-109 | stopRecording keeps the invariant |
| Session.DataKeepsInv | src/renderer.js:76-80 | a data event keeps the invariant |
| Session.TickKeepsInv | src/renderer.js:192-202 | a timer tick keeps the invariant |
| Session.ShowKeepsInv | src/renderer.js:196-201 | showing any timer text, then stopping or not, keeps the invariant |
| Session.PipelineKeepsInv | src/renderer.js:111-159 | processRecording keeps the invariant |
| Session.StopIdempotent | src/renderer.js:101-109 | a second stopRecording changes nothing |
| Session.NonEmpty | src/renderer.js:76-80 | the kept chunks are all non-empty and are no more than the delivered ones |
| Session.NonEmptyKeepsChunks | src/renderer.js:76-80 | the kept chunks are a sub-multiset of the delivered ones, and every non-empty chunk is kept as often as it was delivered |
| Session.DeliverAppends | src/renderer.js:76-80 | data events append exactly their non-empty chunks, in delivery order, and change nothing else |
| Session.ConcatNonEmpty | src/renderer.js:114 | dropping the empty chunks does not change the bytes of the recording |
| Session.AutoStopIsClickStop | src/renderer.js:199-201 | from ten minutes on, a tick shows the time and then performs exactly the stop a click on the record button would |
| Session.PipelineStatusButton | src/renderer.js:138-157 | of the statuses processRecording sets, only 'Transcribing...' makes the button show Processing |
| Session.PipelineButtons | src/renderer.js:138-157 | while no new recording is running, the button shows Record while converting, Processing while transcribing, and Record at the end |
| Session.RecordAndStop | src/renderer.js:32-109 | a granted click, data events and a second click leave a stopped app with status 'Processing...', holding exactly the non-empty chunks |
| Session.CompletedRun | src/renderer.js:147-152 | outside a recording, a run that stores a transcription leaves it as currentTranscription, with status 'Complete' and the button on Record |
| Session.SessionEndToEnd | src/renderer.js:32-152 | click, data, click, late data events and processRecording: the stop leaves status 'Processing...', the file written holds exactly the delivered bytes, those arriving after the stop included, and on success the transcription is stored and the status is 'Complete' with the button on Record |
| Session.TranscriptionApp.constructor | src/renderer.js:7-13 | the fields start as the initial state |
| Session.TranscriptionApp.UpdateUI | src/renderer.js:213-231 | only the button changes, to the mode of isRecording and the status |
| Session.TranscriptionApp.UpdateStatus | src/renderer.js:233-236 | the status text is set, then the button follows it |
| Session.TranscriptionApp.Click | src/renderer.js:32-38 | the fields become ClickStep of the old fields |
| Session.TranscriptionApp.StartRecording | src/renderer.js:50-98 | the fields become StartStep of the old fields |
| Session.TranscriptionApp.OnDataAvailable | src/renderer.js:76-80 | the fields become DataStep of the old fields |
| Session.TranscriptionApp.StopRecording | src/renderer.js:101-109 | the fields become StopStep of the old fields; stopped tells whether the recorder was stopped |
| Session.TranscriptionApp.TimerTick | src/renderer.js:192-202 | the fields become TickStep of the old fields |
| Session.TranscriptionApp.ProcessRecording | src/renderer.js:111-159 | the run is Pipeline of the old chunks and the fields become AfterPipeline of the old fields |
| MainProcess.TranscriptionsDir | src/main.js:8 | the directory starts with the home directory and ends with '/transcriptions' |
| MainProcess.MdEntries | src/main.js:170-171 | an entry is kept exactly when it is in the listing and its name ends with '.md', as many times as it occurs there; no other entry is kept |
| MainProcess.StatAll | src/main.js:172-180 | the map succeeds exactly when every birth time can be read; then each entry keeps its name verbatim, with its path joined under the directory and its birth time |
| MainProcess.Insert | src/main.js:181 | insertion into a newest-first list keeps it newest first and adds exactly the one entry |
| MainProcess.SortNewestFirst | src/main.js:181 | the sort is newest first and a permutation of its input |
| MainProcess.RecentShape | src/main.js:168-184 | at most ten entries, newest first; each is a '.md' entry of the listing with its birth time, and its path is the directory joined with its name |
| MainProcess.RecentAreNewest | src/main.js:181-182 | when everything succeeds, the list holds min(10, number of '.md' files) of them, and no file left out is newer than a file listed |
| MainProcess.PrefixIsNewest | src/main.js:181-182 | the first n entries of a newest-first list are at least as new as the rest |
| MainProcess.RecentOnError | src/main.js:185-188 | an unreadable directory, or a '.md' entry whose stat fails, gives [] |
| MainProcess.RecentTranscriptions | src/main.js:168-188 | at most ten entries, newest first; an unreadable directory gives [] |
| MainProcess.PythonLaunch | src/main.js:125-136 | the arguments are exactly [script, audio path]. A packaged app uses the bundled interpreter and script under the unpacked resources. Development uses the local python_env interpreter when it exists, else 'python3', with the script beside the sources |
| MainProcess.LaunchRunsTranscribeScript | src/main.js:125-134 | whichever branch is taken, the program is a 'python3' and the script a 'transcribe.py'; a packaged interpreter lies under the unpacked resources |
| MainProcess.PackagedUnderResources | src/main.js:127 | the packaged interpreter path starts with resources/app.asar.unpacked/ |
| MainProcess.CollectOutput | src/main.js:138-147 | output and errorOutput are the in-order concatenations of the stdout and the stderr chunks |
| MainProcess.ChunksOfAppend | src/main.js:141-147 | each stream is split by the events alone: the chunks of two runs of events are the chunks of each, joined |
| MainProcess.ChunksComeFromEvents | src/main.js:141-147 | every stdout chunk collected comes from a stdout event and every stderr chunk from a stderr event; the two streams together account for every event |
| MainProcess.CloseResult | src/main.js:149-159 | resolves exactly on code 0, with the trimmed stdout. Any other code, or null, rejects with exactly 'Python process failed (code N): ' followed by stderr, or 'No error details' when stderr is empty |
| MainProcess.CloseResultOfPadded | src/main.js:156 | stdout made of whitespace, an unpadded text and whitespace resolves to that text |
| MainProcess.TranscribeAudio | src/main.js:120-162 | the handler spawns PythonLaunch and settles with CloseResult of the collected streams and the exit code |
| Paths.Join | src/main.js:173 | dir, one '/', then name |
| Paths.JoinAll | src/main.js:127-133 | joining a non-empty list of names starts with the directory and '/', and ends with '/' and the last name |
| Paths.Basename | python/transcribe.py:69 | the base name has no '/', ends the path, and follows a '/' when it is not the whole path |
| Paths.BasenameOfJoin | python/transcribe.py:69 | the base name of dir/name is name |
| Paths.SplitExtRoot | python/transcribe.py:94 | the root is a prefix of the name; what is cut off starts at an extension dot and holds no other '.'; nothing is cut off when the name has no extension dot |
| Paths.SplitExtOfStem | python/transcribe.py:94 | stem.ext splits back into stem when neither part has '.' or '/' |
| Paths.ExpandHome | python/transcribe.py:95 | `~/rest` expands to HOME without its trailing '/' characters, then '/rest' |
| Paths.PyJoin | python/transcribe.py:96 | an absolute name replaces the directory; otherwise the result starts with the directory and ends with the name |
| Paths.PyJoinRelative | python/transcribe.py:96 | a relative name joined onto a directory without a trailing '/' gets exactly one '/' |
| Strings.Trim | src/main.js:156 | the trimmed text neither starts nor ends with whitespace |
| Strings.TrimPadded | src/main.js:156 | trimming removes exactly the surrounding whitespace |
| Strings.TrimIdempotent | python/transcribe.py:50 | trimming twice is trimming once |
| Strings.JsSpaceIsPySpaceOrBom | src/main.js:156 | every JavaScript whitespace character is Python whitespace except U+FEFF. Python whitespace outside U+001C..U+001F and U+0085 is JavaScript whitespace |
| Strings.ExitCodeText | src/main.js:158 | the text is 'null' exactly for a null code; any other code's text parses back to the code |
| Strings.IntToString | src/renderer.js:196 | the text is non-empty; it begins with '-' exactly for a negative integer and is all digits otherwise |
| Strings.IntToStringReadBack | src/renderer.js:196 | the text of any integer, negative ones included, parses back to that integer |
| Strings.NatToString | src/renderer.js:196 | a natural number renders as non-empty digits, without a leading zero unless it is 0 |
| Strings.ParseNatToString | src/renderer.js:196 | rendered digits parse back to the same number |
| Strings.PadStartShape | src/renderer.js:196 | padStart puts fill characters only in front of the text |
| Strings.ReplaceChar | src/renderer.js:121-122 | replace(/c/g, d) is pointwise |
| Strings.Take | src/main.js:182 | slice(0, n) is the prefix of length min(n, length); it also cuts the stamp to 19 characters |
| Strings.ContainsIffOccurs | src/renderer.js:223 | `includes` holds exactly when the text occurs at some position |
| Strings.Capitalize | python/transcribe.py:66 | the first character upper-cased, the rest lower-cased, same length |
| Strings.CapitalizeIdempotent | python/transcribe.py:66 | capitalizing twice is capitalizing once |
| TranscribeScript.KnownLanguages | python/transcribe.py:54-66 | the ten codes en, fr, es, de, it, pt, ru, ja, zh, ko show their fixed names |
| TranscribeScript.OtherLanguage | python/transcribe.py:66 | any other code shows capitalized: its first character upper-cased, the rest lower-cased |
| TranscribeScript.LanguageDisplay | python/transcribe.py:51-66 | a result without a language shows 'Unknown' |
| TranscribeScript.LanguageDisplayCapitalized | python/transcribe.py:66 | every language display is already capitalized |
| TranscribeScript.NamesCapitalized | python/transcribe.py:54-65 | every name in the table is capitalized |
| TranscribeScript.FirstLoadable | python/transcribe.py:32-43 | the index found loads, and every earlier name fails; None when all fail |
| TranscribeScript.LoadModel | python/transcribe.py:32-43 | the names tried are a non-empty prefix of large, base, tiny, and all but the last failed; a success is the last name tried; a failure has tried all three and carries tiny's error |
| TranscribeScript.LoadModelIsFirstLoadable | python/transcribe.py:32-43 | the fallback loads the first of large, base, tiny that loads, after trying exactly the ones before it. With none, the error is tiny's |
| TranscribeScript.LoadModelLog | python/transcribe.py:30-43 | the stderr progress lines: one per name tried, less one when nothing loads, the last naming the loaded model |
| TranscribeScript.SplitLine | python/transcribe.py:82-91 | a split line and its rest put back together give the text |
| TranscribeScript.MarkdownContent | python/transcribe.py:82-91 | the document starts with the title line and ends with the rule, a blank line, the text and a line break |
| TranscribeScript.ParseMarkdown | python/transcribe.py:82-91 | whatever it reads is the document written from those fields |
| TranscribeScript.MarkdownRoundTrip | python/transcribe.py:82-91 | the document reads back as exactly the fields it was written from: title, Date, Duration, File and Detected Language lines, the rule and the text |
| TranscribeScript.MarkdownPath | python/transcribe.py:94-96 | the path is the expanded ~/transcriptions, '/', the audio base name without its extension, and '.md' |
| TranscribeScript.MarkdownPathOfStamp | python/transcribe.py:94-96 | audio named stamp.ext gets ~/transcriptions/stamp.md |
| TranscribeScript.StderrText | python/transcribe.py:30 | the stderr text ends with its last line and its line break |
| TranscribeScript.ErrorRun | python/transcribe.py:105-107 | the except clause: exit code 1, no stdout and no markdown, the printed lines followed by 'Error during transcription: ' and the message |
| TranscribeScript.TranscribeAudio | python/transcribe.py:27-107 | the script exits 0 exactly when a model loads, transcription succeeds and the write succeeds. It then prints the stripped text and a line break, writes the markdown, and the script's own stderr lines are just the progress lines. Otherwise it exits 1, with the error line last |
| TranscribeScript.RunScript | python/transcribe.py:7-120 | a failed module-level import prints a traceback and exits 1 before the main block runs, so no model is tried. Once the imports succeed, a wrong argument count prints usage. A missing file prints its message. Both exit 1 before any model is tried; a model is tried exactly when the imports succeed and argv is one existing path |
| TranscribeScript.StdoutIsTranscriptOnly | python/transcribe.py:102 | stdout is empty or the stripped transcription and one line break |
| EndToEnd.LaunchPassesArgvCheck | src/main.js:136 | once the script's imports succeed, the spawned argv passes its checks for an existing audio file, so a model is tried |
| EndToEnd.TranscriptNamedLikeRecording | src/renderer.js:120-130 | the transcript of a recording lands in the main process's transcriptions directory as stamp.md, a name the recent query keeps |
| EndToEnd.StampedMarkdownPath | python/transcribe.py:94-96 | the recording's final file stamp.mp3 gets the transcript path transcriptions/stamp.md |
| EndToEnd.StrippedTextResolves | src/main.js:156 | a stripped text printed with its line break resolves to itself unless it begins or ends with U+FEFF |
| EndToEnd.SuccessfulRun | python/transcribe.py:90-102 | a successful run prints the text that the markdown file holds |
| EndToEnd.TranscriptReachesRenderer | src/main.js:141-156 | on exit 0, however the decoded stdout text is split into chunks, the renderer receives the markdown file's text |
| EndToEnd.ExitCodeOne | src/main.js:158 | exit code 1 is rendered as '1' |
| EndToEnd.FailureCarriesStderr | src/main.js:158 | the rejection for exit 1 is "Python process failed (code 1): " followed by all of stderr, ending with its last line |
| EndToEnd.ScriptErrorReachesRenderer | src/main.js:155-159 | on a failed run the rejection carries code 1 and all the script's stderr, ending with its last message |

## Left out

- The Electron shell (window, menus, app lifecycle, devtools) and `mkdirSync` at start-up: UI plumbing with no logic.
- `getUserMedia`, `MediaRecorder` options, MIME negotiation, the Blob's type and stopping the tracks: browser APIs. The model reduces them to a `Capture` outcome and the bytes of the data events.
- Asynchrony:
  - A click that arrives while `getUserMedia` is still pending is not modelled, because each `StartRecording` runs to completion.
  - The `onstop` callback is modelled as a separate later call of `ProcessRecording`.
  - Interval timing is modelled as explicit `TimerTick` calls.
  - An earlier recording's `processRecording` can still be running when a new recording starts. This is allowed, because the click looks only at `isRecording`, but the interleaving of its awaits with the new recording's steps is not modelled.
- The timer's visibility (the `hidden` class) and the button icons: DOM presentation. The button is modelled by its mode.
- `displayTranscription`, `loadRecentTranscriptions`, the clipboard and `showItemInFolder`: DOM and OS calls.
- Chunks are not released after `processRecording` (the code keeps them). The model keeps them as well.
- `path.join` normalisation: `Paths.Join` joins with one '/', and a '..' segment is kept as written. It names the same file.
- The decoding of each output chunk as UTF-8 (`data.toString()`): the model takes already-decoded text chunks. Node decodes each chunk on its own, so a multi-byte character split across two chunks becomes U+FFFD characters; `EndToEnd.TranscriptReachesRenderer` does not cover that case.
- The Python child's `error` event: `main.js` registers no handler for it, so the promise is never settled. It is not modelled.
- `console.log` and `console.error` output: logging only.
- TranscribeScript.LanguageDisplay: a result whose `language` key is present with the value `None` is not modelled. The script would raise in `capitalize`. `None` in the model means the key is absent.
- Strings.Capitalize: Python's full Unicode case mapping is not modelled; only ASCII letters change case.
- The duration text (floating-point arithmetic on librosa's duration) and the date text (`strftime` of the local time) are parameters of the script run.
- SSL and `certifi` environment set-up in the script: configuration only.
- TranscribeScript.StdoutIsTranscriptOnly: covers only what the script itself prints. Output that Whisper, librosa or Python itself write to stdout or stderr (warnings, progress bars) would also reach the main process; it is not modelled.
- Paths.ExpandHome: HOME is a parameter; an unset HOME (the password-database fallback) is not modelled.
- MainProcess.SortNewestFirst: the model is a stable sort. Its contract states newest-first order and permutation, but not the order of entries with equal birth times.
- The actual file system, ffmpeg, Whisper and librosa: each is represented by its outcome.
- TranscribeScript.RunScript: of the traceback of a failed import, only its header line and the exception line are modelled; the frame lines in between are not.
