/** The pure text helpers of the renderer's TranscriptionApp: the status
    messages it shows, the filename stamp derived from the current date,
    the m:ss timer text, and the record button's mode, which updateUI reads
    off the status text. */
module RendererText {
  import opened Results
  import opened Strings

  // ---------------------------------------------------------------------
  // Status messages
  // ---------------------------------------------------------------------

  const ProcessingStatus: string := "Processing..."
  const ConvertingStatus: string := "Converting audio..."
  const TranscribingStatus: string := "Transcribing..."
  const CompleteStatus: string := "Complete"
  const MicErrorStatus: string := "Error: Could not access microphone"
  const PipelineErrorStatus: string := "Error: Failed to process recording"

  // ---------------------------------------------------------------------
  // Filename stamp
  // ---------------------------------------------------------------------

  /** The stamp processRecording names its files by: the ISO form of the
      current date with every ':' and '.' replaced by '-', cut to its first
      19 characters. */
  function Timestamp(iso: string): (stamp: string)
    ensures |stamp| == if |iso| < 19 then |iso| else 19
    ensures forall i :: 0 <= i < |stamp| ==>
              stamp[i] == (if iso[i] == ':' || iso[i] == '.' then '-' else iso[i])
    ensures ':' !in stamp && '.' !in stamp
  {
    Take(ReplaceChar(ReplaceChar(iso, ':', '-'), '.', '-'), 19)
  }

  /** The recording as the encoder receives it. */
  function TempFilename(stamp: string): string { stamp + ".webm" }

  /** The converted recording handed to the transcriber. */
  function FinalFilename(stamp: string): string { stamp + ".mp3" }

  /** Date.prototype.toISOString for a four-digit year:
      YYYY-MM-DDTHH:mm:ss.sssZ. */
  predicate IsIsoInstant(iso: string)
  {
    && |iso| == 24
    && (forall i :: 0 <= i < 24 && i !in {4, 7, 10, 13, 16, 19, 23} ==> IsDigit(iso[i]))
    && iso[4] == '-' && iso[7] == '-' && iso[10] == 'T'
    && iso[13] == ':' && iso[16] == ':' && iso[19] == '.' && iso[23] == 'Z'
  }

  /** For an ISO instant the stamp is its date, 'T', and the hour, minute
      and second joined by '-': YYYY-MM-DDTHH-mm-ss; the milliseconds and
      the zone letter are dropped. */
  lemma IsoStamp(iso: string)
    requires IsIsoInstant(iso)
    ensures Timestamp(iso) == iso[..13] + "-" + iso[14..16] + "-" + iso[17..19]
    ensures '/' !in Timestamp(iso) && |Timestamp(iso)| == 19
  {
    var st := Timestamp(iso);
    var expected := iso[..13] + "-" + iso[14..16] + "-" + iso[17..19];
    forall i | 0 <= i < 19 ensures st[i] == expected[i] {
      if i < 13 { assert expected[i] == iso[i]; }
      else if i == 13 || i == 16 { assert expected[i] == '-'; }
      else if i < 16 { assert expected[i] == iso[i]; }
      else { assert expected[i] == iso[i]; }
    }
    forall i | 0 <= i < 19 ensures st[i] != '/' {
      if i !in {4, 7, 10, 13, 16} { assert IsDigit(iso[i]); }
    }
  }

  /** The stamp keeps the characters of the date other than ':' and '.',
      so a date without '/' gives a stamp without '/'. */
  lemma StampHasNoSeparator(iso: string)
    requires '/' !in iso
    ensures '/' !in Timestamp(iso)
  {
    var st := Timestamp(iso);
    forall i | 0 <= i < |st| ensures st[i] != '/' {
      assert iso[i] in iso;
    }
  }

  // ---------------------------------------------------------------------
  // Timer text
  // ---------------------------------------------------------------------

  /** JavaScript's a % b for b > 0: the remainder takes the sign of a. */
  function JsRem(a: int, b: int): (r: int)
    requires b > 0
    ensures a >= 0 ==> r == a % b
    ensures a < 0 ==> -b < r <= 0
  {
    if a >= 0 || a % b == 0 then a % b else a % b - b
  }

  /** JavaScript's remainder differs from a by a multiple of b; with its
      range this pins it down uniquely. */
  lemma JsRemCongruent(a: int, b: int)
    requires b > 0
    ensures exists k :: a == b * k + JsRem(a, b)
  {
    var q := a / b;
    assert a == b * q + a % b;
    if !(a >= 0 || a % b == 0) {
      assert b * (q + 1) == b * q + b;
      assert a == b * (q + 1) + JsRem(a, b);
    }
  }

  /** Math.floor(elapsed / 60000). Dafny's division by a positive divisor
      already rounds down. */
  function Minutes(elapsed: int): (m: int)
    ensures elapsed >= 0 ==> m >= 0
  {
    elapsed / 60000
  }

  /** Math.floor((elapsed % 60000) / 1000) with JavaScript's %. */
  function Seconds(elapsed: int): (s: int)
    ensures elapsed >= 0 ==> 0 <= s <= 59
    ensures elapsed < 0 ==> -60 <= s <= 0
  {
    JsRem(elapsed, 60000) / 1000
  }

  /** The timer's `${minutes}:${seconds.toString().padStart(2, '0')}`. For a
      non-negative elapsed time the seconds always take exactly two
      characters after the ':', behind at least one minute digit. */
  function TimerText(elapsed: int): (t: string)
    ensures elapsed >= 0 ==> |t| >= 4 && t[|t| - 3] == ':'
  {
    if elapsed >= 0 then
      PaddedSecondsReadBack(Seconds(elapsed));
      IntToString(Minutes(elapsed)) + ":" + PadStart(IntToString(Seconds(elapsed)), 2, '0')
    else
      IntToString(Minutes(elapsed)) + ":" + PadStart(IntToString(Seconds(elapsed)), 2, '0')
  }

  /** Reads m:ss text back as a number of whole seconds. */
  function ReadTimer(t: string): Option<nat>
  {
    var k := IndexOf(t, ':');
    if k < 0 then None
    else
      var mm := ParseNat(t[..k]);
      var ss := ParseNat(t[k + 1..]);
      if mm.Some? && ss.Some? && |t| - k - 1 == 2 then Some(mm.value * 60 + ss.value) else None
  }

  /** The auto-stop test `minutes >= 10` holds exactly from 600000 ms on. */
  lemma AutoStopThreshold(elapsed: int)
    ensures Minutes(elapsed) >= 10 <==> elapsed >= 600000
  {
  }

  lemma DivByThousand(x: int, q: int, r: int)
    requires 0 <= r < 1000 && x == 1000 * q + r
    ensures x / 1000 == q
  {
  }

  /** Two-digit padding of a number below 60 reads back as that number. */
  lemma PaddedSecondsReadBack(sec: nat)
    requires sec < 60
    ensures |PadStart(NatToString(sec), 2, '0')| == 2
    ensures ParseNat(PadStart(NatToString(sec), 2, '0')) == Some(sec)
  {
    var s := NatToString(sec);
    var p := PadStart(s, 2, '0');
    if sec < 10 {
      assert s == [DigitChar(sec)];
      PadStartShape(s, 2, '0');
      assert p == ['0'] + s;
      assert p[..1] == ['0'];
      assert DigitsValue(p[..1]) == 0 by {
        assert p[..1][..0] == [];
      }
    } else {
      ParseNatToString(sec);
      assert s == NatToString(sec / 10) + [DigitChar(sec % 10)];
    }
  }

  /** Whole minutes and the seconds part of a non-negative elapsed time
      make up its whole seconds. */
  lemma MinutesAndSeconds(elapsed: int)
    requires elapsed >= 0
    ensures Minutes(elapsed) * 60 + Seconds(elapsed) == elapsed / 1000
  {
    var m := Minutes(elapsed);
    var sec := Seconds(elapsed);
    var r := elapsed % 60000;
    assert elapsed == 60000 * m + r;
    assert sec == r / 1000;
    var b := r % 1000;
    assert r == 1000 * sec + b;
    assert elapsed == 1000 * (m * 60 + sec) + b;
    DivByThousand(elapsed, m * 60 + sec, b);
  }

  /** m:ss text built from a count of minutes and of seconds below 60 reads
      back as minutes * 60 + seconds. */
  lemma ReadTimerOf(m: nat, sec: nat)
    requires sec < 60
    ensures ReadTimer(NatToString(m) + ":" + PadStart(NatToString(sec), 2, '0')) == Some(m * 60 + sec)
  {
    PaddedSecondsReadBack(sec);
    ParseNatToString(m);
    ReadTimerParts(NatToString(m), PadStart(NatToString(sec), 2, '0'), m, sec);
  }

  /** Digits, ':' and two more digits read back as minutes and seconds. */
  lemma ReadTimerParts(ms: string, ss: string, m: nat, sec: nat)
    requires ParseNat(ms) == Some(m) && ParseNat(ss) == Some(sec) && |ss| == 2
    ensures ReadTimer(ms + ":" + ss) == Some(m * 60 + sec)
  {
    var t := ms + ":" + ss;
    forall i | 0 <= i < |ms| ensures t[i] != ':' {
      assert t[i] == ms[i];
    }
    IndexOfIs(t, ':', |ms|);
    assert t[..|ms|] == ms;
    assert t[|ms| + 1..] == ss;
  }

  lemma TimerTextOfNonNegative(elapsed: int)
    requires elapsed >= 0
    ensures TimerText(elapsed) == NatToString(Minutes(elapsed)) + ":" + PadStart(NatToString(Seconds(elapsed)), 2, '0')
  {
  }

  /** For a non-negative elapsed time the timer text reads back as the
      elapsed whole seconds, the seconds shown with exactly two digits. */
  lemma TimerTextReadsBack(elapsed: int)
    requires elapsed >= 0
    ensures ReadTimer(TimerText(elapsed)) == Some(elapsed / 1000)
  {
    TimerTextOfNonNegative(elapsed);
    MinutesAndSeconds(elapsed);
    ReadTimerOf(Minutes(elapsed), Seconds(elapsed));
  }

  // ---------------------------------------------------------------------
  // Record button
  // ---------------------------------------------------------------------

  /** What the record button shows. */
  datatype Button = Record | Stop | Processing

  /** updateUI: 'Stop' exactly while recording; otherwise 'Processing'
      when the status text mentions "Processing" or "Transcribing"; else
      'Record'. */
  function ButtonMode(isRecording: bool, status: string): (b: Button)
    ensures b == Stop <==> isRecording
  {
    if isRecording then Stop
    else if Contains(status, "Processing") || Contains(status, "Transcribing") then Processing
    else Record
  }

  /** The button mode read as a statement about positions in the status
      text: 'Processing' exactly when one of the two words occurs somewhere. */
  lemma ButtonModeMeaning(isRecording: bool, status: string)
    ensures ButtonMode(isRecording, status) == Processing <==>
              !isRecording && exists i :: OccursAt(status, "Processing", i) || OccursAt(status, "Transcribing", i)
  {
    ContainsIffOccurs(status, "Processing");
    ContainsIffOccurs(status, "Transcribing");
  }

  /** After a stop, and while transcribing, the button shows 'Processing'. */
  lemma ButtonWhileProcessing()
    ensures ButtonMode(false, ProcessingStatus) == Processing
    ensures ButtonMode(false, TranscribingStatus) == Processing
  {
    assert StartsWith(ProcessingStatus, "Processing");
    assert StartsWith(TranscribingStatus, "Transcribing");
  }

  /** A status without a 'P' or a 'T' mentions neither keyword. */
  lemma NoKeyword(status: string)
    requires 'P' !in status && 'T' !in status
    ensures ButtonMode(false, status) == Record
  {
    NotContainsWithoutFirst(status, "Processing");
    NotContainsWithoutFirst(status, "Transcribing");
  }

  /** While converting the button shows 'Record', although a recording is
      being processed. */
  lemma ButtonWhileConverting()
    ensures ButtonMode(false, ConvertingStatus) == Record
  {
    assert 'P' !in ConvertingStatus;
    assert 'T' !in ConvertingStatus;
    NoKeyword(ConvertingStatus);
  }

  /** After completion the button shows 'Record'. */
  lemma ButtonAfterComplete()
    ensures ButtonMode(false, CompleteStatus) == Record
  {
    assert 'P' !in CompleteStatus;
    assert 'T' !in CompleteStatus;
    NoKeyword(CompleteStatus);
  }

  /** After a failed pipeline the button shows 'Record'. */
  lemma ButtonAfterPipelineError()
    ensures ButtonMode(false, PipelineErrorStatus) == Record
  {
    assert 'P' !in PipelineErrorStatus;
    assert 'T' !in PipelineErrorStatus;
    NoKeyword(PipelineErrorStatus);
  }

  /** After a refused microphone the button shows 'Record'. */
  lemma ButtonAfterMicError()
    ensures ButtonMode(false, MicErrorStatus) == Record
  {
    assert 'P' !in MicErrorStatus;
    assert 'T' !in MicErrorStatus;
    NoKeyword(MicErrorStatus);
  }
}
