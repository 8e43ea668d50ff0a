/** `parseCueTime` (parser.go): a cue-sheet `MM:SS:FF` position, with 75
    frames to the second, as a `time.Duration`. Every step is Go's 64-bit
    `int` arithmetic, so each product and sum wraps, and the frame division
    truncates. */
module CueTime {
  import opened Wrappers
  import opened GoInt
  import opened Decimal
  import opened Runes

  const FramesPerSecond: int := 75
  const NanosPerMilli: int := 1_000_000

  /** The milliseconds of a position as the source computes them, in int64. */
  function CueMillis(minutes: int, seconds: int, frames: int): (ms: int)
    requires InInt64(minutes) && InInt64(seconds) && InInt64(frames)
    ensures InInt64(ms)
  {
    var a := Wrap64(Wrap64(minutes * 60) * 1000);
    var b := Wrap64(seconds * 1000);
    var c := Quot(Wrap64(frames * 1000), FramesPerSecond);
    Wrap64(Wrap64(a + b) + c)
  }

  /** `parseCueTime`: three `:`-separated parts, each read by `strconv.Atoi`
      with its error ignored (a malformed part counts as 0); any other number
      of parts is an error. The result is in nanoseconds. */
  function ParseCueTime(s: string): (r: Result<int>)
    ensures r.Ok? <==> CountRune(s, ':') == 2
    ensures r.Ok? ==> InInt64(r.value)
  {
    var parts := Split(s, ':');
    if |parts| != 3 then Err("invalid time format: " + s)
    else
      var ms := CueMillis(Atoi(parts[0]), Atoi(parts[1]), Atoi(parts[2]));
      Ok(Wrap64(ms * NanosPerMilli))
  }

  /** Without wrap-around the position is the exact sum, frames rounded down. */
  function ExactMillis(minutes: nat, seconds: nat, frames: nat): nat {
    minutes * 60_000 + seconds * 1000 + (frames * 1000) / FramesPerSecond
  }

  /** When the exact position fits, none of the int64 steps wraps. */
  lemma CueMillisExact(minutes: nat, seconds: nat, frames: nat)
    requires ExactMillis(minutes, seconds, frames) * NanosPerMilli <= MaxInt64
    ensures InInt64(minutes) && InInt64(seconds) && InInt64(frames)
    ensures CueMillis(minutes, seconds, frames) == ExactMillis(minutes, seconds, frames)
    ensures Wrap64(CueMillis(minutes, seconds, frames) * NanosPerMilli) == ExactMillis(minutes, seconds, frames) * NanosPerMilli
  {
    var e := ExactMillis(minutes, seconds, frames);
    assert minutes * 60_000 <= e && seconds * 1000 <= e && (frames * 1000) / FramesPerSecond <= e;
    assert frames * 1000 < (e + 1) * FramesPerSecond;
    QuotOfNonNegative(frames * 1000, FramesPerSecond);
  }

  /** Any three numerals separated by colons are read as a position; this is
      the partner of writing a position as `MM:SS:FF`. */
  lemma ParseCueTimeOf(ms: string, ss: string, fs: string)
    requires |ms| >= 1 && AllDigits(ms) && |ss| >= 1 && AllDigits(ss) && |fs| >= 1 && AllDigits(fs)
    requires ExactMillis(DigitsValue(ms), DigitsValue(ss), DigitsValue(fs)) * NanosPerMilli <= MaxInt64
    ensures ParseCueTime(ms + ":" + ss + ":" + fs)
         == Ok(ExactMillis(DigitsValue(ms), DigitsValue(ss), DigitsValue(fs)) * NanosPerMilli)
  {
    var m, s, f := DigitsValue(ms), DigitsValue(ss), DigitsValue(fs);
    CueMillisExact(m, s, f);
    assert m <= MaxInt64 && s <= MaxInt64 && f <= MaxInt64;
    DigitsAtoi(ms);
    DigitsAtoi(ss);
    DigitsAtoi(fs);
    DigitsNoColon(ms);
    DigitsNoColon(ss);
    DigitsNoColon(fs);
    SplitThree(ms, ss, fs);
  }

  lemma DigitsNoColon(s: string)
    requires AllDigits(s)
    ensures NoRune(s, ':')
  {
  }

  /** Three colon-free parts joined by colons split back into those parts. */
  lemma SplitThree(a: string, b: string, c: string)
    requires NoRune(a, ':') && NoRune(b, ':') && NoRune(c, ':')
    ensures Split(a + ":" + b + ":" + c, ':') == [a, b, c]
  {
    assert a + ":" + b + ":" + c == a + [':'] + (b + [':'] + c);
    SplitCons(a, b + [':'] + c, ':');
    SplitCons(b, c, ':');
    SplitNone(c, ':');
  }

  /** Writing a position the way cue sheets do (`%02d:%02d:%02d`) and reading
      it back gives minutes, seconds and frames, the frames in whole
      milliseconds rounded down. */
  lemma CueTimeRoundTrip(minutes: nat, seconds: nat, frames: nat)
    requires minutes < 100_000 && seconds < 60 && frames < FramesPerSecond
    ensures ParseCueTime(FormatPadded(minutes, 2) + ":" + FormatPadded(seconds, 2) + ":" + FormatPadded(frames, 2))
         == Ok(ExactMillis(minutes, seconds, frames) * NanosPerMilli)
  {
    ParseCueTimeOf(FormatPadded(minutes, 2), FormatPadded(seconds, 2), FormatPadded(frames, 2));
  }

  /** "03:30:00" is three and a half minutes. */
  lemma Example033000()
    ensures ParseCueTime("03:30:00") == Ok(210_000 * NanosPerMilli)
  {
    TwoDigits("03", 3);
    TwoDigits("30", 30);
    TwoDigits("00", 0);
    assert ExactMillis(3, 30, 0) == 210_000;
    assert "03:30:00" == "03" + ":" + "30" + ":" + "00";
    ParseCueTimeOf("03", "30", "00");
  }

  /** "07:12:50": 50 frames are 666 whole milliseconds, so the position is
      432666 ms (the fraction 2/3 ms is dropped by the integer division). */
  lemma Example071250()
    ensures ParseCueTime("07:12:50") == Ok(432_666 * NanosPerMilli)
  {
    TwoDigits("07", 7);
    TwoDigits("12", 12);
    TwoDigits("50", 50);
    assert (50 * 1000) / FramesPerSecond == 666;
    assert ExactMillis(7, 12, 50) == 432_666;
    assert "07:12:50" == "07" + ":" + "12" + ":" + "50";
    ParseCueTimeOf("07", "12", "50");
  }

  lemma TwoDigits(s: string, n: nat)
    requires |s| == 2 && IsDigit(s[0]) && IsDigit(s[1])
    requires DigitVal(s[0]) * 10 + DigitVal(s[1]) == n
    ensures AllDigits(s) && DigitsValue(s) == n
  {
    var p := s[..1];
    assert p[..0] == [];
    assert DigitsValue(p) == DigitVal(s[0]);
    assert s[..|s| - 1] == p;
  }

  /** A part that is not a number is read as 0 rather than rejected. */
  lemma MalformedPartIsZero()
    ensures ParseCueTime("xx:01:00") == Ok(1000 * NanosPerMilli)
  {
    AtoiOfLetters();
    TwoDigits("01", 1);
    TwoDigits("00", 0);
    DigitsAtoi("01");
    DigitsAtoi("00");
    SplitMalformed();
    assert ExactMillis(0, 1, 0) == 1000;
    CueMillisExact(0, 1, 0);
  }

  lemma AtoiOfLetters()
    ensures Atoi("xx") == 0
  {
    assert !IsDigit("xx"[0]);
  }

  lemma SplitMalformed()
    ensures Split("xx:01:00", ':') == ["xx", "01", "00"]
  {
    assert NoRune("xx", ':') && NoRune("01", ':') && NoRune("00", ':');
    assert "xx:01:00" == "xx" + ":" + "01" + ":" + "00";
    SplitThree("xx", "01", "00");
  }

  /** A position with a missing or an extra part is an error. */
  lemma TwoPartsRejected()
    ensures ParseCueTime("03:30").Err?
  {
    var text := "03:30";
    assert text == "03" + [':'] + "30";
    SplitCons("03", "30", ':');
    SplitNone("30", ':');
  }
}
