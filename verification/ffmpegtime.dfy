/** `FormatDurationToFFmpegTime` (pkg/util/util.go) and its twin
    `formatDurationToFFmpegTime` (util.go): a `time.Duration` is rounded to
    the millisecond, taken apart into hours, minutes, seconds and
    milliseconds with Go's truncating division, and printed as
    `%02d:%02d:%02d.%03d`. Durations are int64 nanosecond counts. */
module FFmpegTime {
  import opened GoInt
  import opened Decimal
  import opened Runes
  import opened Wrappers

  const Millisecond: int := 1_000_000
  const Second: int := 1_000_000_000
  const Minute: int := 60_000_000_000
  const Hour: int := 3_600_000_000_000

  /** `d.Round(time.Millisecond)`: the multiple of a millisecond nearest to
      d, halfway cases away from zero. The halfway test is Go's
      `lessThanHalf`, whose unsigned sum cannot wrap because the remainder is
      below a millisecond; the candidate multiple is computed in int64, and a
      candidate that wrapped is replaced by the int64 bound. */
  function RoundMs(d: int): (r: int)
    requires InInt64(d)
    ensures InInt64(r)
    ensures d >= 0 ==> r >= 0
    ensures d <= 0 ==> r <= 0
    ensures r != MaxInt64 && r != MinInt64 ==> r % Millisecond == 0 && 2 * Abs(r - d) <= Millisecond
    ensures r != MaxInt64 && r != MinInt64 && 2 * Abs(r - d) == Millisecond ==> Abs(r) > Abs(d)
    ensures r == MaxInt64 ==> d > MaxInt64 - Millisecond / 2
    ensures r == MinInt64 ==> d < MinInt64 + Millisecond / 2
  {
    if d < 0 then RoundNegative(d) else RoundNonNegative(d)
  }

  function RoundNonNegative(d: int): (r: int)
    requires 0 <= d <= MaxInt64
    ensures 0 <= r <= MaxInt64
    ensures r != MaxInt64 ==> r % Millisecond == 0 && 2 * Abs(r - d) <= Millisecond
    ensures r != MaxInt64 && 2 * Abs(r - d) == Millisecond ==> r > d
    ensures r == MaxInt64 ==> d > MaxInt64 - Millisecond / 2
  {
    QuotOfNonNegative(d, Millisecond);
    var rem := Rem(d, Millisecond);
    assert (d - rem) % Millisecond == 0;
    if 2 * rem < Millisecond then d - rem
    else
      var d1 := Wrap64(d + Millisecond - rem);
      if d1 > d then d1 else MaxInt64
  }

  function RoundNegative(d: int): (r: int)
    requires MinInt64 <= d < 0
    ensures MinInt64 <= r <= 0
    ensures r != MinInt64 ==> r % Millisecond == 0 && 2 * Abs(r - d) <= Millisecond
    ensures r != MinInt64 && 2 * Abs(r - d) == Millisecond ==> r < d
    ensures r == MinInt64 ==> d < MinInt64 + Millisecond / 2
  {
    var rr := -Rem(d, Millisecond);
    if 2 * rr < Millisecond then d + rr
    else
      var d1 := Wrap64(d - Millisecond + rr);
      if d1 < d then d1 else MinInt64
  }

  /** The four printed fields. */
  datatype Clock = Clock(h: int, m: int, s: int, ms: int)

  /** The successive truncating divisions of the formatter; the remainder of
      each step is what the next one divides. */
  function Decompose(d: int): (c: Clock)
    requires InInt64(d)
    ensures Abs(c.m) < 60 && Abs(c.s) < 60 && Abs(c.ms) < 1000
    ensures d >= 0 ==> c.h >= 0 && c.m >= 0 && c.s >= 0 && c.ms >= 0
    ensures d >= 0 ==> c.h * 3_600_000 + c.m * 60_000 + c.s * 1000 + c.ms == d / Millisecond
  {
    var h := Quot(d, Hour);
    var d1 := d - h * Hour;
    var m := Quot(d1, Minute);
    var d2 := d1 - m * Minute;
    var s := Quot(d2, Second);
    var d3 := d2 - s * Second;
    var ms := Quot(d3, Millisecond);
    if d >= 0 then
      DecomposeNonNegative(d, h, m, s, ms);
      Clock(h, m, s, ms)
    else
      Clock(h, m, s, ms)
  }

  lemma DecomposeNonNegative(d: int, h: int, m: int, s: int, ms: int)
    requires d >= 0
    requires h == Quot(d, Hour)
    requires m == Quot(d - h * Hour, Minute)
    requires s == Quot(d - h * Hour - m * Minute, Second)
    requires ms == Quot(d - h * Hour - m * Minute - s * Second, Millisecond)
    ensures h * 3_600_000 + m * 60_000 + s * 1000 + ms == d / Millisecond
  {
    QuotOfNonNegative(d, Hour);
    var d1 := d - h * Hour;
    QuotOfNonNegative(d1, Minute);
    var d2 := d1 - m * Minute;
    QuotOfNonNegative(d2, Second);
    var d3 := d2 - s * Second;
    QuotOfNonNegative(d3, Millisecond);
    assert d == h * Hour + m * Minute + s * Second + d3;
    assert d3 == ms * Millisecond + d3 % Millisecond;
    var x := h * 3_600_000 + m * 60_000 + s * 1000 + ms;
    assert d == x * Millisecond + d3 % Millisecond;
    DivOfSum(x, d3 % Millisecond);
  }

  lemma DivOfSum(x: int, r: int)
    requires 0 <= r < Millisecond
    ensures (x * Millisecond + r) / Millisecond == x
  {
  }

  /** The text handed to ffmpeg's `-ss` and `-to` options. */
  function FormatFFmpegTime(d: int): string
    requires InInt64(d)
  {
    var c := Decompose(RoundMs(d));
    FormatPadded(c.h, 2) + ":" + FormatPadded(c.m, 2) + ":" + FormatPadded(c.s, 2) + "." + FormatPadded(c.ms, 3)
  }

  predicate Numeral(s: string) {
    |s| > 0 && AllDigits(s)
  }

  /** Hours, minutes, seconds and milliseconds in milliseconds. */
  function ClockMillis(h: nat, m: nat, s: nat, ms: nat): nat {
    h * 3_600_000 + m * 60_000 + s * 1000 + ms
  }

  /** How ffmpeg's `[HH:]MM:SS[.m...]` syntax reads an `HH:MM:SS.mmm` time,
      in milliseconds; `None` for text of any other shape. */
  function ParseClock(s: string): (r: Option<nat>)
    ensures r.Some? ==> CountRune(s, ':') == 2
  {
    var parts := Split(s, ':');
    if |parts| != 3 then None
    else
      var sec := Split(parts[2], '.');
      if |sec| != 2 then None
      else if !(Numeral(parts[0]) && Numeral(parts[1]) && Numeral(sec[0]) && Numeral(sec[1])) then None
      else Some(ClockMillis(DigitsValue(parts[0]), DigitsValue(parts[1]), DigitsValue(sec[0]), DigitsValue(sec[1])))
  }

  lemma DigitsLack(s: string, c: char)
    requires AllDigits(s) && !IsDigit(c)
    ensures forall k | 0 <= k < |s| :: s[k] != c
  {
  }

  lemma SplitTwo(a: string, b: string, c: char)
    requires forall k | 0 <= k < |a| :: a[k] != c
    requires forall k | 0 <= k < |b| :: b[k] != c
    ensures Split(a + [c] + b, c) == [a, b]
  {
    SplitCons(a, b, c);
    SplitNone(b, c);
  }

  lemma SecondsText(ss: string, fs: string)
    requires Numeral(ss) && Numeral(fs)
    ensures forall k | 0 <= k < |ss + "." + fs| :: (ss + "." + fs)[k] != ':'
    ensures Split(ss + "." + fs, '.') == [ss, fs]
  {
    var t := ss + "." + fs;
    assert t == ss + ['.'] + fs;
    DigitsLack(ss, '.');
    DigitsLack(fs, '.');
    SplitTwo(ss, fs, '.');
    forall k | 0 <= k < |t| ensures t[k] != ':' {
      if k < |ss| { assert t[k] == ss[k]; }
      else if k > |ss| { assert t[k] == fs[k - |ss| - 1]; }
    }
  }

  /** Any four numerals laid out as `H:M:S.F` read back field by field. */
  lemma ParseClockOf(hs: string, ms: string, ss: string, fs: string)
    requires Numeral(hs) && Numeral(ms) && Numeral(ss) && Numeral(fs)
    ensures ParseClock(hs + ":" + ms + ":" + ss + "." + fs).Some?
    ensures ParseClock(hs + ":" + ms + ":" + ss + "." + fs).value
         == DigitsValue(hs) * 3_600_000 + DigitsValue(ms) * 60_000 + DigitsValue(ss) * 1000 + DigitsValue(fs)
  {
    var secText := ss + "." + fs;
    var text := hs + ":" + ms + ":" + ss + "." + fs;
    ClockSplit(hs, ms, ss, fs);
    ParseClockParts(text, hs, ms, secText, ss, fs);
  }

  lemma ClockSplit(hs: string, ms: string, ss: string, fs: string)
    requires Numeral(hs) && Numeral(ms) && Numeral(ss) && Numeral(fs)
    ensures Split(hs + ":" + ms + ":" + ss + "." + fs, ':') == [hs, ms, ss + "." + fs]
    ensures Split(ss + "." + fs, '.') == [ss, fs]
  {
    var secText := ss + "." + fs;
    SecondsText(ss, fs);
    DigitsLack(hs, ':');
    DigitsLack(ms, ':');
    assert hs + ":" + ms + ":" + ss + "." + fs == hs + [':'] + (ms + [':'] + secText);
    SplitCons(hs, ms + [':'] + secText, ':');
    SplitTwo(ms, secText, ':');
  }

  /** `ParseClock` on a text whose parts are known. */
  lemma ParseClockParts(text: string, hs: string, ms: string, sec: string, ss: string, fs: string)
    requires Numeral(hs) && Numeral(ms) && Numeral(ss) && Numeral(fs)
    requires Split(text, ':') == [hs, ms, sec] && Split(sec, '.') == [ss, fs]
    ensures ParseClock(text) == Some(ClockMillis(DigitsValue(hs), DigitsValue(ms), DigitsValue(ss), DigitsValue(fs)))
  {
    var parts := Split(text, ':');
    assert |parts| == 3 && parts[0] == hs && parts[1] == ms && parts[2] == sec;
    var secs := Split(parts[2], '.');
    assert |secs| == 2 && secs[0] == ss && secs[1] == fs;
  }

  /** For every non-negative duration the printed time denotes exactly the
      rounded duration in whole milliseconds: the fields read back as the
      hours, minutes, seconds and milliseconds of the decomposition. */
  lemma FormatReadsBack(d: int)
    requires InInt64(d) && d >= 0
    ensures ParseClock(FormatFFmpegTime(d)).Some?
    ensures ParseClock(FormatFFmpegTime(d)).value == RoundMs(d) / Millisecond
  {
    var c := Decompose(RoundMs(d));
    ParseClockOf(FormatPadded(c.h, 2), FormatPadded(c.m, 2), FormatPadded(c.s, 2), FormatPadded(c.ms, 3));
  }

  /** Whole-millisecond durations, such as cue-sheet offsets, are not moved
      by the rounding. */
  lemma RoundWholeMilliseconds(d: int)
    requires InInt64(d) && d % Millisecond == 0
    ensures RoundMs(d) == d
  {
    if d >= 0 {
      QuotOfNonNegative(d, Millisecond);
    } else {
      var q := Quot(d, Millisecond);
      assert Abs(d - Millisecond * q) < Millisecond;
      var k := d / Millisecond;
      assert d == Millisecond * k;
      QuotOfMultiple(k);
    }
  }

  lemma QuotOfMultiple(k: int)
    ensures Quot(k * Millisecond, Millisecond) == k
  {
  }

  /** A cue offset of `n` milliseconds is printed as `n` milliseconds. */
  lemma FormatWholeMilliseconds(n: nat)
    requires n * Millisecond <= MaxInt64
    ensures ParseClock(FormatFFmpegTime(n * Millisecond)).Some?
    ensures ParseClock(FormatFFmpegTime(n * Millisecond)).value == n
  {
    var d := n * Millisecond;
    assert d % Millisecond == 0;
    RoundWholeMilliseconds(d);
    FormatReadsBack(d);
    assert d / Millisecond == n;
  }
}
