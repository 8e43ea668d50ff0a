# A model of yleoer/music's album pipeline

yleoer/music watches a download directory for albums ripped as one WAV
image plus a cue sheet. When an album directory has been quiet long enough,
it is scanned:

- `Info.txt` or the directory name gives the artist, title and year;
- each cue sheet becomes a disc of tracks;
- every track is cut out of the image with ffmpeg into
  `<library>/<artist>/<title> (<year>)/[Disc N/]NN - <title>.flac`;
- the directory is recorded in a ledger so it is never processed twice.

The repository holds two copies of this pipeline:

- the original single-package program: `main.go`, `scanner.go`, `parser.go`, `processor.go` and `util.go`;
- its restructured successor: `cmd/music/main.go`, `pkg/scheduler`, `pkg/scanner`, `pkg/processor` and `pkg/util`.

Where the copies differ, the model carries a `Variant` and states how they differ or where they agree.

The model is written in Dafny as pure functions over immutable data:

- **Go text.** Strings are rune sequences. Bytes are used only where the source reads bytes: the text reader and UTF-8 validity.
- **Go's library.** The standard-library calls the core's logic depends on are modelled explicitly:
  - `strings.TrimSpace`, `Fields`, `Split`, `Join`, `ToLower` and `ReplaceAll`;
  - `strconv.Atoi`;
  - `%d` and `%02d`;
  - `filepath.Clean`, `Join`, `Dir`, `Base` and `Ext`;
  - `utf8.Valid`;
  - `bufio.Scanner` with `ScanLines`, including its 64 KiB token limit;
  - `time.Duration.Round`, with int64 wrap-around and truncating division.
- **Regular expressions.** Each pattern is written as an explicit leftmost-first search with RE2's greedy and lazy choices. A lemma then characterises the match the search selects.
- **Side effects.** File reads, `os.Stat`, directory listings, clocks, the ledger, the online metadata look-up and the OpenCC conversion are parameters. ffmpeg is never run: the model ends at the commands it would be given, and a run's outcome plays no part, because the source only logs it.

Modules, bottom up:

- `Wrappers`, `GoInt`, `Decimal`, `Runes`, `Utf8`, `Paths`, `Search`: Go's library and shared helpers.
- `TextReader`: reading `Info.txt` and cue sheets (BOM, UTF-8, GBK fallback).
- `CueTime`, `CueParser`, `CueSheetText`: `parseCueTime` and `parseCueFile`, with a writer of cue sheets as the parser's partner.
- `GuestSplit`, `DiscBuilder`: `processCueFile`, including the duet-credit split.
- `InfoText`, `DirName`, `Scanner`: `parseInfoContent`, `parseArtistTitleYearFromDir` and `ScanAlbumDirectory`.
- `Sanitize`, `FFmpegTime`, `FFmpegArgs`, `Processor`: file names, ffmpeg times and arguments, and `ProcessAlbum`.
- `Relevance`, `Stability`, `Scheduler`, `Watcher`: the file filter, the stability wait, the scan scheduler and the event routing.

Four behaviours of the code are easy to misread:

- `07:12:50` is 432666 ms, not 432667 ms, because the frame division truncates.
- A cue sheet without a `FILE` line is accepted. Its audio path is then the cue file's directory.
- `Song（与Guest合唱）` is not split, because the guard looks for a space before the bracket.
- An Info.txt whose `专辑名称：` ends its line takes the album title from the next line, because the `\s*` after the label also matches line ends.

One behaviour of the timer code is worth knowing:

- When a scan finds the files still changing, it re-triggers its directory from inside the timer callback.
- The callback then deletes the new registration, which leaves a live timer the registry no longer knows about.

`Scheduler.OrphanedRearm` proves this. The model keeps the behaviour as written.

## Model

| member | source | states |
|---|---|---|
| `GoInt.Wrap64` | parser.go:29 | the int64 value Go keeps of a mathematical result: in range, and congruent to it modulo 2^64 |
| `GoInt.Quot` | pkg/util/util.go:62-68 | Go's `/` truncates toward zero: what it leaves over is smaller than the divisor in magnitude and has the sign of the dividend |
| `GoInt.QuotRemainder` | pkg/util/util.go:62-68 | the quotient of the magnitudes, signed by the operands, leaves `Abs(a) % Abs(b)` signed like `a`: the truncating division |
| `GoInt.QuotOfNonNegative` | pkg/util/util.go:62-68 | on non-negative operands Go's and Dafny's division agree |
| `Decimal.Itoa` | pkg/processor/processor.go:97 | `%d` prints a non-negative number as digits without a leading zero that denote it, and a negative one as `-` followed by such digits for its magnitude |
| `Decimal.FormatPadded` | pkg/processor/processor.go:49 | `%02d` is at least the width long, and prints a non-negative number as decimal digits that denote it |
| `Decimal.Atoi` | parser.go:26-28 | `strconv.Atoi` with its error dropped always yields an int64 |
| `Decimal.DigitsAtoi` | parser.go:59 | every digit string whose value fits in int64 is read back as that value |
| `Decimal.AtoiItoa` | parser.go:59 | round trip: `Atoi` inverts `%d` on the whole int64 range |
| `Decimal.NegativeAtoi` | parser.go:26-28 | a minus sign and digits are read down to the int64 minimum |
| `Decimal.LeadingZerosValue` | parser.go:26-28 | leading zeros (as in cue positions `03`) do not change the value read |
| `Runes.TrimSpace` | pkg/util/util.go:54 | `strings.TrimSpace` returns the slice between a run of leading and a run of trailing white space, and starts and ends with non-space |
| `Runes.TrimSpaceOfTrimmed` | pkg/util/util.go:54 | text already without white space at its ends is returned unchanged |
| `Runes.Fields` | pkg/util/util.go:55 | `strings.Fields` returns non-empty words without white space |
| `Runes.FieldsKeepsText` | pkg/util/util.go:55 | the words `Fields` finds are exactly the non-space runes of the input, in order |
| `Runes.FieldsOfJoin` | pkg/util/util.go:55 | round trip: splitting words joined by single spaces gives the words back |
| `Runes.JoinWordsSingleSpaced` | pkg/util/util.go:55 | joining words with single spaces leaves no space at either end and none doubled |
| `Runes.Join` | pkg/util/util.go:55 | `strings.Join`; no contract of its own: `Runes.JoinSplit` and `Runes.SplitJoin` state that it undoes and is undone by `Split` on one rune, and `Runes.FieldsOfJoin` that `Fields` reads back words joined by single spaces |
| `Runes.HasSuffix` | scanner.go:44 | `strings.HasSuffix`; no contract of its own: `Runes.HasSuffixIff` characterises it |
| `Runes.HasSuffixIff` | scanner.go:44 | a text ends in a suffix exactly when it is some text followed by that suffix |
| `Runes.Contains` | parser.go:119 | `strings.Contains`; no contract of its own: `Runes.ContainsIff` characterises it |
| `Runes.ContainsIff` | parser.go:119 | a text contains a piece exactly when it is some text, the piece, then more text |
| `Runes.Split` | parser.go:22 | `strings.Split` on one rune: n separators give n+1 parts |
| `Runes.JoinSplit` | parser.go:22 | joining the parts of a split with the separator gives the input back |
| `Runes.SplitLacks` | parser.go:22 | no part of a split holds the separator |
| `Runes.SplitJoin` | parser.go:22 | splitting undoes joining when no part holds the separator |
| `Runes.ToLower` | pkg/util/util.go:83-84 | `strings.ToLower` keeps the length and lowers every rune whose lower case is ASCII |
| `Utf8.Valid` | pkg/util/util.go:29 | `utf8.Valid`; no contract of its own: `Utf8.DecodeEncode` shows every encoded text valid and `Utf8.EncodeRuneReads` shows each encoded rune one well-formed sequence |
| `Utf8.Decode` | pkg/util/util.go:29-30 | `string(data)` read back as runes; no contract of its own: `Utf8.DecodeEncode` states it inverts the UTF-8 encoding |
| `Utf8.Encode` | pkg/util/util.go:29-31 | a rune string written as UTF-8; no contract of its own: `Utf8.DecodeEncode`, `Utf8.EncodeRuneReads`, `Utf8.EncodeAppend` and `Utf8.EncodeLength` state that it decodes back, rune by rune, piece by piece, in at most four bytes a rune |
| `Utf8.DecodeEncode` | pkg/util/util.go:29-31 | every rune string is written as valid UTF-8 that decodes back to the same runes |
| `Utf8.EncodeAppend` | pkg/util/util.go:29-31 | the encoding of two texts one after the other is their encodings one after the other |
| `Utf8.EncodeLength` | pkg/util/util.go:29-31 | a text takes at most four bytes a rune |
| `Utf8.EncodeNoNewline` | parser.go:50-51 | a text without a newline rune encodes to bytes without a newline byte |
| `Utf8.EncodeRuneReads` | pkg/util/util.go:29-31 | an encoded rune is one well-formed sequence of its own length, whatever follows, and reads back as itself |
| `Paths.Clean` | pkg/scanner/scanner.go:60 | `filepath.Clean`; no contract of its own: `Paths.CleanIsNormal`, `Paths.CleanIdempotent` and `Paths.CleanTrailingSlash` state that it gives a non-empty normal path, is its own fixed point and ignores a trailing separator |
| `Paths.JoinPath` | pkg/processor/processor.go:33-34 | `filepath.Join`; no contract of its own: `Paths.JoinIsClean` and `Paths.DirBaseOfJoin` state that a clean directory joined with an entry name is clean and splits back into the two |
| `Paths.Dir` | pkg/scanner/scanner.go:60 | `filepath.Dir`; no contract of its own: `Paths.DirBaseOfJoin` and `Paths.DirOfGrandchild` state which directory a joined path has as parent |
| `Paths.Ext` | pkg/util/util.go:83 | `filepath.Ext`; no contract of its own: `Paths.ExtShape` and `Paths.ExtOfJoin` state its shape and that a join keeps the name's extension |
| `Paths.Base` | pkg/scanner/scanner.go:43 | `filepath.Base` is never empty, and is either "/" or a name without a separator |
| `Paths.CleanIsNormal` | pkg/scanner/scanner.go:60 | `filepath.Clean` yields a non-empty path whose elements hold no empty, "." or misplaced ".." element |
| `Paths.CleanIdempotent` | pkg/scanner/scanner.go:60 | a clean path is its own clean form |
| `Paths.RenderReadsBack` | pkg/scanner/scanner.go:60 | reading a rendered normal element stack gives the stack and its rootedness back |
| `Paths.CleanTrailingSlash` | pkg/scanner/scanner.go:60 | a trailing separator does not change the clean form |
| `Paths.DirBaseOfJoin` | pkg/processor/processor.go:49-50 | `Dir` and `Base` take apart what `Join` builds from a clean directory and an entry name |
| `Paths.JoinIsClean` | pkg/processor/processor.go:33-34 | `Join` of a non-empty directory and a name is clean and not empty |
| `Paths.DirOfGrandchild` | cmd/music/main.go:93-99 | a path two levels below a clean directory does not have it as parent |
| `Paths.ExtShape` | pkg/util/util.go:83 | `filepath.Ext` is "" exactly when the last element has no '.', and otherwise a suffix starting at its only '.' |
| `Paths.ExtOfJoin` | main.go:295-310 | joining a clean directory with an entry name keeps the name's extension |
| `TextReader.ReadText` | pkg/util/util.go:19-40 | a read error gives an error; a BOM is stripped; valid UTF-8 is kept as it is; an error for a file that was read means it had no mark, was not valid UTF-8 and the GBK decoder failed |
| `TextReader.ReadRunes` | pkg/util/util.go:19-40 | the decoded text is available exactly when the read succeeded |
| `TextReader.EncodedBom` | pkg/util/util.go:25-27 | encoded text starts with the byte order mark exactly when its first rune is U+FEFF |
| `TextReader.ReadPlainUtf8` | pkg/util/util.go:29-31 | UTF-8 text without a mark reads back unchanged, without consulting the GBK decoder |
| `TextReader.ReadBomUtf8` | pkg/util/util.go:25-27 | UTF-8 text behind a mark reads back without the mark, without consulting the GBK decoder |
| `TextReader.GbkOnlyForInvalid` | util.go:39-48 | the GBK decoder's answer matters only for bytes with no mark that are not valid UTF-8 |
| `CueTime.CueMillis` | parser.go:29 | the milliseconds of a cue position computed in int64 stay in range |
| `CueTime.ParseCueTime` | parser.go:21-31 | a position is read exactly when it has three `:`-separated parts, and the result is an int64 |
| `CueTime.CueMillisExact` | parser.go:29-30 | when the exact position fits, no int64 step wraps and the result is minutes, seconds and frames (rounded down to whole milliseconds) in nanoseconds |
| `CueTime.ParseCueTimeOf` | parser.go:21-31 | any three numerals separated by colons are read as that position |
| `CueTime.CueTimeRoundTrip` | parser.go:21-31 | a position written as `%02d:%02d:%02d` reads back as its minutes, seconds and frames |
| `CueTime.Example071250` | parser.go:29 | "07:12:50" is 432666 ms: the frame division truncates |
| `CueTime.Example033000` | parser.go:29-30 | "03:30:00" is 210000 ms, three and a half minutes |
| `CueTime.MalformedPartIsZero` | parser.go:26-28 | a part that is not a number counts as 0 instead of being rejected |
| `CueTime.TwoPartsRejected` | parser.go:23-24 | a position with two parts is an error |
| `CueParser.DropCR` | parser.go:50-52 | `bufio.ScanLines` drops one carriage return before each line end; no contract of its own: `CueParser.DropCRInverse` characterises it |
| `CueParser.DropCRInverse` | parser.go:50-52 | one carriage return at the end is dropped, and a line without one is left alone |
| `CueParser.Lines` | parser.go:50-52 | the lines of `bufio.Scanner` hold no newline; there are none exactly for empty text; joined by newlines they give the text back, less its final newline when it has one |
| `CueParser.DigitRun` | parser.go:45 | `\d+` takes the maximal run of ASCII digits |
| `CueParser.QuotedAt` | parser.go:44 | `KEYWORD "([^"]+)"` matches at i exactly when the keyword is there case-insensitively and a non-empty quote-free text is followed by a quote; the group is that text |
| `CueParser.TrackAt` | parser.go:45 | a TRACK match has the keyword, a non-empty digit group and ` AUDIO` after it |
| `CueParser.TrackAtComplete` | parser.go:45 | every way of reading `TRACK <digits> AUDIO` at a position gives the same group |
| `CueParser.IndexAt` | parser.go:47 | an INDEX 01 match at i exists exactly when the keyword is there and is followed by a `dd:dd:dd` group, and the group is those eight runes |
| `CueParser.Leftmost` | parser.go:53 | `FindStringSubmatch` takes the leftmost start at which the pattern matches; none before it matches |
| `CueParser.Submatch` | parser.go:53 | a group is found exactly when the pattern matches somewhere, and it is the group of the leftmost match |
| `CueParser.Step` | parser.go:53-68 | a TRACK line closes the open track and opens a new one; other lines never change the closed tracks, and a track once open stays open |
| `CueParser.LastOf` | parser.go:62-66 | the position of the last line of a kind, with none of that kind after it |
| `CueParser.RunFinish` | parser.go:51-72 | from any state, the loop plus the final append gives the closed tracks, the open track settled by its segment, and the reference tracks; the audio file is the last FILE line's |
| `CueParser.StepTracks` | parser.go:53-68 | one loop step moves a line from the reference reading into the state without changing the result |
| `CueParser.RunTracks` | parser.go:51-72 | from any state, the loop plus the final append gives the closed tracks, the open track settled by its segment, and the reference tracks |
| `CueParser.RunWav` | parser.go:53-54 | the audio file after the loop is the last FILE line's, or the state's own when there is none |
| `CueParser.RunMatchesReference` | parser.go:51-72 | from the initial state the tracks are the reference reading and the audio file is the last FILE line's |
| `CueParser.RefTracksCount` | parser.go:55-60 | there is one track per TRACK line |
| `CueParser.ParseCue` | parser.go:49-81 | a line of 65536 bytes or more fails with `bufio.Scanner`'s "token too long"; otherwise a sheet is accepted exactly when it has a TRACK line, and its tracks and audio file are the reference reading of its lines |
| `CueParser.ScanSheet` | parser.go:50-81 | the scan loop and the zero-track check: a sheet is accepted exactly when it has a TRACK line; its tracks and audio file are the reference reading of its lines |
| `CueParser.ParseCueReads` | parser.go:49-81 | text whose lines all fit the scanner's buffer and include a TRACK line parses to the reference reading of its lines |
| `CueParser.TooLongLines` | parser.go:74-76 | the scanner fails on a text exactly when one of its lines is 65536 bytes or longer in UTF-8 |
| `CueParser.TooLongSplit` | parser.go:74-76 | a run of 65536 bytes without a newline lies on one side of a newline byte |
| `CueParser.ParseCueFile` | parser.go:35-39 | a read or decode error rejects the sheet; an over-long line of the decoded bytes fails with "token too long"; otherwise the decoded text is scanned |
| `CueParser.ParseCueFileOfText` | parser.go:35-39 | a file that reads as the UTF-8 encoding of a text parses as that text |
| `CueParser.RefTracksNumbers` | parser.go:59-60 | the tracks carry the numbers of the TRACK lines, in file order |
| `CueParser.RefTracksSkipsPreamble` | parser.go:61 | lines before the first TRACK line contribute no track and change none |
| `CueParser.LaterTitleWins` | parser.go:62-63 | of two TITLE lines in a track's segment the later one wins |
| `CueParser.NoMatchWithoutFirstLetter` | parser.go:44-47 | a pattern cannot match a line without its first letter in either case |
| `CueParser.QuotedGroup` | parser.go:44 | the quoted group is exactly the text up to the next quote |
| `CueParser.Classify` | parser.go:53-66 | a line's kind, tested in the source's order FILE, TRACK, TITLE, INDEX; no contract of its own: `CueParser.ClassifyFileLine`, `CueParser.ClassifyTrackLine`, `CueParser.ClassifyTitleLine` and `CueParser.ClassifyIndexLine` state what each kind of line gives |
| `CueParser.Run` | parser.go:51-69 | the scan loop over the classified lines; no contract of its own: `CueParser.RunFinish`, `CueParser.RunWav` and `CueParser.RunMatchesReference` state the tracks and audio file it leaves |
| `CueParser.ClassifyTrackLine` | parser.go:55-60 | `TRACK d AUDIO` opens track `Atoi(d)` |
| `CueParser.ClassifyFileLine` | parser.go:53-54 | `FILE "name"...` sets the audio file to name |
| `CueParser.ClassifyTitleLine` | parser.go:62-63 | a TITLE line with quote-free, digit-free text is neither a FILE nor a TRACK line and gives its text |
| `CueParser.ClassifyIndexLine` | parser.go:64-66 | an `INDEX 01 mm:ss:ff` line sets the start to the position it spells |
| `CueParser.IndexStartValue` | parser.go:64-66 | the start is minutes, seconds and whole-millisecond frames of the group, in nanoseconds |
| `CueSheetText.ParseWrittenSheet` | parser.go:35-82 | a sheet written in the usual layout, with no line too long for the scanner, reads back as its audio file name and one track per entry, in order, with its number, title and position |
| `CueSheetText.SheetLinesFit` | parser.go:49-51 | a sheet whose names, titles and numbers are each under 16000 runes has no line the scanner finds too long |
| `CueSheetText.LinesOfJoin` | parser.go:50-52 | lines without newlines, the last not empty, joined by newlines are read back as those lines |
| `CueSheetText.SheetClassified` | parser.go:53-68 | the written lines classify as FILE, TITLE, then TRACK, TITLE, INDEX per entry, and a TRACK line is present |
| `CueSheetText.SheetReference` | parser.go:53-72 | the reference reading of such lines is the entries' tracks and the FILE line's name; the album TITLE names no track |
| `CueSheetText.ThreeTrackSheet` | parser.go:35-82 | a three-track sheet reads back as three tracks, the album title ignored |
| `GuestSplit.ConnectorEnd` | parser.go:121 | `[ （](?:与\|feat\.)` matches at p exactly when p holds a space or full-width bracket followed by 与 or `feat.` |
| `GuestSplit.CloseFrom` | parser.go:121 | the greedy second group ends at the last reachable closing bracket |
| `GuestSplit.GroupFrom` | parser.go:121 | the greedy first group ends at the last position that admits the rest of the pattern |
| `GuestSplit.FindFrom` | parser.go:121-122 | the search returns the leftmost match from a start on, or there is none |
| `GuestSplit.Find` | parser.go:121-122 | `FindStringSubmatch` of the duet pattern: the leftmost match with greedy groups, or no match anywhere |
| `GuestSplit.SplitGuestIff` | parser.go:119-128 | the artist changes exactly when the guard holds and the pattern matches; otherwise title and artist are kept |
| `GuestSplit.SplitGuest` | parser.go:119-128 | the duet-credit split; no contract of its own: `GuestSplit.SplitGuestIff` states when the artist changes and that the title and artist are kept otherwise |
| `GuestSplit.MatchStartsAtFront` | parser.go:121-123 | on a title without newlines every match starts at the first rune |
| `GuestSplit.UnspacedNotSplit` | parser.go:119 | a title without a space fails the guard and keeps its title and the album artist |
| `GuestSplit.DuetFind` | parser.go:121-122 | in "A （与B）" the groups are "A " and B |
| `GuestSplit.FullWidthDuet` | parser.go:119-125 | "A （与B）" becomes title A and artist "<album artist>, B" |
| `GuestSplit.AsciiDuetNotSplit` | parser.go:119-122 | "A (与B)" passes the guard but does not match, so the title is kept whole |
| `DiscBuilder.DiscTrack` | parser.go:107-128 | a disc track copies number and start, takes album, artist and year from the album, and gets its title and artist from the guest split |
| `DiscBuilder.DiscTracks` | parser.go:107-140 | one track per cue track in order; each track ends where the next starts, and the last is open-ended |
| `DiscBuilder.ProcessCueFile` | parser.go:86-143 | a parse error is returned; a missing audio file is an error naming it; otherwise the disc has the given number, the cue path, the joined audio path and the tracks |
| `DiscBuilder.WavPathOf` | parser.go:94 | the audio path `Join(Dir(cuePath), file)`; no contract of its own: `DiscBuilder.WavBesideCue` and `DiscBuilder.NoFileLineNamesDirectory` state where it points |
| `DiscBuilder.WavBesideCue` | parser.go:94 | a plain `FILE` name names a file in the cue file's own directory |
| `DiscBuilder.NoFileLineNamesDirectory` | parser.go:93-95 | a sheet without a FILE line names the cue file's directory as its audio file |
| `InfoText.LineEnd` | scanner.go:69 | `.+` stops at the first newline or the end of the text |
| `InfoText.TitleMatch` | scanner.go:69-72 | a title is found exactly when some label is followed by white space, line ends included, and then a rune that is not a newline; the title is the trimmed rest of that rune's line, for the first such label and the longest such white space |
| `InfoText.TitleOnNextLine` | scanner.go:69-72 | a label that ends its line takes the title from the next line |
| `InfoText.YearMatch` | scanner.go:75-78 | the year is found exactly when a dated label is present; it is the four digits of the first one |
| `InfoText.ArtistMatch` | scanner.go:81-83 | the artist group ends at the last 《 of the first line, and exists exactly when there is one |
| `InfoText.ParseInfo` | pkg/scanner/scanner.go:79-104 | missing labels leave title and year as they were; the artist is the trimmed group, or "Unknown Artist" without one; nothing else changes |
| `InfoText.TitleAfterLabel` | pkg/scanner/scanner.go:83-86 | the title is the trimmed rest of the line after the first label |
| `InfoText.YearAfterLabel` | pkg/scanner/scanner.go:89-92 | the year is the four digits after the first dated label |
| `InfoText.ArtistBeforeBracket` | pkg/scanner/scanner.go:95-97 | the artist is what precedes the last 《 of the first line |
| `InfoText.NoBracketNoArtist` | pkg/scanner/scanner.go:98-102 | a first line without 《 gives no artist |
| `InfoText.ParseInfoOfLayout` | pkg/scanner/scanner.go:79-104 | an Info.txt in the expected layout sets all three fields |
| `DirName.YearPart` | pkg/scanner/scanner.go:110 | `\s*\(?(\d{4})\)?` captures four ASCII digits |
| `DirName.TailOf` | pkg/scanner/scanner.go:110 | the optional year and marker tail matches the empty text and the marker alone; a year it captures is four digits |
| `DirName.SecondEnd` | pkg/scanner/scanner.go:110 | the lazy title group takes its shortest end that the tail can complete |
| `DirName.SecondStart` | pkg/scanner/scanner.go:110 | the greedy `\s*` before the title is tried from its longest extent down |
| `DirName.FullFrom` | pkg/scanner/scanner.go:110-111 | the lazy artist group is tried from the shortest end up; the first end that admits a match wins |
| `DirName.FullMatch` | pkg/scanner/scanner.go:110-111 | the full pattern's match is the first candidate in RE2's order, or no candidate exists |
| `DirName.SimpleMatch` | pkg/scanner/scanner.go:121-122 | the simple pattern's lazy group takes its shortest end that completes the match |
| `DirName.FullMatchIs` | pkg/scanner/scanner.go:110-111 | a candidate with the shortest artist group, then the latest title start, then the shortest title is the match selected |
| `DirName.ParseDirName` | pkg/scanner/scanner.go:105-133 | the directory-name fallback; no contract of its own: `DirName.YearShape`, `DirName.NoDashUnknownArtist`, `DirName.SimpleMatchesUnlessEmpty` and `DirName.DashFields` state the year's shape, the unknown artist without a dash, when the last resort is reached and how a dashed name reads |
| `DirName.YearShape` | pkg/scanner/scanner.go:105-133 | the year is either absent or four ASCII digits |
| `DirName.NoDashUnknownArtist` | pkg/scanner/scanner.go:120-127 | a name without a dash never matches the full pattern, so the artist is "Unknown Artist" |
| `DirName.SimpleMatchesUnlessEmpty` | pkg/scanner/scanner.go:121-132 | the simple pattern matches every non-empty name without a newline, so the last resort is reached only for the empty name |
| `DirName.DashFields` | pkg/scanner/scanner.go:110-117 | "<artist> - <title><suffix>" reads as the artist, the title and the suffix's year |
| `DirName.YearInBrackets` | pkg/scanner/scanner.go:110-117 | "Artist - Title (1999) WAV+CUE" reads as artist, title and year |
| `DirName.MarkerWithoutYear` | pkg/scanner/scanner.go:106-117 | "劉德華 - 笨小孩 1993-1998 國語精選 WAV+CUE" keeps the inner digits in the title and has no year |
| `DirName.ExampleWithoutYear` | pkg/scanner/scanner.go:106-107 | the example name in the source's comment reads as 劉德華, "笨小孩 1993-1998 國語精選" and no year |
| `Scanner.Header` | pkg/scanner/scanner.go:36-44 | with a readable Info.txt the header is that file parsed; otherwise it comes from the directory name, with no info text |
| `Scanner.Prepared` | pkg/scanner/scanner.go:45-51 | artist and title are converted, and the cover is set to folder.jpg exactly when it can be stat'ed |
| `Scanner.Picks` | pkg/scanner/scanner.go:60 | the walk callback's test; no contract of its own: `Scanner.WalkPicksOnly` and `Scanner.UncleanRootPicksNothing` state which entries it admits |
| `Scanner.Process` | pkg/scanner/scanner.go:62 | `ProcessCueFile` on a picked entry gives a disc with the current number and the entry's path |
| `Scanner.Visit` | pkg/scanner/scanner.go:54-70 | an entry adds a disc exactly when it is picked and its sheet is processed without error, with the current number and its path |
| `Scanner.Walk` | pkg/scanner/scanner.go:53-70 | the walk keeps at most one disc per entry; `Scanner.WalkNumbers`, `Scanner.WalkErrors` and `Scanner.WalkStopsAt` state its numbering and its error |
| `Scanner.WalkNumbers` | pkg/scanner/scanner.go:53-68 | the kept discs are numbered consecutively in the order found; a failing sheet uses up no number |
| `Scanner.WalkErrors` | pkg/scanner/scanner.go:54-57 | the walk reports an error exactly when one of its steps failed |
| `Scanner.WalkStopsAt` | pkg/scanner/scanner.go:54-57 | a walk error ends the walk: nothing after it is visited and its message is returned |
| `Scanner.SortDiscs` | pkg/scanner/scanner.go:72-74 | the discs come out in ascending number and as a permutation of the input |
| `Scanner.SortKeepsNumbered` | pkg/scanner/scanner.go:72-74 | the sort never moves a disc, because the walk numbers them in the order found |
| `Scanner.ScanAlbum` | pkg/scanner/scanner.go:34-76 | the result is the prepared album with the walk's discs and the walk's error |
| `Scanner.WalkPicksOnly` | pkg/scanner/scanner.go:60 | each disc comes from a ".cue" file, lying directly in the root for the package scanner |
| `Scanner.UncleanRootPicksNothing` | pkg/scanner/scanner.go:60 | for a root that is not clean ("album/") the package scanner picks no cue file |
| `Scanner.VariantsAgree` | scanner.go:40-55 | the root scanner also takes cue files in subdirectories; when there are none, the two scanners walk alike |
| `Sanitize.SanitizeFileName` | pkg/util/util.go:43-57 | `SanitizeFileName`; no contract of its own: `Sanitize.SanitizeFileNameClean`, `Sanitize.SanitizeFileNameKeepsText` and `Sanitize.SanitizeFileNameIdempotent` state that it removes unsafe runes and extra spaces, keeps every other rune in order, and is idempotent |
| `Sanitize.SanitizeFileNameClean` | pkg/util/util.go:43-57 | the sanitised name holds no unsafe rune and is single-spaced |
| `Sanitize.SanitizeFileNameIdempotent` | pkg/util/util.go:43-57 | sanitising twice changes nothing more than sanitising once |
| `Sanitize.SanitizeFileNameKeepsText` | pkg/util/util.go:43-57 | sanitising keeps every safe, non-space rune of the name, in order |
| `Sanitize.StripUnsafeOfSafe` | pkg/util/util.go:45-52 | the replacement stage leaves a name without unsafe runes unchanged |
| `Sanitize.ReplaceRuneLacks` | pkg/util/util.go:45-51 | after `ReplaceAll` a rune the replacement lacks is absent if it was the pattern or was absent before |
| `Sanitize.SanitizeDashes` | util.go:52-55 | every rune of the class `[\\/:*?"<>\|]` becomes `-` and every other rune is kept in place, so no unsafe rune remains |
| `Sanitize.SanitizeDashesProperties` | util.go:52-55 | the dash sanitiser is idempotent and leaves a name without unsafe runes unchanged |
| `FFmpegTime.RoundMs` | pkg/util/util.go:61 | `Round(time.Millisecond)` gives the nearest multiple of a millisecond (halves away from zero), keeps the sign, and saturates at the int64 bounds |
| `FFmpegTime.Decompose` | pkg/util/util.go:62-68 | minutes and seconds are below 60 and milliseconds below 1000; for a non-negative duration the fields add up to its whole milliseconds |
| `FFmpegTime.ParseClockOf` | pkg/util/util.go:69 | four numerals laid out as `H:M:S.F` read back field by field |
| `FFmpegTime.FormatFFmpegTime` | pkg/util/util.go:60-70 | `FormatDurationToFFmpegTime`; no contract of its own: `FFmpegTime.FormatReadsBack` states that for a non-negative duration it denotes the rounded duration in whole milliseconds |
| `FFmpegTime.FormatReadsBack` | pkg/util/util.go:60-70 | for every non-negative duration the printed time denotes exactly the rounded duration in whole milliseconds |
| `FFmpegTime.RoundWholeMilliseconds` | pkg/util/util.go:61 | whole-millisecond durations are not moved by the rounding |
| `FFmpegTime.FormatWholeMilliseconds` | pkg/util/util.go:60-70 | a cue offset of n milliseconds is printed as n milliseconds |
| `FFmpegArgs.AddMetadata` | pkg/processor/processor.go:104-108 | `addMetadata`; no contract of its own: `FFmpegArgs.MetadataPairs` states that the seven calls append the pairs of the tags with values |
| `FFmpegArgs.Tags` | pkg/processor/processor.go:92-100 | at most one tag per candidate; `FFmpegArgs.TagsExactly` states a tag is written exactly for the candidates with a value |
| `FFmpegArgs.ReadArgs` | pkg/processor/processor.go:71-103 | the reader of `buildFFmpegCommand`'s layout, partner of `BuildArgs`; no contract of its own: `FFmpegArgs.BuildArgs` states that it reads every built list back |
| `FFmpegArgs.BuildArgs` | pkg/processor/processor.go:71-103 | the argument list reads back as the start, the end exactly when positive, the input, the cover exactly when set, the tags with values, and the output |
| `FFmpegArgs.ReadPairs` | pkg/processor/processor.go:104-108 | the `-metadata` pairs read back as the tags |
| `FFmpegArgs.MetadataPairs` | pkg/processor/processor.go:92-100 | the seven `addMetadata` calls append the pairs of the tags with values, in order |
| `FFmpegArgs.StepwiseHead` | pkg/processor/processor.go:72-91 | the appends before the tags build the fixed options, with `-to` and the cover options only when present |
| `FFmpegArgs.TagsExactly` | pkg/processor/processor.go:104-108 | a tag is written exactly for the candidates with a value |
| `FFmpegArgs.TrackTagAlways` | pkg/processor/processor.go:97 | the track number tag is always written |
| `Processor.AlbumDir` | pkg/processor/processor.go:30-34 | no contract of its own: `Processor.AlbumDirPlacement` states that it is "<title> (<year>)" inside "<artist>" inside the target |
| `Processor.DiscDir` | pkg/processor/processor.go:39-41 | no contract of its own: `Processor.DiscDirPlacement` states that it is "Disc N" in the album directory with several discs, and the album directory otherwise |
| `Processor.TrackFileName` | pkg/processor/processor.go:49 | no contract of its own: `Processor.TrackFileNameIsEntry` and `Processor.TrackOutputPlacement` state that it is a plain entry name in its disc's directory |
| `Processor.Fetched` | processor.go:43 | the metadata look-up changes only the online id and the lyrics |
| `Processor.TrackRun` | pkg/processor/processor.go:47-51 | a run's arguments read back as exactly this request: cut the disc's audio into `<dir>/NN - <title>.flac` from the track's start, with its end exactly when positive, the album cover exactly when set, and the track's tags, which in the root processor carry the looked-up lyrics and online id |
| `Processor.TrackRuns` | pkg/processor/processor.go:46-65 | one run per track of the disc, the k-th for track k, in order |
| `Processor.TrackRunLayout` | pkg/processor/processor.go:38-51 | the run for a track reads the disc's audio file and writes `NN - <title>.flac` into the disc's directory, which is "Disc N" in the album directory with several discs and the album directory otherwise |
| `Processor.ProcessAlbum` | pkg/processor/processor.go:29-68 | processing fails exactly when the album directory or, with several discs, a disc directory cannot be created; otherwise the runs are, disc after disc, each disc's track runs in order into `DiscDir(AlbumDir(target, a), a, d)`, one per track; an album directory that cannot be created fails naming it, with no runs |
| `Processor.ProcessAlbumDiscFails` | pkg/processor/processor.go:38-45 | with several discs, when disc i is the first whose directory cannot be created, processing fails naming that directory after exactly the runs of discs 0 to i - 1 |
| `Processor.DiscRunsFirstFail` | pkg/processor/processor.go:38-45 | the disc loop stops at the first disc directory that cannot be created, naming it, after exactly the runs of the discs before it |
| `Processor.LoopFirstFailDir` | pkg/processor/processor.go:38-45 | for any placement of the discs, the loop names the first directory that cannot be created |
| `Processor.LoopFirstFailRuns` | pkg/processor/processor.go:38-66 | for any placement of the discs, the runs made before that failure are those of the discs before it, in order |
| `Processor.LoopParts` | pkg/processor/processor.go:38-66 | one part per disc, holding that disc's track runs into the directory the placement gives it |
| `Processor.LoopPartsCons` | pkg/processor/processor.go:38-66 | the runs of several discs are the first disc's, then the rest's |
| `Processor.AlbumRunsCons` | pkg/processor/processor.go:38-66 | the same for the discs in their own directories |
| `Processor.DiscRunsFail` | pkg/processor/processor.go:38-45 | the disc loop fails exactly when a disc directory it needs cannot be created |
| `Processor.DiscRunsCount` | pkg/processor/processor.go:38-66 | a disc loop that does not fail makes one run per track |
| `Processor.DiscRuns` | pkg/processor/processor.go:38-66 | the disc loop; no contract of its own: `Processor.DiscRunsFail`, `Processor.DiscRunsCount`, `Processor.DiscRunsAll` and `Processor.DiscRunsFirstFail` state when it fails and which runs it makes |
| `Processor.DiscLoop` | pkg/processor/processor.go:38-66 | the disc loop for any placement of the discs; no contract of its own: `Processor.LoopFirstFailDir` and `Processor.LoopFirstFailRuns` state where it stops and which runs it made |
| `Processor.DiscRunsAll` | pkg/processor/processor.go:38-66 | a disc loop that does not fail makes each disc's track runs, disc after disc |
| `Processor.DiscParts` | pkg/processor/processor.go:38-66 | one part per disc, holding that disc's track runs into its own directory |
| `Processor.FlattenAt` | pkg/processor/processor.go:38-66 | element k of part i sits at the part's offset plus k once the parts are laid end to end |
| `Processor.OffsetCount` | pkg/processor/processor.go:38-66 | with one run per track, disc i's part starts after the tracks of the discs before it |
| `Processor.PartAt` | pkg/processor/processor.go:38-66 | track k of disc i is run number `TrackCount(discs[..i]) + k` |
| `Processor.TrackFileNameIsEntry` | pkg/processor/processor.go:49 | a track's file name is a plain directory entry name |
| `Processor.TrackOutputPlacement` | pkg/processor/processor.go:50 | each track file lies directly in its disc's directory, under its own name |
| `Processor.DiscDirPlacement` | pkg/processor/processor.go:39-41 | with several discs, disc N goes to "Disc N" in the album directory; with one, into the album directory |
| `Processor.AlbumDirPlacement` | pkg/processor/processor.go:30-34 | the album directory is "<title> (<year>)" inside "<artist>" inside the target, names sanitised |
| `Processor.FetchAll` | pkg/scheduler/scheduler.go:126-130 | the look-up of every track changes nothing but the tracks' online fields |
| `Processor.ProcessorsAgree` | processor.go:16-68 | the root processor, looking tracks up as it goes, makes the same runs as the package processor given tracks looked up first |
| `Relevance.IsAudioFile` | main.go:377-385 | `isAudioFile`; no contract of its own: a predicate on the lower-cased extension, used by `Relevance.PollRelevantAgrees` |
| `Relevance.IsRelevantMusicFile` | pkg/util/util.go:82-97 | `IsRelevantMusicFile`; no contract of its own: `Relevance.PollRelevantAgrees` states that main.go's inline test agrees with it on a clean directory's entries |
| `Relevance.PollRelevant` | main.go:310-315 | main.go's inline test; no contract of its own: `Relevance.PollRelevantAgrees` states that it agrees with `IsRelevantMusicFile` |
| `Relevance.PollRelevantAgrees` | main.go:310-315 | main.go's inline test and `IsRelevantMusicFile` agree on every entry of a clean directory |
| `Relevance.SuffixOfExt` | main.go:313-315 | a suffix test on an extension is an equality test when the suffix is a dot followed by no other dot |
| `Stability.AllSettledCons` | pkg/scheduler/scheduler.go:178-200 | a listing is settled exactly when its first entry is settled or untracked and the rest of it is settled |
| `Stability.Step` | pkg/scheduler/scheduler.go:178-200 | a tracked file is recorded and marks the poll relevant; the poll stays quiet exactly when the file is settled; the file's quiet time is kept when it was recorded unchanged with a quiet time, and is reset to now otherwise |
| `Stability.Entries` | pkg/scheduler/scheduler.go:161-201 | the entry loop; no contract of its own: `Stability.EntriesRelevant`, `Stability.EntriesQuiet` and `Stability.PollRecords` state its two flags and what it records |
| `Stability.PollOnce` | pkg/scheduler/scheduler.go:158-220 | one poll finds the directory stable exactly when no entry failed and every relevant file is unchanged and quiet long enough; no relevant file means stable |
| `Stability.EntriesRelevant` | pkg/scheduler/scheduler.go:161-201 | `hasRelevantFiles` ends true exactly when an entry failed or a relevant file was listed |
| `Stability.EntriesQuiet` | pkg/scheduler/scheduler.go:161-201 | `allRelevantFilesQuiet` ends true exactly when no entry failed and every listed file was settled, and then no quiet time changed |
| `Stability.EntriesCurrent` | pkg/scheduler/scheduler.go:207-216 | while the poll stays quiet, the final `allCurrentlyQuiet` loop finds nothing new |
| `Stability.PollRecords` | pkg/scheduler/scheduler.go:180-202 | a poll without a failing entry remembers exactly the files it listed |
| `Stability.ChangedFileResets` | pkg/scheduler/scheduler.go:181-190 | a new or changed file gets the poll's instant as its quiet time, and the poll is not stable |
| `Stability.IgnoredInPoll` | pkg/scheduler/scheduler.go:163-178 | directories, vanished files and irrelevant files make no difference to a poll |
| `Stability.PollsAgree` | main.go:294-344 | on a clean directory of plain names the two copies' polls agree |
| `Stability.Wait` | pkg/scheduler/scheduler.go:145-225 | the wait returns true only after a poll that came before the deadline with a listing |
| `Stability.WaitDeadline` | pkg/scheduler/scheduler.go:150 | the first poll at or after the deadline decides the wait; later ones are never looked at |
| `Stability.ReadFailure` | main.go:284-289 | a failed `ReadDir` ends main.go's wait with false; pkg/scheduler's wait carries on as if it had not happened |
| `Stability.FirstPollWaits` | pkg/scheduler/scheduler.go:181-190 | the first poll never ends the wait when it lists a relevant file |
| `Scheduler.Trigger` | pkg/scheduler/scheduler.go:78-95 | the directory gets a fresh live timer; its old one is stopped, other registrations and live timers are kept, and the registry stays valid with no orphan |
| `Scheduler.Marked` | pkg/scheduler/scheduler.go:137 | marking adds the directory to the processed set unless the ledger is down |
| `Scheduler.FetchCalls` | pkg/scheduler/scheduler.go:126-130 | one look-up per track, disc by disc |
| `Scheduler.Decide` | pkg/scheduler/scheduler.go:98-142 | an unstable directory is re-triggered; a stable one is looked up, and unless processed scanned; an album with discs is processed (after look-ups in pkg/scheduler) and marked exactly when processing succeeds |
| `Scheduler.Run` | pkg/scheduler/scheduler.go:123-138 | after a scan that found discs, the album is processed and marked exactly when processing succeeds, in order |
| `Scheduler.MarkedThenSkipped` | pkg/scheduler/scheduler.go:109-117 | once a directory is marked, a later stable scan stops after the lookup, whatever the directory holds |
| `Scheduler.Fire` | pkg/scheduler/scheduler.go:86-92 | a timer's callback runs the scan of its directory and then removes the directory's registration |
| `Scheduler.OrphanedRearm` | pkg/scheduler/scheduler.go:86-105 | a scan found unstable leaves its re-armed timer live with no registration, so a later trigger starts a second timer for the same directory |
| `Scheduler.ToSchedule` | pkg/scheduler/scheduler.go:59-72 | the directories scheduled are exactly the subdirectories the ledger does not report processed |
| `Scheduler.TriggerAll` | pkg/scheduler/scheduler.go:59-72 | triggering each directory in turn registers exactly those directories, keeping the registry valid |
| `Scheduler.InitialScan` | pkg/scheduler/scheduler.go:52-75 | a scan is scheduled for exactly the unprocessed subdirectories; an unreadable root schedules nothing |
| `Scheduler.InitialScanChildren` | main.go:75-84 | every directory the initial scan schedules is an immediate child of the root |
| `Watcher.Candidate` | cmd/music/main.go:93-97 | the candidate directory; no contract of its own: `Watcher.Route` states that a scheduled candidate lies directly in the root |
| `Watcher.Route` | cmd/music/main.go:83-107 | a scheduled directory always lies directly in the root; a newly created top-level directory is scheduled (in main.go only when unprocessed); other events schedule their directory when it lies directly in the root |
| `Watcher.RoutesAgree` | main.go:119-165 | on events for the root's own entries the two copies differ only for a new directory already processed |
| `Watcher.RootIgnored` | cmd/music/main.go:99-104 | a change to a file in the root, or to the root itself, is ignored |
| `Watcher.EntryEvents` | cmd/music/main.go:83-101 | an event on an entry of the root schedules that entry or nothing |
| `Watcher.DeeperFile` | cmd/music/main.go:93-101 | cmd/music schedules the album directory for a file two levels down, which main.go drops |

## Left out

- Logging, `log.Fatalf` and the text of log messages are not modelled. Error messages are kept only where the model returns them.
- I/O is a parameter:
  - `os.ReadFile`, `os.Stat`, `os.ReadDir`, `os.MkdirAll`, `filepath.WalkDir`'s traversal order and ffmpeg's execution and exit status;
  - a run that fails is only logged by the source, so the model records the run and nothing depends on its outcome.
- Concurrency is not modelled. `pendingScansMutex` and `scanMutex` are taken as making each trigger and each timer callback atomic. Timer expiry order is not modelled.
- Watcher.Route: one `isDir` flag stands for both `os.Stat` calls on the event's path (main.go:129 and :148, cmd/music/main.go:84 and :95), so a path that turns into or stops being a directory between the two is not modelled.
- Clocks are parameters:
  - each poll carries its own instant, and the deadline test reuses it instead of a second `time.Now()`;
  - `time.Sleep` between polls and between tracks is not modelled;
  - `time.Time.Sub` saturation is not modelled, because instants are unbounded integers.
- The GBK decoder, the OpenCC traditional-to-simplified conversion and the NetEase metadata look-up are opaque function parameters. They are foreign code, not part of this repository's core.
- The SQLite ledger is a set of processed directories with a "down" flag. A failed lookup reports "not processed" and a failed insert is ignored, as in the source. SQL itself is not modelled.
- The configuration loader (`pkg/config/config.go`) is not part of this model. Intervals and paths are parameters.
- Case mapping: `strings.ToLower` and `(?i)` matching are exact only for runes whose lower case or case-folding orbit is ASCII. Every comparison in the core is against an ASCII literal, so that is all the core can observe.
- Stability.Wait: states only that a true verdict needs a listed poll before the deadline, not which poll gives it. `Stability.WaitDeadline` and `Stability.ReadFailure` cover the rest.
- Decimal.Atoi: its own contract states only the int64 range. `Decimal.DigitsAtoi`, `Decimal.NegativeAtoi` and `Decimal.AtoiItoa` state its values. A syntax error reading as 0 is shown only by `CueTime.MalformedPartIsZero`.
