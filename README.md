# Video and CAN replayer: verified model of the log and bookkeeping core

This project models the sequential logic of the Video-and-Can-Replayer tools for
CANaerospace traffic, and proves properties of that logic in Dafny:

- **The timestamp corrector** (`correct-ts.py`). It covers:
  - the `check` line validator;
  - the positional `getCanDate` parser of candump lines `(ssssssssss.uuuuuu) iface ID#HEX`;
  - the per-id `statistics` counter;
  - the per-line loop. The loop re-timestamps frames by the logger clock-sync offset (id 0x1FFFFFF0), splits sessions on sync gaps of more than one second, and collects GPS discrepancy samples from the UTC time and date frames (ids 1200 and 1206);
  - `sync_with_gps`.
- **The message-code continuity checker** (`analyze_db.py`). Each node has a rolling code that must go up by one and wrap from 255 to 0. Breaks are counted per node and per CAN id.
- **The bookmark and sync-point bookkeeping** (`VideoAndCanPlayer.py`, `videoplayer.py`). It covers:
  - `inbetween` with its half-open ranges;
  - sorted bookmark insertion;
  - `calcfps` and `frame2time`;
  - the player's button, position and state handlers;
  - the sync-point dialog.
- **The flap helpers** (`Dashboard/flaputils.py`): the first-match symbol lookup, and the optimal flap with linear interpolation between weights.
- **The position readers** (`canreader.py`). They decode big-endian signed integers from bytes 4..7, normalise headings with `toDeg`, and update the fields of `CanbusPos` and `CanlogPos` per frame.

## Modelling conventions

Each module follows the form of its source file:

- Code that only computes a value becomes a Dafny function.
- A script or thread that updates variables in place becomes a class:
  - `TimestampCorrector`, `CodeChecker`, `VideoplayerApp`, `ModalDialog`, `CanbusPos` and `CanlogPos`;
  - each has a `State()` function;
  - each method's postcondition ties the new state to a pure step function. Lemmas about those functions state what the program promises.

Values and errors are represented as follows:

- A Python exception is an `Err(fault)` of `Outcomes.Result`. A loop returns the exception that ended it, together with the state before the iteration that raised. Where that iteration has already changed something before it raises, "## Left out" says so.
- Timestamps in the corrector are integer microseconds. This is exact because `check` fixes them to ten integer and six fractional digits.
- Video positions, times, rates, weights and speeds are reals.

Some behaviour is passed in as a parameter rather than modelled:

- the local time zone: `datetime(...).timestamp()` and the UTC offset of `video_position2time`;
- the IEEE-754 reading of `getFloat`;
- what `strptime` makes of a typed time;
- the flap tables.

The code does not guard these cases, and the model follows it:

- `statistics.variance` raises with fewer than two samples (`StatisticsError`), so closing a session with fewer than two GPS samples ends the run.
- The final close raises `TypeError` when no sync frame has started the current session, because the file name is built from a first sync time that was never set (`CorrectTs.Finish`). This happens when the last session was closed at a gap and only data frames followed (`CorrectTs.GapThenFinish`). An empty log raises `AttributeError` there instead, as no file was ever opened. A data frame before any sync frame already raises `TypeError` at the write (`CorrectTs.DataFrameBeforeSync`).
- The sync frame's date and time are read as hex text at fixed line positions (`CorrectTs.LoggerTime`).
- A line that fails `check` is skipped. A line shorter than 19 characters that fits the template as far as it goes raises `IndexError`. So does a checked line without three fields or without a `#`. Neither of these two cases is recovered.

## Model

| member | source | states |
|---|---|---|
| CorrectTs.Check | correct-ts.py:47-60 | True exactly for lines starting "(", ten digits, ".", six digits, ")"; IndexError exactly for non-empty lines shorter than 19 that fit the template so far; False otherwise |
| CorrectTs.CheckRejectsSevenDigits | correct-ts.py:46-60 | the commented example with seven fractional digits is rejected |
| CorrectTs.GetCanDate | correct-ts.py:27-36 | succeeds iff the line has three fields and the third holds '#'; the timestamp is the microseconds of the checked prefix, the interface the second field; IndexError otherwise |
| CorrectTs.TimestampFieldValue | correct-ts.py:45-60 | the logger's "(seconds.micros)" field with ten and six digits passes check and reads back as seconds * 1e6 + micros |
| CorrectTs.CandumpLinePrefix | correct-ts.py:26-29 | a candump line keeps the checked timestamp of its first field, whatever follows it |
| CorrectTs.CandumpLineFields | correct-ts.py:28 | splitting a candump line with trailing blanks gives exactly its timestamp, interface and frame fields |
| CorrectTs.GetCanDateOfCandumpLine | correct-ts.py:26-36 | on any candump line with a checked timestamp field (trailing blanks allowed) getCanDate returns that field's time, the interface, the id text, payload chars 8..39 and 0..1 |
| CorrectTs.ParseCandumpLine | correct-ts.py:109-113 | a candump line with a checked timestamp and any id text int(., 16) accepts parses to a frame with that id, node, data, channel and frame text |
| CorrectTs.LoggerTime | correct-ts.py:116-118 | a decoded logger time is a valid datetime with year 2000..2255 whose year - 2000, month, day, hour, minute and second are int(., 16) of line[34:36], [37:38], [38:40], [40:42], [42:44] and [44:46]; none (ValueError) otherwise |
| CorrectTs.LoggerTimeOfFields | correct-ts.py:116-118 | a line holding the hex numerals of a valid t (year 2000..2255) at those positions decodes to t |
| CorrectTs.LoggerTimeOfSyncLine | correct-ts.py:112-118 | a candump sync line whose payload starts with year - 2000, month, day, hour, minute and second as hex bytes decodes to that time |
| CorrectTs.GpsTime | correct-ts.py:130-133 | a decoded GPS time is a valid datetime with year = date[4:6] * 100 + date[6:8], month date[2:4], day date[0:2] and hour, minute, second data[0:2], [2:4], [4:6], all read with int(., 16) |
| CorrectTs.GpsTimeOfFields | correct-ts.py:128-133 | date and time data holding the hex bytes of a valid t (day, month, century, year of century; hour, minute, second) decode to t |
| CorrectTs.Parse | correct-ts.py:109-113 | a line is Invalid exactly when check returns False; Broken only when check raises or getCanDate / int(canId, 16) fail; a Frame carries the checked timestamp |
| CorrectTs.ParseFormatted | correct-ts.py:85-87 | float() of a timestamp printed with "{:f}" gives back the same microseconds, negative ones included |
| CorrectTs.ParseFormattedUnsigned | correct-ts.py:86-87 | float() of a non-negative timestamp printed with "{:f}" gives back the same microseconds |
| CorrectTs.ParseMicrosSigned | correct-ts.py:86 | float() reads a leading "-" as the negated value |
| CorrectTs.RunUnfold | correct-ts.py:105-155 | the loop runs the body on each line in turn and stops at the first exception |
| CorrectTs.Finish | correct-ts.py:157-158 | the final close succeeds iff a file is open, a sync time is set and there are at least two samples, and closes that session; AttributeError when no file is open, TypeError when a file is open but no sync time is set |
| CorrectTs.StepCounts | correct-ts.py:109-155 | a line that completes the body either is a frame whose id and node were counted, or failed check and was only reported |
| CorrectTs.RunCounts | correct-ts.py:105-155 | after an exception-free run the id and node statistics are statistics applied to every frame's id and node, and the reported lines are exactly those failing check |
| CorrectTs.DataFrameStep | correct-ts.py:140-143 | in a synchronised session a data frame is written to the open file with recorded time plus diff, new_cnt + 1, clock state unchanged |
| CorrectTs.RunDataFrames | correct-ts.py:140-143 | a run of data frames writes each of them in order with the offset of the last sync frame and raises nothing |
| CorrectTs.SyncFrameStep | correct-ts.py:115-152 | a sync frame sets diff = logger time - recorded time and ts_log_diff to the gap since the last sync (0 on the first), is not written, and a gap > 1 s closes the session, which needs two samples |
| CorrectTs.GapThenFinish | correct-ts.py:140-158 | a sync frame closing the session at a gap, then only data frames: the run ends without exception and the final close raises TypeError, or AttributeError when nothing follows the sync frame |
| CorrectTs.BadSyncFrame | correct-ts.py:116-118 | a sync frame with an invalid date raises ValueError |
| CorrectTs.DataFrameBeforeSync | correct-ts.py:140-143 | a data frame before any sync frame raises TypeError (diff is None) |
| CorrectTs.DateFrameStep | correct-ts.py:137-138 | a UTC date frame is cached and nothing else of the clock state changes |
| CorrectTs.TimeFrameSample | correct-ts.py:128-135 | a UTC time frame adds (ts + diff) - GPS time as a sample once a date is cached, nothing before; ValueError for an invalid GPS date |
| CorrectTs.TimeFrameWritten | correct-ts.py:140-143 | a UTC time frame is written like any data frame |
| CorrectTs.StepKeepsFiles | correct-ts.py:106-152 | one line keeps the file bookkeeping consistent, only appends output and sessions, and never writes to a closed file |
| CorrectTs.RunKeepsFiles | correct-ts.py:105-152 | any number of lines keeps the file bookkeeping consistent |
| CorrectTs.TimestampCorrector.constructor | correct-ts.py:91-103 | the loop variables start as the script initialises them |
| CorrectTs.TimestampCorrector.HandleSync | correct-ts.py:115-126 | the sync branch updates the variables as SyncUpdate, or raises ValueError |
| CorrectTs.TimestampCorrector.HandleTime | correct-ts.py:128-135 | the UTC time branch updates the variables as TimeUpdate |
| CorrectTs.TimestampCorrector.HandleClockFrame | correct-ts.py:115-138 | the id chain updates the variables as Dispatch |
| CorrectTs.TimestampCorrector.WriteFrame | correct-ts.py:140-143 | writing updates the output as Emit, TypeError without diff |
| CorrectTs.TimestampCorrector.CloseOnGap | correct-ts.py:145-152 | the session check updates the variables as CloseIfGap |
| CorrectTs.TimestampCorrector.CountFrame | correct-ts.py:154-155 | the statistics update as Count, ValueError for a non-hex node id |
| CorrectTs.TimestampCorrector.OpenLogFile | correct-ts.py:106-108 | a new output file is opened, with the next number, exactly when none is open |
| CorrectTs.TimestampCorrector.ReportLine | correct-ts.py:109-110 | a line failing check is reported by its number and nothing else changes |
| CorrectTs.TimestampCorrector.ApplyFrame | correct-ts.py:112-155 | the body on a checked line leaves the state Apply gives, or returns its exception |
| CorrectTs.TimestampCorrector.ProcessParsed | correct-ts.py:106-155 | the loop body on a parsed line leaves the state StepOn gives, or returns its exception |
| CorrectTs.TimestampCorrector.ProcessLine | correct-ts.py:106-155 | the loop body on a line leaves the state Step gives, or returns its exception |
| CorrectTs.TimestampCorrector.Correct | correct-ts.py:105-155 | the loop over the input raises the exception Run raises, and without one leaves Run's state |
| CorrectTs.ReadOutLine | correct-ts.py:85-86 | a read-back line has token channel and frame fields; any failure is ValueError |
| CorrectTs.ReadFormattedOutLine | correct-ts.py:85-87 | reading back a line in the corrector's output format gives the line |
| CorrectTs.SyncWithGps | correct-ts.py:81-87 | the name gets ".log" replaced by "-gps.log"; each line is rewritten with ts - diff in order; the first unreadable line ends it with ValueError |
| CorrectTs.ShiftLines | correct-ts.py:84-87 | every line is read back and shifted by -diff, in order, up to the first unreadable line, whose ValueError is returned |
| CorrectTs.GpsFileName | correct-ts.py:82 | "stem.log" becomes "stem-gps.log" |
| Counting.Statistics | correct-ts.py:39-42 | the id gains an entry and every other entry is unchanged |
| Counting.StatisticsCount | correct-ts.py:39-42 | after counting ids an entry exists iff it existed or occurs, and holds its start (1 when new) plus its occurrences |
| Text.NormaliseSplit | correct-ts.py:28 | " ".join(line.split()).split() equals line.split() |
| Text.Split | correct-ts.py:28 | str.split() yields only non-empty tokens without blanks |
| Text.SplitJoin | correct-ts.py:141 | splitting blank-joined tokens with trailing blanks gives the tokens back |
| Text.JoinSplitOn | correct-ts.py:31 | joining the parts of split("#") with "#" gives the text back |
| Text.SplitOn | correct-ts.py:31 | split("#") yields at least one part, none holding "#" |
| Text.SplitOnPair | correct-ts.py:31-34 | "a#b" without other '#' splits into a and b |
| Text.ParseHex | correct-ts.py:113 | int(s, 16) succeeds iff s is non-empty hex and is below 16 to its length |
| Text.ParseHexNumeral | correct-ts.py:113 | int(s, 16) reads back the fixed-width hex numeral of n |
| Text.Slice | correct-ts.py:34-35 | slicing clamps the bounds to the text and is empty when they cross |
| Text.ReplaceSuffix | correct-ts.py:82 | replace swaps a pattern that occurs only as the suffix |
| AnalyzeDb.Expected | analyze_db.py:22-26 | the expected code is (previous + 1) mod 256 |
| AnalyzeDb.Bump | analyze_db.py:27-34 | a break counter starts at 1 or goes up by 1, others unchanged |
| AnalyzeDb.CodesUpdate | analyze_db.py:20-35 | codes[node] becomes code, other nodes unchanged; the node's and the id's break counters go up by 1 exactly when a known node's code differs from the expected one |
| AnalyzeDb.Feed | analyze_db.py:49-52 | a row with fewer than four payload bytes raises IndexError; otherwise cnt + 1 and the id counted |
| AnalyzeDb.AnalyzeRowsCount | analyze_db.py:48-52 | the loop fails exactly at the first short payload; cnt is the number of rows handled |
| AnalyzeDb.FeedStats | analyze_db.py:20-35 | one row bumps its node's and id's break counters exactly when it breaks the sequence |
| AnalyzeDb.AnalyzeRowsIds | analyze_db.py:38-52 | the CAN-id counts are canid_statistics of every row's id |
| AnalyzeDb.AnalyzeRowsBreaks | analyze_db.py:20-52 | the break counts per node and per id count the rows that break their node's sequence |
| AnalyzeDb.CodeChecker.constructor | analyze_db.py:13-17 | the dictionaries start empty and cnt at 0 |
| AnalyzeDb.CodeChecker.CodesStatistics | analyze_db.py:20-35 | the in-place update is CodesUpdate |
| AnalyzeDb.CodeChecker.CanidStatistics | analyze_db.py:38-41 | the in-place update is statistics on the id |
| AnalyzeDb.CodeChecker.AnalyzeAll | analyze_db.py:48-52 | the row loop leaves the state and exception of AnalyzeRows |
| VideoAndCanPlayer.FirstRange | VideoAndCanPlayer.py:24-28 | the first consecutive pair whose half-open range holds val, or none |
| VideoAndCanPlayer.Bracketing | VideoAndCanPlayer.py:18-29 | IndexError iff the list is empty; (None, None) for None; prev <= val < next, both from the list |
| VideoAndCanPlayer.InBetween | VideoAndCanPlayer.py:18-29 | the loop returns Bracketing |
| VideoAndCanPlayer.BeforeFirst | VideoAndCanPlayer.py:21 | below the first bookmark of a sorted list: (None, list[0]) |
| VideoAndCanPlayer.AfterLast | VideoAndCanPlayer.py:22 | above the last bookmark: (list[-1], None) |
| VideoAndCanPlayer.AtLast | VideoAndCanPlayer.py:20-25 | at the last bookmark: (None, None) |
| VideoAndCanPlayer.Inside | VideoAndCanPlayer.py:23-28 | from the first to before the last bookmark: prev <= val < next, consecutive (no bookmark strictly between) |
| VideoAndCanPlayer.LastAtMost | VideoAndCanPlayer.py:23-28 | a value from the first to before the last entry of a list lies in some consecutive half-open range |
| VideoAndCanPlayer.Insert | VideoAndCanPlayer.py:167 | inserting into a sorted list keeps it sorted and adds one occurrence |
| VideoAndCanPlayer.SortList | VideoAndCanPlayer.py:167 | sort returns a sorted permutation |
| VideoAndCanPlayer.AddBookmark | VideoAndCanPlayer.py:164-167 | append then sort: sorted, one more occurrence of the frame, otherwise the same bookmarks |
| VideoAndCanPlayer.Lookup | videoplayer.py:35 | a frame has a time iff some sync point has that frame |
| VideoAndCanPlayer.Store | videoplayer.py:35 | an existing key keeps its place, a new one goes last, keys stay unique |
| VideoAndCanPlayer.StoreLookup | videoplayer.py:35 | after storing, the key maps to the new time and other keys are unchanged |
| VideoAndCanPlayer.CalcFps | VideoAndCanPlayer.py:38-46 | none for fewer than two points, else n-1 ratios frame delta / time delta in order; ZeroDivisionError iff two consecutive times are equal |
| VideoAndCanPlayer.Frame2Time | VideoAndCanPlayer.py:32-35 | StopIteration without sync points, ZeroDivisionError for fps 0; (t - t1) * fps = frame - fsp |
| VideoAndCanPlayer.Frame2TimeAnchor | VideoAndCanPlayer.py:32-35 | the first sync point's frame maps to its time; each frame adds 1/fps |
| VideoAndCanPlayer.Frame2TimeSecondPoint | VideoAndCanPlayer.py:32-46 | with the first calcfps rate, the second sync point's frame maps to its time |
| Videoplayer.Trunc | videoplayer.py:151 | int(x) truncates toward zero |
| Videoplayer.RoundHalfEven | videoplayer.py:169 | round(x) is within 0.5 and even on ties |
| Videoplayer.AsFloat | videoplayer.py:180 | float() keeps None and converts an int to the same value |
| Videoplayer.OffsetSeconds | videoplayer.py:165-166 | timedelta.seconds lies in [0, 86400) and is the offset, or the offset plus a day when negative |
| Videoplayer.PositionToTime | videoplayer.py:162-166 | StopIteration without sync points; else the time moves with vpos from the first sync point, minus the offset seconds |
| Videoplayer.PositionToTimeAtSyncpoint | videoplayer.py:162-166 | at the first sync point the time is its epoch time minus the offset, a day less west of UTC |
| Videoplayer.Seek | videoplayer.py:137-138 | no seek for a missing or zero bookmark; ZeroDivisionError iff a seek is due at duration 0 |
| Videoplayer.SeekFraction | videoplayer.py:138 | the seek fraction times the duration is the bookmark |
| Videoplayer.PreviousTarget | videoplayer.py:132-138 | previous seeks to a non-zero bookmark at or before the rounded position |
| Videoplayer.NextTarget | videoplayer.py:140-146 | next seeks to a non-zero bookmark after the rounded position |
| Videoplayer.VideoplayerApp.constructor | videoplayer.py:69-77 | position 0, no duration, the given sync points and bookmarks |
| Videoplayer.VideoplayerApp.OnState | videoplayer.py:116-120 | play resumes at the mapped time, pause stops, other states do nothing; AttributeError without a sender |
| Videoplayer.VideoplayerApp.OnPosition | videoplayer.py:122-126 | the duration is taken once, the first time it exceeds 1; the position always follows |
| Videoplayer.VideoplayerApp.InBetween | videoplayer.py:168-180 | the bracket of round(val) as floats; IndexError iff the list is empty |
| Videoplayer.VideoplayerApp.BtnPrevious | videoplayer.py:132-138 | seeks to the prev bookmark of the rounded position; IndexError without bookmarks |
| Videoplayer.VideoplayerApp.BtnNext | videoplayer.py:140-146 | seeks to the next bookmark of the rounded position plus 5; IndexError without bookmarks |
| Videoplayer.VideoplayerApp.BtnBookmark | videoplayer.py:148-152 | above 100 s the truncated position joins the sorted bookmarks as one more occurrence; otherwise nothing changes |
| Videoplayer.ModalDialog.constructor | videoplayer.py:19-22 | no time accepted yet |
| Videoplayer.ModalDialog.CheckTime | videoplayer.py:24-29 | an accepted time is stored and returned; a rejected one returns None and keeps the stored time |
| Videoplayer.ModalDialog.SetSyncpoint | videoplayer.py:31-35 | int(ts) joins the sorted bookmarks and ts is stored under the rounded second; TypeError with nothing changed before a time is accepted |
| Videoplayer.SyncpointStored | videoplayer.py:35 | the current second maps to the new time, other seconds keep theirs, the first sync point is kept unless replaced |
| FlapUtils.FirstSymbol | Dashboard/flaputils.py:43-47 | the symbol of the first entry within tolerance, None iff there is none |
| FlapUtils.GetFlapSymbol | Dashboard/flaputils.py:31-47 | the symbol of the first entry of the explicit flap_data, or else of the loaded table, within its tolerance of the position; None iff no entry is |
| FlapUtils.WeightIndex | Dashboard/flaputils.py:66-68 | the while loop stops at the last index whose successor is not below the weight |
| FlapUtils.BracketOf | Dashboard/flaputils.py:57-71 | clamps to the first or last weight with factor 0; otherwise consecutive weights w1 < g <= w2 |
| FlapUtils.FactorRange | Dashboard/flaputils.py:65-71 | between weights the factor lies in (0, 1]; clamped it is 0 with w1 = w2 |
| FlapUtils.BracketFactor | Dashboard/flaputils.py:64-71 | between the end weights w1 < w2 and factor * (w2 - w1) == g - w1: the factor places g on the line from w1 to w2 |
| FlapUtils.Interpolation | Dashboard/flaputils.py:83-84 | an interpolated bound lies between the two weights' bounds and is w1's at factor 0 |
| FlapUtils.BandHolds | Dashboard/flaputils.py:73-90 | with ranges for both weights the speed must lie between the interpolated bounds; with a w1 range only, inside it, and a speed below its lower bound fails without reading the upper one; without a w1 range the band fails; IndexError exactly when a range shorter than two is indexed |
| FlapUtils.BandHoldsBetween | Dashboard/flaputils.py:81-87 | a speed inside both weights' ranges of a band lies in the interpolated range for any factor in [0, 1] |
| FlapUtils.BandHoldsClamped | Dashboard/flaputils.py:57-63 | at a clamped weight the interpolated test is the test of that weight's own range |
| FlapUtils.FirstBand | Dashboard/flaputils.py:73-92 | the wk of the first band that holds, None iff none holds; an IndexError comes from the first band whose test is not a plain failure, so a band that holds before a malformed one wins |
| FlapUtils.OptimalFlap | Dashboard/flaputils.py:54-55 | None without weights or bands |
| FlapUtils.FindWeights | Dashboard/flaputils.py:57-71 | the weight loop computes BracketOf |
| FlapUtils.GetOptimalFlap | Dashboard/flaputils.py:49-92 | the method computes OptimalFlap |
| FlapUtils.ExactWeight | Dashboard/flaputils.py:65-71 | at an inner table weight the factor is 1 towards it |
| FlapUtils.ExampleL | Dashboard/flaputils.py:116-117 | (410, 78) gives "L" |
| FlapUtils.ExamplePlusTwo | Dashboard/flaputils.py:118 | (410, 79) gives "+2" |
| FlapUtils.ExampleZero | Dashboard/flaputils.py:119-124 | (500, 130) gives "0" |
| CanReader.GetInt | canreader.py:18-19 | struct.error iff fewer than 8 bytes; a 32-bit value, negative iff byte 4 has its top bit |
| CanReader.GetIntOfPacked | canreader.py:18-19 | bytes 4..7 packed from x decode to x |
| CanReader.PackedOfGetInt | canreader.py:18-19 | packing the decoded value gives bytes 4..7 back |
| CanReader.Signed32 | canreader.py:19 | a 32-bit two's-complement value congruent to the unsigned one |
| CanReader.SignedByte | canreader.py:99-100 | a signed char in [-128, 128) congruent to the byte |
| CanReader.GetDoubleL | canreader.py:10-11 | the getInt value divided by 1e7, struct.error iff fewer than 8 bytes |
| CanReader.GetFloat | canreader.py:14-15 | the float of bytes 4..7, struct.error iff fewer than 8 bytes |
| CanReader.ToDeg | canreader.py:80-81 | adds 360 to negatives only; [-360, 360) maps into [0, 360) |
| CanReader.ToDegIdempotent | canreader.py:80-81 | normalising twice equals normalising once |
| CanReader.UtcFields | canreader.py:99-102 | year = d[2]*100 + d[3], month d[1], day d[0], then the time bytes, all signed |
| CanReader.UtcOf | canreader.py:97-102 | struct.error unless both buffers are 8 bytes; the datetime iff the fields are valid, else ValueError |
| CanReader.UtcOfFrames | canreader.py:97-102 | date and time frames written for t decode to t |
| CanReader.BusStep | canreader.py:96-120 | per id: 1036 lat, 1037 lon, 321 th = toDeg, 334 wind = toDeg, 1040 tt, 1206 caches the date, 1200 sets utc or raises AttributeError before any date; other ids change nothing |
| CanReader.BusLocationKept | canreader.py:105-108 | without 1036/1037 frames lat and lon do not change |
| CanReader.TimeBeforeDate | canreader.py:97-98 | a time frame before any date frame ends run with AttributeError |
| CanReader.UtcFromFrames | canreader.py:97-104 | a date frame then a time frame set utc to that time |
| CanReader.CanbusPos.constructor | canreader.py:85-92 | every field starts as None |
| CanReader.CanbusPos.Receive | canreader.py:96-120 | the fields after one frame are BusStep's, untouched on an exception |
| CanReader.CanbusPos.Run | canreader.py:94-120 | the loop leaves the fields and exception of BusRun |
| CanReader.CanbusPos.GetLocation | canreader.py:125-126 | returns (lat, lon) |
| CanReader.LogStep | canreader.py:51-65 | error frames skipped; 1036 lat, 1037 lon, 321 th normalised as toDeg; 340 only decoded; any other id ignored; struct.error exactly for short frames of the four handled ids |
| CanReader.LogSkipsErrorFrames | canreader.py:51-52 | error frames change nothing |
| CanReader.LogLocationKept | canreader.py:53-56 | lat and lon change only on 1036/1037 |
| CanReader.LogRunAsWritten | canreader.py:42-45 | run as written raises AttributeError before reading a frame |
| CanReader.LogRunAsWrittenMissesFix | canreader.py:45-54 | one 1036 frame: as written lat stays None, the loop records 1e-7 |
| CanReader.CanlogPos.constructor | canreader.py:22-31 | lat, lon and th start as None |
| CanReader.CanlogPos.Receive | canreader.py:51-65 | the fields after one frame are LogStep's |
| CanReader.CanlogPos.Run | canreader.py:47-65 | the loop leaves the fields and exception of LogRun |
| CanReader.CanlogPos.GetLocation | canreader.py:73-74 | returns (lat, lon) |
| Calendar.DaysInMonth | correct-ts.py:116-118 | 28 to 31 days, 29 exactly in a leap February |

## Left out

- Threads, pacing and stopping are not modelled, because they are concurrency and wall-clock behaviour. This covers `start`, `stop`, `stopped`, `exit`, the `running` flag, `MessageSync` timing, `KeyboardInterrupt` and `frame_extradiff`. Each reader's `run` is the loop over a given sequence of frames.
- I/O is not modelled: files, sqlite, the CAN bus and `LogReader2`, `print`, argparse, `close_logfile`'s rename, and the Kivy, OpenCV and PySimpleGUI widgets and drawing, including the `videoplayer.state = 'pause'` that `btn_previous` and `btn_next` set first (videoplayer.py:133, 141). Lines, rows and frames are parameters. The handlers return the seek or the sender command as a value.
- `datetime(...).timestamp()`, the local UTC offset and `strptime` are parameters (`clock`, `LocalOffset`, `CheckTime`'s argument), because they depend on the time zone. `OverflowError` from `timestamp()` is not modelled.
- `getFloat`'s IEEE-754 decoding is a parameter (`FloatDecoder`).
- Floating point is not modelled: timestamps are exact microseconds and every other quantity is a real, so no rounding error of "{:f}", float sums or the interpolation is captured.
- Statistics: `mean`, `variance`, `stdev`, `min` and `max` of the samples are not computed. Only their failure with fewer than two samples is modelled. The shift that `sync_with_gps` receives is a parameter.
- `Text.ParseHex`: `int(s, 16)` also accepts a sign, a `0x` prefix, surrounding blanks and underscores. The model treats those texts as `ValueError`.
- `CorrectTs.Check`: only ASCII digits count as digits, while `str.isdigit` also accepts other Unicode digits.
- `CorrectTs.ReadOutLine` reads a timestamp only as an optional "-", digits, "." and six digits. `float()` also accepts texts such as "1.5", "1e3", "+2.0", "inf" and "1_0". For lines with such timestamps, `CorrectTs.ShiftLines` and `CorrectTs.SyncWithGps` report `ValueError` where the program rewrites the line. The corrector itself only writes the "{:f}" form, which `ReadFormattedOutLine` reads back exactly.
- `CorrectTs.RunOn` and `CorrectTs.TimestampCorrector.Correct`: on an exception the model keeps the state from before the failing line, and `Correct` promises no state at all. The program has by then done part of that line:
  - it opened and numbered a new log (correct-ts.py:106-108) before `check`, `getCanDate` or `int(canIdStr, 16)` raise;
  - it cached a 1206 date (137-138) before the write raises `TypeError`;
  - it wrote the line and closed and renamed the file (140-147) before the statistics raise;
  - it counted the CAN id (154) before `int(nodeIdStr, 16)` raises.

  The exception ends the script, so these effects show only in the files it leaves behind.
- The `sync_with_gps` calls at a session close and at the end (correct-ts.py:148-149, 159-160) are not part of `CorrectTs.Run`. `CorrectTs.SyncWithGps` models one such call on its own.
- Sync-point and flap-table keys are numbers here; in the program they are decimal texts (`str(int(...))`, `str(w1)`). Distinct texts with the same number, such as "07" and "7", are not modelled.
- `VideoAndCanPlayer.py`'s main loop is left out. Its Prev/Next events use the same `inbetween`, and it draws bookmarks. `realtime`, `build`, the map clock callback, `getTh` and `getUtc` are left out too: they are display code or plain getters.
- `Videoplayer.VideoplayerApp.BtnPrevious` and `BtnNext` state their seek through `Bracketing`. That the target is a non-zero bookmark on the right side of the rounded position is proved separately, in `PreviousTarget` and `NextTarget`.
- `CanReader.BusState`: `tt` and `utc_date_data` are never assigned by the constructor. The model's None stands for the missing attribute. Reading `utc_date_data` then raises `AttributeError`; `tt` is only written.

## Findings

| source | as written | input that shows it | evidently intended | confidence | as-written member | corrected member |
|---|---|---|---|---|---|---|
| canreader.py:45 | `CanlogPos.run` formats `datetime.now()`, but `datetime` is the module imported at line 1, which has no `now`. The AttributeError is raised before the loop, so no frame is ever read | one frame, id 1036, data 00 00 00 00 00 00 00 01: `lat` stays None | `datetime.datetime.now()`, after which the loop records lat = 1e-7 | high (not executed) | CanReader.LogRunAsWritten, CanReader.LogRunAsWrittenMissesFix | CanReader.LogRun, CanReader.CanlogPos.Run |
