# Fire 2 analysis scripts, modelled in Dafny

The Fire 2 study of human-robot interaction is analysed by a set of
independent batch scripts, in Python and C++. Each one reads a participant's
time-series log (rows of text cells with times, positions, gaze targets,
pupil sizes and event markers), finds the crisis moment in it, splits the
rows or the time axis around that moment and computes one metric per
segment. Several C++ tools pass their results on through small two-section
text files. This project models the logic between reading a file and
writing a result:

- the crisis split finders: the first "shook" marker, and failing that the
  first row at or after the "0.2 seconds" marker's time plus 0.229 s. One
  shared definition (`Crisis.SplitIndex`) is checked against every script's
  variant of header matching and event matching;
- the row state machines: the Survey Room toggle, look-run counting, the
  visit and stationary-session segmentation, the follow-distance
  accumulator and the calibration keyword scanner;
- time-window selection, the two-section text writers and their readers,
  and the round trip between the two;
- the accumulator statistics (count, sum, sum of squares, minimum,
  maximum, mean, n - 1 variance) in exact real arithmetic, with the
  scripts' sentinels for degenerate input: -1, NaN (as `None`) or 0;
- the lookups: header columns, five-character participant indices, the
  crisis-time CSV of a participant, and the nearest luminance in a
  calibration mapping.

Each row of a log is a `seq<string>`. Converting text to a number is a
parameter `parse: string -> Option<real>`. It stands for `float(...)`,
`std::stod` or a stream extraction that succeeded with a finite value.
Where a function runs a loop in the source, the model has a `method` with
that loop, proved against a specification function. Lemmas beside that
function state what the source promises.

- common.dfy: `Wrappers`, `Text`, `Columns`, `Lists`, `Geometry` — optional values, trimming, lower-casing, substring tests and zero padding, header lookups, first-match searches
- index.dfy: `Index` — `idx5_direct`, `index_5char`, `idx5`, `first5`, and `is_four` with the highlight count of baselinehighlight.py
- stats.dfy: `Stats` — sums, means, two-pass and one-pass variance, minimum and maximum
- crisis.dfy: `Crisis` — the shared crisis split and each Python script's copy of it
- sections.dfy: `Sections` — the two-section writer and readers
- pupilsize.dfy: `PupilSize` — pupilsize.py
- location.dfy: `LocationTimeMap` — locationtimemap.py
- velocity.dfy: `Velocity` — velocity.py
- follow.dfy: `Follow` — followdistancetime.py
- gaze.dfy: `GazeSpread`, `PlayerRobotDistance` — sdgaze.py, playerrobotdistance.py
- looks.dfy: `LookRuns`, `LookShare` — looksatrobot.py, exitsign.py, lookingatrobot.py
- pupilreport.dfy: `PupilReport` — shookpupil.cpp, noshookpupil.cpp
- extract.dfy: `Extract` — pupilsizeshook.cpp, luminanceshook.cpp, pupilsizenoshook.cpp, luminancenoshook.cpp
- calibrated.dfy: `PupilSizeCal` — pupilsizecal.cpp
- aggregate.dfy: `Aggregate` — the `Stats` accumulator and per-file averages shared by pupilsizecal.cpp and luminanceexpected.cpp
- expected.dfy: `LuminanceExpected` — luminanceexpected.cpp
- totals.dfy: `LuminanceTotals`, `PupilSizeTotals` — luminance.cpp, pupilsize.cpp
- ttest.dfy: `TTestAfter` — t_test_after.cpp
- calibration.dfy: `Calibration` — findcalibration.cpp
- crisistimes.dfy: `CrisisTimes` — crisistime.py, postcrisis.py

The model follows the code as written. The pupil reports of shookpupil.cpp
and noshookpupil.cpp use their written 14 entries, with the two defects
listed under Findings, and the corrected entries are proved beside them.
followdistancetime.py's crisis fallback accepts any cell containing "0.2",
as its comment says. The model uses that rule and compares it with the
"0.2 seconds" tag rule of the other scripts.

Several scripts carry identical copies of a helper, such as
`find_col_caseins`, `idx5_direct`, `findPupilColumns`, `findEventRows` and
`findEventRow`. Each is modelled once, and the table below cites one copy.

## Model

| member | source | states |
|---|---|---|
| Text.TrimLeft | shookpupil.cpp:27-29 | the result is a suffix of the input, every dropped character is whitespace, and the result does not start with whitespace |
| Text.TrimRight | shookpupil.cpp:30-32 | the result is a prefix of the input, every dropped character is whitespace, and the result does not end with whitespace |
| Text.StripSpec | shookpupil.cpp:25-34 | the stripped text starts and ends with a non-blank, and it is empty exactly when the input is all whitespace (`strip() == ""`) |
| Text.StripEach | crisistime.py:57 | one stripped text per input text, in order; the header names of crisistime.py, postcrisis.py and the pupil tools (shookpupil.cpp:68) and the mapping lines of luminanceexpected.cpp:54 are read this way |
| Text.LowerAt | findcalibration.cpp:23-26 | lower-casing keeps each position and maps each character to its lower-case form |
| Text.Take | pupilsize.py:66-68 | `s[:n]` has min(n, len) characters and is a prefix of `s` |
| Text.ZFill | velocity.py:30-34 | `zfill(width)` pads on the left with zeros to the width, keeps a leading sign in front, and leaves a long enough text unchanged |
| Text.NatToString | velocity.py:33 | `str` of a natural number is a non-empty digit string without a leading zero (unless it is "0"), one digit exactly below ten, whose decimal value is the number |
| Text.IntToString | velocity.py:33 | `str` of an integer: digits without a leading zero whose decimal value is the integer, or for a negative one a '-' followed by such digits for its magnitude |
| Columns.DropSeparators | pupilsize.py:48-50 | removing the `[ _.\-]` characters keeps exactly the non-separator characters of the input: a single character is dropped when it is a separator and kept otherwise, and an input without separators comes back unchanged |
| Columns.DropSeparatorsAppend | pupilsize.py:48-50 | the substitution works piece by piece: the result for `a + b` is the result for `a` followed by the result for `b`, so characters keep their order |
| Columns.NormalizeHeaderTokenSpec | pupilsize.py:48-50 | a normalized header token is lower-case and holds no space, underscore, dot or hyphen; every other character of the stripped header is in it, lower-cased; a stripped header without separators becomes its lower-cased self |
| Columns.TokensAt | pupilsize.py:58 | the token list has one normalized token per header, in order |
| Columns.FindColCaseIns | followdistancetime.py:61-67 | the first header equal to the name after stripping and lower-casing both, or -1 exactly when there is none |
| Columns.IndexOf | velocity.py:50-55 | `header.index(name)`: the first exact match, or -1 exactly when the name is absent |
| Lists.FindLastTwo | shookpupil.cpp:66-78 | one pass keeps, independently, the last index satisfying each of two tests |
| Lists.FindFirstTwo | pupilsize.py:57-64 | one pass finds, independently, the first index satisfying each of two tests |
| Lists.SplitAround | playerrobotdistance.py:259-260 | `rows[:split]` and `rows[split+1:]` leave out the split row and nothing else, so their lengths add up to one less than the rows |
| Index.Idx5Direct | velocity.py:30-34 | `zfill(5)` of `str(int(v))` for an integral float and of the cell text otherwise: a text of five or more characters is kept whole, a shorter one is left-padded with zeros to five, after its sign when it starts with one |
| Index.Idx5DirectSpec | crisistime.py:79-82 | an integral float is named like the integer it holds; any other value whose text has five or more characters is kept whole; a non-negative integer gives only digits ending in its decimal text |
| Index.Index5Char | locationtimemap.py:65-74 | the stripped text (the integer's digits for an integer or integral float) is cut to its first five characters; a shorter one is zero-padded to five, after its sign for a signed whole number, when the cell is whole or the text is all digits, and is kept as it is otherwise |
| Index.First5 | pupilsize.py:66-68 | the first min(5, len) characters of the stripped cell text, with no padding |
| Index.IsFourFloat | baselinehighlight.py:17-18 | a float is four exactly when it equals 4.0, so 4.5 is not |
| Index.CountHighlights | baselinehighlight.py:36-42 | every row from the second on is counted, the highlighted count is the number of condition cells that are four and is at most the total, and the rows marked are exactly those rows |
| Stats.Variance | noshookpupil.cpp:97-102 | the sample variance, with Bessel's n - 1 denominator, is never negative |
| Stats.SqDevExpand | noshookpupil.cpp:97-100 | the sum of squared deviations from m equals sumSq - 2 m sum + n m^2 |
| Stats.OnePassVariance | luminance.cpp:26-29 | the one-pass formula (sumSq - sum^2/n)/(n - 1) equals the two-pass sample variance |
| Stats.Moments | luminance.cpp:19-29 | from the running sum and sum of squares: sum/n is the mean (the value itself for one value), and the one-pass formula is the sample variance from two values on |
| Stats.Min | velocity.py:148 | the minimum is one of the values and no value is below it |
| Stats.Max | velocity.py:149 | the maximum is one of the values and no value is above it |
| Stats.MeanWithin | pupilsize.cpp:27-55 | a mean lies within any bounds of its values |
| Stats.MeanBetween | velocity.py:146-149 | the mean lies between the minimum and the maximum |
| Stats.Describe | velocity.py:141-150 | nothing (four NaNs) exactly when there are fewer than two values; otherwise the mean, the sample variance, and a minimum and maximum taken from the values that bracket every value and the mean |
| Crisis.SplitIndex | exitsign.py:88-127 | the split is -1 or a row index |
| Crisis.SplitIndexSpec | exitsign.py:88-127 | the split is a "shook" row exactly when some row has "shook" in its event cell, and then the first one; otherwise it is the "0.2 seconds" fallback: the first row from the first tagged row on whose time reaches that row's time plus the offset, and the only row that rule admits; without "shook" and without a Time column it is -1, and -1 means no "shook" row and no row the fallback admits |
| Crisis.FallbackUnique | exitsign.py:96-127 | without a "shook" row, any row the fallback rule admits is the split row |
| Crisis.SplitShook | exitsign.py:88-94 | the split is a "shook" row exactly when one exists, and no earlier row is one |
| Crisis.SplitFallback | exitsign.py:96-127 | a split that is not a "shook" row is the fallback row, and without a Time column there is no fallback |
| Crisis.FallbackAt | exitsign.py:116-127 | the first row from the tagged row on whose time reaches the target satisfies the fallback rule |
| Crisis.FindFirstShook | exitsign.py:89-94 | the loop returns the first row reaching the event column whose stripped, lower-cased event cell contains "shook", or -1 |
| Crisis.FindFirst02 | exitsign.py:100-111 | the loop returns the first row reaching both columns whose event cell contains "0.2 seconds", or -1 |
| Crisis.FindFirstAtOrAfter | exitsign.py:118-127 | the loop returns the first row from `start` on whose time parses and reaches the target, or -1 |
| Crisis.FindSplitIndex | exitsign.py:88-127 | the method computes the split |
| Crisis.EventColCaseIns | exitsign.py:82-86 | the event column is the first case-insensitive match of "robotEvent", else of "Event"; -1 exactly when neither exists |
| Crisis.SplitByHeader | exitsign.py:74-87 | without an event column there is no split |
| Crisis.FindCrisisSplitIndex | exitsign.py:74-127 | Time and the event column are found by trimmed, case-insensitive header match, then the split is computed |
| Sections.LinesAt | pupilsizeshook.cpp:204-207 | line k of a written section is value k formatted |
| Sections.Written | pupilsizeshook.cpp:204-213 | a written file has one line per before value, one separator line and one line per after value |
| Sections.Write | pupilsizeshook.cpp:204-213 | the writer loop emits the before values, an empty line, then the after values, in order |
| Sections.ReadSections | luminance.cpp:54-71 | the reader loop returns the parsed lines before the first blank line as the before list and every parsed line after it as the after list, skipping lines that do not parse |
| Sections.ReadAfter | luminance.cpp:57-68 | once past the first blank line, each line can only add to the after list |
| Sections.ReadAtBlank | luminance.cpp:57-61 | the first blank line switches to the after section and adds nothing |
| Sections.ReadBefore | luminance.cpp:62-66 | before the first blank line, each line can only add to the before list |
| Sections.SplitAtFirstBlank | luminanceexpected.cpp:95-108 | a file made of non-blank lines, a blank line and anything after splits into the values of the first part and those of the rest |
| Sections.ReadLines | luminanceexpected.cpp:104-106 | when every listed value is formatted as a non-blank line that parses back to it, the lines are all kept, in order, and none is blank |
| Sections.ReadWritten | pupilsizecal.cpp:152-176 | reading a file the extractors wrote gives back the before list and the after list, whenever every value written (before and after) parses back to itself |
| PupilSize.FindPupilCols | pupilsize.py:52-64 | the left column is the first whose normalized token contains "leftpupil" and the right column, found independently, the first containing "rightpupil"; -1 when there is none |
| PupilSize.TimeCol | pupilsize.py:240-248 | a column named exactly "Time" wins; otherwise the first whose token is "time"; -1 exactly when neither exists |
| PupilSize.ComputeStatsAndN | pupilsize.py:87-98 | n and used_after_drop are the number of values that are not -1, total_in_window is the number of values, dropped is the number of -1 values |
| PupilSize.UsedAfterDrop | pupilsize.py:87-90 | used_after_drop = total_in_window - dropped_-1, and no -1 remains among the used values |
| PupilSize.FewValues | pupilsize.py:100-106 | no usable value gives four NaNs and n = 0; one usable value gives a NaN SD with the sd_nan flag and its own value as the mean; two or more give the sample variance and no flag |
| PupilSize.MinMax | pupilsize.py:108-112 | the max is a used value above all used values; the min is NaN exactly when no used value is non-negative, otherwise the least non-negative used value; min <= max when both exist |
| PupilSize.Collect | pupilsize.py:127-146 | one window's values are drawn from the rows scanned so far, at most one per row |
| PupilSize.ExtractWindowStats | pupilsize.py:116-151 | with no finite time both sides are the empty statistics; otherwise each side's statistics are those of the values, in row order, of the rows whose time lies in the window and whose own cell parses, the two sides independent of each other |
| PupilSize.NoFiniteSameAsEmpty | pupilsize.py:126-128 | without a finite time no value is collected, so the shortcut returns what the loop would |
| PupilSize.WindowsPartition | pupilsize.py:270-291 | the full-pre and full-post windows split every time, the crisis instant belonging to post; the five-second windows are [c-5, c) and [c, c+5] and lie inside them |
| PupilSize.SkipReason | pupilsize.py:205-265 | a participant's windows are computed exactly when the CSV and a finite crisis time exist, the file reads, has data rows, a time column and both pupil columns |
| LocationTimeMap.RelaxedCol | locationtimemap.py:45-56 | the relaxed column is -1 or a column of the header |
| LocationTimeMap.LookUp | locationtimemap.py:49-55 | the inner loop finds the first normalized header that contains the normalized key, or -1 |
| LocationTimeMap.RelaxedMapPut | locationtimemap.py:55 | storing a key's relaxed column keeps every key of the map mapped to its own relaxed column |
| LocationTimeMap.KeysPut | locationtimemap.py:48-55 | after key i the map holds exactly the first i + 1 keys |
| LocationTimeMap.FindColumnIndicesRelaxed | locationtimemap.py:45-56 | the map holds exactly the wanted keys, each mapped to the first header whose normalized form contains its normalized form, else -1 |
| LocationTimeMap.Collapse | locationtimemap.py:39 | collapsing whitespace runs never lengthens the text |
| LocationTimeMap.CollapseSpec | locationtimemap.py:38-39 | after `re.sub(r"\s+", " ", s)` the only whitespace left is single plain spaces, never two in a row |
| LocationTimeMap.EventTexts | locationtimemap.py:137-144 | one entry per data row, each paired with that row |
| LocationTimeMap.EventTextAt | locationtimemap.py:144 | the text paired with a row is its normalized robotEvent cell, "" for a row too short |
| LocationTimeMap.TimeColOrZero | locationtimemap.py:131-132 | the time column is a header column, or 0 when none matches |
| LocationTimeMap.TagRowTime | locationtimemap.py:128-135 | there is no tag row for a file without a header line or without a robotEvent column |
| LocationTimeMap.Shift | locationtimemap.py:147-150 | the shifted time exists exactly when the tag row's time does, and differs from it by the offset |
| LocationTimeMap.TagRowTimeSpec | locationtimemap.py:137-150 | a time is found exactly when some data row reaches both columns, has a time that parses and a normalized event holding the folder's tag; it is the time of the first such row |
| LocationTimeMap.ScanTagRow | locationtimemap.py:125-153 | the scan returns the time of the first tagged data row, or nothing |
| LocationTimeMap.DetectCrisisTime | locationtimemap.py:118-153 | the crisis time is the tag row's time in the shook folder and that time plus 0.229 in the noshook folder, shook and 0.2 seconds being the tags |
| LocationTimeMap.NormTable | locationtimemap.py:109 | one normalized row per row of the table |
| LocationTimeMap.NormRow | locationtimemap.py:109 | a normalized row has one cell per column of the table |
| LocationTimeMap.NormRowAt | locationtimemap.py:102-109 | each cell of a normalized row is the normalized text of the cell, "nan" for a missing one |
| LocationTimeMap.AnyCellHasSpec | locationtimemap.py:112-113 | a row matches in the full scan exactly when some normalized cell contains the needle |
| LocationTimeMap.TagHits | locationtimemap.py:100-115 | one flag per row, set exactly when the roomEvent cell holds the needle, or, without that column, any cell does |
| LocationTimeMap.FlaggedBelow | locationtimemap.py:104-114 | `np.flatnonzero`: exactly the flagged rows, in strictly ascending order |
| LocationTimeMap.LocateNeedle | locationtimemap.py:92-115 | the count equals the length of the strictly ascending list of rows holding the needle, and the full-scan flag is set exactly without a roomEvent column |
| LocationTimeMap.AbsPos | locationtimemap.py:156-163 | a position exists exactly when all three coordinates parse and none equals -1, and then every coordinate is non-negative |
| LocationTimeMap.CoverClosing | locationtimemap.py:262-287 | appending an interval keeps every covered row covered and covers the interval's rows |
| LocationTimeMap.Visits | locationtimemap.py:245-287 | the visits are maximal runs of inside rows within [i_enter, i_exit], in order and separated by a gap, and every inside row of the window is in one |
| LocationTimeMap.VisitStep | locationtimemap.py:258-263 | one round of the visit bookkeeping keeps the loop's invariant |
| LocationTimeMap.VisitOpens | locationtimemap.py:259-260 | an inside row after an outside one opens a visit |
| LocationTimeMap.VisitCloses | locationtimemap.py:261-263 | an outside row after an inside one closes the open visit at the previous row |
| LocationTimeMap.VisitGoesOn | locationtimemap.py:258-263 | any other row leaves the bookkeeping as it is |
| LocationTimeMap.Sessions | locationtimemap.py:246-289 | the sessions lie within [i_enter, i_exit], each has start at most end and only inside rows still relative to its first one, ends at the window's end or before a row that is outside or has moved, follows the previous one, and every inside row is in one |
| LocationTimeMap.SessionsDone | locationtimemap.py:288-289 | after the last row, the open session, if any, closes at i_exit and the sessions are complete |
| LocationTimeMap.SessionStep | locationtimemap.py:265-281 | one round of the session bookkeeping keeps the loop's invariant |
| LocationTimeMap.CloseSession | locationtimemap.py:269-279 | a row that is outside or has moved closes the open session at the previous row, keeping the closed sessions maximal and covering |
| LocationTimeMap.StartedAt | locationtimemap.py:271-272 | an inside row with no open session, or one that has moved, opens a session from its own position |
| LocationTimeMap.ExtendedTo | locationtimemap.py:273-275 | an inside row still relative to the session's first position joins the open session |
| LocationTimeMap.Duration | locationtimemap.py:297-301 | a duration exists exactly when both end times are finite, and it is end time minus start time |
| LocationTimeMap.ArgMaxBelow | locationtimemap.py:304-308 | `np.nanargmax`: -1 exactly when every duration is NaN, else the first index of the largest defined duration |
| LocationTimeMap.MoveAgainFrom | locationtimemap.py:317-323 | the first row up to i_exit whose position and time are valid and that is not still relative to the reference, or -1 when there is none |
| LocationTimeMap.FindMoveAgain | locationtimemap.py:313-323 | the loop after the longest session returns the first row after its end that moves again from the position at its last row |
| LocationTimeMap.Durations | locationtimemap.py:303 | one duration per session, in order |
| LocationTimeMap.DeltaOutcome | locationtimemap.py:330-333 | a measured delta is flagged an outlier exactly when its absolute value exceeds ten seconds |
| LocationTimeMap.FirstLongestUnique | locationtimemap.py:308 | there is only one first longest session |
| LocationTimeMap.DeltaOutcomeSpec | locationtimemap.py:296-343 | a delta is the crisis time minus the time of the first move after the first longest session; there is none exactly when no session has a defined duration or nothing moves after that session |
| LocationTimeMap.TimesOf | locationtimemap.py:236 | one time per row |
| LocationTimeMap.PositionsOf | locationtimemap.py:237-255 | one position per row |
| LocationTimeMap.InsideOf | locationtimemap.py:256 | a row is inside exactly when its position is in the crisis sphere |
| LocationTimeMap.InsideIsAt | locationtimemap.py:165-168 | only a parsed position can be inside the crisis sphere |
| LocationTimeMap.TagGate | locationtimemap.py:221-233 | the analysis goes on exactly when each tag occurs once and the exit row is not before the enter row, and the window is then those two rows; otherwise the reason is the tag count or the order |
| LocationTimeMap.Prepare | locationtimemap.py:189-242 | the guards in the source's order: no crisis tag, an empty table, no time column, no robot columns, the tag gate and no finite time each skip, and a participant who passes has a window [i_enter, i_exit] within the table |
| LocationTimeMap.Gated | locationtimemap.py:221-242 | a closed gate skips with its reason; an open one skips exactly when no time is finite |
| LocationTimeMap.AnalyzeIndex | locationtimemap.py:183-343 | a skipped participant has its reason and no segments; otherwise the visits and sessions of its window and the delta computed from them |
| LocationTimeMap.MeasureDelta | locationtimemap.py:296-343 | the longest session, its move-again row and the delta with its flag |
| LocationTimeMap.GroupDeltas | locationtimemap.py:360-373 | measured deltas go by folder, in order, outliers with their index and the others to the kept lists; unmeasured ones are dropped |
| LocationTimeMap.KeptWithinThreshold | locationtimemap.py:333-373 | every kept delta lies within ten seconds and every listed outlier is beyond them |
| LocationTimeMap.Summarize | locationtimemap.py:376-387 | a mean exactly when something was kept and a sample variance exactly from two kept deltas on |
| LocationTimeMap.KeptMeanWithin | locationtimemap.py:376-384 | the kept mean also lies within ten seconds |
| Velocity.SplitExact | velocity.py:57-108 | with the event column found by exact header name, robotEvent and failing that Event, the split is the shared crisis split on that column; without either it is -1 |
| Velocity.SplitIndexShookOr02 | velocity.py:57-108 | the method computes that split |
| Velocity.Markers | velocity.py:264-286 | one marker per row: roomEvent compared exactly when that column exists, else a substring of the stripped, lower-cased Event cell |
| Velocity.StateAfterLatest | velocity.py:265-274 | a row is in the survey room exactly when the latest marker at or before it is an "Entered" one |
| Velocity.SurveyMask | velocity.py:264-286 | the mask has one entry per row, equal to the toggle's state after that row; with neither column it is all false |
| Velocity.ToggleLoop | velocity.py:268-274 | the loop records after each row the state set by the last Enter or Exit marker so far |
| Velocity.NeverEntered | velocity.py:264-265 | without any marker no row is in the survey room |
| Velocity.NeverEnteredUpTo | velocity.py:264-265 | without any marker the toggle is off after any number of rows |
| Velocity.Speeds | velocity.py:110-139 | at most one speed per pair of adjacent rows |
| Velocity.LastValid | velocity.py:118-138 | prev_idx is the last row of the mask before the current one, or none |
| Velocity.ComputeSpeedsForMask | velocity.py:110-139 | the loop returns, in order, the speeds of the pairs of adjacent rows both in the mask with finite positions and strictly increasing finite times |
| Velocity.SpeedsFromAdjacent | velocity.py:126-137 | every speed comes from two adjacent rows both in the mask, with increasing times and known positions |
| Velocity.ValidMask | velocity.py:291-292 | a row is valid exactly when its time and position are finite and it is not in the survey room |
| Velocity.PreMask | velocity.py:313 | a row is in the pre mask exactly when it is valid and strictly before the crisis time |
| Velocity.PostMask | velocity.py:314 | a row is in the post mask exactly when it is valid and at or after the crisis time |
| Velocity.MasksPartition | velocity.py:292-314 | the pre and post masks never overlap and together hold exactly the valid rows |
| Velocity.CrisisTime | velocity.py:302-310 | there is a crisis time exactly when there is a split row with a finite time, and then it is that time |
| Follow.PackRows | followdistancetime.py:263-274 | the packed rows are exactly the raw rows that reach every required column and whose seven numbers parse, in order |
| Follow.OnSideExactlyOne | followdistancetime.py:137-138 | every time lies on exactly one side of a crisis time: before it for pre, at or after it for post |
| Follow.MatchBelow | followdistancetime.py:159-169 | the match lies below the scan start, or is -1 |
| Follow.MatchBelowSpec | followdistancetime.py:159-169 | a match is on the side, at most the follow window before the robot time and close to the robot, and every later row on the side is inside the window and not close; without a match, every close row on the side is preceded in the backward scan by a row more than the window in the past |
| Follow.FindMatch | followdistancetime.py:159-169 | the backward scan over all rows returns that match |
| Follow.FollowStats | followdistancetime.py:121-179 | the followed distance and time are those accumulated over every robot row in order |
| Follow.FollowRow | followdistancetime.py:140-177 | one pass of the outer loop body computes the step for its row |
| Follow.BoundaryResets | followdistancetime.py:146-153 | an "entered survey room" or "exited survey room" row on the side forgets the previous match, adds nothing, and sets inside_survey exactly on entering |
| Follow.SkippedRows | followdistancetime.py:141-155 | a row off the side, or inside the survey room, changes nothing |
| Follow.FirstMatchAddsNothing | followdistancetime.py:173-177 | a match with no previous match only records its position and time |
| Follow.DistanceGrows | followdistancetime.py:173-175 | with a non-negative norm the followed distance is never negative and never decreases from row to row |
| Follow.StepGrows | followdistancetime.py:174 | with a non-negative norm one step never decreases the followed distance |
| Follow.CrisisTimeWith | followdistancetime.py:297-312 | a crisis time exists exactly when some packed row mentions "shook" in robotEvent or some row has a cell containing the tag; a "shook" row wins and gives its own time |
| Follow.CrisisFallbackTime | followdistancetime.py:307-312 | without a "shook" row, the crisis time is the time of the first row having a cell that contains the tag plus the 0.229 s offset, and there is none when no such row exists |
| Follow.NumericCellTriggersFallback | followdistancetime.py:310 | as written, a row whose time cell reads "10.25" and which has no event at all places the crisis at 10.25 + 0.229; with the "0.2 seconds" tag there is no crisis |
| Follow.WrittenFallbackFirst | followdistancetime.py:299-311 | the written fallback, any cell containing "0.2", picks the row the "0.2 seconds" tag rule picks or an earlier one, so it finds a crisis whenever the tag rule does |
| Follow.FindCrisisTime | followdistancetime.py:297-312 | the two scans compute that crisis time |
| Follow.FollowOutcome | followdistancetime.py:314-345 | no packed rows give NaN everywhere; without a crisis the whole file is the overall and pre and post are NaN; otherwise pre and post both exist and overall is their sum in distance and in time |
| Follow.RequiredCols | followdistancetime.py:246-256 | the columns are found exactly when all eight required names exist, case-insensitively |
| Follow.ProcessCsv | followdistancetime.py:236-345 | an empty header, a missing column or no data rows gives NaN everywhere; otherwise the totals of the packed rows around the crisis time found by the rule as written: a "shook" row, else the first row with any cell containing "0.2" |
| Follow.FollowFromRows | followdistancetime.py:284-345 | the totals once the crisis time is known |
| GazeSpread.SpreadOf | sdgaze.py:135-141 | a spread exists exactly when every axis has at least two values, and then each axis' variance is non-negative |
| GazeSpread.AxesOrdered | sdgaze.py:129-134 | the appends inside one try leave at least as many x values as y values and at least as many y values as z values |
| GazeSpread.SegmentSdGaze | sdgaze.py:115-141 | the loop collects, per axis, the parsed values of the rows that reach all three columns with no empty cell, a failed parse keeping the appends already made, and returns their spread |
| GazeSpread.GazeFile | sdgaze.py:203-238 | a missing gaze column gives NaN in all three cells; the pre and post cells are NaN when there is no split row or no Time column |
| GazeSpread.ShookWithoutTime | sdgaze.py:222-229 | a "shook" row yields a split even without a Time column, and the pre and post cells still stay NaN |
| GazeSpread.SidesAroundSplit | sdgaze.py:225-238 | with every column and a split row, pre is the spread of the rows before the split and post of those after it; each axis' overall values are the pre values, the split row's own, then the post values |
| GazeSpread.ProcessGazeFile | sdgaze.py:203-238 | the per-file steps compute exactly `GazeFile`'s three cells |
| PlayerRobotDistance.ComputeDistances | playerrobotdistance.py:117-131 | one distance per row that reaches the six coordinate columns and whose coordinates all parse, in order |
| PlayerRobotDistance.PrePostDistances | playerrobotdistance.py:259-263 | the overall distances are the pre distances, the split row's own, then the post distances; the split row is in neither side |
| LookRuns.RobotHits | looksatrobot.py:62-75 | one flag per row: the row reaches the LookingAt column and its cell is exactly "Robot" |
| LookRuns.SignageHits | exitsign.py:58-71 | one flag per row: the row reaches the LookingAt column and its cell starts with "Signage" |
| LookRuns.RunsAtMostTrues | looksatrobot.py:55-76 | there are never more looks than looking rows, and at least one look when some row looks |
| LookRuns.TrueLast | looksatrobot.py:70 | a sequence ending in a looking row has a looking row |
| LookRuns.RunsBlock | looksatrobot.py:70-73 | an uninterrupted block of looking rows is one look |
| LookRuns.RunsAppend | looksatrobot.py:61-75 | counting two stretches separately adds one look exactly when both meet inside a look |
| LookRuns.SplitRuns | looksatrobot.py:227-228 | leaving the split row out changes the number of looks by at most one |
| LookRuns.CountRobotLooks | looksatrobot.py:55-76 | the in_look state machine counts the maximal blocks of consecutive rows whose cell is "Robot"; a short row or an empty cell ends a block |
| LookRuns.CountSignageLooks | exitsign.py:51-72 | the same machine counts the maximal blocks of rows whose cell starts with "Signage" |
| LookRuns.SignageBlock | exitsign.py:66-69 | rows all looking at signage form a single look |
| LookRuns.HitsSlice | exitsign.py:217-218 | the flags of the pre rows and the post rows are the matching slices of the overall flags |
| LookRuns.PrePostLooks | looksatrobot.py:227-228 | the pre and post look counts add up to within one of the overall count, for robot looks and for signage looks |
| LookShare.AtRobotAtMostReaching | lookingatrobot.py:59-64 | no more rows looking at the robot than rows reaching the column |
| LookShare.PercentLookingRobot | lookingatrobot.py:51-65 | the denominator counts every row reaching the column, blank or not, the numerator those whose cell is exactly "Robot"; the share is their percentage, between 0 and 100, and NaN exactly when no row reaches the column |
| LookShare.ShareBounds | lookingatrobot.py:65 | a count of at most n over n, as a percentage, lies between 0 and 100 |
| LookShare.PrePostDenominators | lookingatrobot.py:230-231 | without the split row, the pre and post denominators and numerators add up to at most the overall ones |
| PupilReport.FindPupilColumns | shookpupil.cpp:66-78 | each eye's column is the last header cell whose trimmed text contains "leftPupil" (resp. "rightPupil"), found independently, or -1 |
| PupilReport.FindEventColumn | shookpupil.cpp:238-244 | the event column is the first header cell whose trimmed text contains "robotEvent", or -1 |
| PupilReport.FirstDataRow | shookpupil.cpp:83 | the result is -1 exactly when no data row (row 1 on) satisfies the test; otherwise it is a data row that does and no earlier data row does |
| PupilReport.FindEventRows | shookpupil.cpp:81-97 | the "0.2 seconds" row and the "shook" row are each the first data row long enough to have the event column whose event cell contains the tag, or -1; the early break changes neither |
| PupilReport.FindEventRow | noshookpupil.cpp:80-89 | the event row is the first data row having any cell that contains "0.2 seconds", or -1 |
| PupilReport.CalculateSpread | noshookpupil.cpp:91-103 | the loop computes the squared deviations from the mean over n - 1, and -1 for fewer than two values |
| PupilReport.SpreadMeaning | shookpupil.cpp:99-108 | the spread is -1 exactly for fewer than two values, is never negative otherwise, and about the mean it is the sample variance |
| PupilReport.SkipSample | shookpupil.cpp:134 | a sample timed outside a window leaves that window's tally unchanged |
| PupilReport.SkipKept | shookpupil.cpp:135 | a sample a window does not keep leaves its kept list unchanged |
| PupilReport.OneMoreInside | shookpupil.cpp:134-151 | the field-by-field update of one window block is the tally of the samples with the new one appended |
| PupilReport.KeptInside | shookpupil.cpp:135-139 | a kept list with its sum and counter, after one more sample, is again the list of kept values with their sum and number |
| PupilReport.KeepAdds | shookpupil.cpp:136-138 | adding a kept value to the sum and the counter keeps them the sum and the length of the kept list |
| PupilReport.Accept | shookpupil.cpp:134-151 | one window block for a sample inside the window gives the tally of the samples so far plus that one |
| PupilReport.Offer | shookpupil.cpp:132-150 | a parsed sample offered to a window gives the tally of the samples so far plus that one: counted when its time lies in the closed window, ignored otherwise |
| PupilReport.Accumulate | shookpupil.cpp:120-166 | the row loop leaves each window's tally equal to the tally of all parsed samples over that window: rows, kept strictly positive left, right and luminance values, their sums and counts |
| PupilReport.KeptPositive | shookpupil.cpp:135 | every value a window keeps is strictly positive |
| PupilReport.SumPositive | shookpupil.cpp:136 | a non-empty list of strictly positive values has a strictly positive sum |
| PupilReport.CoverageAgrees | shookpupil.cpp:168-173 | the corrected coverage rule agrees with the written one on every window with rows; on a window without rows the written one is NaN and the corrected one -1 |
| PupilReport.CoveredMean | shookpupil.cpp:168 | over strictly positive values the average is not -1 exactly when some value was kept and at least half the rows kept one, and then it is their mean and positive |
| PupilReport.LeftAverage | shookpupil.cpp:168 | the left average of a window is not -1 exactly when it kept a value in at least half its rows, and then it is the mean of the kept left values and positive |
| PupilReport.RightAverage | shookpupil.cpp:169 | the same for the right average and the kept right values |
| PupilReport.LumAverage | shookpupil.cpp:172-173 | a window's luminance average is -1 or strictly positive, and not -1 exactly when at least half its rows kept a luminance |
| PupilReport.Entries | shookpupil.cpp:174-179 | the corrected result has 14 entries, each window contributing luminance, average, count and spread per eye |
| PupilReport.EntriesAsWritten | shookpupil.cpp:168-179 | the result as written has 14 entries; its averages follow the written coverage rule, NaN for a window without rows |
| PupilReport.WrittenOnPopulatedWindows | shookpupil.cpp:168-179 | on two windows that both have rows, the written entries are the corrected ones except the last, which repeats the before window's right spread |
| PupilReport.ShookAverages | shookpupil.cpp:112-180 | the written entries exist exactly when both event times parse, and then there are 14 of them |
| PupilReport.AroundEvents | shookpupil.cpp:134-179 | the written entries of the two five-second windows number 14, and the last one equals the before window's right spread |
| PupilReport.CalculatePupilAverages | shookpupil.cpp:112-180 | the method returns the written entries of the window ending at the "0.2 seconds" time and the window starting at the "shook" time, or nothing when an event time does not parse |
| PupilReport.NoShookAverages | noshookpupil.cpp:107-183 | with no event row the result is four -1 entries; otherwise entries exist exactly when the tag time parses, and there are 14 |
| PupilReport.CalculatePupilAveragesNoShook | noshookpupil.cpp:107-183 | the method returns the four -1 entries without an event row, else the written entries of the window ending at the tag time and the window starting 0.229 s after it, or nothing when the tag time does not parse |
| PupilReport.Judge | shookpupil.cpp:259-286 | a file with no positive luminance in either window is rejected, and only such a file; otherwise the run aborts exactly when the file index does not convert and some eye passes its check; with a converted index the left record is saved exactly when neither left average is below zero, and the right record exactly when neither right average is |
| PupilReport.JudgedLeft | shookpupil.cpp:259-270 | a saved left record passed the luminance check and both left averages are not below zero; it carries the converted index and the before and after luminance, left average, count and spread entries |
| PupilReport.JudgedRight | shookpupil.cpp:271-279 | a saved right record passed both checks for the right eye and carries the right-eye entries of both windows |
| PupilReport.KeptWithinRows | shookpupil.cpp:134-151 | a window keeps at most one left value, one right value and one luminance per row it counts |
| PupilReport.WindowKept | shookpupil.cpp:134-151 | every window tally keeps strictly positive values with their sums and counts, no more than its rows |
| PupilReport.NotBelowCovered | shookpupil.cpp:261-262 | a written average over strictly positive values that passes the `< 0` check is NaN for a window without rows or the positive mean of values kept in at least half the rows |
| PupilReport.SavedLeftAsWritten | shookpupil.cpp:261-270 | as written, a saved left record carries the converted index and, per window, NaN for a window without rows or else the positive mean of the left values kept in at least half its rows, their count and their spread; some window's luminance is positive |
| PupilReport.SavedRightAsWritten | shookpupil.cpp:271-279 | as written, a saved right record carries each window's NaN or covered right mean and count, but both its spreads are the before window's right spread |
| PupilReport.SavedLeft | shookpupil.cpp:261-270 | corrected, a saved left-eye record carries, per window, the mean of the kept left values (from a window where at least half the rows kept one), their count and their spread, and some window's luminance is positive |
| PupilReport.SavedRight | shookpupil.cpp:271-279 | corrected, a saved right-eye record carries, per window, the mean, count and spread of that window's own kept right values |
| PupilReport.ProcessShookFile | shookpupil.cpp:221-287 | one file of the shook tool ends as the first failing step (empty file, pupil column, event column, event tags), as an aborted run when an event time or the file index does not convert, or as the verdict on its written entries |
| PupilReport.ProcessNoShookFile | noshookpupil.cpp:225-269 | one file of the noshook tool ends as an empty file, a missing tag, an aborted run when the tag time or the file index does not convert, or the verdict on its written entries; the pupil columns are not checked |
| PupilReport.EmptyWindow | shookpupil.cpp:134 | a window in which no sample is timed tallies nothing |
| PupilReport.EmptyBeforeWindowAsWritten | shookpupil.cpp:168-173 | as written, a file without a row in the before window but a covered after window has NaN before luminance and left average, passes the luminance and left-eye checks and saves a left record whose before average is NaN |
| PupilReport.EmptyBeforeWindow | shookpupil.cpp:168-173 | corrected, a window without rows has both eye averages -1 and no eye record is saved |
| PupilReport.LastEntryAsWritten | shookpupil.cpp:178 | as written, the last entry is the before window's right spread, whatever the after window holds |
| PupilReport.LastEntryCounterexample | shookpupil.cpp:178 | before right values 1 and 3 and after right values 5 and 5 give a written last entry of 2 where the after window's spread is 0 |
| Extract.WindowMember | pupilsizeshook.cpp:173-194 | a value is in a window exactly when some data row, read successfully and timed inside the closed window, carries it |
| Extract.CollectWindows | pupilsizeshook.cpp:173-194 | one pass over the data rows leaves the before list and the after list equal to the values of the rows read in each window, in row order; a row may land in both |
| Extract.WindowStep | pupilsizeshook.cpp:186-193 | one more data row appends its value to a window's list exactly when it is read and timed inside the window |
| Extract.ExtractShook | pupilsizeshook.cpp:118-216 | one file of a shook extractor: empty file, missing pupil column, missing robotEvent column, missing tag, unparseable event time, or the two windows [t02 - 5, t02] and [tShook, tShook + 5] |
| Extract.ExtractShookColumns | pupilsizeshook.cpp:132-156 | the rest of a shook file once the pupil and event columns are known |
| Extract.ExtractShookRows | pupilsizeshook.cpp:152-194 | the rest of a shook file once the event rows are known |
| Extract.ExtractNoShook | pupilsizenoshook.cpp:113-199 | one file of a noshook extractor: empty file, missing pupil column, missing tag, unparseable tag time, or the windows [t - 5, t] and [t + 0.229, t + 5.229] |
| Extract.ExtractNoShookColumns | pupilsizenoshook.cpp:127-177 | the rest of a noshook file once the pupil columns and the event row are known |
| Extract.PlaceholdersKept | pupilsizeshook.cpp:184-193 | every parsed pupil row timed in a window contributes its pair, a -1 placeholder included |
| Extract.NoLumPlaceholder | luminanceshook.cpp:180-181 | the luminance extractors never keep the -1 placeholder |
| Extract.NoShookLumColumnZero | luminancenoshook.cpp:156 | with leftPupil in column 0 the guard compares against (unsigned)-1 and every row is skipped |
| Extract.WindowSkipsAll | luminancenoshook.cpp:156-157 | when no data row can be read, both windows are empty |
| Extract.ShookNeedsBothColumns | pupilsizeshook.cpp:132-136 | a shook file is skipped for its columns exactly when either pupil column is missing |
| Extract.NoShookColumnRule | luminancenoshook.cpp:127-131 | a noshook file is skipped for its columns exactly when leftPupil is missing, or rightPupil is missing and required (pupilsizenoshook.cpp:128 requires it, luminancenoshook.cpp does not) |
| Extract.SectionFileRoundTrip | pupilsizeshook.cpp:205-213 | what an extractor writes (before values, a blank line, after values) is read back as the same two lists by the readers that switch at the first whitespace-only line: pupilsizecal.cpp for the pupil pairs, luminance.cpp for the luminance values of luminanceshook.cpp and luminancenoshook.cpp, whenever each written value's line parses back to it |
| Extract.ExpectedFileRoundTrip | luminanceexpected.cpp:87-112 | what a luminance extractor writes, readLuminanceFile of luminanceexpected.cpp reads back as the same two lists, whenever each written value's trimmed line parses back to it |
| PupilSizeCal.Lefts | pupilsizecal.cpp:168 | one value per pair, and value k is the left value of pair k |
| PupilSizeCal.Rights | pupilsizecal.cpp:169 | one value per pair, and value k is the right value of pair k |
| PupilSizeCal.EyeStats.constructor | pupilsizecal.cpp:133-137 | four fresh, distinct accumulators, one per eye and window, with no values |
| PupilSizeCal.TakePair | pupilsizecal.cpp:164-171 | each eye's statistics take in the pair's value for that eye unless it is -1, and nothing else changes |
| PupilSizeCal.AddWindow | pupilsizecal.cpp:164-174 | each eye's statistics take in that eye's values of the section other than -1, in order, while the file's vectors keep every value, -1 included |
| PupilSizeCal.Taken | pupilsizecal.cpp:166-169 | one more value is taken in by the statistics unless it is -1, and always by the file's vector |
| PupilSizeCal.AddPupilFile | pupilsizecal.cpp:140-200 | one extracted file updates the all-data-points statistics with its section values other than -1 and the per-person statistics with each of its four averages that is not -1 |
| PupilSizeCal.AddToGlobal | pupilsizecal.cpp:152-175 | the before and after sections update the four all-data-points statistics with their values other than -1, and the file's four vectors come back with every value |
| PupilSizeCal.AddToPerson | pupilsizecal.cpp:177-199 | each per-person statistics takes in the average of its file vector unless that average is -1, as it is for a vector with no value other than -1 |
| Aggregate.RunningBounds | pupilsizecal.cpp:96-97 | the sentinel start never hides a value: the running minimum is at most the true minimum and the running maximum at least the true maximum |
| Aggregate.RunningExtremes | pupilsizecal.cpp:96-107 | once a value is seen, and every value is a finite double, the running extremes are the true minimum and maximum |
| Aggregate.UsedSnoc | pupilsizecal.cpp:102 | one more value adds itself to the used values exactly when it is not -1 |
| Aggregate.Accumulator.constructor | pupilsizecal.cpp:92-98 | a new accumulator holds no values: zero sums and count, the largest double as minimum and the lowest as maximum |
| Aggregate.Accumulator.Update | pupilsizecal.cpp:100-108 | -1 leaves the accumulator as it was; any other value is appended, and the accumulator stays the sum, sum of squares, count and running extremes of its values |
| Aggregate.Accumulator.MeanVariance | luminanceexpected.cpp:134-139 | (0, 0) without values, the value and 0 for one value, otherwise the mean and the sample variance of the values taken in |
| Aggregate.Accumulator.Report | pupilsizecal.cpp:110-121 | no data exactly when no value was taken in; otherwise the mean, the sample variance (0 for one value) and the running extremes, which bracket the mean |
| Aggregate.Summarize | pupilsizecal.cpp:166-172 | feeding a collection to a new accumulator takes in exactly its values other than -1, in order |
| Aggregate.SummarizedExtremes | pupilsizecal.cpp:116-120 | for a collection of finite doubles with a used value, the reported extremes are its true minimum and maximum |
| Aggregate.FileAvg | pupilsizecal.cpp:181-188 | the average of a file's values other than -1, or -1 when there is none |
| Aggregate.PersonEntryWhenValid | pupilsizecal.cpp:190-199 | with non-negative values, a file contributes a per-person entry exactly when it has a value other than -1, and that entry is non-negative |
| Aggregate.AddPerson | pupilsizecal.cpp:190-199 | the per-person accumulator takes in the file's average exactly when that average is not -1 |
| LuminanceExpected.MappingStateSnoc | luminanceexpected.cpp:53-66 | the reader's state after one more line is its step applied to the state so far |
| LuminanceExpected.ReadMappingFile | luminanceexpected.cpp:43-69 | the loop keeps exactly the rows that parse among the non-empty trimmed lines after the first non-empty one, the header |
| LuminanceExpected.MappingStateRows | luminanceexpected.cpp:52-66 | reading line by line with the header flag keeps exactly the parsed rows after the header line |
| LuminanceExpected.MappingStateSoFar | luminanceexpected.cpp:52-66 | after any prefix the flag says whether the header was passed, and the rows are the parsed lines between the header and the current line |
| LuminanceExpected.MappingStep | luminanceexpected.cpp:54-65 | one more line keeps that relation |
| LuminanceExpected.HeaderAt | luminanceexpected.cpp:55-58 | before the header has been seen, a line is the header exactly when it is non-empty |
| LuminanceExpected.AfterHeader | luminanceexpected.cpp:60-65 | after the header the flag stays set and a line that parses is appended |
| LuminanceExpected.AtHeader | luminanceexpected.cpp:56-58 | the header line sets the flag and adds no row |
| LuminanceExpected.BeforeHeader | luminanceexpected.cpp:55 | empty lines before the header change nothing |
| LuminanceExpected.MappingRoundTrip | luminanceexpected.cpp:43-69 | a non-blank header followed by rows, each written as a line the reader parses back to that row, reads back as exactly those rows |
| LuminanceExpected.HeaderFirst | luminanceexpected.cpp:56-58 | when the first trimmed line is non-empty it is the header, and the rows are the parsed rows of the remaining lines |
| LuminanceExpected.TrimmedAppend | luminanceexpected.cpp:54 | trimming distributes over concatenation of lines |
| LuminanceExpected.TrimmedLines | luminanceexpected.cpp:54 | trimming written lines is writing them with a trimming format |
| LuminanceExpected.StripRecovers | luminanceexpected.cpp:54-62 | rows whose lines the trimming reader recovers give, once trimmed, non-empty lines the row parser recovers |
| LuminanceExpected.ClosestIndex | luminanceexpected.cpp:72-83 | -1 exactly when every row differs from the luminance by at least the largest double; otherwise a row with the smallest difference, the first such, below that bound |
| LuminanceExpected.FindClosestMapping | luminanceexpected.cpp:72-83 | the loop returns the closest row, and the all-zero row for an empty mapping |
| LuminanceExpected.ExactMatch | luminanceexpected.cpp:76-80 | when some row has exactly the luminance looked up, the closest row has that luminance |
| LuminanceExpected.AvgLefts | luminanceexpected.cpp:198-212 | one expected left size per luminance value |
| LuminanceExpected.AvgRights | luminanceexpected.cpp:198-212 | one expected right size per luminance value |
| LuminanceExpected.AvgAt | luminanceexpected.cpp:199-201 | the k-th expected size of each eye is that eye's average of the row closest to the k-th luminance |
| LuminanceExpected.ConvertWindow | luminanceexpected.cpp:198-204 | the loop converts each luminance of a window into the closest row's left and right averages, in order |
| LuminanceExpected.OnePerValue | luminanceexpected.cpp:198-212 | a converted file has exactly one expected size per eye for every before and every after luminance value |
| LuminanceExpected.ConvertFile | luminanceexpected.cpp:168-212 | a file is skipped when its name is shorter than five characters, its mapping file is missing or the mapping has no row; otherwise its before and after values are converted one by one |
| LuminanceExpected.GatherExpected | luminanceexpected.cpp:168-232 | across the files, the global vectors gain every converted value and the per-person vectors each file's average that is not -1 |
| LuminanceTotals.ComputeStats | luminance.cpp:13-30 | (0, 0) for no values; otherwise the mean, with variance 0 for one value and the sample variance from two values on |
| LuminanceTotals.GatherLuminance | luminance.cpp:44-75 | each file's before and after sections are appended to the global lists, file after file |
| LuminanceTotals.GatheredRoundTrip | luminance.cpp:55-71 | when the reader recovers every value a luminance extractor wrote, the file adds exactly its two windows to the global lists |
| PupilSizeTotals.ReadCount | pupilsize.cpp:26 | the stream reads every record up to, and not including, the first one that does not parse |
| PupilSizeTotals.ReadGoesOn | pupilsize.cpp:26 | the read loop goes on exactly while the next record parses |
| PupilSizeTotals.OneRecord | pupilsize.cpp:27-38 | one more record extends the kept values by its value exactly when that record keeps one |
| PupilSizeTotals.ExtentBrackets | pupilsize.cpp:45-56 | a reported window's minimum is at most its average and its maximum at least its average |
| PupilSizeTotals.RunningTake | pupilsize.cpp:27-32 | taking one more positive value keeps the sum, count and running extremes those of the kept values |
| PupilSizeTotals.ReportedExtent | pupilsize.cpp:45-56 | the report printed from running totals is the average and extremes of the kept values, or "No valid data" without any |
| PupilSizeTotals.ProcessFile | pupilsize.cpp:7-60 | each window's report is over exactly the strictly positive values of that window in the records read, independently of the other window |
| PupilSizeTotals.ValidValues | pupilsize.cpp:27-35 | a value is behind a reported window exactly when it is the strictly positive before size of a record read before the first unparseable one |
| TTestAfter.Trunc | t_test_after.cpp:48-49 | `(int)x` drops the fraction toward zero, from above for non-negative values and from below for negative ones |
| TTestAfter.KeySetMember | t_test_after.cpp:35 | a key belongs to the map's key set exactly when some entry carries it |
| TTestAfter.PutKeys | t_test_after.cpp:48-49 | `m[k] = v` adds `k` to the keys and no other key |
| TTestAfter.PutOrdered | t_test_after.cpp:48-49 | inserting into a `std::map` keeps the keys strictly increasing |
| TTestAfter.PutLookup | t_test_after.cpp:48-49 | after `m[k] = v`, `k` finds `v` and every other key finds what it found before |
| TTestAfter.LowerBound | t_test_after.cpp:80 | `lower_bound` is the first entry whose key is not below the target, or `end()` exactly when every key is below it |
| TTestAfter.ClosestEntry | t_test_after.cpp:77-86 | an entry is chosen exactly when the mapping is not empty |
| TTestAfter.ClosestMatch | t_test_after.cpp:77-86 | an empty mapping gives {-1, -1, -1, -1}; otherwise the data of the chosen entry |
| TTestAfter.ClosestAtEnds | t_test_after.cpp:80-82 | a target above every key gives the largest key; a target at or below the smallest key gives the smallest |
| TTestAfter.ClosestIsNearest | t_test_after.cpp:84-85 | the chosen key is at least as near to the target as every key of the mapping |
| TTestAfter.ClosestTieGoesUp | t_test_after.cpp:85 | when a key not below the target is as near as the chosen one, the chosen key is not below the target either |
| TTestAfter.ClosestExact | t_test_after.cpp:80-85 | a key equal to the target is the entry chosen |
| TTestAfter.TTestGuards | t_test_after.cpp:89-98 | -1 when either sample has fewer than two values or the pooled variance is zero; otherwise the pooled variance is positive, the degrees of freedom min(n1, n2) - 1 are at least one and below both counts, and the p-value is the tail at the squared t-score |
| TTestAfter.TTestSymmetric | t_test_after.cpp:89-98 | swapping the two samples leaves the p-value unchanged |
| TTestAfter.StreamGoesOn | t_test_after.cpp:47 | a group that parses is read and reading goes on after it |
| TTestAfter.StreamStops | t_test_after.cpp:47 | reading stops at the first group that does not parse |
| TTestAfter.PutAllSnoc | t_test_after.cpp:47-50 | a further group inserts its data under its luminance into the map built so far |
| TTestAfter.PutAllSpec | t_test_after.cpp:47-50 | the built map is ordered, and a luminance finds the data of the last group with that luminance, or nothing when no group has it |
| TTestAfter.PutAllKeys | t_test_after.cpp:47-50 | the keys of the built map are exactly the luminances read, whatever data is stored |
| TTestAfter.ReadLuminanceMapping | t_test_after.cpp:34-54 | the loop builds the left and right maps from the groups read up to the first that does not parse, a missing file giving none |
| TTestAfter.MappingsEmptyTogether | t_test_after.cpp:47-50 | the left map of a file is empty exactly when its right map is |
| TTestAfter.PupilMapSnoc | t_test_after.cpp:68-69 | a further line stores its after window under its index |
| TTestAfter.PupilMapSpec | t_test_after.cpp:57-74 | an index is in the map exactly when some line has it, and then holds the after window of the last such line |
| TTestAfter.ReadPupilData | t_test_after.cpp:57-74 | the loop returns the map of the lines read up to the first that does not parse |
| TTestAfter.TallyAdd | t_test_after.cpp:127-183 | handling one more index adds its outcome to exactly one of the matching counters |
| TTestAfter.Advance | t_test_after.cpp:127-183 | one round of the loop moves the index handled from the indices to do to those done, and the counters still count the outcomes of those done |
| TTestAfter.TestAll | t_test_after.cpp:105-183 | nothing when either summary is empty; otherwise the counters give, over the union of both summaries' indices, the numbers of missing mappings, of missing pupil data, of tests run and of rejections on each eye |
| TTestAfter.Handle | t_test_after.cpp:129-156 | one index is a missing mapping when its mapping holds no entry, else missing pupil data when either summary lacks it, else given a t-test on each eye against the closest after-window luminance |
| TTestAfter.TallyBounds | t_test_after.cpp:123-183 | passes never exceed the tests run, the tests run on an eye never exceed the indices reaching a t-test, and every index is counted once as a missing mapping, as missing pupil data or as reaching a t-test |
| TTestAfter.PassRate | t_test_after.cpp:188-189 | the printed percentage lies between 0 and 100 |
| Calibration.ExtractIndex | findcalibration.cpp:18-20 | `substr(0, 5)` is the prefix of the name of length five, or the whole name when it is shorter |
| Calibration.ToLowerCase | findcalibration.cpp:23-26 | the in-place `transform` keeps the length and maps every character to its lower-case form |
| Calibration.CommaFrom | findcalibration.cpp:58 | the next separator is -1 or a position at or after the start |
| Calibration.CommaFromSpec | findcalibration.cpp:58 | the next separator is the first comma from the start on, or -1 when there is none |
| Calibration.CellsCommaFree | findcalibration.cpp:58 | no cell split off by `getline(ss, cell, ',')` holds a comma |
| Calibration.CellsJoin | findcalibration.cpp:54-58 | splitting the comma-joined cells gives the cells back, when they hold no comma and the last is not empty |
| Calibration.Table | findcalibration.cpp:53-58 | one row of cells per line, in order |
| Calibration.FindSpec | findcalibration.cpp:61 | `find` reports the first occurrence from the start on, and -1 (`npos`) exactly when there is none |
| Calibration.FindContains | findcalibration.cpp:61 | `find` succeeds exactly when the text contains the keyword |
| Calibration.CellMentions | findcalibration.cpp:59-61 | a cell mentions a keyword exactly when its lower-cased text contains it |
| Calibration.FirstCellSpec | findcalibration.cpp:58-72 | the first cell of a row passing the test, from a start column on |
| Calibration.ScanStateSnoc | findcalibration.cpp:53-75 | one more line updates the state by that line's cells only |
| Calibration.RowStateSnoc | findcalibration.cpp:58-72 | one more cell records its position only when it passes the test and nothing was recorded yet |
| Calibration.HitPrefix | findcalibration.cpp:53-75 | the sightings in all but the last line are the sightings of the whole file above its last line |
| Calibration.ScanFirst | findcalibration.cpp:51-75 | the recorded (row, col) is the first sighting in reading order, row 0 being the first line; a keyword is found exactly when its row is not -1, and an unseen keyword keeps (-1, -1) |
| Calibration.SearchCalibrationKeywords | findcalibration.cpp:39-79 | the index and path, with nothing found for a file that cannot be opened, else the first sighting of each keyword |
| Calibration.ScanLines | findcalibration.cpp:50-75 | the nested row and cell loops with their counters record, for each test, the first sighting over the file's table of cells |
| Calibration.Extension | findcalibration.cpp:13-15 | the extension is empty or starts with a dot and ends the name |
| Calibration.CsvExtension | findcalibration.cpp:13-15 | a name has the `.csv` extension exactly when it ends in ".csv" after at least one more character |
| Calibration.TallyResult | findcalibration.cpp:106-121 | one more result increments exactly the counter of its category, and adds its path to the moved files exactly when it has both keywords |
| Calibration.Categorize | findcalibration.cpp:106-121 | the if-chain increments the counter of the result's category and moves the file exactly when both keywords were found |
| Calibration.FindCalibration | findcalibration.cpp:81-139 | nothing without the folder; otherwise one result per regular `.csv` entry, in order, with counters and moved files that account for them |
| Calibration.CategoriesPartition | findcalibration.cpp:106-121 | every result falls in exactly one category, so the four counts add up to the number of files |
| Calibration.MovedIffBoth | findcalibration.cpp:107-113 | a file is moved exactly when both keywords were found in it, and as many files are moved as are counted in "both" |
| Calibration.MovedCount | findcalibration.cpp:107-113 | the number of files moved is the count of "both" |
| Calibration.Percent | findcalibration.cpp:142-145 | between 0 and 100 for a count within the total, and count times 100 over the total whenever there is a file |
| Calibration.PercentagesAddUp | findcalibration.cpp:139-145 | with at least one file the four percentages add up to 100 |
| CrisisTimes.MatchInSpec | postcrisis.py:37-42 | a folder offers a file exactly when it is a directory listing a `.csv` name whose first five characters are the index, and then it offers the first such name joined to the folder |
| CrisisTimes.MatchingCsvSpec | postcrisis.py:36-43 | nothing exactly when no folder offers a file; otherwise the file of the first folder that offers one |
| CrisisTimes.FindMatchingCsv | postcrisis.py:36-43 | the nested folder and name loops return the file of the first folder that offers one, or nothing |
| CrisisTimes.FindMatchingTypedCsv | crisistime.py:32-42 | the loops return the file of the first folder whose name starts with shook or noshook and that offers one, passing over a match in any other folder |
| CrisisTimes.TypedAgree | crisistime.py:32-42 | over folders that are all of a known type, crisistime.py's rule picks the same file as postcrisis.py's |
| CrisisTimes.SameMatch | crisistime.py:10-15 | with the four configured folders the two scripts pick the same file for every index |
| CrisisTimes.EventCol | postcrisis.py:45-49 | the robotEvent column is -1 or a column of the header |
| CrisisTimes.EventColSpec | postcrisis.py:45-49 | it is the first column whose stripped, lower-cased name contains "robotevent", and -1 exactly when there is none |
| CrisisTimes.FindRobotEventCol | postcrisis.py:45-49 | the header scan returns at the first column that mentions "robotevent" |
| CrisisTimes.StripsToEmpty | postcrisis.py:66 | `cell.strip() == ""` holds exactly when the cell is all whitespace |
| CrisisTimes.NotBoth | crisistime.py:68-71 | no folder name starts with both "shook" and "noshook", so a row marks the crisis by one rule only |
| CrisisTimes.CrisisFromSpec | crisistime.py:60-72 | there is a crisis time exactly when some usable row marks the crisis: "shook" in its event cell in a shook folder, "0.2 seconds" in a noshook one; it is the first such row's time, plus 0.229 in a noshook folder |
| CrisisTimes.GetCrisisTime | crisistime.py:50-74 | the reader is consumed lazily: "no_header" without a header row, "no_column" without a robotEvent column, else the first marking row's crisis time, with "no_keyword" when no row marks it; a read error met before the header or before a marking row gives "other", one after the marking row is never reached |
| CrisisTimes.LastDataTimeSpec | postcrisis.py:74 | there is a last time exactly when some data row is usable, and then it is the time of the last usable row |
| CrisisTimes.ScanRowTimes | postcrisis.py:62-83 | the loop returns the first marking row's crisis time, the time of the first data row when that row is usable, and the time of the last usable row |
| CrisisTimes.GetCrisisAndRowTimes | postcrisis.py:51-85 | the whole file is read first, so a read error gives "other"; otherwise the same early returns as the crisis reader, then the row scan's three times, with "no_keyword" when no row marks the crisis |
| CrisisTimes.ScriptsAgree | postcrisis.py:51-85 | on a file read without error postcrisis.py finds a crisis time exactly when crisistime.py does, the same one, and otherwise the same reason; on a file with a read error postcrisis.py says "other", while crisistime.py says "other" or "no_column", or gives the crisis time of a marking row read before the error |
| CrisisTimes.LastTimeExists | postcrisis.py:72-80 | a file with a first time or a crisis time also has a last time |
| CrisisTimes.RowsLastTime | postcrisis.py:72-80 | the row behind a first time or a crisis time is usable, so the last usable row exists |
| CrisisTimes.IntervalsOf | postcrisis.py:104-106 | intervals are written exactly when all three times exist; the pre-crisis interval is crisis minus first time, and the two intervals add up to last minus first time |
| CrisisTimes.Record | crisistime.py:85-100 | one row's bookkeeping appends its value, or NaN, to the column and adds an unserved index to the list of its issue only |
| CrisisTimes.EveryRowOnce | postcrisis.py:95-115 | when no row is both served and listed, the column has one entry per row and written values plus the four lists' lengths add up to the rows |
| CrisisTimes.OneList | postcrisis.py:110-115 | a row with an issue lands in exactly one of the four lists |
| CrisisTimes.ListedStep | postcrisis.py:99-115 | one more row adds one entry to the list of its issue and none to another |
| CrisisTimes.CrisisOutcome | crisistime.py:77-100 | every row is either written or listed, never both |
| CrisisTimes.IntervalOutcome | postcrisis.py:87-115 | every row is either written or listed, never both |
| CrisisTimes.TimesOutcome | postcrisis.py:104-115 | a file's times give both intervals, or exactly one issue |
| CrisisTimes.CrisisRow | crisistime.py:78-100 | one row: no CSV when no file is found, else the crisis time, or the list its reason sends the index to, "no_header" and unreadable files going to "other" |
| CrisisTimes.IntervalRow | postcrisis.py:88-115 | one row: no CSV when no file is found, else the intervals from the file's times, or the list its reason sends the index to |
| CrisisTimes.Conclude | postcrisis.py:104-115 | both intervals when all three times exist; else a missing column or keyword has its list, and anything else, a missing first time included, goes to "other" |
| CrisisTimes.CrisisTimeMain | crisistime.py:77-100 | the report of the run is the report of every workbook row's outcome, in order |
| CrisisTimes.PostCrisisMain | postcrisis.py:87-115 | the report of the run is the report of every workbook row's outcome, in order |
| CrisisTimes.RunsAccountForEveryRow | postcrisis.py:87-115 | in each script's run, the written values and the four issue lists together account for every workbook row exactly once |

## Left out

- File system and spreadsheet I/O: directory listings, file copies and moves, folder creation, and the pandas and openpyxl workbook reads and writes. Rows, lines and file names arrive as given sequences. A directory listing's order is the order of the given sequence.
- The `complete` folder move of findcalibration.cpp is modelled only as the list of files that would be moved.
- Console and log output (`print`, `cout`) is not modelled.
- Number parsing and formatting are the parameters `parse` and `fmt`; Python's `str` of a float is the parameter `floatStr`. Texts that parse to NaN or infinity count as unparseable.
- Floating-point numbers are exact reals. Rounding, overflow and `round(x, 6)` on the noshook crisis time (crisistime.py:71, postcrisis.py:80) are not modelled. A NaN result is `None`.
- Square roots are not modelled: every "SD" (`calculateStdDev`, `np.std`, `stdev`) is kept as the n - 1 variance whose square root the source takes.
- The Euclidean norm, `np.linalg.norm`, is a parameter of the velocity, distance and follow models. locationtimemap.py's crisis-sphere and stillness tests compare squared distances with the squared radius and threshold, so no square root is taken; `Visits`, `Sessions`, `MeasureDelta` and `DeltaOutcome` take those two tests as arguments, and `AnalyzeIndex` supplies the concrete ones.
- The boost Student-t distribution is the parameter `tail` of the t-test. Only the guards, the statistic's inputs and the degrees of freedom are modelled.
- `std::set` and `std::map` iteration order is not modelled. TTestAfter.TestAll handles the participant indices in any order, and the mapping is modelled as its list of entries in key order.
- Strings are sequences of characters. Python's Unicode `strip()`, `lower()` and `isdigit()` are modelled with C's `isspace` set, ASCII case and the ASCII digits '0'-'9' only, and the NFC normalisation in `normalize_text` is not modelled.
- Paths are joined with `/` only.
- pandas' lenient CSV loading (skipped bad lines, dtype guessing) is not modelled beyond the table of text cells it produces.
- The uncaught conversion errors that end a run are modelled as the `Aborted` result: an event time in luminanceshook.cpp, and an event time or the file index in shookpupil.cpp and noshookpupil.cpp. What the process leaves behind when it exits, such as the records already saved and the per-run totals, is not modelled.
- luminanceshook.cpp:138 and :173, shookpupil.cpp:117 and :127, noshookpupil.cpp:111 and :128: with leftPupil in column 0 the luminance column is -1, and `data[i][-1]` is undefined behaviour in C++. noshookpupil.cpp also reads `data[i][-1]` (and the luminance at column -2) at :126-127 when leftPupil is missing but rightPupil is found, because its `main` (noshookpupil.cpp:232-238) does not check the pupil columns and rows long enough for rightPupil pass the guard at :121. The model reads no cell at a negative column, so every such row is skipped.
- The per-run totals of shookpupil.cpp and noshookpupil.cpp (the valid-eye counters, the summed averages and the lists of missing tags) are not modelled; each file's outcome is.
- calibration.cpp, shookrobotposition.py and the `CC(t)` cross-correlation scripts are not part of this model.
- Velocity.Speeds: its contract bounds only the number of speeds. Velocity.SpeedsFromAdjacent and Velocity.ComputeSpeedsForMask state which pairs of rows give a speed.
- LocationTimeMap.RelaxedCol: its contract states only that the result is -1 or a header column. Which header it is, the first one containing the key, is stated by the map-building rows beside it.

## Findings

| source | as written | input that shows it | evidently intended | confidence | as-written member | corrected member |
|---|---|---|---|---|---|---|
| shookpupil.cpp:178 | the last of the 14 entries, labelled "sd right after", is the spread of the before window's right-eye values; noshookpupil.cpp:181 has the same line | before-window right values 1 and 3, after-window right values 5 and 5: the entry is 2 (the before spread), not 0 | the spread of the after window's right-eye values | not executed | PupilReport.LastEntryCounterexample | PupilReport.Entries |
| shookpupil.cpp:168-173 | a window with no rows passes the 50% coverage test (0 >= 0) and divides 0 by 0, giving NaN; NaN is not `< 0`, so the validity checks at shookpupil.cpp:261-262 accept it | a file with no readable row between t02 - 5 and t02 and a well-covered after window | an average of -1 for a window without rows, so the eye check rejects the file | not executed | PupilReport.EmptyBeforeWindowAsWritten | PupilReport.EmptyBeforeWindow |
