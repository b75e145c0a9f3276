# ttbin2tcx core, modelled in Dafny

This project models the part of ttbin2tcx that turns a TomTom `.ttbin`
activity file into an in-memory activity before it is written out as TCX.
There are three parts.

- **The reader** is `TtbinFileReader` in `src/classes/ttbinreader.py`,
  modelled in `ttbin_reader.dfy`. A file is a stream of records. Each
  record is a one-byte tag and a little-endian body whose layout the tag
  fixes. The reader dispatches each of the 21 known tags to its handler.
  A handler decodes the body and forwards the fields to the activity: the
  header gives the start time and the local time offset, and the other
  records give heart rate, steps, GPS fixes, elevation, battery readings,
  laps and the summary. Loading stops at the end of the file, at an
  unknown tag or at a short body, and `PostLoad` runs afterwards.
- **The activity aggregate** is `Activity` in `src/classes/activity.py`,
  modelled in `activity.dfy`. Helper modules hold its parts:
  - `track.dfy`: track points and the activity type;
  - `laps.dfy`: laps;
  - `hrzones.dfy`: heart-rate zones and the `-hrzones` argument;
  - `battery.dfy`: battery statistics and the battery trend;
  - `finalize.dfy`: the point passes of `PostLoad`;
  - `calendar.dfy`: the calendar arithmetic of `GetPointSeconds` and the
    1970 year filter;
  - `little_endian.dfy`: field decoding;
  - `util.dfy`: shared definitions.
- **The older aggregate** is `Activity` in `src/activity.py`, modelled in
  `legacy_activity.dfy`. It has no laps, no zones, no year filter and no
  battery trend.

Both `Activity` classes and the reader are Dafny classes whose methods
update their fields in place. Each method is specified by a function
from the old state to the new one (`HeartRateLogged`, `PostLoaded`,
`Records`, …), and the lemmas state what the source promises about
those functions. The loops of `PostLoad` are methods with loop
invariants, proved against their specification functions:
- the cadence table;
- the treadmill distance scaling;
- the correction pass in time order;
- the statistics pass;
- the lap start times;
- the battery trend fit;
- the zone parser.

Some representation choices:
- Times are whole seconds since 1970-01-01 UTC.
- A point dictionary is a `map` keyed by time, together with the
  sequence of its keys in insertion order, because Python dicts iterate
  in that order.
- Python's `int()` is modelled for ASCII text: white space at either end,
  a sign, decimal digits and single underscores between digits.
- The 10-second cadence groups key on `GetPointSeconds`, which keeps only
  the day of the month and the time of day. Two points exactly a month
  apart therefore land in the same group
  (`Calendar.PointSecondsIgnoresMonth`); the model keeps this.
- The battery minimum that `PostLoad` stores is the trend the code
  computes (`Battery.TrendAsWritten`, x = 0..n-1), not the least-squares
  line of the readings; see "## Findings".

## Model

| member | source | states |
|---|---|---|
| LittleEndian.U16 | src/classes/ttbinreader.py:183-188 | an unsigned 16-bit field decodes to a value in [0, 65536) |
| LittleEndian.U32 | src/classes/ttbinreader.py:130-137 | an unsigned 32-bit field decodes to a value in [0, 2^32) |
| LittleEndian.I16 | src/classes/ttbinreader.py:183-189 | a `h` field decodes to a value in [-32768, 32768), the two's complement of the unsigned reading |
| LittleEndian.I32 | src/classes/ttbinreader.py:192-197 | an `l` field decodes to a value in [-2^31, 2^31), the two's complement of the unsigned reading |
| LittleEndian.U16RoundTrip | src/classes/ttbinreader.py:183-188 | decoding the 2-byte encoding of any 16-bit value gives it back |
| LittleEndian.U32RoundTrip | src/classes/ttbinreader.py:130-137 | decoding the 4-byte encoding of any 32-bit value gives it back |
| LittleEndian.I16RoundTrip | src/classes/ttbinreader.py:183-189 | decoding the encoding of any signed 16-bit value gives it back |
| LittleEndian.I32RoundTrip | src/classes/ttbinreader.py:192-197 | decoding the encoding of any signed 32-bit value gives it back |
| LittleEndian.I32In | src/classes/ttbinreader.py:214-220 | a field read from a body cut out of the file equals the same field read in the file at the body's offset |
| Calendar.SecondOfDay | src/classes/activity.py:49-52 | the time of day is in [0, 86400) and day·86400 + it is the timestamp |
| Calendar.CivilFromDays | src/classes/activity.py:49-52 | the civil date of a day number has month 1..12 and day 1..31 |
| Calendar.Hour | src/classes/activity.py:49-52 | `tm.hour` is in [0, 24) |
| Calendar.Minute | src/classes/activity.py:49-52 | `tm.minute` is in [0, 60) |
| Calendar.Second | src/classes/activity.py:49-52 | `tm.second` is in [0, 60) |
| Calendar.PointSeconds | src/classes/activity.py:49-52 | `GetPointSeconds` is day-of-month·86400 + seconds of the day, so it lies in [86400, 32·86400) |
| Calendar.HourMinuteSecond | src/classes/activity.py:49-52 | hours, minutes and seconds recombine to the second of the day |
| Calendar.PointSecondsSameDay | src/classes/activity.py:180-184 | within one day, `GetPointSeconds` differences equal timestamp differences |
| Calendar.PointSecondsIgnoresMonth | src/classes/activity.py:180-184 | 1 January and 1 February 1970 at midnight get the same `GetPointSeconds`, so they share a cadence group |
| Calendar.EpochYears | src/classes/activity.py:91 | second 0 lies in 1970 and second -1 in 1969 |
| Calendar.YearFrom1970 | src/classes/activity.py:132-133 | the year is at least 1970 exactly when the timestamp is not negative |
| Track.FromCode | src/classes/ttbinreader.py:231 | `ActivityType(code)` succeeds exactly for the 11 known codes and gives the type with that code |
| Track.FromCodeOfCode | src/classes/activity.py:10-21 | every activity type is found again from its code |
| Track.NewPoint | src/classes/activity.py:37-47 | a new point carries its time and lap index, and its readings are zero |
| Track.IndexedInsert | src/classes/activity.py:135-140 | adding a new point at the end of the key order keeps every key listed once, in step with the map |
| Track.IndexedUpdate | src/classes/activity.py:135-136 | replacing an existing point keeps the key order |
| Laps.NextLap | src/classes/activity.py:322-333 | the new lap makes the sums over all laps equal the running totals passed in, and it starts at `now` |
| Laps.LogMarks | src/classes/activity.py:322-335 | logging a series of running totals appends one lap each, keeps the old laps, and the sums equal the last totals |
| Laps.LogMarksAreDifferences | src/classes/activity.py:322-333 | each lap holds the difference between its running totals and the previous ones |
| Laps.LapExample | src/classes/activity.py:322-333 | the totals (60, 200, 10), (140, 500, 25), (200, 650, 30) give the laps (60, 200, 10), (80, 300, 15), (60, 150, 5) |
| Laps.ResolveLapStarts | src/classes/activity.py:250-254 | the loop over the points computes `ResolvedStarts` |
| Laps.ResolvedStartsBound | src/classes/activity.py:250-254 | every lap starts no later than each of its points and no later than before, other lap fields are kept, and a start that moved is a point's time |
| Laps.TotalsIgnoreStarts | src/classes/activity.py:250-254 | changing start times leaves the lap sums unchanged |
| HeartRateZones.Limits | src/classes/activity.py:86 | the limits are the zone keys, in insertion order |
| HeartRateZones.PutLimits | src/classes/activity.py:353 | storing a limit appends it when new and keeps the order otherwise |
| HeartRateZones.PutEntries | src/classes/activity.py:353 | storing a limit sets its count and leaves the other zones unchanged |
| HeartRateZones.PutWellFormed | src/classes/activity.py:353 | storing a limit keeps the limits distinct |
| HeartRateZones.FirstZoneAtLeast | src/classes/activity.py:357-361 | the zone found is the first whose limit is at least the heart rate, and there is none exactly when every limit is below it |
| HeartRateZones.CountedTotal | src/classes/activity.py:357-362 | `AddToHRZones` keeps the limits and adds one to the total exactly when some zone takes the heart rate |
| HeartRateZones.CountedIncrements | src/classes/activity.py:360 | incrementing one zone keeps the limits and adds one to the total |
| HeartRateZones.ZoneExample | src/classes/activity.py:357-361 | with zones 130, 140, 150 and 999, the rate 145 falls in zone 150, 999 in zone 999, and 1000 in none |
| HeartRateZones.Split | src/classes/activity.py:350 | `split(";")` gives at least one piece and no piece holds the separator |
| HeartRateZones.SplitJoin | src/classes/activity.py:350 | joining the pieces with the separator gives the string back |
| HeartRateZones.JoinSplit | src/classes/activity.py:350 | splitting pieces joined by the separator gives the pieces back |
| HeartRateZones.SplitPiece | src/classes/activity.py:350 | a piece without the separator splits to itself, and a leading piece is split off |
| HeartRateZones.TrimStart | src/classes/activity.py:352 | leading white space is removed |
| HeartRateZones.TrimEnd | src/classes/activity.py:352 | trailing white space is removed |
| HeartRateZones.ParseInt | src/classes/activity.py:352 | `int("")` fails |
| HeartRateZones.NatToString | src/classes/activity.py:352 | a number's decimal text is a non-empty run of digits |
| HeartRateZones.NatToStringValue | src/classes/activity.py:352 | a number's decimal text reads back as the number |
| HeartRateZones.IntRoundTrip | src/classes/activity.py:352 | `int(str(n)) == n` for every integer n |
| HeartRateZones.ParseIntRejects | src/classes/activity.py:352 | `int` refuses "", "abc" and "1__0" |
| HeartRateZones.ParseIntAccepts | src/classes/activity.py:352 | `int` reads " 140 " as 140, "-7" as -7 and "1_000" as 1000 |
| HeartRateZones.SwitchValueIsFirst | src/classes/activity.py:337-343 | the zone argument is found exactly when some `-hrzones` has an argument after it, and it is the one after the first such `-hrzones` |
| HeartRateZones.ParsedLimits | src/classes/activity.py:351-353 | either every piece is read by `int`, giving one limit per piece, or some piece is not read |
| HeartRateZones.ParsedLimitsExact | src/classes/activity.py:351-353 | pieces that all read as numbers give exactly those limits |
| HeartRateZones.ParsedLimitsRejects | src/classes/activity.py:351-352 | one unreadable piece makes the whole parse fail |
| HeartRateZones.PutAllKeys | src/classes/activity.py:351-353 | storing limits keeps them distinct, and the limits afterwards are the old ones and the new ones |
| HeartRateZones.PutAllEmpty | src/classes/activity.py:353 | storing limits with count 0 keeps every count 0 |
| HeartRateZones.PutStoresZero | src/classes/activity.py:353-354 | storing one limit with count 0 keeps every count 0 |
| HeartRateZones.ZonesParsed | src/classes/activity.py:345-355 | a successful parse leaves the limits distinct |
| HeartRateZones.InsertLimits | src/classes/activity.py:351-353 | the loop succeeds exactly when every piece is a number, and then it has stored every piece's limit in order |
| HeartRateZones.ZonesFor | src/classes/activity.py:337-343 | the zones built from the arguments have distinct limits |
| HeartRateZones.ParsedZonesCoverAll | src/classes/activity.py:345-355 | a parsed non-empty argument gives zones holding every limit given and 999, all counts 0, and every heart rate up to 999 has a zone |
| HeartRateZones.ZonesParsedExample | src/classes/activity.py:7 | "130;140;150" gives zones 130, 140, 150 and 999; the trailing `;` of "130;140;" makes the parse fail; "" leaves no zones |
| HeartRateZones.ExampleSplit | src/classes/activity.py:350 | "130;140;" splits into "130", "140" and "" |
| HeartRateZones.ExampleLimits | src/classes/activity.py:351-352 | the pieces "130", "140", "150" read as 130, 140 and 150, and an empty last piece fails |
| HeartRateZones.ExamplePuts | src/classes/activity.py:353-354 | storing 130, 140 and 150 and then 999 gives four zones in that order |
| Battery.LowHighAreExtremes | src/classes/activity.py:116-125 | with positive readings, the minimum and maximum tracked are the least and greatest reading, and both are readings |
| Battery.LowIsSmallest | src/classes/activity.py:118-123 | the tracked minimum is no greater than any reading and equals one of them |
| Battery.HighIsLargest | src/classes/activity.py:120-125 | the tracked maximum is no less than any reading and is one of them |
| Battery.SquaredDeviations | src/classes/activity.py:260 | the sum of squared deviations is not negative |
| Battery.Variance | src/classes/activity.py:261 | the variance is not negative |
| Battery.KeepTypical | src/classes/activity.py:263 | the filter keeps exactly the readings within two standard deviations of the mean |
| Battery.WithoutOutliers | src/classes/activity.py:259-263 | removing outliers leaves a non-empty list of original readings |
| Battery.SomeReadingIsTypical | src/classes/activity.py:259-263 | some reading always lies within two standard deviations of the mean |
| Battery.AtypicalReadingsSpread | src/classes/activity.py:260-263 | readings all beyond two deviations would have squared deviations above 4·variance·count, which the variance rules out |
| Battery.SumXXDif | src/classes/activity.py:270-275 | the spread of the x values is not negative |
| Battery.AsWrittenDeviationsDoNotCancel | src/classes/activity.py:265-272 | with x = 0..n-1 the x deviations from (n+1)/2 sum to -n, and with x = 1..n they sum to 0 |
| Battery.SumXDifClosed | src/classes/activity.py:267-272 | the sum of x deviations in closed form, for any first x and any mean |
| Battery.TrendExample | src/classes/activity.py:264-280 | for readings 80, 79, 78, 77, 76 the code as written estimates 76 and the intended fit 75 |
| Battery.FitTrend | src/classes/activity.py:265-280 | the loop, with the i-th reading at x = i as `enumerate` gives, computes `TrendAsWritten` of the readings kept |
| Battery.AsWrittenSpreadIsPositive | src/classes/activity.py:265-276 | with x = 0..n-1 and mean x (n+1)/2 the spread of x is positive from one reading on, so the guard `sumXdifXdif != 0` always holds |
| Battery.AsWrittenTrendIsDefined | src/classes/activity.py:264-280 | the trend as written gives an estimate for every non-empty list of readings |
| Battery.AsWrittenTrendOfConstant | src/classes/activity.py:264-280 | readings that are all the same level are extrapolated, as written, to that level |
| Battery.ConstantSum | src/classes/activity.py:266 | readings all equal to v sum to n·v, so their mean is v |
| Battery.LinearTrendIsExact | src/classes/activity.py:264-280 | readings on a line c + s·x for x = 1..n, with n ≥ 2, give the line's value at x = n+1 |
| Battery.TrendOfFit | src/classes/activity.py:265-280 | readings whose mean and covariance fit a line give the line's value at n+1 |
| Battery.CovarianceOfLine | src/classes/activity.py:269-274 | deviations proportional to the x deviations give covariance = slope · spread of x |
| Battery.SpreadIsPositive | src/classes/activity.py:276 | for the intended x = 1..n, with two or more readings the spread of x is positive, so the intended fit is defined |
| Battery.LinearDeviations | src/classes/activity.py:266-273 | readings on a line deviate from their mean by slope · the x deviation |
| Battery.LinearMean | src/classes/activity.py:266 | the mean of readings on a line is the line at the mean x |
| Battery.LinearSum | src/classes/activity.py:266 | the sum of readings on a line in closed form |
| Battery.ExtrapolateExact | src/classes/activity.py:276-280 | a slope and intercept from a fitted line give that line's value at n+1 |
| Battery.ExtrapolateValue | src/classes/activity.py:276-280 | with a non-zero spread the estimate is (n+1)·a + b, with a = covariance/spread and b = avgY − a·avgX |
| Finalize.ApplyEach | src/classes/activity.py:161-162 | updating the queued points keeps the set of times |
| Finalize.ApplyEachOnce | src/classes/activity.py:161-162 | each listed point is updated once and the others are unchanged |
| Finalize.CadenceFromSteps | src/classes/activity.py:186-187 | a group's cadence is steps · 60 / 10 / 2 = 3 · steps |
| Finalize.CadenceTable | src/classes/activity.py:177-187 | every point's group is in the table, and each entry is 3 × the steps of the points in that group |
| Finalize.Scale | src/classes/activity.py:198-200 | scaling distances keeps the set of times |
| Finalize.MaxPointDistance | src/classes/activity.py:191-195 | the loop computes the largest point distance, starting from 0 |
| Finalize.ScaleDistances | src/classes/activity.py:198-200 | the loop multiplies every point's distance by the factor |
| Finalize.ScaleIsApplyEach | src/classes/activity.py:198-200 | scaling point by point equals scaling the whole map |
| Finalize.ScaleTreadmillDistances | src/classes/activity.py:191-200 | distances are scaled by total / maximum when the maximum is positive, and left unchanged otherwise |
| Finalize.MaxDistanceIsMaximum | src/classes/activity.py:191-195 | the maximum is not negative, bounds every distance, and is 0 or some point's distance |
| Finalize.MaxDistanceOfScale | src/classes/activity.py:198-200 | scaling by a non-negative factor scales the maximum distance by it |
| Finalize.ScaledMaximumIsTotal | src/classes/activity.py:196-200 | after the treadmill scaling the largest point distance is the summary distance |
| Finalize.ScaleByOneIsIdentity | src/classes/activity.py:197-200 | scaling by 1 changes nothing |
| Finalize.TimedeltaSeconds | src/classes/activity.py:214-215 | `timedelta.seconds` lies in [0, 86400) and is the difference itself when that is below a day |
| Finalize.Corrected | src/classes/activity.py:202-220 | the correction pass gives one point per point |
| Finalize.CorrectedStep | src/classes/activity.py:202-220 | each point is corrected against the corrected point before it |
| Finalize.PointsAt | src/classes/activity.py:203-204 | the points are listed in the order of the keys given |
| Finalize.Overwrite | src/classes/activity.py:203-220 | writing back corrected points keeps the set of times |
| Finalize.CorrectInTimeOrder | src/classes/activity.py:202-220 | the loop writes each point back corrected against the previous corrected point |
| Finalize.Distances | src/classes/activity.py:209-210 | the distances of the points, in order |
| Finalize.CorrectedCarriesDistanceForward | src/classes/activity.py:207-210 | a corrected distance is the last non-zero distance so far in time order (0 if there is none) |
| Finalize.CorrectedKeepsOtherFields | src/classes/activity.py:202-220 | the correction changes only distance and speed, and speed only on a treadmill |
| Finalize.CarryForwardExample | src/classes/activity.py:207-210 | distances 0, 100, 0, 0, 150 are corrected to 0, 100, 100, 100, 150 |
| Finalize.WithCadence | src/classes/activity.py:227-231 | assigning cadences keeps the set of times |
| Finalize.WithCadenceIsApplyEach | src/classes/activity.py:227-231 | assigning cadences point by point equals assigning them over the whole map |
| Finalize.Summarize | src/classes/activity.py:223-238 | the loop sets each cadence from its group, and computes the largest speed, the largest heart rate, and the count and sum of positive heart rates |
| Finalize.MaxHeartRateIsMaximum | src/classes/activity.py:224-235 | the maximum heart rate is not negative, bounds every point, and is 0 or some point's rate |
| Finalize.MaxSpeedIsMaximum | src/classes/activity.py:223-233 | the maximum speed is not negative and bounds every point |
| Finalize.HeartRateCountZero | src/classes/activity.py:236-238 | no heart rate is counted exactly when no point has a positive heart rate |
| Finalize.HeartRateAverageBounds | src/classes/activity.py:236-244 | count ≤ sum ≤ count · maximum, so the average lies between 1 and the maximum |
| Finalize.Rescaled | src/classes/activity.py:189-200 | the treadmill rescaling keeps the set of times |
| Finalize.TimeCorrected | src/classes/activity.py:202-220 | the correction pass in time order keeps the set of times |
| Finalize.InTimeOrder | src/classes/activity.py:203 | `sorted(self.trackPoints)` lists every point once, in increasing time |
| Finalize.SortedKeys | src/classes/activity.py:203 | the sorted keys are distinct and cover every point |
| Finalize.Corrections | src/classes/activity.py:189-220 | the distance and speed corrections keep the set of times |
| Finalize.Finalized | src/classes/activity.py:177-238 | the point passes of `PostLoad` keep the set of times |
| Finalize.TimeCorrectedFields | src/classes/activity.py:202-220 | in the whole map, the correction changes only distance and speed, and speed only on a treadmill |
| Finalize.TimeCorrectedCarriesForward | src/classes/activity.py:203-210 | the i-th point in time order gets the last non-zero distance among the first i+1 |
| Finalize.FinalizedFields | src/classes/activity.py:177-238 | after the passes a point differs only in distance, speed and cadence; its cadence is 3 × its group's steps; its speed is kept unless on a treadmill |
| Finalize.FinalizedBucketsShareCadence | src/classes/activity.py:180-187 | points in the same 10-second group get the same cadence |
| Finalize.FinalizedIndexed | src/classes/activity.py:177-238 | the passes keep the key order |
| Finalize.CorrectionsKeepBuckets | src/classes/activity.py:189-231 | the corrections keep each point's time, so the cadence lookup never misses |
| Finalize.WithCadenceIsFinalized | src/classes/activity.py:177-238 | cadences from the table, applied after the corrections, give the finalized points |
| Finalize.FinalizePoints | src/classes/activity.py:177-238 | computes the finalized points and the statistics of the corrected points |
| Finalize.CorrectPoints | src/classes/activity.py:189-220 | computes the treadmill scaling followed by the correction pass |
| ActivityModel.DatedIsYearTest | src/classes/activity.py:132-133 | a time gets a point exactly when its year is at least 1970 |
| ActivityModel.WaitingPoints | src/classes/activity.py:140 | the points waiting for altitude are stored points, each queued once |
| ActivityModel.QueuedPoints | src/classes/activity.py:138-140 | a suffix of the insertion order lists stored points, each once |
| ActivityModel.Initial | src/classes/activity.py:93-114 | a new activity is consistent |
| ActivityModel.PointAt | src/classes/activity.py:129-142 | there is no point exactly for a time before 1970; otherwise the point has that time and a lap index no later than the current lap |
| ActivityModel.WithPoint | src/classes/activity.py:129-142 | a time from 1970 on is stored and holds the point returned |
| ActivityModel.GetTrackPointAtIdempotent | src/classes/activity.py:129-142 | asking twice changes nothing more and returns the same point; the time is stored exactly when it is from 1970 on or was already stored |
| ActivityModel.NewPointQueued | src/classes/activity.py:137-140 | a new time gets a point in the current lap, appended to the order and to the altitude queue, and nothing else changes |
| ActivityModel.Stored | src/classes/activity.py:145-147 | writing back a point keeps the activity consistent |
| ActivityModel.HeartRateLogged | src/classes/activity.py:144-148 | logging a heart rate keeps the activity consistent |
| ActivityModel.HeartRateCounted | src/classes/activity.py:144-148 | the heart rate reaches the point only for a time from 1970 on, and the zone total grows by one exactly when a zone takes it, whatever the date |
| ActivityModel.StepsLogged | src/classes/activity.py:150-155 | logging steps keeps the activity consistent |
| ActivityModel.GpsLogged | src/classes/activity.py:165-173 | logging a GPS fix keeps the activity consistent |
| ActivityModel.StepsKeepBalance | src/classes/activity.py:150-155 | for a new time, the point steps minus the total is unchanged; the total becomes the reading and the point holds the increase |
| ActivityModel.GpsKeepsBalance | src/classes/activity.py:165-173 | for a new time, the point steps minus the total is unchanged |
| ActivityModel.ElevationLogged | src/classes/activity.py:157-163 | logging elevation keeps the activity consistent |
| ActivityModel.ElevationLoggedFrom | src/classes/activity.py:157-163 | elevation sets the totals, writes the altitude into the queued points and empties the queue |
| ActivityModel.ElevationSetsQueued | src/classes/activity.py:161-162 | exactly the queued points get the altitude |
| ActivityModel.AltitudeReachesQueued | src/classes/activity.py:161-162 | for any queue of distinct stored points, exactly those get the altitude |
| ActivityModel.BatteryLogged | src/classes/activity.py:116-125 | a reading is appended to the battery list |
| ActivityModel.BatteryRange | src/classes/activity.py:116-125 | after positive readings, the list is the readings, the tracked minimum and maximum bound them all, and the maximum is one of them |
| ActivityModel.BatterySeriesIsFold | src/classes/activity.py:116-125 | after any readings, the list and the tracked minimum and maximum are their fold |
| ActivityModel.LapLogged | src/classes/activity.py:322-335 | a lap is appended, the old laps are kept, and the lap sums equal the totals passed in |
| ActivityModel.ZonesBuilt | src/classes/activity.py:337-355 | building the zones succeeds exactly when the zone argument parses |
| ActivityModel.FinalizedKeepsLaps | src/classes/activity.py:177-238 | the point passes keep each point's time and lap index |
| ActivityModel.Summarized | src/classes/activity.py:177-244 | the point passes change only the points, the maxima and the averages |
| ActivityModel.SummarizedFrom | src/classes/activity.py:177-244 | the averages are distance / active seconds and heart-rate sum / count, and 0 when the divisor is 0 |
| ActivityModel.TrailingLapAdded | src/classes/activity.py:246-248 | the closing lap makes the lap sums equal the activity totals and gives every point a lap |
| ActivityModel.LapsCoverPoints | src/classes/activity.py:247-252 | with more laps than the current lap index, every point's lap exists |
| ActivityModel.BatteryEstimated | src/classes/activity.py:256-280 | only the battery list and the minimum change, and a non-empty list stays a non-empty list of the original readings |
| ActivityModel.PostLoaded | src/classes/activity.py:175-280 | `PostLoad` keeps the activity consistent |
| ActivityModel.PostLoadedStages | src/classes/activity.py:175-280 | `PostLoad` is the point passes, then the closing lap, then the lap starts, then the battery trend |
| ActivityModel.PostLoadLapTotals | src/classes/activity.py:246-248 | after `PostLoad` there is one more lap, and the lap sums equal the activity's active seconds, distance and calories |
| ActivityModel.PostLoadLapStarts | src/classes/activity.py:249-254 | the earlier laps keep their fields except a start time that can only move earlier |
| ActivityModel.PostLoadPointsInLaps | src/classes/activity.py:246-254 | every point's lap exists and starts no later than the point |
| ActivityModel.PostLoadedParts | src/classes/activity.py:175-254 | the lap starts are resolved over the finalized points and the closing lap, and the statistics come from the point passes |
| ActivityModel.ResolvedStartsTotals | src/classes/activity.py:249-254 | resolving start times keeps the lap sums |
| ActivityModel.StartsResolved | src/classes/activity.py:249-254 | each lap starts no later than its points and no later than before, other fields kept |
| ActivityModel.PostLoadStatistics | src/classes/activity.py:222-244 | the maxima are not negative and bound every point; the average heart rate is 0 exactly when no point has a positive rate, and otherwise lies in [1, maximum] |
| ActivityModel.SummaryBounds | src/classes/activity.py:222-244 | the same bounds hold right after the point passes |
| ActivityModel.FinalizedStatistics | src/classes/activity.py:222-244 | the maxima and the heart-rate count and sum of the corrected points bound the finalized points |
| ActivityModel.AverageBounds | src/classes/activity.py:243-244 | an average of positive integers bounded by m lies in [1, m] and is not 0 |
| ActivityModel.PostLoadBattery | src/classes/activity.py:256-263 | the maximum is kept; no readings change nothing; otherwise the list becomes the non-empty list of typical readings |
| ActivityModel.PostLoadBatteryConstant | src/classes/activity.py:256-280 | when every battery reading is the level v, `PostLoad` sets the minimum to v |
| ActivityModel.PostLoadedEstimate | src/classes/activity.py:256-280 | with readings present the minimum is always replaced, by the trend as written over the readings that survive the outlier filter |
| ActivityModel.PostLoadPoints | src/classes/activity.py:177-254 | `PostLoad` keeps the times and their order, and changes only each point's distance, speed and cadence; speed only on a treadmill |
| ActivityModel.Activity.constructor | src/classes/activity.py:93-114 | a new activity is the initial state |
| ActivityModel.Activity.LogBatteryLevel | src/classes/activity.py:116-125 | the new state is `BatteryLogged` |
| ActivityModel.Activity.GetTrackPointAt | src/classes/activity.py:129-142 | returns `PointAt`, and the new state is `WithPoint` |
| ActivityModel.Activity.LogHeartRate | src/classes/activity.py:144-148 | the new state is `HeartRateLogged` |
| ActivityModel.Activity.LogSteps | src/classes/activity.py:150-155 | the new state is `StepsLogged` |
| ActivityModel.Activity.LogElevation | src/classes/activity.py:157-163 | the new state is `ElevationLogged` |
| ActivityModel.Activity.StoreElevation | src/classes/activity.py:158-163 | sets the totals and the points, and empties the queue |
| ActivityModel.Activity.LogGps | src/classes/activity.py:165-173 | the new state is `GpsLogged` |
| ActivityModel.Activity.LogLap | src/classes/activity.py:322-335 | the new state is `LapLogged` |
| ActivityModel.Activity.BuildHRZones | src/classes/activity.py:337-343 | succeeds exactly when `ZonesFor` does, and then the zones are `ZonesFor`; nothing else changes |
| ActivityModel.Activity.ParseHRZones | src/classes/activity.py:345-355 | succeeds exactly when `ZonesParsed` does, and then the zones are `ZonesParsed`; nothing else changes |
| ActivityModel.Activity.AddToHRZones | src/classes/activity.py:357-362 | only the zones change, to `Counted` |
| ActivityModel.Activity.SetPoints | src/classes/activity.py:177-238 | only the points change |
| ActivityModel.Activity.SetStatistics | src/classes/activity.py:223-244 | only the maxima and averages change |
| ActivityModel.Activity.ComputeStatistics | src/classes/activity.py:177-244 | the new state is `Summarized` |
| ActivityModel.Activity.EstimateBattery | src/classes/activity.py:256-280 | the new state is `BatteryEstimated` |
| ActivityModel.Activity.PostLoad | src/classes/activity.py:175-280 | the new state is `PostLoaded` |
| LegacyActivityModel.Initial | src/activity.py:70-87 | a new activity is consistent |
| LegacyActivityModel.PointAt | src/activity.py:99-107 | the point returned has the time asked for |
| LegacyActivityModel.WithPoint | src/activity.py:99-107 | the time is stored and holds the point returned |
| LegacyActivityModel.GetTrackPointAtIdempotent | src/activity.py:99-107 | asking twice changes nothing more and returns the same point |
| LegacyActivityModel.NewPointQueued | src/activity.py:103-106 | a new time gets a zero point, appended to the order and the altitude queue, and nothing else changes |
| LegacyActivityModel.Stored | src/activity.py:109-111 | writing back a point keeps the activity consistent |
| LegacyActivityModel.HeartRateLogged | src/activity.py:109-111 | logging a heart rate keeps the activity consistent |
| LegacyActivityModel.HeartRateSet | src/activity.py:109-111 | only the point at that time changes, to carry the heart rate; the totals are unchanged |
| LegacyActivityModel.StepsLogged | src/activity.py:113-117 | logging steps keeps the activity consistent |
| LegacyActivityModel.GpsLogged | src/activity.py:127-134 | logging a GPS fix keeps the activity consistent |
| LegacyActivityModel.StepsKeepBalance | src/activity.py:113-117 | for a new time, the point steps minus the total is unchanged; the total becomes the reading and the point holds the increase |
| LegacyActivityModel.GpsKeepsBalance | src/activity.py:127-134 | for a new time, the point steps minus the total is unchanged |
| LegacyActivityModel.ElevationLogged | src/activity.py:119-125 | logging elevation keeps the activity consistent |
| LegacyActivityModel.ElevationSetsQueued | src/activity.py:119-125 | the totals are set, exactly the queued points get the altitude, and the queue is emptied |
| LegacyActivityModel.BatteryRange | src/activity.py:89-97 | after positive readings only the minimum and maximum change; they bound every reading and are readings |
| LegacyActivityModel.BatterySeriesIsFold | src/activity.py:89-97 | after any readings the minimum and maximum are their fold |
| LegacyActivityModel.PostLoaded | src/activity.py:136-205 | `PostLoad` changes only the points, the maxima and the averages |
| LegacyActivityModel.PostLoadedFrom | src/activity.py:136-205 | the averages are distance / active seconds and heart-rate sum / count, and 0 when the divisor is 0 |
| LegacyActivityModel.PostLoadStatistics | src/activity.py:183-205 | the maxima bound every point; the average heart rate is 0 exactly when no point has a positive rate, and otherwise lies in [1, maximum] |
| LegacyActivityModel.PostLoadPoints | src/activity.py:136-181 | `PostLoad` keeps the times and their order, and changes only distance, speed and cadence; speed only on a treadmill |
| LegacyActivityModel.Activity.constructor | src/activity.py:70-87 | a new activity is the initial state |
| LegacyActivityModel.Activity.LogBatteryLevel | src/activity.py:89-97 | the new state is `BatteryLogged` |
| LegacyActivityModel.Activity.GetTrackPointAt | src/activity.py:99-107 | returns `PointAt`, and the new state is `WithPoint` |
| LegacyActivityModel.Activity.LogHeartRate | src/activity.py:109-111 | the new state is `HeartRateLogged` |
| LegacyActivityModel.Activity.LogSteps | src/activity.py:113-117 | the new state is `StepsLogged` |
| LegacyActivityModel.Activity.LogElevation | src/activity.py:119-125 | the new state is `ElevationLogged` |
| LegacyActivityModel.Activity.StoreElevation | src/activity.py:120-125 | sets the totals and the points, and empties the queue |
| LegacyActivityModel.Activity.LogGps | src/activity.py:127-134 | the new state is `GpsLogged` |
| LegacyActivityModel.Activity.PostLoad | src/activity.py:136-205 | the new state is `PostLoaded` |
| LegacyActivityModel.Activity.SetPoints | src/activity.py:138-199 | only the points change |
| LegacyActivityModel.Activity.SetStatistics | src/activity.py:184-205 | only the maxima and averages change |
| TtbinReader.TagOf | src/classes/ttbinreader.py:8-41 | a byte names a known tag exactly when some tag has that value |
| TtbinReader.TagOfValue | src/classes/ttbinreader.py:8-41 | every tag is recognised from its own value |
| TtbinReader.Chunk | src/classes/ttbinreader.py:144-146 | `read(n)` returns the bytes at the cursor; it returns n of them exactly when 0 ≤ n and n bytes remain; a short read ends at the end of the file |
| TtbinReader.BinaryFile.constructor | src/classes/ttbinreader.py:56 | an opened file starts at position 0 |
| TtbinReader.BinaryFile.Read | src/classes/ttbinreader.py:59 | returns `Chunk` and advances the cursor by its length |
| TtbinReader.ParseDateAgrees | src/classes/ttbinreader.py:122-127 | removing the offset from local time gives UTC back, and a zero offset changes nothing |
| TtbinReader.Perform | src/classes/ttbinreader.py:141-319 | forwarding a decoded record to the activity keeps it consistent |
| TtbinReader.Extracted | src/classes/ttbinreader.py:77-120 | the cursor only moves forward within the file; a failed record forwards nothing and keeps the offset; an unknown tag reads nothing and fails |
| TtbinReader.Decoded | src/classes/ttbinreader.py:148-319 | a body handler keeps the offset, leaves the cursor after the bytes read, and forwards nothing when it fails |
| TtbinReader.FixedRecordAdvances | src/classes/ttbinreader.py:144-319 | a record other than the header and 0x4b fails exactly when its body is cut short, and the cursor moves past the body or to the end of the file |
| TtbinReader.HeaderRecordRead | src/classes/ttbinreader.py:129-142 | the header is read exactly when 120 bytes remain; then the offset is set, the start time is the UTC start, and 3 × the array length further bytes are skipped |
| TtbinReader.X4bRecordRead | src/classes/ttbinreader.py:182-189 | record 0x4b succeeds exactly when its signed length is not negative and that many bytes follow, and it then skips them |
| TtbinReader.SummaryRecordRead | src/classes/ttbinreader.py:224-236 | a whole summary raises exactly when its sport code is unknown; otherwise it forwards the type, durations, distance and calories at their offsets |
| TtbinReader.ElevationRecordRead | src/classes/ttbinreader.py:276-286 | elevation is forwarded exactly when the altitude differs from the last field |
| TtbinReader.HeartRateRecordRead | src/classes/ttbinreader.py:213-222 | a heart-rate record forwards its first byte at the local time minus the offset |
| TtbinReader.GymRecordRead | src/classes/ttbinreader.py:191-201 | a gym record forwards its step total with distance 0 at the local time minus the offset |
| TtbinReader.TreadmillAndGpsTimes | src/classes/ttbinreader.py:238-267 | treadmill times are shifted by the offset and GPS times are not |
| TtbinReader.ChunkExtends | src/classes/ttbinreader.py:144-146 | a whole read gives the same bytes however the file continues |
| TtbinReader.ExtractedLocal | src/classes/ttbinreader.py:77-120 | a record that ends before the end of the file decodes the same whatever follows it |
| TtbinReader.FixedLocal | src/classes/ttbinreader.py:144-319 | the same holds for each fixed-size record |
| TtbinReader.HeaderLocal | src/classes/ttbinreader.py:129-142 | the same holds for the header |
| TtbinReader.X4bLocal | src/classes/ttbinreader.py:182-189 | the same holds for record 0x4b |
| TtbinReader.Records | src/classes/ttbinreader.py:57-71 | the read loop keeps the activity consistent and stops inside the file; it never raises when it stops at the end |
| TtbinReader.RecordsStep | src/classes/ttbinreader.py:57-71 | a handled record continues the loop from the new state, offset and cursor; otherwise the loop stops there, raising only when the handler raised |
| TtbinReader.Load | src/classes/ttbinreader.py:51-74 | a load gives a consistent activity |
| TtbinReader.LoadFrom | src/classes/ttbinreader.py:51-74 | a load builds the zones, runs the read loop, and runs `PostLoad` unless a record raised |
| TtbinReader.RecordsStopAtUnknownTag | src/classes/ttbinreader.py:68-71 | once the loop stops at an unknown tag, bytes appended to the file change nothing |
| TtbinReader.LoadStopsAtUnknownTag | src/classes/ttbinreader.py:51-74 | the same holds for the whole load |
| TtbinReader.LoadClosesLaps | src/classes/ttbinreader.py:51-74 | a load that does not raise has at least one lap, and every point's lap exists and starts no later than the point |
| TtbinReader.TtbinFileReader.constructor | src/classes/ttbinreader.py:48-49 | a new reader has offset 0 |
| TtbinReader.TtbinFileReader.LoadActivity | src/classes/ttbinreader.py:51-74 | succeeds exactly when `Load` does not raise, then returns its activity, and leaves the reader's offset as `Load` does |
| TtbinReader.TtbinFileReader.ReadRecords | src/classes/ttbinreader.py:57-71 | the loop leaves the activity, offset and raise flag as `Records` does |
| TtbinReader.TtbinFileReader.ReadNext | src/classes/ttbinreader.py:58-71 | one iteration either advances the cursor with `Records` unchanged from there on, or ends the loop with its result |
| TtbinReader.TtbinFileReader.ExtractRecord | src/classes/ttbinreader.py:77-120 | the activity, offset, cursor and outcome are those of `Extracted` |
| TtbinReader.TtbinFileReader.ReadDecoded | src/classes/ttbinreader.py:80-117 | a body handler's effect is `Decoded` of the bytes it reads |
| TtbinReader.TtbinFileReader.ReadSomething | src/classes/ttbinreader.py:144-146 | succeeds exactly when the length is not negative and that many bytes remain, and moves the cursor past the bytes read |
| TtbinReader.TtbinFileReader.ReadFixed | src/classes/ttbinreader.py:148-310 | a record the reader skips reads its body size and fails exactly when the body is cut short |
| TtbinReader.TtbinFileReader.Readx4b | src/classes/ttbinreader.py:182-189 | behaves as `X4bRecord` |
| TtbinReader.TtbinFileReader.ReadHeaderx20 | src/classes/ttbinreader.py:129-142 | behaves as `HeaderRecord` |
| TtbinReader.TtbinFileReader.ReadBatteryLevelx49 | src/classes/ttbinreader.py:151-160 | logs the first byte as the battery level when 4 bytes remain |
| TtbinReader.TtbinFileReader.ReadGymx41 | src/classes/ttbinreader.py:191-201 | behaves as `GymRecord` on the bytes read |
| TtbinReader.TtbinFileReader.ReadHeartRatex25 | src/classes/ttbinreader.py:213-222 | behaves as `HeartRateRecord` on the bytes read |
| TtbinReader.TtbinFileReader.ReadSummaryx27 | src/classes/ttbinreader.py:224-236 | behaves as `SummaryRecord` on the bytes read |
| TtbinReader.TtbinFileReader.ReadTreadmillx32 | src/classes/ttbinreader.py:238-247 | behaves as `TreadmillRecord` on the bytes read |
| TtbinReader.TtbinFileReader.ReadGpsx22 | src/classes/ttbinreader.py:258-268 | behaves as `GpsRecord` on the bytes read |
| TtbinReader.TtbinFileReader.ReadElevationx47 | src/classes/ttbinreader.py:276-286 | behaves as `ElevationRecord` on the bytes read |
| TtbinReader.TtbinFileReader.ReadLapx2f | src/classes/ttbinreader.py:312-320 | behaves as `LapRecord` on the bytes read |

## Left out

- Console output is not modelled: every `print`, and `FormatPaceMinPerKm`,
  which only formats a printed pace.
- IEEE-754 `f` fields are not modelled. Distances, speeds and lap
  distances travel as their raw 32-bit pattern, and the reader takes a
  parameter `floatValue` that maps the pattern to the number Python reads.
  Floating-point rounding in `PostLoad` is not modelled: arithmetic is on
  exact reals.
- Wall-clock reads become parameters:
  - `datetime.today()` in the constructors is `today`;
  - `datetime.now()` in `Lap` is `now`, and one value serves every lap of
    a load.
- File I/O is not modelled. The file is a byte sequence with a cursor
  (`BinaryFile`), and opening it cannot fail.
- Date values are whole seconds since 1970 UTC. Python's `datetime`
  cannot overflow for the 32-bit times a record holds, so
  `TtbinReader.ParseDate` has no error case.
- Microseconds do not occur. The treadmill time difference is
  `timedelta.seconds` · 1000, and whole days of the difference are dropped,
  as `.seconds` drops them.
- The handlers that only skip a body share one method:
  - `ReadStatusx21`, `ReadFitnessPointsx4a`, `ReadMovementx42`,
    `ReadWaitGpsx30`, `ReadHeartRateRecoveryx3f` and `ReadTrainingSetupx2d`
    read and ignore a whole struct;
  - `Readx48`, `ReadExtendedGpsx23`, `Readx37`, `ReadRouteDescriptionx43`
    and `ReadRouteDescriptionx44` call `ReadSomething`.

  All of these are `ReadFixed` with the body size.
- Some members are parts split out of one source function:
  - `ReadDecoded`: the part of `ExtractRecord` that handles records with a
    fixed-size body;
  - `ReadRecords` and `ReadNext`: the loop of `LoadActivity`;
  - `InsertLimits`: the loop of `ParseHRZones`;
  - `StoreElevation`, `SetPoints`, `SetStatistics`, `ComputeStatistics`
    and `EstimateBattery`: steps of `LogElevation` and `PostLoad`.
- An exception is a `Raised` outcome or a `false` result:
  - a bad `-hrzones` value;
  - an unknown sport code in a summary record.

  Python unwinds `LoadActivity` in these cases, so no activity is
  returned. How the exception is reported is not modelled.
- The cadence of a 10-second group is the exact integer 3 · steps. Python
  computes the float `steps * 60.0 / 10.0 / 2.0`, which equals it for every
  step count a record can hold.
- `Finalize` takes the grouping of points into 10-second groups as a
  function parameter. `PostLoad` passes `Finalize.Bucket`, which is
  `GetPointSeconds` divided by 10 and rounded down.
- ParseInt: only ASCII decimal digits are read. Python's `int()` also
  accepts the decimal digits of other scripts, which are not modelled.
- TrimStart: only ASCII white space is stripped. The Unicode white space
  that `int()` also strips is not modelled.
- TrimEnd: only ASCII white space is stripped, as for `TrimStart`.
- LegacyActivityModel.BatteryRange: the minimum is kept as a real number,
  as in the newer class. In the older class it is only ever assigned
  integer readings.
- The older `src/activity.py` has no `LogLap`, `BuildHRZones`,
  `ParseHRZones`, `AddToHRZones` or battery trend, so
  `LegacyActivityModel` has none.
- The writers and editors are not part of this model: `src/tcxwriter.py`,
  `src/classes/tcxeditor.py` and the command-line entry points.
- The heart-rate zone report that `PostLoad` prints at the end is console
  output and is not modelled.

Where the code differs from the documented intent, the model follows the
code:
- The argument example `130;140;150;160;170;180;` ends in `;`. The last
  piece is then `""`, `int("")` raises, and the load fails
  (`HeartRateZones.ZonesParsedExample`).
- `ParseHRZones("")` leaves the zones empty and raises nothing.
- There are 21 tags with a handler.
- The length in record 0x4b is signed. A negative length reads to the end
  of the file and the record fails.
- A body cut short still moves the cursor to the end of the file.
- The bytes that the header asks to skip are not checked.
- The reader's `localTimeOffset` persists from one `LoadActivity` to the
  next.

## Findings

| source | as written | input that shows it | evidently intended | confidence | as-written member | corrected member |
|---|---|---|---|---|---|---|
| src/classes/activity.py:264-280 | the x values run 0..n-1 (`enumerate`), but the mean x and the extrapolation point are those of x = 1..n, so the x deviations do not sum to 0 and the slope is not the least-squares one | battery readings 80, 79, 78, 77, 76 | extrapolate the fitted line one reading past the last: 75, where the code gives 76 | not executed | Battery.TrendExample | Battery.LinearTrendIsExact |

The as-written trend is what `PostLoad` stores (`Battery.FitTrend`,
`ActivityModel.PostLoadedEstimate`). The corrected trend `Battery.Trend`,
with x = 1..n, is proved exact on lines (`Battery.LinearTrendIsExact`)
and is not used by the model of `PostLoad`.
