/** The activity aggregate of `src/classes/activity.py`. The record handlers
    feed it one sample at a time through `GetTrackPointAt` and the `Log*`
    methods; once the file is read, `PostLoad` derives the per-point cadence,
    corrected distances and speeds, the statistics, a trailing lap, the lap
    start times and the battery estimate.

    `Activity` is a class whose fields the methods update in place. Each
    method is specified by a function from the fields before the call (an
    `ActivityState` value) to the fields after it, and the properties of the
    aggregate are lemmas about those functions. */
module ActivityModel {
  import opened Util
  import opened Calendar
  import opened Track
  import opened Laps
  import opened HeartRateZones
  import opened Finalize
  import opened Battery

  /** Points dated before this year are dropped: the device sometimes
      reports 1969 for an unset clock. */
  const DefaultYear: int := 1970

  /** `time.year >= defaultYear`, the test `GetTrackPointAt` keeps a time
      by. For whole seconds since 1970-01-01T00:00:00Z it is `time >= 0`
      (`DatedIsYearTest`), which is the form the functions below use. */
  predicate Dated(time: int)
  {
    time >= 0
  }

  lemma DatedIsYearTest(time: int)
    ensures Dated(time) <==> Year(time) >= DefaultYear
  {
    YearFrom1970(time);
  }

  /** The fields of an `Activity`. Times are whole seconds since 1970 (UTC).
      The point dictionary is `trackPoints`, with its keys in insertion order
      in `pointOrder`; `waitingAltitude` holds the keys of the points still
      waiting for an elevation record, oldest first. */
  datatype ActivityState = ActivityState(
    activityType: ActivityType,
    startTime: int,
    totalActiveSeconds: int,
    totalElapsedSeconds: int,
    totalDistanceMeters: real,
    totalCalories: int,
    totalSteps: int,
    totalAscendMeters: int,
    totalDescendMeters: int,
    avgSpeed: real,
    maxSpeed: real,
    batteryLevelMin: real,
    batteryLevelMax: int,
    batteryLevels: seq<int>,
    avgHeartRate: real,
    maxHeartRate: int,
    heartRatesByZone: seq<Zone>,
    currentLapIndex: nat,
    trackPoints: map<int, TrackPoint>,
    pointOrder: seq<int>,
    waitingAltitude: seq<int>,
    laps: seq<Lap>)

  /** `waiting` is a tail of `order`. */
  predicate IsSuffix(waiting: seq<int>, order: seq<int>)
  {
    |waiting| <= |order| && waiting == order[|order| - |waiting|..]
  }

  /** What every operation keeps: one lap per lap index opened so far, the
      point dictionary indexed by time, the altitude queue made of the newest
      points in creation order, every point in a lap already opened, and the
      zone dictionary holding each limit once. */
  predicate Consistent(s: ActivityState)
  {
    && s.currentLapIndex == |s.laps|
    && Indexed(s.trackPoints, s.pointOrder)
    && IsSuffix(s.waitingAltitude, s.pointOrder)
    && (forall t :: t in s.trackPoints ==> s.trackPoints[t].lapIndex <= s.currentLapIndex)
    && WellFormed(s.heartRatesByZone)
  }

  /** The queue names points, each once. */
  lemma WaitingPoints(s: ActivityState)
    requires Consistent(s)
    ensures Covers(s.trackPoints, s.waitingAltitude) && Distinct(s.waitingAltitude)
  {
    QueuedPoints(s.trackPoints, s.pointOrder, s.waitingAltitude);
  }

  /** A tail of the insertion order names points, each once. */
  lemma QueuedPoints(points: map<int, TrackPoint>, order: seq<int>, waiting: seq<int>)
    requires Indexed(points, order) && IsSuffix(waiting, order)
    ensures Covers(points, waiting) && Distinct(waiting)
  {
    var k := |order| - |waiting|;
    assert forall i :: 0 <= i < |waiting| ==> waiting[i] == order[k + i];
  }

  /** `Activity()`: everything zero or empty, the sport running, and the
      start time the wall-clock instant `today`. */
  function Initial(today: int): (s: ActivityState)
    ensures Consistent(s)
  {
    ActivityState(Running, today, 0, 0, 0.0, 0, 0, 0, 0, 0.0, 0.0, 0.0, 0, [], 0.0, 0, [], 0, map[], [], [], [])
  }

  // ---------------------------------------------------------------------
  // Points

  /** The point `GetTrackPointAt(time)` returns: none before 1970, else the
      stored point, else a fresh one in the open lap. */
  function PointAt(s: ActivityState, time: int): (p: Option<TrackPoint>)
    requires Consistent(s)
    ensures p.None? <==> !Dated(time)
    ensures p.Some? ==> p.value.time == time && p.value.lapIndex <= s.currentLapIndex
  {
    if !Dated(time) then None
    else if time in s.trackPoints then Some(s.trackPoints[time])
    else Some(NewPoint(time, s.currentLapIndex))
  }

  /** The fields after `GetTrackPointAt(time)`: a new time gets a point,
      appended to the dictionary's order and to the altitude queue. */
  function WithPoint(s: ActivityState, time: int): (r: ActivityState)
    requires Consistent(s)
    ensures Consistent(r)
    ensures PointAt(s, time).Some? ==> time in r.trackPoints && PointAt(s, time) == Some(r.trackPoints[time])
  {
    if !Dated(time) || time in s.trackPoints then s
    else
      var p := NewPoint(time, s.currentLapIndex);
      IndexedInsert(s.trackPoints, s.pointOrder, p);
      assert (s.pointOrder + [time])[|s.pointOrder| - |s.waitingAltitude|..] == s.waitingAltitude + [time];
      s.(trackPoints := s.trackPoints[time := p],
         pointOrder := s.pointOrder + [time],
         waitingAltitude := s.waitingAltitude + [time])
  }

  /** Asking for the same time again changes nothing and returns the same
      point: a time is stored once, and only times from 1970 on are. */
  lemma GetTrackPointAtIdempotent(s: ActivityState, time: int)
    requires Consistent(s)
    ensures WithPoint(WithPoint(s, time), time) == WithPoint(s, time)
    ensures PointAt(WithPoint(s, time), time) == PointAt(s, time)
    ensures time in WithPoint(s, time).trackPoints <==> Dated(time) || time in s.trackPoints
  {
  }

  /** A new point from 1970 on goes to the end of both the order and the
      altitude queue, in the lap open at the time; nothing else changes. */
  lemma NewPointQueued(s: ActivityState, time: int)
    requires Consistent(s) && Dated(time) && time !in s.trackPoints
    ensures var r := WithPoint(s, time);
      && r.pointOrder == s.pointOrder + [time]
      && r.waitingAltitude == s.waitingAltitude + [time]
      && r.trackPoints[time].lapIndex == s.currentLapIndex
      && (forall t :: t in s.trackPoints ==> t in r.trackPoints && r.trackPoints[t] == s.trackPoints[t])
      && r == s.(trackPoints := r.trackPoints, pointOrder := r.pointOrder, waitingAltitude := r.waitingAltitude)
  {
  }

  /** The fields with the point under `time` replaced by `p`. */
  function Stored(s: ActivityState, time: int, p: TrackPoint): (r: ActivityState)
    requires Consistent(s) && time in s.trackPoints && p.time == time && p.lapIndex <= s.currentLapIndex
    ensures Consistent(r)
  {
    IndexedUpdate(s.trackPoints, s.pointOrder, p);
    s.(trackPoints := s.trackPoints[time := p])
  }

  // ---------------------------------------------------------------------
  // Samples

  /** The fields after `LogHeartRate(time, heartRate)`: the point, if the
      time is kept, takes the heart rate, and the sample is counted in the
      zones whether or not it was kept. */
  function HeartRateLogged(s: ActivityState, time: int, heartRate: int): (r: ActivityState)
    requires Consistent(s)
    ensures Consistent(r)
  {
    var p := PointAt(s, time);
    var w := WithPoint(s, time);
    var u := if p.None? then w else Stored(w, time, p.value.(heartRate := heartRate));
    CountedTotal(u.heartRatesByZone, heartRate);
    u.(heartRatesByZone := Counted(u.heartRatesByZone, heartRate))
  }

  /** A heart-rate sample adds one to the zone histogram exactly when some
      zone reaches it, even when its time is dropped; a kept time carries
      the heart rate. */
  lemma HeartRateCounted(s: ActivityState, time: int, heartRate: int)
    requires Consistent(s)
    ensures var r := HeartRateLogged(s, time, heartRate);
      && Limits(r.heartRatesByZone) == Limits(s.heartRatesByZone)
      && Total(r.heartRatesByZone) == Total(s.heartRatesByZone) + (if HasZoneFor(s.heartRatesByZone, heartRate) then 1 else 0)
      && (Dated(time) ==> r.trackPoints[time].heartRate == heartRate)
      && (!Dated(time) ==> r.trackPoints == s.trackPoints)
  {
    CountedTotal(s.heartRatesByZone, heartRate);
  }

  /** The fields after `LogSteps(time, totalSteps, distance)`: the device
      reports a running total, so the point takes the increase since the
      previous total, and its distance. */
  function StepsLogged(s: ActivityState, time: int, totalSteps: int, distance: real): (r: ActivityState)
    requires Consistent(s)
    ensures Consistent(r)
  {
    var p := PointAt(s, time);
    if p.None? then s
    else
      var w := WithPoint(s, time);
      var u := Stored(w, time, p.value.(steps := totalSteps - s.totalSteps, distanceMeters := distance));
      u.(totalSteps := totalSteps)
  }

  /** The fields after `LogGps(time, latitude, longitude, speed, steps,
      distance)`: the point takes the fix, and its steps are added to the
      running total. */
  function GpsLogged(s: ActivityState, time: int, latitude: real, longitude: real, speed: real, steps: int, distance: real)
    : (r: ActivityState)
    requires Consistent(s)
    ensures Consistent(r)
  {
    var p := PointAt(s, time);
    if p.None? then s
    else
      var w := WithPoint(s, time);
      var q := p.value.(steps := steps, speed := speed, latitudeDegrees := latitude,
                        longitudeDegrees := longitude, distanceMeters := distance);
      Stored(w, time, q).(totalSteps := s.totalSteps + steps)
  }

  /** The steps of the points in `keys`. */
  function StepSum(points: map<int, TrackPoint>, keys: seq<int>): int
    requires Covers(points, keys)
  {
    if keys == [] then 0 else StepSum(points, keys[..|keys| - 1]) + points[keys[|keys| - 1]].steps
  }

  /** Changing a point outside `keys` does not change their step sum. */
  lemma {:induction false} StepSumOutside(points: map<int, TrackPoint>, keys: seq<int>, t: int, p: TrackPoint)
    requires Covers(points, keys) && t !in keys
    ensures StepSum(points[t := p], keys) == StepSum(points, keys)
  {
    if keys != [] {
      var n := |keys| - 1;
      assert t !in keys[..n] by {
        assert forall i :: 0 <= i < n ==> keys[..n][i] == keys[i];
      }
      StepSumOutside(points, keys[..n], t, p);
    }
  }

  /** Two dictionaries that agree on `keys` give the same step sum. */
  lemma {:induction false} StepSumAgree(a: map<int, TrackPoint>, b: map<int, TrackPoint>, keys: seq<int>)
    requires Covers(a, keys) && Covers(b, keys)
    requires forall i :: 0 <= i < |keys| ==> a[keys[i]] == b[keys[i]]
    ensures StepSum(a, keys) == StepSum(b, keys)
  {
    if keys != [] {
      var n := |keys| - 1;
      assert forall i :: 0 <= i < n ==> keys[..n][i] == keys[i];
      StepSumAgree(a, b, keys[..n]);
    }
  }

  /** The step sum after a point is stored under a key new to `keys` and
      the key appended. */
  lemma StepSumAppend(old_: map<int, TrackPoint>, points: map<int, TrackPoint>, keys: seq<int>, t: int)
    requires Covers(old_, keys) && Covers(points, keys) && t in points && t !in keys
    requires forall k :: k in old_ && k != t ==> k in points && points[k] == old_[k]
    ensures Covers(points, keys + [t])
    ensures StepSum(points, keys + [t]) == StepSum(old_, keys) + points[t].steps
  {
    assert (keys + [t])[..|keys|] == keys;
    assert forall i :: 0 <= i < |keys| ==> keys[i] != t && keys[i] in old_;
    StepSumAgree(points, old_, keys);
  }

  /** A treadmill or gym sample at a new instant keeps the steps of all
      points summing to the running total (up to what they differed by
      before): each point holds exactly the increase the device reported. */
  lemma StepsKeepBalance(s: ActivityState, time: int, totalSteps: int, distance: real)
    requires Consistent(s) && time !in s.trackPoints
    ensures var r := StepsLogged(s, time, totalSteps, distance);
      && StepSum(r.trackPoints, r.pointOrder) - r.totalSteps == StepSum(s.trackPoints, s.pointOrder) - s.totalSteps
      && (Dated(time) ==> r.totalSteps == totalSteps && r.trackPoints[time].steps == totalSteps - s.totalSteps)
  {
    if Dated(time) {
      var r := StepsLogged(s, time, totalSteps, distance);
      NewPointQueued(s, time);
      assert r.pointOrder == s.pointOrder + [time];
      StepSumAppend(s.trackPoints, r.trackPoints, s.pointOrder, time);
    }
  }

  /** A GPS fix at a new instant keeps the same balance: the fix's steps go
      both to its point and to the running total. */
  lemma GpsKeepsBalance(s: ActivityState, time: int, latitude: real, longitude: real, speed: real, steps: int, distance: real)
    requires Consistent(s) && time !in s.trackPoints
    ensures var r := GpsLogged(s, time, latitude, longitude, speed, steps, distance);
      StepSum(r.trackPoints, r.pointOrder) - r.totalSteps == StepSum(s.trackPoints, s.pointOrder) - s.totalSteps
  {
    if Dated(time) {
      var r := GpsLogged(s, time, latitude, longitude, speed, steps, distance);
      NewPointQueued(s, time);
      assert r.pointOrder == s.pointOrder + [time];
      StepSumAppend(s.trackPoints, r.trackPoints, s.pointOrder, time);
    }
  }

  /** Sets a point's altitude. */
  function WithAltitude(altitude: int): TrackPoint -> TrackPoint
  {
    (p: TrackPoint) => p.(altitudeMeters := altitude)
  }

  /** The fields after `LogElevation(altitude, ascend, descend)`: the
      totals are replaced, every queued point takes the altitude and the
      queue is emptied. */
  function ElevationLogged(s: ActivityState, altitude: int, ascend: int, descend: int): (r: ActivityState)
    requires Consistent(s)
    ensures Consistent(r)
  {
    WaitingPoints(s);
    ElevationSetsQueued(s, altitude);
    s.(totalAscendMeters := ascend, totalDescendMeters := descend,
       trackPoints := ApplyEach(s.trackPoints, s.waitingAltitude, WithAltitude(altitude)),
       waitingAltitude := [])
  }

  /** `ElevationLogged` in terms of the rewritten points. */
  lemma ElevationLoggedFrom(s: ActivityState, altitude: int, ascend: int, descend: int, points: map<int, TrackPoint>)
    requires Consistent(s) && Covers(s.trackPoints, s.waitingAltitude)
    requires points == ApplyEach(s.trackPoints, s.waitingAltitude, WithAltitude(altitude))
    ensures ElevationLogged(s, altitude, ascend, descend)
      == s.(totalAscendMeters := ascend, totalDescendMeters := descend, trackPoints := points, waitingAltitude := [])
  {
  }

  /** The elevation record reaches exactly the queued points, which are
      the points created since the previous one; it changes nothing but
      their altitude. */
  lemma ElevationSetsQueued(s: ActivityState, altitude: int)
    requires Consistent(s)
    ensures Covers(s.trackPoints, s.waitingAltitude)
    ensures var a := ApplyEach(s.trackPoints, s.waitingAltitude, WithAltitude(altitude));
      && a.Keys == s.trackPoints.Keys
      && forall t :: t in a ==> a[t] == if t in s.waitingAltitude then s.trackPoints[t].(altitudeMeters := altitude) else s.trackPoints[t]
  {
    WaitingPoints(s);
    AltitudeReachesQueued(s.trackPoints, s.waitingAltitude, altitude);
  }

  /** Setting the altitude of each queued point, the queue naming points
      each once: exactly those points change, and only in their altitude. */
  lemma AltitudeReachesQueued(points: map<int, TrackPoint>, waiting: seq<int>, altitude: int)
    requires Covers(points, waiting) && Distinct(waiting)
    ensures var a := ApplyEach(points, waiting, WithAltitude(altitude));
      && a.Keys == points.Keys
      && forall t :: t in a ==> a[t] == if t in waiting then points[t].(altitudeMeters := altitude) else points[t]
  {
    forall t | t in points
      ensures ApplyEach(points, waiting, WithAltitude(altitude))[t]
        == if t in waiting then points[t].(altitudeMeters := altitude) else points[t]
    {
      ApplyEachOnce(points, waiting, WithAltitude(altitude), t);
    }
  }

  /** The fields after `LogBatteryLevel(level)`. */
  function BatteryLogged(s: ActivityState, level: int): (r: ActivityState)
    ensures Consistent(s) ==> Consistent(r)
    ensures r.batteryLevels == s.batteryLevels + [level]
  {
    s.(batteryLevels := s.batteryLevels + [level],
       batteryLevelMin := LowAfter(s.batteryLevelMin, level),
       batteryLevelMax := HighAfter(s.batteryLevelMax, level))
  }

  /** `LogBatteryLevel` applied to each of `levels` in turn. */
  function BatterySeries(s: ActivityState, levels: seq<int>): (r: ActivityState)
  {
    if levels == [] then s else BatteryLogged(BatterySeries(s, levels[..|levels| - 1]), levels[|levels| - 1])
  }

  /** From a fresh activity, the running battery values after a series of
      positive readings are the lowest and the highest reading, and every
      reading is kept in order. */
  lemma {:induction false} BatteryRange(today: int, levels: seq<int>)
    requires forall i :: 0 <= i < |levels| ==> levels[i] > 0
    ensures var r := BatterySeries(Initial(today), levels);
      && r.batteryLevels == levels
      && r.batteryLevelMin == Low(levels) && r.batteryLevelMax == High(levels)
      && (forall i :: 0 <= i < |levels| ==> r.batteryLevelMin <= levels[i] as real && levels[i] <= r.batteryLevelMax)
      && (levels != [] ==> r.batteryLevelMax in levels)
  {
    LowHighAreExtremes(levels);
    BatterySeriesIsFold(today, levels);
  }

  lemma {:induction false} BatterySeriesIsFold(today: int, levels: seq<int>)
    ensures var r := BatterySeries(Initial(today), levels);
      r.batteryLevels == levels && r.batteryLevelMin == Low(levels) && r.batteryLevelMax == High(levels)
  {
    if levels != [] {
      var n := |levels| - 1;
      BatterySeriesIsFold(today, levels[..n]);
      assert levels[..n] + [levels[n]] == levels;
    }
  }

  /** The fields after `LogLap(seconds, distance, calories)`: the device
      reports running totals, and the new lap holds what the earlier laps
      do not account for, so the laps add up to the totals; its start time
      is the wall-clock instant `now`. */
  function LapLogged(s: ActivityState, seconds: int, distance: real, calories: int, now: int): (r: ActivityState)
    ensures Consistent(s) ==> Consistent(r)
    ensures SumSeconds(r.laps) == seconds && SumDistance(r.laps) == distance && SumCalories(r.laps) == calories
    ensures |r.laps| == |s.laps| + 1 && r.laps[..|s.laps|] == s.laps
  {
    s.(laps := s.laps + [NextLap(s.laps, seconds, distance, calories, now)],
       currentLapIndex := s.currentLapIndex + 1)
  }

  // ---------------------------------------------------------------------
  // Heart-rate zones

  /** The fields after `BuildHRZones(args)`, or `None` where parsing the
      limits raises. */
  function ZonesBuilt(s: ActivityState, args: seq<string>): (r: Option<ActivityState>)
    ensures r.Some? ==> (Consistent(s) ==> Consistent(r.value))
    ensures r.Some? <==> ZonesFor(args).Some?
  {
    var z := ZonesFor(args);
    if z.None? then None else Some(s.(heartRatesByZone := z.value))
  }

  // ---------------------------------------------------------------------
  // End of the activity

  /** The lap index and time of every point survive the point passes. */
  lemma FinalizedKeepsLaps(s: ActivityState)
    requires Consistent(s)
    ensures var f := Finalized(s.trackPoints, s.pointOrder, s.activityType == Treadmill, s.totalDistanceMeters, Bucket);
      && f.Keys == s.trackPoints.Keys
      && (forall t :: t in f ==> f[t].lapIndex == s.trackPoints[t].lapIndex && f[t].time == t)
      && Indexed(f, s.pointOrder)
  {
    var treadmill := s.activityType == Treadmill;
    forall t | t in s.trackPoints
      ensures Finalized(s.trackPoints, s.pointOrder, treadmill, s.totalDistanceMeters, Bucket)[t].lapIndex == s.trackPoints[t].lapIndex
    {
      FinalizedFields(s.trackPoints, s.pointOrder, treadmill, s.totalDistanceMeters, Bucket, t);
    }
    FinalizedIndexed(s.trackPoints, s.pointOrder, treadmill, s.totalDistanceMeters, Bucket);
  }

  /** The fields after the point passes and the statistics of `PostLoad`. */
  function Summarized(s: ActivityState): (r: ActivityState)
    requires Consistent(s)
    ensures Consistent(r)
    ensures r == s.(trackPoints := r.trackPoints, maxSpeed := r.maxSpeed, maxHeartRate := r.maxHeartRate,
                    avgSpeed := r.avgSpeed, avgHeartRate := r.avgHeartRate)
  {
    var treadmill := s.activityType == Treadmill;
    var c := Corrections(s.trackPoints, s.pointOrder, treadmill, s.totalDistanceMeters);
    var count := HeartRateCount(c, s.pointOrder);
    FinalizedKeepsLaps(s);
    s.(trackPoints := Finalized(s.trackPoints, s.pointOrder, treadmill, s.totalDistanceMeters, Bucket),
       maxSpeed := MaxSpeed(c, s.pointOrder),
       maxHeartRate := MaxHeartRate(c, s.pointOrder),
       avgSpeed := if s.totalActiveSeconds > 0 then s.totalDistanceMeters / s.totalActiveSeconds as real else 0.0,
       avgHeartRate := if count > 0 then HeartRateSum(c, s.pointOrder) as real / count as real else 0.0)
  }

  /** `Summarized` in terms of the results of the point passes, as
      `FinalizePoints` returns them. */
  lemma SummarizedFrom(s: ActivityState, points: map<int, TrackPoint>, fastest: real, highest: int, count: nat, sum: int)
    requires Consistent(s)
    requires var treadmill := s.activityType == Treadmill;
      var c := Corrections(s.trackPoints, s.pointOrder, treadmill, s.totalDistanceMeters);
      && points == Finalized(s.trackPoints, s.pointOrder, treadmill, s.totalDistanceMeters, Bucket)
      && fastest == MaxSpeed(c, s.pointOrder) && highest == MaxHeartRate(c, s.pointOrder)
      && count == HeartRateCount(c, s.pointOrder) && sum == HeartRateSum(c, s.pointOrder)
    ensures Summarized(s) == s.(trackPoints := points, maxSpeed := fastest, maxHeartRate := highest,
      avgSpeed := if s.totalActiveSeconds > 0 then s.totalDistanceMeters / s.totalActiveSeconds as real else 0.0,
      avgHeartRate := if count > 0 then sum as real / count as real else 0.0)
  {
  }

  /** The trailing lap of `PostLoad`: one more lap closed at the activity
      totals whenever no lap record is pending, which every consistent
      aggregate satisfies. */
  function TrailingLapAdded(s: ActivityState, now: int): (r: ActivityState)
    requires Consistent(s)
    ensures Consistent(r) && |r.laps| == |s.laps| + 1 && r.laps[..|s.laps|] == s.laps
    ensures LapsInRange(r.trackPoints, r.pointOrder, |r.laps|)
    ensures SumSeconds(r.laps) == s.totalActiveSeconds && SumDistance(r.laps) == s.totalDistanceMeters
      && SumCalories(r.laps) == s.totalCalories
    ensures r == s.(laps := r.laps, currentLapIndex := r.currentLapIndex)
  {
    LapsCoverPoints(s, |s.laps| + 1);
    if s.currentLapIndex == |s.laps| then LapLogged(s, s.totalActiveSeconds, s.totalDistanceMeters, s.totalCalories, now) else s
  }

  /** Every point belongs to one of the first `lapCount` laps when more
      laps than the open one exist. */
  lemma LapsCoverPoints(s: ActivityState, lapCount: nat)
    requires Consistent(s) && lapCount > s.currentLapIndex
    ensures LapsInRange(s.trackPoints, s.pointOrder, lapCount)
  {
    forall i | 0 <= i < |s.pointOrder|
      ensures s.pointOrder[i] in s.trackPoints && s.trackPoints[s.pointOrder[i]].lapIndex < lapCount
    {
      var t := s.pointOrder[i];
      assert t in s.trackPoints;
      assert s.trackPoints[t].lapIndex <= s.currentLapIndex;
    }
  }

  /** The battery pass of `PostLoad`: with readings present, the outliers
      are dropped and the minimum becomes the trend's estimate, as the code
      computes it, when the trend is defined (which it always is, see
      `PostLoadedEstimate`). */
  function BatteryEstimated(s: ActivityState): (r: ActivityState)
    ensures Consistent(s) ==> Consistent(r)
    ensures r == s.(batteryLevels := r.batteryLevels, batteryLevelMin := r.batteryLevelMin)
    ensures s.batteryLevels != [] ==> r.batteryLevels != [] && forall i :: 0 <= i < |r.batteryLevels| ==> r.batteryLevels[i] in s.batteryLevels
  {
    if s.batteryLevels == [] then s
    else
      var kept := WithoutOutliers(s.batteryLevels);
      var estimate := TrendAsWritten(kept);
      s.(batteryLevels := kept, batteryLevelMin := if estimate.Some? then estimate.value else s.batteryLevelMin)
  }

  /** The fields after `PostLoad()`, `now` being the wall-clock instant a
      trailing lap is created at. */
  function PostLoaded(s: ActivityState, now: int): (r: ActivityState)
    requires Consistent(s)
    ensures Consistent(r)
  {
    var s2 := TrailingLapAdded(Summarized(s), now);
    BatteryEstimated(s2.(laps := ResolvedStarts(s2.laps, s2.trackPoints, s2.pointOrder)))
  }

  /** `PostLoaded` as its stages one after the other. */
  lemma PostLoadedStages(s: ActivityState, now: int, summarized: ActivityState, closed: ActivityState, resolved: ActivityState,
                         r: ActivityState)
    requires Consistent(s) && summarized == Summarized(s) && closed == TrailingLapAdded(summarized, now)
    requires resolved == closed.(laps := ResolvedStarts(closed.laps, closed.trackPoints, closed.pointOrder))
    requires r == BatteryEstimated(resolved)
    ensures r == PostLoaded(s, now)
  {
  }

  /** `PostLoad` closes exactly one more lap, so the laps add up to the
      activity totals. */
  lemma PostLoadLapTotals(s: ActivityState, now: int)
    requires Consistent(s)
    ensures var r := PostLoaded(s, now);
      && |r.laps| == |s.laps| + 1
      && SumSeconds(r.laps) == s.totalActiveSeconds
      && SumDistance(r.laps) == s.totalDistanceMeters
      && SumCalories(r.laps) == s.totalCalories
  {
    var s2 := TrailingLapAdded(Summarized(s), now);
    PostLoadedParts(s, now);
    ResolvedStartsTotals(s2);
  }

  /** `PostLoad` changes the earlier laps only by moving their start
      back. */
  lemma PostLoadLapStarts(s: ActivityState, now: int)
    requires Consistent(s)
    ensures var r := PostLoaded(s, now);
      && |r.laps| > |s.laps|
      && (forall j :: 0 <= j < |s.laps| ==>
            r.laps[j] == s.laps[j].(startTime := r.laps[j].startTime) && r.laps[j].startTime <= s.laps[j].startTime)
  {
    var s2 := TrailingLapAdded(Summarized(s), now);
    PostLoadedParts(s, now);
    StartsResolved(s2);
    StartsOfPrefix(s.laps, s2.laps, ResolvedStarts(s2.laps, s2.trackPoints, s2.pointOrder));
  }

  /** Laps whose starts only moved back keep that property on a prefix. */
  lemma StartsOfPrefix(prefix: seq<Lap>, laps: seq<Lap>, starts: seq<Lap>)
    requires |prefix| <= |laps| == |starts| && laps[..|prefix|] == prefix
    requires forall j :: 0 <= j < |laps| ==>
      starts[j] == laps[j].(startTime := starts[j].startTime) && starts[j].startTime <= laps[j].startTime
    ensures forall j :: 0 <= j < |prefix| ==>
      starts[j] == prefix[j].(startTime := starts[j].startTime) && starts[j].startTime <= prefix[j].startTime
  {
    forall j | 0 <= j < |prefix|
      ensures laps[j] == prefix[j]
    {
      assert laps[..|prefix|][j] == laps[j];
    }
  }

  /** After `PostLoad` every point lies in a lap, and no point precedes
      the start of its lap. */
  lemma PostLoadPointsInLaps(s: ActivityState, now: int)
    requires Consistent(s)
    ensures var r := PostLoaded(s, now);
      && |r.laps| > |s.laps|
      && (forall t :: t in r.trackPoints ==>
            r.trackPoints[t].lapIndex < |r.laps| && r.laps[r.trackPoints[t].lapIndex].startTime <= t)
  {
    var s2 := TrailingLapAdded(Summarized(s), now);
    PostLoadedParts(s, now);
    StartsResolved(s2);
  }

  /** `PostLoaded` in terms of its stages: the laps are those of the
      trailing-lap stage with their starts resolved, and the points are
      those of the statistics stage. */
  lemma PostLoadedParts(s: ActivityState, now: int)
    requires Consistent(s)
    ensures var s1 := Summarized(s);
      var s2 := TrailingLapAdded(s1, now);
      var r := PostLoaded(s, now);
      && r.laps == ResolvedStarts(s2.laps, s2.trackPoints, s2.pointOrder)
      && r.trackPoints == s1.trackPoints && s2.trackPoints == s1.trackPoints
      && r.pointOrder == s.pointOrder && s2.pointOrder == s.pointOrder
      && r.maxSpeed == s1.maxSpeed && r.maxHeartRate == s1.maxHeartRate && r.avgHeartRate == s1.avgHeartRate
      && s1.totalActiveSeconds == s.totalActiveSeconds && s1.totalDistanceMeters == s.totalDistanceMeters
      && s1.totalCalories == s.totalCalories && s1.laps == s.laps
  {
  }

  /** The start-time pass keeps the lap totals. */
  lemma ResolvedStartsTotals(s: ActivityState)
    requires Consistent(s) && LapsInRange(s.trackPoints, s.pointOrder, |s.laps|)
    ensures var starts := ResolvedStarts(s.laps, s.trackPoints, s.pointOrder);
      && |starts| == |s.laps|
      && SumSeconds(starts) == SumSeconds(s.laps)
      && SumDistance(starts) == SumDistance(s.laps)
      && SumCalories(starts) == SumCalories(s.laps)
  {
    var starts := ResolvedStarts(s.laps, s.trackPoints, s.pointOrder);
    ResolvedStartsBound(s.laps, s.trackPoints, s.pointOrder);
    TotalsIgnoreStarts(starts, s.laps);
  }

  /** The start-time pass on a consistent aggregate whose laps cover its
      points: each lap only moves its start back, and no point precedes
      the start of its lap. */
  lemma StartsResolved(s: ActivityState)
    requires Consistent(s) && LapsInRange(s.trackPoints, s.pointOrder, |s.laps|)
    ensures var starts := ResolvedStarts(s.laps, s.trackPoints, s.pointOrder);
      && |starts| == |s.laps|
      && (forall j :: 0 <= j < |s.laps| ==>
            starts[j] == s.laps[j].(startTime := starts[j].startTime) && starts[j].startTime <= s.laps[j].startTime)
      && (forall t :: t in s.trackPoints ==> starts[s.trackPoints[t].lapIndex].startTime <= t)
  {
    var starts := ResolvedStarts(s.laps, s.trackPoints, s.pointOrder);
    ResolvedStartsBound(s.laps, s.trackPoints, s.pointOrder);
    forall t | t in s.trackPoints
      ensures starts[s.trackPoints[t].lapIndex].startTime <= t
    {
      var i :| 0 <= i < |s.pointOrder| && s.pointOrder[i] == t;
    }
  }

  /** After `PostLoad` the maximum speed and heart rate bound those of
      every point, and the average heart rate is 0 exactly when no point
      has one and otherwise lies between 1 and the maximum. */
  lemma PostLoadStatistics(s: ActivityState, now: int)
    requires Consistent(s)
    ensures var r := PostLoaded(s, now);
      && r.maxSpeed >= 0.0 && r.maxHeartRate >= 0
      && (forall t :: t in r.trackPoints ==> r.trackPoints[t].speed <= r.maxSpeed && r.trackPoints[t].heartRate <= r.maxHeartRate)
      && (r.avgHeartRate == 0.0 <==> forall t :: t in r.trackPoints ==> r.trackPoints[t].heartRate <= 0)
      && (r.avgHeartRate != 0.0 ==> 1.0 <= r.avgHeartRate <= r.maxHeartRate as real)
  {
    PostLoadedParts(s, now);
    SummaryBounds(s);
  }

  /** The statistics stage: the maxima bound every point and the average
      heart rate is 0 exactly when no point has one, otherwise between 1
      and the maximum. */
  lemma SummaryBounds(s: ActivityState)
    requires Consistent(s)
    ensures var r := Summarized(s);
      && r.maxSpeed >= 0.0 && r.maxHeartRate >= 0
      && (forall t :: t in r.trackPoints ==> r.trackPoints[t].speed <= r.maxSpeed && r.trackPoints[t].heartRate <= r.maxHeartRate)
      && (r.avgHeartRate == 0.0 <==> forall t :: t in r.trackPoints ==> r.trackPoints[t].heartRate <= 0)
      && (r.avgHeartRate != 0.0 ==> 1.0 <= r.avgHeartRate <= r.maxHeartRate as real)
  {
    var treadmill := s.activityType == Treadmill;
    var c := Corrections(s.trackPoints, s.pointOrder, treadmill, s.totalDistanceMeters);
    FinalizedStatistics(s.trackPoints, s.pointOrder, treadmill, s.totalDistanceMeters, Bucket);
    var count := HeartRateCount(c, s.pointOrder);
    if count > 0 {
      AverageBounds(HeartRateSum(c, s.pointOrder), count, MaxHeartRate(c, s.pointOrder));
    }
  }

  /** The statistics over the corrected points bound the finished points. */
  lemma FinalizedStatistics(points: map<int, TrackPoint>, order: seq<int>, treadmill: bool, total: real, bucket: int -> int)
    requires Enumerates(points, order)
    ensures var c := Corrections(points, order, treadmill, total);
      var f := Finalized(points, order, treadmill, total, bucket);
      && MaxSpeed(c, order) >= 0.0 && MaxHeartRate(c, order) >= 0
      && HeartRateCount(c, order) <= HeartRateSum(c, order) <= HeartRateCount(c, order) * MaxHeartRate(c, order)
      && (forall t :: t in f ==> f[t].speed <= MaxSpeed(c, order) && f[t].heartRate <= MaxHeartRate(c, order))
      && (HeartRateCount(c, order) == 0 <==> forall t :: t in f ==> f[t].heartRate <= 0)
  {
    var c := Corrections(points, order, treadmill, total);
    var f := Finalized(points, order, treadmill, total, bucket);
    MaxSpeedIsMaximum(c, order);
    MaxHeartRateIsMaximum(c, order);
    HeartRateCountZero(c, order);
    HeartRateAverageBounds(c, order);
    forall t | t in f
      ensures f[t].speed <= MaxSpeed(c, order) && f[t].heartRate <= MaxHeartRate(c, order)
      ensures HeartRateCount(c, order) == 0 ==> f[t].heartRate <= 0
    {
      var i :| 0 <= i < |order| && order[i] == t;
      assert f[t] == c[t].(cadence := f[t].cadence);
    }
    if HeartRateCount(c, order) != 0 {
      assert !forall i :: 0 <= i < |order| ==> c[order[i]].heartRate <= 0;
      var i :| 0 <= i < |order| && c[order[i]].heartRate > 0;
      var t := order[i];
      assert t in f && f[t] == c[t].(cadence := f[t].cadence);
      assert f[t].heartRate > 0;
    }
  }

  /** `sum / count` lies between 1 and `max` when `count <= sum <= count *
      max`. */
  lemma AverageBounds(sum: int, count: nat, max: int)
    requires count > 0 && count <= sum <= count * max
    ensures 1.0 <= sum as real / count as real <= max as real
    ensures sum as real / count as real != 0.0
  {
    assert sum as real <= count as real * max as real;
  }

  /** `PostLoad` leaves the battery maximum alone; with readings present it
      keeps only readings it had, at least one, and when those lie on a
      line the new minimum is that line's value one reading past the
      last. */
  lemma PostLoadBattery(s: ActivityState, now: int)
    requires Consistent(s)
    ensures var r := PostLoaded(s, now);
      && r.batteryLevelMax == s.batteryLevelMax
      && (s.batteryLevels == [] ==> r.batteryLevels == [] && r.batteryLevelMin == s.batteryLevelMin)
      && (s.batteryLevels != [] ==>
            && r.batteryLevels == WithoutOutliers(s.batteryLevels) && r.batteryLevels != []
            && forall i :: 0 <= i < |r.batteryLevels| ==> r.batteryLevels[i] in s.batteryLevels)
  {
  }

  /** With readings present, `PostLoad` always replaces the minimum: it
      becomes the trend's estimate, as the code computes it, over the
      readings that survive the outlier filter. */
  lemma PostLoadedEstimate(s: ActivityState, now: int)
    requires Consistent(s) && s.batteryLevels != []
    ensures TrendAsWritten(WithoutOutliers(s.batteryLevels)).Some?
    ensures PostLoaded(s, now).batteryLevelMin == TrendAsWritten(WithoutOutliers(s.batteryLevels)).value
  {
    var s1 := Summarized(s);
    var s2 := TrailingLapAdded(s1, now);
    var resolved := s2.(laps := ResolvedStarts(s2.laps, s2.trackPoints, s2.pointOrder));
    assert resolved.batteryLevels == s.batteryLevels;
    assert PostLoaded(s, now) == BatteryEstimated(resolved);
    AsWrittenTrendIsDefined(WithoutOutliers(s.batteryLevels));
  }

  /** When every battery reading is the same level `v`, `PostLoad` sets the
      minimum to `v`. */
  lemma PostLoadBatteryConstant(s: ActivityState, now: int, v: int)
    requires Consistent(s) && s.batteryLevels != []
    requires forall i :: 0 <= i < |s.batteryLevels| ==> s.batteryLevels[i] == v
    ensures PostLoaded(s, now).batteryLevelMin == v as real
  {
    var kept := WithoutOutliers(s.batteryLevels);
    assert forall i :: 0 <= i < |kept| ==> kept[i] == v by {
      forall i | 0 <= i < |kept|
        ensures kept[i] == v
      {
        assert kept[i] in s.batteryLevels;
      }
    }
    AsWrittenTrendOfConstant(kept, v);
    PostLoadedEstimate(s, now);
  }

  /** `PostLoad` changes a point only in its distance, speed and cadence,
      and its speed only on a treadmill; the dictionary, its order and the
      altitude queue keep their keys. */
  lemma PostLoadPoints(s: ActivityState, now: int, t: int)
    requires Consistent(s) && t in s.trackPoints
    ensures var r := PostLoaded(s, now);
      && r.trackPoints.Keys == s.trackPoints.Keys && r.pointOrder == s.pointOrder && r.waitingAltitude == s.waitingAltitude
      && var p := r.trackPoints[t];
        p == s.trackPoints[t].(distanceMeters := p.distanceMeters, speed := p.speed, cadence := p.cadence)
        && (s.activityType != Treadmill ==> p.speed == s.trackPoints[t].speed)
  {
    FinalizedFields(s.trackPoints, s.pointOrder, s.activityType == Treadmill, s.totalDistanceMeters, Bucket, t);
  }

  // ---------------------------------------------------------------------
  // The class

  /** `Activity`: the aggregate whose fields the reader's handlers update in
      place. `State()` reads the fields as one value; every method is
      specified by the function above that gives the fields after it. */
  class Activity {
    var activityType: ActivityType
    var startTime: int
    var totalActiveSeconds: int
    var totalElapsedSeconds: int
    var totalDistanceMeters: real
    var totalCalories: int
    var totalSteps: int
    var totalAscendMeters: int
    var totalDescendMeters: int
    var avgSpeed: real
    var maxSpeed: real
    var batteryLevelMin: real
    var batteryLevelMax: int
    var batteryLevels: seq<int>
    var avgHeartRate: real
    var maxHeartRate: int
    var heartRatesByZone: seq<Zone>
    var currentLapIndex: nat
    var trackPoints: map<int, TrackPoint>
    var pointOrder: seq<int>
    var waitingAltitude: seq<int>
    var laps: seq<Lap>

    function State(): ActivityState
      reads this
    {
      ActivityState(activityType, startTime, totalActiveSeconds, totalElapsedSeconds, totalDistanceMeters,
        totalCalories, totalSteps, totalAscendMeters, totalDescendMeters, avgSpeed, maxSpeed,
        batteryLevelMin, batteryLevelMax, batteryLevels, avgHeartRate, maxHeartRate, heartRatesByZone,
        currentLapIndex, trackPoints, pointOrder, waitingAltitude, laps)
    }

    predicate Valid()
      reads this
    {
      Consistent(State())
    }

    /** `Activity()`, `today` being the wall-clock instant of creation. */
    constructor(today: int)
      ensures State() == Initial(today) && Valid()
    {
      activityType := Running;
      startTime := today;
      totalActiveSeconds := 0;
      totalElapsedSeconds := 0;
      totalDistanceMeters := 0.0;
      totalCalories := 0;
      totalSteps := 0;
      totalAscendMeters := 0;
      totalDescendMeters := 0;
      avgSpeed := 0.0;
      maxSpeed := 0.0;
      batteryLevelMin := 0.0;
      batteryLevelMax := 0;
      batteryLevels := [];
      trackPoints := map[];
      pointOrder := [];
      waitingAltitude := [];
      avgHeartRate := 0.0;
      maxHeartRate := 0;
      heartRatesByZone := [];
      laps := [];
      currentLapIndex := 0;
    }

    method LogBatteryLevel(level: int)
      modifies this
      ensures State() == BatteryLogged(old(State()), level)
    {
      var low, high := batteryLevelMin, batteryLevelMax;
      if low == 0.0 {
        low := level as real;
      }
      if high == 0 {
        high := level;
      }
      if low > level as real {
        low := level as real;
      }
      if high < level {
        high := level;
      }
      batteryLevels, batteryLevelMin, batteryLevelMax := batteryLevels + [level], low, high;
    }

    /** Creates the point for `time` if needed and returns it; `None` for
        a time before 1970. */
    method GetTrackPointAt(time: int) returns (point: Option<TrackPoint>)
      requires Valid()
      modifies this
      ensures State() == WithPoint(old(State()), time)
      ensures point == PointAt(old(State()), time)
    {
      DatedIsYearTest(time);
      if Year(time) < DefaultYear {
        return None;
      }
      if time in trackPoints {
        point := Some(trackPoints[time]);
      } else {
        ghost var s := State();
        var p := NewPoint(time, currentLapIndex);
        trackPoints := trackPoints[time := p];
        pointOrder := pointOrder + [time];
        waitingAltitude := waitingAltitude + [time];
        point := Some(p);
        assert State() == s.(trackPoints := trackPoints, pointOrder := pointOrder, waitingAltitude := waitingAltitude);
      }
    }

    method LogHeartRate(time: int, heartRate: int)
      requires Valid()
      modifies this
      ensures State() == HeartRateLogged(old(State()), time, heartRate)
    {
      var point := GetTrackPointAt(time);
      if point.Some? {
        trackPoints := trackPoints[time := point.value.(heartRate := heartRate)];
      }
      AddToHRZones(heartRate);
    }

    method LogSteps(time: int, totalSteps: int, distance: real)
      requires Valid()
      modifies this
      ensures State() == StepsLogged(old(State()), time, totalSteps, distance)
    {
      var point := GetTrackPointAt(time);
      if point.Some? {
        ghost var w := State();
        var p := point.value.(steps := totalSteps - this.totalSteps, distanceMeters := distance);
        trackPoints := trackPoints[time := p];
        this.totalSteps := totalSteps;
        assert State() == Stored(w, time, p).(totalSteps := totalSteps);
      }
    }

    method LogElevation(altitude: int, ascend: int, descend: int)
      requires Valid()
      modifies this
      ensures State() == ElevationLogged(old(State()), altitude, ascend, descend)
    {
      ghost var s := State();
      WaitingPoints(s);
      var points := trackPoints;
      for i := 0 to |waitingAltitude|
        invariant Covers(trackPoints, waitingAltitude[..i])
        invariant points == ApplyEach(trackPoints, waitingAltitude[..i], WithAltitude(altitude))
      {
        assert waitingAltitude[..i + 1][..i] == waitingAltitude[..i];
        var t := waitingAltitude[i];
        points := points[t := points[t].(altitudeMeters := altitude)];
      }
      assert waitingAltitude[..|waitingAltitude|] == waitingAltitude;
      ElevationLoggedFrom(s, altitude, ascend, descend, points);
      StoreElevation(ascend, descend, points);
    }

    /** The new totals and the rewritten points; the queue is emptied. */
    method StoreElevation(ascend: int, descend: int, points: map<int, TrackPoint>)
      modifies this
      ensures State() == old(State()).(totalAscendMeters := ascend, totalDescendMeters := descend,
                                       trackPoints := points, waitingAltitude := [])
    {
      totalAscendMeters, totalDescendMeters, trackPoints, waitingAltitude := ascend, descend, points, [];
    }

    method LogGps(time: int, latitude: real, longitude: real, speed: real, steps: int, distance: real)
      requires Valid()
      modifies this
      ensures State() == GpsLogged(old(State()), time, latitude, longitude, speed, steps, distance)
    {
      var point := GetTrackPointAt(time);
      if point.Some? {
        trackPoints := trackPoints[time := point.value.(steps := steps, speed := speed, latitudeDegrees := latitude,
                                                        longitudeDegrees := longitude, distanceMeters := distance)];
        totalSteps := totalSteps + steps;
      }
    }

    /** Appends the lap for the running totals `seconds`, `distance` and
        `calories`; `now` is the wall-clock instant of the call. */
    method LogLap(seconds: int, distance: real, calories: int, now: int)
      modifies this
      ensures State() == LapLogged(old(State()), seconds, distance, calories, now)
    {
      var sumSeconds := 0;
      var sumDistance := 0.0;
      var sumCalories := 0;
      for i := 0 to |laps|
        invariant sumSeconds == SumSeconds(laps[..i])
        invariant sumDistance == SumDistance(laps[..i])
        invariant sumCalories == SumCalories(laps[..i])
      {
        assert laps[..i + 1][..i] == laps[..i];
        sumSeconds := sumSeconds + laps[i].seconds;
        sumDistance := sumDistance + laps[i].distance;
        sumCalories := sumCalories + laps[i].calories;
      }
      assert laps[..|laps|] == laps;
      laps := laps + [Lap(seconds - sumSeconds, distance - sumDistance, calories - sumCalories, now)];
      currentLapIndex := currentLapIndex + 1;
    }

    /** Clears the zones and parses the value of the first `-hrzones`
        switch that has one; `ok` is false where Python raises. */
    method BuildHRZones(args: seq<string>) returns (ok: bool)
      modifies this
      ensures ok <==> ZonesFor(args).Some?
      ensures ok ==> State() == old(State()).(heartRatesByZone := ZonesFor(args).value)
      ensures State() == old(State()).(heartRatesByZone := heartRatesByZone)
    {
      heartRatesByZone := [];
      for i := 0 to |args|
        invariant SwitchValue(args) == SwitchValue(args[i..])
        invariant State() == old(State()).(heartRatesByZone := [])
      {
        if args[i] == ZonesSwitch && |args| > i + 1 {
          assert args[i..][1] == args[i + 1];
          ok := ParseHRZones(args[i + 1]);
          return;
        }
        assert args[i..][1..] == args[i + 1..];
      }
      ok := true;
    }

    /** Adds the limits of `value` ("130;140;150") to the zones with count
        zero, then the open zone; a blank value changes nothing. `ok` is
        false where `int()` raises. */
    method ParseHRZones(value: string) returns (ok: bool)
      requires WellFormed(heartRatesByZone)
      modifies this
      ensures ok <==> ZonesParsed(old(heartRatesByZone), value).Some?
      ensures ok ==> heartRatesByZone == ZonesParsed(old(heartRatesByZone), value).value
      ensures State() == old(State()).(heartRatesByZone := heartRatesByZone)
    {
      if |value| == 0 {
        return true;
      }
      var zones;
      ok, zones := InsertLimits(heartRatesByZone, Split(value, ';'));
      if ok {
        zones := Put(zones, OpenZoneLimit, 0);
      }
      heartRatesByZone := zones;
    }

    /** Counts one sample in the first zone, in insertion order, whose
        limit is at least `heartRate`. */
    method AddToHRZones(heartRate: int)
      modifies this
      ensures State() == old(State()).(heartRatesByZone := Counted(old(heartRatesByZone), heartRate))
    {
      for i := 0 to |heartRatesByZone|
        invariant State() == old(State())
        invariant forall j :: 0 <= j < i ==> heartRatesByZone[j].limit < heartRate
      {
        if heartRatesByZone[i].limit >= heartRate {
          heartRatesByZone := heartRatesByZone[i := heartRatesByZone[i].(count := heartRatesByZone[i].count + 1)];
          return;
        }
      }
    }

    /** Stores the points finished by `PostLoad`. */
    method SetPoints(points: map<int, TrackPoint>)
      modifies this
      ensures State() == old(State()).(trackPoints := points)
    {
      trackPoints := points;
    }

    /** Stores the statistics computed by `PostLoad`. */
    method SetStatistics(fastest: real, highest: int, speed: real, heartRate: real)
      modifies this
      ensures State() == old(State()).(maxSpeed := fastest, maxHeartRate := highest, avgSpeed := speed, avgHeartRate := heartRate)
    {
      maxSpeed, maxHeartRate, avgSpeed, avgHeartRate := fastest, highest, speed, heartRate;
    }

    /** The point passes and the statistics of `PostLoad`. */
    method ComputeStatistics()
      requires Valid()
      modifies this
      ensures State() == Summarized(old(State()))
    {
      ghost var s := State();
      var treadmill := activityType == Treadmill;
      var points, fastest, highest, heartRatePoints, heartRateSum :=
        FinalizePoints(trackPoints, pointOrder, treadmill, totalDistanceMeters, Bucket);
      var speed := if totalActiveSeconds > 0 then totalDistanceMeters / totalActiveSeconds as real else 0.0;
      var heartRate := if heartRatePoints > 0 then heartRateSum as real / heartRatePoints as real else 0.0;
      SummarizedFrom(s, points, fastest, highest, heartRatePoints, heartRateSum);
      SetPoints(points);
      SetStatistics(fastest, highest, speed, heartRate);
    }

    /** The battery pass of `PostLoad`. */
    method EstimateBattery()
      modifies this
      ensures State() == BatteryEstimated(old(State()))
    {
      if |batteryLevels| > 0 {
        var kept := WithoutOutliers(batteryLevels);
        var estimate := FitTrend(kept);
        batteryLevels := kept;
        if estimate.Some? {
          batteryLevelMin := estimate.value;
        }
      }
    }

    /** The end-of-file pass; `now` is the wall-clock instant a trailing
        lap is created at. */
    method PostLoad(now: int)
      requires Valid()
      modifies this
      ensures State() == PostLoaded(old(State()), now)
    {
      ghost var s0 := State();
      ComputeStatistics();
      ghost var s1 := State();
      if currentLapIndex == |laps| {
        LogLap(totalActiveSeconds, totalDistanceMeters, totalCalories, now);
      }
      assert State() == TrailingLapAdded(s1, now);
      ghost var closed := State();
      laps := ResolveLapStarts(laps, trackPoints, pointOrder);
      ghost var s2 := State();
      EstimateBattery();
      PostLoadedStages(s0, now, s1, closed, s2, State());
    }
  }
}
