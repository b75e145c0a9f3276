/** The first activity aggregate, `src/activity.py`, still shipped beside the
    current one. It has no laps, no heart-rate zones and no battery
    history: it keeps every sample whatever its date, its points carry lap
    index 0, and the battery is tracked only by its running minimum and
    maximum. `PostLoad` makes the same passes over the points as the
    current aggregate and computes the same statistics, without the
    trailing lap and the battery estimate.

    As in `ActivityModel`, `Activity` is a class whose methods are each
    specified by a function from the fields before the call (a
    `LegacyState` value) to the fields after it. */
module LegacyActivityModel {
  import opened Util
  import opened Track
  import opened Finalize
  import opened Battery
  import A = ActivityModel

  /** The fields of a legacy `Activity`; `pointOrder` and `waitingAltitude`
      play the same part as in `ActivityModel.ActivityState`. The minimum
      battery level is a real holding whole numbers, so that both
      aggregates share one update rule (`Battery.LowAfter`). */
  datatype LegacyState = LegacyState(
    activityType: ActivityType,
    startTime: int,
    totalActiveSeconds: int,
    totalElapsedSeconds: int,
    totalDistanceMeters: real,
    totalCalories: int,
    totalSteps: int,
    totalAscendMeters: int,
    totalDescendMeters: int,
    avgSpeed: real,
    maxSpeed: real,
    batteryLevelMin: real,
    batteryLevelMax: int,
    avgHeartRate: real,
    maxHeartRate: int,
    trackPoints: map<int, TrackPoint>,
    pointOrder: seq<int>,
    waitingAltitude: seq<int>)

  /** What every operation keeps: the point dictionary indexed by time and
      the altitude queue made of the newest points in creation order. */
  predicate Consistent(s: LegacyState)
  {
    && Indexed(s.trackPoints, s.pointOrder)
    && A.IsSuffix(s.waitingAltitude, s.pointOrder)
  }

  /** `Activity()`, `today` being the wall-clock instant of creation. */
  function Initial(today: int): (s: LegacyState)
    ensures Consistent(s)
  {
    LegacyState(Running, today, 0, 0, 0.0, 0, 0, 0, 0, 0.0, 0.0, 0.0, 0, 0.0, 0, map[], [], [])
  }

  // ---------------------------------------------------------------------
  // Points

  /** The point `GetTrackPointAt(time)` returns: the stored one, else a
      fresh one. */
  function PointAt(s: LegacyState, time: int): (p: TrackPoint)
    requires Consistent(s)
    ensures p.time == time
  {
    if time in s.trackPoints then s.trackPoints[time] else NewPoint(time, 0)
  }

  /** The fields after `GetTrackPointAt(time)`: a new time gets a point,
      appended to the dictionary's order and to the altitude queue. */
  function WithPoint(s: LegacyState, time: int): (r: LegacyState)
    requires Consistent(s)
    ensures Consistent(r)
    ensures time in r.trackPoints && r.trackPoints[time] == PointAt(s, time)
  {
    if time in s.trackPoints then s
    else
      var p := NewPoint(time, 0);
      IndexedInsert(s.trackPoints, s.pointOrder, p);
      assert (s.pointOrder + [time])[|s.pointOrder| - |s.waitingAltitude|..] == s.waitingAltitude + [time];
      s.(trackPoints := s.trackPoints[time := p],
         pointOrder := s.pointOrder + [time],
         waitingAltitude := s.waitingAltitude + [time])
  }

  /** Asking for the same time again changes nothing and returns the same
      point; unlike the current aggregate, every time gets a point. */
  lemma GetTrackPointAtIdempotent(s: LegacyState, time: int)
    requires Consistent(s)
    ensures WithPoint(WithPoint(s, time), time) == WithPoint(s, time)
    ensures PointAt(WithPoint(s, time), time) == PointAt(s, time)
    ensures time in WithPoint(s, time).trackPoints
  {
  }

  /** A new time goes to the end of both the order and the altitude queue
      with a zeroed point; nothing else changes. */
  lemma NewPointQueued(s: LegacyState, time: int)
    requires Consistent(s) && time !in s.trackPoints
    ensures var r := WithPoint(s, time);
      && r.pointOrder == s.pointOrder + [time]
      && r.waitingAltitude == s.waitingAltitude + [time]
      && r.trackPoints[time] == NewPoint(time, 0)
      && (forall t :: t in s.trackPoints ==> t in r.trackPoints && r.trackPoints[t] == s.trackPoints[t])
      && r == s.(trackPoints := r.trackPoints, pointOrder := r.pointOrder, waitingAltitude := r.waitingAltitude)
  {
  }

  /** The fields with the point under `time` replaced by `p`. */
  function Stored(s: LegacyState, time: int, p: TrackPoint): (r: LegacyState)
    requires Consistent(s) && time in s.trackPoints && p.time == time
    ensures Consistent(r)
  {
    IndexedUpdate(s.trackPoints, s.pointOrder, p);
    s.(trackPoints := s.trackPoints[time := p])
  }

  // ---------------------------------------------------------------------
  // Samples

  /** The fields after `LogHeartRate(time, heartRate)`. */
  function HeartRateLogged(s: LegacyState, time: int, heartRate: int): (r: LegacyState)
    requires Consistent(s)
    ensures Consistent(r)
  {
    Stored(WithPoint(s, time), time, PointAt(s, time).(heartRate := heartRate))
  }

  /** A heart-rate sample sets the heart rate of the point at its time,
      creating the point if needed, and touches no other point. */
  lemma HeartRateSet(s: LegacyState, time: int, heartRate: int)
    requires Consistent(s)
    ensures var r := HeartRateLogged(s, time, heartRate);
      && r.trackPoints.Keys == s.trackPoints.Keys + {time}
      && r.trackPoints[time] == PointAt(s, time).(heartRate := heartRate)
      && (forall t :: t in s.trackPoints && t != time ==> r.trackPoints[t] == s.trackPoints[t])
      && r.totalSteps == s.totalSteps && r.maxHeartRate == s.maxHeartRate
  {
  }

  /** The fields after `LogSteps(time, totalSteps, distance)`: the point
      takes the increase since the previous running total, and its
      distance. */
  function StepsLogged(s: LegacyState, time: int, totalSteps: int, distance: real): (r: LegacyState)
    requires Consistent(s)
    ensures Consistent(r)
  {
    var u := Stored(WithPoint(s, time), time, PointAt(s, time).(steps := totalSteps - s.totalSteps, distanceMeters := distance));
    u.(totalSteps := totalSteps)
  }

  /** The fields after `LogGps(time, latitude, longitude, speed, steps,
      distance)`: the point takes the fix, and its steps are added to the
      running total. */
  function GpsLogged(s: LegacyState, time: int, latitude: real, longitude: real, speed: real, steps: int, distance: real)
    : (r: LegacyState)
    requires Consistent(s)
    ensures Consistent(r)
  {
    var q := PointAt(s, time).(steps := steps, speed := speed, latitudeDegrees := latitude,
                               longitudeDegrees := longitude, distanceMeters := distance);
    Stored(WithPoint(s, time), time, q).(totalSteps := s.totalSteps + steps)
  }

  /** A treadmill or gym sample at a new instant keeps the steps of all
      points summing to the running total (up to what they differed by
      before), the new point holding the increase. */
  lemma StepsKeepBalance(s: LegacyState, time: int, totalSteps: int, distance: real)
    requires Consistent(s) && time !in s.trackPoints
    ensures var r := StepsLogged(s, time, totalSteps, distance);
      && A.StepSum(r.trackPoints, r.pointOrder) - r.totalSteps == A.StepSum(s.trackPoints, s.pointOrder) - s.totalSteps
      && r.totalSteps == totalSteps && r.trackPoints[time].steps == totalSteps - s.totalSteps
  {
    var r := StepsLogged(s, time, totalSteps, distance);
    NewPointQueued(s, time);
    assert r.pointOrder == s.pointOrder + [time];
    A.StepSumAppend(s.trackPoints, r.trackPoints, s.pointOrder, time);
  }

  /** A GPS fix at a new instant keeps the same balance: its steps go both
      to its point and to the running total. */
  lemma GpsKeepsBalance(s: LegacyState, time: int, latitude: real, longitude: real, speed: real, steps: int, distance: real)
    requires Consistent(s) && time !in s.trackPoints
    ensures var r := GpsLogged(s, time, latitude, longitude, speed, steps, distance);
      A.StepSum(r.trackPoints, r.pointOrder) - r.totalSteps == A.StepSum(s.trackPoints, s.pointOrder) - s.totalSteps
  {
    var r := GpsLogged(s, time, latitude, longitude, speed, steps, distance);
    NewPointQueued(s, time);
    assert r.pointOrder == s.pointOrder + [time];
    A.StepSumAppend(s.trackPoints, r.trackPoints, s.pointOrder, time);
  }

  /** The fields after `LogElevation(altitude, ascend, descend)`: the
      totals are replaced, every queued point takes the altitude and the
      queue is emptied. */
  function ElevationLogged(s: LegacyState, altitude: int, ascend: int, descend: int): (r: LegacyState)
    requires Consistent(s)
    ensures Consistent(r)
  {
    A.QueuedPoints(s.trackPoints, s.pointOrder, s.waitingAltitude);
    A.AltitudeReachesQueued(s.trackPoints, s.waitingAltitude, altitude);
    s.(totalAscendMeters := ascend, totalDescendMeters := descend,
       trackPoints := ApplyEach(s.trackPoints, s.waitingAltitude, A.WithAltitude(altitude)),
       waitingAltitude := [])
  }

  /** The elevation record reaches exactly the points created since the
      previous one and changes nothing but their altitude. */
  lemma ElevationSetsQueued(s: LegacyState, altitude: int, ascend: int, descend: int)
    requires Consistent(s)
    ensures var r := ElevationLogged(s, altitude, ascend, descend);
      && r.trackPoints.Keys == s.trackPoints.Keys && r.waitingAltitude == []
      && r.totalAscendMeters == ascend && r.totalDescendMeters == descend
      && forall t :: t in r.trackPoints ==>
           r.trackPoints[t] == if t in s.waitingAltitude then s.trackPoints[t].(altitudeMeters := altitude) else s.trackPoints[t]
  {
    A.QueuedPoints(s.trackPoints, s.pointOrder, s.waitingAltitude);
    A.AltitudeReachesQueued(s.trackPoints, s.waitingAltitude, altitude);
  }

  /** The fields after `LogBatteryLevel(level)`. */
  function BatteryLogged(s: LegacyState, level: int): LegacyState
  {
    s.(batteryLevelMin := LowAfter(s.batteryLevelMin, level),
       batteryLevelMax := HighAfter(s.batteryLevelMax, level))
  }

  /** `LogBatteryLevel` applied to each of `levels` in turn. */
  function BatterySeries(s: LegacyState, levels: seq<int>): LegacyState
  {
    if levels == [] then s else BatteryLogged(BatterySeries(s, levels[..|levels| - 1]), levels[|levels| - 1])
  }

  /** From a fresh activity, the battery values after a series of positive
      readings are the lowest and the highest reading, and nothing else
      changes. */
  lemma BatteryRange(today: int, levels: seq<int>)
    requires forall i :: 0 <= i < |levels| ==> levels[i] > 0
    ensures var r := BatterySeries(Initial(today), levels);
      && r == Initial(today).(batteryLevelMin := r.batteryLevelMin, batteryLevelMax := r.batteryLevelMax)
      && (forall i :: 0 <= i < |levels| ==> r.batteryLevelMin <= levels[i] as real && levels[i] <= r.batteryLevelMax)
      && (levels != [] ==> r.batteryLevelMax in levels && exists i :: 0 <= i < |levels| && r.batteryLevelMin == levels[i] as real)
  {
    LowHighAreExtremes(levels);
    BatterySeriesIsFold(today, levels);
  }

  lemma {:induction false} BatterySeriesIsFold(today: int, levels: seq<int>)
    ensures var r := BatterySeries(Initial(today), levels);
      r == Initial(today).(batteryLevelMin := Low(levels), batteryLevelMax := High(levels))
  {
    if levels != [] {
      var n := |levels| - 1;
      BatterySeriesIsFold(today, levels[..n]);
      assert levels[..n] + [levels[n]] == levels;
    }
  }

  // ---------------------------------------------------------------------
  // End of the activity

  /** The fields after `PostLoad()`: the points after the point passes and
      the statistics over them. */
  function PostLoaded(s: LegacyState): (r: LegacyState)
    requires Consistent(s)
    ensures Consistent(r)
    ensures r == s.(trackPoints := r.trackPoints, maxSpeed := r.maxSpeed, maxHeartRate := r.maxHeartRate,
                    avgSpeed := r.avgSpeed, avgHeartRate := r.avgHeartRate)
  {
    var treadmill := s.activityType == Treadmill;
    var c := Corrections(s.trackPoints, s.pointOrder, treadmill, s.totalDistanceMeters);
    var count := HeartRateCount(c, s.pointOrder);
    FinalizedIndexed(s.trackPoints, s.pointOrder, treadmill, s.totalDistanceMeters, Bucket);
    s.(trackPoints := Finalized(s.trackPoints, s.pointOrder, treadmill, s.totalDistanceMeters, Bucket),
       maxSpeed := MaxSpeed(c, s.pointOrder),
       maxHeartRate := MaxHeartRate(c, s.pointOrder),
       avgSpeed := if s.totalActiveSeconds > 0 then s.totalDistanceMeters / s.totalActiveSeconds as real else 0.0,
       avgHeartRate := if count > 0 then HeartRateSum(c, s.pointOrder) as real / count as real else 0.0)
  }

  /** `PostLoaded` in terms of the results of the point passes, as
      `FinalizePoints` returns them. */
  lemma PostLoadedFrom(s: LegacyState, points: map<int, TrackPoint>, fastest: real, highest: int, count: nat, sum: int)
    requires Consistent(s)
    requires var treadmill := s.activityType == Treadmill;
      var c := Corrections(s.trackPoints, s.pointOrder, treadmill, s.totalDistanceMeters);
      && points == Finalized(s.trackPoints, s.pointOrder, treadmill, s.totalDistanceMeters, Bucket)
      && fastest == MaxSpeed(c, s.pointOrder) && highest == MaxHeartRate(c, s.pointOrder)
      && count == HeartRateCount(c, s.pointOrder) && sum == HeartRateSum(c, s.pointOrder)
    ensures PostLoaded(s) == s.(trackPoints := points, maxSpeed := fastest, maxHeartRate := highest,
      avgSpeed := if s.totalActiveSeconds > 0 then s.totalDistanceMeters / s.totalActiveSeconds as real else 0.0,
      avgHeartRate := if count > 0 then sum as real / count as real else 0.0)
  {
  }

  /** After `PostLoad` the maximum speed and heart rate bound those of
      every point, and the average heart rate is 0 exactly when no point
      has one and otherwise lies between 1 and the maximum. */
  lemma PostLoadStatistics(s: LegacyState)
    requires Consistent(s)
    ensures var r := PostLoaded(s);
      && r.maxSpeed >= 0.0 && r.maxHeartRate >= 0
      && (forall t :: t in r.trackPoints ==> r.trackPoints[t].speed <= r.maxSpeed && r.trackPoints[t].heartRate <= r.maxHeartRate)
      && (r.avgHeartRate == 0.0 <==> forall t :: t in r.trackPoints ==> r.trackPoints[t].heartRate <= 0)
      && (r.avgHeartRate != 0.0 ==> 1.0 <= r.avgHeartRate <= r.maxHeartRate as real)
  {
    var treadmill := s.activityType == Treadmill;
    var c := Corrections(s.trackPoints, s.pointOrder, treadmill, s.totalDistanceMeters);
    A.FinalizedStatistics(s.trackPoints, s.pointOrder, treadmill, s.totalDistanceMeters, Bucket);
    var count := HeartRateCount(c, s.pointOrder);
    if count > 0 {
      A.AverageBounds(HeartRateSum(c, s.pointOrder), count, MaxHeartRate(c, s.pointOrder));
    }
  }

  /** `PostLoad` changes a point only in its distance, speed and cadence,
      and its speed only on a treadmill; the dictionary, its order and the
      altitude queue keep their keys. */
  lemma PostLoadPoints(s: LegacyState, t: int)
    requires Consistent(s) && t in s.trackPoints
    ensures var r := PostLoaded(s);
      && r.trackPoints.Keys == s.trackPoints.Keys && r.pointOrder == s.pointOrder && r.waitingAltitude == s.waitingAltitude
      && var p := r.trackPoints[t];
        p == s.trackPoints[t].(distanceMeters := p.distanceMeters, speed := p.speed, cadence := p.cadence)
        && (s.activityType != Treadmill ==> p.speed == s.trackPoints[t].speed)
  {
    FinalizedFields(s.trackPoints, s.pointOrder, s.activityType == Treadmill, s.totalDistanceMeters, Bucket, t);
  }

  // ---------------------------------------------------------------------
  // The class

  /** The legacy `Activity`, whose fields its methods update in place. */
  class Activity {
    var activityType: ActivityType
    var startTime: int
    var totalActiveSeconds: int
    var totalElapsedSeconds: int
    var totalDistanceMeters: real
    var totalCalories: int
    var totalSteps: int
    var totalAscendMeters: int
    var totalDescendMeters: int
    var avgSpeed: real
    var maxSpeed: real
    var batteryLevelMin: real
    var batteryLevelMax: int
    var avgHeartRate: real
    var maxHeartRate: int
    var trackPoints: map<int, TrackPoint>
    var pointOrder: seq<int>
    var waitingAltitude: seq<int>

    function State(): LegacyState
      reads this
    {
      LegacyState(activityType, startTime, totalActiveSeconds, totalElapsedSeconds, totalDistanceMeters,
        totalCalories, totalSteps, totalAscendMeters, totalDescendMeters, avgSpeed, maxSpeed,
        batteryLevelMin, batteryLevelMax, avgHeartRate, maxHeartRate, trackPoints, pointOrder, waitingAltitude)
    }

    predicate Valid()
      reads this
    {
      Consistent(State())
    }

    /** `Activity()`, `today` being the wall-clock instant of creation. */
    constructor(today: int)
      ensures State() == Initial(today) && Valid()
    {
      activityType := Running;
      startTime := today;
      totalActiveSeconds := 0;
      totalElapsedSeconds := 0;
      totalDistanceMeters := 0.0;
      totalCalories := 0;
      totalSteps := 0;
      totalAscendMeters := 0;
      totalDescendMeters := 0;
      avgSpeed := 0.0;
      maxSpeed := 0.0;
      batteryLevelMin := 0.0;
      batteryLevelMax := 0;
      trackPoints := map[];
      waitingAltitude := [];
      pointOrder := [];
      avgHeartRate := 0.0;
      maxHeartRate := 0;
    }

    method LogBatteryLevel(level: int)
      modifies this
      ensures State() == BatteryLogged(old(State()), level)
    {
      var low, high := batteryLevelMin, batteryLevelMax;
      if low == 0.0 {
        low := level as real;
      }
      if high == 0 {
        high := level;
      }
      if low > level as real {
        low := level as real;
      }
      if high < level {
        high := level;
      }
      batteryLevelMin, batteryLevelMax := low, high;
    }

    method GetTrackPointAt(time: int) returns (point: TrackPoint)
      requires Valid()
      modifies this
      ensures State() == WithPoint(old(State()), time)
      ensures point == PointAt(old(State()), time)
    {
      if time in trackPoints {
        point := trackPoints[time];
      } else {
        point := NewPoint(time, 0);
        trackPoints, pointOrder, waitingAltitude := trackPoints[time := point], pointOrder + [time], waitingAltitude + [time];
      }
    }

    method LogHeartRate(time: int, heartRate: int)
      requires Valid()
      modifies this
      ensures State() == HeartRateLogged(old(State()), time, heartRate)
    {
      var point := GetTrackPointAt(time);
      trackPoints := trackPoints[time := point.(heartRate := heartRate)];
    }

    method LogSteps(time: int, totalSteps: int, distance: real)
      requires Valid()
      modifies this
      ensures State() == StepsLogged(old(State()), time, totalSteps, distance)
    {
      var point := GetTrackPointAt(time);
      trackPoints, this.totalSteps :=
        trackPoints[time := point.(steps := totalSteps - this.totalSteps, distanceMeters := distance)], totalSteps;
    }

    method LogElevation(altitude: int, ascend: int, descend: int)
      requires Valid()
      modifies this
      ensures State() == ElevationLogged(old(State()), altitude, ascend, descend)
    {
      ghost var s := State();
      A.QueuedPoints(trackPoints, pointOrder, waitingAltitude);
      var points := trackPoints;
      for i := 0 to |waitingAltitude|
        invariant points == ApplyEach(trackPoints, waitingAltitude[..i], A.WithAltitude(altitude))
      {
        assert waitingAltitude[..i + 1][..i] == waitingAltitude[..i];
        var t := waitingAltitude[i];
        points := points[t := points[t].(altitudeMeters := altitude)];
      }
      assert waitingAltitude[..|waitingAltitude|] == waitingAltitude;
      assert ElevationLogged(s, altitude, ascend, descend)
        == s.(totalAscendMeters := ascend, totalDescendMeters := descend, trackPoints := points, waitingAltitude := []);
      StoreElevation(ascend, descend, points);
    }

    /** The new totals and the rewritten points; the queue is emptied. */
    method StoreElevation(ascend: int, descend: int, points: map<int, TrackPoint>)
      modifies this
      ensures State() == old(State()).(totalAscendMeters := ascend, totalDescendMeters := descend,
                                       trackPoints := points, waitingAltitude := [])
    {
      totalAscendMeters, totalDescendMeters, trackPoints, waitingAltitude := ascend, descend, points, [];
    }

    method LogGps(time: int, latitude: real, longitude: real, speed: real, steps: int, distance: real)
      requires Valid()
      modifies this
      ensures State() == GpsLogged(old(State()), time, latitude, longitude, speed, steps, distance)
    {
      var point := GetTrackPointAt(time);
      trackPoints, totalSteps :=
        trackPoints[time := point.(steps := steps, speed := speed, latitudeDegrees := latitude,
                                   longitudeDegrees := longitude, distanceMeters := distance)],
        totalSteps + steps;
    }

    /** The point passes and the statistics. */
    method PostLoad()
      requires Valid()
      modifies this
      ensures State() == PostLoaded(old(State()))
    {
      ghost var s := State();
      var treadmill := activityType == Treadmill;
      var points, fastest, highest, heartRatePoints, heartRateSum :=
        FinalizePoints(trackPoints, pointOrder, treadmill, totalDistanceMeters, Bucket);
      var speed := if totalActiveSeconds > 0 then totalDistanceMeters / totalActiveSeconds as real else 0.0;
      var heartRate := if heartRatePoints > 0 then heartRateSum as real / heartRatePoints as real else 0.0;
      PostLoadedFrom(s, points, fastest, highest, heartRatePoints, heartRateSum);
      SetPoints(points);
      SetStatistics(fastest, highest, speed, heartRate);
    }

    /** Stores the points finished by `PostLoad`. */
    method SetPoints(points: map<int, TrackPoint>)
      modifies this
      ensures State() == old(State()).(trackPoints := points)
    {
      trackPoints := points;
    }

    /** Stores the statistics computed by `PostLoad`. */
    method SetStatistics(fastest: real, highest: int, speed: real, heartRate: real)
      modifies this
      ensures State() == old(State()).(maxSpeed := fastest, maxHeartRate := highest, avgSpeed := speed, avgHeartRate := heartRate)
    {
      maxSpeed, maxHeartRate, avgSpeed, avgHeartRate := fastest, highest, speed, heartRate;
    }
  }
}
