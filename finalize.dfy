/** The passes of `PostLoad` that both aggregators run over their points:
    10-second cadence buckets, treadmill distance rescaling, the time-ordered
    correction of distance and treadmill speed, and the maximum and average
    speed and heart rate. Each pass is a method with the loop of the source,
    specified by a function over the points visited so far. */
module Finalize {
  import opened Util
  import opened Calendar
  import opened Track

  const GroupBySeconds: int := 10

  /** Every key names a point. */
  predicate Covers(points: map<int, TrackPoint>, keys: seq<int>)
  {
    forall i :: 0 <= i < |keys| ==> keys[i] in points
  }

  /** The points after visiting `keys` in turn and replacing the point
      under each key by `f` of its current value: the shape of the loops of
      `PostLoad` that rewrite one field of every point. */
  function ApplyEach(points: map<int, TrackPoint>, keys: seq<int>, f: TrackPoint -> TrackPoint)
    : (r: map<int, TrackPoint>)
    requires Covers(points, keys)
    ensures r.Keys == points.Keys
  {
    if keys == [] then points
    else
      var n := |keys| - 1;
      var r := ApplyEach(points, keys[..n], f);
      r[keys[n] := f(r[keys[n]])]
  }

  /** When every key occurs once, each point under a key is rewritten once,
      from its original value, and the others are untouched. */
  lemma {:induction false} ApplyEachOnce(points: map<int, TrackPoint>, keys: seq<int>, f: TrackPoint -> TrackPoint, t: int)
    requires Covers(points, keys) && Distinct(keys) && t in points
    ensures ApplyEach(points, keys, f)[t] == if t in keys then f(points[t]) else points[t]
  {
    if keys != [] {
      var n := |keys| - 1;
      assert keys == keys[..n] + [keys[n]];
      assert Distinct(keys[..n]);
      if t == keys[n] {
        assert t !in keys[..n];
      }
      ApplyEachOnce(points, keys[..n], f, t);
    }
  }

  // ---------------------------------------------------------------------
  // Cadence

  /** `math.floor(point.GetPointSeconds() / groupBySec)`: the 10-second
      window of the month a point's time falls in. */
  function Bucket(time: int): int
  {
    PointSeconds(time) / GroupBySeconds
  }

  /** Sum of the step deltas of the points (among `keys`) whose bucket is
      `g`. The bucket of a time is a parameter so that the passes do not
      depend on the calendar arithmetic; `PostLoad` passes `Bucket`. */
  function BucketSteps(points: map<int, TrackPoint>, keys: seq<int>, bucket: int -> int, g: int): int
    requires Covers(points, keys)
  {
    if keys == [] then 0
    else
      var n := |keys| - 1;
      var p := points[keys[n]];
      BucketSteps(points, keys[..n], bucket, g) + (if bucket(p.time) == g then p.steps else 0)
  }

  /** `cycles * 60.0 / groupBySec / 2.0`: steps per minute from the cycles
      counted in 10 seconds, halved because the device counts both feet. */
  function CadenceFromSteps(sum: int): (c: int)
    ensures c == 3 * sum
  {
    sum * 60 / GroupBySeconds / 2
  }

  /** The `cyclesByXXSec` table: one entry per bucket that holds a point,
      worth three times the bucket's step sum. */
  method CadenceTable(points: map<int, TrackPoint>, order: seq<int>, bucket: int -> int)
    returns (table: map<int, int>)
    requires Enumerates(points, order)
    ensures forall t :: t in points ==> bucket(points[t].time) in table
    ensures forall g :: g in table ==> table[g] == CadenceFromSteps(BucketSteps(points, order, bucket, g))
  {
    var sums: map<int, int> := map[];
    for i := 0 to |order|
      invariant forall j :: 0 <= j < i ==> bucket(points[order[j]].time) in sums
      invariant forall g :: g in sums ==> sums[g] == BucketSteps(points, order[..i], bucket, g)
      invariant forall g :: g !in sums ==> BucketSteps(points, order[..i], bucket, g) == 0
    {
      var p := points[order[i]];
      var g := bucket(p.time);
      assert order[..i + 1][..i] == order[..i];
      sums := sums[g := (if g in sums then sums[g] else 0) + p.steps];
    }
    assert order[..|order|] == order;
    table := map g | g in sums :: CadenceFromSteps(sums[g]);
    forall t | t in points
      ensures bucket(points[t].time) in table
    {
      var j :| 0 <= j < |order| && order[j] == t;
    }
  }

  // ---------------------------------------------------------------------
  // Treadmill distance

  /** `maxDistanceFromPoints`: the largest point distance, starting from 0. */
  function MaxDistance(points: map<int, TrackPoint>, keys: seq<int>): real
    requires Covers(points, keys)
  {
    if keys == [] then 0.0
    else
      var n := |keys| - 1;
      var m := MaxDistance(points, keys[..n]);
      var d := points[keys[n]].distanceMeters;
      if d > m then d else m
  }

  /** Every point distance multiplied by `factor`. */
  function Scale(points: map<int, TrackPoint>, factor: real): (r: map<int, TrackPoint>)
    ensures r.Keys == points.Keys
  {
    map t | t in points :: points[t].(distanceMeters := points[t].distanceMeters * factor)
  }

  /** The first loop of the treadmill correction. */
  method MaxPointDistance(points: map<int, TrackPoint>, order: seq<int>) returns (maxDistance: real)
    requires Covers(points, order)
    ensures maxDistance == MaxDistance(points, order)
  {
    maxDistance := 0.0;
    for i := 0 to |order|
      invariant maxDistance == MaxDistance(points, order[..i])
    {
      assert order[..i + 1][..i] == order[..i];
      var d := points[order[i]].distanceMeters;
      if d > maxDistance {
        maxDistance := d;
      }
    }
    assert order[..|order|] == order;
  }

  /** Multiplies one point's distance. */
  function ScalePoint(factor: real): TrackPoint -> TrackPoint
  {
    (p: TrackPoint) => p.(distanceMeters := p.distanceMeters * factor)
  }

  /** The second loop of the treadmill correction: every point distance
      multiplied by `factor`, each point visited once. */
  method ScaleDistances(points: map<int, TrackPoint>, order: seq<int>, factor: real)
    returns (scaled: map<int, TrackPoint>)
    requires Covers(points, order)
    ensures scaled == ApplyEach(points, order, ScalePoint(factor))
  {
    scaled := points;
    for i := 0 to |order|
      invariant scaled == ApplyEach(points, order[..i], ScalePoint(factor))
    {
      var t := order[i];
      assert order[..i + 1][..i] == order[..i];
      var point := scaled[t];
      assert ScalePoint(factor)(point) == point.(distanceMeters := point.distanceMeters * factor);
      scaled := scaled[t := point.(distanceMeters := point.distanceMeters * factor)];
    }
    assert order[..|order|] == order;
  }

  lemma ScaleIsApplyEach(points: map<int, TrackPoint>, order: seq<int>, factor: real)
    requires Enumerates(points, order)
    ensures ApplyEach(points, order, ScalePoint(factor)) == Scale(points, factor)
  {
    forall t | t in points
      ensures ApplyEach(points, order, ScalePoint(factor))[t] == Scale(points, factor)[t]
    {
      ApplyEachOnce(points, order, ScalePoint(factor), t);
    }
  }

  /** The treadmill correction: when some point distance is positive, every
      distance is scaled by `total / max`. */
  method ScaleTreadmillDistances(points: map<int, TrackPoint>, order: seq<int>, total: real)
    returns (scaled: map<int, TrackPoint>)
    requires Enumerates(points, order)
    ensures var m := MaxDistance(points, order);
      scaled == if m > 0.0 then Scale(points, total / m) else points
  {
    var maxDistance := MaxPointDistance(points, order);
    scaled := points;
    if maxDistance > 0.0 {
      scaled := ScaleDistances(points, order, total / maxDistance);
      ScaleIsApplyEach(points, order, total / maxDistance);
    }
  }

  /** The maximum is at least every distance and, when positive, one of
      them. */
  lemma {:induction false} MaxDistanceIsMaximum(points: map<int, TrackPoint>, keys: seq<int>)
    requires Covers(points, keys)
    ensures MaxDistance(points, keys) >= 0.0
    ensures forall i :: 0 <= i < |keys| ==> points[keys[i]].distanceMeters <= MaxDistance(points, keys)
    ensures MaxDistance(points, keys) == 0.0
      || exists i :: 0 <= i < |keys| && points[keys[i]].distanceMeters == MaxDistance(points, keys)
  {
    if keys != [] {
      var n := |keys| - 1;
      MaxDistanceIsMaximum(points, keys[..n]);
      var m := MaxDistance(points, keys[..n]);
      if m != 0.0 {
        var i :| 0 <= i < n && points[keys[..n][i]].distanceMeters == m;
        assert keys[..n][i] == keys[i];
      }
    }
  }

  /** Scaling by a non-negative factor scales the maximum. */
  lemma MaxDistanceOfScale(points: map<int, TrackPoint>, keys: seq<int>, factor: real)
    requires Covers(points, keys) && factor >= 0.0
    ensures Covers(Scale(points, factor), keys)
    ensures MaxDistance(Scale(points, factor), keys) == MaxDistance(points, keys) * factor
  {
    MaxDistanceScaledBy(points, keys, factor);
    ScaleByApplies(factor, MaxDistance(points, keys), MaxDistance(Scale(points, factor), keys));
  }

  lemma MaxDistanceScaledBy(points: map<int, TrackPoint>, keys: seq<int>, factor: real)
    requires Covers(points, keys) && factor >= 0.0
    ensures Covers(Scale(points, factor), keys)
    ensures MaxDistance(Scale(points, factor), keys) == ScaleBy(factor)(MaxDistance(points, keys))
  {
    ScaleByMonotone(factor);
    ScaleMapsDistances(points, keys, factor);
    MaxDistanceMapped(points, Scale(points, factor), keys, ScaleBy(factor));
  }

  lemma ScaleByApplies(factor: real, x: real, y: real)
    requires y == ScaleBy(factor)(x)
    ensures y == x * factor
  {
  }

  function ScaleBy(factor: real): real -> real
  {
    (x: real) => x * factor
  }

  lemma ScaleByMonotone(factor: real)
    requires factor >= 0.0
    ensures ScaleBy(factor)(0.0) == 0.0
    ensures forall a: real, b: real :: a <= b ==> ScaleBy(factor)(a) <= ScaleBy(factor)(b)
  {
    forall a: real, b: real | a <= b
      ensures ScaleBy(factor)(a) <= ScaleBy(factor)(b)
    {
      MulMonotoneReal(factor, a, b);
    }
  }

  lemma ScaleMapsDistances(points: map<int, TrackPoint>, keys: seq<int>, factor: real)
    requires Covers(points, keys)
    ensures Covers(Scale(points, factor), keys)
    ensures forall i :: 0 <= i < |keys| ==>
      Scale(points, factor)[keys[i]].distanceMeters == ScaleBy(factor)(points[keys[i]].distanceMeters)
  {
  }

  /** Transforming every distance by a monotone map that fixes zero
      transforms the farthest distance the same way. */
  lemma {:induction false} MaxDistanceMapped(points: map<int, TrackPoint>, mapped: map<int, TrackPoint>, keys: seq<int>, g: real -> real)
    requires Covers(points, keys) && Covers(mapped, keys)
    requires g(0.0) == 0.0
    requires forall a: real, b: real :: a <= b ==> g(a) <= g(b)
    requires forall i :: 0 <= i < |keys| ==>
      mapped[keys[i]].distanceMeters == g(points[keys[i]].distanceMeters)
    ensures MaxDistance(mapped, keys) == g(MaxDistance(points, keys))
  {
    if keys != [] {
      var n := |keys| - 1;
      var prefix := keys[..n];
      assert forall i :: 0 <= i < n ==> prefix[i] == keys[i];
      MaxDistanceMapped(points, mapped, prefix, g);
      var d := points[keys[n]].distanceMeters;
      var m := MaxDistance(points, prefix);
      assert d <= m ==> g(d) <= g(m);
      assert m <= d ==> g(m) <= g(d);
    }
  }

  lemma MulMonotoneReal(factor: real, x: real, y: real)
    requires factor >= 0.0 && x <= y
    ensures x * factor <= y * factor
  {
  }

  /** After the treadmill correction the farthest point lies exactly at the
      activity's total distance. */
  lemma {:induction false} ScaledMaximumIsTotal(points: map<int, TrackPoint>, keys: seq<int>, total: real)
    requires Covers(points, keys) && total >= 0.0 && MaxDistance(points, keys) > 0.0
    ensures MaxDistance(Scale(points, total / MaxDistance(points, keys)), keys) == total
  {
    var m := MaxDistance(points, keys);
    MaxDistanceOfScale(points, keys, total / m);
  }

  /** Running the correction again on distances whose maximum already is
      the total changes nothing (the factor is 1). */
  lemma ScaleByOneIsIdentity(points: map<int, TrackPoint>)
    ensures Scale(points, 1.0) == points
  {
    assert forall t :: t in points ==> Scale(points, 1.0)[t] == points[t];
  }

  // ---------------------------------------------------------------------
  // Time-ordered correction

  /** `timedelta.seconds`: the seconds part of a difference, whole days
      dropped. */
  function TimedeltaSeconds(d: int): (s: int)
    ensures 0 <= s < SecondsPerDay
    ensures 0 <= d < SecondsPerDay ==> s == d
  {
    d % SecondsPerDay
  }

  /** One step of the sorted loop of `PostLoad`, given the already
      corrected previous point. */
  function CorrectPoint(prev: Option<TrackPoint>, p: TrackPoint, treadmill: bool): TrackPoint
  {
    var p1 := if treadmill then p.(speed := 0.0) else p;
    match prev
    case None => p1
    case Some(q) =>
      var p2 := if p1.distanceMeters == 0.0 then p1.(distanceMeters := q.distanceMeters) else p1;
      if treadmill then
        var timeDiff := (TimedeltaSeconds(p2.time - q.time) * 1000) as real;
        var distDiff := p2.distanceMeters - q.distanceMeters;
        if timeDiff > 0.0 then p2.(speed := distDiff * 1000.0 / timeDiff) else p2
      else p2
  }

  /** The points of a time-ordered sequence after the correction loop. */
  function Corrected(ps: seq<TrackPoint>, treadmill: bool): (r: seq<TrackPoint>)
    ensures |r| == |ps|
  {
    if ps == [] then []
    else
      var n := |ps| - 1;
      var r := Corrected(ps[..n], treadmill);
      r + [CorrectPoint(if n == 0 then None else Some(r[n - 1]), ps[n], treadmill)]
  }

  /** Each corrected point depends on its own raw value and on the corrected
      point before it. */
  lemma {:induction false} CorrectedStep(ps: seq<TrackPoint>, treadmill: bool, i: nat)
    requires i < |ps|
    ensures Corrected(ps, treadmill)[i]
      == CorrectPoint(if i == 0 then None else Some(Corrected(ps, treadmill)[i - 1]), ps[i], treadmill)
  {
    var n := |ps| - 1;
    if i < n {
      CorrectedStep(ps[..n], treadmill, i);
      assert ps[..n][i] == ps[i];
    }
  }

  function PointsAt(points: map<int, TrackPoint>, keys: seq<int>): (ps: seq<TrackPoint>)
    requires Covers(points, keys)
    ensures |ps| == |keys| && forall i :: 0 <= i < |keys| ==> ps[i] == points[keys[i]]
  {
    if keys == [] then [] else [points[keys[0]]] + PointsAt(points, keys[1..])
  }

  /** `points` with `vals[i]` stored under `keys[i]`, one after the other. */
  function Overwrite(points: map<int, TrackPoint>, keys: seq<int>, vals: seq<TrackPoint>): (r: map<int, TrackPoint>)
    requires |keys| == |vals|
    ensures Covers(points, keys) ==> r.Keys == points.Keys
  {
    if keys == [] then points
    else
      var n := |keys| - 1;
      Overwrite(points, keys[..n], vals[..n])[keys[n] := vals[n]]
  }

  /** With distinct keys each key ends up holding its own value, and points
      under other keys are untouched. */
  lemma {:induction false} OverwriteAt(points: map<int, TrackPoint>, keys: seq<int>, vals: seq<TrackPoint>, t: int)
    requires |keys| == |vals| && Distinct(keys)
    ensures t !in keys && t in points ==> t in Overwrite(points, keys, vals) && Overwrite(points, keys, vals)[t] == points[t]
    ensures forall j :: 0 <= j < |keys| && keys[j] == t ==> t in Overwrite(points, keys, vals) && Overwrite(points, keys, vals)[t] == vals[j]
  {
    if keys != [] {
      var n := |keys| - 1;
      assert Distinct(keys[..n]);
      OverwriteAt(points, keys[..n], vals[..n], t);
      assert forall j :: 0 <= j < n ==> keys[..n][j] == keys[j] && vals[..n][j] == vals[j];
    }
  }

  /** The loop over `sorted(self.trackPoints)`: each point visited in
      `keys` is replaced by its corrected version. */
  method CorrectInTimeOrder(points: map<int, TrackPoint>, keys: seq<int>, treadmill: bool)
    returns (r: map<int, TrackPoint>)
    requires Distinct(keys) && Covers(points, keys)
    ensures r == Overwrite(points, keys, Corrected(PointsAt(points, keys), treadmill))
  {
    ghost var cs := Corrected(PointsAt(points, keys), treadmill);
    r := points;
    var prev: Option<TrackPoint> := None;
    for i := 0 to |keys|
      invariant r == Overwrite(points, keys[..i], cs[..i])
      invariant prev == if i == 0 then None else Some(cs[i - 1])
    {
      CorrectionStep(points, keys, treadmill, i, r, prev);
      var p := CorrectPoint(prev, r[keys[i]], treadmill);
      r := r[keys[i] := p];
      prev := Some(p);
    }
    assert keys[..|keys|] == keys && cs[..|keys|] == cs;
  }

  /** One iteration of the sorted loop stores the next corrected point. */
  lemma CorrectionStep(points: map<int, TrackPoint>, keys: seq<int>, treadmill: bool, i: nat,
                       r: map<int, TrackPoint>, prev: Option<TrackPoint>)
    requires Distinct(keys) && Covers(points, keys) && i < |keys|
    requires var cs := Corrected(PointsAt(points, keys), treadmill);
      && r == Overwrite(points, keys[..i], cs[..i])
      && prev == if i == 0 then None else Some(cs[i - 1])
    ensures keys[i] in r
    ensures var cs := Corrected(PointsAt(points, keys), treadmill);
      && CorrectPoint(prev, r[keys[i]], treadmill) == cs[i]
      && r[keys[i] := cs[i]] == Overwrite(points, keys[..i + 1], cs[..i + 1])
  {
    var ps := PointsAt(points, keys);
    var cs := Corrected(ps, treadmill);
    OverwriteExtends(points, keys, cs, i);
    var q := r[keys[i]];
    assert q == ps[i];
    CorrectedStep(ps, treadmill, i);
  }

  /** Before the `i`-th key is stored, the map still holds its original
      point; storing it extends the overwrite by one key. */
  lemma OverwriteExtends(points: map<int, TrackPoint>, keys: seq<int>, vals: seq<TrackPoint>, i: nat)
    requires Distinct(keys) && Covers(points, keys) && i < |keys| == |vals|
    ensures keys[i] in Overwrite(points, keys[..i], vals[..i])
    ensures Overwrite(points, keys[..i], vals[..i])[keys[i]] == points[keys[i]]
    ensures Overwrite(points, keys[..i], vals[..i])[keys[i] := vals[i]] == Overwrite(points, keys[..i + 1], vals[..i + 1])
  {
    assert keys[..i + 1][..i] == keys[..i] && vals[..i + 1][..i] == vals[..i];
    assert Distinct(keys[..i]) && keys[i] !in keys[..i];
    OverwriteAt(points, keys[..i], vals[..i], keys[i]);
  }

  /** The distance most recently seen that is not zero, or zero. */
  function LastNonZero(ds: seq<real>): real
  {
    if ds == [] then 0.0
    else if ds[|ds| - 1] != 0.0 then ds[|ds| - 1]
    else LastNonZero(ds[..|ds| - 1])
  }

  function Distances(ps: seq<TrackPoint>): (ds: seq<real>)
    ensures |ds| == |ps| && forall i :: 0 <= i < |ps| ==> ds[i] == ps[i].distanceMeters
  {
    if ps == [] then [] else [ps[0].distanceMeters] + Distances(ps[1..])
  }

  /** Zero-distance carry-forward: after the correction each point's
      distance is the last non-zero distance at or before it in time. */
  lemma {:induction false} CorrectedCarriesDistanceForward(ps: seq<TrackPoint>, treadmill: bool, i: nat)
    requires i < |ps|
    ensures Corrected(ps, treadmill)[i].distanceMeters == LastNonZero(Distances(ps)[..i + 1])
  {
    var ds := Distances(ps);
    CorrectedStep(ps, treadmill, i);
    assert ds[..i + 1][..i] == ds[..i];
    if i > 0 {
      CorrectedCarriesDistanceForward(ps, treadmill, i - 1);
    }
  }

  /** The correction changes only distance and speed, and outside treadmill
      activities only distance. */
  lemma CorrectedKeepsOtherFields(ps: seq<TrackPoint>, treadmill: bool, i: nat)
    requires i < |ps|
    ensures var c := Corrected(ps, treadmill)[i];
      c == ps[i].(distanceMeters := c.distanceMeters, speed := c.speed)
      && (!treadmill ==> c.speed == ps[i].speed)
  {
    CorrectedStep(ps, treadmill, i);
  }

  /** The example distances 0, 100, 0, 0, 150 in time order become
      0, 100, 100, 100, 150. */
  lemma CarryForwardExample()
    ensures var ds := [0.0, 100.0, 0.0, 0.0, 150.0];
      [LastNonZero(ds[..1]), LastNonZero(ds[..2]), LastNonZero(ds[..3]),
       LastNonZero(ds[..4]), LastNonZero(ds[..5])]
      == [0.0, 100.0, 100.0, 100.0, 150.0]
  {
    var ds := [0.0, 100.0, 0.0, 0.0, 150.0];
    assert ds[..3][..2] == ds[..2] && ds[..4][..3] == ds[..3] && ds[..2][..1] == ds[..1];
    assert ds[..1][..0] == [];
  }

  // ---------------------------------------------------------------------
  // Maximum and average speed and heart rate

  function MaxSpeed(points: map<int, TrackPoint>, keys: seq<int>): real
    requires Covers(points, keys)
  {
    if keys == [] then 0.0
    else
      var n := |keys| - 1;
      var m := MaxSpeed(points, keys[..n]);
      var v := points[keys[n]].speed;
      if v > m then v else m
  }

  function MaxHeartRate(points: map<int, TrackPoint>, keys: seq<int>): int
    requires Covers(points, keys)
  {
    if keys == [] then 0
    else
      var n := |keys| - 1;
      var m := MaxHeartRate(points, keys[..n]);
      var h := points[keys[n]].heartRate;
      if h > m then h else m
  }

  /** Number of points with a heart rate. */
  function HeartRateCount(points: map<int, TrackPoint>, keys: seq<int>): nat
    requires Covers(points, keys)
  {
    if keys == [] then 0
    else
      var n := |keys| - 1;
      HeartRateCount(points, keys[..n]) + (if points[keys[n]].heartRate > 0 then 1 else 0)
  }

  /** Sum of the heart rates of the points that have one. */
  function HeartRateSum(points: map<int, TrackPoint>, keys: seq<int>): int
    requires Covers(points, keys)
  {
    if keys == [] then 0
    else
      var n := |keys| - 1;
      var h := points[keys[n]].heartRate;
      HeartRateSum(points, keys[..n]) + (if h > 0 then h else 0)
  }

  /** Every point with the cadence of its bucket. */
  function WithCadence(points: map<int, TrackPoint>, table: map<int, int>, bucket: int -> int)
    : (r: map<int, TrackPoint>)
    requires forall t :: t in points ==> bucket(points[t].time) in table
    ensures r.Keys == points.Keys
  {
    map t | t in points :: points[t].(cadence := table[bucket(points[t].time)])
  }

  /** Gives one point the cadence of its bucket. */
  function SetCadence(table: map<int, int>, bucket: int -> int): TrackPoint -> TrackPoint
  {
    (p: TrackPoint) => if bucket(p.time) in table then p.(cadence := table[bucket(p.time)]) else p
  }

  lemma WithCadenceIsApplyEach(points: map<int, TrackPoint>, order: seq<int>, table: map<int, int>, bucket: int -> int)
    requires Enumerates(points, order)
    requires forall t :: t in points ==> bucket(points[t].time) in table
    ensures ApplyEach(points, order, SetCadence(table, bucket)) == WithCadence(points, table, bucket)
  {
    forall t | t in points
      ensures ApplyEach(points, order, SetCadence(table, bucket))[t] == WithCadence(points, table, bucket)[t]
    {
      ApplyEachOnce(points, order, SetCadence(table, bucket), t);
    }
  }

  /** The statistics loop of `PostLoad`: assigns each point its bucket's
      cadence and accumulates the maximum speed, the maximum heart rate and
      the count and sum of the heart rates that are present. */
  method Summarize(points: map<int, TrackPoint>, order: seq<int>, table: map<int, int>, bucket: int -> int)
    returns (r: map<int, TrackPoint>, maxSpeed: real, maxHeartRate: int, heartRatePoints: nat, heartRateSum: int)
    requires Enumerates(points, order)
    requires forall t :: t in points ==> bucket(points[t].time) in table
    ensures r == WithCadence(points, table, bucket)
    ensures maxSpeed == MaxSpeed(points, order) && maxHeartRate == MaxHeartRate(points, order)
    ensures heartRatePoints == HeartRateCount(points, order) && heartRateSum == HeartRateSum(points, order)
  {
    r := points;
    maxSpeed, maxHeartRate, heartRatePoints, heartRateSum := 0.0, 0, 0, 0;
    for i := 0 to |order|
      invariant r == ApplyEach(points, order[..i], SetCadence(table, bucket))
      invariant maxSpeed == MaxSpeed(points, order[..i]) && maxHeartRate == MaxHeartRate(points, order[..i])
      invariant heartRatePoints == HeartRateCount(points, order[..i])
      invariant heartRateSum == HeartRateSum(points, order[..i])
    {
      var t := order[i];
      assert order[..i + 1][..i] == order[..i];
      ApplyEachOnce(points, order[..i], SetCadence(table, bucket), t);
      var point := r[t];
      point := point.(cadence := table[bucket(point.time)]);
      r := r[t := point];
      if point.speed > maxSpeed {
        maxSpeed := point.speed;
      }
      if point.heartRate > maxHeartRate {
        maxHeartRate := point.heartRate;
      }
      if point.heartRate > 0 {
        heartRatePoints := heartRatePoints + 1;
        heartRateSum := heartRateSum + point.heartRate;
      }
    }
    assert order[..|order|] == order;
    WithCadenceIsApplyEach(points, order, table, bucket);
  }

  /** The maximum heart rate is at least every point's heart rate and, when
      positive, is one of them. */
  lemma {:induction false} MaxHeartRateIsMaximum(points: map<int, TrackPoint>, keys: seq<int>)
    requires Covers(points, keys)
    ensures MaxHeartRate(points, keys) >= 0
    ensures forall i :: 0 <= i < |keys| ==> points[keys[i]].heartRate <= MaxHeartRate(points, keys)
    ensures MaxHeartRate(points, keys) == 0
      || exists i :: 0 <= i < |keys| && points[keys[i]].heartRate == MaxHeartRate(points, keys)
  {
    if keys != [] {
      var n := |keys| - 1;
      MaxHeartRateIsMaximum(points, keys[..n]);
      var m := MaxHeartRate(points, keys[..n]);
      if m != 0 {
        var i :| 0 <= i < n && points[keys[..n][i]].heartRate == m;
        assert keys[..n][i] == keys[i];
      }
    }
  }

  /** The maximum speed is at least every point's speed. */
  lemma {:induction false} MaxSpeedIsMaximum(points: map<int, TrackPoint>, keys: seq<int>)
    requires Covers(points, keys)
    ensures MaxSpeed(points, keys) >= 0.0
    ensures forall i :: 0 <= i < |keys| ==> points[keys[i]].speed <= MaxSpeed(points, keys)
  {
    if keys != [] {
      var n := |keys| - 1;
      MaxSpeedIsMaximum(points, keys[..n]);
      assert forall i :: 0 <= i < n ==> keys[..n][i] == keys[i];
    }
  }

  /** No heart rate was counted exactly when no point has one. */
  lemma {:induction false} HeartRateCountZero(points: map<int, TrackPoint>, keys: seq<int>)
    requires Covers(points, keys)
    ensures HeartRateCount(points, keys) == 0 <==> forall i :: 0 <= i < |keys| ==> points[keys[i]].heartRate <= 0
  {
    if keys != [] {
      var n := |keys| - 1;
      HeartRateCountZero(points, keys[..n]);
      assert forall i :: 0 <= i < n ==> keys[..n][i] == keys[i];
    }
  }

  /** The heart-rate sum lies between the count and the count times the
      maximum, so the average of the present heart rates lies between 1 and
      the maximum. */
  lemma {:induction false} HeartRateAverageBounds(points: map<int, TrackPoint>, keys: seq<int>)
    requires Covers(points, keys)
    ensures HeartRateCount(points, keys) <= HeartRateSum(points, keys)
    ensures HeartRateSum(points, keys) <= HeartRateCount(points, keys) * MaxHeartRate(points, keys)
  {
    if keys != [] {
      var n := |keys| - 1;
      HeartRateAverageBounds(points, keys[..n]);
      MaxHeartRateIsMaximum(points, keys[..n]);
      var c := HeartRateCount(points, keys[..n]);
      var m := MaxHeartRate(points, keys[..n]);
      var m' := MaxHeartRate(points, keys);
      MulMonotone(c, m, m');
    }
  }

  lemma MulMonotone(c: nat, m: int, m': int)
    requires m <= m'
    ensures c * m <= c * m'
  {
  }

  // ---------------------------------------------------------------------
  // The passes together

  /** The treadmill rescaling as a function of the points. */
  function Rescaled(points: map<int, TrackPoint>, order: seq<int>, total: real): (r: map<int, TrackPoint>)
    requires Covers(points, order)
    ensures r.Keys == points.Keys
  {
    var m := MaxDistance(points, order);
    if m > 0.0 then Scale(points, total / m) else points
  }

  /** The loop over `sorted(self.trackPoints)` as a function of the
      points. */
  function TimeCorrected(points: map<int, TrackPoint>, order: seq<int>, treadmill: bool): (r: map<int, TrackPoint>)
    requires Enumerates(points, order)
    ensures r.Keys == points.Keys
  {
    SortedKeys(points, order);
    Overwrite(points, Sorted(order), Corrected(InTimeOrder(points, order), treadmill))
  }

  /** The points in ascending time order. */
  function InTimeOrder(points: map<int, TrackPoint>, order: seq<int>): (ps: seq<TrackPoint>)
    requires Enumerates(points, order)
    ensures |ps| == |order|
    ensures Covers(points, Sorted(order))
    ensures forall i :: 0 <= i < |ps| ==> ps[i] == points[Sorted(order)[i]]
  {
    SortedKeys(points, order);
    PointsAt(points, Sorted(order))
  }

  /** `sorted(self.trackPoints)` names every point once. */
  lemma SortedKeys(points: map<int, TrackPoint>, order: seq<int>)
    requires Enumerates(points, order)
    ensures Covers(points, Sorted(order)) && Distinct(Sorted(order))
    ensures forall t :: t in points ==> t in Sorted(order)
  {
    var keys := Sorted(order);
    StrictlyIncreasingIsDistinct(keys);
    forall i | 0 <= i < |keys|
      ensures keys[i] in points
    {
      assert keys[i] in keys;
    }
  }

  /** The points after the rescaling (treadmill only) and the time-ordered
      correction: the points the statistics loop reads. */
  function Corrections(points: map<int, TrackPoint>, order: seq<int>, treadmill: bool, total: real)
    : (r: map<int, TrackPoint>)
    requires Enumerates(points, order)
    ensures r.Keys == points.Keys
  {
    TimeCorrected(if treadmill then Rescaled(points, order, total) else points, order, treadmill)
  }

  /** The points at the end of the point passes of `PostLoad`: corrected,
      and each with the cadence of its 10-second bucket, computed from the
      steps the points had before. */
  function Finalized(points: map<int, TrackPoint>, order: seq<int>, treadmill: bool, total: real, bucket: int -> int)
    : (r: map<int, TrackPoint>)
    requires Enumerates(points, order)
    ensures r.Keys == points.Keys
  {
    var c := Corrections(points, order, treadmill, total);
    map t | t in c :: c[t].(cadence := CadenceFromSteps(BucketSteps(points, order, bucket, bucket(points[t].time))))
  }

  /** The time-ordered correction changes only distance and speed, and
      outside treadmill activities only distance. */
  lemma TimeCorrectedFields(points: map<int, TrackPoint>, order: seq<int>, treadmill: bool, t: int)
    requires Enumerates(points, order) && t in points
    ensures var c := TimeCorrected(points, order, treadmill)[t];
      c == points[t].(distanceMeters := c.distanceMeters, speed := c.speed)
      && (!treadmill ==> c.speed == points[t].speed)
  {
    var keys := Sorted(order);
    SortedKeys(points, order);
    var j :| 0 <= j < |keys| && keys[j] == t;
    var ps := InTimeOrder(points, order);
    OverwriteAt(points, keys, Corrected(ps, treadmill), t);
    CorrectedKeepsOtherFields(ps, treadmill, j);
  }

  /** Outside treadmill activities, the point `i`-th in time order ends up
      with the last non-zero distance among the points up to it. */
  lemma TimeCorrectedCarriesForward(points: map<int, TrackPoint>, order: seq<int>, treadmill: bool, i: nat)
    requires Enumerates(points, order) && i < |order|
    ensures Sorted(order)[i] in points
    ensures TimeCorrected(points, order, treadmill)[Sorted(order)[i]].distanceMeters
      == LastNonZero(Distances(InTimeOrder(points, order))[..i + 1])
  {
    var keys := Sorted(order);
    SortedKeys(points, order);
    var ps := InTimeOrder(points, order);
    var cs := Corrected(ps, treadmill);
    OverwriteAt(points, keys, cs, keys[i]);
    CorrectedCarriesDistanceForward(ps, treadmill, i);
  }

  /** The point passes change only distance, speed and cadence; each point's
      cadence is three times the step sum of its bucket; outside treadmill
      activities speed is untouched. */
  lemma FinalizedFields(points: map<int, TrackPoint>, order: seq<int>, treadmill: bool, total: real, bucket: int -> int, t: int)
    requires Enumerates(points, order) && t in points
    ensures var f := Finalized(points, order, treadmill, total, bucket)[t];
      && f == points[t].(distanceMeters := f.distanceMeters, speed := f.speed, cadence := f.cadence)
      && f.cadence == 3 * BucketSteps(points, order, bucket, bucket(points[t].time))
      && (!treadmill ==> f.speed == points[t].speed)
  {
    var s := if treadmill then Rescaled(points, order, total) else points;
    TimeCorrectedFields(s, order, treadmill, t);
  }

  /** Two points in the same 10-second bucket get the same cadence. */
  lemma FinalizedBucketsShareCadence(points: map<int, TrackPoint>, order: seq<int>, treadmill: bool, total: real, bucket: int -> int, t: int, u: int)
    requires Enumerates(points, order) && t in points && u in points
    requires bucket(points[t].time) == bucket(points[u].time)
    ensures Finalized(points, order, treadmill, total, bucket)[t].cadence
      == Finalized(points, order, treadmill, total, bucket)[u].cadence
  {
    FinalizedFields(points, order, treadmill, total, bucket, t);
    FinalizedFields(points, order, treadmill, total, bucket, u);
  }

  /** The passes keep every point under its own timestamp. */
  lemma FinalizedIndexed(points: map<int, TrackPoint>, order: seq<int>, treadmill: bool, total: real, bucket: int -> int)
    requires Indexed(points, order)
    ensures Indexed(Finalized(points, order, treadmill, total, bucket), order)
  {
    forall t | t in points
      ensures Finalized(points, order, treadmill, total, bucket)[t].time == t
    {
      FinalizedFields(points, order, treadmill, total, bucket, t);
    }
  }

  /** The correction keeps every point's time, hence its bucket. */
  lemma CorrectionsKeepBuckets(points: map<int, TrackPoint>, order: seq<int>, treadmill: bool, total: real, table: map<int, int>, bucket: int -> int)
    requires Enumerates(points, order)
    requires forall t :: t in points ==> bucket(points[t].time) in table
    ensures var c := Corrections(points, order, treadmill, total);
      forall t :: t in c ==> bucket(c[t].time) == bucket(points[t].time) && bucket(c[t].time) in table
  {
    var s := if treadmill then Rescaled(points, order, total) else points;
    forall t | t in points
      ensures TimeCorrected(s, order, treadmill)[t].time == points[t].time
    {
      TimeCorrectedFields(s, order, treadmill, t);
    }
  }

  /** The statistics loop's cadence assignment, read against the table the
      first loop built, is the cadence `Finalized` specifies. */
  lemma WithCadenceIsFinalized(points: map<int, TrackPoint>, order: seq<int>, treadmill: bool, total: real, table: map<int, int>, bucket: int -> int)
    requires Enumerates(points, order)
    requires forall t :: t in points ==> bucket(points[t].time) in table
    requires forall g :: g in table ==> table[g] == CadenceFromSteps(BucketSteps(points, order, bucket, g))
    ensures var c := Corrections(points, order, treadmill, total);
      (forall t :: t in c ==> bucket(c[t].time) in table)
      && WithCadence(c, table, bucket) == Finalized(points, order, treadmill, total, bucket)
  {
    CorrectionsKeepBuckets(points, order, treadmill, total, table, bucket);
    var c := Corrections(points, order, treadmill, total);
    var w := WithCadence(c, table, bucket);
    var f := Finalized(points, order, treadmill, total, bucket);
    forall t | t in c
      ensures w[t] == f[t]
    {
      var g := bucket(points[t].time);
      assert table[g] == CadenceFromSteps(BucketSteps(points, order, bucket, g));
      assert f[t] == c[t].(cadence := table[g]);
      CadenceFromTable(c, f, points[t], table, bucket, t);
    }
    assert w.Keys == f.Keys;
    SameMaps(w, f);
  }

  /** Two point maps with the same keys and the same point under each key
      are equal. */
  lemma SameMaps(a: map<int, TrackPoint>, b: map<int, TrackPoint>)
    requires a.Keys == b.Keys && forall t :: t in a ==> a[t] == b[t]
    ensures a == b
  {
    assert a.Keys == b.Keys;
    assert forall t :: t in a.Keys ==> a[t] == b[t];
  }

  lemma CadenceFromTable(c: map<int, TrackPoint>, f: map<int, TrackPoint>, p: TrackPoint, table: map<int, int>, bucket: int -> int, t: int)
    requires t in c && t in f && bucket(c[t].time) == bucket(p.time) && bucket(p.time) in table
    requires f[t] == c[t].(cadence := table[bucket(p.time)])
    ensures f[t] == c[t].(cadence := table[bucket(c[t].time)])
  {
  }

  /** The point passes of `PostLoad`, in the order of the source: the
      cadence table, the treadmill rescaling, the time-ordered correction
      and the statistics loop. */
  method FinalizePoints(points: map<int, TrackPoint>, order: seq<int>, treadmill: bool, total: real, bucket: int -> int)
    returns (r: map<int, TrackPoint>, maxSpeed: real, maxHeartRate: int, heartRatePoints: nat, heartRateSum: int)
    requires Enumerates(points, order)
    ensures r == Finalized(points, order, treadmill, total, bucket)
    ensures var c := Corrections(points, order, treadmill, total);
      && maxSpeed == MaxSpeed(c, order) && maxHeartRate == MaxHeartRate(c, order)
      && heartRatePoints == HeartRateCount(c, order) && heartRateSum == HeartRateSum(c, order)
  {
    var table := CadenceTable(points, order, bucket);
    var c := CorrectPoints(points, order, treadmill, total);
    WithCadenceIsFinalized(points, order, treadmill, total, table, bucket);
    r, maxSpeed, maxHeartRate, heartRatePoints, heartRateSum := Summarize(c, order, table, bucket);
  }

  /** The treadmill rescaling followed by the time-ordered correction. */
  method CorrectPoints(points: map<int, TrackPoint>, order: seq<int>, treadmill: bool, total: real)
    returns (c: map<int, TrackPoint>)
    requires Enumerates(points, order)
    ensures c == Corrections(points, order, treadmill, total)
  {
    var s := points;
    if treadmill {
      s := ScaleTreadmillDistances(points, order, total);
    }
    SortedKeys(s, order);
    c := CorrectInTimeOrder(s, Sorted(order), treadmill);
  }
}
