/** Laps: the device reports cumulative totals at each lap mark, and the
    aggregator stores per-lap values derived from them. Each lap's start time
    is resolved at the end from the points recorded while it was open. */
module Laps {
  import opened Track

  /** `Lap`: seconds, distance and calories of this lap alone, and its start
      time (whole seconds since 1970). */
  datatype Lap = Lap(seconds: int, distance: real, calories: int, startTime: int)

  function SumSeconds(laps: seq<Lap>): int
  {
    if laps == [] then 0 else SumSeconds(laps[..|laps| - 1]) + laps[|laps| - 1].seconds
  }

  function SumDistance(laps: seq<Lap>): real
  {
    if laps == [] then 0.0 else SumDistance(laps[..|laps| - 1]) + laps[|laps| - 1].distance
  }

  function SumCalories(laps: seq<Lap>): int
  {
    if laps == [] then 0 else SumCalories(laps[..|laps| - 1]) + laps[|laps| - 1].calories
  }

  /** The lap `LogLap` appends for the cumulative totals `seconds`,
      `distance` and `calories`: what the earlier laps do not already
      account for. Its start time is the wall-clock instant `now`. */
  function NextLap(laps: seq<Lap>, seconds: int, distance: real, calories: int, now: int): (lap: Lap)
    ensures SumSeconds(laps + [lap]) == seconds
    ensures SumDistance(laps + [lap]) == distance
    ensures SumCalories(laps + [lap]) == calories
    ensures lap.startTime == now
  {
    var lap := Lap(seconds - SumSeconds(laps), distance - SumDistance(laps), calories - SumCalories(laps), now);
    assert (laps + [lap])[..|laps|] == laps;
    lap
  }

  /** The laps produced by logging the cumulative marks `marks` one after
      the other, starting from `laps`. */
  function LogMarks(laps: seq<Lap>, marks: seq<(int, real, int)>, now: int): (r: seq<Lap>)
    ensures |r| == |laps| + |marks|
    ensures r[..|laps|] == laps
    ensures marks != [] ==> var last := marks[|marks| - 1];
      SumSeconds(r) == last.0 && SumDistance(r) == last.1 && SumCalories(r) == last.2
  {
    if marks == [] then laps
    else
      var n := |marks| - 1;
      var prefix := LogMarks(laps, marks[..n], now);
      prefix + [NextLap(prefix, marks[n].0, marks[n].1, marks[n].2, now)]
  }

  /** Logging marks from no laps yields the differences of consecutive
      marks: the first lap carries the first mark, every later lap the
      increase since the mark before it. */
  lemma {:induction false} LogMarksAreDifferences(marks: seq<(int, real, int)>, now: int, i: nat)
    requires i < |marks|
    ensures var r := LogMarks([], marks, now);
      && r[i].seconds == marks[i].0 - (if i == 0 then 0 else marks[i - 1].0)
      && r[i].distance == marks[i].1 - (if i == 0 then 0.0 else marks[i - 1].1)
      && r[i].calories == marks[i].2 - (if i == 0 then 0 else marks[i - 1].2)
  {
    var n := |marks| - 1;
    var prefix := LogMarks([], marks[..n], now);
    if i < n {
      LogMarksAreDifferences(marks[..n], now, i);
      assert marks[..n][i] == marks[i];
      if i > 0 {
        assert marks[..n][i - 1] == marks[i - 1];
      }
    } else if i > 0 {
      assert marks[..n][n - 1] == marks[n - 1];
    }
  }

  /** The marks (60 s, 200 m, 10 kcal), (140, 500, 25), (200, 650, 30)
      give the laps (60, 200, 10), (80, 300, 15), (60, 150, 5). */
  lemma LapExample(now: int)
    ensures var r := LogMarks([], [(60, 200.0, 10), (140, 500.0, 25), (200, 650.0, 30)], now);
      && r[0].seconds == 60 && r[0].distance == 200.0 && r[0].calories == 10
      && r[1].seconds == 80 && r[1].distance == 300.0 && r[1].calories == 15
      && r[2].seconds == 60 && r[2].distance == 150.0 && r[2].calories == 5
  {
    var marks := [(60, 200.0, 10), (140, 500.0, 25), (200, 650.0, 30)];
    LogMarksAreDifferences(marks, now, 0);
    LogMarksAreDifferences(marks, now, 1);
    LogMarksAreDifferences(marks, now, 2);
  }

  // ---------------------------------------------------------------------
  // Start times

  /** Every point visited has a lap to belong to. */
  predicate LapsInRange(points: map<int, TrackPoint>, keys: seq<int>, lapCount: nat)
  {
    forall i :: 0 <= i < |keys| ==> keys[i] in points && points[keys[i]].lapIndex < lapCount
  }

  /** The laps after visiting `keys`: each point pulls the start time of its
      lap back to its own time when that is earlier. */
  function ResolvedStarts(laps: seq<Lap>, points: map<int, TrackPoint>, keys: seq<int>): (r: seq<Lap>)
    requires LapsInRange(points, keys, |laps|)
    ensures |r| == |laps|
  {
    if keys == [] then laps
    else
      var n := |keys| - 1;
      var r := ResolvedStarts(laps, points, keys[..n]);
      var p := points[keys[n]];
      var lap := r[p.lapIndex];
      if lap.startTime > p.time then r[p.lapIndex := lap.(startTime := p.time)] else r
  }

  /** The start-time loop at the end of `PostLoad`. */
  method ResolveLapStarts(laps: seq<Lap>, points: map<int, TrackPoint>, order: seq<int>)
    returns (r: seq<Lap>)
    requires LapsInRange(points, order, |laps|)
    ensures r == ResolvedStarts(laps, points, order)
  {
    r := laps;
    for i := 0 to |order|
      invariant LapsInRange(points, order[..i], |laps|)
      invariant r == ResolvedStarts(laps, points, order[..i])
    {
      assert order[..i + 1][..i] == order[..i];
      var point := points[order[i]];
      var lap := r[point.lapIndex];
      if lap.startTime > point.time {
        r := r[point.lapIndex := lap.(startTime := point.time)];
      }
    }
    assert order[..|order|] == order;
  }

  /** After the resolution every lap starts no later than any point tagged
      with it; its start is its old start or the time of such a point; and
      only start times change. */
  lemma {:induction false} ResolvedStartsBound(laps: seq<Lap>, points: map<int, TrackPoint>, keys: seq<int>)
    requires LapsInRange(points, keys, |laps|)
    ensures var r := ResolvedStarts(laps, points, keys);
      && (forall i :: 0 <= i < |keys| ==> r[points[keys[i]].lapIndex].startTime <= points[keys[i]].time)
      && (forall j :: 0 <= j < |laps| ==> r[j] == laps[j].(startTime := r[j].startTime))
      && (forall j :: 0 <= j < |laps| ==> r[j].startTime <= laps[j].startTime)
      && (forall j :: 0 <= j < |laps| ==>
            (r[j].startTime == laps[j].startTime
             || exists i :: 0 <= i < |keys| && points[keys[i]].lapIndex == j && points[keys[i]].time == r[j].startTime))
  {
    if keys != [] {
      var n := |keys| - 1;
      var prefix := keys[..n];
      assert forall i :: 0 <= i < n ==> prefix[i] == keys[i];
      ResolvedStartsBound(laps, points, prefix);
      var r := ResolvedStarts(laps, points, keys);
      var q := ResolvedStarts(laps, points, prefix);
      forall j | 0 <= j < |laps| && r[j].startTime != laps[j].startTime
        ensures exists i :: 0 <= i < |keys| && points[keys[i]].lapIndex == j && points[keys[i]].time == r[j].startTime
      {
        if r[j] == q[j] {
          var i :| 0 <= i < n && points[prefix[i]].lapIndex == j && points[prefix[i]].time == q[j].startTime;
          assert points[keys[i]].lapIndex == j;
        } else {
          assert points[keys[n]].lapIndex == j;
        }
      }
    }
  }

  /** Laps that differ only in their start times have the same totals. */
  lemma {:induction false} TotalsIgnoreStarts(a: seq<Lap>, b: seq<Lap>)
    requires |a| == |b| && forall j :: 0 <= j < |a| ==> a[j] == b[j].(startTime := a[j].startTime)
    ensures SumSeconds(a) == SumSeconds(b) && SumDistance(a) == SumDistance(b) && SumCalories(a) == SumCalories(b)
  {
    if a != [] {
      var n := |a| - 1;
      assert forall j :: 0 <= j < n ==> a[..n][j] == a[j] && b[..n][j] == b[j];
      TotalsIgnoreStarts(a[..n], b[..n]);
    }
  }
}
