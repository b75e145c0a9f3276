/** The values both aggregators share: the device's sport codes and one
    time-stamped sample of the activity. */
module Track {
  import opened Util

  /** `ActivityType`: the closed set of sport codes the device reports. */
  datatype ActivityType =
    | Running | Cycling | Swimming | Treadmill | Freestyle | Gym
    | Hiking | IndoorCycling | TrailRunning | Skiing | Snowboarding

  function Code(t: ActivityType): int
  {
    match t
    case Running => 0x00
    case Cycling => 0x01
    case Swimming => 0x02
    case Treadmill => 0x07
    case Freestyle => 0x08
    case Gym => 0x09
    case Hiking => 0x0A
    case IndoorCycling => 0x0B
    case TrailRunning => 0x0E
    case Skiing => 0x0F
    case Snowboarding => 0x10
  }

  const KnownCodes: set<int> := {0x00, 0x01, 0x02, 0x07, 0x08, 0x09, 0x0A, 0x0B, 0x0E, 0x0F, 0x10}

  /** `ActivityType(code)`: Python raises `ValueError` for a code outside
      the enumeration; here that is `None`. */
  function FromCode(code: int): (r: Option<ActivityType>)
    ensures r.Some? <==> code in KnownCodes
    ensures r.Some? ==> Code(r.value) == code
  {
    if code == 0x00 then Some(Running)
    else if code == 0x01 then Some(Cycling)
    else if code == 0x02 then Some(Swimming)
    else if code == 0x07 then Some(Treadmill)
    else if code == 0x08 then Some(Freestyle)
    else if code == 0x09 then Some(Gym)
    else if code == 0x0A then Some(Hiking)
    else if code == 0x0B then Some(IndoorCycling)
    else if code == 0x0E then Some(TrailRunning)
    else if code == 0x0F then Some(Skiing)
    else if code == 0x10 then Some(Snowboarding)
    else None
  }

  /** Every sport is recognised from its own code. */
  lemma FromCodeOfCode(t: ActivityType)
    ensures FromCode(Code(t)) == Some(t)
  {
  }

  /** One sample. `time` is in whole seconds since 1970 (UTC); distance,
      speed and coordinates are reals standing for Python floats; `lapIndex`
      is the lap that was open when the point was created. */
  datatype TrackPoint = TrackPoint(
    time: int,
    heartRate: int,
    distanceMeters: real,
    speed: real,
    latitudeDegrees: real,
    longitudeDegrees: real,
    altitudeMeters: int,
    steps: int,
    cadence: int,
    lapIndex: nat)

  /** `TrackPoint(time, lapIndex)`: every measured field starts at zero. */
  function NewPoint(time: int, lapIndex: nat): (p: TrackPoint)
    ensures p.time == time && p.lapIndex == lapIndex
    ensures p.heartRate == 0 && p.distanceMeters == 0.0 && p.speed == 0.0 && p.steps == 0
  {
    TrackPoint(time, 0, 0.0, 0.0, 0.0, 0.0, 0, 0, 0, lapIndex)
  }

  /** `order` lists the keys of `points` in the order Python iterates the
      dictionary (insertion order): every key, once. */
  predicate Enumerates(points: map<int, TrackPoint>, order: seq<int>)
  {
    && Distinct(order)
    && (forall i :: 0 <= i < |order| ==> order[i] in points)
    && (forall t :: t in points ==> t in order)
  }

  /** The point dictionary as a map plus its keys in insertion order, every
      point stored under its own timestamp. */
  predicate Indexed(points: map<int, TrackPoint>, order: seq<int>)
  {
    && Enumerates(points, order)
    && (forall t :: t in points ==> points[t].time == t)
  }

  /** Adding a new timestamp at the end of the insertion order keeps the
      index consistent. */
  lemma {:induction false} IndexedInsert(points: map<int, TrackPoint>, order: seq<int>, p: TrackPoint)
    requires Indexed(points, order) && p.time !in points
    ensures Indexed(points[p.time := p], order + [p.time])
  {
    var order' := order + [p.time];
    forall i, j | 0 <= i < j < |order'|
      ensures order'[i] != order'[j]
    {
      if j == |order| {
        assert order'[i] == order[i] && order[i] in points;
      }
    }
  }

  /** Changing the fields of an existing point, but not its time, keeps the
      index consistent. */
  lemma IndexedUpdate(points: map<int, TrackPoint>, order: seq<int>, p: TrackPoint)
    requires Indexed(points, order) && p.time in points
    ensures Indexed(points[p.time := p], order)
  {
  }
}
