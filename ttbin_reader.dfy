/** The `.ttbin` reader. A file is a stream of records, each a one-byte tag
    followed by a little-endian body whose layout the tag fixes. The reader
    hands each tag to the handler for it, and each handler reads its body
    and forwards the decoded fields to the `Activity`. The stream is
    fail-stop: it ends at the end of the file, at the first tag without a
    handler and at the first body cut short, and `PostLoad` runs
    afterwards in every one of these cases. A summary record whose sport
    code is unknown raises instead, and nothing is returned.

    Each handler is specified by a function from the activity's fields,
    the reader's `localTimeOffset` and the file's bytes and cursor to the
    new fields, offset and cursor (`Extraction`); the read loop is
    specified by the recursive `Records`. An IEEE-754 `f` field is passed
    on through `floatValue`, which maps the field's raw 32-bit pattern to
    the number Python reads from it. */
module TtbinReader {
  import opened Util
  import opened LittleEndian
  import Track
  import opened ActivityModel

  // ---------------------------------------------------------------------
  // Tags

  /** `TtbinFileRecordTag`: the tags the reader has a handler for. */
  datatype RecordTag =
    | FileHeader | Status | Gps | ExtendedGps | HeartRate | Summary | TrainingSetup
    | LapTag | WaitGps | TreadmillTag | X37 | HeartRateRecovery | GymTag | Movement
    | RouteDescription1 | RouteDescription2 | Elevation | X48 | Battery | FitnessPoints | X4b

  function TagValue(t: RecordTag): byte
  {
    match t
    case FileHeader => 0x20
    case Status => 0x21
    case Gps => 0x22
    case ExtendedGps => 0x23
    case HeartRate => 0x25
    case Summary => 0x27
    case TrainingSetup => 0x2d
    case LapTag => 0x2f
    case WaitGps => 0x30
    case TreadmillTag => 0x32
    case X37 => 0x37
    case HeartRateRecovery => 0x3f
    case GymTag => 0x41
    case Movement => 0x42
    case RouteDescription1 => 0x43
    case RouteDescription2 => 0x44
    case Elevation => 0x47
    case X48 => 0x48
    case Battery => 0x49
    case FitnessPoints => 0x4a
    case X4b => 0x4b
  }

  /** The tag a byte names, if it names one. */
  function TagOf(b: byte): (r: Option<RecordTag>)
    ensures r.Some? ==> TagValue(r.value) == b
    ensures r.None? ==> forall t :: TagValue(t) != b
  {
    if b == 0x20 then Some(FileHeader)
    else if b == 0x21 then Some(Status)
    else if b == 0x22 then Some(Gps)
    else if b == 0x23 then Some(ExtendedGps)
    else if b == 0x25 then Some(HeartRate)
    else if b == 0x27 then Some(Summary)
    else if b == 0x2d then Some(TrainingSetup)
    else if b == 0x2f then Some(LapTag)
    else if b == 0x30 then Some(WaitGps)
    else if b == 0x32 then Some(TreadmillTag)
    else if b == 0x37 then Some(X37)
    else if b == 0x3f then Some(HeartRateRecovery)
    else if b == 0x41 then Some(GymTag)
    else if b == 0x42 then Some(Movement)
    else if b == 0x43 then Some(RouteDescription1)
    else if b == 0x44 then Some(RouteDescription2)
    else if b == 0x47 then Some(Elevation)
    else if b == 0x48 then Some(X48)
    else if b == 0x49 then Some(Battery)
    else if b == 0x4a then Some(FitnessPoints)
    else if b == 0x4b then Some(X4b)
    else None
  }

  /** Every tag value names its own tag, so no two tags share a value. */
  lemma TagOfValue(t: RecordTag)
    ensures TagOf(TagValue(t)) == Some(t)
  {
  }

  // ---------------------------------------------------------------------
  // Record sizes: the `struct` format of each body, or the byte count a
  // handler skips

  const HeaderSize: nat := 120            // "<s7shl16s80sllss"
  const StatusSize: nat := 6              // "<ssl"
  const GpsSize: nat := 27                // "<llhhlhffs"
  const ExtendedGpsSize: nat := 23
  const HeartRateSize: nat := 6           // "<ssl"
  const SummarySize: nat := 17            // "<sflhhl"
  const TrainingSetupSize: nat := 9       // "<sff"
  const LapSize: nat := 10                // "<lfh"
  const WaitGpsSize: nat := 2             // "<h"
  const TreadmillSize: nat := 16          // "<lfhlh"
  const X37Size: nat := 1
  const HeartRateRecoverySize: nat := 8   // "<ll"
  const GymSize: nat := 10                // "<lhl"
  const MovementSize: nat := 1            // "<s"
  const RouteDescription1Size: nat := 14
  const RouteDescription2Size: nat := 100
  const ElevationSize: nat := 11          // "<shhhhh"
  const X48Size: nat := 14
  const BatterySize: nat := 4             // "<s3s"
  const FitnessPointsSize: nat := 8       // "<lhh"
  const X4bSize: nat := 2                 // "<h", then that many bytes

  /** The first read each handler makes. */
  function LeadSize(t: RecordTag): nat
  {
    match t
    case FileHeader => HeaderSize
    case Status => StatusSize
    case Gps => GpsSize
    case ExtendedGps => ExtendedGpsSize
    case HeartRate => HeartRateSize
    case Summary => SummarySize
    case TrainingSetup => TrainingSetupSize
    case LapTag => LapSize
    case WaitGps => WaitGpsSize
    case TreadmillTag => TreadmillSize
    case X37 => X37Size
    case HeartRateRecovery => HeartRateRecoverySize
    case GymTag => GymSize
    case Movement => MovementSize
    case RouteDescription1 => RouteDescription1Size
    case RouteDescription2 => RouteDescription2Size
    case Elevation => ElevationSize
    case X48 => X48Size
    case Battery => BatterySize
    case FitnessPoints => FitnessPointsSize
    case X4b => X4bSize
  }

  // ---------------------------------------------------------------------
  // The file

  /** `file.read(n)` at the cursor `position`: `n` bytes when that many
      remain, otherwise, and for a negative `n`, the rest of the file. */
  function Chunk(data: seq<byte>, position: nat, n: int): (r: seq<byte>)
    requires position <= |data|
    ensures position + |r| <= |data| && r == data[position..position + |r|]
    ensures |r| == n <==> 0 <= n && position + n <= |data|
    ensures |r| != n ==> position + |r| == |data|
  {
    if n < 0 || position + n > |data| then data[position..] else data[position..position + n]
  }

  /** An open binary file: its bytes and the cursor. */
  class BinaryFile {
    const data: seq<byte>
    var position: nat

    predicate Valid()
      reads this
    {
      position <= |data|
    }

    /** `open(name, "rb")`, `data` being the file's contents. */
    constructor(data: seq<byte>)
      ensures this.data == data && position == 0 && Valid()
    {
      this.data := data;
      position := 0;
    }

    /** `read(n)`: the bytes returned are the ones the cursor moves past. */
    method Read(n: int) returns (chunk: seq<byte>)
      requires Valid()
      modifies this
      ensures Valid()
      ensures chunk == Chunk(data, old(position), n) && position == old(position) + |chunk|
    {
      if n < 0 || position + n > |data| {
        chunk := data[position..];
      } else {
        chunk := data[position..position + n];
      }
      position := position + |chunk|;
    }
  }

  // ---------------------------------------------------------------------
  // One record

  /** `ParseDate(seconds, includeOffset)`, the instant as seconds since
      1970, `offset` being the reader's `localTimeOffset`: the watch writes
      some times as local time and others as UTC. */
  function ParseDate(seconds: int, includeOffset: bool, offset: int): int
  {
    if includeOffset then seconds - offset else seconds
  }

  /** A local timestamp and the UTC timestamp of the same instant give the
      same time, and with the initial offset 0 a local timestamp is taken
      as it is. */
  lemma ParseDateAgrees(utc: int, offset: int)
    ensures ParseDate(utc + offset, true, offset) == ParseDate(utc, false, offset) == utc
    ensures ParseDate(utc, true, 0) == utc
  {
  }

  /** What a record asks of the activity: the `Activity` method a handler
      calls with the decoded fields, or the fields it assigns. */
  datatype Call =
    | NoCall
    | SetStartTime(time: int)
    | SetSummary(activityType: Track.ActivityType, activeSeconds: int, elapsedSeconds: int, distance: real,
                 calories: int)
    | LogBatteryLevel(level: int)
    | LogSteps(time: int, totalSteps: int, distance: real)
    | LogHeartRate(time: int, heartRate: int)
    | LogGps(time: int, latitude: real, longitude: real, speed: real, steps: int, distance: real)
    | LogElevation(altitude: int, ascend: int, descend: int)
    | LogLap(seconds: int, distance: real, calories: int, now: int)

  /** The activity's fields after the call. */
  function Perform(s: ActivityState, call: Call): (r: ActivityState)
    requires Consistent(s)
    ensures Consistent(r)
  {
    match call
    case NoCall => s
    case SetStartTime(time) => s.(startTime := time)
    case SetSummary(activityType, activeSeconds, elapsedSeconds, distance, calories) =>
      s.(activityType := activityType, totalActiveSeconds := activeSeconds, totalElapsedSeconds := elapsedSeconds,
         totalDistanceMeters := distance, totalCalories := calories)
    case LogBatteryLevel(level) => BatteryLogged(s, level)
    case LogSteps(time, totalSteps, distance) => StepsLogged(s, time, totalSteps, distance)
    case LogHeartRate(time, heartRate) => HeartRateLogged(s, time, heartRate)
    case LogGps(time, latitude, longitude, speed, steps, distance) =>
      GpsLogged(s, time, latitude, longitude, speed, steps, distance)
    case LogElevation(altitude, ascend, descend) => ElevationLogged(s, altitude, ascend, descend)
    case LogLap(seconds, distance, calories, now) => LapLogged(s, seconds, distance, calories, now)
  }

  /** A handler's result: `Handled` for `True`, `Refused` for `False`,
      `Raised` where Python raises. */
  datatype Outcome = Handled | Refused | Raised

  /** What one handler does: the call it makes, the reader's offset and
      the cursor afterwards, and its result. */
  datatype Extraction = Extraction(call: Call, offset: int, position: nat, outcome: Outcome)

  /** `ReadSomething(file, n)`, or a record whose fields the reader does
      not use: it reads `n` bytes and succeeds when all of them were
      there. */
  function Skipped(offset: int, data: seq<byte>, position: nat, n: int): Extraction
    requires position <= |data|
  {
    var chunk := Chunk(data, position, n);
    Unused(offset, chunk, position + |chunk|, n)
  }

  /** A record of `n` bytes whose fields are not used, `body` being what
      the read returned and `next` the cursor after it. */
  function Unused(offset: int, body: seq<byte>, next: nat, n: int): Extraction
  {
    Extraction(NoCall, offset, next, if |body| == n then Handled else Refused)
  }

  /** `ReadHeaderx20`: after the 120 header bytes it skips `3 * arrayLen`
      bytes without looking at how many it got, stores the header's offset
      and then takes the start time with that new offset. */
  function HeaderRecord(offset: int, data: seq<byte>, position: nat): Extraction
    requires position <= |data|
  {
    var body := Chunk(data, position, HeaderSize);
    var next := position + |body|;
    if |body| != HeaderSize then Extraction(NoCall, offset, next, Refused)
    else
      var localTimeOffset := I32(body, 114);
      var trailing := Chunk(data, next, U8(body, 119) * 3);
      Extraction(SetStartTime(ParseDate(I32(body, 10), true, localTimeOffset)), localTimeOffset, next + |trailing|,
                 Handled)
  }

  /** `ReadBatteryLevelx49`. */
  function BatteryRecord(offset: int, body: seq<byte>, next: nat): Extraction
  {
    if |body| != BatterySize then Extraction(NoCall, offset, next, Refused)
    else Extraction(LogBatteryLevel(U8(body, 0)), offset, next, Handled)
  }

  /** `Readx4b`: a signed 16-bit length, then `ReadSomething` with it. */
  function X4bRecord(offset: int, data: seq<byte>, position: nat): Extraction
    requires position <= |data|
  {
    var body := Chunk(data, position, X4bSize);
    var next := position + |body|;
    if |body| != X4bSize then Extraction(NoCall, offset, next, Refused)
    else Skipped(offset, data, next, I16(body, 0))
  }

  /** `ReadGymx41`: the step total, with distance 0, at a local time. */
  function GymRecord(offset: int, body: seq<byte>, next: nat): Extraction
  {
    if |body| != GymSize then Extraction(NoCall, offset, next, Refused)
    else Extraction(LogSteps(ParseDate(I32(body, 0), true, offset), I32(body, 6), 0.0), offset, next, Handled)
  }

  /** `ReadHeartRatex25`: the heart rate at a local time. */
  function HeartRateRecord(offset: int, body: seq<byte>, next: nat): Extraction
  {
    if |body| != HeartRateSize then Extraction(NoCall, offset, next, Refused)
    else Extraction(LogHeartRate(ParseDate(I32(body, 2), true, offset), U8(body, 0)), offset, next, Handled)
  }

  /** `ReadSummaryx27`: the sport and the activity totals; an unknown sport
      code raises before any field is set. */
  function SummaryRecord(offset: int, body: seq<byte>, next: nat, floatValue: nat -> real): Extraction
  {
    if |body| != SummarySize then Extraction(NoCall, offset, next, Refused)
    else
      var activityType := Track.FromCode(U8(body, 0));
      if activityType.None? then Extraction(NoCall, offset, next, Raised)
      else
        var call := SetSummary(activityType.value, I32(body, 5), I32(body, 13), floatValue(U32(body, 1)), I16(body, 9));
        Extraction(call, offset, next, Handled)
  }

  /** `ReadTreadmillx32`: the step total and distance at a local time. */
  function TreadmillRecord(offset: int, body: seq<byte>, next: nat, floatValue: nat -> real): Extraction
  {
    if |body| != TreadmillSize then Extraction(NoCall, offset, next, Refused)
    else
      var call := LogSteps(ParseDate(I32(body, 0), true, offset), I32(body, 10), floatValue(U32(body, 4)));
      Extraction(call, offset, next, Handled)
  }

  /** `ReadGpsx22`: a fix at a UTC time; the coordinates are stored in
      units of 1e-7 degree. */
  function GpsRecord(offset: int, body: seq<byte>, next: nat, floatValue: nat -> real): Extraction
  {
    if |body| != GpsSize then Extraction(NoCall, offset, next, Refused)
    else
      var call := LogGps(ParseDate(I32(body, 12), false, offset), I32(body, 0) as real / 10000000.0,
                         I32(body, 4) as real / 10000000.0, floatValue(U32(body, 18)), U8(body, 26),
                         floatValue(U32(body, 22)));
      Extraction(call, offset, next, Handled)
  }

  /** `ReadElevationx47`: an altitude equal to the record's last field
      means no reading, and the activity is left alone. */
  function ElevationRecord(offset: int, body: seq<byte>, next: nat): Extraction
  {
    if |body| != ElevationSize then Extraction(NoCall, offset, next, Refused)
    else
      var call := if I16(body, 1) != I16(body, 9) then LogElevation(I16(body, 1), I16(body, 5), I16(body, 7)) else NoCall;
      Extraction(call, offset, next, Handled)
  }

  /** `ReadLapx2f`: the running totals at the end of a lap; `now` is the
      wall-clock instant the lap is created at. */
  function LapRecord(offset: int, body: seq<byte>, next: nat, now: int, floatValue: nat -> real): Extraction
  {
    if |body| != LapSize then Extraction(NoCall, offset, next, Refused)
    else Extraction(LogLap(I32(body, 0), floatValue(U32(body, 4)), I16(body, 8), now), offset, next, Handled)
  }

  /** `ExtractRecord(activity, tag, file)` with the cursor at `position`,
      just after the tag. A refused or raising record makes no call and
      leaves the offset, and a tag without a handler is refused before
      anything is read. */
  function Extracted(offset: int, data: seq<byte>, position: nat, tag: byte, now: int, floatValue: nat -> real)
    : (e: Extraction)
    requires position <= |data|
    ensures position <= e.position <= |data|
    ensures e.outcome != Handled ==> e.call == NoCall && e.offset == offset
    ensures TagOf(tag).None? ==> e == Extraction(NoCall, offset, position, Refused)
  {
    match TagOf(tag)
    case None => Extraction(NoCall, offset, position, Refused)
    case Some(t) =>
      if t.FileHeader? then HeaderRecord(offset, data, position)
      else if t.X4b? then X4bRecord(offset, data, position)
      else
        var body := Chunk(data, position, LeadSize(t));
        Decoded(offset, t, body, position + |body|, now, floatValue)
  }

  /** The handler of a record of fixed size, given what the read of its
      `LeadSize(t)` bytes returned and the cursor after it: it fails
      exactly when the read came back short, and keeps the offset. */
  function Decoded(offset: int, t: RecordTag, body: seq<byte>, next: nat, now: int, floatValue: nat -> real)
    : (e: Extraction)
    requires !t.FileHeader? && !t.X4b?
    ensures e.position == next && e.offset == offset
    ensures e.outcome != Handled ==> e.call == NoCall
  {
    match t
    case Status => Unused(offset, body, next, StatusSize)
    case Gps => GpsRecord(offset, body, next, floatValue)
    case ExtendedGps => Unused(offset, body, next, ExtendedGpsSize)
    case HeartRate => HeartRateRecord(offset, body, next)
    case Summary => SummaryRecord(offset, body, next, floatValue)
    case TrainingSetup => Unused(offset, body, next, TrainingSetupSize)
    case LapTag => LapRecord(offset, body, next, now, floatValue)
    case WaitGps => Unused(offset, body, next, WaitGpsSize)
    case TreadmillTag => TreadmillRecord(offset, body, next, floatValue)
    case X37 => Unused(offset, body, next, X37Size)
    case HeartRateRecovery => Unused(offset, body, next, HeartRateRecoverySize)
    case GymTag => GymRecord(offset, body, next)
    case Movement => Unused(offset, body, next, MovementSize)
    case RouteDescription1 => Unused(offset, body, next, RouteDescription1Size)
    case RouteDescription2 => Unused(offset, body, next, RouteDescription2Size)
    case Elevation => ElevationRecord(offset, body, next)
    case X48 => Unused(offset, body, next, X48Size)
    case Battery => BatteryRecord(offset, body, next)
    case FitnessPoints => Unused(offset, body, next, FitnessPointsSize)
  }

  // ---------------------------------------------------------------------
  // Properties of one record

  function Min(a: int, b: int): int
  {
    if a <= b then a else b
  }

  /** Every handler other than the header's and `0x4b`'s reads a body of
      one size: it succeeds exactly when that many bytes remain and then
      moves the cursor past them; otherwise the cursor ends at the end of
      the file. Either way the offset is kept. */
  lemma FixedRecordAdvances(offset: int, data: seq<byte>, position: nat, tag: byte, now: int, floatValue: nat -> real)
    requires position <= |data|
    requires TagOf(tag).Some? && TagOf(tag).value != FileHeader && TagOf(tag).value != X4b
    ensures var e := Extracted(offset, data, position, tag, now, floatValue);
      var n := LeadSize(TagOf(tag).value);
      && (e.outcome == Refused <==> position + n > |data|)
      && e.position == Min(position + n, |data|)
      && e.offset == offset
  {
  }

  /** The header needs its 120 bytes, however short the trailing array
      is; its offset is stored and the start time is read with it. */
  lemma HeaderRecordRead(offset: int, data: seq<byte>, position: nat)
    requires position <= |data|
    ensures var e := HeaderRecord(offset, data, position);
      && (e.outcome == Handled <==> position + HeaderSize <= |data|)
      && (e.outcome == Handled ==>
            var body := data[position..position + HeaderSize];
            var localTimeOffset := I32(body, 114);
            && e.offset == localTimeOffset
            && e.call == SetStartTime(I32(body, 10) - localTimeOffset)
            && e.position == Min(position + HeaderSize + 3 * U8(body, 119), |data|))
  {
  }

  /** `0x4b` succeeds only when its two length bytes and then exactly that
      many bytes are there; a negative length reads to the end and fails. */
  lemma X4bRecordRead(offset: int, data: seq<byte>, position: nat)
    requires position <= |data|
    ensures var e := X4bRecord(offset, data, position);
      && (e.outcome == Handled <==>
            position + X4bSize <= |data| && 0 <= I16(data, position) && position + X4bSize + I16(data, position) <= |data|)
      && (e.outcome == Handled ==> e.position == position + X4bSize + I16(data, position) && e.call == NoCall)
  {
    if position + X4bSize <= |data| {
      I16At(data, position);
    }
  }

  /** A summary raises exactly for a sport code outside the enumeration;
      otherwise it sets the sport and the four totals. */
  lemma SummaryRecordRead(offset: int, data: seq<byte>, position: nat, now: int, floatValue: nat -> real)
    requires position + SummarySize <= |data|
    ensures var e := Extracted(offset, data, position, TagValue(Summary), now, floatValue);
      var body := data[position..position + SummarySize];
      && e.position == position + SummarySize
      && (e.outcome == Raised <==> U8(body, 0) !in Track.KnownCodes)
      && (e.outcome == Handled ==>
            && Track.Code(e.call.activityType) == U8(body, 0)
            && e.call == SetSummary(e.call.activityType, I32(body, 5), I32(body, 13), floatValue(U32(body, 1)),
                                    I16(body, 9)))
  {
    TagOfValue(Summary);
  }

  /** An elevation record asks for a change only when its altitude differs
      from its last field. */
  lemma ElevationRecordRead(offset: int, data: seq<byte>, position: nat, now: int, floatValue: nat -> real)
    requires position + ElevationSize <= |data|
    ensures var e := Extracted(offset, data, position, TagValue(Elevation), now, floatValue);
      var body := data[position..position + ElevationSize];
      && e.outcome == Handled
      && (I16(body, 1) == I16(body, 9) ==> e.call == NoCall)
      && (I16(body, 1) != I16(body, 9) ==> e.call == LogElevation(I16(body, 1), I16(body, 5), I16(body, 7)))
  {
    TagOfValue(Elevation);
  }

  /** Heart-rate times are local and shifted by the offset. */
  lemma HeartRateRecordRead(offset: int, data: seq<byte>, position: nat, now: int, floatValue: nat -> real)
    requires position + HeartRateSize <= |data|
    ensures Extracted(offset, data, position, TagValue(HeartRate), now, floatValue).call
         == LogHeartRate(I32(data, position + 2) - offset, data[position] as int)
  {
    TagOfValue(HeartRate);
    I32In(data[position..position + HeartRateSize], data, position, 2);
  }

  /** Gym times are local and shifted by the offset, and a gym record logs
      its steps with distance 0. */
  lemma GymRecordRead(offset: int, data: seq<byte>, position: nat, now: int, floatValue: nat -> real)
    requires position + GymSize <= |data|
    ensures Extracted(offset, data, position, TagValue(GymTag), now, floatValue).call
         == LogSteps(I32(data, position) - offset, I32(data, position + 6), 0.0)
  {
    TagOfValue(GymTag);
    I32In(data[position..position + GymSize], data, position, 0);
    I32In(data[position..position + GymSize], data, position, 6);
  }

  /** Treadmill times are local and shifted by the offset; GPS times are
      UTC and taken as they are. */
  lemma TreadmillAndGpsTimes(offset: int, data: seq<byte>, position: nat, now: int, floatValue: nat -> real)
    requires position + GpsSize <= |data|
    ensures Extracted(offset, data, position, TagValue(TreadmillTag), now, floatValue).call.time
         == I32(data, position) - offset
    ensures Extracted(offset, data, position, TagValue(Gps), now, floatValue).call.time == I32(data, position + 12)
  {
    TagOfValue(TreadmillTag);
    TagOfValue(Gps);
    I32In(data[position..position + TreadmillSize], data, position, 0);
    I32In(data[position..position + GpsSize], data, position, 12);
  }

  /** Reading `n` bytes that are all there does not depend on what comes
      after them. */
  lemma ChunkExtends(data: seq<byte>, more: seq<byte>, position: nat, n: int)
    requires 0 <= n && position + n <= |data|
    ensures Chunk(data + more, position, n) == Chunk(data, position, n)
  {
    assert (data + more)[position..position + n] == data[position..position + n];
  }

  /** A record that ends before the end of the file was read in full, so
      bytes appended to the file do not change it. */
  lemma ExtractedLocal(offset: int, data: seq<byte>, more: seq<byte>, position: nat, tag: byte, now: int,
                       floatValue: nat -> real)
    requires position <= |data|
    requires Extracted(offset, data, position, tag, now, floatValue).position < |data|
    ensures Extracted(offset, data + more, position, tag, now, floatValue)
         == Extracted(offset, data, position, tag, now, floatValue)
  {
    if TagOf(tag).Some? {
      var t := TagOf(tag).value;
      if t == FileHeader {
        HeaderLocal(offset, data, more, position);
      } else if t == X4b {
        X4bLocal(offset, data, more, position);
      } else {
        FixedLocal(offset, data, more, position, tag, now, floatValue);
      }
    }
  }

  lemma FixedLocal(offset: int, data: seq<byte>, more: seq<byte>, position: nat, tag: byte, now: int,
                   floatValue: nat -> real)
    requires position <= |data|
    requires TagOf(tag).Some? && TagOf(tag).value != FileHeader && TagOf(tag).value != X4b
    requires Extracted(offset, data, position, tag, now, floatValue).position < |data|
    ensures Extracted(offset, data + more, position, tag, now, floatValue)
         == Extracted(offset, data, position, tag, now, floatValue)
  {
    FixedRecordAdvances(offset, data, position, tag, now, floatValue);
    ChunkExtends(data, more, position, LeadSize(TagOf(tag).value));
  }

  lemma HeaderLocal(offset: int, data: seq<byte>, more: seq<byte>, position: nat)
    requires position <= |data| && HeaderRecord(offset, data, position).position < |data|
    ensures HeaderRecord(offset, data + more, position) == HeaderRecord(offset, data, position)
  {
    var n := HeaderSize;
    ChunkExtends(data, more, position, n);
    var m := U8(data[position..position + n], 119) * 3;
    ChunkExtends(data, more, position + n, m);
  }

  lemma X4bLocal(offset: int, data: seq<byte>, more: seq<byte>, position: nat)
    requires position <= |data| && X4bRecord(offset, data, position).position < |data|
    ensures X4bRecord(offset, data + more, position) == X4bRecord(offset, data, position)
  {
    var n := X4bSize;
    ChunkExtends(data, more, position, n);
    var m := I16(data[position..position + n], 0);
    ChunkExtends(data, more, position + n, m);
  }

  // ---------------------------------------------------------------------
  // The read loop

  /** The end of the read loop: the activity's fields, the reader's
      offset, the position of the tag the loop stopped at (the length of
      the file at its end) and whether a record raised. */
  datatype Loaded = Loaded(state: ActivityState, offset: int, end: nat, raised: bool)

  /** The `while True` loop of `LoadActivity` from `position`: a tag is
      read and its record extracted until the file ends or a record is
      refused or raises. */
  function Records(s: ActivityState, offset: int, data: seq<byte>, position: nat, now: int,
                   floatValue: nat -> real): (r: Loaded)
    requires Consistent(s) && position <= |data|
    ensures Consistent(r.state)
    ensures position <= r.end <= |data|
    ensures r.end == |data| ==> !r.raised
    decreases |data| - position
  {
    if position == |data| then Loaded(s, offset, position, false)
    else
      var e := Extracted(offset, data, position + 1, data[position], now, floatValue);
      if e.outcome == Handled then Records(Perform(s, e.call), e.offset, data, e.position, now, floatValue)
      else Loaded(s, offset, position, e.outcome == Raised)
  }

  /** One turn of the read loop: a handled record hands on to the loop at
      the cursor after it, any other result ends it there. */
  lemma RecordsStep(s: ActivityState, offset: int, data: seq<byte>, position: nat, now: int, floatValue: nat -> real)
    requires Consistent(s) && position < |data|
    ensures var e := Extracted(offset, data, position + 1, data[position], now, floatValue);
      && (e.outcome == Handled ==>
            Records(Perform(s, e.call), e.offset, data, e.position, now, floatValue)
            == Records(s, offset, data, position, now, floatValue))
      && (e.outcome != Handled ==>
            Records(s, offset, data, position, now, floatValue) == Loaded(s, offset, position, e.outcome == Raised))
  {
  }

  /** `LoadActivity`, `offset` being the reader's offset when it is called,
      `today` the instant the activity is created at and `now` the instant
      of the laps the activity creates. Building the zones can raise, and
      so can a record; otherwise `PostLoad` runs once on what was read. */
  function Load(data: seq<byte>, args: seq<string>, offset: int, today: int, now: int, floatValue: nat -> real)
    : (r: Loaded)
    ensures Consistent(r.state)
  {
    var built := ZonesBuilt(Initial(today), args);
    if built.None? then Loaded(Initial(today), offset, 0, true)
    else
      var loaded := Records(built.value, offset, data, 0, now, floatValue);
      if loaded.raised then loaded else loaded.(state := PostLoaded(loaded.state, now))
  }

  /** `Load` when the zones are built: the loop from the first byte, then
      `PostLoad` unless a record raised. */
  lemma LoadFrom(data: seq<byte>, args: seq<string>, offset: int, today: int, now: int, floatValue: nat -> real,
                 built: ActivityState)
    requires ZonesBuilt(Initial(today), args) == Some(built)
    ensures Consistent(built)
    ensures var loaded := Records(built, offset, data, 0, now, floatValue);
      Load(data, args, offset, today, now, floatValue)
      == if loaded.raised then loaded else loaded.(state := PostLoaded(loaded.state, now))
  {
  }

  /** Fail-stop: once the loop reaches a tag without a handler, nothing
      after it is read. */
  lemma {:induction false} RecordsStopAtUnknownTag(s: ActivityState, offset: int, data: seq<byte>, more: seq<byte>,
                                                   position: nat, now: int, floatValue: nat -> real)
    requires Consistent(s) && position <= |data|
    requires var r := Records(s, offset, data, position, now, floatValue);
      r.end < |data| && TagOf(data[r.end]).None?
    ensures Records(s, offset, data + more, position, now, floatValue) == Records(s, offset, data, position, now, floatValue)
    decreases |data| - position
  {
    assert (data + more)[position] == data[position];
    var e := Extracted(offset, data, position + 1, data[position], now, floatValue);
    if e.outcome == Handled {
      ExtractedLocal(offset, data, more, position + 1, data[position], now, floatValue);
      RecordsStopAtUnknownTag(Perform(s, e.call), e.offset, data, more, e.position, now, floatValue);
    }
  }

  /** The whole load ignores what follows the first unknown tag. */
  lemma LoadStopsAtUnknownTag(data: seq<byte>, more: seq<byte>, args: seq<string>, offset: int, today: int, now: int,
                              floatValue: nat -> real)
    requires var r := Load(data, args, offset, today, now, floatValue);
      r.end < |data| && TagOf(data[r.end]).None?
    ensures Load(data + more, args, offset, today, now, floatValue) == Load(data, args, offset, today, now, floatValue)
  {
    var built := ZonesBuilt(Initial(today), args);
    if built.Some? {
      RecordsStopAtUnknownTag(built.value, offset, data, more, 0, now, floatValue);
    }
  }

  /** Because `PostLoad` always runs, a load that does not raise ends with
      at least one lap, every point in a lap and no point before the start
      of its lap. */
  lemma LoadClosesLaps(data: seq<byte>, args: seq<string>, offset: int, today: int, now: int,
                       floatValue: nat -> real)
    ensures var r := Load(data, args, offset, today, now, floatValue);
      !r.raised ==>
        && |r.state.laps| >= 1
        && (forall t :: t in r.state.trackPoints ==>
              r.state.trackPoints[t].lapIndex < |r.state.laps|
              && r.state.laps[r.state.trackPoints[t].lapIndex].startTime <= t)
  {
    var built := ZonesBuilt(Initial(today), args);
    if built.Some? {
      var loaded := Records(built.value, offset, data, 0, now, floatValue);
      if !loaded.raised {
        PostLoadPointsInLaps(loaded.state, now);
      }
    }
  }

  // ---------------------------------------------------------------------
  // The reader

  /** `TtbinFileReader`: its one field, the local-time offset of the last
      header read, outlives a call to `LoadActivity`. */
  class TtbinFileReader {
    var localTimeOffset: int

    constructor()
      ensures localTimeOffset == 0
    {
      localTimeOffset := 0;
    }

    /** Reads the file's bytes `data` into a new activity; `ok` is false
        where Python raises. */
    method LoadActivity(data: seq<byte>, args: seq<string>, today: int, now: int, floatValue: nat -> real)
      returns (activity: Activity, ok: bool)
      modifies this
      ensures var r := Load(data, args, old(localTimeOffset), today, now, floatValue);
        && ok == !r.raised && localTimeOffset == r.offset && (ok ==> activity.State() == r.state)
    {
      activity := new Activity(today);
      var built := activity.BuildHRZones(args);
      if !built {
        return activity, false;
      }
      var file := new BinaryFile(data);
      LoadFrom(data, args, localTimeOffset, today, now, floatValue, activity.State());
      var raised := ReadRecords(activity, file, now, floatValue);
      if raised {
        return activity, false;
      }
      activity.PostLoad(now);
      ok := true;
    }

    /** The `while True` loop of `LoadActivity`. */
    method ReadRecords(activity: Activity, file: BinaryFile, now: int, floatValue: nat -> real) returns (raised: bool)
      requires activity.Valid() && file.Valid()
      modifies this, activity, file
      ensures activity.Valid()
      ensures var r := Records(old(activity.State()), old(localTimeOffset), file.data, old(file.position), now, floatValue);
        activity.State() == r.state && localTimeOffset == r.offset && raised == r.raised
    {
      ghost var loaded := Records(activity.State(), localTimeOffset, file.data, file.position, now, floatValue);
      var more := true;
      raised := false;
      while more
        invariant activity.Valid() && file.Valid()
        invariant more ==> Records(activity.State(), localTimeOffset, file.data, file.position, now, floatValue) == loaded
        invariant !more ==> activity.State() == loaded.state && localTimeOffset == loaded.offset && raised == loaded.raised
        decreases more, |file.data| - file.position
      {
        more, raised := ReadNext(activity, file, now, floatValue);
      }
    }

    /** One turn of the loop: reads a tag byte and extracts its record;
        `more` is false at the end of the file and after a record that
        was refused or raised. */
    method ReadNext(activity: Activity, file: BinaryFile, now: int, floatValue: nat -> real)
      returns (more: bool, raised: bool)
      requires activity.Valid() && file.Valid()
      modifies this, activity, file
      ensures activity.Valid() && file.Valid()
      ensures var r := Records(old(activity.State()), old(localTimeOffset), file.data, old(file.position), now, floatValue);
        && (more ==> old(file.position) < file.position
                     && Records(activity.State(), localTimeOffset, file.data, file.position, now, floatValue) == r)
        && (!more ==> activity.State() == r.state && localTimeOffset == r.offset && raised == r.raised)
    {
      ghost var s, offset, position := activity.State(), localTimeOffset, file.position;
      var tag := file.Read(1);
      if |tag| == 0 {
        return false, false;
      }
      var outcome := ExtractRecord(activity, tag[0], file, now, floatValue);
      RecordsStep(s, offset, file.data, position, now, floatValue);
      more, raised := outcome == Handled, outcome == Raised;
    }

    /** Hands the record after `tag` to its handler. */
    method ExtractRecord(activity: Activity, tag: byte, file: BinaryFile, now: int, floatValue: nat -> real)
      returns (outcome: Outcome)
      requires activity.Valid() && file.Valid()
      modifies this, activity, file
      ensures activity.Valid() && file.Valid()
      ensures var e := Extracted(old(localTimeOffset), file.data, old(file.position), tag, now, floatValue);
        && activity.State() == Perform(old(activity.State()), e.call)
        && localTimeOffset == e.offset && file.position == e.position && outcome == e.outcome
    {
      var t := TagOf(tag);
      if t.None? {
        return Refused;
      }
      if t.value.FileHeader? {
        outcome := ReadHeaderx20(activity, file);
      } else if t.value.X4b? {
        outcome := Readx4b(file);
      } else {
        outcome := ReadDecoded(activity, t.value, file, now, floatValue);
      }
    }

    /** The handlers of the records of fixed size. */
    method ReadDecoded(activity: Activity, t: RecordTag, file: BinaryFile, now: int, floatValue: nat -> real)
      returns (outcome: Outcome)
      requires !t.FileHeader? && !t.X4b?
      requires activity.Valid() && file.Valid()
      modifies activity, file
      ensures activity.Valid() && file.Valid()
      ensures var body := Chunk(file.data, old(file.position), LeadSize(t));
        var e := Decoded(localTimeOffset, t, body, old(file.position) + |body|, now, floatValue);
        && activity.State() == Perform(old(activity.State()), e.call)
        && file.position == e.position && outcome == e.outcome
    {
      match t
      case Status => outcome := ReadFixed(file, StatusSize);
      case Gps => outcome := ReadGpsx22(activity, file, floatValue);
      case ExtendedGps => outcome := ReadFixed(file, ExtendedGpsSize);
      case HeartRate => outcome := ReadHeartRatex25(activity, file);
      case Summary => outcome := ReadSummaryx27(activity, file, floatValue);
      case TrainingSetup => outcome := ReadFixed(file, TrainingSetupSize);
      case LapTag => outcome := ReadLapx2f(activity, file, now, floatValue);
      case WaitGps => outcome := ReadFixed(file, WaitGpsSize);
      case TreadmillTag => outcome := ReadTreadmillx32(activity, file, floatValue);
      case X37 => outcome := ReadFixed(file, X37Size);
      case HeartRateRecovery => outcome := ReadFixed(file, HeartRateRecoverySize);
      case GymTag => outcome := ReadGymx41(activity, file);
      case Movement => outcome := ReadFixed(file, MovementSize);
      case RouteDescription1 => outcome := ReadFixed(file, RouteDescription1Size);
      case RouteDescription2 => outcome := ReadFixed(file, RouteDescription2Size);
      case Elevation => outcome := ReadElevationx47(activity, file);
      case X48 => outcome := ReadFixed(file, X48Size);
      case Battery => outcome := ReadBatteryLevelx49(activity, file);
      case FitnessPoints => outcome := ReadFixed(file, FitnessPointsSize);
    }

    /** `ReadSomething(file, dataLen)`. */
    method ReadSomething(file: BinaryFile, dataLen: int) returns (ok: bool)
      requires file.Valid()
      modifies file
      ensures file.Valid()
      ensures ok <==> 0 <= dataLen && old(file.position) + dataLen <= |file.data|
      ensures file.position == old(file.position) + |Chunk(file.data, old(file.position), dataLen)|
    {
      var data := file.Read(dataLen);
      ok := |data| == dataLen;
    }

    /** A record the reader skips: `ReadSomething` with a literal count,
        or a `struct` body whose fields are not used. */
    method ReadFixed(file: BinaryFile, size: nat) returns (outcome: Outcome)
      requires file.Valid()
      modifies file
      ensures file.Valid()
      ensures Extraction(NoCall, localTimeOffset, file.position, outcome)
           == Skipped(localTimeOffset, file.data, old(file.position), size)
    {
      var ok := ReadSomething(file, size);
      outcome := if ok then Handled else Refused;
    }

    method Readx4b(file: BinaryFile) returns (outcome: Outcome)
      requires file.Valid()
      modifies file
      ensures file.Valid()
      ensures Extraction(NoCall, localTimeOffset, file.position, outcome)
           == X4bRecord(localTimeOffset, file.data, old(file.position))
    {
      var data := file.Read(X4bSize);
      if |data| != X4bSize {
        return Refused;
      }
      var ok := ReadSomething(file, I16(data, 0));
      outcome := if ok then Handled else Refused;
    }

    method ReadHeaderx20(activity: Activity, file: BinaryFile) returns (outcome: Outcome)
      requires activity.Valid() && file.Valid()
      modifies this, activity, file
      ensures file.Valid()
      ensures var e := HeaderRecord(old(localTimeOffset), file.data, old(file.position));
        && activity.State() == Perform(old(activity.State()), e.call)
        && localTimeOffset == e.offset && file.position == e.position && outcome == e.outcome
    {
      var data := file.Read(HeaderSize);
      if |data| != HeaderSize {
        return Refused;
      }
      var trailing := file.Read(U8(data, 119) * 3);
      localTimeOffset := I32(data, 114);
      activity.startTime := ParseDate(I32(data, 10), true, localTimeOffset);
      return Handled;
    }

    method ReadBatteryLevelx49(activity: Activity, file: BinaryFile) returns (outcome: Outcome)
      requires activity.Valid() && file.Valid()
      modifies activity, file
      ensures file.Valid()
      ensures var body := Chunk(file.data, old(file.position), BatterySize);
        var e := BatteryRecord(localTimeOffset, body, old(file.position) + |body|);
        activity.State() == Perform(old(activity.State()), e.call) && file.position == e.position && outcome == e.outcome
    {
      var data := file.Read(BatterySize);
      if |data| != BatterySize {
        return Refused;
      }
      activity.LogBatteryLevel(U8(data, 0));
      return Handled;
    }

    method ReadGymx41(activity: Activity, file: BinaryFile) returns (outcome: Outcome)
      requires activity.Valid() && file.Valid()
      modifies activity, file
      ensures file.Valid()
      ensures var body := Chunk(file.data, old(file.position), GymSize);
        var e := GymRecord(localTimeOffset, body, old(file.position) + |body|);
        activity.State() == Perform(old(activity.State()), e.call) && file.position == e.position && outcome == e.outcome
    {
      var data := file.Read(GymSize);
      if |data| != GymSize {
        return Refused;
      }
      var time := ParseDate(I32(data, 0), true, localTimeOffset);
      activity.LogSteps(time, I32(data, 6), 0.0);
      return Handled;
    }

    method ReadHeartRatex25(activity: Activity, file: BinaryFile) returns (outcome: Outcome)
      requires activity.Valid() && file.Valid()
      modifies activity, file
      ensures file.Valid()
      ensures var body := Chunk(file.data, old(file.position), HeartRateSize);
        var e := HeartRateRecord(localTimeOffset, body, old(file.position) + |body|);
        activity.State() == Perform(old(activity.State()), e.call) && file.position == e.position && outcome == e.outcome
    {
      var data := file.Read(HeartRateSize);
      if |data| != HeartRateSize {
        return Refused;
      }
      var time := ParseDate(I32(data, 2), true, localTimeOffset);
      activity.LogHeartRate(time, U8(data, 0));
      return Handled;
    }

    method ReadSummaryx27(activity: Activity, file: BinaryFile, floatValue: nat -> real) returns (outcome: Outcome)
      requires activity.Valid() && file.Valid()
      modifies activity, file
      ensures file.Valid()
      ensures var body := Chunk(file.data, old(file.position), SummarySize);
        var e := SummaryRecord(localTimeOffset, body, old(file.position) + |body|, floatValue);
        activity.State() == Perform(old(activity.State()), e.call) && file.position == e.position && outcome == e.outcome
    {
      var data := file.Read(SummarySize);
      if |data| != SummarySize {
        return Refused;
      }
      var activityType := Track.FromCode(U8(data, 0));
      if activityType.None? {
        return Raised;
      }
      activity.activityType, activity.totalActiveSeconds, activity.totalElapsedSeconds := activityType.value, I32(data, 5), I32(data, 13);
      activity.totalDistanceMeters, activity.totalCalories := floatValue(U32(data, 1)), I16(data, 9);
      return Handled;
    }

    method ReadTreadmillx32(activity: Activity, file: BinaryFile, floatValue: nat -> real) returns (outcome: Outcome)
      requires activity.Valid() && file.Valid()
      modifies activity, file
      ensures file.Valid()
      ensures var body := Chunk(file.data, old(file.position), TreadmillSize);
        var e := TreadmillRecord(localTimeOffset, body, old(file.position) + |body|, floatValue);
        activity.State() == Perform(old(activity.State()), e.call) && file.position == e.position && outcome == e.outcome
    {
      var data := file.Read(TreadmillSize);
      if |data| != TreadmillSize {
        return Refused;
      }
      var time := ParseDate(I32(data, 0), true, localTimeOffset);
      activity.LogSteps(time, I32(data, 10), floatValue(U32(data, 4)));
      return Handled;
    }

    method ReadGpsx22(activity: Activity, file: BinaryFile, floatValue: nat -> real) returns (outcome: Outcome)
      requires activity.Valid() && file.Valid()
      modifies activity, file
      ensures file.Valid()
      ensures var body := Chunk(file.data, old(file.position), GpsSize);
        var e := GpsRecord(localTimeOffset, body, old(file.position) + |body|, floatValue);
        activity.State() == Perform(old(activity.State()), e.call) && file.position == e.position && outcome == e.outcome
    {
      var data := file.Read(GpsSize);
      if |data| != GpsSize {
        return Refused;
      }
      var time := ParseDate(I32(data, 12), false, localTimeOffset);
      var latitude := I32(data, 0) as real / 10000000.0;
      var longitude := I32(data, 4) as real / 10000000.0;
      var speed, steps, distance := floatValue(U32(data, 18)), U8(data, 26), floatValue(U32(data, 22));
      ghost var call := LogGps(time, latitude, longitude, speed, steps, distance);
      assert GpsRecord(localTimeOffset, data, file.position, floatValue) == Extraction(call, localTimeOffset, file.position, Handled);
      ghost var s := activity.State();
      activity.LogGps(time, latitude, longitude, speed, steps, distance);
      assert activity.State() == Perform(s, call);
      return Handled;
    }

    method ReadElevationx47(activity: Activity, file: BinaryFile) returns (outcome: Outcome)
      requires activity.Valid() && file.Valid()
      modifies activity, file
      ensures file.Valid()
      ensures var body := Chunk(file.data, old(file.position), ElevationSize);
        var e := ElevationRecord(localTimeOffset, body, old(file.position) + |body|);
        activity.State() == Perform(old(activity.State()), e.call) && file.position == e.position && outcome == e.outcome
    {
      var data := file.Read(ElevationSize);
      if |data| != ElevationSize {
        return Refused;
      }
      if I16(data, 1) != I16(data, 9) {
        activity.LogElevation(I16(data, 1), I16(data, 5), I16(data, 7));
      }
      return Handled;
    }

    method ReadLapx2f(activity: Activity, file: BinaryFile, now: int, floatValue: nat -> real) returns (outcome: Outcome)
      requires activity.Valid() && file.Valid()
      modifies activity, file
      ensures file.Valid()
      ensures var body := Chunk(file.data, old(file.position), LapSize);
        var e := LapRecord(localTimeOffset, body, old(file.position) + |body|, now, floatValue);
        activity.State() == Perform(old(activity.State()), e.call) && file.position == e.position && outcome == e.outcome
    {
      var data := file.Read(LapSize);
      if |data| != LapSize {
        return Refused;
      }
      activity.LogLap(I32(data, 0), floatValue(U32(data, 4)), I16(data, 8), now);
      return Handled;
    }
  }
}
