/**
 * The Roadster playback engine: loading the orbital table into a primary and
 * an extended list, the two tick rules, the segment-duration rule, the mode
 * toggle and the bounded trail.
 *
 * Each operation is a pure step function over `Playback`; the class
 * `Simulation` holds the same state in fields and its methods are proved to
 * perform exactly those steps.
 */
module RoadsterSimulation {
  import opened Wrappers
  import opened Seqs
  import opened Text
  import opened Dates
  import opened OrbitalData

  const RequiredModeSpeed: real := 24.0
  const OptionalModeSpeed: real := 240.0
  /** Gaps up to this many hours play at the plain simulation speed. */
  const ShortGapHours: real := 24.0
  /** A trail point is added only this far from the previous one. */
  const MinTrailSpacing: real := 0.1
  /** First and last day of the primary list (both inclusive, at midnight). */
  const WindowStart: Instant := DateOf(2018, 2, 7)
  const WindowEnd: Instant := DateOf(2019, 10, 8)

  // ---------------------------------------------------------------- positions

  datatype Vec3 = Vec3(x: real, y: real, z: real)

  /** The linear blend p1 + (p2 - p1) * t used between two computed positions. */
  function Lerp(a: Vec3, b: Vec3, t: real): Vec3
  {
    Vec3(a.x + (b.x - a.x) * t, a.y + (b.y - a.y) * t, a.z + (b.z - a.z) * t)
  }

  /**
   * The blend starts at a, ends at b, and in between weighs a by 1 - t and b
   * by t in every coordinate.
   */
  lemma LerpEndpointsAndWeights(a: Vec3, b: Vec3, t: real)
    ensures Lerp(a, b, 0.0) == a && Lerp(a, b, 1.0) == b
    ensures var r := Lerp(a, b, t);
      && r.x == a.x * (1.0 - t) + b.x * t
      && r.y == a.y * (1.0 - t) + b.y * t
      && r.z == a.z * (1.0 - t) + b.z * t
  {
  }

  /** ConvertToUnityPosition: scaled, with the y and z axes swapped. */
  function ToUnityPosition(p: Vec3, scale: real): Vec3
  {
    Vec3(p.x * scale, p.z * scale, p.y * scale)
  }

  function SquaredDistance(a: Vec3, b: Vec3): real
  {
    (a.x - b.x) * (a.x - b.x) + (a.y - b.y) * (a.y - b.y) + (a.z - b.z) * (a.z - b.z)
  }

  /** Vector3.Distance(p, last) > 0.1, compared on squares (both sides are non-negative). */
  predicate FarEnough(p: Vec3, last: Vec3)
  {
    SquaredDistance(p, last) > MinTrailSpacing * MinTrailSpacing
  }

  // ------------------------------------------------------------------ loading

  predicate InPrimaryWindow(d: Instant)
  {
    WindowStart <= d <= WindowEnd
  }

  predicate InExtendedWindow(d: Instant)
  {
    d > WindowEnd
  }

  /** lines[i].Trim().Replace("\r", "") */
  function CleanLine(line: string): string
  {
    RemoveChar(Trim(line), '\r')
  }

  /** The rows after the header line (Split always yields at least one piece). */
  function DataRows(file: string): seq<string>
  {
    Split(file, '\n')[1..]
  }

  /** What one data row contributes: nothing if it is blank or its parse throws. */
  function RowRecords(row: string, parsers: Parsers): (r: seq<OrbitalRecord>)
    ensures |r| <= 1
  {
    if IsNullOrWhiteSpace(row) then []
    else match Parse(CleanLine(row), parsers)
      case Success(data) => [data]
      case Failure(_) => []
  }

  /** The records of the data rows, in row order: each row appends its share. */
  function ParsedRows(rows: seq<string>, parsers: Parsers): (r: seq<OrbitalRecord>)
    ensures |r| <= |rows|
  {
    if rows == [] then []
    else ParsedRows(rows[..|rows| - 1], parsers) + RowRecords(rows[|rows| - 1], parsers)
  }

  lemma {:induction false} ParsedRowsConcat(a: seq<string>, b: seq<string>, parsers: Parsers)
    ensures ParsedRows(a + b, parsers) == ParsedRows(a, parsers) + ParsedRows(b, parsers)
  {
    hide RowRecords;
    if b == [] {
      assert a + b == a;
    } else {
      var last := |b| - 1;
      assert (a + b)[..|a + b| - 1] == a + b[..last];
      assert (a + b)[|a + b| - 1] == b[last];
      ParsedRowsConcat(a, b[..last], parsers);
    }
  }

  /**
   * A blank row, or one whose parse throws, is skipped, and the rows after it
   * still load.
   */
  lemma BadRowSkipped(before: seq<string>, row: string, after: seq<string>, parsers: Parsers)
    requires IsNullOrWhiteSpace(row) || Parse(CleanLine(row), parsers).Failure?
    ensures ParsedRows(before + [row] + after, parsers) == ParsedRows(before, parsers) + ParsedRows(after, parsers)
  {
    RowRecordsOfBadRow(row, parsers);
    EmptyRowSkipped(before, row, after, parsers);
  }

  lemma EmptyRowSkipped(before: seq<string>, row: string, after: seq<string>, parsers: Parsers)
    requires RowRecords(row, parsers) == []
    ensures ParsedRows(before + [row] + after, parsers) == ParsedRows(before, parsers) + ParsedRows(after, parsers)
  {
    ParsedRowsConcat(before + [row], after, parsers);
    ParsedRowsConcat(before, [row], parsers);
    ParsedRowsSingle(row, parsers);
  }

  lemma ParsedRowsSingle(row: string, parsers: Parsers)
    ensures ParsedRows([row], parsers) == RowRecords(row, parsers)
  {
    assert [row][..0] == [];
  }

  lemma RowRecordsOfBadRow(row: string, parsers: Parsers)
    requires IsNullOrWhiteSpace(row) || Parse(CleanLine(row), parsers).Failure?
    ensures RowRecords(row, parsers) == []
  {
  }

  function PrimaryRecords(records: seq<OrbitalRecord>): seq<OrbitalRecord>
  {
    Filter((r: OrbitalRecord) => InPrimaryWindow(r.dateUtc), records)
  }

  function ExtendedRecords(records: seq<OrbitalRecord>): seq<OrbitalRecord>
  {
    Filter((r: OrbitalRecord) => InExtendedWindow(r.dateUtc), records)
  }

  lemma AppendAssoc<T>(a: seq<T>, b: seq<T>, c: seq<T>)
    ensures (a + b) + c == a + (b + c)
  {
  }

  /** Before the first data row nothing is loaded. */
  lemma LoadStart(lines: seq<string>, parsers: Parsers)
    requires |lines| >= 1
    ensures PrimaryRecords(ParsedRows(lines[1..1], parsers)) == []
    ensures ExtendedRecords(ParsedRows(lines[1..1], parsers)) == []
  {
    assert lines[1..1] == [];
  }

  /** Loading one more row appends that row's share to each list. */
  lemma LoadStep(lines: seq<string>, i: nat, parsers: Parsers)
    requires 1 <= i < |lines|
    ensures PrimaryRecords(ParsedRows(lines[1..i + 1], parsers))
      == PrimaryRecords(ParsedRows(lines[1..i], parsers)) + PrimaryRecords(RowRecords(lines[i], parsers))
    ensures ExtendedRecords(ParsedRows(lines[1..i + 1], parsers))
      == ExtendedRecords(ParsedRows(lines[1..i], parsers)) + ExtendedRecords(RowRecords(lines[i], parsers))
  {
    var rows, row := lines[1..i], lines[i];
    assert lines[1..i + 1][..i - 1] == rows;
    assert ParsedRows(lines[1..i + 1], parsers) == ParsedRows(rows, parsers) + RowRecords(row, parsers);
    hide RowRecords, ParsedRows, PrimaryRecords, ExtendedRecords;
    PartitionConcat(ParsedRows(rows, parsers), RowRecords(row, parsers));
  }

  /** Each list's share of two record runs is the share of the first followed by that of the second. */
  lemma PartitionConcat(a: seq<OrbitalRecord>, b: seq<OrbitalRecord>)
    ensures PrimaryRecords(a + b) == PrimaryRecords(a) + PrimaryRecords(b)
    ensures ExtendedRecords(a + b) == ExtendedRecords(a) + ExtendedRecords(b)
  {
    FilterConcat((r: OrbitalRecord) => InPrimaryWindow(r.dateUtc), a, b);
    FilterConcat((r: OrbitalRecord) => InExtendedWindow(r.dateUtc), a, b);
  }

  lemma SingleRecordPartition(data: OrbitalRecord)
    ensures PrimaryRecords([data]) == if InPrimaryWindow(data.dateUtc) then [data] else []
    ensures ExtendedRecords([data]) == if InExtendedWindow(data.dateUtc) then [data] else []
  {
    assert [data][1..] == [];
  }

  /**
   * The two lists split the records by date: the inclusive window goes to the
   * primary list, later dates to the extended list, earlier ones nowhere; each
   * list keeps the input order.
   */
  lemma Partition(records: seq<OrbitalRecord>)
    ensures forall r :: r in PrimaryRecords(records) <==> r in records && WindowStart <= r.dateUtc <= WindowEnd
    ensures forall r :: r in ExtendedRecords(records) <==> r in records && r.dateUtc > WindowEnd
    ensures forall r :: r in records && r.dateUtc < WindowStart ==> r !in PrimaryRecords(records) && r !in ExtendedRecords(records)
    ensures IsSubsequence(PrimaryRecords(records), records) && IsSubsequence(ExtendedRecords(records), records)
  {
    FilterIsSubsequence((r: OrbitalRecord) => InPrimaryWindow(r.dateUtc), records);
    FilterIsSubsequence((r: OrbitalRecord) => InExtendedWindow(r.dateUtc), records);
  }

  /** The window's edges: 2019-10-08 00:00 is primary, 06:00 that day is extended, 2018-02-06 is dropped. */
  lemma WindowEdges()
    ensures InPrimaryWindow(DateOf(2018, 2, 7)) && InPrimaryWindow(DateOf(2019, 10, 8))
    ensures InExtendedWindow(DateTimeOf(2019, 10, 8, 6, 0, 0)) && !InPrimaryWindow(DateTimeOf(2019, 10, 8, 6, 0, 0))
    ensures InExtendedWindow(DateOf(2019, 10, 9))
    ensures !InPrimaryWindow(DateOf(2018, 2, 6)) && !InExtendedWindow(DateOf(2018, 2, 6))
  {
  }

  /**
   * A non-blank row of fewer than nine fields does not throw: it yields the
   * default record, dated DateTime.MinValue, which lands in neither list.
   */
  lemma ShortRowDropped(row: string, parsers: Parsers)
    requires !IsNullOrWhiteSpace(row) && |Split(CleanLine(row), ',')| < FieldCount
    ensures RowRecords(row, parsers) == [Default]
    ensures PrimaryRecords(ParsedRows([row], parsers)) == [] && ExtendedRecords(ParsedRows([row], parsers)) == []
  {
    ParsedRowsSingle(row, parsers);
    assert !InPrimaryWindow(MinValue) && !InExtendedWindow(MinValue);
  }

  // ----------------------------------------------------------------- playback

  /** Serialized settings, plus the scene and the Kepler solver the engine calls. */
  datatype Config = Config(
    trailLength: nat,
    orbitScale: real,
    optionalModeSpeedMultiplier: real,
    maxInterpolationSeconds: real,
    hasRoadster: bool,
    position: OrbitalRecord -> Vec3)

  /** The engine's mutable state. */
  datatype Playback = Playback(
    optional: bool,
    index: int,
    progress: real,
    duration: real,
    speed: real,
    trail: seq<Vec3>)

  /** A step's new state and the position it hands to the roadster, if any. */
  datatype Step = Step(next: Playback, emitted: Option<Vec3>)

  const Initial := Playback(false, 0, 0.0, 1.0, RequiredModeSpeed, [])

  function ModeSpeed(optional: bool): real
  {
    if optional then OptionalModeSpeed else RequiredModeSpeed
  }

  function GapHours(ext: seq<OrbitalRecord>, i: int): real
    requires 0 <= i < |ext| - 1
  {
    (ext[i + 1].dateUtc - ext[i].dateUtc) as real / (SecondsPerHour as real)
  }

  /** Mathf.Min */
  function Min(a: real, b: real): real
  {
    if a < b then a else b
  }

  /**
   * UpdateInterpolationDuration: wall-clock seconds for the segment starting
   * at index. A zero divisor gives +Infinity in float arithmetic, and the
   * minimum with the cap is then the cap.
   */
  function SegmentDuration(optional: bool, ext: seq<OrbitalRecord>, index: int, speed: real, config: Config): (r: real)
    requires 0 <= index && speed > 0.0
    ensures (!optional || |ext| < 2 || index >= |ext| - 1) ==> r == 1.0
    ensures optional && index < |ext| - 1 && GapHours(ext, index) <= ShortGapHours ==> r * speed == GapHours(ext, index)
    ensures optional && index < |ext| - 1 && GapHours(ext, index) > ShortGapHours ==> r <= config.maxInterpolationSeconds
    ensures optional && index < |ext| - 1 && GapHours(ext, index) > ShortGapHours ==>
      var d := speed * config.optionalModeSpeedMultiplier;
      && (d == 0.0 ==> r == config.maxInterpolationSeconds)
      && (d != 0.0 ==> r == config.maxInterpolationSeconds || r * d == GapHours(ext, index))
      && (d > 0.0 ==> r * d <= GapHours(ext, index))
      && (d < 0.0 ==> r * d >= GapHours(ext, index))
  {
    if !optional || |ext| < 2 || index >= |ext| - 1 then 1.0
    else
      var hoursBetween := GapHours(ext, index);
      if hoursBetween <= ShortGapHours then hoursBetween / speed
      else
        var divisor := speed * config.optionalModeSpeedMultiplier;
        if divisor == 0.0 then config.maxInterpolationSeconds
        else Min(hoursBetween / divisor, config.maxInterpolationSeconds)
  }

  predicate Chronological(records: seq<OrbitalRecord>)
  {
    forall i, j :: 0 <= i < j < |records| ==> records[i].dateUtc <= records[j].dateUtc
  }

  /**
   * With chronological data and positive settings a segment never lasts less
   * than zero nor longer than the largest of 1 s, 24 h at the current speed,
   * and the cap: playback never stalls.
   */
  lemma DurationBounded(optional: bool, ext: seq<OrbitalRecord>, index: int, speed: real, config: Config)
    requires 0 <= index && speed > 0.0 && Chronological(ext)
    requires config.optionalModeSpeedMultiplier > 0.0 && config.maxInterpolationSeconds >= 0.0
    ensures var r := SegmentDuration(optional, ext, index, speed, config);
      0.0 <= r && (r <= 1.0 || r <= ShortGapHours / speed || r <= config.maxInterpolationSeconds)
  {
    if optional && |ext| >= 2 && index < |ext| - 1 {
      var g := GapHours(ext, index);
      assert ext[index].dateUtc <= ext[index + 1].dateUtc;
      assert 0.0 <= g;
      if g <= ShortGapHours {
        DivideMonotone(g, ShortGapHours, speed);
      } else {
        var divisor := speed * config.optionalModeSpeedMultiplier;
        assert divisor > 0.0;
        assert g / divisor >= 0.0;
      }
    }
  }

  lemma DivideMonotone(a: real, b: real, d: real)
    requires 0.0 <= a <= b && d > 0.0
    ensures 0.0 <= a / d <= b / d
  {
  }

  /**
   * UpdateTrail: add p if the trail is empty or p is far enough from the last
   * point, then drop the oldest point if the trail is over its length.
   */
  function TrailAfter(trail: seq<Vec3>, p: Vec3, trailLength: nat): (r: seq<Vec3>)
    ensures |trail| <= trailLength ==> |r| <= trailLength
    ensures |trail| <= trailLength ==>
      |r| == if Appends(trail, p) && |trail| < trailLength then |trail| + 1 else |trail|
    ensures Appends(trail, p) && trailLength > 0 ==> r != [] && r[|r| - 1] == p
    ensures !Appends(trail, p) && |trail| <= trailLength ==> r == trail
    ensures Appends(trail, p) && |trail| < trailLength ==> r == trail + [p]
    ensures Appends(trail, p) && 0 < |trail| == trailLength ==> r == trail[1..] + [p]
    ensures forall q :: q in r ==> q in trail || q == p
  {
    var added := if Appends(trail, p) then trail + [p] else trail;
    if |added| > trailLength then added[1..] else added
  }

  predicate Appends(trail: seq<Vec3>, p: Vec3)
  {
    trail == [] || FarEnough(p, trail[|trail| - 1])
  }

  /** ToggleMode: flip the mode, rewind, clear the trail, set the mode's speed, recompute the duration. */
  function Toggled(s: Playback, ext: seq<OrbitalRecord>, config: Config): Playback
  {
    var optional := !s.optional;
    var speed := ModeSpeed(optional);
    Playback(optional, 0, 0.0, SegmentDuration(optional, ext, 0, speed, config), speed, [])
  }

  /** UpdateRoadsterPositionRequired: show primary[index] and record it in the trail. */
  function RequiredUpdate(s: Playback, primary: seq<OrbitalRecord>, config: Config): Step
    requires 0 <= s.index
  {
    if s.index >= |primary| || !config.hasRoadster then Step(s, None)
    else
      var p := ToUnityPosition(config.position(primary[s.index]), config.orbitScale);
      Step(s.(trail := TrailAfter(s.trail, p, config.trailLength)), Some(p))
  }

  /** A required-mode pass of the loop: show the record, then step the index, wrapping and clearing the trail. */
  function RequiredTick(s: Playback, primary: seq<OrbitalRecord>, config: Config): Step
    requires 0 <= s.index
  {
    var u := RequiredUpdate(s, primary, config);
    var index := u.next.index + 1;
    if index >= |primary| then Step(u.next.(index := 0, trail := []), u.emitted)
    else Step(u.next.(index := index), u.emitted)
  }

  /** progress += dt / duration; a zero duration makes the float sum +Infinity, which ends the segment. */
  function Advanced(progress: real, dt: real, duration: real): real
  {
    if duration == 0.0 then 1.0 else progress + dt / duration
  }

  /**
   * UpdateRoadsterPositionOptional, as written: the duration for the next
   * segment is computed before the index is wrapped to 0.
   */
  function OptionalUpdate(s: Playback, ext: seq<OrbitalRecord>, dt: real, config: Config): Step
    requires 0 <= s.index && s.speed > 0.0
  {
    if |ext| < 2 || !config.hasRoadster then Step(s, None)
    else if s.index >= |ext| - 1 then
      Step(s.(index := 0, progress := 0.0,
              duration := SegmentDuration(s.optional, ext, 0, s.speed, config), trail := []), None)
    else
      var p := ToUnityPosition(Lerp(config.position(ext[s.index]), config.position(ext[s.index + 1]), s.progress),
                               config.orbitScale);
      var trail := TrailAfter(s.trail, p, config.trailLength);
      var progress := Advanced(s.progress, dt, s.duration);
      if progress >= 1.0 then
        var index := s.index + 1;
        var duration := SegmentDuration(s.optional, ext, index, s.speed, config);
        if index >= |ext| - 1 then Step(s.(index := 0, progress := 0.0, duration := duration, trail := []), Some(p))
        else Step(s.(index := index, progress := 0.0, duration := duration, trail := trail), Some(p))
      else Step(s.(progress := progress, trail := trail), Some(p))
  }

  /** One pass of SimulationLoop; the emptiness test looks at the primary list in both modes. */
  function LoopTick(s: Playback, primary: seq<OrbitalRecord>, ext: seq<OrbitalRecord>, dt: real, config: Config): Step
    requires 0 <= s.index && s.speed > 0.0
  {
    if |primary| == 0 then Step(s, None)
    else if s.optional then OptionalUpdate(s, ext, dt, config)
    else RequiredTick(s, primary, config)
  }

  /** What every reachable state satisfies. */
  predicate Invariant(s: Playback, primary: seq<OrbitalRecord>, ext: seq<OrbitalRecord>, config: Config)
  {
    && s.speed == ModeSpeed(s.optional)
    && 0 <= s.index
    && (!s.optional ==> s.index == 0 || s.index < |primary|)
    && (s.optional ==> s.index == 0 || s.index < |ext| - 1)
    && s.progress < 1.0
    && |s.trail| <= config.trailLength
  }

  lemma InitialInvariant(primary: seq<OrbitalRecord>, ext: seq<OrbitalRecord>, config: Config)
    ensures Invariant(Initial, primary, ext, config)
  {
  }

  /** ToggleMode rewinds to a valid state with an empty trail, and toggling twice restores the mode and its speed. */
  lemma ToggleProperties(s: Playback, primary: seq<OrbitalRecord>, ext: seq<OrbitalRecord>, config: Config)
    ensures Invariant(Toggled(s, ext, config), primary, ext, config)
    ensures Toggled(s, ext, config).trail == [] && Toggled(s, ext, config).index == 0
    ensures Toggled(s, ext, config).progress == 0.0
    ensures var t := Toggled(Toggled(s, ext, config), ext, config); t.optional == s.optional && t.speed == ModeSpeed(s.optional)
  {
  }

  /** Every loop pass keeps the invariant: indices stay in range, the trail stays bounded, progress stays below 1. */
  lemma TickKeepsInvariant(s: Playback, primary: seq<OrbitalRecord>, ext: seq<OrbitalRecord>, dt: real, config: Config)
    requires Invariant(s, primary, ext, config) && dt > 0.0
    ensures Invariant(LoopTick(s, primary, ext, dt, config).next, primary, ext, config)
  {
  }

  /**
   * A required-mode pass moves the index one record on, cyclically, and
   * empties the trail exactly when it wraps.
   */
  lemma RequiredTickCycles(s: Playback, primary: seq<OrbitalRecord>, ext: seq<OrbitalRecord>, dt: real, config: Config)
    requires Invariant(s, primary, ext, config) && !s.optional && |primary| > 0 && dt > 0.0
    ensures var n := LoopTick(s, primary, ext, dt, config).next;
      && n.index == (s.index + 1) % |primary|
      && (n.index == 0 ==> n.trail == [])
      && n.optional == s.optional && n.progress == s.progress && n.duration == s.duration
    ensures LoopTick(s, primary, ext, dt, config).emitted.Some? <==> config.hasRoadster
  {
  }

  /** With no primary records a pass does nothing, in optional mode too. */
  lemma EmptyPrimaryIsNoOp(s: Playback, ext: seq<OrbitalRecord>, dt: real, config: Config)
    requires 0 <= s.index && s.speed > 0.0
    ensures LoopTick(s, [], ext, dt, config) == Step(s, None)
  {
  }

  /**
   * An optional-mode pass with fewer than two extended records, or without a
   * roadster, changes nothing. Otherwise it emits the blend of the current
   * segment, adds the trail point and moves progress on. When the segment
   * finishes, the index moves to the next segment with its duration, or,
   * after the last segment, wraps to 0 with an empty trail and (as written)
   * the 1 s duration of the one-past-the-end index.
   */
  lemma OptionalTickShape(s: Playback, primary: seq<OrbitalRecord>, ext: seq<OrbitalRecord>, dt: real, config: Config)
    requires Invariant(s, primary, ext, config) && s.optional && |primary| > 0 && dt > 0.0
    requires s.duration > 0.0
    ensures |ext| < 2 || !config.hasRoadster ==> LoopTick(s, primary, ext, dt, config) == Step(s, None)
    ensures |ext| >= 2 && config.hasRoadster ==>
      var st := LoopTick(s, primary, ext, dt, config);
      var p := ToUnityPosition(Lerp(config.position(ext[s.index]), config.position(ext[s.index + 1]), s.progress),
                               config.orbitScale);
      var trail := TrailAfter(s.trail, p, config.trailLength);
      var progress := s.progress + dt / s.duration;
      && st.emitted == Some(p)
      && (progress < 1.0 ==> st.next == s.(progress := progress, trail := trail))
      && (progress >= 1.0 && s.index + 1 < |ext| - 1 ==>
            st.next == s.(index := s.index + 1, progress := 0.0,
                          duration := SegmentDuration(true, ext, s.index + 1, s.speed, config), trail := trail))
      && (progress >= 1.0 && s.index + 1 >= |ext| - 1 ==>
            st.next == s.(index := 0, progress := 0.0, duration := 1.0, trail := []))
  {
  }

  /**
   * With chronological extended data and positive settings, progress and the
   * duration never become negative.
   */
  lemma ProgressStaysNonNegative(s: Playback, primary: seq<OrbitalRecord>, ext: seq<OrbitalRecord>, dt: real, config: Config)
    requires Invariant(s, primary, ext, config) && dt > 0.0
    requires Chronological(ext) && config.optionalModeSpeedMultiplier > 0.0 && config.maxInterpolationSeconds >= 0.0
    requires 0.0 <= s.progress && 0.0 <= s.duration
    ensures var n := LoopTick(s, primary, ext, dt, config).next; 0.0 <= n.progress && 0.0 <= n.duration
  {
    if |primary| > 0 && s.optional {
      OptionalProgressNonNegative(s, ext, dt, config);
    }
  }

  lemma OptionalProgressNonNegative(s: Playback, ext: seq<OrbitalRecord>, dt: real, config: Config)
    requires 0 <= s.index && s.speed > 0.0 && dt > 0.0
    requires Chronological(ext) && config.optionalModeSpeedMultiplier > 0.0 && config.maxInterpolationSeconds >= 0.0
    requires 0.0 <= s.progress && 0.0 <= s.duration
    ensures var n := OptionalUpdate(s, ext, dt, config).next; 0.0 <= n.progress && 0.0 <= n.duration
  {
    if |ext| >= 2 && config.hasRoadster {
      DurationBounded(s.optional, ext, 0, s.speed, config);
      if s.index < |ext| - 1 {
        DurationBounded(s.optional, ext, s.index + 1, s.speed, config);
        AdvancedNonNegative(s.progress, dt, s.duration);
      }
    }
  }

  lemma AdvancedNonNegative(progress: real, dt: real, duration: real)
    requires 0.0 <= progress && dt > 0.0 && 0.0 <= duration
    ensures Advanced(progress, dt, duration) >= 0.0
  {
    if duration > 0.0 {
      assert dt / duration > 0.0;
    }
  }

  // ------------------------------------------- finding: duration after a wrap

  /** The stored duration is the one the current segment calls for. */
  predicate DurationCurrent(s: Playback, ext: seq<OrbitalRecord>, config: Config)
    requires 0 <= s.index && s.speed > 0.0
  {
    s.duration == SegmentDuration(s.optional, ext, s.index, s.speed, config)
  }

  /**
   * As written, finishing the last segment recomputes the duration for the
   * one-past-the-end index (which gives 1 s) and only then wraps to 0, so the
   * first segment of every later cycle plays for 1 s whatever its gap.
   * Three records 48 h apart at 240 h/s: the first segment should last 0.2 s.
   */
  lemma StaleDurationAfterWrap()
    ensures var ext := [Default.(dateUtc := 0), Default.(dateUtc := 172800), Default.(dateUtc := 345600)];
      var config := Config(20, 0.00009, 1.0, 5.0, true, (r: OrbitalRecord) => Vec3(0.0, 0.0, 0.0));
      var s := Playback(true, 1, 0.5, 0.2, OptionalModeSpeed, []);
      var n := OptionalUpdate(s, ext, 1.0, config).next;
      && Invariant(s, [Default], ext, config) && DurationCurrent(s, ext, config)
      && n.index == 0 && n.duration == 1.0
      && SegmentDuration(true, ext, 0, OptionalModeSpeed, config) == 0.2
      && !DurationCurrent(n, ext, config)
  {
    var ext := [Default.(dateUtc := 0), Default.(dateUtc := 172800), Default.(dateUtc := 345600)];
    assert GapHours(ext, 0) == 48.0 && GapHours(ext, 1) == 48.0;
  }

  /**
   * UpdateRoadsterPositionOptional as intended: when the segment finishes,
   * the index moves on (wrapping to 0 with the trail cleared) and only then
   * is the duration of the new segment computed.
   */
  function OptionalUpdateCorrected(s: Playback, ext: seq<OrbitalRecord>, dt: real, config: Config): Step
    requires 0 <= s.index && s.speed > 0.0
  {
    if |ext| < 2 || !config.hasRoadster then Step(s, None)
    else if s.index >= |ext| - 1 then
      Step(s.(index := 0, progress := 0.0,
              duration := SegmentDuration(s.optional, ext, 0, s.speed, config), trail := []), None)
    else
      var p := ToUnityPosition(Lerp(config.position(ext[s.index]), config.position(ext[s.index + 1]), s.progress),
                               config.orbitScale);
      var trail := TrailAfter(s.trail, p, config.trailLength);
      var progress := Advanced(s.progress, dt, s.duration);
      if progress >= 1.0 then
        var index := if s.index + 1 >= |ext| - 1 then 0 else s.index + 1;
        var duration := SegmentDuration(s.optional, ext, index, s.speed, config);
        Step(s.(index := index, progress := 0.0, duration := duration, trail := if index == 0 then [] else trail), Some(p))
      else Step(s.(progress := progress, trail := trail), Some(p))
  }

  /**
   * The correction changes nothing but the stored duration: same position,
   * index, progress and trail as the code as written.
   */
  lemma CorrectionOnlyChangesDuration(s: Playback, ext: seq<OrbitalRecord>, dt: real, config: Config)
    requires 0 <= s.index && s.speed > 0.0
    ensures var fixed, written := OptionalUpdateCorrected(s, ext, dt, config), OptionalUpdate(s, ext, dt, config);
      && fixed.emitted == written.emitted
      && fixed.next == written.next.(duration := fixed.next.duration)
  {
  }

  /** The corrected pass keeps the stored duration in step with the segment being played. */
  lemma CorrectedKeepsDurationCurrent(s: Playback, primary: seq<OrbitalRecord>, ext: seq<OrbitalRecord>, dt: real, config: Config)
    requires Invariant(s, primary, ext, config) && s.optional && dt > 0.0 && DurationCurrent(s, ext, config)
    ensures var n := OptionalUpdateCorrected(s, ext, dt, config).next;
      Invariant(n, primary, ext, config) && DurationCurrent(n, ext, config)
  {
  }

  // -------------------------------------------------------------- the engine

  class Simulation {
    const config: Config
    const parsers: Parsers
    var orbitalDataList: seq<OrbitalRecord>
    var extendedDataList: seq<OrbitalRecord>
    var currentDataIndex: int
    var trailPositions: seq<Vec3>
    var useOptionalMode: bool
    var interpolationProgress: real
    var currentInterpolationDuration: real
    var simulationSpeed: real

    function State(): Playback
      reads this
    {
      Playback(useOptionalMode, currentDataIndex, interpolationProgress, currentInterpolationDuration,
               simulationSpeed, trailPositions)
    }

    ghost predicate Valid()
      reads this
    {
      Invariant(State(), orbitalDataList, extendedDataList, config)
    }

    constructor (config: Config, parsers: Parsers)
      ensures Valid() && State() == Initial
      ensures this.config == config && this.parsers == parsers
      ensures orbitalDataList == [] && extendedDataList == []
    {
      this.config := config;
      this.parsers := parsers;
      orbitalDataList := [];
      extendedDataList := [];
      currentDataIndex := 0;
      trailPositions := [];
      useOptionalMode := false;
      interpolationProgress := 0.0;
      currentInterpolationDuration := 1.0;
      simulationSpeed := RequiredModeSpeed;
    }

    /**
     * LoadOrbitalData: skip line 0 and blank lines, parse the rest, drop
     * lines whose parse throws, and sort records into the two lists by date.
     * A missing file loads nothing.
     */
    method LoadOrbitalData(csvFile: Option<string>)
      requires Valid()
      modifies this`orbitalDataList, this`extendedDataList
      ensures Valid()
      ensures csvFile.None? ==> orbitalDataList == old(orbitalDataList) && extendedDataList == old(extendedDataList)
      ensures csvFile.Some? ==>
        && orbitalDataList == old(orbitalDataList) + PrimaryRecords(ParsedRows(DataRows(csvFile.value), parsers))
        && extendedDataList == old(extendedDataList) + ExtendedRecords(ParsedRows(DataRows(csvFile.value), parsers))
    {
      hide ParsedRows, PrimaryRecords, ExtendedRecords, RowRecords;
      if csvFile.None? {
        return;
      }
      var lines := Split(csvFile.value, '\n');
      AddRows(lines);
      assert lines[1..|lines|] == DataRows(csvFile.value);
    }

    /** LoadOrbitalData's loop over the lines after the header. */
    method AddRows(lines: seq<string>)
      requires |lines| >= 1
      modifies this`orbitalDataList, this`extendedDataList
      ensures orbitalDataList == old(orbitalDataList) + PrimaryRecords(ParsedRows(lines[1..|lines|], parsers))
      ensures extendedDataList == old(extendedDataList) + ExtendedRecords(ParsedRows(lines[1..|lines|], parsers))
    {
      LoadStart(lines, parsers);
      hide RowRecords, ParsedRows, PrimaryRecords, ExtendedRecords;
      ghost var primary0, extended0 := orbitalDataList, extendedDataList;
      for i := 1 to |lines|
        invariant orbitalDataList == primary0 + PrimaryRecords(ParsedRows(lines[1..i], parsers))
        invariant extendedDataList == extended0 + ExtendedRecords(ParsedRows(lines[1..i], parsers))
      {
        LoadStep(lines, i, parsers);
        AddRow(lines[i]);
        AppendAssoc(primary0, PrimaryRecords(ParsedRows(lines[1..i], parsers)), PrimaryRecords(RowRecords(lines[i], parsers)));
        AppendAssoc(extended0, ExtendedRecords(ParsedRows(lines[1..i], parsers)), ExtendedRecords(RowRecords(lines[i], parsers)));
      }
    }

    /** The body of LoadOrbitalData's loop: one data row of the file. */
    method AddRow(line: string)
      modifies this`orbitalDataList, this`extendedDataList
      ensures orbitalDataList == old(orbitalDataList) + PrimaryRecords(RowRecords(line, parsers))
      ensures extendedDataList == old(extendedDataList) + ExtendedRecords(RowRecords(line, parsers))
    {
      hide Parse, CleanLine, IsNullOrWhiteSpace;
      if IsNullOrWhiteSpace(line) {
        RowRecordsOfBadRow(line, parsers);
        assert PrimaryRecords([]) == [] && ExtendedRecords([]) == [];
        return;
      }
      var cleanLine := CleanLine(line);
      var parsed := Parse(cleanLine, parsers);
      if parsed.Failure? {
        // the exception is logged and the line skipped
        RowRecordsOfBadRow(line, parsers);
        assert PrimaryRecords([]) == [] && ExtendedRecords([]) == [];
        return;
      }
      var data := parsed.value;
      assert RowRecords(line, parsers) == [data];
      SingleRecordPartition(data);
      if data.dateUtc >= WindowStart && data.dateUtc <= WindowEnd {
        orbitalDataList := orbitalDataList + [data];
      } else if data.dateUtc > WindowEnd {
        extendedDataList := extendedDataList + [data];
      }
    }

    method UpdateInterpolationDuration()
      requires 0 <= currentDataIndex && simulationSpeed > 0.0
      modifies this`currentInterpolationDuration
      ensures currentInterpolationDuration
        == SegmentDuration(useOptionalMode, extendedDataList, currentDataIndex, simulationSpeed, config)
    {
      if !useOptionalMode || |extendedDataList| < 2 || currentDataIndex >= |extendedDataList| - 1 {
        currentInterpolationDuration := 1.0;
        return;
      }
      var current := extendedDataList[currentDataIndex];
      var next := extendedDataList[currentDataIndex + 1];
      var hoursBetween := (next.dateUtc - current.dateUtc) as real / (SecondsPerHour as real);
      if hoursBetween <= ShortGapHours {
        currentInterpolationDuration := hoursBetween / simulationSpeed;
      } else {
        var divisor := simulationSpeed * config.optionalModeSpeedMultiplier;
        if divisor == 0.0 {
          currentInterpolationDuration := config.maxInterpolationSeconds;
        } else {
          currentInterpolationDuration := Min(hoursBetween / divisor, config.maxInterpolationSeconds);
        }
      }
    }

    method ToggleMode()
      requires Valid()
      modifies this`useOptionalMode, this`currentDataIndex, this`interpolationProgress, this`trailPositions,
               this`simulationSpeed, this`currentInterpolationDuration
      ensures Valid()
      ensures State() == Toggled(old(State()), extendedDataList, config)
    {
      useOptionalMode := !useOptionalMode;
      currentDataIndex := 0;
      interpolationProgress := 0.0;
      trailPositions := [];
      if useOptionalMode {
        simulationSpeed := OptionalModeSpeed;
      } else {
        simulationSpeed := RequiredModeSpeed;
      }
      UpdateInterpolationDuration();
    }

    method UpdateTrail(newPosition: Vec3)
      modifies this`trailPositions
      ensures trailPositions == TrailAfter(old(trailPositions), newPosition, config.trailLength)
    {
      if |trailPositions| == 0 || FarEnough(newPosition, trailPositions[|trailPositions| - 1]) {
        trailPositions := trailPositions + [newPosition];
      }
      if |trailPositions| > config.trailLength {
        trailPositions := trailPositions[1..];
      }
    }

    method UpdateRoadsterPositionRequired() returns (emitted: Option<Vec3>)
      requires 0 <= currentDataIndex
      modifies this`trailPositions
      ensures Step(State(), emitted) == RequiredUpdate(old(State()), orbitalDataList, config)
    {
      if currentDataIndex >= |orbitalDataList| || !config.hasRoadster {
        return None;
      }
      var currentData := orbitalDataList[currentDataIndex];
      var unityPosition := ToUnityPosition(config.position(currentData), config.orbitScale);
      UpdateTrail(unityPosition);
      emitted := Some(unityPosition);
    }

    /**
     * UpdateRoadsterPositionOptional as written: the duration is recomputed
     * before the index wraps (see StaleDurationAfterWrap).
     */
    method UpdateRoadsterPositionOptional(dt: real) returns (emitted: Option<Vec3>)
      requires 0 <= currentDataIndex && simulationSpeed > 0.0
      modifies this`currentDataIndex, this`interpolationProgress, this`currentInterpolationDuration, this`trailPositions
      ensures Step(State(), emitted) == OptionalUpdate(old(State()), extendedDataList, dt, config)
    {
      if |extendedDataList| < 2 || !config.hasRoadster {
        return None;
      }
      if currentDataIndex >= |extendedDataList| - 1 {
        currentDataIndex := 0;
        interpolationProgress := 0.0;
        UpdateInterpolationDuration();
        trailPositions := [];
        return None;
      }
      var currentData := extendedDataList[currentDataIndex];
      var nextData := extendedDataList[currentDataIndex + 1];
      var positionKm := Lerp(config.position(currentData), config.position(nextData), interpolationProgress);
      var unityPosition := ToUnityPosition(positionKm, config.orbitScale);
      UpdateTrail(unityPosition);
      emitted := Some(unityPosition);

      interpolationProgress := Advanced(interpolationProgress, dt, currentInterpolationDuration);
      if interpolationProgress >= 1.0 {
        currentDataIndex := currentDataIndex + 1;
        interpolationProgress := 0.0;
        UpdateInterpolationDuration();
        if currentDataIndex >= |extendedDataList| - 1 {
          currentDataIndex := 0;
          trailPositions := [];
        }
      }
    }

    /** One pass of SimulationLoop; dt is the frame time of an optional-mode pass. */
    method Tick(dt: real) returns (emitted: Option<Vec3>)
      requires Valid() && dt > 0.0
      modifies this`currentDataIndex, this`interpolationProgress, this`currentInterpolationDuration, this`trailPositions
      ensures Valid()
      ensures Step(State(), emitted) == LoopTick(old(State()), orbitalDataList, extendedDataList, dt, config)
    {
      ghost var before := State();
      var dataList := if useOptionalMode then extendedDataList else orbitalDataList;
      if |orbitalDataList| == 0 {
        return None;
      }
      if useOptionalMode {
        emitted := UpdateRoadsterPositionOptional(dt);
      } else {
        emitted := UpdateRoadsterPositionRequired();
        currentDataIndex := currentDataIndex + 1;
        if currentDataIndex >= |dataList| {
          currentDataIndex := 0;
          trailPositions := [];
        }
      }
      TickKeepsInvariant(before, orbitalDataList, extendedDataList, dt, config);
    }
  }
}
