/**
 * One row of the Roadster orbital-elements table and the constructor that
 * builds it from a comma-separated line.
 */
module OrbitalData {
  import opened Wrappers
  import opened Text
  import opened Dates

  /** Number of leading fields the constructor reads. */
  const FieldCount: nat := 9

  datatype OrbitalRecord = OrbitalRecord(
    epochJD: real,
    dateUtc: Instant,
    semiMajorAxisAU: real,
    eccentricity: real,
    inclinationDegrees: real,
    longitudeOfAscendingNodeDegrees: real,
    argumentOfPeriapsisDegrees: real,
    meanAnomalyDegrees: real,
    trueAnomalyDegrees: real)

  /** The field defaults of a freshly allocated record: every number 0, the date DateTime.MinValue. */
  const Default := OrbitalRecord(0.0, MinValue, 0.0, 0.0, 0.0, 0.0, 0.0, 0.0, 0.0)

  /**
   * double.Parse and DateTime.Parse with the invariant culture: None where
   * the library throws.
   */
  datatype Parsers = Parsers(number: string -> Option<real>, date: string -> Option<Instant>)

  /** Field i of the split line parses: field 1 as a date, the others as numbers. */
  predicate FieldParses(values: seq<string>, i: nat, parsers: Parsers)
    requires i < |values|
  {
    if i == 1 then parsers.date(Trim(values[1])).Some?
    else parsers.number(Trim(values[i])).Some?
  }

  /** The first field, from index i on, whose parse throws. */
  function FirstBadField(values: seq<string>, i: nat, parsers: Parsers): (r: Option<nat>)
    requires FieldCount <= |values| && i <= FieldCount
    ensures r.None? <==> forall k :: i <= k < FieldCount ==> FieldParses(values, k, parsers)
    ensures r.Some? ==> i <= r.value < FieldCount && !FieldParses(values, r.value, parsers)
    ensures r.Some? ==> forall k :: i <= k < r.value ==> FieldParses(values, k, parsers)
    decreases FieldCount - i
  {
    if i == FieldCount then None
    else if !FieldParses(values, i, parsers) then Some(i)
    else FirstBadField(values, i + 1, parsers)
  }

  function Number(values: seq<string>, i: nat, parsers: Parsers): real
    requires i < |values| && parsers.number(Trim(values[i])).Some?
  {
    parsers.number(Trim(values[i])).value
  }

  /**
   * new OrbitalData(csvLine). A line of fewer than nine fields gives the
   * default record; otherwise fields 0..8, trimmed, are parsed in order and the
   * first one that fails makes the constructor throw (Failure carries its index).
   */
  function Parse(line: string, parsers: Parsers): Result<OrbitalRecord, nat>
  {
    var values := Split(line, ',');
    if |values| < FieldCount then Success(Default)
    else
      match FirstBadField(values, 0, parsers)
      case Some(k) => Failure(k)
      case None =>
        AllFieldsParse(values, parsers);
        Success(OrbitalRecord(
          Number(values, 0, parsers),
          parsers.date(Trim(values[1])).value,
          Number(values, 2, parsers),
          Number(values, 3, parsers),
          Number(values, 4, parsers),
          Number(values, 5, parsers),
          Number(values, 6, parsers),
          Number(values, 7, parsers),
          Number(values, 8, parsers)))
  }

  lemma AllFieldsParse(values: seq<string>, parsers: Parsers)
    requires FieldCount <= |values| && FirstBadField(values, 0, parsers).None?
    ensures parsers.number(Trim(values[0])).Some? && parsers.date(Trim(values[1])).Some?
    ensures forall k :: 2 <= k < FieldCount ==> parsers.number(Trim(values[k])).Some?
  {
    assert FieldParses(values, 0, parsers) && FieldParses(values, 1, parsers);
    forall k | 2 <= k < FieldCount ensures parsers.number(Trim(values[k])).Some? {
      assert FieldParses(values, k, parsers);
    }
  }

  /** A line of fewer than nine fields does not throw: every field keeps its default. */
  lemma ShortLineGivesDefault(line: string, parsers: Parsers)
    requires |Split(line, ',')| < FieldCount
    ensures Parse(line, parsers) == Success(Default)
  {
  }

  /**
   * A line of nine or more fields fails exactly when one of its first nine
   * fields does not parse, and then no record is produced at all.
   */
  lemma ParseFailsIffFieldFails(line: string, parsers: Parsers)
    requires |Split(line, ',')| >= FieldCount
    ensures Parse(line, parsers).Failure? <==> exists k :: 0 <= k < FieldCount && !FieldParses(Split(line, ','), k, parsers)
    ensures Parse(line, parsers).Failure? ==>
      var k := Parse(line, parsers).error;
      k < FieldCount && !FieldParses(Split(line, ','), k, parsers)
      && forall j :: 0 <= j < k ==> FieldParses(Split(line, ','), j, parsers)
  {
    hide Trim;
  }

  /** Fields 0..8, trimmed, fill epoch, date, the six elements and the true anomaly, in that order. */
  lemma ParseFieldMapping(line: string, parsers: Parsers)
    requires |Split(line, ',')| >= FieldCount && Parse(line, parsers).Success?
    ensures var v, r := Split(line, ','), Parse(line, parsers).value;
      && Some(r.epochJD) == parsers.number(Trim(v[0]))
      && Some(r.dateUtc) == parsers.date(Trim(v[1]))
      && Some(r.semiMajorAxisAU) == parsers.number(Trim(v[2]))
      && Some(r.eccentricity) == parsers.number(Trim(v[3]))
      && Some(r.inclinationDegrees) == parsers.number(Trim(v[4]))
      && Some(r.longitudeOfAscendingNodeDegrees) == parsers.number(Trim(v[5]))
      && Some(r.argumentOfPeriapsisDegrees) == parsers.number(Trim(v[6]))
      && Some(r.meanAnomalyDegrees) == parsers.number(Trim(v[7]))
      && Some(r.trueAnomalyDegrees) == parsers.number(Trim(v[8]))
  {
    hide Trim;
  }

  /** Fields after the ninth are never looked at: appending more leaves the result alone. */
  lemma ExtraFieldsIgnored(line: string, extra: string, parsers: Parsers)
    requires |Split(line, ',')| >= FieldCount
    ensures Parse(line + "," + extra, parsers) == Parse(line, parsers)
  {
    hide Trim;
    var v := Split(line, ',');
    SplitConcat(line, extra, ',');
    var w := Split(line + "," + extra, ',');
    assert w == v + Split(extra, ',');
    assert forall k :: 0 <= k < FieldCount ==> w[k] == v[k];
    assert forall i :: 0 <= i <= FieldCount ==> FirstBadField(w, i, parsers) == FirstBadField(v, i, parsers) by {
      forall i | 0 <= i <= FieldCount ensures FirstBadField(w, i, parsers) == FirstBadField(v, i, parsers) {
        FirstBadFieldPrefix(v, w, i, parsers);
      }
    }
  }

  lemma {:induction false} FirstBadFieldPrefix(v: seq<string>, w: seq<string>, i: nat, parsers: Parsers)
    requires FieldCount <= |v| && FieldCount <= |w| && i <= FieldCount
    requires forall k :: 0 <= k < FieldCount ==> w[k] == v[k]
    ensures FirstBadField(w, i, parsers) == FirstBadField(v, i, parsers)
    decreases FieldCount - i
  {
    hide Trim;
    if i < FieldCount {
      FirstBadFieldPrefix(v, w, i + 1, parsers);
      assert FieldParses(w, i, parsers) == FieldParses(v, i, parsers);
    }
  }
}
