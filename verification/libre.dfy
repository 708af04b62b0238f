/** The FreeStyle Libre normalizer: one row of the reader's tab-separated
    export becomes one normalized reading, or is skipped when its record type
    is not one the tool understands. */
module Libre {
  import opened Wrappers
  import opened Timestamps

  const Units := "mmol/L"

  /** What moment prints, and what the reading carries, for a date it could not parse. */
  const InvalidDate := "Invalid date"

  datatype ReadingType = Cbg | Smbg

  datatype SubType = Scanned

  /** The `type` string of a reading. */
  function TypeName(kind: ReadingType): string {
    match kind
    case Cbg => "cbg"
    case Smbg => "smbg"
  }

  /** The `subType` string of a reading. */
  function SubTypeName(subType: SubType): string {
    match subType
    case Scanned => "scanned"
  }

  /** A normalized reading. `subType` is None exactly when the object has no
      `subType` key. `value` is the text of the glucose column the record
      type selects, None when the row has no such column. `timezoneOffset`
      is None where `libre.js` computes NaN (an invalid date). */
  datatype Reading = Reading(
    kind: ReadingType,
    subType: Option<SubType>,
    value: Option<string>,
    units: string,
    conversionOffset: int,
    deviceTime: string,
    time: string,
    timezoneOffset: Option<int>,
    deviceId: string)

  /** The keys of the object `libre.js` builds for a reading. */
  function Keys(r: Reading): set<string> {
    {"type", "value", "units", "conversionOffset", "deviceTime", "time", "timezoneOffset", "deviceId"}
    + (if r.subType.Some? then {"subType"} else {})
  }

  /** One row of the export, by column: Time, Record Type and the three
      glucose columns (None when the row has no such column). */
  datatype Row = Row(
    time: string,
    recordType: string,
    historicGlucose: Option<string>,
    scanGlucose: Option<string>,
    stripGlucose: Option<string>)

  /** The outcome of normalizing one row: a reading, or null for a record
      type the tool does not handle. */
  datatype Parsed = Skip | Emit(reading: Reading)

  /** The record types the normalizer turns into readings. */
  predicate IsSupported(recordType: string) {
    recordType == "0" || recordType == "1" || recordType == "2"
  }

  /** Every '/' becomes '-', everything else is kept. */
  function ReplaceSlashes(s: string): string {
    seq(|s|, i requires 0 <= i < |s| => if s[i] == '/' then '-' else s[i])
  }

  /** Builds a reading from a parsed date-time (None when moment found it
      invalid) in the host zone; the subType key is added only when given. */
  function CreateReading(t: Option<Moment>, zone: Zone, kind: ReadingType, subType: Option<SubType>,
                         value: Option<string>, units: string, deviceId: string): (r: Reading)
    ensures r.kind == kind && r.value == value && r.units == units && r.deviceId == deviceId
    ensures r.conversionOffset == 0
    ensures ("subType" in Keys(r)) <==> subType.Some?
    ensures r.subType == subType
    ensures t.Some? ==> |r.deviceTime| == 19 && |r.time| == 25 && r.time[..19] == r.deviceTime
    ensures t.Some? ==> ParseOffset(r.time[19..]) == Some(zone(t.value))
    ensures t.Some? ==> r.timezoneOffset == Some(-zone(t.value))
    ensures t.None? ==> r.deviceTime == InvalidDate && r.time == InvalidDate && r.timezoneOffset.None?
  {
    match t
    case Some(m) =>
      TimeExtendsDeviceTime(m, zone(m));
      Reading(kind, subType, value, units, 0, FormatDeviceTime(m), FormatTime(m, zone(m)), Some(-zone(m)), deviceId)
    case None =>
      Reading(kind, subType, value, units, 0, InvalidDate, InvalidDate, None, deviceId)
  }

  /** Normalizes one row: record type "0" is a historic (cbg) reading, "1" a
      scanned smbg reading, "2" a strip (meter) smbg reading; anything else
      is skipped. */
  function ParseLine(row: Row, deviceId: string, zone: Zone): (r: Parsed)
    ensures r.Emit? <==> IsSupported(row.recordType)
    ensures r.Emit? ==> r.reading.units == Units && r.reading.conversionOffset == 0 && r.reading.deviceId == deviceId
    ensures r.Emit? ==> (r.reading.kind == Cbg <==> row.recordType == "0")
    ensures r.Emit? ==> (r.reading.subType == Some(Scanned) <==> row.recordType == "1")
    ensures r.Emit? ==> r.reading.value == (if row.recordType == "0" then row.historicGlucose
                                            else if row.recordType == "1" then row.scanGlucose
                                            else row.stripGlucose)
  {
    var t := ParseLocal(ReplaceSlashes(row.time));
    if row.recordType == "0" then
      Emit(CreateReading(t, zone, Cbg, None, row.historicGlucose, Units, deviceId))
    else if row.recordType == "1" then
      Emit(CreateReading(t, zone, Smbg, Some(Scanned), row.scanGlucose, Units, deviceId))
    else if row.recordType == "2" then
      Emit(CreateReading(t, zone, Smbg, None, row.stripGlucose, Units, deviceId))
    else
      Skip
  }

  /** The `type` and `subType` strings a row's reading carries: "cbg" for
      record type "0", "smbg" otherwise, and the subType "scanned" for
      record type "1" only. */
  lemma ReadingTypeNames(row: Row, deviceId: string, zone: Zone)
    requires ParseLine(row, deviceId, zone).Emit?
    ensures var r := ParseLine(row, deviceId, zone).reading;
            TypeName(r.kind) == (if row.recordType == "0" then "cbg" else "smbg")
    ensures var r := ParseLine(row, deviceId, zone).reading;
            if row.recordType == "1" then r.subType.Some? && SubTypeName(r.subType.value) == "scanned"
            else r.subType.None?
  {
  }

  /** The record type a reading came from, read off its type and subType:
      the subType key alone tells a scanned smbg reading from a meter one. */
  function RecordTypeOf(r: Reading): string {
    match r.kind
    case Cbg => "0"
    case Smbg => if r.subType.Some? then "1" else "2"
  }

  /** A reading determines the record type of the row it came from. */
  lemma RecordTypeRecovered(row: Row, deviceId: string, zone: Zone)
    requires ParseLine(row, deviceId, zone).Emit?
    ensures RecordTypeOf(ParseLine(row, deviceId, zone).reading) == row.recordType
  {
  }

  /** A reading's device time is the row's time with '/' turned into '-',
      a 'T' separator and ":00" seconds; its time carries the host zone's
      offset at that date-time, and its timezoneOffset is the negated
      offset. A time that does not parse gives "Invalid date" twice and no
      offset. */
  lemma ReadingTimes(row: Row, deviceId: string, zone: Zone)
    ensures var s := ReplaceSlashes(row.time);
            var p := ParseLine(row, deviceId, zone);
            p.Emit? && ParseLocal(s).Some? ==>
              && p.reading.deviceTime == s[..10] + "T" + s[11..] + ":00"
              && p.reading.time == p.reading.deviceTime + FormatOffset(zone(ParseLocal(s).value))
              && p.reading.timezoneOffset == Some(-zone(ParseLocal(s).value))
    ensures var p := ParseLine(row, deviceId, zone);
            p.Emit? && ParseLocal(ReplaceSlashes(row.time)).None? ==>
              p.reading.deviceTime == InvalidDate && p.reading.time == InvalidDate && p.reading.timezoneOffset.None?
  {
    var s := ReplaceSlashes(row.time);
    var p := ParseLine(row, deviceId, zone);
    if p.Emit? {
      var r := p.reading;
      assert r == CreateReading(ParseLocal(s), zone, r.kind, r.subType, r.value, Units, deviceId);
      if ParseLocal(s).Some? {
        StampOfCreateReading(s, zone, r.kind, r.subType, r.value, Units, deviceId);
      }
    }
  }

  lemma StampOfCreateReading(s: string, zone: Zone, kind: ReadingType, subType: Option<SubType>,
                             value: Option<string>, units: string, deviceId: string)
    requires ParseLocal(s).Some?
    ensures var r := CreateReading(ParseLocal(s), zone, kind, subType, value, units, deviceId);
            var t := ParseLocal(s).value;
            && r.deviceTime == s[..10] + "T" + s[11..] + ":00"
            && r.time == r.deviceTime + FormatOffset(zone(t))
  {
    DeviceTimeOfParse(s);
  }

  /** Normalizes every row of the export, keeping the readings and dropping
      the skipped rows, in row order. */
  function ParseTsv(rows: seq<Row>, deviceId: string, zone: Zone): (readings: seq<Reading>)
    ensures |readings| <= |rows|
    ensures forall k :: 0 <= k < |readings| ==> readings[k].deviceId == deviceId && readings[k].units == Units
  {
    if |rows| == 0 then []
    else
      var init := ParseTsv(rows[..|rows| - 1], deviceId, zone);
      match ParseLine(rows[|rows| - 1], deviceId, zone)
      case Skip => init
      case Emit(r) => init + [r]
  }

  /** The indices of the rows whose record type is supported, in order. */
  function KeptIndices(rows: seq<Row>): (ks: seq<nat>)
    ensures forall k :: 0 <= k < |ks| ==> ks[k] < |rows|
  {
    if |rows| == 0 then []
    else KeptIndices(rows[..|rows| - 1]) + (if IsSupported(rows[|rows| - 1].recordType) then [|rows| - 1] else [])
  }

  /** The parse is the filter-map of ParseLine over the rows: the k-th
      reading is the reading of the k-th kept row. */
  lemma {:induction false} ParseTsvIsFilterMap(rows: seq<Row>, deviceId: string, zone: Zone)
    ensures |ParseTsv(rows, deviceId, zone)| == |KeptIndices(rows)|
    ensures forall k :: 0 <= k < |KeptIndices(rows)| ==>
              ParseLine(rows[KeptIndices(rows)[k]], deviceId, zone) == Emit(ParseTsv(rows, deviceId, zone)[k])
  {
    if |rows| > 0 {
      var n := |rows| - 1;
      var init := rows[..n];
      ParseTsvIsFilterMap(init, deviceId, zone);
      var ks0, ks := KeptIndices(init), KeptIndices(rows);
      var ps0, ps := ParseTsv(init, deviceId, zone), ParseTsv(rows, deviceId, zone);
      var last := ParseLine(rows[n], deviceId, zone);
      if last.Emit? {
        assert IsSupported(rows[n].recordType);
        assert ps == ps0 + [last.reading] && ks == ks0 + [n];
      } else {
        assert !IsSupported(rows[n].recordType);
        assert ks == ks0 + [];
        assert ps == ps0;
      }
      forall k | 0 <= k < |ks|
        ensures ParseLine(rows[ks[k]], deviceId, zone) == Emit(ps[k])
      {
        if k < |ks0| {
          assert ks[k] == ks0[k] && ps[k] == ps0[k];
          assert rows[ks0[k]] == init[ks0[k]];
        }
      }
    }
  }

  /** The kept rows are listed in increasing order, and a row is kept iff
      its record type is supported. */
  lemma {:induction false} KeptIndicesOrdered(rows: seq<Row>)
    ensures forall j, k :: 0 <= j < k < |KeptIndices(rows)| ==> KeptIndices(rows)[j] < KeptIndices(rows)[k]
    ensures forall i :: 0 <= i < |rows| ==> (i in KeptIndices(rows) <==> IsSupported(rows[i].recordType))
  {
    if |rows| > 0 {
      var init := rows[..|rows| - 1];
      KeptIndicesOrdered(init);
      assert forall i :: 0 <= i < |init| ==> init[i] == rows[i];
    }
  }

  /** Parsing distributes over concatenation: the readings of a file are the
      readings of its first part followed by those of the rest. */
  lemma {:induction false} ParseTsvAppend(a: seq<Row>, b: seq<Row>, deviceId: string, zone: Zone)
    ensures ParseTsv(a + b, deviceId, zone) == ParseTsv(a, deviceId, zone) + ParseTsv(b, deviceId, zone)
    decreases |b|
  {
    if |b| > 0 {
      var b0 := b[..|b| - 1];
      assert (a + b)[..|a + b| - 1] == a + b0;
      ParseTsvAppend(a, b0, deviceId, zone);
    } else {
      assert a + b == a;
    }
  }

  /** A file whose rows are all supported yields one reading per row, each
      the normalization of the row at the same position. */
  lemma AllSupportedKeepsEveryRow(rows: seq<Row>, deviceId: string, zone: Zone)
    requires forall i :: 0 <= i < |rows| ==> IsSupported(rows[i].recordType)
    ensures |ParseTsv(rows, deviceId, zone)| == |rows|
    ensures forall i :: 0 <= i < |rows| ==> ParseLine(rows[i], deviceId, zone) == Emit(ParseTsv(rows, deviceId, zone)[i])
  {
    KeptIndicesOfAllSupported(rows);
    ParseTsvIsFilterMap(rows, deviceId, zone);
  }

  /** When every row is supported, every row is kept, each at its own
      position. */
  lemma {:induction false} KeptIndicesOfAllSupported(rows: seq<Row>)
    requires forall i :: 0 <= i < |rows| ==> IsSupported(rows[i].recordType)
    ensures |KeptIndices(rows)| == |rows|
    ensures forall k :: 0 <= k < |rows| ==> KeptIndices(rows)[k] == k
  {
    if |rows| > 0 {
      var init := rows[..|rows| - 1];
      assert forall i :: 0 <= i < |init| ==> init[i] == rows[i];
      KeptIndicesOfAllSupported(init);
    }
  }

  /** The export of the `test/test.js` normalizer test: nine rows, the ninth of record type
      "6", give eight readings, those of the first eight rows in order. */
  lemma NineRowExport(rows: seq<Row>, deviceId: string, zone: Zone)
    requires |rows| == 9
    requires forall i :: 0 <= i < 8 ==> IsSupported(rows[i].recordType)
    requires rows[8].recordType == "6"
    ensures |ParseTsv(rows, deviceId, zone)| == 8
    ensures forall i :: 0 <= i < 8 ==> ParseLine(rows[i], deviceId, zone) == Emit(ParseTsv(rows, deviceId, zone)[i])
  {
    assert rows[..8] == rows[..|rows| - 1];
    AllSupportedKeepsEveryRow(rows[..8], deviceId, zone);
  }
}
