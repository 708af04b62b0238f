/** The rows of the normalizer's unit tests, worked through the model. */
module LibreExamples {
  import opened Wrappers
  import opened Timestamps
  import opened Libre

  const TestDeviceId := "AbbottFreeStyleLibre-JCMY846-K1284"

  /** 18:48 on 5 November 2019, the time of the single-row tests. */
  const TestMoment: Moment := LocalDateTime(2019, 11, 5, 18, 48, 0)

  /** 13:18 on 19 June 2018, the time of the first row of the test export. */
  const SummerMoment: Moment := LocalDateTime(2018, 6, 19, 13, 18, 0)

  lemma TestRowParse()
    ensures ParseLocal(ReplaceSlashes("2019/11/05 18:48")) == Some(TestMoment)
  {
    var s := ReplaceSlashes("2019/11/05 18:48");
    assert s == "2019-11-05 18:48";
    assert HasLocalShape(s);
  }

  lemma TestRowFormat()
    ensures FormatDeviceTime(TestMoment) == "2019-11-05T18:48:00"
    ensures FormatTime(TestMoment, 0) == "2019-11-05T18:48:00+00:00"
  {
    assert FormatDate(TestMoment) == "2019-11-05";
    assert FormatClock(TestMoment) == "18:48:00";
    assert "2019-11-05" + "T" + "18:48:00" == "2019-11-05T18:48:00";
    assert FormatOffset(0) == "+00:00";
    assert "2019-11-05T18:48:00" + "+00:00" == "2019-11-05T18:48:00+00:00";
  }

  lemma SummerRowParse()
    ensures ParseLocal(ReplaceSlashes("2018/06/19 13:18")) == Some(SummerMoment)
  {
    var s := ReplaceSlashes("2018/06/19 13:18");
    assert s == "2018-06-19 13:18";
    assert HasLocalShape(s);
  }

  lemma SummerRowFormat()
    ensures FormatTime(SummerMoment, 60) == "2018-06-19T13:18:00+01:00"
  {
    assert FormatDate(SummerMoment) == "2018-06-19";
    assert FormatClock(SummerMoment) == "13:18:00";
    assert FormatOffset(60) == "+01:00";
    assert "2018-06-19" + "T" + "13:18:00" + "+01:00" == "2018-06-19T13:18:00+01:00";
  }

  /** A reading stamped with the test time in a UTC zone. */
  lemma TestReading(zone: Zone, kind: ReadingType, subType: Option<SubType>, value: Option<string>)
    requires zone(TestMoment) == 0
    ensures CreateReading(Some(TestMoment), zone, kind, subType, value, Units, TestDeviceId)
            == Reading(kind, subType, value, "mmol/L", 0, "2019-11-05T18:48:00",
                       "2019-11-05T18:48:00+00:00", Some(0), TestDeviceId)
  {
    TestRowFormat();
  }

  /** Record type "0" in a UTC zone gives the historic cbg reading of the test. */
  lemma HistoricRowExample(zone: Zone)
    requires zone(TestMoment) == 0
    ensures ParseLine(Row("2019/11/05 18:48", "0", Some("4.2"), None, None), TestDeviceId, zone)
            == Emit(Reading(Cbg, None, Some("4.2"), "mmol/L", 0, "2019-11-05T18:48:00",
                            "2019-11-05T18:48:00+00:00", Some(0), TestDeviceId))
  {
    TestRowParse();
    TestReading(zone, Cbg, None, Some("4.2"));
    assert ParseLine(Row("2019/11/05 18:48", "0", Some("4.2"), None, None), TestDeviceId, zone)
           == Emit(CreateReading(Some(TestMoment), zone, Cbg, None, Some("4.2"), Units, TestDeviceId));
  }

  /** Record type "1" gives the scanned smbg reading of the test. */
  lemma ScannedRowExample(zone: Zone)
    requires zone(TestMoment) == 0
    ensures ParseLine(Row("2019/11/05 18:48", "1", None, Some("4.2"), None), TestDeviceId, zone)
            == Emit(Reading(Smbg, Some(Scanned), Some("4.2"), "mmol/L", 0, "2019-11-05T18:48:00",
                            "2019-11-05T18:48:00+00:00", Some(0), TestDeviceId))
  {
    TestRowParse();
    TestReading(zone, Smbg, Some(Scanned), Some("4.2"));
    assert ParseLine(Row("2019/11/05 18:48", "1", None, Some("4.2"), None), TestDeviceId, zone)
           == Emit(CreateReading(Some(TestMoment), zone, Smbg, Some(Scanned), Some("4.2"), Units, TestDeviceId));
  }

  /** Record type "2" gives the meter smbg reading of the test, without subType. */
  lemma StripRowExample(zone: Zone)
    requires zone(TestMoment) == 0
    ensures ParseLine(Row("2019/11/05 18:48", "2", None, None, Some("4.2")), TestDeviceId, zone)
            == Emit(Reading(Smbg, None, Some("4.2"), "mmol/L", 0, "2019-11-05T18:48:00",
                            "2019-11-05T18:48:00+00:00", Some(0), TestDeviceId))
  {
    TestRowParse();
    TestReading(zone, Smbg, None, Some("4.2"));
    assert ParseLine(Row("2019/11/05 18:48", "2", None, None, Some("4.2")), TestDeviceId, zone)
           == Emit(CreateReading(Some(TestMoment), zone, Smbg, None, Some("4.2"), Units, TestDeviceId));
  }

  /** Record type "6" is skipped. */
  lemma UnknownRowExample(zone: Zone)
    ensures ParseLine(Row("2019/11/05 18:48", "6", None, None, None), TestDeviceId, zone) == Skip
  {
  }

  /** In summer time (UTC+01:00) the first row of the test export reads
      "+01:00" with timezoneOffset -60. */
  lemma SummerRowExample(zone: Zone)
    requires zone(SummerMoment) == 60
    ensures ParseLine(Row("2018/06/19 13:18", "0", Some("6.4"), None, None), TestDeviceId, zone)
            == Emit(Reading(Cbg, None, Some("6.4"), "mmol/L", 0, "2018-06-19T13:18:00",
                            "2018-06-19T13:18:00+01:00", Some(-60), TestDeviceId))
  {
    SummerRowParse();
    SummerRowFormat();
    var t := ParseLocal(ReplaceSlashes("2018/06/19 13:18"));
    assert ParseLine(Row("2018/06/19 13:18", "0", Some("6.4"), None, None), TestDeviceId, zone)
           == Emit(CreateReading(t, zone, Cbg, None, Some("6.4"), Units, TestDeviceId));
  }
}
