/**
 * crazy_parse and the timing that prep_dataset reads from each
 * global_metadata element: the scene-centre instant and the acquisition
 * window around it.
 */
module Acquisitions {
  import opened Wrappers
  import opened Errors
  import opened PyStrings
  import opened DateTimes

  /**
   * `crazy_parse`: parse the timestamp; if that raises ValueError and the text
   * ends in "60" (a leap second), parse it with "00" instead and add a minute.
   * Any other failure is raised unchanged.
   */
  function CrazyParse(text: string): Result<int, Error>
  {
    match ParseTimestamp(text)
    case Success(t) => Success(t)
    case Failure(e) =>
      if LastChars(text, 2) != "60" then Failure(e)
      else
        var t :- ParseTimestamp(DropLast(text, 2) + "00");
        AddSeconds(t, 60)
  }

  /** A timestamp ending in "60" never parses directly: 60 is not a valid second. */
  lemma LeapSecondNeverParses(text: string)
    requires EndsWith(text, "60")
    ensures ParseTimestamp(text).Failure?
  {
    if ParseFields(text).Some? {
      assert text[15..17] == "60";
      assert DecimalValue("60") == 60 by {
        assert "60"[..1] == "6";
        assert "6"[..0] == "";
      }
    }
  }

  /** Without a trailing "60" crazy_parse is the plain parse, failure included. */
  lemma CrazyParseWithoutLeapSecond(text: string)
    requires !EndsWith(text, "60")
    ensures CrazyParse(text) == ParseTimestamp(text)
  {
    LastCharsIsSuffix(text, "60");
  }

  /** With a trailing "60" crazy_parse reads the text with "00" there, one minute later. */
  lemma CrazyParseWithLeapSecond(text: string)
    requires EndsWith(text, "60")
    ensures CrazyParse(text) ==
      match ParseTimestamp(DropLast(text, 2) + "00")
      case Success(t) => AddSeconds(t, 60)
      case Failure(e) => Failure(e)
  {
    LeapSecondNeverParses(text);
    LastCharsIsSuffix(text, "60");
  }

  /** The leap second HH:MM:60 is read as the first second of the next minute. */
  lemma LeapSecondIsNextMinute(dt: DateTime)
    requires Valid(dt) && dt.second == 0
    ensures CrazyParse(Format(dt.(second := 60))) == AddSeconds(ToSeconds(dt), 60)
  {
    var minute := FormatMinute(dt);
    assert Pad(60, 2) == "60" && Pad(0, 2) == "00";
    var leap := Format(dt.(second := 60));
    assert leap == minute + "60";
    assert DropLast(leap, 2) == minute;
    assert minute + "00" == Format(dt);
    LeapSecondNeverParses(leap);
    ParseTimestampOfFormat(dt);
  }

  /** A minute after 23:59:00 is midnight of the next day, or OverflowError on 9999-12-31. */
  lemma NextMinuteAtEndOfDay(dt: DateTime)
    requires Valid(dt) && dt.hour == 23 && dt.minute == 59 && dt.second == 0
    ensures var midnight := NextDay(dt).(hour := 0, minute := 0);
      AddSeconds(ToSeconds(dt), 60) ==
        if Valid(midnight) then Success(ToSeconds(midnight)) else Failure(DateOverflow)
  {
    var midnight := NextDay(dt).(hour := 0, minute := 0);
    if Valid(midnight) {
      OrdinalOfNextDay(dt);
      ToSecondsInRange(midnight);
    } else {
      assert dt.year == 9999 && dt.month == 12 && dt.day == 31;
      DaysBeforeYear10000Value();
      DaysBeforeYearStep(9999);
    }
  }

  /** The leap second 23:59:60 is midnight of the next day, or OverflowError on 9999-12-31. */
  lemma LeapSecondAtEndOfDay(dt: DateTime)
    requires Valid(dt) && dt.hour == 23 && dt.minute == 59 && dt.second == 0
    ensures var midnight := NextDay(dt).(hour := 0, minute := 0);
      CrazyParse(Format(dt.(second := 60))) ==
        if Valid(midnight) then Success(ToSeconds(midnight)) else Failure(DateOverflow)
  {
    LeapSecondIsNextMinute(dt);
    NextMinuteAtEndOfDay(dt);
  }

  /** The text of an ESPA global_metadata element, as prep_dataset reads it. */
  datatype GlobalMetadata = GlobalMetadata(
    satellite: string,
    instrument: string,
    acquisitionDate: string,
    sceneCenterTime: string,
    lpgsMetadataFile: string)

  /** What one pass of prep_dataset's global_metadata loop leaves in its variables. */
  datatype Acquisition = Acquisition(
    satellite: string,
    instrument: string,
    center: int,
    aos: int,
    los: int,
    groundstation: string)

  /** Half of the 24-second acquisition window; `24/2` is exactly 12. */
  const HalfWindow := 24 / 2

  /** The ground station code: characters 16..18 of the LPGS metadata file name, clipped. */
  function Groundstation(lpgsMetadataFile: string): (r: string)
    ensures |r| == Min(3, Max(0, |lpgsMetadataFile| - 16))
    ensures forall k :: 0 <= k < |r| ==> r[k] == lpgsMetadataFile[16 + k]
  {
    Slice(lpgsMetadataFile, 16, 19)
  }

  /** The timestamp prep_dataset builds: the date without dashes, "T", the first 8 characters of the time. */
  function CenterTimestamp(g: GlobalMetadata): string
  {
    Remove(g.acquisitionDate, '-') + "T" + Slice(g.sceneCenterTime, 0, 8)
  }

  /**
   * `aos = center - timedelta(seconds=24/2)` and `los = aos + timedelta(seconds=24)`;
   * OverflowError when either leaves the datetime range.
   */
  function AcquisitionWindow(center: int): (r: Result<(int, int), Error>)
    ensures r.Success? <==> InRange(center - HalfWindow) && InRange(center + HalfWindow)
    ensures r.Failure? ==> r.error == DateOverflow
    ensures r.Success? ==>
      var (aos, los) := r.value;
      && los - aos == 24
      && center - aos == 12
      && aos <= center <= los
      && InRange(aos) && InRange(los)
  {
    var aos :- AddSeconds(center, -HalfWindow);
    var los :- AddSeconds(aos, 24);
    Success((aos, los))
  }

  /** One iteration of the global_metadata loop. */
  function ReadRecord(g: GlobalMetadata): (r: Result<Acquisition, Error>)
    ensures r.Success? ==>
      && r.value.los - r.value.aos == 24
      && r.value.center - r.value.aos == 12
      && r.value.aos <= r.value.center <= r.value.los
      && InRange(r.value.aos) && InRange(r.value.los)
      && r.value.satellite == g.satellite && r.value.instrument == g.instrument
      && r.value.groundstation == Groundstation(g.lpgsMetadataFile)
  {
    var center :- CrazyParse(CenterTimestamp(g));
    // line 96 parses the same text again, which gives the same instant
    var (aos, los) :- AcquisitionWindow(center);
    Success(Acquisition(g.satellite, g.instrument, center, aos, los, Groundstation(g.lpgsMetadataFile)))
  }

  /** An ESPA `acquisition_date` text, `YYYY-MM-DD`. */
  function DateText(dt: DateTime): string
    requires Fits(dt)
  {
    Pad(dt.year, 4) + "-" + Pad(dt.month, 2) + "-" + Pad(dt.day, 2)
  }

  /** The `HH:MM:SS` an ESPA `scene_center_time` text starts with. */
  function TimeText(dt: DateTime): string
    requires Fits(dt)
  {
    Pad(dt.hour, 2) + ":" + Pad(dt.minute, 2) + ":" + Pad(dt.second, 2)
  }

  /** Digit text holds no `-`, so `replace("-", "")` leaves it alone. */
  lemma RemoveDashFromDigits(s: string)
    requires AllDigits(s)
    ensures Remove(s, '-') == s
  {
  }

  /**
   * The timestamp built from the texts of an element: a `YYYY-MM-DD` date and
   * a time `HH:MM:SS` followed by anything (fractional seconds, a zone) give
   * exactly the `YYYYMMDDTHH:MM:SS` writing of the same fields.
   */
  lemma CenterTimestampOfText(g: GlobalMetadata, dt: DateTime, fraction: string)
    requires Fits(dt)
    requires g.acquisitionDate == DateText(dt) && g.sceneCenterTime == TimeText(dt) + fraction
    ensures CenterTimestamp(g) == Format(dt)
  {
    var year, month, day := Pad(dt.year, 4), Pad(dt.month, 2), Pad(dt.day, 2);
    RemoveDashes(year, month, day);
    TimeTextPrefix(dt, fraction);
    assert Format(dt) == (year + month + day) + "T" + TimeText(dt);
  }

  /** `replace("-", "")` on digit groups joined by `-` joins the groups. */
  lemma RemoveDashes(year: string, month: string, day: string)
    requires AllDigits(year) && AllDigits(month) && AllDigits(day)
    ensures Remove(year + "-" + month + "-" + day, '-') == year + month + day
  {
    var dash := "-";
    RemoveAppend(year, dash, '-');
    RemoveDashFromDigits(year);
    var yd := year + dash;
    assert Remove(yd, '-') == year;
    RemoveAppend(yd, month, '-');
    RemoveDashFromDigits(month);
    var ydm := yd + month;
    assert Remove(ydm, '-') == year + month;
    RemoveAppend(ydm, dash, '-');
    var ydmd := ydm + dash;
    assert Remove(ydmd, '-') == year + month;
    RemoveAppend(ydmd, day, '-');
    RemoveDashFromDigits(day);
    assert year + "-" + month + "-" + day == ydmd + day;
  }

  /** `scene_center_time[:8]` of `HH:MM:SS` followed by anything is `HH:MM:SS`. */
  lemma TimeTextPrefix(dt: DateTime, fraction: string)
    requires Fits(dt)
    ensures Slice(TimeText(dt) + fraction, 0, 8) == TimeText(dt)
  {
    var time := TimeText(dt);
    assert forall k :: 0 <= k < 8 ==> Slice(time + fraction, 0, 8)[k] == time[k];
  }

  /**
   * An element whose date and time texts write a valid date and time is read
   * at that instant, and it reads exactly when its 24-second window fits the
   * datetime range.
   */
  lemma ReadRecordOfText(g: GlobalMetadata, dt: DateTime, fraction: string)
    requires Valid(dt)
    requires g.acquisitionDate == DateText(dt) && g.sceneCenterTime == TimeText(dt) + fraction
    ensures ReadRecord(g).Success? <==> InRange(ToSeconds(dt) - 12) && InRange(ToSeconds(dt) + 12)
    ensures ReadRecord(g).Success? ==> ReadRecord(g).value.center == ToSeconds(dt)
  {
    CenterTimestampOfText(g, dt, fraction);
    ParseTimestampOfFormat(dt);
  }

  /**
   * An element whose time text is the leap second `HH:MM:60` is read at the
   * next minute, and it reads exactly when that minute's window fits the range.
   */
  lemma ReadRecordOfLeapSecondText(g: GlobalMetadata, dt: DateTime, fraction: string)
    requires Valid(dt) && dt.second == 0
    requires g.acquisitionDate == DateText(dt) && g.sceneCenterTime == TimeText(dt.(second := 60)) + fraction
    ensures ReadRecord(g).Success? <==> InRange(ToSeconds(dt) + 60 - 12) && InRange(ToSeconds(dt) + 60 + 12)
    ensures ReadRecord(g).Success? ==> ReadRecord(g).value.center == ToSeconds(dt) + 60
  {
    CenterTimestampOfText(g, dt.(second := 60), fraction);
    LeapSecondIsNextMinute(dt);
    ToSecondsInRange(dt);
    ReadRecordAtCenter(g, ToSeconds(dt) + 60);
  }

  /** Once the timestamp parses to `center` or overflows a minute on, the window alone decides. */
  lemma ReadRecordAtCenter(g: GlobalMetadata, center: int)
    requires CrazyParse(CenterTimestamp(g)) == AddSeconds(center - 60, 60)
    ensures ReadRecord(g).Success? <==> InRange(center - 12) && InRange(center + 12)
    ensures ReadRecord(g).Success? ==> ReadRecord(g).value.center == center
  {
  }

  /**
   * A loop that runs `read` on each element in order and keeps the variables
   * the last element set: the first failing element raises; the loop leaves
   * `last` when there is no element.
   */
  function ScanBy<T, A>(items: seq<T>, read: T -> Result<A, Error>, last: Option<A>): Result<Option<A>, Error>
    decreases |items|
  {
    if items == [] then Success(last)
    else
      var a :- read(items[0]);
      ScanBy(items[1..], read, Some(a))
  }

  ghost predicate AllReadBy<T, A>(items: seq<T>, read: T -> Result<A, Error>) {
    forall i :: 0 <= i < |items| ==> read(items[i]).Success?
  }

  lemma {:induction false} ScanBySucceeds<T, A>(items: seq<T>, read: T -> Result<A, Error>, last: Option<A>)
    ensures ScanBy(items, read, last).Success? <==> AllReadBy(items, read)
    ensures ScanBy(items, read, last).Failure? ==>
      exists i :: 0 <= i < |items| && read(items[i]).Failure?
        && ScanBy(items, read, last).error == read(items[i]).error
        && AllReadBy(items[..i], read)
    decreases |items|
  {
    if items != [] {
      var rest := items[1..];
      assert forall i :: 0 <= i < |rest| ==> rest[i] == items[i + 1];
      if read(items[0]).Failure? {
        assert items[..0] == [];
      } else {
        var a := read(items[0]).value;
        ScanBySucceeds(rest, read, Some(a));
        if ScanBy(rest, read, Some(a)).Failure? {
          var i :| 0 <= i < |rest| && read(rest[i]).Failure?
            && ScanBy(rest, read, Some(a)).error == read(rest[i]).error
            && AllReadBy(rest[..i], read);
          assert items[..i + 1] == [items[0]] + rest[..i];
        }
      }
    }
  }

  lemma {:induction false} ScanByKeepsLast<T, A>(items: seq<T>, read: T -> Result<A, Error>, last: Option<A>)
    requires ScanBy(items, read, last).Success?
    ensures items == [] ==> ScanBy(items, read, last).value == last
    ensures items != [] ==>
      read(items[|items| - 1]).Success?
      && ScanBy(items, read, last).value == Some(read(items[|items| - 1]).value)
    decreases |items|
  {
    if items != [] {
      var rest := items[1..];
      ScanByKeepsLast(rest, read, Some(read(items[0]).value));
      if rest != [] {
        assert rest[|rest| - 1] == items[|items| - 1];
      }
    }
  }

  /** The whole global_metadata loop, from the variables `last`. */
  function Scan(records: seq<GlobalMetadata>, last: Option<Acquisition>): Result<Option<Acquisition>, Error>
  {
    ScanBy(records, ReadRecord, last)
  }

  ghost predicate AllRead(records: seq<GlobalMetadata>) {
    forall i :: 0 <= i < |records| ==> ReadRecord(records[i]).Success?
  }

  /** The loop ends normally exactly when every element reads; otherwise the first failing element's error is raised. */
  lemma ScanSucceeds(records: seq<GlobalMetadata>, last: Option<Acquisition>)
    ensures Scan(records, last).Success? <==> AllRead(records)
    ensures Scan(records, last).Failure? ==>
      exists i :: 0 <= i < |records| && ReadRecord(records[i]).Failure?
        && Scan(records, last).error == ReadRecord(records[i]).error
        && AllRead(records[..i])
  {
    ScanBySucceeds(records, ReadRecord, last);
  }

  /** After a normal end the variables hold the LAST element's values. */
  lemma ScanKeepsLast(records: seq<GlobalMetadata>, last: Option<Acquisition>)
    requires Scan(records, last).Success?
    ensures records == [] ==> Scan(records, last).value == last
    ensures records != [] ==>
      ReadRecord(records[|records| - 1]).Success?
      && Scan(records, last).value == Some(ReadRecord(records[|records| - 1]).value)
  {
    ScanByKeepsLast(records, ReadRecord, last);
  }
}
