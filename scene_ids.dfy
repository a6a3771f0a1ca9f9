/**
 * The Landsat scene identifier at the start of a dataset directory's stem,
 * and the creation date prepare_datasets derives from it.
 */
module SceneIds {
  import opened Wrappers
  import opened Errors
  import opened PyStrings
  import opened DateTimes
  import opened Acquisitions

  /** The named groups of the scene-ID pattern, as the strings `groupdict()` gives. */
  datatype SceneFields = SceneFields(
    code: string,
    path: string,
    row: string,
    productYear: string,
    julianDay: string)

  /** The mission codes the pattern accepts: Landsat 8 OLI, Landsat 7 ETM+, Landsat 5 TM. */
  predicate IsMissionCode(code: string) {
    code == "LC8" || code == "LE7" || code == "LT5"
  }

  /** The fields of a match: a mission code and digit groups of widths 3, 3, 4 and 3. */
  predicate WellFormed(f: SceneFields) {
    && IsMissionCode(f.code)
    && |f.path| == 3 && AllDigits(f.path)
    && |f.row| == 3 && AllDigits(f.row)
    && |f.productYear| == 4 && AllDigits(f.productYear)
    && |f.julianDay| == 3 && AllDigits(f.julianDay)
  }

  /** The first 16 characters a matching stem starts with. */
  function SceneIdText(f: SceneFields): string {
    f.code + f.path + f.row + f.productYear + f.julianDay
  }

  /** `[0-9]{n}` at the start of `s`: the digits and what follows them. */
  function DigitField(s: string, n: nat): (r: Option<(string, string)>)
    ensures r.Some? <==> |s| >= n && AllDigits(s[..n])
    ensures r.Some? ==> r.value.0 == s[..n] && r.value.1 == s[n..]
  {
    if |s| >= n && AllDigits(s[..n]) then Some((s[..n], s[n..])) else None
  }

  /** `(?P<code>LC8|LE7|LT5)` at the start of `s`. */
  function MissionCode(s: string): (r: Option<(string, string)>)
    ensures r.Some? <==> |s| >= 3 && IsMissionCode(s[..3])
    ensures r.Some? ==> r.value.0 == s[..3] && r.value.1 == s[3..]
  {
    if |s| >= 3 && IsMissionCode(s[..3]) then Some((s[..3], s[3..])) else None
  }

  /**
   * `re.match` of the scene-ID pattern against a stem: anchored at the start,
   * alternatives and fields of fixed width, anything after the 16th character
   * ignored.
   */
  function ParseSceneId(stem: string): (r: Option<SceneFields>)
    ensures r.Some? ==> WellFormed(r.value)
  {
    match MissionCode(stem)
    case None => None
    case Some((code, s1)) =>
      match DigitField(s1, 3)
      case None => None
      case Some((path, s2)) =>
        match DigitField(s2, 3)
        case None => None
        case Some((row, s3)) =>
          match DigitField(s3, 4)
          case None => None
          case Some((productYear, s4)) =>
            match DigitField(s4, 3)
            case None => None
            case Some((julianDay, _)) => Some(SceneFields(code, path, row, productYear, julianDay))
  }

  /**
   * A stem matches exactly when it starts with LC8, LE7 or LT5 and 13 digits;
   * the groups are then fixed slices of the stem.
   */
  lemma ParseSceneIdExactly(stem: string)
    ensures ParseSceneId(stem).Some? <==>
      |stem| >= 16 && IsMissionCode(stem[..3]) && AllDigits(stem[3..16])
    ensures ParseSceneId(stem).Some? ==>
      ParseSceneId(stem).value == SceneFields(stem[..3], stem[3..6], stem[6..9], stem[9..13], stem[13..16])
  {
    if |stem| >= 16 {
      assert stem[3..][..3] == stem[3..6] && stem[3..][3..] == stem[6..];
      assert stem[6..][..3] == stem[6..9] && stem[6..][3..] == stem[9..];
      assert stem[9..][..4] == stem[9..13] && stem[9..][4..] == stem[13..];
      assert stem[13..][..3] == stem[13..16];
      if AllDigits(stem[3..6]) && AllDigits(stem[6..9]) && AllDigits(stem[9..13]) && AllDigits(stem[13..16]) {
        assert forall i :: 3 <= i < 16 ==> stem[3..16][i - 3] == stem[i] && IsDigit(stem[i]) by {
          forall i | 3 <= i < 16 ensures stem[3..16][i - 3] == stem[i] && IsDigit(stem[i]) {
            if i < 6 { assert stem[3..6][i - 3] == stem[i]; }
            else if i < 9 { assert stem[6..9][i - 6] == stem[i]; }
            else if i < 13 { assert stem[9..13][i - 9] == stem[i]; }
            else { assert stem[13..16][i - 13] == stem[i]; }
          }
        }
      } else if AllDigits(stem[3..16]) {
        assert forall i :: 3 <= i < 16 ==> IsDigit(stem[3..16][i - 3]) && stem[3..16][i - 3] == stem[i];
      }
    }
  }

  /** Writing the fields and anything after them, then matching, gives the fields back. */
  lemma ParseSceneIdOfText(f: SceneFields, rest: string)
    requires WellFormed(f)
    ensures ParseSceneId(SceneIdText(f) + rest) == Some(f)
  {
    var stem := SceneIdText(f) + rest;
    assert stem[..3] == f.code;
    assert stem[3..6] == f.path && stem[6..9] == f.row;
    assert stem[9..13] == f.productYear && stem[13..16] == f.julianDay;
    assert stem[3..16] == f.path + f.row + f.productYear + f.julianDay;
    assert AllDigits(stem[3..16]) by {
      forall i | 0 <= i < 13 ensures IsDigit(stem[3..16][i]) {
        if i < 3 { assert stem[3..16][i] == f.path[i]; }
        else if i < 6 { assert stem[3..16][i] == f.row[i - 3]; }
        else if i < 10 { assert stem[3..16][i] == f.productYear[i - 6]; }
        else { assert stem[3..16][i] == f.julianDay[i - 10]; }
      }
    }
    ParseSceneIdExactly(stem);
  }

  /** The text prepare_datasets parses for January 1 of the product year. */
  function NewYearText(f: SceneFields): string {
    f.productYear + "0101T00:00:00"
  }

  /**
   * `creation_dt`: January 1 of the product year plus `julianday` whole days
   * (no day is subtracted). Year 0000 raises ValueError; a date past
   * 9999-12-31 raises OverflowError.
   */
  function CreationDate(f: SceneFields): Result<int, Error>
    requires WellFormed(f)
  {
    var newYear :- CrazyParse(NewYearText(f));
    AddSeconds(newYear, DecimalValue(f.julianDay) * SecondsPerDay)
  }

  lemma NewYearTextIsFormat(f: SceneFields)
    requires WellFormed(f)
    ensures var newYear := DateTime(DecimalValue(f.productYear), 1, 1, 0, 0, 0);
      Fits(newYear) && Format(newYear) == NewYearText(f)
  {
    PadOfDecimalValue(f.productYear);
    assert Pad(1, 2) == "01" && Pad(0, 2) == "00";
  }

  /** The creation date, stated on the calendar: the product year's January 1 plus `julianday` days. */
  lemma CreationDateIsNewYearPlusDays(f: SceneFields)
    requires WellFormed(f)
    ensures var year := DecimalValue(f.productYear);
      CreationDate(f) ==
        if year == 0 then Failure(BadTimestamp(NewYearText(f)))
        else AddSeconds(ToSeconds(DateTime(year, 1, 1, 0, 0, 0)), DecimalValue(f.julianDay) * SecondsPerDay)
  {
    var year := DecimalValue(f.productYear);
    var newYear := DateTime(year, 1, 1, 0, 0, 0);
    NewYearTextIsFormat(f);
    ParseFieldsOfFormat(newYear);
    assert NewYearText(f)[15..] == "00";
    CrazyParseWithoutLeapSecond(NewYearText(f));
    if year != 0 {
      ParseTimestampOfFormat(newYear);
    }
  }

  /** Julian day 001 gives January 2: julian day `d` up to 030 gives January `d + 1`. */
  lemma CreationDateInJanuary(f: SceneFields)
    requires WellFormed(f) && DecimalValue(f.productYear) != 0 && DecimalValue(f.julianDay) <= 30
    ensures CreationDate(f) ==
      Success(ToSeconds(DateTime(DecimalValue(f.productYear), 1, DecimalValue(f.julianDay) + 1, 0, 0, 0)))
  {
    CreationDateIsNewYearPlusDays(f);
    var date := DateTime(DecimalValue(f.productYear), 1, DecimalValue(f.julianDay) + 1, 0, 0, 0);
    ToSecondsInRange(date);
  }
}
