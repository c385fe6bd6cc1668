/**
 * Bean validation of the create/update request body: the constraints on the request's own fields
 * and, through `@Valid`, on each day's opening and closing time.  A violation is reported as a
 * field error (property path and message); the order in which the validator reports them is
 * unspecified, so the violations form a set.
 */
module RequestValidation {
  import opened Wrappers
  import opened Calendar
  import opened Domain
  import Text

  const NameRequired := "Restaurant name is required"
  /** The message as the source spells it. */
  const CuisineTypeRequired := "Cuisine type is require"
  const ContactRequired := "Contact information is required"
  const PhotoIdsRequired := "At least one photo ID is required"
  const OpenTimeRequired := "Open time must be provided"
  const OpenTimeFormat := "Open time must be in HH:mm format"
  const CloseTimeRequired := "Close time must be provided"
  const CloseTimeFormat := "Close time must be in HH:mm format"

  /** `@NotBlank`: not null, and something other than characters up to U+0020 once trimmed. */
  predicate NotBlank(s: Option<string>) {
    s.Some? && Text.JavaTrim(s.value) != []
  }

  /** The whole value matches `^([01]?[0-9]|2[0-3]):[0-5][0-9]$`. */
  predicate MatchesTimePattern(s: string) {
    || (|s| == 4 && Text.IsDigit(s[0]) && s[1] == ':' && '0' <= s[2] <= '5' && Text.IsDigit(s[3]))
    || (&& |s| == 5
        && ((('0' <= s[0] <= '1') && Text.IsDigit(s[1])) || (s[0] == '2' && '0' <= s[1] <= '3'))
        && s[2] == ':' && '0' <= s[3] <= '5' && Text.IsDigit(s[4]))
  }

  function Digit(n: int): (c: char)
    requires 0 <= n < 10
    ensures Text.IsDigit(c) && c as int - '0' as int == n
  {
    ('0' as int + n) as char
  }

  /** A time of day written as the pattern intends: the hour with or without a leading zero, then two-digit minutes. */
  function RenderTime(hour: int, minute: int, padded: bool): string
    requires 0 <= hour < 24 && 0 <= minute < 60
  {
    (if padded || hour >= 10 then [Digit(hour / 10), Digit(hour % 10)] else [Digit(hour)])
      + [':', Digit(minute / 10), Digit(minute % 10)]
  }

  /** The pattern accepts exactly the renderings of a time of day from 0:00 to 23:59. */
  lemma TimePatternMeaning(s: string)
    ensures MatchesTimePattern(s) <==>
      exists hour, minute, padded | 0 <= hour < 24 && 0 <= minute < 60 :: s == RenderTime(hour, minute, padded)
  {
    if MatchesTimePattern(s) {
      var n := |s|;
      var minute := (s[n - 2] as int - '0' as int) * 10 + (s[n - 1] as int - '0' as int);
      assert Digit(minute / 10) == s[n - 2] && Digit(minute % 10) == s[n - 1];
      if n == 4 {
        var hour := s[0] as int - '0' as int;
        assert s == RenderTime(hour, minute, false);
      } else {
        var hour := (s[0] as int - '0' as int) * 10 + (s[1] as int - '0' as int);
        assert Digit(hour / 10) == s[0] && Digit(hour % 10) == s[1];
        assert s == RenderTime(hour, minute, true);
      }
    }
    if exists hour, minute, padded | 0 <= hour < 24 && 0 <= minute < 60 :: s == RenderTime(hour, minute, padded) {
      var hour, minute, padded :| 0 <= hour < 24 && 0 <= minute < 60 && s == RenderTime(hour, minute, padded);
      RenderedTimeMatches(hour, minute, padded);
    }
  }

  /** Both "8:30" and "08:30" are accepted; "24:00", "12:5" and "12:60" are not. */
  lemma TimePatternExamples()
    ensures MatchesTimePattern("8:30") && MatchesTimePattern("08:30")
    ensures !MatchesTimePattern("24:00") && !MatchesTimePattern("12:5") && !MatchesTimePattern("12:60")
  {
  }

  lemma RenderedTimeMatches(hour: int, minute: int, padded: bool)
    requires 0 <= hour < 24 && 0 <= minute < 60
    ensures MatchesTimePattern(RenderTime(hour, minute, padded))
  {
    var s := RenderTime(hour, minute, padded);
    if padded || hour >= 10 {
      assert s[0] == Digit(hour / 10) && s[1] == Digit(hour % 10);
      assert hour / 10 < 2 || (hour / 10 == 2 && hour % 10 <= 3);
    }
  }

  /** `e` when its constraint fails, nothing when it holds. */
  function Report(holds: bool, e: FieldError): (r: set<FieldError>)
    ensures e in r <==> !holds
    ensures forall x | x in r :: x == e
  {
    if holds then {} else {e}
  }

  /** The violations of one time field: missing when null or blank, malformed when present and not matching. */
  function TimeViolations(field: string, time: Option<string>, required: string, format: string): (r: set<FieldError>)
    requires required != format
    ensures FieldError(field, required) in r <==> !NotBlank(time)
    ensures FieldError(field, format) in r <==> time.Some? && !MatchesTimePattern(time.value)
    ensures forall e | e in r :: e.field == field
  {
    Report(NotBlank(time), FieldError(field, required))
    + Report(time.None? || MatchesTimePattern(time.value), FieldError(field, format))
  }

  /** The violations of one day's time range, under the property path `path`. */
  function TimeRangeViolations(path: string, range: TimeRange): (r: set<FieldError>)
    ensures FieldError(path + ".openTime", OpenTimeRequired) in r <==> !NotBlank(range.openTime)
    ensures FieldError(path + ".openTime", OpenTimeFormat) in r <==> range.openTime.Some? && !MatchesTimePattern(range.openTime.value)
    ensures FieldError(path + ".closeTime", CloseTimeRequired) in r <==> !NotBlank(range.closeTime)
    ensures FieldError(path + ".closeTime", CloseTimeFormat) in r <==> range.closeTime.Some? && !MatchesTimePattern(range.closeTime.value)
  {
    assert OpenTimeRequired[18] != OpenTimeFormat[18] && CloseTimeRequired[19] != CloseTimeFormat[19];
    var open, close := path + ".openTime", path + ".closeTime";
    assert |open| != |close|;
    TimeViolations(open, range.openTime, OpenTimeRequired, OpenTimeFormat)
    + TimeViolations(close, range.closeTime, CloseTimeRequired, CloseTimeFormat)
  }

  /** A well-formed time is never blank, so one time field is valid exactly when it matches the pattern. */
  lemma TimeValid(field: string, time: Option<string>, required: string, format: string)
    requires required != format
    ensures TimeViolations(field, time, required, format) == {} <==> time.Some? && MatchesTimePattern(time.value)
  {
    if time.Some? && MatchesTimePattern(time.value) {
      MatchingTimeNotBlank(time.value);
    }
    if TimeViolations(field, time, required, format) == {} {
      assert FieldError(field, required) !in TimeViolations(field, time, required, format);
    }
  }

  /** A valid range is one where both times match the pattern. */
  lemma TimeRangeValid(path: string, range: TimeRange)
    ensures TimeRangeViolations(path, range) == {} <==>
      range.openTime.Some? && MatchesTimePattern(range.openTime.value) && range.closeTime.Some? && MatchesTimePattern(range.closeTime.value)
  {
    assert OpenTimeRequired[18] != OpenTimeFormat[18] && CloseTimeRequired[19] != CloseTimeFormat[19];
    var open := TimeViolations(path + ".openTime", range.openTime, OpenTimeRequired, OpenTimeFormat);
    var close := TimeViolations(path + ".closeTime", range.closeTime, CloseTimeRequired, CloseTimeFormat);
    TimeValid(path + ".openTime", range.openTime, OpenTimeRequired, OpenTimeFormat);
    TimeValid(path + ".closeTime", range.closeTime, CloseTimeRequired, CloseTimeFormat);
    assert TimeRangeViolations(path, range) == open + close;
  }

  lemma MatchingTimeNotBlank(s: string)
    requires MatchesTimePattern(s)
    ensures Text.JavaTrim(s) != []
  {
    var colon := if |s| == 4 then 1 else 2;
    assert s[colon] == ':' && !Text.IsJavaTrimmable(s[colon]);
    Text.JavaTrimEmpty(s);
  }

  /** A null time is reported once, as missing; a blank one both as missing and as malformed. */
  lemma MissingAndBlankTimes(path: string, blank: string, close: Option<string>)
    requires forall i | 0 <= i < |blank| :: Text.IsJavaTrimmable(blank[i])
    ensures var r := TimeRangeViolations(path, TimeRange(None, close));
      FieldError(path + ".openTime", OpenTimeRequired) in r && FieldError(path + ".openTime", OpenTimeFormat) !in r
    ensures var r := TimeRangeViolations(path, TimeRange(Some(blank), close));
      FieldError(path + ".openTime", OpenTimeRequired) in r && FieldError(path + ".openTime", OpenTimeFormat) in r
  {
    Text.JavaTrimEmpty(blank);
    if MatchesTimePattern(blank) {
      MatchingTimeNotBlank(blank);
    }
  }

  /** Opening after closing is not a violation: "23:00" to "01:00" is a valid range. */
  lemma OpenAfterCloseAccepted(path: string)
    ensures TimeRangeViolations(path, TimeRange(Some("23:00"), Some("01:00"))) == {}
  {
    RenderedTimeMatches(23, 0, true);
    RenderedTimeMatches(1, 0, true);
    assert RenderTime(23, 0, true) == "23:00" && RenderTime(1, 0, true) == "01:00";
    TimeRangeValid(path, TimeRange(Some("23:00"), Some("01:00")));
  }

  function DayPath(d: Weekday): string {
    "operatingHours." + DayKey(d)
  }

  /** The violations of every day that has a range; a day without one is not validated. */
  function HoursViolations(hours: OperatingHours): set<FieldError> {
    set d, e | d in hours && e in TimeRangeViolations(DayPath(d), hours[d]) :: e
  }

  /** The violations of the request's own fields: each is reported exactly when its constraint fails. */
  function FieldViolations(request: CreateUpdateRequest): (r: set<FieldError>)
    ensures FieldError("name", NameRequired) in r <==> !NotBlank(request.name)
    ensures FieldError("cuisineType", CuisineTypeRequired) in r <==> !NotBlank(request.cuisineType)
    ensures FieldError("contactInformation", ContactRequired) in r <==> !NotBlank(request.contactInformation)
    ensures FieldError("photoIds", PhotoIdsRequired) in r <==> request.photoIds == Some([])
    ensures r == {} <==>
      NotBlank(request.name) && NotBlank(request.cuisineType) && NotBlank(request.contactInformation)
      && request.photoIds != Some([])
  {
    var name := Report(NotBlank(request.name), FieldError("name", NameRequired));
    var cuisine := Report(NotBlank(request.cuisineType), FieldError("cuisineType", CuisineTypeRequired));
    var contact := Report(NotBlank(request.contactInformation), FieldError("contactInformation", ContactRequired));
    var photos := Report(request.photoIds != Some([]), FieldError("photoIds", PhotoIdsRequired));
    name + cuisine + contact + photos
  }

  /**
   * The violations of a request body: its own fields', then, through `@Valid`, the address's and
   * each given day's.  The address's violations, `addressViolations`, come from the address DTO's
   * own constraints, which are not part of this model.
   */
  function Violations(request: CreateUpdateRequest, addressViolations: set<FieldError>): (r: set<FieldError>)
    ensures FieldViolations(request) <= r
    ensures request.address.Some? ==> addressViolations <= r
    ensures request.address.None? && request.operatingHours.None? ==> r == FieldViolations(request)
  {
    FieldViolations(request)
    + (if request.address.Some? then addressViolations else {})
    + (if request.operatingHours.Some? then HoursViolations(request.operatingHours.value) else {})
  }

  /** The rule as a reader of the constraints states it, field by field. */
  predicate WellFormed(request: CreateUpdateRequest, addressViolations: set<FieldError>) {
    && NotBlank(request.name) && NotBlank(request.cuisineType) && NotBlank(request.contactInformation)
    && (request.photoIds.None? || |request.photoIds.value| >= 1)
    && (request.address.Some? ==> addressViolations == {})
    && (request.operatingHours.Some? ==>
          forall d | d in request.operatingHours.value ::
            var range := request.operatingHours.value[d];
            range.openTime.Some? && MatchesTimePattern(range.openTime.value)
            && range.closeTime.Some? && MatchesTimePattern(range.closeTime.value))
  }

  /**
   * A request passes validation exactly when it is well formed.  In particular a null photo id
   * list, a null address and null hours all pass, and so does a day left out of the hours.
   */
  lemma ValidExactlyWhenWellFormed(request: CreateUpdateRequest, addressViolations: set<FieldError>)
    ensures Violations(request, addressViolations) == {} <==> WellFormed(request, addressViolations)
  {
    if request.operatingHours.Some? {
      var hours := request.operatingHours.value;
      forall d | d in hours
        ensures TimeRangeViolations(DayPath(d), hours[d]) == {} <==>
          hours[d].openTime.Some? && MatchesTimePattern(hours[d].openTime.value)
          && hours[d].closeTime.Some? && MatchesTimePattern(hours[d].closeTime.value)
      {
        TimeRangeValid(DayPath(d), hours[d]);
      }
      if HoursViolations(hours) == {} {
        forall d | d in hours ensures TimeRangeViolations(DayPath(d), hours[d]) == {} {
          if e :| e in TimeRangeViolations(DayPath(d), hours[d]) {
            assert e in HoursViolations(hours);
          }
        }
      }
    }
  }
}
