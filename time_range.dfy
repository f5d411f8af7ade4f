/**
 * The recurrence codec of `TimeRangeExt`: a granularity anchored at an instant
 * becomes a six-field, seconds-first cron string; a cron string is classified
 * back into a granularity; and a granularity maps to and from a `TimeSpan`.
 *
 * Thrown exceptions are `Fail` results.
 */
module TimeRangeExt {
  import opened Wrappers
  import opened Errors
  import opened Text
  import opened Calendar
  import D = Domain

  // ----- TimeRange -> cron ---------------------------------------------------

  /** The six fields printed for a granularity other than `None`, anchored at `t`. */
  function CronFields(g: D.TimeRange, t: nat): (fields: seq<string>)
    requires g != D.None
    ensures |fields| == 6
    ensures forall i :: 0 <= i < 6 ==> IsField(fields[i], ' ')
  {
    var s, m, h := NatToString(Second(t)), NatToString(Minute(t)), NatToString(Hour(t));
    var step := NatToString(Minute(t) % 15) + "/15";
    DigitsAreField(s);
    DigitsAreField(m);
    DigitsAreField(h);
    DigitsAreField(NatToString(DayOfWeek(t)));
    DigitsAreField(NatToString(Day(t)));
    DigitsAreField(NatToString(Minute(t) % 15));
    assert IsField(step, ' ');
    match g
    case Min15 => [s, step, "*", "*", "*", "*"]
    case Hour => [s, m, "*", "*", "*", "*"]
    case Day => [s, m, h, "*", "*", "*"]
    case Week => [s, m, h, "*", "*", NatToString(DayOfWeek(t))]
    case Month => [s, m, h, NatToString(Day(t)), "*", "*"]
  }

  /**
   * `ToCronExpression(timeRange, time)`: `None` for `TimeRange.None`, otherwise
   * the fields joined by single spaces, which split back into exactly those fields.
   */
  function ToCronExpression(g: D.TimeRange, t: nat): (r: Option<string>)
    ensures r.None? <==> g == D.None
    ensures r.Some? ==> Split(r.value, ' ') == CronFields(g, t)
  {
    if g == D.None then None
    else
      var fields := CronFields(g, t);
      SplitJoin(fields, ' ');
      Some(Join(fields, ' '))
  }

  /**
   * The printed fields come from the anchor's second, minute, hour, day of week and
   * day; a Min15 minute field is an offset in 0..14 followed by "/15".
   */
  lemma CronFieldValues(g: D.TimeRange, t: nat)
    requires g != D.None
    ensures CronFields(g, t)[0] == NatToString(Second(t))
    ensures g == D.Min15 ==> exists k :: 0 <= k < 15 && CronFields(g, t)[1] == NatToString(k) + "/15"
    ensures g != D.Min15 ==> CronFields(g, t)[1] == NatToString(Minute(t))
    ensures g in {D.Day, D.Week, D.Month} ==> CronFields(g, t)[2] == NatToString(Hour(t))
    ensures g == D.Week ==> CronFields(g, t)[5] == NatToString(DayOfWeek(t))
    ensures g == D.Month ==> CronFields(g, t)[3] == NatToString(Day(t))
  {
    if g == D.Min15 {
      var k := Minute(t) % 15;
      assert CronFields(g, t)[1] == NatToString(k) + "/15";
    }
  }

  // ----- cron -> TimeRange ---------------------------------------------------

  predicate IsStar(f: string) {
    f == "*"
  }

  /** The granularity of six cron fields, by the first matching pattern. */
  function Classify(parts: seq<string>): (r: Result<D.TimeRange, Exception>)
    requires |parts| == 6
    ensures r.Fail? <==> !IsStar(parts[4]) || (!IsStar(parts[3]) && !IsStar(parts[5]))
    ensures r.Fail? ==> r.error == ArgumentException
    ensures r.Ok? ==> r.value != D.None
  {
    var isMin15 := Contains(parts[1], "/15") && IsStar(parts[2]) && IsStar(parts[3]) && IsStar(parts[4]) && IsStar(parts[5]);
    var isHour := IsStar(parts[2]) && IsStar(parts[3]) && IsStar(parts[4]) && IsStar(parts[5]);
    var isDay := IsStar(parts[3]) && IsStar(parts[4]) && IsStar(parts[5]);
    var isWeek := IsStar(parts[3]) && IsStar(parts[4]);
    var isMonth := IsStar(parts[4]) && IsStar(parts[5]);
    if isMin15 then Ok(D.Min15)
    else if isHour then Ok(D.Hour)
    else if isDay then Ok(D.Day)
    else if isWeek then Ok(D.Week)
    else if isMonth then Ok(D.Month)
    else Fail(ArgumentException)
  }

  /**
   * `ToTimeRange(string?)`: `None` for a null or empty string; otherwise the string
   * must split on spaces (empty entries dropped) into six fields, classified by
   * `Classify`; any other field count throws `ArgumentException`.
   */
  function ToTimeRange(cron: Option<string>): (r: Result<D.TimeRange, Exception>)
    ensures r == Ok(D.None) <==> cron.None? || cron.value == ""
    ensures r.Fail? ==> r.error == ArgumentException
    ensures r.Fail? <==> (cron.Some? && cron.value != "" &&
      var parts := Split(cron.value, ' ');
      |parts| != 6 || !IsStar(parts[4]) || (!IsStar(parts[3]) && !IsStar(parts[5])))
  {
    if cron.None? || cron.value == "" then Ok(D.None)
    else
      var parts := Split(cron.value, ' ');
      if |parts| != 6 then Fail(ArgumentException) else Classify(parts)
  }

  lemma DigitsAreNotStar(s: string)
    requires |s| > 0 && AllDigits(s)
    ensures !IsStar(s)
  {
    assert IsDigit(s[0]);
  }

  /** Classifying the printed cron string of `g` gives `g` back, for every anchor. */
  lemma CronRoundTrip(g: D.TimeRange, t: nat)
    ensures ToTimeRange(ToCronExpression(g, t)) == Ok(g)
  {
    if g != D.None {
      var cron := ToCronExpression(g, t);
      var parts := CronFields(g, t);
      assert Split(cron.value, ' ') == parts;
      assert cron.value != "" by {
        assert Split("", ' ') == [];
      }
      var m, h := NatToString(Minute(t)), NatToString(Hour(t));
      DigitsAreNotStar(h);
      DigitsAreNotStar(NatToString(DayOfWeek(t)));
      DigitsAreNotStar(NatToString(Day(t)));
      if g == D.Min15 {
        ContainsSuffix(NatToString(Minute(t) % 15), "/15");
      } else {
        DigitsContainNoSlash(m, "/15");
      }
      assert ToTimeRange(cron) == Classify(parts);
    }
  }

  /** The five-field "* * * * *" that the doc comment maps to None actually throws. */
  lemma FiveFieldCronThrows()
    ensures ToTimeRange(Some("* * * * *")) == Fail(ArgumentException)
  {
    var parts := ["*", "*", "*", "*", "*"];
    forall i | 0 <= i < |parts| ensures IsField(parts[i], ' ') {}
    SplitJoin(parts, ' ');
    assert Join(parts, ' ') == "* * * * *";
  }

  /** A field list where the Min15 and the Hour patterns both match is Min15; with no "/15" it is Hour. */
  lemma ClassifyPrecedence(parts: seq<string>)
    requires |parts| == 6 && IsStar(parts[2]) && IsStar(parts[3]) && IsStar(parts[4]) && IsStar(parts[5])
    ensures Classify(parts) == (if Contains(parts[1], "/15") then Ok(D.Min15) else Ok(D.Hour))
  {
  }

  // ----- TimeRange <-> TimeSpan ----------------------------------------------

  /** `ToTimeSpan`: 0, 15 minutes, 1 hour, 1 day, 7 days, 30 days. */
  function ToTimeSpan(g: D.TimeRange): (span: int)
    ensures span >= 0
    ensures span == 0 <==> g == D.None
    ensures span <= 30 * TicksPerDay
  {
    match g
    case None => 0
    case Min15 => 15 * TicksPerMinute
    case Hour => TicksPerHour
    case Day => TicksPerDay
    case Week => 7 * TicksPerDay
    case Month => 30 * TicksPerDay
  }

  /** A coarser granularity is a strictly longer span. */
  lemma ToTimeSpanMonotone(a: D.TimeRange, b: D.TimeRange)
    ensures D.Value(a) < D.Value(b) <==> ToTimeSpan(a) < ToTimeSpan(b)
  {
  }

  /** C#'s `long` division and remainder, which truncate toward zero. */
  function TruncDiv(a: int, b: nat): (q: int)
    requires b > 0
    ensures a >= 0 ==> q == a / b
    ensures a < 0 ==> q == -((-a) / b)
  {
    if a >= 0 then a / b else -((-a) / b)
  }

  function TruncRem(a: int, b: nat): (r: int)
    requires b > 0
    ensures -(b as int) < r < b
    ensures a >= 0 ==> r >= 0
    ensures a < 0 ==> r <= 0
  {
    a - b * TruncDiv(a, b)
  }

  /** The `Minutes`, `Hours` and `Days` components of a `TimeSpan`. */
  datatype Components = Components(minutes: int, hours: int, days: int)

  function SpanComponents(span: int): (c: Components)
    ensures -60 < c.minutes < 60 && -24 < c.hours < 24
    ensures span >= 0 ==> c.minutes >= 0 && c.hours >= 0 && c.days >= 0
  {
    Components(TruncRem(TruncDiv(span, TicksPerMinute), 60),
               TruncRem(TruncDiv(span, TicksPerHour), 24),
               TruncDiv(span, TicksPerDay))
  }

  /** More than one component is non-zero. */
  predicate Mixed(c: Components) {
    (c.minutes != 0 && c.hours != 0) || (c.minutes != 0 && c.days != 0) || (c.hours != 0 && c.days != 0)
  }

  /** The switch on `(Minutes, Hours, Days)`, first matching arm wins. */
  function ClassifySpan(c: Components): (r: Result<D.TimeRange, Exception>)
    ensures r.Fail? <==> Mixed(c) || c.minutes > 15 || c.hours > 1 || c.days > 30
    ensures r.Fail? ==> r.error == ArgumentException
    ensures r == Ok(D.None) <==> c == Components(0, 0, 0)
  {
    if c.minutes == 0 && c.hours == 0 && c.days == 0 then Ok(D.None)
    else if c.minutes <= 15 && c.hours == 0 && c.days == 0 then Ok(D.Min15)
    else if c.minutes == 0 && c.hours <= 1 && c.days == 0 then Ok(D.Hour)
    else if c.minutes == 0 && c.hours == 0 && c.days <= 1 then Ok(D.Day)
    else if c.minutes == 0 && c.hours == 0 && c.days <= 7 then Ok(D.Week)
    else if c.minutes == 0 && c.hours == 0 && c.days <= 30 then Ok(D.Month)
    else Fail(ArgumentException)
  }

  /**
   * `ToTimeRange(TimeSpan)`: classifies the span by its minutes, hours and days
   * components only; seconds and smaller units are ignored.
   */
  function SpanToTimeRange(span: int): (r: Result<D.TimeRange, Exception>)
    ensures r.Fail? ==> r.error == ArgumentException
    ensures r.Fail? <==> (var c := SpanComponents(span);
      Mixed(c) || c.minutes > 15 || c.hours > 1 || c.days > 30)
    ensures r == Ok(D.None) <==> SpanComponents(span) == Components(0, 0, 0)
  {
    ClassifySpan(SpanComponents(span))
  }

  /** Converting a granularity to its span and back gives the granularity. */
  lemma SpanRoundTrip(g: D.TimeRange)
    ensures SpanToTimeRange(ToTimeSpan(g)) == Ok(g)
  {
    match g
    case None => SpanRoundTripOf(g, 0, 0, 0);
    case Min15 => SpanRoundTripOf(g, 15, 0, 0);
    case Hour => SpanRoundTripOf(g, 0, 1, 0);
    case Day => SpanRoundTripOf(g, 0, 0, 1);
    case Week => SpanRoundTripOf(g, 0, 0, 7);
    case Month => SpanRoundTripOf(g, 0, 0, 30);
  }

  lemma SpanRoundTripOf(g: D.TimeRange, minutes: nat, hours: nat, days: nat)
    requires minutes < 60 && hours < 24
    requires ToTimeSpan(g) == minutes * TicksPerMinute + hours * TicksPerHour + days * TicksPerDay
    requires ClassifySpan(Components(minutes, hours, days)) == Ok(g)
    ensures SpanToTimeRange(ToTimeSpan(g)) == Ok(g)
  {
    SpanOf(minutes, hours, days);
  }

  /** A non-negative span built from whole minutes, hours and days has those components. */
  lemma SpanOf(minutes: nat, hours: nat, days: nat)
    requires minutes < 60 && hours < 24
    ensures SpanComponents(minutes * TicksPerMinute + hours * TicksPerHour + days * TicksPerDay)
         == Components(minutes, hours, days)
  {
    var span := minutes * TicksPerMinute + hours * TicksPerHour + days * TicksPerDay;
    var totalMinutes := minutes + 60 * hours + 1440 * days;
    var totalHours := hours + 24 * days;
    DivUnique(span, TicksPerMinute, totalMinutes, 0);
    ModUnique(totalMinutes, 60, totalHours, minutes);
    DivUnique(span, TicksPerHour, totalHours, minutes * TicksPerMinute);
    ModUnique(totalHours, 24, days, hours);
    DivUnique(span, TicksPerDay, days, hours * TicksPerHour + minutes * TicksPerMinute);
  }

  /** A span under one minute classifies as None: its seconds are not inspected. */
  lemma SecondsAreIgnored(span: int)
    requires 0 <= span < TicksPerMinute
    ensures SpanToTimeRange(span) == Ok(D.None)
  {
    DivUnique(span, TicksPerMinute, 0, span);
    DivUnique(span, TicksPerHour, 0, span);
    DivUnique(span, TicksPerDay, 0, span);
  }

  /** A span of one hour and fifteen minutes mixes two components and throws. */
  lemma MixedSpanThrows()
    ensures SpanToTimeRange(TicksPerHour + 15 * TicksPerMinute) == Fail(ArgumentException)
  {
    SpanOf(15, 1, 0);
  }
}
