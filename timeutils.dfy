/** Datetimes as the program uses them. A datetime is a wall-clock reading,
    in seconds since 0001-01-01 00:00, together with its UTC offset in
    seconds, or no offset for a naive value. Beijing time (Asia/Shanghai)
    is the fixed offset UTC+8. An instant is a UTC reading in the same
    seconds. */
module TimeUtils {
  import opened Wrappers
  import opened Text
  import opened Calendar

  const SecondsPerDay: int := 86400
  const BeijingOffset: int := 28800

  datatype DateTime = DateTime(wall: int, offset: Option<int>)

  predicate Aware(dt: DateTime) { dt.offset.Some? }

  /** The UTC instant of an aware datetime. */
  function InstantOf(dt: DateTime): int
    requires Aware(dt)
  {
    dt.wall - dt.offset.value
  }

  /** `dt.replace(tzinfo=BEIJING_TZ)` when `dt` is naive (`parse_date`). */
  function AttachBeijing(dt: DateTime): (r: DateTime)
    ensures Aware(r)
    ensures Aware(dt) ==> r == dt
    ensures !Aware(dt) ==> r.wall == dt.wall && r.offset == Some(BeijingOffset)
  {
    if dt.offset.None? then DateTime(dt.wall, Some(BeijingOffset)) else dt
  }

  /** `to_beijing`: a naive value is read as UTC, then the reading is moved
      to Beijing time. */
  function ToBeijing(dt: DateTime): (r: DateTime)
    ensures r.offset == Some(BeijingOffset)
    ensures InstantOf(r) == (if Aware(dt) then InstantOf(dt) else dt.wall)
  {
    var utc := if dt.offset.None? then dt.wall else dt.wall - dt.offset.value;
    DateTime(utc + BeijingOffset, Some(BeijingOffset))
  }

  /** Day number of the Beijing calendar day holding an instant. */
  function BeijingDay(t: int): int {
    (t + BeijingOffset) / SecondsPerDay
  }

  /** A later instant never falls on an earlier Beijing day. */
  lemma BeijingDayMono(a: int, b: int)
    requires a <= b
    ensures BeijingDay(a) <= BeijingDay(b)
  {
    var x, y, k := a + BeijingOffset, b + BeijingOffset, SecondsPerDay;
    var qx, qy := x / k, y / k;
    assert x == qx * k + x % k && y == qy * k + y % k;
    assert qx * k - qy * k == (qx - qy) * k;
    if qy < qx {
      MulAtLeastOnce(qx - qy, k);
      assert false;
    }
  }

  /** The instant of Beijing midnight starting a day (`strptime(...).replace(tzinfo=BEIJING_TZ)`). */
  function BeijingMidnight(d: Date): (t: int)
    requires ValidDate(d)
    ensures BeijingDay(t) == DayNumber(d)
  {
    DayNumber(d) * SecondsPerDay - BeijingOffset
  }

  /** An instant whose Beijing date lies in years 1 to 9999. */
  predicate InDateRange(t: int) {
    0 <= BeijingDay(t) < MaxDay
  }

  /** The Beijing calendar date of an instant (`to_beijing(dt).date()`). */
  function BeijingDate(t: int): (d: Date)
    requires InDateRange(t)
    ensures ValidDate(d)
  {
    FromDayNumber(BeijingDay(t))
  }

  /** `format_date_for_path` for an instant. */
  function PathDate(t: int): (s: string)
    requires InDateRange(t)
    ensures |s| == 8 && AllDigits(s)
  {
    FormatYmd(BeijingDate(t))
  }

  /** `format_date_for_path`: format the Beijing date of the reading, a
      naive reading counting as UTC. */
  function FormatDateForPath(dt: DateTime): (s: string)
    requires InDateRange(InstantOf(ToBeijing(dt)))
    ensures Aware(dt) ==> s == PathDate(InstantOf(dt))
    ensures !Aware(dt) ==> s == PathDate(dt.wall)
  {
    PathDate(InstantOf(ToBeijing(dt)))
  }

  /** The Beijing midnight of a date lies on that date. */
  lemma BeijingDateOfMidnight(d: Date)
    requires ValidDate(d)
    ensures InDateRange(BeijingMidnight(d)) && BeijingDate(BeijingMidnight(d)) == d
  {
    FromDayNumberOfDayNumber(d);
  }

  /** A datetime whose own calendar date lies in years 1 to 9999, as every
      Python `datetime` does. */
  predicate Representable(dt: DateTime) {
    0 <= dt.wall < MaxDay * SecondsPerDay
  }

  /** `dt.date()`: the calendar date of the wall-clock reading. */
  function DateOf(dt: DateTime): (d: Date)
    requires Representable(dt)
    ensures ValidDate(d) && DayNumber(d) == dt.wall / SecondsPerDay
  {
    FromDayNumber(dt.wall / SecondsPerDay)
  }

  /** Beijing midnight of a date as the aware datetime `parse_date` gives
      for it; its own date is that date. */
  function BeijingMidnightOf(d: Date): (dt: DateTime)
    requires ValidDate(d)
    ensures Aware(dt) && Representable(dt) && DateOf(dt) == d && InstantOf(dt) == BeijingMidnight(d)
  {
    var n := DayNumber(d);
    var dt := DateTime(n * SecondsPerDay, Some(BeijingOffset));
    assert dt.wall / SecondsPerDay == n;
    FromDayNumberOfDayNumber(d);
    dt
  }

  /** Two digits at `s[i..i+2]`. */
  function Two(s: string, i: nat): Option<int>
    requires i + 2 <= |s|
  {
    if AllDigits(s[i..i + 2]) then Some(DigitsValue(s[i..i + 2])) else None
  }

  /** `datetime.fromisoformat` for `YYYY-MM-DD`, optionally followed by one
      separator character and `HH:MM:SS`, optionally followed by a UTC
      offset `+HH:MM` or `-HH:MM`. */
  function FromIsoFormat(s: string): (r: Result<DateTime>)
    ensures r.Ok? ==> Representable(r.value)
  {
    var bad := Err(ValueError("Invalid isoformat string"));
    if |s| < 10 then bad
    else
      match ParseIso(s[..10])
      case None => bad
      case Some(d) =>
        var day := DayNumber(d) * SecondsPerDay;
        assert (DayNumber(d) + 1) * SecondsPerDay <= MaxDay * SecondsPerDay;
        if |s| == 10 then Ok(DateTime(day, None))
        else if |s| != 19 && |s| != 25 then bad
        else if s[13] != ':' || s[16] != ':' then bad
        else
          var h, m, sec := Two(s, 11), Two(s, 14), Two(s, 17);
          if h.None? || m.None? || sec.None? || h.value >= 24 || m.value >= 60 || sec.value >= 60 then bad
          else
            var wall := day + h.value * 3600 + m.value * 60 + sec.value;
            if |s| == 19 then Ok(DateTime(wall, None))
            else if (s[19] != '+' && s[19] != '-') || s[22] != ':' then bad
            else
              var oh, om := Two(s, 20), Two(s, 23);
              if oh.None? || om.None? || oh.value >= 24 || om.value >= 60 then bad
              else
                var off := oh.value * 3600 + om.value * 60;
                Ok(DateTime(wall, Some(if s[19] == '-' then -off else off)))
  }

  /** `parse_date`: parse, then give a naive value the Beijing zone. */
  function ParseDate(s: string): (r: Result<DateTime>)
    ensures r.Ok? ==> Aware(r.value) && Representable(r.value)
  {
    match FromIsoFormat(s)
    case Err(e) => Err(e)
    case Ok(dt) => Ok(AttachBeijing(dt))
  }

  /** A parsed date-only text is Beijing midnight of that date, and an
      explicit offset is kept. */
  lemma ParseDateSpec(s: string)
    ensures FromIsoFormat(s).Ok? <==> ParseDate(s).Ok?
    ensures FromIsoFormat(s).Ok? && Aware(FromIsoFormat(s).value) ==> ParseDate(s) == FromIsoFormat(s)
    ensures |s| == 10 && ParseIso(s).Some? ==>
      ParseDate(s) == Ok(DateTime(DayNumber(ParseIso(s).value) * SecondsPerDay, Some(BeijingOffset)))
      && InstantOf(ParseDate(s).value) == BeijingMidnight(ParseIso(s).value)
  {
    if |s| == 10 { assert s[..10] == s; }
  }

  /** Formatting a date and parsing it with `parse_date` gives Beijing midnight. */
  lemma ParseDateOfIso(d: Date)
    requires ValidDate(d)
    ensures ParseDate(FormatIso(d)).Ok?
    ensures InstantOf(ParseDate(FormatIso(d)).value) == BeijingMidnight(d)
    ensures ParseDate(FormatIso(d)) == Ok(BeijingMidnightOf(d))
  {
    ParseFormatIso(d);
    ParseDateSpec(FormatIso(d));
  }

  /** Python's `a < b` on datetimes: naive and aware values do not compare. */
  function Less(a: DateTime, b: DateTime): (r: Result<bool>)
    ensures r.Ok? <==> Aware(a) == Aware(b)
  {
    if Aware(a) != Aware(b) then Err(Exc("TypeError", "can't compare offset-naive and offset-aware datetimes"))
    else if Aware(a) then Ok(InstantOf(a) < InstantOf(b))
    else Ok(a.wall < b.wall)
  }

  /** `min(a, b)`: `b` when it is strictly earlier, otherwise `a`. */
  function Min(a: DateTime, b: DateTime): (r: Result<DateTime>)
    ensures r.Ok? <==> Aware(a) == Aware(b)
    ensures r.Ok? ==> r.value == a || r.value == b
    ensures r.Ok? && Aware(a) ==> InstantOf(r.value) <= InstantOf(a) && InstantOf(r.value) <= InstantOf(b)
    ensures r.Ok? && !Aware(a) ==> r.value.wall <= a.wall && r.value.wall <= b.wall
  {
    match Less(b, a)
    case Err(e) => Err(e)
    case Ok(lt) => Ok(if lt then b else a)
  }

  datatype DateRange = DateRange(start: DateTime, end: DateTime)

  /** `DateRange.clip_end`: the start is kept and the end becomes the earlier
      of the two ends. */
  function ClipEnd(r: DateRange, e: DateTime): (o: Result<DateRange>)
    ensures o.Ok? <==> Aware(r.end) == Aware(e)
    ensures o.Ok? ==> o.value.start == r.start && o.value.end == Min(r.end, e).value
  {
    match Min(r.end, e)
    case Err(x) => Err(x)
    case Ok(m) => Ok(DateRange(r.start, m))
  }

  /** Clipping twice at the same end is clipping once. */
  lemma ClipEndIdempotent(r: DateRange, e: DateTime)
    requires ClipEnd(r, e).Ok?
    ensures ClipEnd(ClipEnd(r, e).value, e) == ClipEnd(r, e)
  {
  }

  /** `default_date_range(days)`, given the current Beijing time. */
  function DefaultDateRange(now: DateTime, days: int): (r: DateRange)
    ensures r.end == now && r.start.offset == now.offset
    ensures r.end.wall - r.start.wall == days * SecondsPerDay
  {
    DateRange(DateTime(now.wall - days * SecondsPerDay, now.offset), now)
  }
}
