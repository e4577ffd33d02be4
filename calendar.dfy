/** Proleptic Gregorian dates and times as Python's datetime holds them:
    years 1 to 9999, the day after, the day before, and the observing day of
    an instant (the date ten hours earlier, Hawaii standard time). */
module Calendar {
  import opened Common

  datatype Date = Date(year: int, month: nat, day: nat)

  datatype DateTime = DateTime(date: Date, hour: nat, minute: nat, second: nat)

  /** datetime.MINYEAR and datetime.MAXYEAR. */
  const MinYear: int := 1
  const MaxYear: int := 9999

  predicate IsLeap(y: int) {
    y % 4 == 0 && (y % 100 != 0 || y % 400 == 0)
  }

  function DaysInMonth(y: int, m: nat): (r: nat)
    requires 1 <= m <= 12
    ensures 28 <= r <= 31
  {
    if m == 2 then (if IsLeap(y) then 29 else 28)
    else if m == 4 || m == 6 || m == 9 || m == 11 then 30
    else 31
  }

  /** A month and day that exist in the date's year, whatever the year. */
  predicate InCalendar(d: Date) {
    1 <= d.month <= 12 && 1 <= d.day <= DaysInMonth(d.year, d.month)
  }

  /** A value datetime.date accepts. */
  predicate ValidDate(d: Date) {
    MinYear <= d.year <= MaxYear && InCalendar(d)
  }

  /** A value datetime.datetime accepts (no fractional seconds). */
  predicate ValidDateTime(t: DateTime) {
    ValidDate(t.date) && t.hour < 24 && t.minute < 60 && t.second < 60
  }

  /** Calendar order. */
  predicate Before(d: Date, e: Date) {
    d.year < e.year || (d.year == e.year && (d.month < e.month || (d.month == e.month && d.day < e.day)))
  }

  function NextDay(d: Date): (r: Date)
    requires InCalendar(d)
    ensures InCalendar(r)
  {
    if d.day < DaysInMonth(d.year, d.month) then d.(day := d.day + 1)
    else if d.month < 12 then Date(d.year, d.month + 1, 1)
    else Date(d.year + 1, 1, 1)
  }

  function PrevDay(d: Date): (r: Date)
    requires InCalendar(d)
    ensures InCalendar(r)
  {
    if d.day > 1 then d.(day := d.day - 1)
    else if d.month > 1 then Date(d.year, d.month - 1, DaysInMonth(d.year, d.month - 1))
    else Date(d.year - 1, 12, 31)
  }

  /** The day after d is later than d and no date lies strictly between them. */
  lemma NextDayImmediate(d: Date, e: Date)
    requires InCalendar(d) && InCalendar(e)
    ensures Before(d, NextDay(d))
    ensures Before(d, e) ==> !Before(e, NextDay(d))
  {
  }

  lemma PrevNext(d: Date)
    requires InCalendar(d)
    ensures PrevDay(NextDay(d)) == d
  {
  }

  lemma NextPrev(d: Date)
    requires InCalendar(d)
    ensures NextDay(PrevDay(d)) == d
  {
  }

  /** datetime + timedelta(days=1): the same clock time on the next day, an
      OverflowError past the last representable day. */
  function AddDay(t: DateTime): (r: Result<DateTime, PyError>)
    requires ValidDateTime(t)
    ensures r.Ok? <==> t.date != Date(MaxYear, 12, 31)
    ensures r.Ok? ==> ValidDateTime(r.value) && r.value == t.(date := NextDay(t.date))
    ensures r.Err? ==> r.error == OverflowError
  {
    var d := NextDay(t.date);
    if d.year > MaxYear then Err(OverflowError) else Ok(t.(date := d))
  }

  /** (t - timedelta(hours=10)).date(): the observing day of instant t, an
      OverflowError before the first representable day. */
  function ObsDate(t: DateTime): (r: Result<Date, PyError>)
    requires ValidDateTime(t)
    ensures r.Ok? ==> ValidDate(r.value)
    ensures t.hour >= 10 ==> r == Ok(t.date)
    ensures t.hour < 10 ==> (r.Ok? <==> t.date != Date(MinYear, 1, 1))
    ensures t.hour < 10 && r.Ok? ==> NextDay(r.value) == t.date
    ensures r.Err? ==> r.error == OverflowError
  {
    if t.hour >= 10 then Ok(t.date)
    else
      NextPrev(t.date);
      var d := PrevDay(t.date);
      if d.year < MinYear then Err(OverflowError) else Ok(d)
  }
}
