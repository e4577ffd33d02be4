/** datetime.strptime for the three formats the ingest scripts use:
    "%m/%d/%Y", "%m/%d/%Y %H%M" and the alert format "%Y-%m-%dT%H:%S:%MZ".

    strptime turns the format into a regular expression, matched
    case-insensitively from the start of the string, and raises ValueError
    when it does not match, when characters are left over after the match
    ("unconverted data remains") or when the fields do not form a datetime.
    The directives used match
      %m  1[0-2]|0[1-9]|[1-9]         %d  3[01]|[12]\d|0[1-9]|[1-9]| [1-9]
      %H  2[0-3]|[0-1]\d|\d           %S  6[0-1]|[0-5]\d|\d
      %M  [0-5]\d|\d                  %Y  \d\d\d\d
    and white space in the format matches \s+. */
module Strptime {
  import opened Common
  import opened Calendar
  import opened PyStr

  datatype Directive = Month | Day | Hour | Second | Minute

  /** The largest value a directive's regular expression admits. */
  function Largest(d: Directive): nat {
    match d
    case Month => 12
    case Day => 31
    case Hour => 23
    case Second => 61
    case Minute => 59
  }

  /** The smallest value a directive's regular expression admits. */
  function Smallest(d: Directive): nat {
    if d == Month || d == Day then 1 else 0
  }

  /** The one-character alternatives of d match c. */
  predicate Accepts1(d: Directive, c: char) {
    IsDigit(c) && Smallest(d) <= DigitValue(c)
  }

  /** The two-character alternatives of d match c0 c1. */
  predicate Accepts2(d: Directive, c0: char, c1: char) {
    if d == Day && c0 == ' ' then '1' <= c1 <= '9'
    else IsDigit(c0) && IsDigit(c1) && Smallest(d) <= DigitValue(c0) * 10 + DigitValue(c1) <= Largest(d)
  }

  function Value2(c0: char, c1: char): nat
    requires IsDigit(c1)
  {
    if IsDigit(c0) then DigitValue(c0) * 10 + DigitValue(c1) else DigitValue(c1)
  }

  /** A character of the string against a literal of the format, ignoring case. */
  predicate LitMatch(c: char, lit: char) {
    c == lit || c == LowerChar(lit)
  }

  /** Directive d at i followed by the literal lit: the value read and the
      position of the literal. The literal is not a digit or a space, so at
      most one of the field lengths 2 and 1 can be followed by it. */
  function FieldThen(s: string, i: nat, d: Directive, lit: char): (r: Option<(nat, nat)>)
    requires !IsDigit(lit) && lit != ' '
    ensures r.Some? ==> var (v, j) := r.value;
      i < j <= i + 2 && j < |s| && LitMatch(s[j], lit) && Smallest(d) <= v <= Largest(d) &&
      (j == i + 1 ==> Accepts1(d, s[i]) && v == DigitValue(s[i])) &&
      (j == i + 2 ==> Accepts2(d, s[i], s[i + 1]) && v == Value2(s[i], s[i + 1]))
    ensures r.None? ==>
      !(i + 1 < |s| && LitMatch(s[i + 1], lit) && Accepts1(d, s[i])) &&
      !(i + 2 < |s| && LitMatch(s[i + 2], lit) && Accepts2(d, s[i], s[i + 1]))
  {
    if i + 2 < |s| && LitMatch(s[i + 2], lit) && Accepts2(d, s[i], s[i + 1]) then
      Some((Value2(s[i], s[i + 1]), i + 2))
    else if i + 1 < |s| && LitMatch(s[i + 1], lit) && Accepts1(d, s[i]) then
      Some((DigitValue(s[i]), i + 1))
    else None
  }

  /** %Y at i: four digits. */
  function YearAt(s: string, i: nat): (r: Option<nat>)
    ensures r.Some? <==> i + 4 <= |s| && IsDigit(s[i]) && IsDigit(s[i + 1]) && IsDigit(s[i + 2]) && IsDigit(s[i + 3])
    ensures r.Some? ==> r.value < 10000
  {
    if i + 4 <= |s| && IsDigit(s[i]) && IsDigit(s[i + 1]) && IsDigit(s[i + 2]) && IsDigit(s[i + 3]) then
      Some(((DigitValue(s[i]) * 10 + DigitValue(s[i + 1])) * 10 + DigitValue(s[i + 2])) * 10 + DigitValue(s[i + 3]))
    else None
  }

  /** %M at j: two digits when the first is 0 to 5, else one. */
  function MinuteAt(s: string, j: nat): (r: Option<(nat, nat)>)
    ensures r.Some? ==> var (v, e) := r.value; j < e <= j + 2 && e <= |s| && v <= 59
  {
    if j + 1 < |s| && '0' <= s[j] <= '5' && IsDigit(s[j + 1]) then Some((DigitValue(s[j]) * 10 + DigitValue(s[j + 1]), j + 2))
    else if j < |s| && IsDigit(s[j]) then Some((DigitValue(s[j]), j + 1))
    else None
  }

  /** %H%M at i: the first alternative of %H after which %M matches,
      with %M taking two digits when it can. Yields hour, minute and the end
      of the match. */
  function HourMinute(s: string, i: nat): (r: Option<(nat, nat, nat)>)
    ensures r.Some? ==> var (h, m, e) := r.value; i < e <= |s| && h <= 23 && m <= 59
  {
    if i + 1 < |s| && Accepts2(Hour, s[i], s[i + 1]) && MinuteAt(s, i + 2).Some? then
      var (m, e) := MinuteAt(s, i + 2).value;
      Some((Value2(s[i], s[i + 1]), m, e))
    else if i < |s| && IsDigit(s[i]) && MinuteAt(s, i + 1).Some? then
      var (m, e) := MinuteAt(s, i + 1).value;
      Some((DigitValue(s[i]), m, e))
    else None
  }

  /** The datetime constructor: ValueError unless the fields form a valid datetime. */
  function MakeDateTime(y: int, mo: nat, d: nat, h: nat, mi: nat, se: nat): (r: Result<DateTime, PyError>)
    ensures r.Ok? <==> ValidDateTime(DateTime(Date(y, mo, d), h, mi, se))
    ensures r.Ok? ==> r.value == DateTime(Date(y, mo, d), h, mi, se)
    ensures r.Err? ==> r.error == ValueError
  {
    var t := DateTime(Date(y, mo, d), h, mi, se);
    if ValidDateTime(t) then Ok(t) else Err(ValueError)
  }

  /** strptime(s, "%m/%d/%Y"): midnight of that day. */
  function EventDate(s: string): (r: Result<DateTime, PyError>)
    ensures r.Ok? ==> ValidDateTime(r.value) && r.value.hour == 0 && r.value.minute == 0 && r.value.second == 0
    ensures r.Err? ==> r.error == ValueError
  {
    match FieldThen(s, 0, Month, '/')
    case None => Err(ValueError)
    case Some((mo, p)) =>
      match FieldThen(s, p + 1, Day, '/')
      case None => Err(ValueError)
      case Some((d, q)) =>
        match YearAt(s, q + 1)
        case None => Err(ValueError)
        case Some(y) => if q + 5 == |s| then MakeDateTime(y, mo, d, 0, 0, 0) else Err(ValueError)
  }

  /** strptime(s, "%m/%d/%Y %H%M"): seconds are zero. */
  function EventDateTime(s: string): (r: Result<DateTime, PyError>)
    ensures r.Ok? ==> ValidDateTime(r.value) && r.value.second == 0
    ensures r.Err? ==> r.error == ValueError
  {
    match FieldThen(s, 0, Month, '/')
    case None => Err(ValueError)
    case Some((mo, p)) =>
      match FieldThen(s, p + 1, Day, '/')
      case None => Err(ValueError)
      case Some((d, q)) =>
        match YearAt(s, q + 1)
        case None => Err(ValueError)
        case Some(y) =>
          var w := KeepFrom(s, IsSpace, q + 5);
          if w == q + 5 then Err(ValueError)
          else
            match HourMinute(s, w)
            case None => Err(ValueError)
            case Some((h, mi, e)) => if e == |s| then MakeDateTime(y, mo, d, h, mi, 0) else Err(ValueError)
  }

  /** strptime(s, "%Y-%m-%dT%H:%S:%MZ"): the field after the hour is read as
      the seconds and the last field as the minutes. */
  function AlertDateTime(s: string): (r: Result<DateTime, PyError>)
    ensures r.Ok? ==> ValidDateTime(r.value)
    ensures r.Err? ==> r.error == ValueError
  {
    match YearAt(s, 0)
    case None => Err(ValueError)
    case Some(y) =>
      if |s| <= 4 || s[4] != '-' then Err(ValueError)
      else
        match FieldThen(s, 5, Month, '-')
        case None => Err(ValueError)
        case Some((mo, p)) =>
          match FieldThen(s, p + 1, Day, 'T')
          case None => Err(ValueError)
          case Some((d, q)) =>
            match FieldThen(s, q + 1, Hour, ':')
            case None => Err(ValueError)
            case Some((h, r1)) =>
              match FieldThen(s, r1 + 1, Second, ':')
              case None => Err(ValueError)
              case Some((se, r2)) =>
                match FieldThen(s, r2 + 1, Minute, 'Z')
                case None => Err(ValueError)
                case Some((mi, r3)) => if r3 + 1 == |s| then MakeDateTime(y, mo, d, h, mi, se) else Err(ValueError)
  }

  /** Two decimal digits. */
  function Two(n: nat): (r: string)
    requires n < 100
    ensures |r| == 2 && IsDigit(r[0]) && IsDigit(r[1]) && DigitValue(r[0]) * 10 + DigitValue(r[1]) == n
  {
    [DigitChar(n / 10), DigitChar(n % 10)]
  }

  /** Four decimal digits. */
  function Four(n: nat): (r: string)
    requires n < 10000
    ensures |r| == 4
  {
    Two(n / 100) + Two(n % 100)
  }

  /** The ISO 8601 text of t, hours, minutes and seconds in that order. */
  function IsoText(t: DateTime): string
    requires ValidDateTime(t)
  {
    Four(t.date.year) + "-" + Two(t.date.month) + "-" + Two(t.date.day) + "T" +
    Two(t.hour) + ":" + Two(t.minute) + ":" + Two(t.second) + "Z"
  }

  /** The four digits of Four(n) read back as n. */
  lemma FourDigits(n: nat)
    requires n < 10000
    ensures var r := Four(n);
      IsDigit(r[0]) && IsDigit(r[1]) && IsDigit(r[2]) && IsDigit(r[3]) &&
      ((DigitValue(r[0]) * 10 + DigitValue(r[1])) * 10 + DigitValue(r[2])) * 10 + DigitValue(r[3]) == n
  {
    var hi, lo := Two(n / 100), Two(n % 100);
    assert Four(n) == hi + lo;
    assert (n / 100) * 100 + n % 100 == n;
  }

  /** The characters of the date half "YYYY-MM-DDT" of an ISO text. */
  lemma IsoDateChars(d: Date)
    requires ValidDate(d)
    ensures var s := Four(d.year) + "-" + Two(d.month) + "-" + Two(d.day) + "T";
      |s| == 11 && YearAt(s, 0) == Some(d.year) && s[4] == '-' && s[7] == '-' && s[10] == 'T' &&
      s[5] == Two(d.month)[0] && s[6] == Two(d.month)[1] && s[8] == Two(d.day)[0] && s[9] == Two(d.day)[1]
  {
    FourDigits(d.year);
  }

  /** The characters of the clock half "HH:MM:SSZ" of an ISO text. */
  lemma IsoTimeChars(t: DateTime)
    requires ValidDateTime(t)
    ensures var s := Two(t.hour) + ":" + Two(t.minute) + ":" + Two(t.second) + "Z";
      |s| == 9 && s[2] == ':' && s[5] == ':' && s[8] == 'Z' &&
      s[0] == Two(t.hour)[0] && s[1] == Two(t.hour)[1] && s[3] == Two(t.minute)[0] &&
      s[4] == Two(t.minute)[1] && s[6] == Two(t.second)[0] && s[7] == Two(t.second)[1]
  {
  }

  /** Reading the ISO text of t with the alert format swaps its minutes and
      seconds; it never fails, since both are below 60. */
  lemma AlertFormatSwaps(t: DateTime)
    requires ValidDateTime(t)
    ensures AlertDateTime(IsoText(t)) == Ok(DateTime(t.date, t.hour, t.second, t.minute))
  {
    var dp := Four(t.date.year) + "-" + Two(t.date.month) + "-" + Two(t.date.day) + "T";
    var tp := Two(t.hour) + ":" + Two(t.minute) + ":" + Two(t.second) + "Z";
    var s := IsoText(t);
    assert s == dp + tp;
    IsoDateChars(t.date);
    IsoTimeChars(t);
    assert YearAt(s, 0) == YearAt(dp, 0);
    AlertFields(s, t);
  }

  /** The alert format on a string laid out as "YYYY-MM-DDTHH:MM:SSZ". */
  lemma AlertFields(s: string, t: DateTime)
    requires ValidDateTime(t) && |s| == 20 && YearAt(s, 0) == Some(t.date.year)
    requires s[4] == '-' && s[7] == '-' && s[10] == 'T' && s[13] == ':' && s[16] == ':' && s[19] == 'Z'
    requires s[5] == Two(t.date.month)[0] && s[6] == Two(t.date.month)[1]
    requires s[8] == Two(t.date.day)[0] && s[9] == Two(t.date.day)[1]
    requires s[11] == Two(t.hour)[0] && s[12] == Two(t.hour)[1]
    requires s[14] == Two(t.minute)[0] && s[15] == Two(t.minute)[1]
    requires s[17] == Two(t.second)[0] && s[18] == Two(t.second)[1]
    ensures AlertDateTime(s) == Ok(DateTime(t.date, t.hour, t.second, t.minute))
  {
    FieldTwo(s, 5, Month, '-', t.date.month);
    FieldTwo(s, 8, Day, 'T', t.date.day);
    FieldTwo(s, 11, Hour, ':', t.hour);
    FieldTwo(s, 14, Second, ':', t.minute);
    FieldTwo(s, 17, Minute, 'Z', t.second);
  }

  /** Two digits of a value in the directive's range, then its literal. */
  lemma FieldTwo(s: string, i: nat, d: Directive, lit: char, n: nat)
    requires !IsDigit(lit) && lit != ' ' && Smallest(d) <= n <= Largest(d) && n < 100
    requires i + 2 < |s| && s[i] == Two(n)[0] && s[i + 1] == Two(n)[1] && s[i + 2] == lit
    ensures FieldThen(s, i, d, lit) == Some((n, i + 2))
  {
  }

  /** The "MM/DD/YYYY" text of a date. */
  function DateText(d: Date): string
    requires ValidDate(d)
  {
    Two(d.month) + "/" + Two(d.day) + "/" + Four(d.year)
  }

  /** The "HHMM" text of a clock time. */
  function ClockText(t: DateTime): string
    requires ValidDateTime(t)
  {
    Two(t.hour) + Two(t.minute)
  }

  lemma DateTextChars(d: Date)
    requires ValidDate(d)
    ensures var s := DateText(d);
      |s| == 10 && s[2] == '/' && s[5] == '/' && YearAt(s, 6) == Some(d.year) &&
      s[0] == Two(d.month)[0] && s[1] == Two(d.month)[1] && s[3] == Two(d.day)[0] && s[4] == Two(d.day)[1]
  {
    FourDigits(d.year);
    var s := DateText(d);
    assert s[6..] == Four(d.year);
  }

  /** A date written as MM/DD/YYYY reads back as midnight of that date. */
  lemma EventDateRoundTrip(d: Date)
    requires ValidDate(d)
    ensures EventDate(DateText(d)) == Ok(DateTime(d, 0, 0, 0))
  {
    var s := DateText(d);
    DateTextChars(d);
    assert FieldThen(s, 0, Month, '/') == Some((d.month, 2));
    assert FieldThen(s, 3, Day, '/') == Some((d.day, 5));
  }

  /** "MM/DD/YYYY HHMM" reads back as the date and clock time, seconds zero. */
  lemma EventDateTimeRoundTrip(t: DateTime)
    requires ValidDateTime(t) && t.second == 0
    ensures EventDateTime(DateText(t.date) + " " + ClockText(t)) == Ok(t)
  {
    var dt, c := DateText(t.date), ClockText(t);
    var s := dt + " " + c;
    DateTextChars(t.date);
    assert s[..10] == dt;
    assert YearAt(s, 6) == YearAt(dt, 6);
    EventClockFields(s, t);
  }

  /** The event format on a string laid out as "MM/DD/YYYY HHMM". */
  lemma EventClockFields(s: string, t: DateTime)
    requires ValidDateTime(t) && t.second == 0 && |s| == 15 && YearAt(s, 6) == Some(t.date.year)
    requires s[2] == '/' && s[5] == '/' && s[10] == ' '
    requires s[0] == Two(t.date.month)[0] && s[1] == Two(t.date.month)[1]
    requires s[3] == Two(t.date.day)[0] && s[4] == Two(t.date.day)[1]
    requires s[11] == Two(t.hour)[0] && s[12] == Two(t.hour)[1]
    requires s[13] == Two(t.minute)[0] && s[14] == Two(t.minute)[1]
    ensures EventDateTime(s) == Ok(t)
  {
    FieldTwo(s, 0, Month, '/', t.date.month);
    FieldTwo(s, 3, Day, '/', t.date.day);
    assert KeepFrom(s, IsSpace, 10) == 11 by {
      assert KeepFrom(s, IsSpace, 11) == 11;
    }
    assert MinuteAt(s, 13) == Some((t.minute, 15));
  }
}
