/** The analyst event-log ingester: each tab-separated row after the header
    holds a date, a loose time expression, the limb, the event type, the
    instrument and an optional comment. Rows that parse, come from K-Cor and
    name a known event type become kcor_cme_alert rows of alert type
    "analyst".

    Python exceptions are Result errors. ingest_file catches ValueError for
    one row (the row is reported and skipped). Any other exception escapes
    ingest_file and its caller: it ends the whole run, and the inserts of
    the file being read are never committed. */
module EventLog {
  import opened Common
  import opened Calendar
  import opened PyStr
  import opened Strptime
  import opened JsonValue
  import opened MlsoDb

  // ---------------------------------------------------------------- times

  predicate IsDash(c: char) { c == '-' }

  /** The characters of "UT", as strip("UT") removes them. */
  predicate IsUT(c: char) { c == 'U' || c == 'T' }

  /** The adjustment every parsed time gets: before 06:00 it belongs to the next day. */
  function Moved(t: DateTime): DateTime
    requires ValidDateTime(t)
  {
    if t.hour < 6 then t.(date := NextDay(t.date)) else t
  }

  /** t + timedelta(days=1) if t.hour < 6, else t. */
  function Shift(t: DateTime): (r: Result<DateTime, PyError>)
    requires ValidDateTime(t)
    ensures r.Ok? <==> !(t.hour < 6 && t.date == Date(MaxYear, 12, 31))
    ensures r.Ok? ==> r.value == Moved(t) && ValidDateTime(r.value)
    ensures r.Err? ==> r.error == OverflowError
  {
    if t.hour < 6 then AddDay(t) else Ok(t)
  }

  /** [strptime(f"{date} {t}", "%m/%d/%Y %H%M") for t in times]. */
  function ParseAll(date: string, times: seq<string>): (r: Result<seq<DateTime>, PyError>)
    ensures r.Ok? ==> |r.value| == |times| && forall k :: 0 <= k < |times| ==> ValidDateTime(r.value[k])
    ensures r.Err? ==> r.error == ValueError
  {
    ParseFrom(date, times, 0)
  }

  /** The pieces from index i on. */
  function ParseFrom(date: string, times: seq<string>, i: nat): (r: Result<seq<DateTime>, PyError>)
    requires i <= |times|
    ensures r.Ok? ==> |r.value| == |times| - i && forall k :: 0 <= k < |r.value| ==> ValidDateTime(r.value[k])
    ensures r.Err? ==> r.error == ValueError
    decreases |times| - i
  {
    if i == |times| then Ok([])
    else
      match EventDateTime(date + " " + times[i])
      case Err(e) => Err(e)
      case Ok(t) =>
        match ParseFrom(date, times, i + 1)
        case Err(e) => Err(e)
        case Ok(ts) => Ok([t] + ts)
  }

  /** [dt + timedelta(days=1) if dt.hour < 6 else dt for dt in dts]. */
  function ShiftAll(dts: seq<DateTime>): (r: Result<seq<DateTime>, PyError>)
    requires forall k :: 0 <= k < |dts| ==> ValidDateTime(dts[k])
    ensures r.Ok? <==> forall k :: 0 <= k < |dts| ==> Shift(dts[k]).Ok?
    ensures r.Ok? ==> |r.value| == |dts| && forall k :: 0 <= k < |dts| ==> r.value[k] == Moved(dts[k])
    ensures r.Err? ==> r.error == OverflowError
    decreases |dts|
  {
    if |dts| == 0 then Ok([])
    else
      match Shift(dts[0])
      case Err(e) => Err(e)
      case Ok(t) =>
        assert forall k :: 1 <= k < |dts| ==> dts[k] == dts[1..][k - 1];
        match ShiftAll(dts[1..])
        case Err(e) => Err(e)
        case Ok(ts) => Ok([t] + ts)
  }

  function Somes(ts: seq<DateTime>): (r: seq<Option<DateTime>>)
    ensures |r| == |ts| && forall k :: 0 <= k < |ts| ==> r[k] == Some(ts[k])
  {
    seq(|ts|, k requires 0 <= k < |ts| => Some(ts[k]))
  }

  /** What a time expression asks for once its decorations are removed: the
      whole day, a start only, or a range of pieces. */
  datatype TimeForm = WholeDay | StartAt(text: string) | Span(text: string)

  /** The string handling of parse_datetime before any time is parsed: a
      leading "-" means the whole day; a leading "<" or "~" is dropped; a
      trailing "-" or a leading "from " means a start only (the dashes at
      both ends and the "from " are removed); then "U" and "T" are stripped
      from both ends. An expression empty when its first or last character is
      needed raises IndexError. */
  function Classify(time: string): (r: Result<TimeForm, PyError>)
    ensures r.Err? <==> |time| == 0 || (time[0] != '-' && |time| == 1 && (time[0] == '<' || time[0] == '~'))
    ensures r.Err? ==> r.error == IndexError
    ensures r.Ok? ==> (r.value == WholeDay <==> time[0] == '-')
  {
    if |time| == 0 then Err(IndexError)
    else if time[0] == '-' then Ok(WholeDay)
    else
      var t1 := if time[0] == '<' || time[0] == '~' then time[1..] else time;
      if |t1| == 0 then Err(IndexError)
      else
        var trailing := t1[|t1| - 1] == '-';
        var t2 := if trailing then Strip(t1, IsDash) else t1;
        var from := t2[..Min(5, |t2|)] == "from ";
        var t3 := if from then t2[5..] else t2;
        var t4 := Strip(t3, IsUT);
        if trailing || from then Ok(StartAt(t4)) else Ok(Span(t4))
  }

  /** parse_datetime(date, time): the start and end of an event, or a list of
      another length that parse_row then fails to unpack. The end-only
      branch of the source is never entered (its flag is never set), so the
      first entry is always present. */
  function ParseDatetime(date: string, time: string): (r: Result<seq<Option<DateTime>>, PyError>)
    ensures |time| == 0 ==> r == Err(IndexError)
    ensures r.Ok? ==> |r.value| >= 1 && r.value[0].Some?
    ensures r.Ok? ==> forall k :: 0 <= k < |r.value| && r.value[k].Some? ==> ValidDateTime(r.value[k].value)
    ensures r.Err? ==> r.error == ValueError || r.error == IndexError || r.error == OverflowError
  {
    match Classify(time)
    case Err(e) => Err(e)
    case Ok(WholeDay) =>
      (match EventDate(date)
       case Err(e) => Err(e)
       case Ok(d) => Ok([Some(d), Some(d)]))
    case Ok(StartAt(t)) => StartOnly(date, t)
    case Ok(Span(t)) => Range(date, t)
  }

  /** The just-start branch: [start, None], start moved past midnight if early. */
  function StartOnly(date: string, time: string): (r: Result<seq<Option<DateTime>>, PyError>)
    ensures r.Ok? <==> EventDateTime(date + " " + time).Ok? && Shift(EventDateTime(date + " " + time).value).Ok?
    ensures r.Ok? ==> r.value == [Some(Moved(EventDateTime(date + " " + time).value)), None]
    ensures r.Err? ==> r.error == ValueError || r.error == OverflowError
  {
    match EventDateTime(date + " " + time)
    case Err(e) => Err(e)
    case Ok(start) =>
      match Shift(start)
      case Err(e) => Err(e)
      case Ok(s) => Ok([Some(s), None])
  }

  /** The pieces of a range: split on "-", or on "~" when there is no "-". */
  function Pieces(time: string): (r: seq<string>)
    ensures |r| >= 1
  {
    var pieces := Split(time, '-');
    if |pieces| == 1 then Split(pieces[0], '~') else pieces
  }

  /** The range branch: every piece parsed, then every early one moved. */
  function Range(date: string, time: string): (r: Result<seq<Option<DateTime>>, PyError>)
    ensures r.Ok? ==> ParseAll(date, Pieces(time)).Ok? && |r.value| == |Pieces(time)|
    ensures r.Ok? ==> forall k :: 0 <= k < |r.value| ==> r.value[k] == Some(Moved(ParseAll(date, Pieces(time)).value[k]))
    ensures r.Err? ==> r.error == ValueError || r.error == OverflowError
  {
    match ParseAll(date, Pieces(time))
    case Err(e) => Err(e)
    case Ok(dts) =>
      match ShiftAll(dts)
      case Err(e) => Err(e)
      case Ok(adjusted) => Ok(Somes(adjusted))
  }

  function Min(a: nat, b: nat): nat { if a < b then a else b }

  /** A time expression starting with "-" stands for the whole day: the date
      at midnight, twice. */
  lemma DateOnlyRoundTrip(d: Date, rest: string)
    requires ValidDate(d)
    ensures ParseDatetime(DateText(d), "-" + rest) == Ok([Some(DateTime(d, 0, 0, 0)), Some(DateTime(d, 0, 0, 0))])
  {
    EventDateRoundTrip(d);
  }

  /** A leading "<" or "~" is dropped before anything else is looked at. */
  lemma LeadingMarkDropped(c: char, time: string)
    requires c == '<' || c == '~'
    requires |time| > 0 && time[0] != '-' && time[0] != '<' && time[0] != '~'
    ensures Classify([c] + time) == Classify(time)
  {
    assert ([c] + time)[1..] == time;
  }

  /** "from HHMMUT" is a start with no end, moved to the next day before 06:00. */
  lemma FromRoundTrip(t: DateTime)
    requires ValidDateTime(t) && t.second == 0 && Shift(t).Ok?
    ensures ParseDatetime(DateText(t.date), "from " + ClockText(t) + "UT") == Ok([Some(Moved(t)), None])
  {
    ClockDigits(t);
    FromClassified(ClockText(t));
    EventDateTimeRoundTrip(t);
    StartOf(DateText(t.date), "from " + ClockText(t) + "UT", ClockText(t), t);
  }

  /** "HHMMUT--" is a start with no end as well. */
  lemma TrailingDashRoundTrip(t: DateTime)
    requires ValidDateTime(t) && t.second == 0 && Shift(t).Ok?
    ensures ParseDatetime(DateText(t.date), ClockText(t) + "UT--") == Ok([Some(Moved(t)), None])
  {
    ClockDigits(t);
    TrailingDashClassified(ClockText(t));
    EventDateTimeRoundTrip(t);
    StartOf(DateText(t.date), ClockText(t) + "UT--", ClockText(t), t);
  }

  lemma FromClassified(c: string)
    requires |c| == 4 && forall k :: 0 <= k < 4 ==> IsDigit(c[k])
    ensures Classify("from " + c + "UT") == Ok(StartAt(c))
  {
    var time := "from " + c + "UT";
    assert time[..5] == "from " && time[5..] == c + "UT";
    assert time[0] == 'f' && time[|time| - 1] == 'T';
    StripTrailing(c, "UT", IsUT);
  }

  lemma TrailingDashClassified(c: string)
    requires |c| == 4 && forall k :: 0 <= k < 4 ==> IsDigit(c[k])
    ensures Classify(c + "UT--") == Ok(StartAt(c))
  {
    var time := c + "UT--";
    assert time == (c + "UT") + "--";
    assert time[0] == c[0] && time[|time| - 1] == '-';
    StripTrailing(c + "UT", "--", IsDash);
    var t2 := c + "UT";
    assert t2[..5] != "from " by {
      assert t2[..5][0] == c[0];
    }
    StripTrailing(c, "UT", IsUT);
  }

  /** A start-only expression whose start reads back as t. */
  lemma StartOf(date: string, time: string, c: string, t: DateTime)
    requires Classify(time) == Ok(StartAt(c)) && EventDateTime(date + " " + c) == Ok(t)
    requires ValidDateTime(t) && Shift(t).Ok?
    ensures ParseDatetime(date, time) == Ok([Some(Moved(t)), None])
  {
  }

  /** "HHMM-HHMMUT" on one date reads back as the two times, each moved to
      the next day before 06:00. */
  lemma RangeRoundTrip(a: DateTime, b: DateTime)
    requires ValidDateTime(a) && ValidDateTime(b) && a.date == b.date && a.second == 0 && b.second == 0
    requires Shift(a).Ok? && Shift(b).Ok?
    ensures ParseDatetime(DateText(a.date), ClockText(a) + "-" + ClockText(b) + "UT") == Ok([Some(Moved(a)), Some(Moved(b))])
  {
    ClockDigits(a);
    ClockDigits(b);
    EventDateTimeRoundTrip(a);
    EventDateTimeRoundTrip(b);
    SpanClassified(ClockText(a), ClockText(b), '-');
    SpanOf(DateText(a.date), ClockText(a) + "-" + ClockText(b) + "UT", ClockText(a) + "-" + ClockText(b),
      ClockText(a), ClockText(b), a, b);
  }

  /** "HHMM~HHMMUT" splits on "~" since it has no "-". */
  lemma TildeRangeRoundTrip(a: DateTime, b: DateTime)
    requires ValidDateTime(a) && ValidDateTime(b) && a.date == b.date && a.second == 0 && b.second == 0
    requires Shift(a).Ok? && Shift(b).Ok?
    ensures ParseDatetime(DateText(a.date), ClockText(a) + "~" + ClockText(b) + "UT") == Ok([Some(Moved(a)), Some(Moved(b))])
  {
    ClockDigits(a);
    ClockDigits(b);
    EventDateTimeRoundTrip(a);
    EventDateTimeRoundTrip(b);
    SpanClassified(ClockText(a), ClockText(b), '~');
    SpanOf(DateText(a.date), ClockText(a) + "~" + ClockText(b) + "UT", ClockText(a) + "~" + ClockText(b),
      ClockText(a), ClockText(b), a, b);
  }

  /** Two digit pieces around "-" or "~", then "UT": a range of exactly those pieces. */
  lemma SpanClassified(ca: string, cb: string, sep: char)
    requires sep == '-' || sep == '~'
    requires |ca| == 4 && |cb| == 4 && forall k :: 0 <= k < 4 ==> IsDigit(ca[k]) && IsDigit(cb[k])
    ensures Classify(ca + [sep] + cb + "UT") == Ok(Span(ca + [sep] + cb))
    ensures Pieces(ca + [sep] + cb) == [ca, cb]
  {
    var range := ca + [sep] + cb;
    var time := range + "UT";
    assert range[0] == ca[0] && range[|range| - 1] == cb[3];
    assert '-' !in ca && '-' !in cb && '~' !in ca && '~' !in cb;
    StripTrailing(range, "UT", IsUT);
    assert time[0] == ca[0] && time[|time| - 1] == 'T';
    assert time[..5] != "from " by {
      assert time[..5][0] == ca[0];
    }
    RangeBranch(time);
    if sep == '-' {
      SplitTwo(ca, cb, '-');
    } else {
      assert '-' !in range;
      SplitAbsent(range, '-');
      SplitTwo(ca, cb, '~');
    }
  }

  /** A range expression whose two pieces read back as a and b. */
  lemma SpanOf(date: string, time: string, range: string, ca: string, cb: string, a: DateTime, b: DateTime)
    requires Classify(time) == Ok(Span(range)) && Pieces(range) == [ca, cb]
    requires ValidDateTime(a) && ValidDateTime(b) && Shift(a).Ok? && Shift(b).Ok?
    requires EventDateTime(date + " " + ca) == Ok(a) && EventDateTime(date + " " + cb) == Ok(b)
    ensures ParseDatetime(date, time) == Ok([Some(Moved(a)), Some(Moved(b))])
  {
    RangeOf(date, a, b, [ca, cb]);
    assert Somes([Moved(a), Moved(b)]) == [Some(Moved(a)), Some(Moved(b))];
  }

  /** A time with no leading mark, no trailing "-" and no "from " is a range. */
  lemma RangeBranch(time: string)
    requires |time| >= 5 && time[0] != '-' && time[0] != '<' && time[0] != '~'
    requires time[|time| - 1] != '-' && time[..5] != "from "
    ensures Classify(time) == Ok(Span(Strip(time, IsUT)))
  {
  }

  /** A clock text is four digits. */
  lemma ClockDigits(t: DateTime)
    requires ValidDateTime(t)
    ensures |ClockText(t)| == 4 && forall k :: 0 <= k < 4 ==> IsDigit(ClockText(t)[k])
  {
  }

  /** Two pieces that read back as a and b give the moved pair. */
  lemma RangeOf(date: string, a: DateTime, b: DateTime, pieces: seq<string>)
    requires ValidDateTime(a) && ValidDateTime(b) && Shift(a).Ok? && Shift(b).Ok? && |pieces| == 2
    requires EventDateTime(date + " " + pieces[0]) == Ok(a) && EventDateTime(date + " " + pieces[1]) == Ok(b)
    ensures ParseAll(date, pieces) == Ok([a, b])
    ensures ShiftAll([a, b]) == Ok([Moved(a), Moved(b)])
  {
    assert ParseFrom(date, pieces, 2) == Ok([]);
    assert [b] + [] == [b] && [a] + [b] == [a, b];
    assert ParseFrom(date, pieces, 1) == Ok([b]);
    assert [a, b][1..] == [b] && [b][1..] == [];
    assert [Moved(b)] + [] == [Moved(b)] && [Moved(a)] + [Moved(b)] == [Moved(a), Moved(b)];
    assert ShiftAll([b]) == Ok([Moved(b)]);
  }

  // ----------------------------------------------------------------- rows

  /** The event dict parse_row builds; obsDay starts as 0 and is replaced by
      get_obsday's answer. */
  datatype Event = Event(
    obsDay: Option<nat>,
    start: Option<DateTime>,
    end: Option<DateTime>,
    limb: string,
    kind: string,
    instrument: string,
    comment: Option<string>)

  /** parse_row(row): a row of at least five cells (ingest_file passes no
      shorter ones) becomes an event; a time list that is not a pair fails to
      unpack with ValueError. */
  function ParseRow(row: seq<string>): (r: Result<Event, PyError>)
    requires |row| >= 5
    ensures var p := ParseDatetime(row[0], row[1]);
      if p.Err? then r == Err(p.error)
      else if |p.value| != 2 then r == Err(ValueError)
      else r.Ok? && [r.value.start, r.value.end] == p.value
    ensures r.Ok? ==> r.value.start.Some? && ValidDateTime(r.value.start.value)
    ensures r.Ok? ==> r.value.obsDay == Some(0) && r.value.limb == row[2] && r.value.kind == Lower(row[3])
    ensures r.Ok? ==> r.value.instrument == row[4] && r.value.comment == (if |row| > 5 then Some(row[5]) else None)
  {
    match ParseDatetime(row[0], row[1])
    case Err(e) => Err(e)
    case Ok(ts) =>
      if |ts| != 2 then Err(ValueError)
      else Ok(Event(Some(0), ts[0], ts[1], row[2], Lower(row[3]), row[4], if |row| > 5 then Some(row[5]) else None))
  }

  /** " " only, as strip(" ") removes it. */
  predicate IsBlank(c: char) { c == ' ' }

  /** [r.strip() for r in row if r.strip(" ") != ""]: cells that are not all
      spaces, with white space trimmed; a cell of other white space survives
      the test and becomes empty. */
  function FilterRow(row: seq<string>): (r: seq<string>)
    ensures |r| <= |row|
    ensures forall k :: 0 <= k < |r| ==> |r[k]| > 0 ==> !IsSpace(r[k][0]) && !IsSpace(r[k][|r[k]| - 1])
    decreases |row|
  {
    if |row| == 0 then []
    else if Strip(row[0], IsBlank) != "" then [Strip(row[0], IsSpace)] + FilterRow(row[1..])
    else FilterRow(row[1..])
  }

  // --------------------------------------------------------- classification

  /** The event types ingest_event recognises, in the order it tries them. */
  const EventTypes: seq<string> := ["possible cme", "cme", "jet", "epl", "outflow"]

  /** types[k] occurs in kind and none before it does. */
  predicate FirstAt(kind: string, types: seq<string>, k: nat)
    requires k < |types|
  {
    Contains(kind, types[k]) && forall j :: 0 <= j < k ==> !Contains(kind, types[j])
  }

  /** The first of types that occurs in kind. */
  function FirstFound(kind: string, types: seq<string>): (r: Option<string>)
    ensures r.None? <==> forall k :: 0 <= k < |types| ==> !Contains(kind, types[k])
    ensures r.Some? ==> exists k :: 0 <= k < |types| && FirstAt(kind, types, k) && types[k] == r.value
    decreases |types|
  {
    if |types| == 0 then None
    else if Contains(kind, types[0]) then Some(types[0])
    else
      var r := FirstFound(kind, types[1..]);
      assert forall k :: 1 <= k < |types| ==> types[k] == types[1..][k - 1];
      if r.Some? then
        var k :| 0 <= k < |types[1..]| && FirstAt(kind, types[1..], k) && types[1..][k] == r.value;
        assert FirstAt(kind, types, k + 1);
        r
      else r
  }

  /** found_types[0], or None when found_types is empty. */
  function FoundType(kind: string): (r: Option<string>)
    ensures r.None? <==> forall k :: 0 <= k < |EventTypes| ==> !Contains(kind, EventTypes[k])
    ensures r.Some? ==> r.value in EventTypes
  {
    FirstFound(kind, EventTypes)
  }

  /** A plain CME is found exactly when "cme" occurs but "possible cme" does not. */
  lemma FoundCme(kind: string)
    ensures FoundType(kind) == Some("cme") <==> Contains(kind, "cme") && !Contains(kind, "possible cme")
  {
    var types := EventTypes;
    assert types[0] == "possible cme" && types[1] == "cme";
    var r := FoundType(kind);
    if r == Some("cme") {
      var k :| 0 <= k < |types| && FirstAt(kind, types, k) && types[k] == "cme";
      assert types[0] != "cme" && types[2] != "cme" && types[3] != "cme" && types[4] != "cme" by {
        assert types[2][0] != 'c' && types[3][0] != 'c' && types[4][0] != 'c';
        assert |types[0]| != 3;
      }
      assert k == 1;
    }
    if Contains(kind, "cme") && !Contains(kind, "possible cme") {
      assert types[1..][0] == "cme";
      assert FirstFound(kind, types[1..]) == Some("cme");
    }
  }

  /** Of the recognised types, only "cme" has high confidence. */
  lemma ConfidenceOfTypes(found: string)
    requires found in EventTypes
    ensures Confidence(found) == (if found == "cme" then "high" else "low")
  {
    assert Lower("cme") == "cme";
    if found != "cme" {
      assert |found| != 3 || found[0] != 'c';
      assert Lower(found)[0] == found[0];
    }
  }

  /** "high" for a plain CME, "low" for every other found type. */
  function Confidence(found: string): (r: string)
    ensures r == "high" || r == "low"
    ensures r == "high" <==> Lower(found) == "cme"
  {
    if Lower(found) == "cme" then "high" else "low"
  }

  /** The kcor_cme_alert row of an analyst event. */
  function AnalystRow(ev: Event, found: string): AlertRow {
    AlertRow(ev.obsDay, "analyst", ev.kind, found, None, ev.start, ev.end, None, None, None, None, None,
      Some(Confidence(found)), if ev.comment.Some? then Some(JString(ev.comment.value)) else None)
  }

  /** ingest_event on the tables: K-Cor events of a known type are inserted. */
  function IngestEventSpec(s: Tables, ev: Event): (r: Tables)
    ensures r.days == s.days && r.nextDayId == s.nextDayId
    ensures r.alerts == s.alerts <==> Lower(ev.instrument) != "kcor" || FoundType(ev.kind).None?
  {
    if Lower(ev.instrument) != "kcor" then s
    else match FoundType(ev.kind)
      case None => s
      case Some(found) => s.(alerts := s.alerts + [AnalystRow(ev, found)])
  }

  // ---------------------------------------------------------------- files

  /** One data row through ingest_file's loop body: rows of fewer than five
      filtered cells and rows raising ValueError leave the tables as they
      are; any other exception escapes and ends the run. get_obsday runs before
      ingest_event, so a day is recorded even for an event never inserted. */
  function IngestRow(s: Tables, row: seq<string>): (r: Result<Tables, PyError>)
    ensures |FilterRow(row)| < 5 ==> r == Ok(s)
    ensures r.Err? ==> r.error != ValueError
  {
    var cells := FilterRow(row);
    if |cells| < 5 then Ok(s)
    else
      match ParseRow(cells)
      case Err(e) => if e == ValueError then Ok(s) else Err(e)
      case Ok(ev) =>
        var (day, s1) := ObsDayStep(s, ev.start.value);
        match day
        case Err(e) => if e == ValueError then Ok(s1) else Err(e)
        case Ok(id) => Ok(IngestEventSpec(s1, ev.(obsDay := id)))
  }

  /** The rows from index i on, in order, stopping at the first whose exception escapes. */
  function IngestRows(s: Tables, rows: seq<seq<string>>, i: nat): (r: Result<Tables, PyError>)
    requires i <= |rows|
    ensures r.Err? ==> r.error != ValueError
    ensures (forall j :: i <= j < |rows| ==> |FilterRow(rows[j])| < 5) ==> r == Ok(s)
    decreases |rows| - i
  {
    if i == |rows| then Ok(s)
    else
      match IngestRow(s, rows[i])
      case Err(e) => Err(e)
      case Ok(s1) => IngestRows(s1, rows, i + 1)
  }

  /** A row the analyst log contributes: no issue time and no alert-document
      columns, one of the recognised types and the confidence that type gets. */
  predicate IsAnalystRow(a: AlertRow) {
    a.alertType == "analyst" && a.cmeType in EventTypes && a.confidenceLevel == Some(Confidence(a.cmeType))
    && a.startTime.Some? && a.issueTime.None? && a.positionAngle.None? && a.speed.None? && a.lastDataTime.None?
  }

  /** s1 is s with more rows appended, all of them analyst rows, and more
      days recorded, the old ones keeping their ids. */
  predicate Grows(s: Tables, s1: Tables) {
    |s.alerts| <= |s1.alerts| && s1.alerts[..|s.alerts|] == s.alerts
    && (forall k :: |s.alerts| <= k < |s1.alerts| ==> IsAnalystRow(s1.alerts[k]))
    && (forall d :: d in s.days ==> d in s1.days && s1.days[d] == s.days[d])
    && s.nextDayId <= s1.nextDayId
  }

  lemma GrowsTrans(s: Tables, s1: Tables, s2: Tables)
    requires Grows(s, s1) && Grows(s1, s2)
    ensures Grows(s, s2)
  {
    assert s2.alerts[..|s.alerts|] == s2.alerts[..|s1.alerts|][..|s.alerts|];
  }

  /** ingest_event appends at most one row, an analyst row, and touches no day. */
  lemma IngestEventGrows(s: Tables, ev: Event)
    requires ev.start.Some?
    ensures Grows(s, IngestEventSpec(s, ev)) && |IngestEventSpec(s, ev).alerts| <= |s.alerts| + 1
  {
    var r := IngestEventSpec(s, ev);
    if r.alerts != s.alerts {
      assert r.alerts[..|s.alerts|] == s.alerts;
      assert IsAnalystRow(r.alerts[|s.alerts|]);
    }
  }

  /** get_obsday appends no alert and keeps the recorded days. */
  lemma ObsDayGrows(s: Tables, t: DateTime)
    requires ValidDateTime(t)
    ensures Grows(s, ObsDayStep(s, t).1)
  {
    ObsDayInserts(s, t);
    assert s.alerts[..|s.alerts|] == s.alerts;
  }

  /** One row appends at most one analyst row, keeps every recorded day and
      keeps day ids unique. */
  lemma IngestRowGrows(s: Tables, row: seq<string>)
    requires IngestRow(s, row).Ok? && Keyed(s)
    ensures Grows(s, IngestRow(s, row).value) && Keyed(IngestRow(s, row).value)
    ensures |IngestRow(s, row).value.alerts| <= |s.alerts| + 1
  {
    var cells := FilterRow(row);
    if |cells| >= 5 && ParseRow(cells).Ok? {
      var ev := ParseRow(cells).value;
      var (day, s1) := ObsDayStep(s, ev.start.value);
      ObsDayGrows(s, ev.start.value);
      ObsDayKeepsKeyed(s, ev.start.value);
      IngestEventGrows(s1, ev.(obsDay := day.value));
      GrowsTrans(s, s1, IngestRow(s, row).value);
    }
  }

  /** The whole file only appends analyst rows and keeps day ids unique. */
  lemma {:induction false} IngestRowsGrows(s: Tables, rows: seq<seq<string>>, i: nat)
    requires i <= |rows| && IngestRows(s, rows, i).Ok? && Keyed(s)
    ensures Grows(s, IngestRows(s, rows, i).value) && Keyed(IngestRows(s, rows, i).value)
    ensures |IngestRows(s, rows, i).value.alerts| <= |s.alerts| + (|rows| - i)
    decreases |rows| - i
  {
    if i < |rows| {
      var s1 := IngestRow(s, rows[i]).value;
      IngestRowGrows(s, rows[i]);
      IngestRowsGrows(s1, rows, i + 1);
      GrowsTrans(s, s1, IngestRows(s, rows, i).value);
    }
  }

  /** get_obsday runs before ingest_event, so a parsed row records its
      observing day even when the event is not inserted; an observing day
      past the calendar raises OverflowError, which escapes. */
  lemma DayRecorded(s: Tables, row: seq<string>)
    requires |FilterRow(row)| >= 5 && ParseRow(FilterRow(row)).Ok?
    ensures var t := ParseRow(FilterRow(row)).value.start.value;
      if ObsDate(t).Ok? then IngestRow(s, row).Ok? && ObsDate(t).value in IngestRow(s, row).value.days
      else IngestRow(s, row) == Err(OverflowError)
  {
  }

  /** A time cell that filtering left empty raises IndexError, which escapes
      ingest_file and ends the run before the file is committed. */
  lemma EmptyTimeEndsFile(s: Tables, row: seq<string>)
    requires |FilterRow(row)| >= 5 && FilterRow(row)[1] == ""
    ensures IngestRow(s, row) == Err(IndexError)
  {
  }

  /** A cell of white space other than " " passes the emptiness test and
      is then stripped to nothing. */
  lemma WhiteCellKept(c: char)
    requires IsSpace(c) && c != ' '
    ensures FilterRow([[c]]) == [""]
  {
    assert KeepFrom([c], IsBlank, 0) == 0;
    assert KeepUntil([c], IsBlank, 0, 1) == 1;
    assert Strip([c], IsBlank) == [c];
    assert KeepFrom([c], IsSpace, 0) == 1;
    assert [[c]][1..] == [];
  }

  /** Cells that are non-empty and have no white space at their ends pass
      the filter unchanged. */
  lemma {:induction false} FilterRowClean(row: seq<string>)
    requires forall k :: 0 <= k < |row| ==> |row[k]| > 0 && !IsSpace(row[k][0]) && !IsSpace(row[k][|row[k]| - 1])
    ensures FilterRow(row) == row
    decreases |row|
  {
    if |row| > 0 {
      var c := row[0];
      StripKept(c, IsBlank);
      StripKept(c, IsSpace);
      FilterRowClean(row[1..]);
      assert [row[0]] + row[1..] == row;
    }
  }

  /** The number of header lines ingest_file skips. */
  const HeaderRows: nat := 53

  function DataRows(rows: seq<seq<string>>): seq<seq<string>> {
    if |rows| <= HeaderRows then [] else rows[HeaderRows..]
  }

  /** ingest_event(event, cursor). */
  method IngestEvent(db: Database, ev: Event)
    modifies db
    ensures db.Contents() == IngestEventSpec(old(db.Contents()), ev)
  {
    if Lower(ev.instrument) != "kcor" {
      return;
    }
    var found := FoundType(ev.kind);
    if found.None? {
      return;
    }
    db.InsertAlert(AnalystRow(ev, found.value));
  }

  /** One iteration of ingest_file's row loop; the answer is the exception
      that escapes the loop, if any. */
  method IngestOneRow(db: Database, row: seq<string>) returns (failure: Option<PyError>)
    modifies db
    ensures failure.None? ==> IngestRow(old(db.Contents()), row) == Ok(db.Contents())
    ensures failure.Some? ==> IngestRow(old(db.Contents()), row) == Err(failure.value)
  {
    var cells := FilterRow(row);
    if |cells| < 5 {
      return None;
    }
    var parsed := ParseRow(cells);
    if parsed.Err? {
      return if parsed.error == ValueError then None else Some(parsed.error);
    }
    var ev := parsed.value;
    var day := db.GetObsDay(ev.start.value);
    if day.Err? {
      return if day.error == ValueError then None else Some(day.error);
    }
    IngestEvent(db, ev.(obsDay := day.value));
    return None;
  }

  /** ingest_file on the rows the CSV reader yields. */
  method IngestFile(db: Database, rows: seq<seq<string>>) returns (failure: Option<PyError>)
    modifies db
    ensures failure.None? ==> IngestRows(old(db.Contents()), DataRows(rows), 0) == Ok(db.Contents())
    ensures failure.Some? ==> IngestRows(old(db.Contents()), DataRows(rows), 0) == Err(failure.value)
  {
    var body := DataRows(rows);
    ghost var s0 := db.Contents();
    for k := 0 to |body|
      invariant IngestRows(s0, body, 0) == IngestRows(db.Contents(), body, k)
    {
      failure := IngestOneRow(db, body[k]);
      if failure.Some? {
        return;
      }
    }
    return None;
  }
}
