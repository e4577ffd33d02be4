/** The two MLSO tables the ingest scripts touch: mlso_numfiles, which gives
    each observing day an auto-increment day_id, and kcor_cme_alert, to which
    rows are appended. get_obsday is the lookup-or-insert on mlso_numfiles
    keyed by the date ten hours before an instant. */
module MlsoDb {
  import opened Common
  import opened Calendar
  import opened JsonValue

  /** One kcor_cme_alert row; None is a column left NULL. The JSON-valued
      columns hold whatever the alert document had there. */
  datatype AlertRow = AlertRow(
    obsDay: Option<nat>,
    alertType: string,
    eventType: string,
    cmeType: string,
    issueTime: Option<DateTime>,
    startTime: Option<DateTime>,
    endTime: Option<DateTime>,
    positionAngle: Option<Json>,
    speed: Option<Json>,
    height: Option<Json>,
    timeForHeight: Option<DateTime>,
    lastDataTime: Option<DateTime>,
    confidenceLevel: Option<string>,
    comment: Option<Json>)

  /** The contents of both tables, with the next day_id the database hands out. */
  datatype Tables = Tables(days: map<Date, nat>, nextDayId: nat, alerts: seq<AlertRow>)

  /** Auto-increment keys: every day_id is below the next one and no two
      days share one. */
  predicate Keyed(s: Tables) {
    (forall d :: d in s.days ==> s.days[d] < s.nextDayId) &&
    (forall d, e :: d in s.days && e in s.days && s.days[d] == s.days[e] ==> d == e)
  }

  /** get_obsday(t): the day_id of t's observing day if it has a row;
      otherwise that day is inserted and the answer is None, since the
      function falls off its end after the insert. */
  function ObsDayStep(s: Tables, t: DateTime): (r: (Result<Option<nat>, PyError>, Tables))
    requires ValidDateTime(t)
    ensures r.1.alerts == s.alerts
    ensures r.0.Err? <==> ObsDate(t).Err?
    ensures r.0.Err? ==> r.0.error == OverflowError && r.1 == s
    ensures r.0.Ok? ==> ObsDate(t).value in r.1.days && s.days.Keys <= r.1.days.Keys
    ensures r.0.Ok? && r.0.value.Some? ==> ObsDate(t).value in s.days && r.0.value.value == s.days[ObsDate(t).value] && r.1 == s
  {
    match ObsDate(t)
    case Err(e) => (Err(e), s)
    case Ok(d) =>
      if d in s.days then (Ok(Some(s.days[d])), s)
      else (Ok(None), s.(days := s.days[d := s.nextDayId], nextDayId := s.nextDayId + 1))
  }

  /** The answer is None exactly when the observing day had no row yet, and
      then the new row has the next key and only that key is added. */
  lemma ObsDayInserts(s: Tables, t: DateTime)
    requires ValidDateTime(t)
    ensures var (a, s1) := ObsDayStep(s, t);
      a == Ok(None) <==> ObsDate(t).Ok? && ObsDate(t).value !in s.days
    ensures var (a, s1) := ObsDayStep(s, t);
      a == Ok(None) ==> s1.days == s.days[ObsDate(t).value := s.nextDayId] && s1.nextDayId == s.nextDayId + 1
  {
  }

  /** get_obsday keeps day_ids unique and below the next one. */
  lemma ObsDayKeepsKeyed(s: Tables, t: DateTime)
    requires ValidDateTime(t) && Keyed(s)
    ensures Keyed(ObsDayStep(s, t).1)
  {
    var s1 := ObsDayStep(s, t).1;
    if s1 != s {
      var d := ObsDate(t).value;
      forall e, f | e in s1.days && f in s1.days && s1.days[e] == s1.days[f]
        ensures e == f
      {
        if e != d && f != d {
          assert s.days[e] == s.days[f];
        }
      }
    }
  }

  /** After get_obsday(t), get_obsday on any instant with the same observing
      day finds the row and changes nothing. */
  lemma ObsDaySecondCallFinds(s: Tables, t: DateTime, u: DateTime)
    requires ValidDateTime(t) && ValidDateTime(u)
    requires ObsDate(t).Ok? && ObsDate(u) == ObsDate(t)
    ensures var s1 := ObsDayStep(s, t).1;
      ObsDayStep(s1, u) == (Ok(Some(s1.days[ObsDate(t).value])), s1)
  {
  }

  /** Instants of one observing day share a day_id: the first call inserts the
      day and every later call answers with the id it was given. */
  lemma ObsDayIdOfInsert(s: Tables, t: DateTime, u: DateTime)
    requires ValidDateTime(t) && ValidDateTime(u)
    requires ObsDayStep(s, t).0 == Ok(None) && ObsDate(u) == ObsDate(t)
    ensures ObsDayStep(ObsDayStep(s, t).1, u).0 == Ok(Some(s.nextDayId))
  {
    ObsDayInserts(s, t);
  }

  function Empty(): (r: Tables)
    ensures Keyed(r) && r.days == map[] && r.alerts == []
  {
    Tables(map[], 1, [])
  }

  /** A database connection's view of the two tables. */
  class Database {
    var days: map<Date, nat>
    var nextDayId: nat
    var alerts: seq<AlertRow>

    function Contents(): Tables
      reads this
    {
      Tables(days, nextDayId, alerts)
    }

    constructor ()
      ensures Contents() == Empty()
    {
      days := map[];
      nextDayId := 1;
      alerts := [];
    }

    /** get_obsday: a select on mlso_numfiles, then an insert when it finds nothing. */
    method GetObsDay(t: DateTime) returns (r: Result<Option<nat>, PyError>)
      requires ValidDateTime(t)
      modifies this
      ensures (r, Contents()) == ObsDayStep(old(Contents()), t)
    {
      var day := ObsDate(t);
      if day.Err? {
        return Err(day.error);
      }
      var d := day.value;
      if d in days {
        return Ok(Some(days[d]));
      }
      days := days[d := nextDayId];
      nextDayId := nextDayId + 1;
      return Ok(None);
    }

    /** An insert into kcor_cme_alert. */
    method InsertAlert(row: AlertRow)
      modifies this
      ensures Contents() == old(Contents()).(alerts := old(alerts) + [row])
    {
      alerts := alerts + [row];
    }
  }
}
