/** The SEP forecast alert ingester: one decoded JSON document per file. The
    alert type of its first observation chooses one of four record builders;
    each reads its times with the alert format, looks up the observing day of
    the start time and appends one kcor_cme_alert row.

    Every exception escapes ingest_file and its caller, ending the run
    before the file is committed; which one is raised first follows the
    order in which the builder evaluates its fields. */
module JsonAlerts {
  import opened Common
  import opened Calendar
  import opened Strptime
  import opened JsonValue
  import opened MlsoDb

  // ---------------------------------------------------------------- paths

  const Submission: seq<Step> := [Key("sep_forecast_submission")]

  /** data["sep_forecast_submission"]["triggers"][0]["cme"] */
  const CmePath: seq<Step> := Submission + [Key("triggers"), Index(0), Key("cme")]

  /** data["sep_forecast_submission"]["inputs"][0]["coronagraph"]["products"][0] */
  const ProductsPath: seq<Step> := Submission + [Key("inputs"), Index(0), Key("coronagraph"), Key("products"), Index(0)]

  /** data["sep_forecast_submission"]["observations"][0] */
  const ObservationPath: seq<Step> := Submission + [Key("observations"), Index(0)]

  const AlertPath: seq<Step> := ObservationPath + [Key("alert")]

  /** strptime needs a str: any other JSON value raises TypeError. */
  function Text(j: Json): (r: Result<string, PyError>)
    ensures r.Ok? <==> j.JString?
    ensures r.Ok? ==> r.value == j.s
    ensures r.Err? ==> r.error == TypeError
  {
    if j.JString? then Ok(j.s) else Err(TypeError)
  }

  /** strptime(data[path], ISO_DT_FORMAT). */
  function TimeAt(data: Json, path: seq<Step>): (r: Result<DateTime, PyError>)
    ensures r.Ok? <==> (Follow(data, path).Ok? && Follow(data, path).value.JString?
      && AlertDateTime(Follow(data, path).value.s).Ok?)
    ensures r.Ok? ==> r.value == AlertDateTime(Follow(data, path).value.s).value && ValidDateTime(r.value)
  {
    match Follow(data, path)
    case Err(e) => Err(e)
    case Ok(v) =>
      match Text(v)
      case Err(e) => Err(e)
      case Ok(s) => AlertDateTime(s)
  }

  /** A time written in ISO 8601 is stored with its minutes and seconds swapped. */
  lemma IsoTimeSwapped(data: Json, path: seq<Step>, t: DateTime)
    requires ValidDateTime(t) && Follow(data, path) == Ok(JString(IsoText(t)))
    ensures TimeAt(data, path) == Ok(DateTime(t.date, t.hour, t.second, t.minute))
  {
    AlertFormatSwaps(t);
  }

  // ------------------------------------------------------------- builders

  /** The fields ingest_alert and ingest_summary take from the CME trigger
      and the coronagraph products, in the order they are read. */
  datatype CmeFields = CmeFields(
    issue: DateTime, start: DateTime, pa: Json, speed: Json, height: Json, timeAtHeight: DateTime, lastData: DateTime)

  function ReadCme(data: Json): (r: Result<CmeFields, PyError>)
    ensures r.Ok? <==> (TimeAt(data, Submission + [Key("issue_time")]).Ok? && TimeAt(data, CmePath + [Key("start_time")]).Ok?
      && Follow(data, CmePath + [Key("pa")]).Ok? && Follow(data, CmePath + [Key("speed")]).Ok?
      && Follow(data, CmePath + [Key("time_at_height"), Key("height")]).Ok?
      && TimeAt(data, CmePath + [Key("time_at_height"), Key("time")]).Ok?
      && TimeAt(data, ProductsPath + [Key("last_data_time")]).Ok?)
    ensures r.Ok? ==> r.value.start == TimeAt(data, CmePath + [Key("start_time")]).value && ValidDateTime(r.value.start)
    ensures r.Ok? ==> r.value.issue == TimeAt(data, Submission + [Key("issue_time")]).value
    ensures r.Ok? ==> r.value.lastData == TimeAt(data, ProductsPath + [Key("last_data_time")]).value
  {
    var issue := TimeAt(data, Submission + [Key("issue_time")]);
    var start := TimeAt(data, CmePath + [Key("start_time")]);
    var pa := Follow(data, CmePath + [Key("pa")]);
    var speed := Follow(data, CmePath + [Key("speed")]);
    var height := Follow(data, CmePath + [Key("time_at_height"), Key("height")]);
    var atHeight := TimeAt(data, CmePath + [Key("time_at_height"), Key("time")]);
    var lastData := TimeAt(data, ProductsPath + [Key("last_data_time")]);
    if issue.Err? then Err(issue.error)
    else if start.Err? then Err(start.error)
    else if pa.Err? then Err(pa.error)
    else if speed.Err? then Err(speed.error)
    else if height.Err? then Err(height.error)
    else if atHeight.Err? then Err(atHeight.error)
    else if lastData.Err? then Err(lastData.error)
    else Ok(CmeFields(issue.value, start.value, pa.value, speed.value, height.value, atHeight.value, lastData.value))
  }

  /** What every record of the alert ingester carries: a CME of the given
      alert type, an issue time and a valid start time, its day not yet
      looked up. */
  predicate CmeRecord(row: AlertRow, kind: string) {
    row.alertType == kind && row.eventType == "cme" && row.cmeType == "cme" && row.obsDay.None?
    && row.issueTime.Some? && row.startTime.Some? && ValidDateTime(row.startTime.value)
  }

  /** The row of a CME trigger: no end time, no comment, no confidence. */
  function CmeRow(kind: string, f: CmeFields, end: Option<DateTime>): AlertRow {
    AlertRow(None, kind, "cme", "cme", Some(f.issue), Some(f.start), end, Some(f.pa), Some(f.speed), Some(f.height),
      Some(f.timeAtHeight), Some(f.lastData), None, None)
  }

  /** ingest_alert's record, before get_obsday. */
  function InitialAlert(data: Json): (r: Result<AlertRow, PyError>)
    ensures r.Ok? ==> CmeRecord(r.value, "initial")
    ensures r.Ok? <==> ReadCme(data).Ok?
    ensures r.Ok? ==> r.value.alertType == "initial" && r.value.endTime.None? && r.value.comment.None?
    ensures r.Ok? ==> r.value.startTime == Some(ReadCme(data).value.start)
  {
    match ReadCme(data)
    case Err(e) => Err(e)
    case Ok(f) => Ok(CmeRow("initial", f, None))
  }

  /** ingest_summary's record: the CME fields, then the observation's end time. */
  function SummaryAlert(data: Json): (r: Result<AlertRow, PyError>)
    ensures r.Ok? ==> CmeRecord(r.value, "summary")
    ensures r.Ok? <==> ReadCme(data).Ok? && TimeAt(data, AlertPath + [Key("end_time")]).Ok?
    ensures r.Ok? ==> r.value.alertType == "summary" && r.value.comment.None?
    ensures r.Ok? ==> r.value.endTime == Some(TimeAt(data, AlertPath + [Key("end_time")]).value)
    ensures r.Ok? ==> r.value.startTime == Some(ReadCme(data).value.start)
  {
    match ReadCme(data)
    case Err(e) => Err(e)
    case Ok(f) =>
      match TimeAt(data, AlertPath + [Key("end_time")])
      case Err(e) => Err(e)
      case Ok(end) => Ok(CmeRow("summary", f, Some(end)))
  }

  /** The row of an observer alert or a retraction: no CME measurements. */
  function NoteRow(kind: string, issue: DateTime, start: DateTime, lastData: Option<DateTime>, comment: Json): AlertRow {
    AlertRow(None, kind, "cme", "cme", Some(issue), Some(start), None, None, None, None, None, lastData, None, Some(comment))
  }

  /** ingest_observer_alert's record: the last data time is optional. */
  function ObserverAlert(data: Json): (r: Result<AlertRow, PyError>)
    ensures r.Ok? ==> CmeRecord(r.value, "observer")
    ensures var products := Follow(data, ProductsPath);
      var has := if products.Ok? then Has(products.value, "last_data_time") else Err(products.error);
      r.Ok? <==> (TimeAt(data, Submission + [Key("issue_time")]).Ok? && TimeAt(data, AlertPath + [Key("start_time")]).Ok?
        && Follow(data, AlertPath + [Key("comment")]).Ok? && has.Ok?
        && (has.value ==> TimeAt(data, ProductsPath + [Key("last_data_time")]).Ok?))
    ensures var products := Follow(data, ProductsPath);
      r.Ok? ==> r.value.lastDataTime == (if Has(products.value, "last_data_time").value
        then Some(TimeAt(data, ProductsPath + [Key("last_data_time")]).value) else None)
    ensures r.Ok? ==> r.value.alertType == "observer" && r.value.endTime.None?
    ensures r.Ok? ==> r.value.startTime == Some(TimeAt(data, AlertPath + [Key("start_time")]).value)
    ensures r.Ok? ==> r.value.comment == Some(Follow(data, AlertPath + [Key("comment")]).value)
  {
    var issue := TimeAt(data, Submission + [Key("issue_time")]);
    var start := TimeAt(data, AlertPath + [Key("start_time")]);
    var comment := Follow(data, AlertPath + [Key("comment")]);
    var products := Follow(data, ProductsPath);
    if issue.Err? then Err(issue.error)
    else if start.Err? then Err(start.error)
    else if comment.Err? then Err(comment.error)
    else if products.Err? then Err(products.error)
    else
      match Has(products.value, "last_data_time")
      case Err(e) => Err(e)
      case Ok(false) => Ok(NoteRow("observer", issue.value, start.value, None, comment.value))
      case Ok(true) =>
        match TimeAt(data, ProductsPath + [Key("last_data_time")])
        case Err(e) => Err(e)
        case Ok(t) => Ok(NoteRow("observer", issue.value, start.value, Some(t), comment.value))
  }

  /** ingest_retraction's record: the last data time is required. */
  function Retraction(data: Json): (r: Result<AlertRow, PyError>)
    ensures r.Ok? ==> CmeRecord(r.value, "retraction")
    ensures r.Ok? <==> (TimeAt(data, Submission + [Key("issue_time")]).Ok? && TimeAt(data, AlertPath + [Key("start_time")]).Ok?
      && Follow(data, AlertPath + [Key("comment")]).Ok? && TimeAt(data, ProductsPath + [Key("last_data_time")]).Ok?)
    ensures r.Ok? ==> r.value.alertType == "retraction" && r.value.endTime.None?
    ensures r.Ok? ==> r.value.startTime == Some(TimeAt(data, AlertPath + [Key("start_time")]).value)
    ensures r.Ok? ==> r.value.lastDataTime == Some(TimeAt(data, ProductsPath + [Key("last_data_time")]).value)
  {
    var issue := TimeAt(data, Submission + [Key("issue_time")]);
    var start := TimeAt(data, AlertPath + [Key("start_time")]);
    var comment := Follow(data, AlertPath + [Key("comment")]);
    var lastData := TimeAt(data, ProductsPath + [Key("last_data_time")]);
    if issue.Err? then Err(issue.error)
    else if start.Err? then Err(start.error)
    else if comment.Err? then Err(comment.error)
    else if lastData.Err? then Err(lastData.error)
    else Ok(NoteRow("retraction", issue.value, start.value, Some(lastData.value), comment.value))
  }

  // ------------------------------------------------------------- dispatch

  /** The alert_type strings ingest_file acts on, and the alert type stored for each. */
  function KindOf(alertType: string): (r: Option<string>)
    ensures r.Some? <==> alertType in {"ALERT", "SUMMARY", "OBSERVER ALERT", "CANCEL ALERT"}
    ensures r.Some? ==> IsAlertKind(r.value)
  {
    if alertType == "ALERT" then Some("initial")
    else if alertType == "SUMMARY" then Some("summary")
    else if alertType == "OBSERVER ALERT" then Some("observer")
    else if alertType == "CANCEL ALERT" then Some("retraction")
    else None
  }

  /** The record of the builder alertType selects: a CME record of the kind
      its alert type names, with a valid start time. */
  function Build(data: Json, alertType: string): (r: Result<AlertRow, PyError>)
    requires KindOf(alertType).Some?
    ensures r.Ok? ==> CmeRecord(r.value, KindOf(alertType).value)
  {
    if alertType == "ALERT" then InitialAlert(data)
    else if alertType == "SUMMARY" then SummaryAlert(data)
    else if alertType == "OBSERVER ALERT" then ObserverAlert(data)
    else Retraction(data)
  }

  /** ingest_file's choice: None when the first observation has no alert
      or its alert type is none of the four; the built record otherwise. */
  function Dispatch(data: Json): (r: Result<Option<AlertRow>, PyError>)
    ensures var obs := Follow(data, ObservationPath);
      obs.Ok? && Has(obs.value, "alert") == Ok(false) ==> r == Ok(None)
    ensures r.Ok? && r.value.Some? ==> var ty := Follow(data, AlertPath + [Key("alert_type")]);
      ty.Ok? && ty.value.JString? && KindOf(ty.value.s).Some? && Build(data, ty.value.s) == Ok(r.value.value)
  {
    match Follow(data, ObservationPath)
    case Err(e) => Err(e)
    case Ok(obs) =>
      match Has(obs, "alert")
      case Err(e) => Err(e)
      case Ok(false) => Ok(None)
      case Ok(true) =>
        FollowAppend(data, ObservationPath, [Key("alert"), Key("alert_type")]);
        assert ObservationPath + [Key("alert"), Key("alert_type")] == AlertPath + [Key("alert_type")];
        match Follow(obs, [Key("alert"), Key("alert_type")])
        case Err(e) => Err(e)
        case Ok(ty) =>
          if ty.JString? && KindOf(ty.s).Some? then
            match Build(data, ty.s)
            case Err(e) => Err(e)
            case Ok(row) => Ok(Some(row))
          else Ok(None)
  }

  /** get_obsday on the record's start time, then the insert with its answer;
      the day is recorded even though the answer is None after an insert. */
  function InsertRecord(s: Tables, row: AlertRow): (r: Result<Tables, PyError>)
    requires row.startTime.Some? && ValidDateTime(row.startTime.value)
    ensures var (day, s1) := ObsDayStep(s, row.startTime.value);
      match day
      case Err(e) => r == Err(e)
      case Ok(id) => r == Ok(s1.(alerts := s.alerts + [row.(obsDay := id)]))
  {
    var (day, s1) := ObsDayStep(s, row.startTime.value);
    match day
    case Err(e) => Err(e)
    case Ok(id) => Ok(s1.(alerts := s1.alerts + [row.(obsDay := id)]))
  }

  /** ingest_file on a decoded document. */
  function IngestDocument(s: Tables, data: Json): (r: Result<Tables, PyError>)
    ensures r.Err? ==> Dispatch(data).Err? || r.error == OverflowError
    ensures r.Ok? ==> s.days.Keys <= r.value.days.Keys
    ensures r.Ok? && |r.value.alerts| == |s.alerts| ==> r.value == s
  {
    match Dispatch(data)
    case Err(e) => Err(e)
    case Ok(None) => Ok(s)
    case Ok(Some(row)) =>
      InsertRecord(s, row)
  }
  /** With a products dict that has no last_data_time, only the observer
      alert can be built, and its row leaves the column NULL. */
  lemma MissingLastDataTime(data: Json, f: map<string, Json>)
    requires Follow(data, ProductsPath) == Ok(JObject(f)) && "last_data_time" !in f
    ensures InitialAlert(data).Err? && SummaryAlert(data).Err? && Retraction(data).Err?
    ensures ObserverAlert(data).Ok? <==> (TimeAt(data, Submission + [Key("issue_time")]).Ok?
      && TimeAt(data, AlertPath + [Key("start_time")]).Ok? && Follow(data, AlertPath + [Key("comment")]).Ok?)
    ensures ObserverAlert(data).Ok? ==> ObserverAlert(data).value.lastDataTime.None?
  {
    FollowAppend(data, ProductsPath, [Key("last_data_time")]);
  }

  /** A known alert type selects its builder: the document's record, or the
      exception the builder raises. */
  lemma DispatchBuilds(data: Json, alertType: string)
    requires Follow(data, ObservationPath).Ok? && Has(Follow(data, ObservationPath).value, "alert") == Ok(true)
    requires Follow(data, AlertPath + [Key("alert_type")]) == Ok(JString(alertType)) && KindOf(alertType).Some?
    ensures Dispatch(data) == match Build(data, alertType) case Err(e) => Err(e) case Ok(row) => Ok(Some(row))
  {
    FollowAppend(data, ObservationPath, [Key("alert"), Key("alert_type")]);
    assert ObservationPath + [Key("alert"), Key("alert_type")] == AlertPath + [Key("alert_type")];
  }

  /** Any other alert type, or one that is not a string, inserts nothing. */
  lemma OtherTypeIgnored(s: Tables, data: Json)
    requires Follow(data, ObservationPath).Ok? && Has(Follow(data, ObservationPath).value, "alert") == Ok(true)
    requires var ty := Follow(data, AlertPath + [Key("alert_type")]);
      ty.Ok? && !(ty.value.JString? && KindOf(ty.value.s).Some?)
    ensures IngestDocument(s, data) == Ok(s)
  {
    FollowAppend(data, ObservationPath, [Key("alert"), Key("alert_type")]);
    assert ObservationPath + [Key("alert"), Key("alert_type")] == AlertPath + [Key("alert_type")];
  }

  /** A first observation without "alert" inserts nothing. */
  lemma NoAlertIgnored(s: Tables, data: Json)
    requires Follow(data, ObservationPath).Ok? && Has(Follow(data, ObservationPath).value, "alert") == Ok(false)
    ensures IngestDocument(s, data) == Ok(s)
  {
  }

  /** The alert types the ingester stores. */
  predicate IsAlertKind(kind: string) {
    kind == "initial" || kind == "summary" || kind == "observer" || kind == "retraction"
  }

  /** A document appends at most one CME row, of one of the four alert
      types, and keeps day ids unique. */
  lemma IngestDocumentShape(s: Tables, data: Json)
    requires IngestDocument(s, data).Ok?
    ensures var s1 := IngestDocument(s, data).value;
      s1.alerts == s.alerts || (|s1.alerts| == |s.alerts| + 1 && s1.alerts[..|s.alerts|] == s.alerts
        && IsAlertKind(s1.alerts[|s.alerts|].alertType) && s1.alerts[|s.alerts|].eventType == "cme"
        && s1.alerts[|s.alerts|].cmeType == "cme" && s1.alerts[|s.alerts|].issueTime.Some?)
    ensures Keyed(s) ==> Keyed(IngestDocument(s, data).value)
  {
    var d := Dispatch(data);
    if d.value.Some? {
      var row := d.value.value;
      if Keyed(s) {
        ObsDayKeepsKeyed(s, row.startTime.value);
      }
      var s1 := IngestDocument(s, data).value;
      assert s1.alerts[..|s.alerts|] == s.alerts;
    }
  }
  /** ingest_file against the database: the dispatch, then get_obsday and
      the insert. */
  method IngestFile(db: Database, data: Json) returns (failure: Option<PyError>)
    modifies db
    ensures failure.None? ==> IngestDocument(old(db.Contents()), data) == Ok(db.Contents())
    ensures failure.Some? ==> IngestDocument(old(db.Contents()), data) == Err(failure.value)
    ensures failure.Some? ==> db.Contents() == old(db.Contents())
  {
    var record := Dispatch(data);
    if record.Err? {
      return Some(record.error);
    }
    if record.value.None? {
      return None;
    }
    var row := record.value.value;
    var day := db.GetObsDay(row.startTime.value);
    if day.Err? {
      return Some(day.error);
    }
    db.InsertAlert(row.(obsDay := day.value));
    return None;
  }
}
