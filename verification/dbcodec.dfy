/** The newer bot's database rows (`database` crate): every id column is
    decimal text, the status is its `to_db` text, and reading a row back can
    fail with a typed error naming what was wrong. */
module DbCodec {
  import opened Wrappers
  import opened Text
  import opened Common

  /** `database::Error`. The store's own failures are not modelled: the store
      here is a value, so reads and writes of it always succeed. */
  datatype Error =
    | InvalidReportStatus(raw: string)
    | ParseIntError
    | CommonError(raw: string)

  /** A row of the Reports table. `id` is Some when the row comes from the
      store and None when it is built from a Report. The table has no column
      for a report's location. */
  datatype DBReport = DBReport(
    id: Option<int>,
    reporterId: string,
    reporterName: string,
    reportedId: string,
    reportedName: string,
    reportReason: string,
    reportStatus: string,
    server: string,
    time: string,
    claimant: Option<string>,
    audit: Option<string>)

  /** A row of the Actions table. */
  datatype DBAction = DBAction(
    id: Option<int>,
    targetId: string,
    targetUsername: string,
    offense: string,
    action: string,
    server: string,
    claimant: string,
    report: Option<int>)

  /** An optional id column: NULL stays None, text must parse as u64. */
  function ParseOptionalId(t: Option<string>): (r: Result<Option<u64>, Error>)
    ensures t.None? ==> r == Ok(None)
    ensures t.Some? ==> (r.Ok? <==> ParseU64(t.value).Some?)
    ensures t.Some? && r.Ok? ==> r.value == ParseU64(t.value)
  {
    match t
    case None => Ok(None)
    case Some(s) =>
      match ParseU64(s)
      case Some(v) => Ok(Some(v))
      case None => Err(ParseIntError)
  }

  /** `DBReport::into_report`. Fields are converted in declaration order, so an
      unknown status is reported before a bad claimant or audit. With no
      location column, the report read back has the default location. */
  function IntoReport(row: DBReport): (r: Result<Report, Error>)
    ensures StatusFromDb(row.reportStatus).None? ==> r == Err(InvalidReportStatus(row.reportStatus))
    ensures (StatusFromDb(row.reportStatus).Some? && row.claimant.Some? && ParseU64(row.claimant.value).None?)
            ==> r == Err(ParseIntError)
    ensures r.Ok? <==>
              && StatusFromDb(row.reportStatus).Some?
              && ParseOptionalId(row.claimant).Ok?
              && ParseOptionalId(row.audit).Ok?
    ensures r.Ok? ==> (r.value.claimant.None? <==> row.claimant.None?)
    ensures r.Ok? ==> (r.value.audit.None? <==> row.audit.None?)
    ensures r.Ok? ==> r.value.time == row.time && r.value.server == row.server
    ensures r.Ok? ==> r.value.location == DefaultLocation()
  {
    match StatusFromDb(row.reportStatus)
    case None => Err(InvalidReportStatus(row.reportStatus))
    case Some(status) =>
      match ParseOptionalId(row.claimant)
      case Err(e) => Err(e)
      case Ok(claimant) =>
        match ParseOptionalId(row.audit)
        case Err(e) => Err(e)
        case Ok(audit) =>
          Ok(Report(row.reporterId, row.reporterName, row.reportedId, row.reportedName,
                    row.reportReason, status, row.server, row.time, claimant, audit, DefaultLocation()))
  }

  /** `DBReport::from_report`: ids become decimal text; the row has no id yet. */
  function FromReport(r: Report): (row: DBReport)
    ensures row.id.None?
    ensures row.reportStatus == StatusToDb(r.reportStatus)
  {
    DBReport(None, r.reporterId, r.reporterName, r.reportedId, r.reportedName, r.reportReason,
             StatusToDb(r.reportStatus), r.server, r.time,
             if r.claimant.Some? then Some(DecimalText(r.claimant.value)) else None,
             if r.audit.Some? then Some(DecimalText(r.audit.value)) else None)
  }

  /** Writing a report and reading it back gives the same report, except
      that its location comes back as the default one. */
  lemma ReportRoundTrip(r: Report)
    ensures IntoReport(FromReport(r)) == Ok(r.(location := DefaultLocation()))
  {
    StatusRoundTrip(r.reportStatus);
    if r.claimant.Some? {
      ParseU64RoundTrip(r.claimant.value);
    }
    if r.audit.Some? {
      ParseU64RoundTrip(r.audit.value);
    }
  }

  /** The row id plays no part in reading a row. */
  lemma IntoReportIgnoresId(row: DBReport, id: Option<int>)
    ensures IntoReport(row.(id := id)) == IntoReport(row)
  {
  }

  /** `i64 as u32`: keeps the low 32 bits. */
  function TruncateToU32(i: int): (r: u32)
    ensures 0 <= i < U32_LIMIT ==> r == i
  {
    i % U32_LIMIT
  }

  /** `From<Action> for DBAction`. */
  function ActionToRow(a: Action): (row: DBAction)
    ensures row.id.None?
    ensures row.report.Some? <==> a.report.Some?
  {
    DBAction(None, a.targetId, a.targetUsername, a.offense, a.action, LocationText(a.server),
             DecimalText(a.claimant), if a.report.Some? then Some(a.report.value) else None)
  }

  /** `TryInto<Action> for DBAction`: the claimant must parse as u64 and the
      server must be a known location text; the report id is truncated to u32. */
  function RowToAction(row: DBAction): (r: Result<Action, Error>)
    ensures r.Ok? <==> ParseU64(row.claimant).Some? && LocationFromText(row.server).Some?
    ensures ParseU64(row.claimant).None? ==> r == Err(ParseIntError)
    ensures ParseU64(row.claimant).Some? && LocationFromText(row.server).None? ==> r == Err(CommonError(row.server))
    ensures r.Ok? ==> (r.value.report.None? <==> row.report.None?)
  {
    var report: Option<u32> := if row.report.Some? then Some(TruncateToU32(row.report.value)) else None;
    match ParseU64(row.claimant)
    case None => Err(ParseIntError)
    case Some(claimant) =>
      match LocationFromText(row.server)
      case None => Err(CommonError(row.server))
      case Some(server) =>
        Ok(Action(row.targetId, row.targetUsername, row.offense, row.action, server, claimant, report))
  }

  /** Writing an action and reading it back gives the same action: the report
      id goes u32 -> i64 -> u32 and the claimant u64 -> text -> u64. */
  lemma ActionRoundTrip(a: Action)
    ensures RowToAction(ActionToRow(a)) == Ok(a)
  {
    ParseU64RoundTrip(a.claimant);
    LocationRoundTrip(a.server);
  }

  lemma RowToActionIgnoresId(row: DBAction, id: Option<int>)
    ensures RowToAction(row.(id := id)) == RowToAction(row)
  {
  }
}
