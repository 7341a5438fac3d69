/** The older bot's storage layer (`src/db.rs`): rows hold text columns as
    SQLite does, reads decode them (a status text outside the three variants
    is a decode error), link tables store ids as decimal text, and the two
    "update the message" operations re-read the store. */
module LegacyDb {
  import opened Wrappers
  import opened Text
  import Common
  import opened Store
  import opened Legacy
  import Ui

  /** A Reports row. */
  datatype ReportRow = ReportRow(
    reporterId: string,
    reporterName: string,
    reportedId: string,
    reportedName: string,
    reportReason: string,
    reportStatus: string,
    server: string,
    time: string,
    claimant: Option<string>,
    audit: Option<string>)

  /** An Actions row. */
  datatype ActionRow = ActionRow(
    targetId: string,
    targetUsername: string,
    offense: string,
    action: string,
    server: string,
    claimant: string,
    report: Option<int>)

  type Db = Tables<ReportRow, ActionRow>

  datatype DbError =
    | UndecodableStatus(text: string)
    | UndecodableLocation(text: string)
    | RowNotFound
    | NotU64(text: string)
    | NoReport
    | NoAction
    | MessageNotFetched
    | EditFailed
    | Panicked

  /** Decoding a Reports row (`query_as!(Report, …)`). */
  function ReportFromRow(row: ReportRow): (r: Result<Report, DbError>)
    ensures r.Err? <==> StatusFromText(row.reportStatus).None?
    ensures r.Err? ==> r.error == UndecodableStatus(row.reportStatus)
  {
    match StatusFromText(row.reportStatus)
    case None => Err(UndecodableStatus(row.reportStatus))
    case Some(s) =>
      Ok(Report(row.reporterId, row.reporterName, row.reportedId, row.reportedName, row.reportReason, s,
                row.server, row.time, row.claimant, row.audit))
  }

  /** The row holding a report, every column written. */
  function RowOfReport(r: Report): ReportRow {
    ReportRow(r.reporterId, r.reporterName, r.reportedId, r.reportedName, r.reportReason, StatusText(r.reportStatus),
              r.server, r.time, r.claimant, r.audit)
  }

  lemma ReportRowRoundTrip(r: Report)
    ensures ReportFromRow(RowOfReport(r)) == Ok(r)
  {
  }

  function ActionFromRow(row: ActionRow): (r: Result<Action, DbError>)
    ensures r.Err? <==> Common.LocationFromText(row.server).None?
  {
    match Common.LocationFromText(row.server)
    case None => Err(UndecodableLocation(row.server))
    case Some(l) => Ok(Action(row.targetId, row.targetUsername, row.offense, row.action, l, row.claimant, row.report))
  }

  function RowOfAction(a: Action): ActionRow {
    ActionRow(a.targetId, a.targetUsername, a.offense, a.action, Common.LocationText(a.server), a.claimant, a.report)
  }

  lemma ActionRowRoundTrip(a: Action)
    ensures ActionFromRow(RowOfAction(a)) == Ok(a)
  {
    Common.LocationRoundTrip(a.server);
  }

  /** `get_report`: no row is Ok(None); a row that does not decode is an error. */
  function GetReport(db: Db, id: int): (r: Result<Option<Report>, DbError>)
    ensures id !in db.reports ==> r == Ok(None)
    ensures id in db.reports ==> r.Ok? == ReportFromRow(db.reports[id]).Ok?
    ensures id in db.reports && r.Ok? ==> r.value == Some(ReportFromRow(db.reports[id]).value)
  {
    if id < 0 || id !in db.reports then Ok(None)
    else
      match ReportFromRow(db.reports[id])
      case Err(e) => Err(e)
      case Ok(rep) => Ok(Some(rep))
  }

  /** `get_action`. */
  function GetAction(db: Db, id: int): (r: Result<Option<Action>, DbError>)
    ensures id !in db.actions ==> r == Ok(None)
    ensures id in db.actions ==> r.Ok? == ActionFromRow(db.actions[id]).Ok?
    ensures id in db.actions && r.Ok? ==> r.value == Some(ActionFromRow(db.actions[id]).value)
  {
    if id < 0 || id !in db.actions then Ok(None)
    else
      match ActionFromRow(db.actions[id])
      case Err(e) => Err(e)
      case Ok(a) => Ok(Some(a))
  }

  /** `add_report`: the insert names eight columns, so claimant and audit
      are left NULL whatever the report holds. Returns the row id. */
  function AddReport(db: Db, r: Report): (out: (Db, int))
    requires db.Valid()
    ensures out.0.Valid() && out.1 == db.nextReport
    ensures out.0.reports == db.reports[db.nextReport := RowOfReport(r).(claimant := None, audit := None)]
    ensures out.0.actions == db.actions && out.0.reportLinks == db.reportLinks && out.0.actionLinks == db.actionLinks
    ensures out.0.nextReport == db.nextReport + 1 && out.0.nextAction == db.nextAction
  {
    var (db1, id) := InsertReport(db, RowOfReport(r).(claimant := None, audit := None));
    (db1, id)
  }

  /** A stored report reads back without claimant and audit. */
  lemma AddReportThenGet(db: Db, r: Report)
    requires db.Valid()
    ensures var (db1, id) := AddReport(db, r);
            GetReport(db1, id) == Ok(Some(r.(claimant := None, audit := None)))
  {
  }

  /** `add_action`: every column is written. Returns the row id. */
  function AddAction(db: Db, a: Action): (out: (Db, int))
    requires db.Valid()
    ensures out.0.Valid() && out.1 == db.nextAction
    ensures out.0.actions == db.actions[db.nextAction := RowOfAction(a)]
    ensures out.0.reports == db.reports && out.0.reportLinks == db.reportLinks && out.0.actionLinks == db.actionLinks
    ensures out.0.nextAction == db.nextAction + 1 && out.0.nextReport == db.nextReport
  {
    var (db1, id) := InsertAction(db, RowOfAction(a));
    (db1, id)
  }

  lemma AddActionThenGet(db: Db, a: Action)
    requires db.Valid()
    ensures var (db1, id) := AddAction(db, a);
            GetAction(db1, id) == Ok(Some(a))
  {
    ActionRowRoundTrip(a);
  }

  /** `add_report_message`: message and channel ids as decimal text. */
  function AddReportMessage(db: Db, id: int, channel: u64, message: u64): (r: Db)
    requires db.Valid()
    ensures r.Valid()
    ensures r.reportLinks == db.reportLinks + [LinkRow(id, DecimalText(message), DecimalText(channel))]
    ensures r.reports == db.reports && r.actions == db.actions && r.actionLinks == db.actionLinks
    ensures r.nextReport == db.nextReport && r.nextAction == db.nextAction
  {
    AddReportLink(db, id, DecimalText(message), DecimalText(channel))
  }

  /** `add_action_message`. */
  function AddActionMessage(db: Db, id: int, channel: u64, message: u64): (r: Db)
    requires db.Valid()
    ensures r.Valid()
    ensures r.actionLinks == db.actionLinks + [LinkRow(id, DecimalText(message), DecimalText(channel))]
    ensures r.reports == db.reports && r.actions == db.actions && r.reportLinks == db.reportLinks
    ensures r.nextReport == db.nextReport && r.nextAction == db.nextAction
  {
    AddActionLink(db, id, DecimalText(message), DecimalText(channel))
  }

  /** A link row's (channel, message), each parsed back to u64 (message
      first, as the source parses it). */
  function ParseLink(row: LinkRow): (r: Result<(u64, u64), DbError>)
    ensures r.Ok? <==> ParseU64(row.message).Some? && ParseU64(row.channel).Some?
  {
    match ParseU64(row.message)
    case None => Err(NotU64(row.message))
    case Some(m) =>
      match ParseU64(row.channel)
      case None => Err(NotU64(row.channel))
      case Some(c) => Ok((c, m))
  }

  /** `get_report_message_from_id`: `fetch_one`, so a missing row is an
      error, not None. */
  function GetReportMessageFromId(db: Db, rid: int): (r: Result<(u64, u64), DbError>)
    ensures FindLink(db.reportLinks, rid).None? ==> r == Err(RowNotFound)
    ensures FindLink(db.reportLinks, rid).Some? ==> r == ParseLink(FindLink(db.reportLinks, rid).value)
  {
    match FindLink(db.reportLinks, rid)
    case None => Err(RowNotFound)
    case Some(row) => ParseLink(row)
  }

  /** `get_audit_message_from_id`. */
  function GetAuditMessageFromId(db: Db, aid: int): (r: Result<(u64, u64), DbError>)
    ensures FindLink(db.actionLinks, aid).None? ==> r == Err(RowNotFound)
    ensures FindLink(db.actionLinks, aid).Some? ==> r == ParseLink(FindLink(db.actionLinks, aid).value)
  {
    match FindLink(db.actionLinks, aid)
    case None => Err(RowNotFound)
    case Some(row) => ParseLink(row)
  }

  /** A recorded report message is found again under its report, unless an
      older row for that report comes first. */
  lemma AddReportMessageThenGet(db: Db, id: int, channel: u64, message: u64)
    requires db.Valid() && FindLink(db.reportLinks, id).None?
    ensures GetReportMessageFromId(AddReportMessage(db, id, channel, message), id) == Ok((channel, message))
  {
    FindLinkAppend(db.reportLinks, LinkRow(id, DecimalText(message), DecimalText(channel)), id);
    ParseU64RoundTrip(message);
    ParseU64RoundTrip(channel);
  }

  lemma AddActionMessageThenGet(db: Db, id: int, channel: u64, message: u64)
    requires db.Valid() && FindLink(db.actionLinks, id).None?
    ensures GetAuditMessageFromId(AddActionMessage(db, id, channel, message), id) == Ok((channel, message))
  {
    FindLinkAppend(db.actionLinks, LinkRow(id, DecimalText(message), DecimalText(channel)), id);
    ParseU64RoundTrip(message);
    ParseU64RoundTrip(channel);
  }

  /** The first link row whose message column is `message`. */
  function FindByMessage(links: seq<LinkRow>, message: string): (r: Option<LinkRow>)
    ensures r.Some? ==> r.value in links && r.value.message == message
    ensures r.None? <==> forall i :: 0 <= i < |links| ==> links[i].message != message
  {
    if |links| == 0 then None
    else if links[0].message == message then Some(links[0])
    else
      var r := FindByMessage(links[1..], message);
      assert forall i :: 1 <= i < |links| ==> links[i] == links[1..][i - 1];
      r
  }

  /** `get_audit_message_from_report`: Ok(None) when the report is missing,
      has no audit, or no action message has the audit's message id; a
      matching row whose ids are not numbers panics (`expect`). */
  function GetAuditMessageFromReport(db: Db, rid: int): (r: Result<Option<(u64, u64)>, DbError>)
    ensures GetReport(db, rid) == Ok(None) ==> r == Ok(None)
    ensures (forall rep: Report :: GetReport(db, rid) == Ok(Some(rep)) && rep.audit.None? ==> r == Ok(None))
    ensures GetReport(db, rid).Err? ==> r == Err(GetReport(db, rid).error)
    ensures r.Ok? && r.value.Some? ==>
              exists rep: Report :: GetReport(db, rid) == Ok(Some(rep)) && rep.audit.Some? &&
                ParseU64(rep.audit.value) == Some(r.value.value.1)
  {
    match GetReport(db, rid)
    case Err(e) => Err(e)
    case Ok(None) => Ok(None)
    case Ok(Some(rep)) =>
      match rep.audit
      case None => Ok(None)
      case Some(e) =>
        match FindByMessage(db.actionLinks, e)
        case None => Ok(None)
        case Some(row) =>
          match ParseLink(row)
          case Err(_) => Err(Panicked)
          case Ok(link) => Ok(Some(link))
  }

  /** What an edited report message shows: the status line and the buttons. */
  datatype OldReportView = OldReportView(status: string, rows: seq<seq<Ui.Button>>)

  /** `update_report_message`: re-reads the report, then its message (an
      error when either is missing, or when Discord does not return the
      message: `fetched`); building the embed then panics on an audit that
      is not a message id and then on a time that `timestamp` does not parse
      (`parse::<Timestamp>().expect`). `slAudit` is the SL audit channel;
      `edited` whether Discord accepted the edit. */
  function UpdateReportMessage(db: Db, id: int, slAudit: u64, timestamp: string -> Option<int>,
                               fetched: bool, edited: bool): (r: Result<OldReportView, DbError>)
    ensures GetReport(db, id) == Ok(None) ==> r == Err(NoReport)
    ensures GetReport(db, id).Err? ==> r == Err(GetReport(db, id).error)
    ensures (GetReport(db, id).Ok? && GetReport(db, id).value.Some? && FindLink(db.reportLinks, id).None?)
              ==> r == Err(RowNotFound)
    ensures (GetReport(db, id).Ok? && GetReport(db, id).value.Some? && GetReportMessageFromId(db, id).Ok? && !fetched)
              ==> r == Err(MessageNotFetched)
    ensures (GetReport(db, id).Ok? && GetReport(db, id).value.Some? && GetReportMessageFromId(db, id).Ok? && fetched
             && timestamp(GetReport(db, id).value.value.time).None?) ==> r == Err(Panicked)
    ensures r.Ok? ==> fetched && edited && GetReport(db, id).Ok? && GetReport(db, id).value.Some? && GetReportMessageFromId(db, id).Ok?
    ensures r.Ok? ==> timestamp(GetReport(db, id).value.value.time).Some?
    ensures r.Ok? ==> (var rep := GetReport(db, id).value.value;
                       r.value.rows == Components(rep.reportStatus, id) && Some(r.value.status) == StatusString(rep, slAudit))
    ensures r == Err(Panicked) ==>
              && fetched && GetReport(db, id).Ok? && GetReport(db, id).value.Some? && GetReportMessageFromId(db, id).Ok?
              && (StatusString(GetReport(db, id).value.value, slAudit).None? || timestamp(GetReport(db, id).value.value.time).None?)
  {
    match GetReport(db, id)
    case Err(e) => Err(e)
    case Ok(None) => Err(NoReport)
    case Ok(Some(rep)) =>
      match GetReportMessageFromId(db, id)
      case Err(e) => Err(e)
      case Ok(_) =>
        if !fetched then Err(MessageNotFetched)
        else
          match StatusString(rep, slAudit)
          case None => Err(Panicked)
          case Some(status) =>
            if timestamp(rep.time).None? then Err(Panicked)
            else if edited then Ok(OldReportView(status, Components(rep.reportStatus, id)))
            else Err(EditFailed)
  }

  /** What an edited audit message shows. */
  datatype OldAuditView = OldAuditView(footer: string, rows: seq<seq<Ui.Button>>)

  /** `update_audit_message`: re-reads the action and its message; building
      the embed parses the claimant as a user id. */
  function UpdateAuditMessage(db: Db, id: int, edited: bool): (r: Result<OldAuditView, DbError>)
    requires InI64(id)
    ensures GetAction(db, id) == Ok(None) ==> r == Err(NoAction)
    ensures GetAction(db, id).Err? ==> r == Err(GetAction(db, id).error)
    ensures (GetAction(db, id).Ok? && GetAction(db, id).value.Some? && FindLink(db.actionLinks, id).None?)
              ==> r == Err(RowNotFound)
    ensures r.Ok? ==> edited && GetAction(db, id).Ok? && GetAction(db, id).value.Some?
    ensures r.Ok? ==> ParseU64(GetAction(db, id).value.value.claimant).Some?
    ensures r.Ok? ==> r.value.rows == ActionComponents(id) && r.value.footer == Footer(GetAction(db, id).value.value.report)
  {
    match GetAction(db, id)
    case Err(e) => Err(e)
    case Ok(None) => Err(NoAction)
    case Ok(Some(a)) =>
      match GetAuditMessageFromId(db, id)
      case Err(e) => Err(e)
      case Ok(_) =>
        if ParseU64(a.claimant).None? then Err(NotU64(a.claimant))
        else if edited then Ok(OldAuditView(Footer(a.report), ActionComponents(id)))
        else Err(EditFailed)
  }
}
