/** The newer bot's `Database` (`database` crate) over the store value: reads
    decode rows with the `DbCodec` conversions, inserts return the rowid cast
    to u32, and the status updates and link tables carry the effects of the
    older bot's SQL statements for the methods whose bodies the crate does not
    show (`claim_report`, `close_report`, `expire_report`, `edit_action`,
    `add_*_message`, `get_*_message`, `get_action_message_from_report_id`,
    `all_reports_with_status`). */
module Database {
  import opened Wrappers
  import opened Text
  import opened Common
  import opened DbCodec
  import opened Store

  type Db = Tables<DBReport, DBAction>

  /** `get_report_from_id`: a missing row is `Ok(None)`; a row that does not
      decode is an error, never `None`. */
  function GetReportFromId(db: Db, id: u32): (r: Result<Option<Report>, Error>)
    ensures id !in db.reports ==> r == Ok(None)
    ensures id in db.reports ==> (r.Ok? ==> r.value.Some?)
    ensures id in db.reports ==> (r.Err? <==> IntoReport(db.reports[id]).Err?)
  {
    if id in db.reports then
      match IntoReport(db.reports[id].(id := Some(id)))
      case Ok(rep) => Ok(Some(rep))
      case Err(e) =>
        IntoReportIgnoresId(db.reports[id], Some(id));
        Err(e)
    else Ok(None)
  }

  /** `get_action_from_id`. */
  function GetActionFromId(db: Db, id: u32): (r: Result<Option<Action>, Error>)
    ensures id !in db.actions ==> r == Ok(None)
    ensures id in db.actions ==> (r.Ok? ==> r.value.Some?)
    ensures id in db.actions ==> (r.Err? <==> RowToAction(db.actions[id]).Err?)
  {
    if id in db.actions then
      match RowToAction(db.actions[id].(id := Some(id)))
      case Ok(a) => Ok(Some(a))
      case Err(e) =>
        RowToActionIgnoresId(db.actions[id], Some(id));
        Err(e)
    else Ok(None)
  }

  /** `add_report`: stores `from_report(report)` and returns the new rowid as
      u32 (`as u32` keeps its low 32 bits). */
  function AddReport(db: Db, report: Report): (r: (Db, u32))
    requires db.Valid()
    ensures r.0.Valid()
    ensures db.nextReport in r.0.reports && r.0.reports[db.nextReport] == FromReport(report)
    ensures r.1 == db.nextReport % U32_LIMIT
    ensures r.0.reports.Keys == db.reports.Keys + {db.nextReport}
    ensures r.0.actions == db.actions && r.0.reportLinks == db.reportLinks && r.0.actionLinks == db.actionLinks
    ensures r.0.nextReport == db.nextReport + 1 && r.0.nextAction == db.nextAction
  {
    var (db', rowid) := InsertReport(db, FromReport(report));
    (db', TruncateToU32(rowid))
  }

  /** `add_action`. */
  function AddAction(db: Db, action: Action): (r: (Db, u32))
    requires db.Valid()
    ensures r.0.Valid()
    ensures db.nextAction in r.0.actions && r.0.actions[db.nextAction] == ActionToRow(action)
    ensures r.1 == db.nextAction % U32_LIMIT
    ensures r.0.actions.Keys == db.actions.Keys + {db.nextAction}
    ensures r.0.reports == db.reports && r.0.reportLinks == db.reportLinks && r.0.actionLinks == db.actionLinks
    ensures r.0.nextAction == db.nextAction + 1 && r.0.nextReport == db.nextReport
  {
    var (db', rowid) := InsertAction(db, ActionToRow(action));
    (db', TruncateToU32(rowid))
  }

  /** While rowids stay below 2^32, the id `add_report` returns reads the same
      report back, with the default location. */
  lemma AddReportThenGet(db: Db, report: Report)
    requires db.Valid() && db.nextReport < U32_LIMIT
    ensures GetReportFromId(AddReport(db, report).0, AddReport(db, report).1) == Ok(Some(report.(location := DefaultLocation())))
  {
    ReportRoundTrip(report);
    IntoReportIgnoresId(FromReport(report), Some(db.nextReport));
  }

  lemma AddActionThenGet(db: Db, action: Action)
    requires db.Valid() && db.nextAction < U32_LIMIT
    ensures GetActionFromId(AddAction(db, action).0, AddAction(db, action).1) == Ok(Some(action))
  {
    ActionRoundTrip(action);
    RowToActionIgnoresId(ActionToRow(action), Some(db.nextAction));
  }

  /** Past 2^32 rows the returned id no longer names the inserted row: the
      first report after rowid 2^32 comes back as id 0. */
  lemma AddReportIdWraps(db: Db, report: Report)
    requires db.Valid() && db.nextReport == U32_LIMIT
    ensures AddReport(db, report).1 == 0
    ensures GetReportFromId(AddReport(db, report).0, 0) == Ok(None)
  {
  }

  /** The row with its status column set to `status`'s text; used by the
      claim, close and expire updates. */
  function WithStatus(row: DBReport, status: ReportStatus): (r: DBReport)
    ensures r.reportStatus == StatusToDb(status)
    ensures r.(reportStatus := row.reportStatus) == row
  {
    row.(reportStatus := StatusToDb(status))
  }

  /** `claim_report(id, uid)`, with the effect of the older
      `update Reports set claimant = ?, report_status = 'claimed' where id = ?`. */
  function ClaimReport(db: Db, id: u32, uid: u64): (r: Db)
    requires db.Valid()
    ensures r.Valid()
    ensures r.reports.Keys == db.reports.Keys
    ensures id in db.reports ==> r.reports[id] == db.reports[id].(reportStatus := "claimed", claimant := Some(DecimalText(uid)))
    ensures forall k :: k in db.reports && k != id ==> r.reports[k] == db.reports[k]
    ensures r.actions == db.actions && r.reportLinks == db.reportLinks && r.actionLinks == db.actionLinks
  {
    if id in db.reports then
      UpdateReport(db, id, WithStatus(db.reports[id], Claimed).(claimant := Some(DecimalText(uid))))
    else db
  }

  /** `close_report(id)`: only the status changes, to 'closed'. */
  function CloseReport(db: Db, id: u32): (r: Db)
    requires db.Valid()
    ensures r.Valid()
    ensures r.reports.Keys == db.reports.Keys
    ensures id in db.reports ==> r.reports[id] == db.reports[id].(reportStatus := "closed")
    ensures forall k :: k in db.reports && k != id ==> r.reports[k] == db.reports[k]
    ensures r.actions == db.actions && r.reportLinks == db.reportLinks && r.actionLinks == db.actionLinks
  {
    if id in db.reports then UpdateReport(db, id, WithStatus(db.reports[id], Closed)) else db
  }

  /** `expire_report(id)`, with the effect of the older
      `update Reports set report_status = 'expired' where id = ?`. */
  function ExpireReport(db: Db, id: nat): (r: Db)
    requires db.Valid()
    ensures r.Valid()
    ensures r.reports.Keys == db.reports.Keys
    ensures id in db.reports ==> r.reports[id] == db.reports[id].(reportStatus := "expired")
    ensures forall k :: k in db.reports && k != id ==> r.reports[k] == db.reports[k]
    ensures r.actions == db.actions && r.reportLinks == db.reportLinks && r.actionLinks == db.actionLinks
    ensures r.nextReport == db.nextReport && r.nextAction == db.nextAction
  {
    if id in db.reports then UpdateReport(db, id, WithStatus(db.reports[id], Expired)) else db
  }

  /** Claiming a readable report reads back as that report, now Claimed by
      `uid`, with every other field as it was. Nothing checks the old status
      or claimant first, so any status can become Claimed. */
  lemma ClaimThenGet(db: Db, id: u32, uid: u64, rep: Report)
    requires db.Valid() && GetReportFromId(db, id) == Ok(Some(rep))
    ensures GetReportFromId(ClaimReport(db, id, uid), id) == Ok(Some(rep.(reportStatus := Claimed, claimant := Some(uid))))
  {
    StatusRoundTrip(Claimed);
    ParseU64RoundTrip(uid);
  }

  /** Closing or expiring a readable report changes its status only. */
  lemma CloseThenGet(db: Db, id: u32, rep: Report)
    requires db.Valid() && GetReportFromId(db, id) == Ok(Some(rep))
    ensures GetReportFromId(CloseReport(db, id), id) == Ok(Some(rep.(reportStatus := Closed)))
  {
    StatusRoundTrip(Closed);
  }

  lemma ExpireThenGet(db: Db, id: u32, rep: Report)
    requires db.Valid() && GetReportFromId(db, id) == Ok(Some(rep))
    ensures GetReportFromId(ExpireReport(db, id), id) == Ok(Some(rep.(reportStatus := Expired)))
  {
    StatusRoundTrip(Expired);
  }

  /** `edit_action(id, a, …)`: the row is replaced by `a`; the edit history it
      also keeps is not part of this model. */
  function EditAction(db: Db, id: u32, a: Action): (r: Db)
    requires db.Valid()
    ensures r.Valid()
    ensures r.actions.Keys == db.actions.Keys
    ensures id in db.actions ==> r.actions[id] == ActionToRow(a)
    ensures forall k :: k in db.actions && k != id ==> r.actions[k] == db.actions[k]
    ensures id !in db.actions ==> r == db
    ensures r.reports == db.reports && r.reportLinks == db.reportLinks && r.actionLinks == db.actionLinks
  {
    UpdateAction(db, id, ActionToRow(a))
  }

  lemma EditThenGet(db: Db, id: u32, a: Action)
    requires db.Valid() && id in db.actions
    ensures GetActionFromId(EditAction(db, id, a), id) == Ok(Some(a))
  {
    ActionRoundTrip(a);
    RowToActionIgnoresId(ActionToRow(a), Some(id));
  }

  /** `add_report_message(channel, message, id)`: both ids stored as decimal text. */
  function AddReportMessage(db: Db, channel: u64, message: u64, rid: u32): (r: Db)
    requires db.Valid()
    ensures r.Valid()
    ensures r.reportLinks == db.reportLinks + [LinkRow(rid, DecimalText(message), DecimalText(channel))]
    ensures r.reports == db.reports && r.actions == db.actions && r.actionLinks == db.actionLinks
    ensures r.nextReport == db.nextReport && r.nextAction == db.nextAction
  {
    AddReportLink(db, rid, DecimalText(message), DecimalText(channel))
  }

  /** `add_action_message(channel, message, id)`. */
  function AddActionMessage(db: Db, channel: u64, message: u64, aid: u32): (r: Db)
    requires db.Valid()
    ensures r.Valid()
    ensures r.actionLinks == db.actionLinks + [LinkRow(aid, DecimalText(message), DecimalText(channel))]
    ensures r.reports == db.reports && r.actions == db.actions && r.reportLinks == db.reportLinks
    ensures r.nextReport == db.nextReport && r.nextAction == db.nextAction
  {
    AddActionLink(db, aid, DecimalText(message), DecimalText(channel))
  }

  /** A stored link read back as (channel, message); text that is not a u64
      is a `ParseIntError`. */
  function DecodeLink(row: LinkRow): (r: Result<(u64, u64), Error>)
    ensures r.Ok? <==> ParseU64(row.channel).Some? && ParseU64(row.message).Some?
    ensures r.Ok? ==> Some(r.value.0) == ParseU64(row.channel) && Some(r.value.1) == ParseU64(row.message)
  {
    match (ParseU64(row.channel), ParseU64(row.message))
    case (Some(c), Some(m)) => Ok((c, m))
    case _ => Err(ParseIntError)
  }

  /** `get_report_message(id)`: the first link row of the report, or None. */
  function GetReportMessage(db: Db, rid: u32): (r: Result<Option<(u64, u64)>, Error>)
    ensures FindLink(db.reportLinks, rid).None? ==> r == Ok(None)
    ensures r.Ok? && r.value.Some? ==> FindLink(db.reportLinks, rid).Some?
  {
    match FindLink(db.reportLinks, rid)
    case None => Ok(None)
    case Some(row) =>
      match DecodeLink(row)
      case Ok(v) => Ok(Some(v))
      case Err(e) => Err(e)
  }

  /** `get_action_message(id)`. */
  function GetActionMessage(db: Db, aid: u32): (r: Result<Option<(u64, u64)>, Error>)
    ensures FindLink(db.actionLinks, aid).None? ==> r == Ok(None)
    ensures r.Ok? && r.value.Some? ==> FindLink(db.actionLinks, aid).Some?
  {
    match FindLink(db.actionLinks, aid)
    case None => Ok(None)
    case Some(row) =>
      match DecodeLink(row)
      case Ok(v) => Ok(Some(v))
      case Err(e) => Err(e)
  }

  /** A link recorded for an action with no earlier link reads back as the
      (channel, message) pair that was stored. */
  lemma AddActionMessageThenGet(db: Db, channel: u64, message: u64, aid: u32)
    requires db.Valid() && FindLink(db.actionLinks, aid).None?
    ensures GetActionMessage(AddActionMessage(db, channel, message, aid), aid) == Ok(Some((channel, message)))
  {
    FindLinkAppend(db.actionLinks, LinkRow(aid, DecimalText(message), DecimalText(channel)), aid);
    ParseU64RoundTrip(channel);
    ParseU64RoundTrip(message);
  }

  lemma AddReportMessageThenGet(db: Db, channel: u64, message: u64, rid: u32)
    requires db.Valid() && FindLink(db.reportLinks, rid).None?
    ensures GetReportMessage(AddReportMessage(db, channel, message, rid), rid) == Ok(Some((channel, message)))
  {
    FindLinkAppend(db.reportLinks, LinkRow(rid, DecimalText(message), DecimalText(channel)), rid);
    ParseU64RoundTrip(channel);
    ParseU64RoundTrip(message);
  }

  /** A second link for the same action is stored but not read: the first
      row is still the one every lookup returns. */
  lemma AddActionMessageKeepsFirst(db: Db, channel: u64, message: u64, aid: u32)
    requires db.Valid() && FindLink(db.actionLinks, aid).Some?
    ensures GetActionMessage(AddActionMessage(db, channel, message, aid), aid) == GetActionMessage(db, aid)
  {
    FindLinkAppend(db.actionLinks, LinkRow(aid, DecimalText(message), DecimalText(channel)), aid);
  }

  /** Does this link belong to an action filed against report `rid`? */
  predicate LinksReport(actions: map<nat, DBAction>, row: LinkRow, rid: int) {
    row.owner >= 0 && row.owner in actions && actions[row.owner].report == Some(rid)
  }

  /** The first action link (in insertion order) whose action resolves `rid`. */
  function FirstLinkForReport(actions: map<nat, DBAction>, links: seq<LinkRow>, rid: int): (r: Option<LinkRow>)
    ensures r.Some? ==> r.value in links && LinksReport(actions, r.value, rid)
    ensures r.None? <==> forall i :: 0 <= i < |links| ==> !LinksReport(actions, links[i], rid)
  {
    if |links| == 0 then None
    else if LinksReport(actions, links[0], rid) then Some(links[0])
    else
      var r := FirstLinkForReport(actions, links[1..], rid);
      assert forall i :: 1 <= i < |links| ==> links[i] == links[1..][i - 1];
      r
  }

  /** `get_action_message_from_report_id(rid)`: the message of an action that
      resolves the report, as a join of ActionMessages with Actions on
      `report = rid` that takes the first row. */
  function GetActionMessageFromReportId(db: Db, rid: u32): (r: Result<Option<(u64, u64)>, Error>)
    ensures (forall i :: 0 <= i < |db.actionLinks| ==> !LinksReport(db.actions, db.actionLinks[i], rid)) ==> r == Ok(None)
    ensures r.Ok? && r.value.Some? ==>
              exists i :: 0 <= i < |db.actionLinks| && LinksReport(db.actions, db.actionLinks[i], rid) &&
                          DecodeLink(db.actionLinks[i]) == Ok(r.value.value)
  {
    match FirstLinkForReport(db.actions, db.actionLinks, rid)
    case None => Ok(None)
    case Some(row) =>
      match DecodeLink(row)
      case Ok(v) => Ok(Some(v))
      case Err(e) => Err(e)
  }

  /** A row the query `where report_status = ?` selects. */
  predicate Selected(db: Db, status: ReportStatus, k: nat) {
    k in db.reports && db.reports[k].reportStatus == StatusToDb(status)
  }

  /** `all_reports_with_status(status)` from id `from` upwards: every row whose
      status text is `status`'s, decoded, in id order; the first row that does
      not decode fails the whole query. */
  function ReportsWithStatusFrom(db: Db, status: ReportStatus, from: nat): (r: Result<seq<(nat, Report)>, Error>)
    requires db.Valid()
    ensures r.Ok? ==> forall i :: 0 <= i < |r.value| ==>
              from <= r.value[i].0 && Selected(db, status, r.value[i].0) &&
              IntoReport(db.reports[r.value[i].0]) == Ok(r.value[i].1)
    ensures r.Ok? ==> forall i, j :: 0 <= i < j < |r.value| ==> r.value[i].0 < r.value[j].0
    decreases db.nextReport - from
  {
    if from >= db.nextReport then Ok([])
    else if Selected(db, status, from) then
      match IntoReport(db.reports[from].(id := Some(from)))
      case Err(e) => Err(e)
      case Ok(rep) =>
        IntoReportIgnoresId(db.reports[from], Some(from));
        match ReportsWithStatusFrom(db, status, from + 1)
        case Err(e) => Err(e)
        case Ok(rest) => Ok([(from, rep)] + rest)
    else
      ReportsWithStatusFrom(db, status, from + 1)
  }

  /** One step of the query: a selected row heads the rest of the result,
      any other row is skipped. */
  lemma ReportsWithStatusStep(db: Db, status: ReportStatus, from: nat)
    requires db.Valid() && from < db.nextReport && ReportsWithStatusFrom(db, status, from).Ok?
    ensures ReportsWithStatusFrom(db, status, from + 1).Ok?
    ensures var v := ReportsWithStatusFrom(db, status, from).value;
            var rest := ReportsWithStatusFrom(db, status, from + 1).value;
            if Selected(db, status, from) then |v| == |rest| + 1 && v[0].0 == from && v[1..] == rest
            else v == rest
  {
  }

  /** The query misses no selected row. */
  lemma {:induction false} ReportsWithStatusComplete(db: Db, status: ReportStatus, from: nat, k: nat)
    requires db.Valid() && ReportsWithStatusFrom(db, status, from).Ok?
    requires from <= k && Selected(db, status, k)
    ensures exists i :: 0 <= i < |ReportsWithStatusFrom(db, status, from).value| &&
                        ReportsWithStatusFrom(db, status, from).value[i].0 == k
    decreases db.nextReport - from
  {
    var v := ReportsWithStatusFrom(db, status, from).value;
    ReportsWithStatusStep(db, status, from);
    if from == k {
      assert v[0].0 == k;
    } else {
      ReportsWithStatusComplete(db, status, from + 1, k);
      var rest := ReportsWithStatusFrom(db, status, from + 1).value;
      var i :| 0 <= i < |rest| && rest[i].0 == k;
      if Selected(db, status, from) {
        assert v[1..][i] == rest[i];
      }
    }
  }

  function AllReportsWithStatus(db: Db, status: ReportStatus): (r: Result<seq<(nat, Report)>, Error>)
    requires db.Valid()
    ensures r.Ok? ==> forall i :: 0 <= i < |r.value| ==>
              Selected(db, status, r.value[i].0) && r.value[i].1.reportStatus == status &&
              IntoReport(db.reports[r.value[i].0]) == Ok(r.value[i].1)
    ensures r.Ok? ==> forall k :: Selected(db, status, k) ==> exists i :: 0 <= i < |r.value| && r.value[i].0 == k
  {
    var r := ReportsWithStatusFrom(db, status, 0);
    if r.Ok? then
      assert forall i :: 0 <= i < |r.value| ==> r.value[i].1.reportStatus == status by {
        forall i | 0 <= i < |r.value|
          ensures r.value[i].1.reportStatus == status
        {
          var k := r.value[i].0;
          StatusFromDbInverse(db.reports[k].reportStatus, r.value[i].1.reportStatus);
          StatusToDbInjective(status, r.value[i].1.reportStatus);
        }
      }
      forall k | Selected(db, status, k)
        ensures exists i :: 0 <= i < |r.value| && r.value[i].0 == k
      {
        ReportsWithStatusComplete(db, status, 0, k);
      }
      r
    else r
  }
}
