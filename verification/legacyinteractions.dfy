/** The older bot's component and modal handlers (`src/interactions.rs`):
    the report buttons claim, close (through the audit modal) or force-close
    a report, and a submitted audit modal records an action and, for a
    report, closes it. */
module LegacyInteractions {
  import opened Wrappers
  import opened Text
  import opened Fields
  import Common
  import opened Store
  import opened Legacy
  import opened LegacyDb
  import Prefabs
  import Ui

  /** The row after `update Reports set claimant = ?, report_status = 'claimed'`. */
  function ClaimedRow(row: ReportRow, uid: u64): (r: ReportRow)
    ensures ReportFromRow(r).Ok? && ReportFromRow(r).value.reportStatus == Claimed
    ensures r.claimant == Some(DecimalText(uid))
    ensures r.(reportStatus := row.reportStatus, claimant := row.claimant) == row
  {
    StatusTextRoundTrip(Claimed);
    row.(reportStatus := StatusText(Claimed), claimant := Some(DecimalText(uid)))
  }

  /** The row after `update Reports set claimant = ?, report_status = 'closed'`. */
  function ForceClosedRow(row: ReportRow, uid: u64): (r: ReportRow)
    ensures ReportFromRow(r).Ok? && ReportFromRow(r).value.reportStatus == Closed
    ensures r.claimant == Some(DecimalText(uid))
    ensures r.(reportStatus := row.reportStatus, claimant := row.claimant) == row
  {
    StatusTextRoundTrip(Closed);
    row.(reportStatus := StatusText(Closed), claimant := Some(DecimalText(uid)))
  }

  /** The row after `update Reports set claimant = ?, report_status = 'closed', audit = ?`. */
  function ModalClosedRow(row: ReportRow, uid: u64, mid: u64): (r: ReportRow)
    ensures ReportFromRow(r).Ok? && ReportFromRow(r).value.reportStatus == Closed
    ensures r.claimant == Some(DecimalText(uid)) && r.audit == Some(DecimalText(mid))
    ensures r.(reportStatus := row.reportStatus, claimant := row.claimant, audit := row.audit) == row
  {
    StatusTextRoundTrip(Closed);
    row.(reportStatus := StatusText(Closed), claimant := Some(DecimalText(uid)), audit := Some(DecimalText(mid)))
  }

  /** An update statement on one report: `f` rewrites its row, if any. */
  function UpdateRow(db: Db, id: int, f: ReportRow -> ReportRow): (r: Db)
    requires db.Valid()
    ensures r.Valid() && r.reports.Keys == db.reports.Keys
    ensures id in db.reports ==> r.reports[id] == f(db.reports[id])
    ensures forall k :: k in db.reports && k != id ==> r.reports[k] == db.reports[k]
    ensures r.actions == db.actions && r.reportLinks == db.reportLinks && r.actionLinks == db.actionLinks
    ensures r.nextReport == db.nextReport && r.nextAction == db.nextAction
  {
    if id in db.reports then UpdateReport(db, id, f(db.reports[id])) else db
  }

  /** How a button press ended. `OpenedModal` answers with the audit modal
      for the report, prefilled from it when it could be read. */
  datatype ButtonReply = Acknowledged | OpenedModal(reportId: int, prefill: Option<Report>) | ButtonFailed | ButtonPanicked
                       | RefreshPanicked

  /** The message refresh after a write panics: once Discord returned the
      message (`fetched`), on an audit that is not a message id or on a time
      that does not parse. Its errors are dropped. */
  predicate RefreshPanics(db: Db, id: int, slAudit: u64, timestamp: string -> Option<int>, fetched: bool) {
    UpdateReportMessage(db, id, slAudit, timestamp, fetched, true) == Err(Panicked)
  }

  /** A write by claim or forceclose, then the refresh. */
  function Refreshed(db: Db, id: int, slAudit: u64, timestamp: string -> Option<int>, fetched: bool): (Db, ButtonReply) {
    if RefreshPanics(db, id, slAudit, timestamp, fetched) then (db, RefreshPanicked) else (db, Acknowledged)
  }

  /** `on_interaction_button`. `deferred` is whether Discord accepted the
      deferral; the message refresh after a claim or forceclose drops its
      errors, but its panics (`slAudit`, `timestamp` and `fetched` as in
      `UpdateReportMessage`) end the press after the write. A custom id
      without `_` or with a non-i64 id, and any kind but the three report
      buttons, panic. */
  function OnButton(db: Db, customId: string, uid: u64, deferred: bool, slAudit: u64,
                    timestamp: string -> Option<int>, fetched: bool): (r: (Db, ButtonReply))
    requires db.Valid()
    ensures r.0.Valid() && r.0.reports.Keys == db.reports.Keys
    ensures DecodeButtonId(customId).None? ==> r == (db, ButtonPanicked)
    ensures !r.1.Acknowledged? && !r.1.RefreshPanicked? ==> r.0 == db
    ensures r.1.Acknowledged? || r.1.RefreshPanicked? ==>
              && deferred && DecodeButtonId(customId).Some?
              && DecodeButtonId(customId).value.0 in {"claim", "forceclose"}
              && (r.1.RefreshPanicked? <==> RefreshPanics(r.0, DecodeButtonId(customId).value.1, slAudit, timestamp, fetched))
    ensures r.1.OpenedModal? ==> DecodeButtonId(customId) == Some(("close", r.1.reportId))
    ensures forall k :: (k in db.reports && (DecodeButtonId(customId).None? || k != DecodeButtonId(customId).value.1))
                          ==> r.0.reports[k] == db.reports[k]
    ensures r.0.actions == db.actions && r.0.reportLinks == db.reportLinks && r.0.actionLinks == db.actionLinks
  {
    match DecodeButtonId(customId)
    case None => (db, ButtonPanicked)
    case Some((kind, id)) =>
      if kind == "claim" then
        if !deferred then (db, ButtonFailed)
        else Refreshed(UpdateRow(db, id, row => ClaimedRow(row, uid)), id, slAudit, timestamp, fetched)
      else if kind == "close" then
        var prefill := match GetReport(db, id) case Ok(Some(rep)) => Some(rep) case _ => None;
        (db, OpenedModal(id, prefill))
      else if kind == "forceclose" then
        if !deferred then (db, ButtonFailed)
        else Refreshed(UpdateRow(db, id, row => ForceClosedRow(row, uid)), id, slAudit, timestamp, fetched)
      else (db, ButtonPanicked)
  }

  /** Claiming marks the report Claimed by the presser, whatever its status
      was: the statement has no condition on the current status, so a
      closed report is claimed again. */
  lemma ClaimButtonClaims(db: Db, id: int, uid: u64, slAudit: u64, timestamp: string -> Option<int>, fetched: bool)
    requires db.Valid() && InI64(id) && id in db.reports
    ensures var r := OnButton(db, ButtonId("claim", id), uid, true, slAudit, timestamp, fetched);
            && r.1 == (if RefreshPanics(r.0, id, slAudit, timestamp, fetched) then RefreshPanicked else Acknowledged)
            && GetReport(r.0, id).Ok? && GetReport(r.0, id).value.Some?
            && GetReport(r.0, id).value.value.reportStatus == Claimed
            && GetReport(r.0, id).value.value.claimant == Some(DecimalText(uid))
            && GetReport(r.0, id).value.value.time == db.reports[id].time
            && r.0.reportLinks == db.reportLinks
  {
    DecodeButtonIdRoundTrip("claim", id);
  }

  /** Refreshing a claimed report with a message Discord returns and a
      parsable time goes through and shows the Claimed buttons. */
  lemma ClaimedRefreshes(db: Db, id: int, slAudit: u64, timestamp: string -> Option<int>)
    requires GetReport(db, id).Ok? && GetReport(db, id).value.Some?
    requires GetReport(db, id).value.value.reportStatus == Claimed
    requires GetReportMessageFromId(db, id).Ok? && timestamp(GetReport(db, id).value.value.time).Some?
    ensures UpdateReportMessage(db, id, slAudit, timestamp, true, true).Ok?
    ensures UpdateReportMessage(db, id, slAudit, timestamp, true, true).value.rows == Components(Claimed, id)
  {
  }

  /** Force-closing marks the report Closed by the presser, with no audit. */
  lemma ForceCloseButtonCloses(db: Db, id: int, uid: u64, slAudit: u64, timestamp: string -> Option<int>, fetched: bool)
    requires db.Valid() && InI64(id) && id in db.reports
    ensures var r := OnButton(db, ButtonId("forceclose", id), uid, true, slAudit, timestamp, fetched);
            && r.1 == (if RefreshPanics(r.0, id, slAudit, timestamp, fetched) then RefreshPanicked else Acknowledged)
            && GetReport(r.0, id).Ok? && GetReport(r.0, id).value.Some?
            && GetReport(r.0, id).value.value.reportStatus == Closed
            && GetReport(r.0, id).value.value.claimant == Some(DecimalText(uid))
            && GetReport(r.0, id).value.value.audit == db.reports[id].audit
  {
    DecodeButtonIdRoundTrip("forceclose", id);
  }

  /** Close writes nothing; it answers with the modal, prefilled exactly when
      the report reads back. */
  lemma CloseButtonOpensModal(db: Db, id: int, uid: u64, deferred: bool, slAudit: u64, timestamp: string -> Option<int>, fetched: bool)
    requires db.Valid() && InI64(id)
    ensures var r := OnButton(db, ButtonId("close", id), uid, deferred, slAudit, timestamp, fetched);
            && r.0 == db && r.1.OpenedModal? && r.1.reportId == id
            && (r.1.prefill.Some? <==> GetReport(db, id).Ok? && GetReport(db, id).value.Some?)
            && (r.1.prefill.Some? ==> GetReport(db, id) == Ok(r.1.prefill))
  {
    DecodeButtonIdRoundTrip("close", id);
  }

  /** Every button a report message carries is one the handler knows. */
  lemma ReportButtonsHandled(db: Db, status: Status, id: int, uid: u64, deferred: bool, i: nat,
                             slAudit: u64, timestamp: string -> Option<int>, fetched: bool)
    requires db.Valid() && InI64(id)
    requires status != Closed && i < |Components(status, id)[0]|
    ensures OnButton(db, Components(status, id)[0][i].customId, uid, deferred, slAudit, timestamp, fetched).1 != ButtonPanicked
  {
    ComponentsDecode(status, id);
    var row := Components(status, id)[0];
    DecodedButtonsAt(row, i);
    var d := DecodedButtons(row);
    assert d[i].Some? && d[i].value.0 in {"claim", "close", "forceclose"};
    KnownKindHandled(db, row[i].customId, uid, deferred, slAudit, timestamp, fetched);
  }

  lemma KnownKindHandled(db: Db, customId: string, uid: u64, deferred: bool, slAudit: u64, timestamp: string -> Option<int>, fetched: bool)
    requires db.Valid()
    requires DecodeButtonId(customId).Some? && DecodeButtonId(customId).value.0 in {"claim", "close", "forceclose"}
    ensures OnButton(db, customId, uid, deferred, slAudit, timestamp, fetched).1 != ButtonPanicked
  {
  }

  lemma {:induction false} DecodedButtonsAt(row: seq<Ui.Button>, i: nat)
    requires i < |row|
    ensures DecodedButtons(row)[i] == DecodeButtonId(row[i].customId)
    decreases i
  {
    if i > 0 {
      DecodedButtonsAt(row[1..], i - 1);
    }
  }

  /** The Edit button of an audit message has no handler: pressing it
      panics. */
  lemma EditButtonPanics(db: Db, id: int, uid: u64, deferred: bool, slAudit: u64, timestamp: string -> Option<int>, fetched: bool)
    requires db.Valid() && InI64(id)
    ensures OnButton(db, ActionComponents(id)[0][0].customId, uid, deferred, slAudit, timestamp, fetched) == (db, ButtonPanicked)
  {
  }

  /** After a claim of a report that has a message Discord returns and a
      parsable time, the refresh goes through and shows the Claimed buttons:
      close and force-close. */
  lemma ClaimThenView(db: Db, id: int, uid: u64, slAudit: u64, timestamp: string -> Option<int>)
    requires db.Valid() && InI64(id) && id in db.reports
    requires GetReportMessageFromId(db, id).Ok? && timestamp(db.reports[id].time).Some?
    ensures var r := OnButton(db, ButtonId("claim", id), uid, true, slAudit, timestamp, true);
            && r.1 == Acknowledged
            && UpdateReportMessage(r.0, id, slAudit, timestamp, true, true).Ok?
            && UpdateReportMessage(r.0, id, slAudit, timestamp, true, true).value.rows == Components(Claimed, id)
  {
    ClaimButtonClaims(db, id, uid, slAudit, timestamp, true);
    var r := OnButton(db, ButtonId("claim", id), uid, true, slAudit, timestamp, true);
    assert GetReportMessageFromId(r.0, id) == GetReportMessageFromId(db, id);
    ClaimedRefreshes(r.0, id, slAudit, timestamp);
  }

  /** Claiming a report whose message Discord returns but whose time does
      not parse writes the claim and then panics in the refresh. */
  lemma ClaimThenBadTimePanics(db: Db, id: int, uid: u64, slAudit: u64, timestamp: string -> Option<int>)
    requires db.Valid() && InI64(id) && id in db.reports
    requires GetReportMessageFromId(db, id).Ok? && timestamp(db.reports[id].time).None?
    ensures var r := OnButton(db, ButtonId("claim", id), uid, true, slAudit, timestamp, true);
            && r.1 == RefreshPanicked
            && GetReport(r.0, id).Ok? && GetReport(r.0, id).value.Some?
            && GetReport(r.0, id).value.value.reportStatus == Claimed
  {
    ClaimButtonClaims(db, id, uid, slAudit, timestamp, true);
  }

  /** The refresh fetches the message before it builds the embed: when
      Discord does not return the message, the claim is acknowledged even
      with a time that does not parse. */
  lemma ClaimFetchFailsBeforePanic(db: Db, id: int, uid: u64, slAudit: u64, timestamp: string -> Option<int>)
    requires db.Valid() && InI64(id) && id in db.reports
    requires GetReportMessageFromId(db, id).Ok? && timestamp(db.reports[id].time).None?
    ensures var r := OnButton(db, ButtonId("claim", id), uid, true, slAudit, timestamp, false);
            && r.1 == Acknowledged
            && GetReport(r.0, id).Ok? && GetReport(r.0, id).value.Some?
            && GetReport(r.0, id).value.value.reportStatus == Claimed
  {
    ClaimButtonClaims(db, id, uid, slAudit, timestamp, false);
    var r := OnButton(db, ButtonId("claim", id), uid, true, slAudit, timestamp, false);
    assert GetReportMessageFromId(r.0, id) == GetReportMessageFromId(db, id);
  }

  datatype ModalError = NotDeferred | BadCustomId | BadAnswers(e: FieldError) | AuditNotSent

  /** How a modal submission ended: the audit message's channel and id. */
  datatype ModalReply = Done(channel: u64, message: u64) | ModalFailed(reason: ModalError) | ModalPanicked

  /** `on_model`. The custom id is the report id as an i64 (positive: a
      report; otherwise none). The action is stored before its message is
      sent (`sent`) to its location's audit channel; for a report, the
      report is then closed with the submitter as claimant and the message
      as audit, and its message refreshed (`slAudit`, `timestamp` and
      `fetched` as in `UpdateReportMessage`): the refresh's errors are
      dropped, its panics end the submission after the close.
      `fromMessage` is whether the modal came from a message (a report modal
      without one panics on `unwrap`). No audit message link is recorded. */
  function OnModel(db: Db, customId: string, answers: FieldMap, uid: u64, deferred: bool, fromMessage: bool,
                   auditChannel: Common.Location -> u64, sent: Option<u64>,
                   slAudit: u64, timestamp: string -> Option<int>, fetched: bool): (r: (Db, ModalReply))
    requires db.Valid()
    ensures r.0.Valid()
    ensures !deferred ==> r == (db, ModalFailed(NotDeferred))
    ensures deferred && ParseI64(customId).None? ==> r == (db, ModalFailed(BadCustomId))
    ensures deferred && ParseI64(customId).Some? && DecodeAuditModel(answers).Err? ==>
              r == (db, ModalFailed(BadAnswers(DecodeAuditModel(answers).error)))
    ensures r.1.Done? || r.1.ModalPanicked? || r.1 == ModalFailed(AuditNotSent) ==>
              (var id := ParseI64(customId).value;
               var m := DecodeAuditModel(answers).value;
               && r.0.nextAction == db.nextAction + 1
               && GetAction(r.0, db.nextAction) == Ok(Some(ToAction(m, if id > 0 then Some(id) else None, uid))))
    ensures r.1.Done? ==> sent == Some(r.1.message) && r.1.channel == auditChannel(DecodeAuditModel(answers).value.location)
    ensures (r.1.Done? || r.1.ModalPanicked?) && ParseI64(customId).value > 0 && fromMessage ==>
              (r.1.ModalPanicked? <==> RefreshPanics(r.0, ParseI64(customId).value, slAudit, timestamp, fetched))
    ensures r.0.actionLinks == db.actionLinks && r.0.reportLinks == db.reportLinks && r.0.nextReport == db.nextReport
    ensures r.0.reports.Keys == db.reports.Keys
    ensures r.0.reports != db.reports ==>
              (r.1.Done? || r.1.ModalPanicked?) && sent.Some? && fromMessage && ParseI64(customId).value > 0
  {
    if !deferred then (db, ModalFailed(NotDeferred))
    else
      match ParseI64(customId)
      case None => (db, ModalFailed(BadCustomId))
      case Some(id) =>
        match DecodeAuditModel(answers)
        case Err(e) => (db, ModalFailed(BadAnswers(e)))
        case Ok(m) =>
          var reportId := if id > 0 then Some(id) else None;
          var action := ToAction(m, reportId, uid);
          var (db1, _) := AddAction(db, action);
          AddActionThenGet(db, action);
          match sent
          case None => (db1, ModalFailed(AuditNotSent))
          case Some(mid) =>
            if reportId.None? then (db1, Done(auditChannel(m.location), mid))
            else if !fromMessage then (db1, ModalPanicked)
            else
              var db2 := UpdateRow(db1, id, row => ModalClosedRow(row, uid, mid));
              if RefreshPanics(db2, id, slAudit, timestamp, fetched) then (db2, ModalPanicked)
              else (db2, Done(auditChannel(m.location), mid))
  }

  /** A report's modal, submitted and sent, closes the report: Closed, the
      submitter as claimant, the audit message as audit, and its status line
      reads back as closed by the submitter with a link. The refresh that
      follows panics exactly when Discord returns the report's message and
      the report's time does not parse. */
  lemma ModalClosesReport(db: Db, id: int, answers: FieldMap, uid: u64, auditChannel: Common.Location -> u64,
                          mid: u64, slAudit: u64, timestamp: string -> Option<int>, fetched: bool)
    requires db.Valid() && InI64(id) && id > 0 && id in db.reports
    requires DecodeAuditModel(answers).Ok?
    ensures var r := OnModel(db, IntText(id), answers, uid, true, true, auditChannel, Some(mid), slAudit, timestamp, fetched);
            && (r.1.Done? || r.1 == ModalPanicked)
            && (r.1 == ModalPanicked <==> fetched && GetReportMessageFromId(db, id).Ok? && timestamp(db.reports[id].time).None?)
            && GetReport(r.0, id).Ok? && GetReport(r.0, id).value.Some?
            && GetReport(r.0, id).value.value.reportStatus == Closed
            && GetReport(r.0, id).value.value.claimant == Some(DecimalText(uid))
            && GetReport(r.0, id).value.value.audit == Some(DecimalText(mid))
            && StatusString(GetReport(r.0, id).value.value, slAudit).Some?
            && ReadStatusString(StatusString(GetReport(r.0, id).value.value, slAudit).value) == Some((Closed, Some(DecimalText(uid)), true))
  {
    ModalClosesThenRefreshes(db, id, answers, uid, auditChannel, mid, slAudit, timestamp, fetched);
    var m := DecodeAuditModel(answers).value;
    var (db1, _) := AddAction(db, ToAction(m, Some(id), uid));
    var db2 := UpdateRow(db1, id, row => ModalClosedRow(row, uid, mid));
    var rep := GetReport(db2, id).value.value;
    assert rep.time == db.reports[id].time;
    assert GetReportMessageFromId(db2, id) == GetReportMessageFromId(db, id);
    ParseU64RoundTrip(mid);
    ClosedRefreshPanics(db2, id, slAudit, timestamp, fetched);
    DecimalTextNoAngle(uid);
    ReadStatusStringRoundTrip(rep, slAudit);
  }

  /** A report modal from the report message stores its action, closes the
      report, and then ends exactly as the refresh of the closed report does. */
  lemma ModalClosesThenRefreshes(db: Db, id: int, answers: FieldMap, uid: u64, auditChannel: Common.Location -> u64,
                                 mid: u64, slAudit: u64, timestamp: string -> Option<int>, fetched: bool)
    requires db.Valid() && InI64(id) && id > 0 && id in db.reports
    requires DecodeAuditModel(answers).Ok?
    ensures var db1 := AddAction(db, ToAction(DecodeAuditModel(answers).value, Some(id), uid)).0;
            var db2 := UpdateRow(db1, id, row => ModalClosedRow(row, uid, mid));
            var r := OnModel(db, IntText(id), answers, uid, true, true, auditChannel, Some(mid), slAudit, timestamp, fetched);
            && r.0 == db2
            && (r.1.Done? || r.1 == ModalPanicked)
            && (r.1 == ModalPanicked <==> RefreshPanics(db2, id, slAudit, timestamp, fetched))
  {
    ParseI64RoundTrip(id);
  }

  /** A closed report whose audit is a message id refreshes without a panic
      unless its message is returned and its time does not parse. */
  lemma ClosedRefreshPanics(db: Db, id: int, slAudit: u64, timestamp: string -> Option<int>, fetched: bool)
    requires GetReport(db, id).Ok? && GetReport(db, id).value.Some?
    requires GetReport(db, id).value.value.reportStatus == Closed
    requires GetReport(db, id).value.value.audit.Some? && ParseU64(GetReport(db, id).value.value.audit.value).Some?
    ensures RefreshPanics(db, id, slAudit, timestamp, fetched) <==>
              fetched && GetReportMessageFromId(db, id).Ok? && timestamp(GetReport(db, id).value.value.time).None?
  {
  }

  /** Submitting a report's modal when the report's message is returned but
      its time does not parse records the action and closes the report, and
      then panics in the refresh. */
  lemma ModalThenBadTimePanics(db: Db, id: int, answers: FieldMap, uid: u64, auditChannel: Common.Location -> u64,
                               mid: u64, slAudit: u64, timestamp: string -> Option<int>)
    requires db.Valid() && InI64(id) && id > 0 && id in db.reports
    requires DecodeAuditModel(answers).Ok?
    requires GetReportMessageFromId(db, id).Ok? && timestamp(db.reports[id].time).None?
    ensures var r := OnModel(db, IntText(id), answers, uid, true, true, auditChannel, Some(mid), slAudit, timestamp, true);
            && r.1 == ModalPanicked
            && r.0.nextAction == db.nextAction + 1
            && GetReport(r.0, id).Ok? && GetReport(r.0, id).value.Some?
            && GetReport(r.0, id).value.value.reportStatus == Closed
  {
    ModalClosesReport(db, id, answers, uid, auditChannel, mid, slAudit, timestamp, true);
  }

  lemma DecimalTextNoAngle(n: nat)
    ensures '>' !in DecimalText(n)
  {
    assert AllDigits(DecimalText(n));
  }

  /** The modal never links the audit message to its action, so the report
      it closes has no audit message to find: looking it up by the report
      gives none. */
  lemma ModalAuditNotFound(db: Db, id: int, answers: FieldMap, uid: u64, auditChannel: Common.Location -> u64, mid: u64,
                           slAudit: u64, timestamp: string -> Option<int>, fetched: bool)
    requires db.Valid() && InI64(id) && id > 0 && id in db.reports
    requires DecodeAuditModel(answers).Ok?
    requires forall i :: 0 <= i < |db.actionLinks| ==> db.actionLinks[i].message != DecimalText(mid)
    ensures var r := OnModel(db, IntText(id), answers, uid, true, true, auditChannel, Some(mid), slAudit, timestamp, fetched);
            GetAuditMessageFromReport(r.0, id) == Ok(None)
  {
    ModalClosesThenRefreshes(db, id, answers, uid, auditChannel, mid, slAudit, timestamp, fetched);
  }

  /** The audit modal's custom id starts with its specifier, so a submitted
      prefab modal fails the handler's id parse before anything is written. */
  lemma PrefabModalRejected(db: Db, id: Option<int>, specifier: char, report: Option<Report>, l: Common.Location,
                            p: Option<string>, answers: FieldMap, uid: u64, fromMessage: bool,
                            auditChannel: Common.Location -> u64, sent: Option<u64>,
                            slAudit: u64, timestamp: string -> Option<int>, fetched: bool)
    requires db.Valid()
    requires !IsDigit(specifier) && specifier != '+' && specifier != '-'
    ensures var m := Prefabs.AuditLogModal(id, specifier, report, l, p);
            OnModel(db, m.customId, answers, uid, true, fromMessage, auditChannel, sent, slAudit, timestamp, fetched)
              == (db, ModalFailed(BadCustomId))
  {
    Prefabs.SpecifiedIdIsNotAnI64(id, specifier, report, l, p);
  }
}
