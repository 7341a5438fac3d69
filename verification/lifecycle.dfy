/** The newer bot's button handler (`on_button` in `lurk_chan/src/event.rs`)
    as a transition of the store: claim, close with an action, close without
    one, and edit an action. Discord's part of a press — whether deferring
    the response goes through, the modal the staff member fills in (or lets
    time out), the audit message it sends, and whether the final message
    edit goes through — is an input, and so are the report count and the
    time parsing the refreshed report message needs. */
module Lifecycle {
  import opened Wrappers
  import opened Text
  import opened Common
  import opened DbCodec
  import opened Store
  import opened Database
  import opened Ui

  /** `AuditModal`: what a staff member types when closing a report or
      editing an action. */
  datatype AuditModal = AuditModal(id: string, name: string, reason: string, action: string)

  /** Discord's answers during one press: whether `defer_ephemeral`
      succeeds, the submitted modal (None when it times out), the (channel,
      message) ids of the audit message sent (None when sending fails), and
      whether editing the shown message succeeds. `count` and `timestamp`
      are what refreshing a report message reads: the count query's answer
      and the parse of a report's time. */
  datatype Discord = Discord(deferred: bool, modal: Option<AuditModal>, sent: Option<(u64, u64)>,
                             count: Option<nat>, timestamp: string -> Option<int>, edited: bool)

  datatype Failure =
    | NoSuchReport
    | NoSuchAction
    | DbError(e: Error)
    | UpdateFailed(u: UpdateError)
    | DeferFailed
    | SendFailed
    | InvalidKind(kind: string)

  /** How a press ends: done, refused to a non-owner, failed with an error, or
      a panic (in the custom-id decoding or on a report time that does not
      parse). */
  datatype Reply = Done | NotYours | Failed(why: Failure) | Panicked

  /** After a database change the handler refreshes the report or audit
      message; the press is done exactly when that refresh succeeded, and
      panics exactly when the report's time did not parse. */
  function AfterUpdate<V>(u: Result<V, UpdateError>): (r: Reply)
    ensures r == Done <==> u.Ok?
    ensures r == Panicked <==> u == Err(TimePanicked)
  {
    match u
    case Ok(_) => Done
    case Err(TimePanicked) => Panicked
    case Err(e) => Failed(UpdateFailed(e))
  }

  /** Refreshing the report message of `id`. */
  function RefreshReport(db: Db, id: u32, io: Discord): Result<ReportView, UpdateError> {
    UpdateReportMessage(db, id, io.count, io.timestamp, io.edited)
  }

  /** The presser is the report's claimant (`report.claimant.is_some_and(|i| i == uid)`). */
  predicate Owns(db: Db, id: u32, uid: u64) {
    GetReportFromId(db, id).Ok? && GetReportFromId(db, id).value.Some? &&
    GetReportFromId(db, id).value.value.claimant == Some(uid)
  }

  /** "claim": deferring the response comes first, and a failed defer ends
      the press before any write; then no check of the status or of an
      earlier claimant. */
  function Claim(db: Db, id: u32, uid: u64, io: Discord): (r: (Db, Reply))
    requires db.Valid()
    ensures r.0.Valid()
    ensures !io.deferred ==> r == (db, Failed(DeferFailed))
    ensures forall rep: Report :: io.deferred && GetReportFromId(db, id) == Ok(Some(rep)) ==>
              GetReportFromId(r.0, id) == Ok(Some(rep.(reportStatus := Claimed, claimant := Some(uid))))
    ensures forall k :: k in db.reports && k != id ==> k in r.0.reports && r.0.reports[k] == db.reports[k]
    ensures r.0.actions == db.actions && r.0.reportLinks == db.reportLinks && r.0.actionLinks == db.actionLinks
  {
    if !io.deferred then (db, Failed(DeferFailed))
    else
      var db' := ClaimReport(db, id, uid);
      forall rep: Report | GetReportFromId(db, id) == Ok(Some(rep))
        ensures GetReportFromId(db', id) == Ok(Some(rep.(reportStatus := Claimed, claimant := Some(uid))))
      {
        ClaimThenGet(db, id, uid, rep);
      }
      (db', AfterUpdate(RefreshReport(db', id, io)))
  }

  /** Claiming a report whose time does not parse still writes the claim,
      then panics while refreshing the report message. */
  lemma ClaimPanicsOnBadTime(db: Db, id: u32, uid: u64, io: Discord, rep: Report)
    requires db.Valid() && io.deferred && io.count.Some?
    requires GetReportFromId(db, id) == Ok(Some(rep)) && io.timestamp(rep.time).None?
    ensures Claim(db, id, uid, io).1 == Panicked
    ensures GetReportFromId(Claim(db, id, uid, io).0, id) == Ok(Some(rep.(reportStatus := Claimed, claimant := Some(uid))))
  {
    ClaimThenGet(db, id, uid, rep);
  }

  /** The action a close-with-action records. */
  function ClosingAction(m: AuditModal, rep: Report, id: u32, uid: u64): Action {
    Action(m.id, m.name, m.reason, m.action, rep.location, uid, Some(id))
  }

  /** "close": the claimant fills the audit modal, then the report is closed,
      the action inserted, its message sent and linked, and the report message
      updated — in that order, each step stopping the press if it fails. */
  function Close(db: Db, id: u32, uid: u64, io: Discord): (r: (Db, Reply))
    requires db.Valid()
    ensures r.0.Valid()
    ensures GetReportFromId(db, id) == Ok(None) ==> r == (db, Failed(NoSuchReport))
    ensures GetReportFromId(db, id).Ok? && GetReportFromId(db, id).value.Some? && !Owns(db, id, uid) ==> r == (db, NotYours)
    ensures Owns(db, id, uid) && io.modal.None? ==> r == (db, Done)
    ensures r.0 != db ==> Owns(db, id, uid) && io.modal.Some?
    ensures r.0.reportLinks == db.reportLinks
  {
    match GetReportFromId(db, id)
    case Err(e) => (db, Failed(DbError(e)))
    case Ok(None) => (db, Failed(NoSuchReport))
    case Ok(Some(rep)) =>
      if rep.claimant == Some(uid) then
        match io.modal
        case None => (db, Done)
        case Some(m) =>
          var a := ClosingAction(m, rep, id, uid);
          var db1 := CloseReport(db, id);
          var (db2, aid) := AddAction(db1, a);
          match io.sent
          case None => (db2, Failed(SendFailed))
          case Some((channel, message)) =>
            var db3 := AddActionMessage(db2, channel, message, aid);
            (db3, AfterUpdate(RefreshReport(db3, id, io)))
      else (db, NotYours)
  }

  /** "forceclose": after deferring the response, the claimant closes the
      report without an action. */
  function ForceClose(db: Db, id: u32, uid: u64, io: Discord): (r: (Db, Reply))
    requires db.Valid()
    ensures r.0.Valid()
    ensures !io.deferred ==> r == (db, Failed(DeferFailed))
    ensures io.deferred && GetReportFromId(db, id) == Ok(None) ==> r == (db, Failed(NoSuchReport))
    ensures io.deferred && GetReportFromId(db, id).Ok? && GetReportFromId(db, id).value.Some? && !Owns(db, id, uid) ==> r == (db, NotYours)
    ensures io.deferred && Owns(db, id, uid) ==> GetReportFromId(r.0, id) == Ok(Some(GetReportFromId(db, id).value.value.(reportStatus := Closed)))
    ensures forall k :: k in db.reports && k != id ==> k in r.0.reports && r.0.reports[k] == db.reports[k]
    ensures r.0.actions == db.actions && r.0.reportLinks == db.reportLinks && r.0.actionLinks == db.actionLinks
  {
    if !io.deferred then (db, Failed(DeferFailed))
    else
      match GetReportFromId(db, id)
      case Err(e) => (db, Failed(DbError(e)))
      case Ok(None) => (db, Failed(NoSuchReport))
      case Ok(Some(rep)) =>
        if rep.claimant == Some(uid) then
          var db1 := CloseReport(db, id);
          CloseThenGet(db, id, rep);
          (db1, AfterUpdate(RefreshReport(db1, id, io)))
        else (db, NotYours)
  }

  /** "edit": the action's claimant rewrites target, name, offense and action. */
  function Edit(db: Db, id: u32, uid: u64, io: Discord): (r: (Db, Reply))
    requires db.Valid()
    ensures r.0.Valid()
    ensures GetActionFromId(db, id) == Ok(None) ==> r == (db, Failed(NoSuchAction))
    ensures forall a: Action :: GetActionFromId(db, id) == Ok(Some(a)) && a.claimant != uid ==> r == (db, NotYours)
    ensures io.modal.None? ==> r.0 == db
    ensures forall a: Action :: GetActionFromId(db, id) == Ok(Some(a)) && a.claimant == uid && io.modal.Some? ==>
              var m := io.modal.value;
              GetActionFromId(r.0, id) == Ok(Some(a.(targetId := m.id, targetUsername := m.name, offense := m.reason, action := m.action)))
    ensures r.0.reports == db.reports && r.0.reportLinks == db.reportLinks && r.0.actionLinks == db.actionLinks
  {
    match GetActionFromId(db, id)
    case Err(e) => (db, Failed(DbError(e)))
    case Ok(None) => (db, Failed(NoSuchAction))
    case Ok(Some(a)) =>
      if a.claimant != uid then (db, NotYours)
      else
        match io.modal
        case None => (db, Done)
        case Some(m) =>
          var a' := a.(targetId := m.id, targetUsername := m.name, offense := m.reason, action := m.action);
          var db1 := EditAction(db, id, a');
          EditThenGet(db, id, a');
          (db1, AfterUpdate(UpdateAuditMessage(db1, id, io.edited)))
  }

  /** `on_button`: decode the custom id, then dispatch on its kind. */
  function OnButton(db: Db, customId: string, uid: u64, io: Discord): (r: (Db, Reply))
    requires db.Valid()
    ensures r.0.Valid()
    ensures DecodeKindId(customId).None? ==> r == (db, Panicked)
    ensures r.1 == NotYours ==> r.0 == db
    ensures r.1.Failed? && r.1.why.InvalidKind? ==> r.0 == db
  {
    match DecodeKindId(customId)
    case None => (db, Panicked)
    case Some((kind, id)) => OnKind(db, kind, id, uid, io)
  }

  /** The transition a button of the given kind runs. */
  function OnKind(db: Db, kind: string, id: u32, uid: u64, io: Discord): (r: (Db, Reply))
    requires db.Valid()
    ensures r.0.Valid()
    ensures r.1 == NotYours ==> r.0 == db
    ensures r.1.Failed? && r.1.why.InvalidKind? ==> r.0 == db
  {
    if kind == "claim" then Claim(db, id, uid, io)
    else if kind == "close" then Close(db, id, uid, io)
    else if kind == "forceclose" then ForceClose(db, id, uid, io)
    else if kind == "edit" then Edit(db, id, uid, io)
    else (db, Failed(InvalidKind(kind)))
  }

  /** Every button the bot itself shows under a report is dispatched to the
      transition its caption names, for the report it is shown under. */
  lemma ReportButtonsDispatch(db: Db, status: ReportStatus, id: u32, uid: u64, io: Discord)
    requires db.Valid()
    ensures status == Open || status == Expired ==>
              OnButton(db, ReportActionRows(status, id)[0][0].customId, uid, io) == Claim(db, id, uid, io)
    ensures status == Claimed ==>
              OnButton(db, ReportActionRows(status, id)[0][0].customId, uid, io) == Close(db, id, uid, io) &&
              OnButton(db, ReportActionRows(status, id)[0][1].customId, uid, io) == ForceClose(db, id, uid, io)
  {
    if status == Open || status == Expired {
      DecodeKindIdRoundTrip("claim", id);
      assert ReportActionRows(status, id)[0][0].customId == KindId("claim", id);
      DispatchKind(db, KindId("claim", id), "claim", id, uid, io);
    } else if status == Claimed {
      DecodeKindIdRoundTrip("close", id);
      DecodeKindIdRoundTrip("forceclose", id);
      assert ReportActionRows(status, id)[0][0].customId == KindId("close", id);
      assert ReportActionRows(status, id)[0][1].customId == KindId("forceclose", id);
      DispatchKind(db, KindId("close", id), "close", id, uid, io);
      DispatchKind(db, KindId("forceclose", id), "forceclose", id, uid, io);
    }
  }

  /** A decoded custom id is dispatched on its kind. */
  lemma DispatchKind(db: Db, customId: string, kind: string, id: u32, uid: u64, io: Discord)
    requires db.Valid() && DecodeKindId(customId) == Some((kind, id))
    ensures kind == "claim" ==> OnButton(db, customId, uid, io) == Claim(db, id, uid, io)
    ensures kind == "close" ==> OnButton(db, customId, uid, io) == Close(db, id, uid, io)
    ensures kind == "forceclose" ==> OnButton(db, customId, uid, io) == ForceClose(db, id, uid, io)
  {
  }

  /** The Edit button under an audit message is dispatched to an edit of
      that action. */
  lemma ActionButtonDispatch(db: Db, id: u32, uid: u64, io: Discord)
    requires db.Valid()
    ensures OnButton(db, ActionComponents(id)[0][0].customId, uid, io) == Edit(db, id, uid, io)
  {
  }

  /** A close-with-action that runs to the end: the report reads back Closed
      (claimant kept), the new action carries the modal's texts, the report's
      location, the presser as claimant and this report, and its message is
      linked. */
  lemma CloseEffect(db: Db, id: u32, uid: u64, io: Discord, rep: Report)
    requires db.Valid() && db.nextAction < U32_LIMIT
    requires GetReportFromId(db, id) == Ok(Some(rep)) && rep.claimant == Some(uid)
    requires io.modal.Some? && io.sent.Some?
    requires FindLink(db.actionLinks, db.nextAction).None?
    ensures var db' := Close(db, id, uid, io).0;
            && GetReportFromId(db', id) == Ok(Some(rep.(reportStatus := Closed)))
            && GetActionFromId(db', db.nextAction) == Ok(Some(ClosingAction(io.modal.value, rep, id, uid)))
            && GetActionMessage(db', db.nextAction) == Ok(Some(io.sent.value))
            && db'.actions.Keys == db.actions.Keys + {db.nextAction}
  {
    var a := ClosingAction(io.modal.value, rep, id, uid);
    var db1 := CloseReport(db, id);
    CloseThenGet(db, id, rep);
    var (db2, aid) := AddAction(db1, a);
    AddActionThenGet(db1, a);
    var (channel, message) := io.sent.value;
    AddActionMessageThenGet(db2, channel, message, aid);
  }

  /** The report is closed before the action is inserted and before its
      message exists: when sending the audit message fails, the store keeps a
      closed report and an action with no linked message. */
  lemma CloseOrdering(db: Db, id: u32, uid: u64, io: Discord, rep: Report)
    requires db.Valid() && db.nextAction < U32_LIMIT
    requires GetReportFromId(db, id) == Ok(Some(rep)) && rep.claimant == Some(uid)
    requires io.modal.Some? && io.sent.None?
    requires FindLink(db.actionLinks, db.nextAction).None?
    ensures var r := Close(db, id, uid, io);
            && r.1 == Failed(SendFailed)
            && GetReportFromId(r.0, id) == Ok(Some(rep.(reportStatus := Closed)))
            && GetActionFromId(r.0, db.nextAction) == Ok(Some(ClosingAction(io.modal.value, rep, id, uid)))
            && GetActionMessage(r.0, db.nextAction) == Ok(None)
  {
    CloseThenGet(db, id, rep);
    AddActionThenGet(CloseReport(db, id), ClosingAction(io.modal.value, rep, id, uid));
  }

  /** What a close-with-action by the claimant leaves behind, whether or not
      the audit message is sent: the report reads back Closed with its
      claimant kept, and the action row sits at the next action id. */
  lemma CloseStores(db: Db, id: u32, uid: u64, io: Discord, rep: Report)
    requires db.Valid()
    requires GetReportFromId(db, id) == Ok(Some(rep)) && rep.claimant == Some(uid)
    requires io.modal.Some?
    ensures var db' := Close(db, id, uid, io).0;
            && GetReportFromId(db', id) == Ok(Some(rep.(reportStatus := Closed)))
            && db'.nextAction == db.nextAction + 1
            && db'.actions == db.actions[db.nextAction := ActionToRow(ClosingAction(io.modal.value, rep, id, uid))]
  {
    CloseThenGet(db, id, rep);
  }

  /** Nothing stops a second close: closing keeps the claimant, so the same
      staff member can close the same report again and a second action for
      that report is inserted. */
  lemma DuplicateActions(db: Db, id: u32, uid: u64, io1: Discord, io2: Discord, rep: Report)
    requires db.Valid()
    requires GetReportFromId(db, id) == Ok(Some(rep)) && rep.claimant == Some(uid)
    requires io1.modal.Some? && io2.modal.Some?
    ensures var db1 := Close(db, id, uid, io1).0;
            var db2 := Close(db1, id, uid, io2).0;
            && db.nextAction in db2.actions && db.nextAction + 1 in db2.actions
            && db2.actions[db.nextAction].report == Some(id as int)
            && db2.actions[db.nextAction + 1].report == Some(id as int)
  {
    CloseStores(db, id, uid, io1, rep);
    var db1 := Close(db, id, uid, io1).0;
    CloseStores(db1, id, uid, io2, rep.(reportStatus := Closed));
  }
}
