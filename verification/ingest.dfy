/** The newer bot's commands that create records from plain data: "Report
    Message to Staff" (`report_to_admin.rs`) builds a report about a Discord
    message, and `/audit discord` and `/audit sl` (`commands/audit.rs`) record a
    standalone action. */
module Ingest {
  import opened Wrappers
  import opened Text
  import opened Common
  import opened DbCodec
  import opened Store
  import opened Database
  import Lifecycle
  import opened Events
  import Ui

  /** The reason modal's minimum length. Discord refuses a shorter answer, so
      a shorter text never reaches the bot. */
  const MIN_REASON_LENGTH: nat := 25

  /** The report's reason: the reporter's text, then the message link in
      parentheses. */
  function ReasonWithLink(why: string, link: string): (s: string)
    ensures |s| == |why| + |link| + 3
    ensures StartsWith(s, why)
  {
    StartsWithConcat(why, " (" + link + ")");
    why + (" (" + link + ")")
  }

  /** Reads the link back out of a reason: the text between the last " ("
      and the closing parenthesis, when the reporter's text is known. */
  lemma ReasonWithLinkSplits(why: string, link: string)
    ensures var s := ReasonWithLink(why, link);
            s[..|why|] == why && s[|why|..] == " (" + link + ")"
  {
    StartsWithConcat(why, " (" + link + ")");
  }

  /** The report built from the modal: the invoker reports the author of the
      message, it is Open and unclaimed, from Discord; `server` is the guild's
      name and `now` the timestamp text. */
  function StaffReport(invoker: User, author: User, why: string, link: string, server: string, now: string): (r: Report)
    ensures r.reportStatus == Open && r.claimant.None? && r.audit.None? && r.location == Discord
    ensures r.reporterId == DecimalText(invoker.id) && r.reporterName == DisplayName(invoker)
    ensures r.reportedId == DecimalText(author.id) && r.reportedName == DisplayName(author)
    ensures StartsWith(r.reportReason, why)
  {
    Report(DecimalText(invoker.id), DisplayName(invoker), DecimalText(author.id), DisplayName(author),
           ReasonWithLink(why, link), Open, server, now, None, None, Discord)
  }

  /** `EmbedFailed` and `Panicked` end the building of the report message,
      after the report was stored. */
  datatype IngestOutcome = NothingSubmitted | Created(id: u32) | NoGuild | EmbedFailed(why: Ui.UpdateError) | Panicked
                         | SendFailed

  /** `report_to_admins`. `why` is the modal's answer (None on timeout);
      `server` is the guild name (None when the channel is not a guild channel
      or the name is unknown); `count` and `timestamp` are as in
      `Ui.CreateThings`, which builds the report message; `sent` is the
      posted report message. The report is stored before its message
      exists. */
  function ReportToAdmins(db: Db, invoker: User, author: User, why: Option<string>, link: string,
                          server: Option<string>, now: string, count: Option<nat>, timestamp: string -> Option<int>,
                          sent: Option<(u64, u64)>): (r: (Db, IngestOutcome))
    requires db.Valid()
    ensures r.0.Valid()
    ensures why.None? || |why.value| < MIN_REASON_LENGTH ==> r == (db, NothingSubmitted)
    ensures r.1.NoGuild? ==> r.0 == db
    ensures why.Some? && |why.value| >= MIN_REASON_LENGTH && server.Some? && count.None?
            ==> r.1 == IngestOutcome.EmbedFailed(Ui.CountFailed)
    ensures why.Some? && |why.value| >= MIN_REASON_LENGTH && server.Some? && count.Some? && timestamp(now).None?
            ==> r.1 == IngestOutcome.Panicked
    ensures r.1.EmbedFailed? ==> r.1.why != Ui.TimePanicked
    ensures r.1.EmbedFailed? || r.1.Panicked? || r.1.SendFailed? ==> r.0.reportLinks == db.reportLinks && r.0.nextReport == db.nextReport + 1
    ensures r.1.Created? ==> count.Some? && timestamp(now).Some? && sent.Some?
    ensures r.0.actions == db.actions && r.0.actionLinks == db.actionLinks
  {
    if why.None? || |why.value| < MIN_REASON_LENGTH then (db, NothingSubmitted)
    else if server.None? then (db, NoGuild)
    else
      var report := StaffReport(invoker, author, why.value, link, server.value, now);
      var (db1, id) := AddReport(db, report);
      match Ui.CreateThings(db1, report, id, count, timestamp)
      case Err(e) => if e == Ui.TimePanicked then (db1, IngestOutcome.Panicked) else (db1, IngestOutcome.EmbedFailed(e))
      case Ok(_) =>
        match sent
        case None => (db1, IngestOutcome.SendFailed)
        case Some((channel, message)) => (AddReportMessage(db1, channel, message, id), Created(id))
  }

  /** A submitted report reads back under its id, with its message linked,
      once the count query answers and the time parses. */
  lemma ReportToAdminsStores(db: Db, invoker: User, author: User, why: string, link: string,
                             server: string, now: string, n: nat, timestamp: string -> Option<int>,
                             channel: u64, message: u64)
    requires db.Valid() && db.nextReport < U32_LIMIT
    requires |why| >= MIN_REASON_LENGTH && timestamp(now).Some?
    requires FindLink(db.reportLinks, db.nextReport).None?
    ensures var r := ReportToAdmins(db, invoker, author, Some(why), link, Some(server), now, Some(n), timestamp, Some((channel, message)));
            && r.1 == Created(db.nextReport)
            && GetReportFromId(r.0, db.nextReport) == Ok(Some(StaffReport(invoker, author, why, link, server, now).(location := DefaultLocation())))
            && GetReportMessage(r.0, db.nextReport) == Ok(Some((channel, message)))
  {
    var report := StaffReport(invoker, author, why, link, server, now);
    var (db1, id) := AddReport(db, report);
    AddReportThenGet(db, report);
    AddReportMessageThenGet(db1, channel, message, id);
  }

  /** The modal `/audit discord` opens: the chosen user's id and name, or
      "0" and "" without a user (`unwrap_or_default`); missing texts are "". */
  function DiscordPrefill(user: Option<User>, offense: Option<string>, action: Option<string>): (m: Lifecycle.AuditModal)
    ensures user.None? ==> m.id == "0" && m.name == ""
    ensures user.Some? ==> m.id == DecimalText(user.value.id) && m.name == DisplayName(user.value)
    ensures m.reason == offense.GetOr("") && m.action == action.GetOr("")
  {
    match user
    case None => Lifecycle.AuditModal(DecimalText(0), "", offense.GetOr(""), action.GetOr(""))
    case Some(u) => Lifecycle.AuditModal(DecimalText(u.id), DisplayName(u), offense.GetOr(""), action.GetOr(""))
  }

  /** The modal `/audit sl` opens: the given texts, missing ones "". */
  function SlPrefill(id: Option<string>, name: Option<string>, offense: Option<string>, action: Option<string>): (m: Lifecycle.AuditModal)
    ensures m == Lifecycle.AuditModal(id.GetOr(""), name.GetOr(""), offense.GetOr(""), action.GetOr(""))
  {
    Lifecycle.AuditModal(id.GetOr(""), name.GetOr(""), offense.GetOr(""), action.GetOr(""))
  }

  /** The standalone action: the submitted modal's texts, the given location,
      the invoker as claimant, no report. */
  function StandaloneAction(m: Lifecycle.AuditModal, loc: Location, invoker: u64): (a: Action)
    ensures a.report.None? && a.claimant == invoker && a.server == loc
    ensures a.targetId == m.id && a.targetUsername == m.name && a.offense == m.reason && a.action == m.action
  {
    Action(m.id, m.name, m.reason, m.action, loc, invoker, None)
  }

  /** `do_it`: the submitted modal (None on timeout) becomes an action,
      stored before its message is sent to the location's audit channel and
      linked. */
  function DoIt(db: Db, submitted: Option<Lifecycle.AuditModal>, loc: Location, invoker: u64,
                auditChannel: Location -> u64, sent: Option<u64>): (r: (Db, IngestOutcome))
    requires db.Valid()
    ensures r.0.Valid()
    ensures submitted.None? ==> r == (db, NothingSubmitted)
    ensures submitted.Some? ==>
              (r.0.nextAction == db.nextAction + 1 &&
               r.0.actions == db.actions[db.nextAction := ActionToRow(StandaloneAction(submitted.value, loc, invoker))])
    ensures sent.Some? && submitted.Some? ==>
              r.0.actionLinks == db.actionLinks + [LinkRow(db.nextAction % U32_LIMIT, DecimalText(sent.value), DecimalText(auditChannel(loc)))]
    ensures r.0.reports == db.reports && r.0.reportLinks == db.reportLinks
  {
    match submitted
    case None => (db, NothingSubmitted)
    case Some(m) =>
      var (db1, aid) := AddAction(db, StandaloneAction(m, loc, invoker));
      match sent
      case None => (db1, IngestOutcome.SendFailed)
      case Some(message) => (AddActionMessage(db1, auditChannel(loc), message, aid), Created(aid))
  }

  /** `/audit discord` and `/audit sl` as written: both record the action
      as a Discord one. */
  function AuditCommandAsWritten(db: Db, sl: bool, submitted: Option<Lifecycle.AuditModal>, invoker: u64,
                                 auditChannel: Location -> u64, sent: Option<u64>): (r: (Db, IngestOutcome))
    requires db.Valid()
    ensures r.0.Valid()
    ensures submitted.Some? ==> db.nextAction in r.0.actions && r.0.actions[db.nextAction].server == LocationText(Discord)
  {
    DoIt(db, submitted, Discord, invoker, auditChannel, sent)
  }

  /** The sl subcommand as written files an SL player's action under Discord,
      in Discord's audit channel. */
  lemma SlAuditRecordedAsDiscord(db: Db, m: Lifecycle.AuditModal, invoker: u64, auditChannel: Location -> u64)
    requires db.Valid()
    ensures var r := AuditCommandAsWritten(db, true, Some(m), invoker, auditChannel, None);
            r.0.actions[db.nextAction].server == LocationText(Discord) &&
            r.0.actions[db.nextAction].server != LocationText(SL)
  {
  }

  /** The subcommands as evidently intended: each records its own platform. */
  function AuditCommand(db: Db, sl: bool, submitted: Option<Lifecycle.AuditModal>, invoker: u64,
                        auditChannel: Location -> u64, sent: Option<u64>): (r: (Db, IngestOutcome))
    requires db.Valid()
    ensures r.0.Valid()
    ensures submitted.Some? ==> db.nextAction in r.0.actions && r.0.actions[db.nextAction].server == LocationText(if sl then SL else Discord)
  {
    DoIt(db, submitted, if sl then SL else Discord, invoker, auditChannel, sent)
  }

  /** A standalone action reads back under its id, with its message linked
      in its platform's channel. */
  lemma AuditCommandStores(db: Db, sl: bool, m: Lifecycle.AuditModal, invoker: u64, auditChannel: Location -> u64, message: u64)
    requires db.Valid() && db.nextAction < U32_LIMIT
    requires FindLink(db.actionLinks, db.nextAction).None?
    ensures var loc := if sl then SL else Discord;
            var r := AuditCommand(db, sl, Some(m), invoker, auditChannel, Some(message));
            && GetActionFromId(r.0, db.nextAction) == Ok(Some(StandaloneAction(m, loc, invoker)))
            && GetActionMessage(r.0, db.nextAction) == Ok(Some((auditChannel(loc), message)))
  {
    var loc := if sl then SL else Discord;
    var a := StandaloneAction(m, loc, invoker);
    var (db1, aid) := AddAction(db, a);
    AddActionThenGet(db, a);
    AddActionMessageThenGet(db1, auditChannel(loc), message, aid);
  }
}
