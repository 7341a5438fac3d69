/** What the newer bot shows for a report or an action (`lurk_chan/src/lib.rs`):
    the buttons under a report for each status, the `kind_id` custom id those
    buttons carry and the button handler decodes, the status line, the audit
    footer, and the two "update the message" operations that re-read the store
    before editing a message. */
module Ui {
  import opened Wrappers
  import opened Text
  import opened Common
  import opened DbCodec
  import opened Store
  import opened Database

  datatype ButtonStyle = Primary | Secondary | Danger

  datatype Button = Button(customId: string, caption: string, style: ButtonStyle)

  /** `format!("{kind}_{id}")`. */
  function KindId(kind: string, id: nat): string {
    kind + "_" + DecimalText(id)
  }

  /** The button handler's decoding: `split_once('_')`, then the text after
      the first '_' parsed as u32. None is where the handler panics. */
  function DecodeKindId(customId: string): (r: Option<(string, u32)>)
    ensures r.Some? ==> '_' !in r.value.0 && StartsWith(customId, r.value.0 + "_")
    ensures '_' !in customId ==> r.None?
  {
    match SplitOnce(customId, '_')
    case None => None
    case Some((kind, rest)) =>
      assert customId == (kind + "_") + rest;
      StartsWithConcat(kind + "_", rest);
      match ParseU32(rest)
      case None => None
      case Some(id) => Some((kind, id))
  }

  /** Every id the bot writes decodes to the kind and id it was built from,
      because no kind contains '_'. */
  lemma DecodeKindIdRoundTrip(kind: string, id: u32)
    requires '_' !in kind
    ensures DecodeKindId(KindId(kind, id)) == Some((kind, id))
  {
    assert KindId(kind, id) == kind + ['_'] + DecimalText(id);
    SplitOnceOfJoin(kind, '_', DecimalText(id));
    ParseU32RoundTrip(id);
  }

  /** A custom id whose number part, after the first '_', is not a u32 is
      not decoded. */
  lemma DecodeKindIdRejects(kind: string, rest: string)
    requires '_' !in kind && ParseU32(rest).None?
    ensures DecodeKindId(kind + "_" + rest) == None
  {
    assert kind + "_" + rest == kind + ['_'] + rest;
    SplitOnceOfJoin(kind, '_', rest);
  }

  /** `create_report_action_row`: the rows of buttons under a report. */
  function ReportActionRows(status: ReportStatus, id: u32): (rows: seq<seq<Button>>)
    ensures |rows| <= 1
    ensures |rows| == 0 <==> status == Closed
    ensures status == Open ==> |rows[0]| == 1 && rows[0][0].caption == "Claim"
    ensures status == Expired ==> |rows[0]| == 1 && rows[0][0].caption == "Reopen and Claim"
    ensures status == Claimed ==> |rows[0]| == 2 && rows[0][0].caption == "Close" && rows[0][1].caption == "Close without action"
  {
    match status
    case Open => [[Button(KindId("claim", id), "Claim", Primary)]]
    case Expired => [[Button(KindId("claim", id), "Reopen and Claim", Secondary)]]
    case Claimed => [[Button(KindId("close", id), "Close", Primary), Button(KindId("forceclose", id), "Close without action", Danger)]]
    case Closed => []
  }

  /** The (kind, id) pairs the buttons of a row decode to. */
  function DecodedRow(row: seq<Button>): (r: seq<Option<(string, u32)>>)
    ensures |r| == |row|
    ensures forall i :: 0 <= i < |row| ==> r[i] == DecodeKindId(row[i].customId)
  {
    if |row| == 0 then [] else [DecodeKindId(row[0].customId)] + DecodedRow(row[1..])
  }

  /** What pressing each report button means: Open and Expired offer a claim
      of this report, Claimed a close and a force-close of it, Closed nothing. */
  lemma ReportButtonsDecode(status: ReportStatus, id: u32)
    ensures status == Open || status == Expired ==> DecodedRow(ReportActionRows(status, id)[0]) == [Some(("claim", id))]
    ensures status == Claimed ==> DecodedRow(ReportActionRows(status, id)[0]) == [Some(("close", id)), Some(("forceclose", id))]
  {
    if status == Open || status == Expired {
      var row := ReportActionRows(status, id)[0];
      DecodeKindIdRoundTrip("claim", id);
      assert DecodedRow(row)[0] == Some(("claim", id));
    } else if status == Claimed {
      var row := ReportActionRows(status, id)[0];
      DecodeKindIdRoundTrip("close", id);
      DecodeKindIdRoundTrip("forceclose", id);
      assert DecodedRow(row)[0] == Some(("close", id));
      assert DecodedRow(row)[1] == Some(("forceclose", id));
    }
  }

  /** `create_action_components`: one row holding one Edit button. */
  function ActionComponents(id: u32): (rows: seq<seq<Button>>)
    ensures |rows| == 1 && |rows[0]| == 1 && rows[0][0].caption == "Edit"
    ensures DecodeKindId(rows[0][0].customId) == Some(("edit", id))
  {
    DecodeKindIdRoundTrip("edit", id);
    [[Button(KindId("edit", id), "Edit", Secondary)]]
  }

  /** `<@!id>`, or "???" when there is no claimant. */
  function Mention(c: Option<u64>): string {
    match c
    case Some(id) => "<@!" + DecimalText(id) + ">"
    case None => "???"
  }

  /** `MessageId::link(channel, None)`. */
  function MessageLink(channel: u64, message: u64): string {
    "https://discord.com/channels/@me/" + DecimalText(channel) + "/" + DecimalText(message)
  }

  /** The "Report Status" field of a report embed. `actionMessage` is the
      message of an action that closed the report, if one is linked. */
  function StatusText(r: Report, actionMessage: Option<(u64, u64)>): (t: string)
    ensures r.reportStatus == Claimed ==> StartsWith(t, "Claimed by ")
    ensures r.reportStatus == Closed ==> StartsWith(t, "Closed by ")
  {
    match r.reportStatus
    case Open => "Open"
    case Expired => "Expired"
    case Claimed =>
      StartsWithConcat("Claimed by ", Mention(r.claimant));
      "Claimed by " + Mention(r.claimant)
    case Closed =>
      var see := match actionMessage
        case Some((c, m)) => " (See " + MessageLink(c, m) + ")"
        case None => "";
      StartsWithConcat("Closed by ", Mention(r.claimant) + see);
      "Closed by " + (Mention(r.claimant) + see)
  }

  /** Reads a mention back: the claimant, and the text after it. */
  function ReadMention(s: string): (r: Option<(Option<u64>, string)>)
    ensures r.Some? ==> |r.value.1| <= |s|
  {
    if StartsWith(s, "???") then Some((None, s[3..]))
    else if StartsWith(s, "<@!") then
      match SplitOnce(s[3..], '>')
      case None => None
      case Some((digits, rest)) =>
        match ParseU64(digits)
        case None => None
        case Some(c) => Some((Some(c), rest))
    else None
  }

  lemma ReadMentionOf(c: Option<u64>, rest: string)
    ensures ReadMention(Mention(c) + rest) == Some((c, rest))
  {
    var s := Mention(c) + rest;
    if c.Some? {
      var d := DecimalText(c.value);
      assert s == "<@!" + (d + ['>'] + rest);
      StartsWithConcat("<@!", d + ['>'] + rest);
      assert s[..3] != "???" by { assert s[0] == '<'; }
      assert '>' !in d by { assert AllDigits(d); }
      SplitOnceOfJoin(d, '>', rest);
      ParseU64RoundTrip(c.value);
    } else {
      StartsWithConcat("???", rest);
    }
  }

  /** Reads a status line back: the status, the claimant it names, and
      whether it links an action message. */
  function ReadStatusText(t: string): (r: Option<(ReportStatus, Option<u64>, bool)>)
  {
    if t == "Open" then Some((Open, None, false))
    else if t == "Expired" then Some((Expired, None, false))
    else if StartsWith(t, "Claimed by ") then
      match ReadMention(t[11..])
      case Some((c, "")) => Some((Claimed, c, false))
      case _ => None
    else if StartsWith(t, "Closed by ") then
      match ReadMention(t[10..])
      case Some((c, rest)) => if rest == "" then Some((Closed, c, false)) else if StartsWith(rest, " (See ") then Some((Closed, c, true)) else None
      case None => None
    else None
  }

  lemma ReadClaimedText(c: Option<u64>)
    ensures ReadStatusText("Claimed by " + Mention(c)) == Some((Claimed, c, false))
  {
    var t := "Claimed by " + Mention(c);
    StartsWithConcat("Claimed by ", Mention(c));
    ReadMentionOf(c, "");
    assert Mention(c) + "" == Mention(c);
    assert |t| > 7;
  }

  lemma ReadClosedText(c: Option<u64>, see: string)
    requires see == "" || StartsWith(see, " (See ")
    ensures ReadStatusText("Closed by " + (Mention(c) + see)) == Some((Closed, c, see != ""))
  {
    var t := "Closed by " + (Mention(c) + see);
    StartsWithConcat("Closed by ", Mention(c) + see);
    ReadMentionOf(c, see);
    assert |t| > 7;
    assert !StartsWith(t, "Claimed by ") by { assert t[2] == 'o'; assert "Claimed by "[2] == 'a'; }
  }

  /** The status line determines the status, the claimant of a claimed or
      closed report, and whether a closing action is linked. */
  lemma ReadStatusTextRoundTrip(r: Report, actionMessage: Option<(u64, u64)>)
    ensures ReadStatusText(StatusText(r, actionMessage)) ==
      match r.reportStatus
      case Open => Some((Open, None, false))
      case Expired => Some((Expired, None, false))
      case Claimed => Some((Claimed, r.claimant, false))
      case Closed => Some((Closed, r.claimant, actionMessage.Some?))
  {
    match r.reportStatus
    case Open =>
    case Expired =>
    case Claimed =>
      ReadClaimedText(r.claimant);
    case Closed =>
      var see := match actionMessage
        case Some((c, m)) => " (See " + MessageLink(c, m) + ")"
        case None => "";
      if actionMessage.Some? {
        var (c, m) := actionMessage.value;
        StartsWithConcat(" (See ", MessageLink(c, m) + ")");
        assert see == " (See " + (MessageLink(c, m) + ")");
      }
      ReadClosedText(r.claimant, see);
  }

  /** Different statuses always show different status lines. */
  lemma StatusTextDistinguishesStatus(r1: Report, a1: Option<(u64, u64)>, r2: Report, a2: Option<(u64, u64)>)
    requires StatusText(r1, a1) == StatusText(r2, a2)
    ensures r1.reportStatus == r2.reportStatus
  {
    ReadStatusTextRoundTrip(r1, a1);
    ReadStatusTextRoundTrip(r2, a2);
  }

  /** The footer of an action embed. */
  function ActionFooter(report: Option<u32>): string {
    match report
    case Some(r) => "/report report_id:" + DecimalText(r)
    case None => "No report"
  }

  /** Reads the report an action footer points to. */
  function ReadActionFooter(t: string): Option<Option<u32>> {
    if t == "No report" then Some(None)
    else if StartsWith(t, "/report report_id:") then
      match ParseU32(t[18..])
      case Some(r) => Some(Some(r))
      case None => None
    else None
  }

  lemma ActionFooterRoundTrip(report: Option<u32>)
    ensures ReadActionFooter(ActionFooter(report)) == Some(report)
  {
    if report.Some? {
      StartsWithConcat("/report report_id:", DecimalText(report.value));
      ParseU32RoundTrip(report.value);
    }
  }

  /** Why refreshing a shown message stops. `TimePanicked` is the
      `expect` on the report's time: a panic rather than an error. */
  datatype UpdateError =
    | DbFailed(e: Error)
    | ReportNotFound
    | CountFailed
    | TimePanicked
    | ReportMessageNotFound
    | ActionNotFound
    | ActionMessageNotFound
    | EditFailed

  /** What an edited report message shows: the status line, the buttons and
      the footer's count of reports against the same player. */
  datatype ReportView = ReportView(status: string, rows: seq<seq<Button>>, timesReported: nat)

  /** `create_things_from_report(rep, rid)`: the embed and the buttons of a
      report message. Building the embed reads the count of reports against
      the same player (`count`, None when the query fails), then for a
      closed report its action message, then parses the time as a timestamp
      (`timestamp`; a time it does not parse panics on `expect`). The
      buttons never fail. */
  function CreateThings(db: Db, rep: Report, rid: u32, count: Option<nat>, timestamp: string -> Option<int>): (r: Result<ReportView, UpdateError>)
    ensures count.None? ==> r == Err(CountFailed)
    ensures count.Some? && (rep.reportStatus == Closed ==> GetActionMessageFromReportId(db, rid).Ok?)
            && timestamp(rep.time).None?
            ==> r == Err(TimePanicked)
    ensures r.Ok? <==>
              && count.Some? && (rep.reportStatus == Closed ==> GetActionMessageFromReportId(db, rid).Ok?)
              && timestamp(rep.time).Some?
    ensures r.Err? && r.error.DbFailed? ==> rep.reportStatus == Closed && GetActionMessageFromReportId(db, rid).Err?
    ensures r.Err? ==> r.error in {CountFailed, TimePanicked} || r.error.DbFailed?
    ensures r.Ok? ==>
              && r.value.rows == ReportActionRows(rep.reportStatus, rid)
              && r.value.timesReported == count.value
              && (rep.reportStatus != Closed ==> r.value.status == StatusText(rep, None))
  {
    match count
    case None => Err(CountFailed)
    case Some(n) =>
      var link := if rep.reportStatus == Closed then GetActionMessageFromReportId(db, rid) else Ok(None);
      match link
      case Err(e) => Err(DbFailed(e))
      case Ok(am) =>
        if timestamp(rep.time).None? then Err(TimePanicked)
        else Ok(ReportView(StatusText(rep, am), ReportActionRows(rep.reportStatus, rid), n))
  }

  /** `update_report_message(rid)`: re-reads the report, builds its message
      (`CreateThings`), re-reads its own message link and edits that
      message. `edited` is whether Discord accepted the edit. */
  function UpdateReportMessage(db: Db, rid: u32, count: Option<nat>, timestamp: string -> Option<int>, edited: bool): (r: Result<ReportView, UpdateError>)
    ensures GetReportFromId(db, rid) == Ok(None) ==> r == Err(ReportNotFound)
    ensures GetReportFromId(db, rid).Ok? && GetReportFromId(db, rid).value.Some? && count.None? ==> r == Err(CountFailed)
    ensures GetReportFromId(db, rid).Ok? && GetReportFromId(db, rid).value.Some? && count.Some?
            && (GetReportFromId(db, rid).value.value.reportStatus == Closed ==> GetActionMessageFromReportId(db, rid).Ok?)
            && timestamp(GetReportFromId(db, rid).value.value.time).None?
            ==> r == Err(TimePanicked)
    ensures GetReportFromId(db, rid).Ok? && GetReportFromId(db, rid).value.Some? && count.Some?
            && (GetReportFromId(db, rid).value.value.reportStatus == Closed ==> GetActionMessageFromReportId(db, rid).Ok?)
            && timestamp(GetReportFromId(db, rid).value.value.time).Some? && GetReportMessage(db, rid) == Ok(None)
            ==> r == Err(ReportMessageNotFound)
    ensures r == Err(TimePanicked) ==>
              && GetReportFromId(db, rid).Ok? && GetReportFromId(db, rid).value.Some?
              && timestamp(GetReportFromId(db, rid).value.value.time).None?
    ensures r.Ok? ==>
              && edited && count.Some? && GetReportFromId(db, rid).Ok? && GetReportFromId(db, rid).value.Some?
              && timestamp(GetReportFromId(db, rid).value.value.time).Some?
    ensures r.Ok? ==>
              && r.value.rows == ReportActionRows(GetReportFromId(db, rid).value.value.reportStatus, rid)
              && r.value.timesReported == count.value
  {
    match GetReportFromId(db, rid)
    case Err(e) => Err(DbFailed(e))
    case Ok(None) => Err(ReportNotFound)
    case Ok(Some(rep)) =>
      match CreateThings(db, rep, rid, count, timestamp)
      case Err(e) => Err(e)
      case Ok(view) =>
        match GetReportMessage(db, rid)
        case Err(e) => Err(DbFailed(e))
        case Ok(None) => Err(ReportMessageNotFound)
        case Ok(Some(_)) => if edited then Ok(view) else Err(EditFailed)
  }

  /** What an edited audit message shows. */
  datatype AuditView = AuditView(footer: string, rows: seq<seq<Button>>)

  /** `update_audit_message(id)`. */
  function UpdateAuditMessage(db: Db, id: u32, edited: bool): (r: Result<AuditView, UpdateError>)
    ensures GetActionFromId(db, id) == Ok(None) ==> r == Err(ActionNotFound)
    ensures GetActionFromId(db, id).Ok? && GetActionFromId(db, id).value.Some? && GetActionMessage(db, id) == Ok(None) ==> r == Err(ActionMessageNotFound)
    ensures r.Ok? ==> edited && GetActionFromId(db, id).Ok? && GetActionFromId(db, id).value.Some?
    ensures r.Ok? ==> ReadActionFooter(r.value.footer) == Some(GetActionFromId(db, id).value.value.report)
  {
    match GetActionFromId(db, id)
    case Err(e) => Err(DbFailed(e))
    case Ok(None) => Err(ActionNotFound)
    case Ok(Some(a)) =>
      match GetActionMessage(db, id)
      case Err(e) => Err(DbFailed(e))
      case Ok(None) => Err(ActionMessageNotFound)
      case Ok(Some(_)) =>
        ActionFooterRoundTrip(a.report);
        if edited then Ok(AuditView(ActionFooter(a.report), ActionComponents(id))) else Err(EditFailed)
  }
}
