/** The older bot's entities (`src/report.rs`, `src/audit.rs`): a report
    status with three values, reports whose claimant and audit message are
    kept as text, actions, what a report or an action shows, and the answers
    of the audit modal turned into an action. */
module Legacy {
  import opened Wrappers
  import opened Text
  import opened Fields
  import Common
  import Ui

  datatype Status = Open | Claimed | Closed

  /** `ReportStatus::default()`: stored as the same text the newer bot
      stores for its default status. */
  function DefaultStatus(): (s: Status)
    ensures s == Open
    ensures StatusText(s) == Common.StatusToDb(Common.DefaultStatus())
  {
    Open
  }

  /** The lowercase text sqlx stores in the report_status column. */
  function StatusText(s: Status): string {
    match s
    case Open => "open"
    case Claimed => "claimed"
    case Closed => "closed"
  }

  /** Decoding the column: exactly the three lowercase texts. */
  function StatusFromText(t: string): Option<Status> {
    if t == "open" then Some(Open)
    else if t == "claimed" then Some(Claimed)
    else if t == "closed" then Some(Closed)
    else None
  }

  lemma StatusTextRoundTrip(s: Status)
    ensures StatusFromText(StatusText(s)) == Some(s)
  {
  }

  lemma StatusFromTextInverse(t: string, s: Status)
    requires StatusFromText(t) == Some(s)
    ensures StatusText(s) == t
  {
  }

  /** The column decodes exactly the three texts; "expired" is not one. */
  lemma StatusFromTextDomain(t: string)
    ensures StatusFromText(t).Some? <==> t in {"open", "claimed", "closed"}
    ensures StatusFromText(Common.StatusToDb(Common.Expired)) == None
  {
  }

  /** A report. Claimant and audit are free text: a user id and the id of
      the audit message, as decimal text. */
  datatype Report = Report(
    reporterId: string,
    reporterName: string,
    reportedId: string,
    reportedName: string,
    reportReason: string,
    reportStatus: Status,
    server: string,
    time: string,
    claimant: Option<string>,
    audit: Option<string>)

  /** An action. `report` is the SQLite row id of the report it closed. */
  datatype Action = Action(
    targetId: string,
    targetUsername: string,
    offense: string,
    action: string,
    server: Common.Location,
    claimant: string,
    report: Option<int>)

  /** `<@!claimant>`, or "???" without one. */
  function ClaimantMention(c: Option<string>): string {
    match c
    case Some(id) => "<@!" + id + ">"
    case None => "???"
  }

  /** `report_status_string`. A closed report with an audit links that
      message in the SL audit channel `slAudit`; an audit text that is not a
      u64 panics (`expect`), which is None here. */
  function StatusString(r: Report, slAudit: u64): (t: Option<string>)
    ensures t.None? <==> r.reportStatus == Closed && r.audit.Some? && ParseU64(r.audit.value).None?
    ensures t.Some? && r.reportStatus == Claimed ==> StartsWith(t.value, "Claimed by ")
    ensures t.Some? && r.reportStatus == Closed ==> StartsWith(t.value, "Closed by ")
  {
    match r.reportStatus
    case Open => Some("Open")
    case Claimed =>
      StartsWithConcat("Claimed by ", ClaimantMention(r.claimant));
      Some("Claimed by " + ClaimantMention(r.claimant))
    case Closed =>
      if r.audit.Some? && ParseU64(r.audit.value).None? then None
      else
        var see := if r.audit.Some? then " (See " + Ui.MessageLink(slAudit, ParseU64(r.audit.value).value) + ")" else "";
        StartsWithConcat("Closed by ", ClaimantMention(r.claimant) + see);
        Some("Closed by " + (ClaimantMention(r.claimant) + see))
  }

  /** Reads a claimant mention back: the claimant text and what follows. */
  function ReadClaimant(s: string): Option<(Option<string>, string)> {
    if StartsWith(s, "???") then Some((None, s[3..]))
    else if StartsWith(s, "<@!") then
      match SplitOnce(s[3..], '>')
      case None => None
      case Some((c, rest)) => Some((Some(c), rest))
    else None
  }

  lemma ReadClaimantOf(c: Option<string>, rest: string)
    requires c.Some? ==> '>' !in c.value
    ensures ReadClaimant(ClaimantMention(c) + rest) == Some((c, rest))
  {
    var s := ClaimantMention(c) + rest;
    if c.Some? {
      assert s == "<@!" + (c.value + ['>'] + rest);
      StartsWithConcat("<@!", c.value + ['>'] + rest);
      assert s[..3] != "???" by { assert s[0] == '<'; }
      SplitOnceOfJoin(c.value, '>', rest);
    } else {
      StartsWithConcat("???", rest);
    }
  }

  /** Reads a status line back: status, claimant, and whether it links an
      audit message. */
  function ReadStatusString(t: string): Option<(Status, Option<string>, bool)> {
    if t == "Open" then Some((Open, None, false))
    else if StartsWith(t, "Claimed by ") then
      match ReadClaimant(t[11..])
      case Some((c, "")) => Some((Claimed, c, false))
      case _ => None
    else if StartsWith(t, "Closed by ") then
      match ReadClaimant(t[10..])
      case Some((c, rest)) => if rest == "" then Some((Closed, c, false)) else if StartsWith(rest, " (See ") then Some((Closed, c, true)) else None
      case None => None
    else None
  }

  lemma ReadClaimedString(c: Option<string>)
    requires c.Some? ==> '>' !in c.value
    ensures ReadStatusString("Claimed by " + ClaimantMention(c)) == Some((Claimed, c, false))
  {
    var t := "Claimed by " + ClaimantMention(c);
    StartsWithConcat("Claimed by ", ClaimantMention(c));
    ReadClaimantOf(c, "");
    assert ClaimantMention(c) + "" == ClaimantMention(c);
    assert |t| > 7;
  }

  lemma ReadClosedString(c: Option<string>, see: string)
    requires c.Some? ==> '>' !in c.value
    requires see == "" || StartsWith(see, " (See ")
    ensures ReadStatusString("Closed by " + (ClaimantMention(c) + see)) == Some((Closed, c, see != ""))
  {
    var t := "Closed by " + (ClaimantMention(c) + see);
    StartsWithConcat("Closed by ", ClaimantMention(c) + see);
    ReadClaimantOf(c, see);
    assert |t| > 7;
    assert !StartsWith(t, "Claimed by ") by { assert t[2] == 'o'; assert "Claimed by "[2] == 'a'; }
  }

  /** The status line gives back the status, the claimant (when it holds no
      '>') and whether the report's audit message is linked. */
  lemma ReadStatusStringRoundTrip(r: Report, slAudit: u64)
    requires r.claimant.Some? ==> '>' !in r.claimant.value
    requires StatusString(r, slAudit).Some?
    ensures ReadStatusString(StatusString(r, slAudit).value) ==
      match r.reportStatus
      case Open => Some((Open, None, false))
      case Claimed => Some((Claimed, r.claimant, false))
      case Closed => Some((Closed, r.claimant, r.audit.Some?))
  {
    match r.reportStatus
    case Open =>
    case Claimed =>
      ReadClaimedString(r.claimant);
    case Closed =>
      var see := if r.audit.Some? then " (See " + Ui.MessageLink(slAudit, ParseU64(r.audit.value).value) + ")" else "";
      if r.audit.Some? {
        var link := Ui.MessageLink(slAudit, ParseU64(r.audit.value).value);
        StartsWithConcat(" (See ", link + ")");
        assert see == " (See " + (link + ")");
      }
      ReadClosedString(r.claimant, see);
  }

  /** `format!("{kind}_{id}")` with a signed id. */
  function ButtonId(kind: string, id: int): string {
    kind + "_" + IntText(id)
  }

  /** The button handler's decoding: `split_once("_")`, then the rest as an
      i64. None is where the handler panics (`expect`). */
  function DecodeButtonId(customId: string): (r: Option<(string, int)>)
    ensures r.Some? ==> '_' !in r.value.0
    ensures '_' !in customId ==> r.None?
  {
    match SplitOnce(customId, '_')
    case None => None
    case Some((kind, rest)) =>
      match ParseI64(rest)
      case None => None
      case Some(id) => Some((kind, id))
  }

  predicate InI64(i: int) {
    -(I64_MAX + 1) <= i <= I64_MAX
  }

  lemma DecodeButtonIdRoundTrip(kind: string, id: int)
    requires '_' !in kind && InI64(id)
    ensures DecodeButtonId(ButtonId(kind, id)) == Some((kind, id))
  {
    assert ButtonId(kind, id) == kind + ['_'] + IntText(id);
    SplitOnceOfJoin(kind, '_', IntText(id));
    ParseI64RoundTrip(id);
  }

  /** `Report::components`: Open offers claim, close and force-close,
      Claimed close and force-close, Closed nothing. */
  function Components(status: Status, id: int): (rows: seq<seq<Ui.Button>>)
    ensures |rows| <= 1
    ensures |rows| == 0 <==> status == Closed
    ensures status == Open ==> |rows[0]| == 3 && rows[0][0].caption == "Claim" && rows[0][1].caption == "Close" &&
                               rows[0][2].caption == "Close without action"
    ensures status == Claimed ==> |rows[0]| == 2 && rows[0][0].caption == "Close" && rows[0][1].caption == "Close without action"
  {
    match status
    case Open => [[Ui.Button(ButtonId("claim", id), "Claim", Ui.Primary), Ui.Button(ButtonId("close", id), "Close", Ui.Primary),
                   Ui.Button(ButtonId("forceclose", id), "Close without action", Ui.Danger)]]
    case Claimed => [[Ui.Button(ButtonId("close", id), "Close", Ui.Primary),
                      Ui.Button(ButtonId("forceclose", id), "Close without action", Ui.Danger)]]
    case Closed => []
  }

  /** The (kind, id) each button of a row decodes to. */
  function DecodedButtons(row: seq<Ui.Button>): (r: seq<Option<(string, int)>>)
    ensures |r| == |row|
  {
    if |row| == 0 then [] else [DecodeButtonId(row[0].customId)] + DecodedButtons(row[1..])
  }

  /** Each report button decodes to its kind and this report's id. */
  lemma ComponentsDecode(status: Status, id: int)
    requires InI64(id)
    ensures status == Open ==> DecodedButtons(Components(status, id)[0]) == [Some(("claim", id)), Some(("close", id)), Some(("forceclose", id))]
    ensures status == Claimed ==> DecodedButtons(Components(status, id)[0]) == [Some(("close", id)), Some(("forceclose", id))]
  {
    var close := Ui.Button(ButtonId("close", id), "Close", Ui.Primary);
    var force := Ui.Button(ButtonId("forceclose", id), "Close without action", Ui.Danger);
    CloseButtonsDecode(id);
    if status == Open {
      DecodeButtonIdRoundTrip("claim", id);
      var claim := Ui.Button(ButtonId("claim", id), "Claim", Ui.Primary);
      assert [claim, close, force][1..] == [close, force];
    }
  }

  /** The two closing buttons decode to their kinds and the report's id. */
  lemma CloseButtonsDecode(id: int)
    requires InI64(id)
    ensures DecodedButtons([Ui.Button(ButtonId("close", id), "Close", Ui.Primary),
                            Ui.Button(ButtonId("forceclose", id), "Close without action", Ui.Danger)])
            == [Some(("close", id)), Some(("forceclose", id))]
  {
    DecodeButtonIdRoundTrip("close", id);
    DecodeButtonIdRoundTrip("forceclose", id);
    var close := Ui.Button(ButtonId("close", id), "Close", Ui.Primary);
    var force := Ui.Button(ButtonId("forceclose", id), "Close without action", Ui.Danger);
    assert DecodedButtons([force]) == [Some(("forceclose", id))];
    assert [close, force][1..] == [force];
  }

  /** `Action::create_components`: one Edit button. */
  function ActionComponents(id: int): (rows: seq<seq<Ui.Button>>)
    requires InI64(id)
    ensures |rows| == 1 && |rows[0]| == 1 && rows[0][0].caption == "Edit"
    ensures DecodeButtonId(rows[0][0].customId) == Some(("edit", id))
  {
    DecodeButtonIdRoundTrip("edit", id);
    [[Ui.Button(ButtonId("edit", id), "Edit", Ui.Secondary)]]
  }

  /** The footer of an action embed. */
  function Footer(report: Option<int>): string {
    match report
    case Some(r) => "/report report_id:" + IntText(r)
    case None => "No report"
  }

  /** Reads the report a footer points to. */
  function ReadFooter(t: string): Option<Option<int>> {
    if t == "No report" then Some(None)
    else if StartsWith(t, "/report report_id:") then
      match ParseI64(t[18..])
      case Some(r) => Some(Some(r))
      case None => None
    else None
  }

  lemma FooterRoundTrip(report: Option<int>)
    requires report.Some? ==> InI64(report.value)
    ensures ReadFooter(Footer(report)) == Some(report)
  {
    if report.Some? {
      StartsWithConcat("/report report_id:", IntText(report.value));
      ParseI64RoundTrip(report.value);
    }
  }

  /** The audit modal's answers. */
  datatype AuditModelResult = AuditModelResult(location: Common.Location, punishment: string, offense: string, name: string, id: string)

  /** A `Location` read by its variant name. */
  function LocationFromName(t: string): (r: Result<Common.Location, FieldError>)
    ensures r.Ok? <==> t == "SL" || t == "Discord"
  {
    if t == "SL" then Ok(Common.SL)
    else if t == "Discord" then Ok(Common.Discord)
    else Err(UnknownVariant("location", t))
  }

  /** Decoding the modal's (custom id -> value) map: all five fields are
      required, the location by its variant name; other keys are ignored. */
  function DecodeAuditModel(m: FieldMap): (r: Result<AuditModelResult, FieldError>)
    ensures r.Ok? ==> forall k :: k in ["punishment", "offense", "name", "id"] ==> k in m
    ensures r.Ok? ==> r.value.punishment == m["punishment"] && r.value.offense == m["offense"] &&
                      r.value.name == m["name"] && r.value.id == m["id"]
    ensures "location" !in m ==> r == Err(MissingField("location"))
  {
    var loc :- Required(m, ["location"]);
    var location :- LocationFromName(loc);
    var punishment :- Required(m, ["punishment"]);
    var offense :- Required(m, ["offense"]);
    var name :- Required(m, ["name"]);
    var id :- Required(m, ["id"]);
    Ok(AuditModelResult(location, punishment, offense, name, id))
  }

  /** `to_action`: the modal's texts, the submitter as claimant in decimal
      text (which reads back as the submitter), the given report. */
  function ToAction(m: AuditModelResult, reportId: Option<int>, user: u64): (a: Action)
    ensures a.targetUsername == m.name && a.targetId == m.id && a.offense == m.offense && a.action == m.punishment
    ensures a.server == m.location && a.report == reportId
    ensures ParseU64(a.claimant) == Some(user)
  {
    ParseU64RoundTrip(user);
    Action(m.id, m.name, m.offense, m.punishment, m.location, DecimalText(user), reportId)
  }
}
