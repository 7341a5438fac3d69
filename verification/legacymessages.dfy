/** The older bot's message handling: turning a game server's "Player
    Report" embed into a stored report (`report_from_msg` and the `message`
    handler in `src/main.rs`), and `/import` (`src/commands/import.rs`),
    which stores every report found in a channel's history as closed. */
module LegacyMessages {
  import opened Wrappers
  import opened Text
  import opened Fields
  import Common
  import opened Store
  import opened Legacy
  import opened LegacyDb
  import Events

  /** An older status read by its variant name. */
  function OldStatusFromName(name: string, t: string): (r: Result<Status, FieldError>)
    ensures r.Ok? <==> t in {"Open", "Claimed", "Closed"}
  {
    if t == "Open" then Ok(Open)
    else if t == "Claimed" then Ok(Claimed)
    else if t == "Closed" then Ok(Closed)
    else Err(UnknownVariant(name, t))
  }

  /** A `#[serde(default)]` field of type `Option<String>`: absent is None,
      any text is that text. */
  function OptionalText(m: FieldMap, name: string): (r: Option<string>)
    ensures r.Some? <==> name in m
    ensures r.Some? ==> r.value == m[name]
  {
    if name in m then Some(m[name]) else None
  }

  /** What goes wrong when serde meets key `k` of the map for the older
      Report: the field seen twice, or a status that is no variant. Claimant
      and audit are `Option<String>` here, so any text is taken. */
  function OldEntryError(m: FieldMap, k: string): (r: Option<FieldError>)
    ensures r.Some? ==> k in m
    ensures Events.GivenTwice(m, k) ==> r == Some(DuplicateField(k))
    ensures k == "claimant" || k == "audit" ==> r.None?
    ensures k == "report_status" && k in m ==> (r.None? <==> OldStatusFromName(k, m[k]).Ok?)
  {
    if k !in m then None
    else if Events.GivenTwice(m, k) then Some(DuplicateField(k))
    else if k == "report_status" then
      match OldStatusFromName(k, m[k])
      case Err(e) => Some(e)
      case Ok(_) => None
    else None
  }

  /** What goes wrong at each of `keys`, in order, for the older Report. */
  function OldEntryErrors(m: FieldMap, keys: seq<string>): (r: seq<Option<FieldError>>)
    ensures |r| == |keys| && forall i :: 0 <= i < |keys| ==> r[i] == OldEntryError(m, keys[i])
  {
    if |keys| == 0 then [] else [OldEntryError(m, keys[0])] + OldEntryErrors(m, keys[1..])
  }

  /** The fields of the older Report, taken once every entry has been read:
      eight required fields, each under its own name or its embed caption;
      the status defaults to Open; claimant and audit are optional texts. */
  function OldDecodeFields(m: FieldMap): (r: Result<Report, FieldError>)
    ensures r.Ok? ==> ("report_status" !in m ==> r.value.reportStatus == Open)
    ensures r.Ok? ==> (r.value.claimant.Some? <==> "claimant" in m) && (r.value.audit.Some? <==> "audit" in m)
    ensures r.Ok? && "claimant" in m ==> r.value.claimant == Some(m["claimant"])
    ensures "reporter_id" !in m && "Reporter UserID" !in m ==> r == Err(MissingField("reporter_id"))
  {
    var reporterId :- Required(m, ["reporter_id", "Reporter UserID"]);
    var reporterName :- Required(m, ["reporter_name", "Reporter Nickname"]);
    var reportedId :- Required(m, ["reported_id", "Reported UserID"]);
    var reportedName :- Required(m, ["reported_name", "Reported Nickname"]);
    var reason :- Required(m, ["report_reason", "Reason"]);
    var status :- if "report_status" in m then OldStatusFromName("report_status", m["report_status"]) else Ok(DefaultStatus());
    var server :- Required(m, ["server", "Server Name"]);
    var time :- Required(m, ["time", "UTC Timestamp"]);
    var claimant := OptionalText(m, "claimant");
    var audit := OptionalText(m, "audit");
    Ok(Report(reporterId, reporterName, reportedId, reportedName, reason, status, server, time, claimant, audit))
  }

  /** The older Report the map decodes to: the entries are read first, in
      key order, and the first that fails decides the error; only then are
      the fields taken, so a missing field is reported only when every entry
      read cleanly. */
  function OldDecodeReport(m: FieldMap): (r: Result<Report, FieldError>)
    ensures r.Ok? ==> ("report_status" !in m ==> r.value.reportStatus == Open)
    ensures r.Ok? ==> (r.value.claimant.Some? <==> "claimant" in m) && (r.value.audit.Some? <==> "audit" in m)
    ensures r.Ok? && "claimant" in m ==> r.value.claimant == Some(m["claimant"])
    ensures FirstError(OldEntryErrors(m, Events.ReportKeys)).Some? ==>
              r == Err(FirstError(OldEntryErrors(m, Events.ReportKeys)).value)
    ensures FirstError(OldEntryErrors(m, Events.ReportKeys)).None? && "reporter_id" !in m && "Reporter UserID" !in m ==>
              r == Err(MissingField("reporter_id"))
  {
    var entries := FirstError(OldEntryErrors(m, Events.ReportKeys));
    if entries.Some? then Err(entries.value) else OldDecodeFields(m)
  }

  /** The older bot takes a claimant text that the newer one rejects at its
      entry. */
  lemma ClaimantTextOnlyOld(m: FieldMap)
    requires "claimant" in m && "audit" !in m
    requires FirstError(OldEntryErrors(m, Events.ReportKeys)).None?
    ensures Events.DecodeReport(m) == Err(InvalidType("claimant"))
    ensures OldDecodeReport(m).Ok? ==> OldDecodeReport(m).value.claimant == Some(m["claimant"])
  {
    Events.ClaimantTextFailsFirst(m);
  }

  /** The newer status of the same name. */
  function NewerStatus(s: Status): Common.ReportStatus {
    match s
    case Open => Common.Open
    case Claimed => Common.Claimed
    case Closed => Common.Closed
  }

  /** Where neither decoder meets a field the other lacks, an entry fails
      for one bot exactly when it fails for the other. */
  lemma OldAndNewerEntriesAgree(m: FieldMap)
    requires "claimant" !in m && "audit" !in m
    requires "report_status" in m ==> m["report_status"] != "Expired"
    ensures FirstError(OldEntryErrors(m, Events.ReportKeys)) == FirstError(Events.EntryErrors(m, Events.ReportKeys))
  {
    var keys := Events.ReportKeys;
    forall i | 0 <= i < |keys|
      ensures OldEntryError(m, keys[i]) == Events.EntryError(m, keys[i])
    {
    }
    assert OldEntryErrors(m, keys) == Events.EntryErrors(m, keys);
  }

  /** Where neither decoder meets a field the other lacks, the two bots take
      the same fields from the same map. */
  lemma OldAndNewerFieldsAgree(m: FieldMap)
    requires "claimant" !in m && "audit" !in m
    requires "report_status" in m ==> m["report_status"] != "Expired"
    ensures OldDecodeFields(m).Ok? <==> Events.DecodeFields(m).Ok?
    ensures OldDecodeFields(m).Err? ==> OldDecodeFields(m).error == Events.DecodeFields(m).error
    ensures OldDecodeFields(m).Ok? ==>
              var o := OldDecodeFields(m).value;
              var n := Events.DecodeFields(m).value;
              && o.reporterId == n.reporterId && o.reporterName == n.reporterName
              && o.reportedId == n.reportedId && o.reportedName == n.reportedName
              && o.reportReason == n.reportReason && o.server == n.server && o.time == n.time
              && NewerStatus(o.reportStatus) == n.reportStatus
              && o.claimant.None? && o.audit.None?
  {
    var a1 := Required(m, ["reporter_id", "Reporter UserID"]);
    var a2 := Required(m, ["reporter_name", "Reporter Nickname"]);
    var a3 := Required(m, ["reported_id", "Reported UserID"]);
    var a4 := Required(m, ["reported_name", "Reported Nickname"]);
    var a5 := Required(m, ["report_reason", "Reason"]);
    var os := if "report_status" in m then OldStatusFromName("report_status", m["report_status"]) else Ok(DefaultStatus());
    var ns := if "report_status" in m then Events.StatusFromName("report_status", m["report_status"]) else Ok(Common.DefaultStatus());
    var a6 := Required(m, ["server", "Server Name"]);
    var a7 := Required(m, ["time", "UTC Timestamp"]);
    assert os.Ok? <==> ns.Ok?;
    assert os.Ok? ==> NewerStatus(os.value) == ns.value;
    if a1.Ok? && a2.Ok? && a3.Ok? && a4.Ok? && a5.Ok? && os.Ok? && a6.Ok? && a7.Ok? {
      assert OldDecodeFields(m) == Ok(Report(a1.value, a2.value, a3.value, a4.value, a5.value, os.value, a6.value, a7.value, None, None));
      assert Events.DecodeFields(m).Ok?;
    } else {
      assert OldDecodeFields(m).Err?;
      assert Events.DecodeFields(m).Err?;
    }
  }

  /** Where neither decoder meets a field the other lacks, the two bots read
      the same report from the same map, and fail on the same maps. */
  lemma OldAndNewerDecodeAgree(m: FieldMap)
    requires "claimant" !in m && "audit" !in m
    requires "report_status" in m ==> m["report_status"] != "Expired"
    ensures OldDecodeReport(m).Ok? <==> Events.DecodeReport(m).Ok?
    ensures OldDecodeReport(m).Err? ==> OldDecodeReport(m).error == Events.DecodeReport(m).error
    ensures OldDecodeReport(m).Ok? ==>
              var o := OldDecodeReport(m).value;
              var n := Events.DecodeReport(m).value;
              && o.reporterId == n.reporterId && o.reporterName == n.reporterName
              && o.reportedId == n.reportedId && o.reportedName == n.reportedName
              && o.reportReason == n.reportReason && o.server == n.server && o.time == n.time
              && NewerStatus(o.reportStatus) == n.reportStatus
              && o.claimant.None? && o.audit.None?
  {
    OldAndNewerEntriesAgree(m);
    OldAndNewerFieldsAgree(m);
  }

  /** `report_from_msg`: only a first embed titled "Player Report" is a
      report; its fields form a map, values stripped of backticks, the last
      of a repeated name winning. */
  function OldReportFromMsg(embeds: seq<Events.Embed>): (r: Result<Option<Report>, FieldError>)
    ensures |embeds| == 0 ==> r == Ok(None)
    ensures |embeds| > 0 && embeds[0].title != Some("Player Report") ==> r == Ok(None)
  {
    if |embeds| == 0 || embeds[0].title != Some("Player Report") then Ok(None)
    else
      match OldDecodeReport(Events.FieldMapOf(embeds[0].fields, s => s))
      case Err(e) => Err(e)
      case Ok(rep) => Ok(Some(rep))
  }

  /** A report as the game server files it: Open, with no claimant or audit. */
  predicate OldFresh(r: Report) {
    r.reportStatus == Open && r.claimant.None? && r.audit.None?
  }

  /** The same report in the newer shape, for the game server's embed. */
  function AsNewer(r: Report): (n: Common.Report)
    ensures n.reporterId == r.reporterId && n.reportedId == r.reportedId && n.reportReason == r.reportReason
  {
    Common.Report(r.reporterId, r.reporterName, r.reportedId, r.reportedName, r.reportReason, NewerStatus(r.reportStatus),
                  r.server, r.time, None, None, Common.DefaultLocation())
  }

  predicate OldNoBackticks(r: Report) {
    '`' !in r.reporterId && '`' !in r.reporterName && '`' !in r.reportedId && '`' !in r.reportedName &&
    '`' !in r.reportReason && '`' !in r.server && '`' !in r.time
  }

  /** A report the game server posts, its texts free of backticks, is read
      back as that report. */
  lemma OldReportFromMsgRoundTrip(r: Report)
    requires OldFresh(r) && OldNoBackticks(r)
    ensures OldReportFromMsg([Events.ReportEmbed(AsNewer(r))]) == Ok(Some(r))
  {
    var n := AsNewer(r);
    var id: string -> string := s => s;
    Events.FieldMapOfReportEmbed(n, id);
    OldDecodeCaptionMap(r);
  }

  /** The captions decode to the report they carry. */
  lemma OldDecodeCaptionMap(r: Report)
    requires OldFresh(r)
    ensures OldDecodeReport(Events.CaptionMap(AsNewer(r))) == Ok(r)
  {
    var m := Events.CaptionMap(AsNewer(r));
    assert m.Keys == Events.Captions;
    Events.FieldNamesAreNotCaptions(m);
    Events.CaptionMapReadsCleanly(AsNewer(r));
    OldAndNewerEntriesAgree(m);
    Events.CaptionMapLookups(AsNewer(r));
  }

  /** Storing a decoded report, building the message that re-posts it and
      linking that message (`sent`; None when the send failed). Building
      the embed (`create_embed`) panics on an audit that is not a message id
      (`slAudit` as in `StatusString`) and then on a time `timestamp` does
      not parse; the report is stored by then. */
  function PostReport(db: Db, rep: Report, slAudit: u64, timestamp: string -> Option<int>,
                      sent: Option<(u64, u64)>): (r: (Db, Events.MessageOutcome))
    requires db.Valid()
    ensures r.0.Valid()
    ensures r.1 == Events.Posted || r.1 == Events.Panicked || r.1 == Events.SendFailed
    ensures r.1 == Events.Panicked <==> StatusString(rep, slAudit).None? || timestamp(rep.time).None?
    ensures r.1 == Events.Posted <==> sent.Some? && StatusString(rep, slAudit).Some? && timestamp(rep.time).Some?
    ensures r.0.nextReport == db.nextReport + 1
    ensures GetReport(r.0, db.nextReport) == Ok(Some(rep.(claimant := None, audit := None)))
    ensures r.1 == Events.Posted ==>
              r.0.reportLinks == db.reportLinks + [LinkRow(db.nextReport, DecimalText(sent.value.1), DecimalText(sent.value.0))]
    ensures r.1 != Events.Posted ==> r.0.reportLinks == db.reportLinks
    ensures r.0.actions == db.actions && r.0.actionLinks == db.actionLinks
  {
    var (db1, id) := AddReport(db, rep);
    AddReportThenGet(db, rep);
    if StatusString(rep, slAudit).None? || timestamp(rep.time).None? then (db1, Events.Panicked)
    else
      match sent
      case None => (db1, Events.SendFailed)
      case Some((channel, message)) => (AddReportMessage(db1, id, channel, message), Events.Posted)
  }

  /** The older `message` handler. A decoded report is stored (without
      claimant and audit), re-posted with its buttons in the same channel and
      linked (`PostReport`). Deleting the original is left out: its failure
      is only logged. */
  function OldOnMessage(db: Db, embeds: seq<Events.Embed>, slAudit: u64, timestamp: string -> Option<int>,
                        sent: Option<(u64, u64)>): (r: (Db, Events.MessageOutcome))
    requires db.Valid()
    ensures r.0.Valid()
    ensures r.1.NotAReport? || r.1.DecodeFailed? ==> r.0 == db
    ensures OldReportFromMsg(embeds).Ok? && OldReportFromMsg(embeds).value.None? ==> r == (db, Events.NotAReport)
    ensures OldReportFromMsg(embeds).Err? ==> r == (db, Events.DecodeFailed(OldReportFromMsg(embeds).error))
    ensures r.1.Posted? || r.1.Panicked? || r.1.SendFailed? ==>
              && OldReportFromMsg(embeds).Ok? && OldReportFromMsg(embeds).value.Some?
              && r.0.nextReport == db.nextReport + 1
              && GetReport(r.0, db.nextReport) == Ok(Some(OldReportFromMsg(embeds).value.value.(claimant := None, audit := None)))
    ensures OldReportFromMsg(embeds).Ok? && OldReportFromMsg(embeds).value.Some?
            && timestamp(OldReportFromMsg(embeds).value.value.time).None?
            ==> r.1 == Events.Panicked
    ensures r.1.Posted? <==>
              && sent.Some? && OldReportFromMsg(embeds).Ok? && OldReportFromMsg(embeds).value.Some?
              && StatusString(OldReportFromMsg(embeds).value.value, slAudit).Some?
              && timestamp(OldReportFromMsg(embeds).value.value.time).Some?
    ensures r.0.actions == db.actions && r.0.actionLinks == db.actionLinks
  {
    var decoded := OldReportFromMsg(embeds);
    match decoded
    case Err(e) => (db, Events.DecodeFailed(e))
    case Ok(None) => (db, Events.NotAReport)
    case Ok(Some(rep)) => PostReport(db, rep, slAudit, timestamp, sent)
  }

  /** A posted report with a parsable time reads back under the next id,
      with the message that shows it. */
  lemma OldOnMessageStores(db: Db, r: Report, slAudit: u64, timestamp: string -> Option<int>, channel: u64, message: u64)
    requires db.Valid() && OldFresh(r) && OldNoBackticks(r) && timestamp(r.time).Some?
    requires FindLink(db.reportLinks, db.nextReport).None?
    ensures var out := OldOnMessage(db, [Events.ReportEmbed(AsNewer(r))], slAudit, timestamp, Some((channel, message)));
            && out.1 == Events.Posted
            && GetReport(out.0, db.nextReport) == Ok(Some(r))
            && GetReportMessageFromId(out.0, db.nextReport) == Ok((channel, message))
  {
    OldReportFromMsgRoundTrip(r);
    var (db1, id) := AddReport(db, r);
    AddReportMessageThenGet(db1, id, channel, message);
  }

  /** A report whose time does not parse is stored, and then building its
      message panics: nothing is posted or linked. */
  lemma OldOnMessageBadTimePanics(db: Db, r: Report, slAudit: u64, timestamp: string -> Option<int>,
                                  sent: Option<(u64, u64)>)
    requires db.Valid() && OldFresh(r) && OldNoBackticks(r) && timestamp(r.time).None?
    ensures var out := OldOnMessage(db, [Events.ReportEmbed(AsNewer(r))], slAudit, timestamp, sent);
            && out.1 == Events.Panicked
            && GetReport(out.0, db.nextReport) == Ok(Some(r))
            && out.0.reportLinks == db.reportLinks
  {
    OldReportFromMsgRoundTrip(r);
  }

  /** The reports `/import` keeps from a channel's messages, newest first as
      Discord lists them: every message that decodes to a report, forced
      Closed; the others are skipped. */
  function ImportedReports(messages: seq<seq<Events.Embed>>): (r: seq<Report>)
    ensures |r| <= |messages|
    ensures forall i :: 0 <= i < |r| ==> r[i].reportStatus == Closed
  {
    ClosedReports(DecodeAll(messages))
  }

  /** Each message run through the game server's decoder. */
  function DecodeAll(messages: seq<seq<Events.Embed>>): (r: seq<Result<Option<Report>, FieldError>>)
    ensures |r| == |messages|
    ensures forall i :: 0 <= i < |messages| ==> r[i] == OldReportFromMsg(messages[i])
  {
    if |messages| == 0 then [] else [OldReportFromMsg(messages[0])] + DecodeAll(messages[1..])
  }

  /** The decoded reports, closed, in order; failures and non-reports skipped. */
  function ClosedReports(decoded: seq<Result<Option<Report>, FieldError>>): (r: seq<Report>)
    ensures |r| <= |decoded|
    ensures forall i :: 0 <= i < |r| ==> r[i].reportStatus == Closed
  {
    if |decoded| == 0 then []
    else
      var rest := ClosedReports(decoded[1..]);
      match decoded[0]
      case Ok(Some(rep)) => [rep.(reportStatus := Closed)] + rest
      case _ => rest
  }

  /** Every decodable message contributes its report, closed. */
  lemma ImportedReportsComplete(messages: seq<seq<Events.Embed>>)
    ensures forall i :: 0 <= i < |messages| && OldReportFromMsg(messages[i]).Ok? && OldReportFromMsg(messages[i]).value.Some?
              ==> OldReportFromMsg(messages[i]).value.value.(reportStatus := Closed) in ImportedReports(messages)
  {
    var decoded := DecodeAll(messages);
    forall i | 0 <= i < |messages| && OldReportFromMsg(messages[i]).Ok? && OldReportFromMsg(messages[i]).value.Some?
      ensures OldReportFromMsg(messages[i]).value.value.(reportStatus := Closed) in ImportedReports(messages)
    {
      ClosedReportsContains(decoded, i);
    }
  }

  /** Every report in a decoded list is kept, closed. */
  lemma {:induction false} ClosedReportsContains(decoded: seq<Result<Option<Report>, FieldError>>, i: nat)
    requires i < |decoded| && decoded[i].Ok? && decoded[i].value.Some?
    ensures decoded[i].value.value.(reportStatus := Closed) in ClosedReports(decoded)
  {
    if i > 0 {
      assert decoded[i] == decoded[1..][i - 1];
      ClosedReportsContains(decoded[1..], i - 1);
    }
  }

  function Reverse<T>(s: seq<T>): (r: seq<T>)
    ensures |r| == |s|
    ensures forall i :: 0 <= i < |s| ==> r[i] == s[|s| - 1 - i]
  {
    if |s| == 0 then [] else Reverse(s[1..]) + [s[0]]
  }

  /** Inserts the reports in turn; the insert at index `failAt` fails and
      ends the command (`?`), the earlier inserts staying. */
  function InsertAll(db: Db, rs: seq<Report>, failAt: Option<nat>): (r: (Db, bool))
    requires db.Valid()
    ensures r.0.Valid()
    ensures r.1 <==> failAt.None? || failAt.value >= |rs|
    ensures r.0.nextReport == db.nextReport + (if r.1 then |rs| else failAt.value)
    ensures forall k :: k in db.reports ==> k in r.0.reports && r.0.reports[k] == db.reports[k]
    ensures r.0.actions == db.actions && r.0.reportLinks == db.reportLinks && r.0.actionLinks == db.actionLinks
    decreases |rs|
  {
    if |rs| == 0 then (db, true)
    else if failAt == Some(0) then (db, false)
    else
      var (db1, _) := AddReport(db, rs[0]);
      InsertAll(db1, rs[1..], Later(failAt))
  }

  function Later(failAt: Option<nat>): Option<nat> {
    if failAt.Some? && failAt.value > 0 then Some(failAt.value - 1) else None
  }

  /** The insert run stores the `j`-th report under the `j`-th fresh id. */
  lemma {:induction false} InsertAllStores(db: Db, rs: seq<Report>, failAt: Option<nat>, k: nat)
    requires db.Valid()
    requires db.nextReport <= k < InsertAll(db, rs, failAt).0.nextReport
    ensures k - db.nextReport < |rs|
    ensures var r := InsertAll(db, rs, failAt).0;
            k in r.reports && r.reports[k] == RowOfReport(rs[k - db.nextReport]).(claimant := None, audit := None)
    decreases |rs|
  {
    var (db1, _) := AddReport(db, rs[0]);
    if k > db.nextReport {
      InsertAllStores(db1, rs[1..], Later(failAt), k);
      assert rs[1..][k - db1.nextReport] == rs[k - db.nextReport];
    }
  }

  /** `/import`: `responded` is whether Discord accepted the first reply;
      the reports are inserted oldest first. */
  function Import(db: Db, messages: seq<seq<Events.Embed>>, responded: bool, failAt: Option<nat>): (r: (Db, bool))
    requires db.Valid()
    ensures r.0.Valid()
    ensures !responded ==> r == (db, false)
    ensures forall k :: k in db.reports ==> k in r.0.reports && r.0.reports[k] == db.reports[k]
    ensures r.0.actions == db.actions && r.0.reportLinks == db.reportLinks && r.0.actionLinks == db.actionLinks
  {
    if !responded then (db, false)
    else InsertAll(db, Reverse(ImportedReports(messages)), failAt)
  }

  /** Each report of a completed run of inserts reads back under its id. */
  lemma {:induction false} InsertAllGet(db: Db, rs: seq<Report>, i: nat)
    requires db.Valid() && i < |rs|
    ensures InsertAll(db, rs, None).1 && InsertAll(db, rs, None).0.nextReport == db.nextReport + |rs|
    ensures GetReport(InsertAll(db, rs, None).0, db.nextReport + i) == Ok(Some(rs[i].(claimant := None, audit := None)))
  {
    InsertAllStores(db, rs, None, db.nextReport + i);
    StoredRowReads(InsertAll(db, rs, None).0, db.nextReport + i, rs[i].(claimant := None, audit := None));
  }

  /** A row written from a report reads back as that report. */
  lemma StoredRowReads(d: Db, k: int, rep: Report)
    requires k in d.reports && d.reports[k] == RowOfReport(rep)
    ensures GetReport(d, k) == Ok(Some(rep))
  {
    ReportRowRoundTrip(rep);
  }

  /** A completed import stores one closed report per decodable message
      (`rs`), the oldest message getting the lowest id. */
  lemma ImportStoresClosedOldestFirst(db: Db, messages: seq<seq<Events.Embed>>, rs: seq<Report>, i: nat)
    requires db.Valid() && rs == ImportedReports(messages) && i < |rs|
    ensures var r := Import(db, messages, true, None);
            && r.1 && r.0.nextReport == db.nextReport + |rs|
            && GetReport(r.0, db.nextReport + i) == Ok(Some(rs[|rs| - 1 - i].(claimant := None, audit := None)))
            && GetReport(r.0, db.nextReport + i).value.value.reportStatus == Closed
  {
    ImportInsertsReversed(db, messages, rs);
    InsertReversedGet(db, rs, i);
  }

  lemma ImportInsertsReversed(db: Db, messages: seq<seq<Events.Embed>>, rs: seq<Report>)
    requires db.Valid() && rs == ImportedReports(messages)
    ensures Import(db, messages, true, None) == InsertAll(db, Reverse(rs), None)
    ensures forall j :: 0 <= j < |rs| ==> rs[j].reportStatus == Closed
  {
  }

  /** Inserting closed reports newest first stores the `i`-th from the end
      at the `i`-th id, closed. */
  lemma InsertReversedGet(db: Db, rs: seq<Report>, i: nat)
    requires db.Valid() && i < |rs|
    requires forall j :: 0 <= j < |rs| ==> rs[j].reportStatus == Closed
    ensures var r := InsertAll(db, Reverse(rs), None);
            && r.1 && r.0.nextReport == db.nextReport + |rs|
            && GetReport(r.0, db.nextReport + i) == Ok(Some(rs[|rs| - 1 - i].(claimant := None, audit := None)))
            && GetReport(r.0, db.nextReport + i).value.value.reportStatus == Closed
  {
    var rev := Reverse(rs);
    assert rev[i] == rs[|rs| - 1 - i];
    InsertAllGet(db, rev, i);
  }
}
