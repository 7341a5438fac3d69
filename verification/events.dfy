/** The newer bot's gateway handlers in `lurk_chan/src/event.rs`: recording a
    Discord timeout from the guild audit log as an action, and turning an
    in-game "Player Report" embed into a stored report. */
module Events {
  import opened Wrappers
  import opened Text
  import opened Common
  import opened Fields
  import opened DbCodec
  import opened Store
  import opened Database
  import Ui

  /** A Discord user as fetched by id. */
  datatype User = User(id: u64, globalName: Option<string>, name: string)

  /** The name the bot records: the global name when there is one. */
  function DisplayName(u: User): (s: string)
    ensures u.globalName.Some? ==> s == u.globalName.value
    ensures u.globalName.None? ==> s == u.name
  {
    u.globalName.GetOr(u.name)
  }

  /** One change of a member-update audit log entry: a change of
      `communication_disabled_until` (its new value as a unix time, None when
      a timeout is lifted), or any other change. */
  datatype Change = CommunicationDisabledUntil(newValue: Option<int>) | OtherChange

  const TimeoutPrefix: string := "Timeout until <t:"

  /** What follows the first timestamp's number: its `:f` style, then the
      same time again in the relative `:R` style. */
  function TimeoutTail(num: string): string {
    "f> (<t:" + num + ":R>)"
  }

  /** The action text of a timeout: the end time as two Discord timestamp
      tags, absolute (`:f`) and relative (`:R`). */
  function TimeoutText(until: int): string {
    TimeoutPrefix + (IntText(until) + [':'] + TimeoutTail(IntText(until)))
  }

  /** Reads the end time back out of a timeout text. */
  function ReadTimeoutText(s: string): (r: Option<int>)
    ensures r.Some? ==> StartsWith(s, TimeoutPrefix)
  {
    if !StartsWith(s, TimeoutPrefix) then None
    else
      match SplitOnce(s[|TimeoutPrefix|..], ':')
      case None => None
      case Some((num, tail)) =>
        match ParseI64(num)
        case None => None
        case Some(t) => if tail == TimeoutTail(IntText(t)) then Some(t) else None
  }

  lemma IntTextNoColon(i: int)
    ensures ':' !in IntText(i)
  {
    var d := DecimalText(if i < 0 then -i else i);
    assert AllDigits(d);
    if i < 0 {
      assert IntText(i) == "-" + d;
    }
  }

  /** The end time written into the action text is the one read back from
      it (unix times are i64). */
  lemma TimeoutTextRoundTrip(until: int)
    requires -(I64_MAX + 1) <= until <= I64_MAX
    ensures ReadTimeoutText(TimeoutText(until)) == Some(until)
  {
    var num := IntText(until);
    var rest := num + [':'] + TimeoutTail(num);
    StartsWithConcat(TimeoutPrefix, rest);
    IntTextNoColon(until);
    SplitOnceOfJoin(num, ':', TimeoutTail(num));
    ParseI64RoundTrip(until);
  }

  /** The action recorded for a timeout set by `invoker` on `target`. */
  function TimeoutAction(target: User, reason: Option<string>, until: int, invoker: u64): (a: Action)
    ensures a.server == Discord && a.claimant == invoker && a.report.None?
    ensures a.targetId == DecimalText(target.id) && a.targetUsername == DisplayName(target)
    ensures reason.None? ==> a.offense == "???"
  {
    Action(DecimalText(target.id), DisplayName(target), reason.GetOr("???"), TimeoutText(until), Discord, invoker, None)
  }

  /** A stored action row that a guild-audit timeout by `invoker` produces. */
  predicate TimeoutRow(row: DBAction, invoker: u64) {
    row.server == LocationText(Discord) && row.claimant == DecimalText(invoker) && row.report.None?
  }

  /** Timeouts set before the first lifted timeout: the handler returns at a
      lift, so later changes of the same entry are never looked at. */
  function TimeoutsBeforeLift(changes: seq<Change>): (n: nat)
    ensures n <= |changes|
  {
    if |changes| == 0 then 0
    else match changes[0]
      case OtherChange => TimeoutsBeforeLift(changes[1..])
      case CommunicationDisabledUntil(None) => 0
      case CommunicationDisabledUntil(Some(_)) => 1 + TimeoutsBeforeLift(changes[1..])
  }

  /** Timeouts after a lifted timeout are not counted: the loop has ended. */
  lemma {:induction false} TimeoutsStopAtLift(before: seq<Change>, after: seq<Change>)
    ensures TimeoutsBeforeLift(before + [CommunicationDisabledUntil(None)] + after) == TimeoutsBeforeLift(before)
  {
    if |before| > 0 {
      assert (before + [CommunicationDisabledUntil(None)] + after)[1..] == before[1..] + [CommunicationDisabledUntil(None)] + after;
      TimeoutsStopAtLift(before[1..], after);
    }
  }

  /** When every change sets a timeout, every one is counted. */
  lemma {:induction false} AllTimeoutsCounted(changes: seq<Change>)
    requires forall i :: 0 <= i < |changes| ==> changes[i].CommunicationDisabledUntil? && changes[i].newValue.Some?
    ensures TimeoutsBeforeLift(changes) == |changes|
  {
    if |changes| > 0 {
      AllTimeoutsCounted(changes[1..]);
    }
  }

  /** The loop over an entry's changes. For each timeout: fetch the target
      (None: no target id, or the fetch failed), insert the action, send its
      message (`sends` gives Discord's answer to each send in turn; a missing
      answer is a failed send) and link it. Any failure ends the handler with
      an error; the writes already made stay. */
  function ApplyChanges(db: Db, changes: seq<Change>, target: Option<User>, reason: Option<string>,
                        invoker: u64, sends: seq<Option<(u64, u64)>>): (r: (Db, bool))
    requires db.Valid()
    ensures r.0.Valid()
    ensures r.0.reports == db.reports && r.0.reportLinks == db.reportLinks
    ensures forall k :: k in db.actions ==> k in r.0.actions && r.0.actions[k] == db.actions[k]
    ensures forall k :: k in r.0.actions && k !in db.actions ==> TimeoutRow(r.0.actions[k], invoker)
    ensures db.nextAction <= r.0.nextAction <= db.nextAction + TimeoutsBeforeLift(changes)
    ensures target.None? && TimeoutsBeforeLift(changes) > 0 ==> !r.1 && r.0 == db
    decreases |changes|
  {
    if |changes| == 0 then (db, true)
    else match changes[0]
      case OtherChange => ApplyChanges(db, changes[1..], target, reason, invoker, sends)
      case CommunicationDisabledUntil(None) => (db, true)
      case CommunicationDisabledUntil(Some(until)) =>
        match target
        case None => (db, false)
        case Some(user) =>
          var (db1, aid) := AddAction(db, TimeoutAction(user, reason, until, invoker));
          ParseU64RoundTrip(invoker);
          if |sends| == 0 || sends[0].None? then (db1, false)
          else
            var db2 := AddActionMessage(db1, sends[0].value.0, sends[0].value.1, aid);
            ApplyChanges(db2, changes[1..], target, reason, invoker, sends[1..])
  }

  predicate AllSent(sends: seq<Option<(u64, u64)>>, n: nat) {
    n <= |sends| && forall i :: 0 <= i < n ==> sends[i].Some?
  }

  /** When the target is found and every send succeeds, the handler succeeds
      and inserts exactly one action per timeout before the first lift. */
  lemma {:induction false} ApplyChangesCount(db: Db, changes: seq<Change>, user: User, reason: Option<string>,
                                             invoker: u64, sends: seq<Option<(u64, u64)>>)
    requires db.Valid()
    requires AllSent(sends, TimeoutsBeforeLift(changes))
    ensures var r := ApplyChanges(db, changes, Some(user), reason, invoker, sends);
            r.1 && r.0.nextAction == db.nextAction + TimeoutsBeforeLift(changes)
    decreases |changes|
  {
    if |changes| > 0 {
      match changes[0]
      case OtherChange =>
        ApplyChangesCount(db, changes[1..], user, reason, invoker, sends);
      case CommunicationDisabledUntil(None) =>
      case CommunicationDisabledUntil(Some(until)) =>
        var (db1, aid) := AddAction(db, TimeoutAction(user, reason, until, invoker));
        var db2 := AddActionMessage(db1, sends[0].value.0, sends[0].value.1, aid);
        assert AllSent(sends[1..], TimeoutsBeforeLift(changes[1..])) by {
          forall i | 0 <= i < TimeoutsBeforeLift(changes[1..])
            ensures sends[1..][i].Some?
          {
            assert sends[1..][i] == sends[i + 1];
          }
        }
        ApplyChangesCount(db2, changes[1..], user, reason, invoker, sends[1..]);
    }
  }

  /** `on_guild_audit`: only member updates are looked at. */
  function OnGuildAudit(db: Db, memberUpdate: bool, changes: seq<Change>, target: Option<User>,
                        reason: Option<string>, invoker: u64, sends: seq<Option<(u64, u64)>>): (r: (Db, bool))
    requires db.Valid()
    ensures r.0.Valid()
    ensures !memberUpdate ==> r == (db, true)
    ensures r.0.reports == db.reports && r.0.reportLinks == db.reportLinks
    ensures forall k :: k in r.0.actions && k !in db.actions ==> TimeoutRow(r.0.actions[k], invoker)
  {
    if memberUpdate then ApplyChanges(db, changes, target, reason, invoker, sends) else (db, true)
  }

  /** A single timeout, fully delivered, reads back as the action it records,
      with its message linked. */
  lemma GuildAuditSingleTimeout(db: Db, user: User, reason: Option<string>, until: int, invoker: u64, channel: u64, message: u64)
    requires db.Valid() && db.nextAction < U32_LIMIT
    requires FindLink(db.actionLinks, db.nextAction).None?
    ensures var r := OnGuildAudit(db, true, [CommunicationDisabledUntil(Some(until))], Some(user), reason, invoker, [Some((channel, message))]);
            && r.1
            && GetActionFromId(r.0, db.nextAction) == Ok(Some(TimeoutAction(user, reason, until, invoker)))
            && GetActionMessage(r.0, db.nextAction) == Ok(Some((channel, message)))
  {
    var a := TimeoutAction(user, reason, until, invoker);
    var (db1, aid) := AddAction(db, a);
    AddActionThenGet(db, a);
    AddActionMessageThenGet(db1, channel, message, aid);
    var changes := [CommunicationDisabledUntil(Some(until))];
    assert changes[1..] == [];
    assert TimeoutsBeforeLift(changes) == 1;
    ApplyChangesCount(db, changes, user, reason, invoker, [Some((channel, message))]);
  }

  /** A lifted timeout first in the entry ends the handler before anything
      is written, whatever changes follow it. */
  lemma GuildAuditLiftStops(db: Db, rest: seq<Change>, target: Option<User>, reason: Option<string>, invoker: u64,
                            sends: seq<Option<(u64, u64)>>)
    requires db.Valid()
    ensures OnGuildAudit(db, true, [CommunicationDisabledUntil(None)] + rest, target, reason, invoker, sends) == (db, true)
  {
  }

  /** A message embed: its title and its (name, value) fields in order. */
  datatype Embed = Embed(title: Option<string>, fields: seq<(string, string)>)

  /** The field map of a report embed: each value passed through the
      game-server substitutions `subs` and stripped of backticks; a name given
      twice keeps its last value, as a HashMap insert does. */
  function FieldMapOf(fields: seq<(string, string)>, subs: string -> string): (m: FieldMap)
    ensures forall i :: 0 <= i < |fields| ==> fields[i].0 in m
    ensures forall n :: n in m ==> '`' !in m[n]
  {
    if |fields| == 0 then map[]
    else
      var m0 := FieldMapOf(fields[..|fields| - 1], subs);
      var last := fields[|fields| - 1];
      assert forall i :: 0 <= i < |fields| - 1 ==> fields[..|fields| - 1][i] == fields[i];
      m0[last.0 := RemoveChar(subs(last.1), '`')]
  }

  /** The last field of a name decides its value. */
  lemma FieldMapLastWins(fields: seq<(string, string)>, name: string, value: string, subs: string -> string)
    ensures FieldMapOf(fields + [(name, value)], subs)[name] == RemoveChar(subs(value), '`')
  {
    assert (fields + [(name, value)])[..|fields|] == fields;
  }

  /** A unit enum variant read by its name. */
  function StatusFromName(name: string, t: string): (r: Result<ReportStatus, FieldError>)
    ensures r.Ok? <==> t in {"Open", "Claimed", "Closed", "Expired"}
  {
    if t == "Open" then Ok(Open)
    else if t == "Claimed" then Ok(Claimed)
    else if t == "Closed" then Ok(Closed)
    else if t == "Expired" then Ok(Expired)
    else Err(UnknownVariant(name, t))
  }

  /** A `#[serde(default)]` field of type `Option<u64>`: absent is None; any
      text is the wrong JSON type for it. */
  function NoTextId(m: FieldMap, name: string): (r: Result<Option<u64>, FieldError>)
    ensures r.Ok? <==> name !in m
    ensures r.Ok? ==> r.value.None?
  {
    if name in m then Err(InvalidType(name)) else Ok(None)
  }

  /** Each aliased field of a report, by its own name, with its embed
      caption. */
  const CaptionOf: map<string, string> :=
    map["reporter_id" := "Reporter UserID", "reporter_name" := "Reporter Nickname",
        "reported_id" := "Reported UserID", "reported_name" := "Reported Nickname",
        "report_reason" := "Reason", "server" := "Server Name", "time" := "UTC Timestamp"]

  /** The keys at which reading a report can fail, in byte order. Every
      caption sorts before its field's own name (capitals come first), so a
      field given under both is caught at its own name, and a caption key
      never fails. */
  const ReportKeys: seq<string> :=
    ["audit", "claimant", "report_reason", "report_status", "reported_id", "reported_name",
     "reporter_id", "reporter_name", "server", "time"]

  /** A field met a second time: its caption was read before its own name. */
  predicate GivenTwice(m: FieldMap, k: string) {
    k in m && k in CaptionOf && CaptionOf[k] in m
  }

  /** What goes wrong when serde meets key `k` of the map: the field seen
      twice, a status that is no variant, any text for claimant or audit
      (both `Option<u64>`). */
  function EntryError(m: FieldMap, k: string): (r: Option<FieldError>)
    ensures r.Some? ==> k in m
    ensures GivenTwice(m, k) ==> r == Some(DuplicateField(k))
    ensures k in m && (k == "claimant" || k == "audit") ==> r == Some(InvalidType(k))
    ensures k == "report_status" && k in m ==> (r.None? <==> StatusFromName(k, m[k]).Ok?)
  {
    if k !in m then None
    else if GivenTwice(m, k) then Some(DuplicateField(k))
    else if k == "claimant" || k == "audit" then Some(InvalidType(k))
    else if k == "report_status" then
      match StatusFromName(k, m[k])
      case Err(e) => Some(e)
      case Ok(_) => None
    else None
  }

  /** What goes wrong at each of `keys`, in order. */
  function EntryErrors(m: FieldMap, keys: seq<string>): (r: seq<Option<FieldError>>)
    ensures |r| == |keys| && forall i :: 0 <= i < |keys| ==> r[i] == EntryError(m, keys[i])
  {
    if |keys| == 0 then [] else [EntryError(m, keys[0])] + EntryErrors(m, keys[1..])
  }

  /** The fields of the Report, taken in declaration order once every entry
      has been read: eight required fields, each under its own name or its
      embed caption, the status defaulting to Open, claimant and audit
      defaulting to None. The location is not read from the map and is the
      default one. */
  function DecodeFields(m: FieldMap): (r: Result<Report, FieldError>)
    ensures r.Ok? ==> r.value.location == DefaultLocation() && r.value.claimant.None? && r.value.audit.None?
    ensures r.Ok? ==> ("report_status" !in m ==> r.value.reportStatus == Open)
    ensures "reporter_id" !in m && "Reporter UserID" !in m ==> r == Err(MissingField("reporter_id"))
  {
    var reporterId :- Required(m, ["reporter_id", "Reporter UserID"]);
    var reporterName :- Required(m, ["reporter_name", "Reporter Nickname"]);
    var reportedId :- Required(m, ["reported_id", "Reported UserID"]);
    var reportedName :- Required(m, ["reported_name", "Reported Nickname"]);
    var reason :- Required(m, ["report_reason", "Reason"]);
    var status :- if "report_status" in m then StatusFromName("report_status", m["report_status"]) else Ok(DefaultStatus());
    var server :- Required(m, ["server", "Server Name"]);
    var time :- Required(m, ["time", "UTC Timestamp"]);
    var claimant :- NoTextId(m, "claimant");
    var audit :- NoTextId(m, "audit");
    Ok(Report(reporterId, reporterName, reportedId, reportedName, reason, status, server, time, claimant, audit, DefaultLocation()))
  }

  /** A map whose entries all read cleanly gives no field twice, no claimant
      or audit text, and a status that is a variant. */
  lemma CleanEntries(m: FieldMap)
    requires FirstError(EntryErrors(m, ReportKeys)).None?
    ensures "claimant" !in m && "audit" !in m
    ensures forall k :: k in CaptionOf ==> !GivenTwice(m, k)
    ensures "report_status" in m ==> StatusFromName("report_status", m["report_status"]).Ok?
  {
    assert EntryError(m, ReportKeys[0]).None? && EntryError(m, ReportKeys[1]).None?;
    assert EntryError(m, ReportKeys[3]).None?;
    forall k | k in CaptionOf
      ensures !GivenTwice(m, k)
    {
      assert k in ReportKeys;
    }
  }

  /** The Report the map decodes to: the entries are read first, in key
      order, and the first that fails decides the error; only then are the
      fields taken (`DecodeFields`), so a missing field is reported only
      when every entry read cleanly. */
  function DecodeReport(m: FieldMap): (r: Result<Report, FieldError>)
    ensures r.Ok? ==> r.value.location == DefaultLocation() && r.value.claimant.None? && r.value.audit.None?
    ensures r.Ok? ==> ("report_status" !in m ==> r.value.reportStatus == Open)
    ensures r.Ok? ==> "claimant" !in m && "audit" !in m && forall k :: k in CaptionOf ==> !GivenTwice(m, k)
    ensures FirstError(EntryErrors(m, ReportKeys)).Some? ==> r == Err(FirstError(EntryErrors(m, ReportKeys)).value)
    ensures FirstError(EntryErrors(m, ReportKeys)).None? && "reporter_id" !in m && "Reporter UserID" !in m ==>
              r == Err(MissingField("reporter_id"))
  {
    var entries := FirstError(EntryErrors(m, ReportKeys));
    if entries.Some? then Err(entries.value)
    else
      CleanEntries(m);
      DecodeFields(m)
  }

  /** A map holding none of the keys that can fail reads every entry
      cleanly. */
  lemma NoFailingKeys(m: FieldMap)
    requires forall k :: k in ReportKeys ==> k !in m
    ensures FirstError(EntryErrors(m, ReportKeys)).None?
  {
    forall i | 0 <= i < |ReportKeys|
      ensures EntryError(m, ReportKeys[i]).None?
    {
      assert ReportKeys[i] in ReportKeys;
    }
  }

  /** The keys are in the order the map yields them. */
  lemma ReportKeysInByteOrder()
    ensures forall i :: 0 < i < |ReportKeys| ==> LexLeq(ReportKeys[i - 1], ReportKeys[i]) && ReportKeys[i - 1] != ReportKeys[i]
  {
    forall i | 0 < i < |ReportKeys|
      ensures LexLeq(ReportKeys[i - 1], ReportKeys[i]) && ReportKeys[i - 1] != ReportKeys[i]
    {
      var differsAt := [0, 0, 0, 7, 6, 9, 7, 9, 0, 0];
      LexLessAt(ReportKeys[i - 1], ReportKeys[i], differsAt[i]);
    }
  }

  /** Every caption comes before its field's own name. */
  lemma CaptionsBeforeNames()
    ensures forall k :: k in CaptionOf ==> LexLeq(CaptionOf[k], k) && CaptionOf[k] != k
  {
    forall k | k in CaptionOf
      ensures LexLeq(CaptionOf[k], k) && CaptionOf[k] != k
    {
      LexLessAt(CaptionOf[k], k, 0);
    }
  }

  /** A claimant given as text fails at its entry, before any missing field
      is looked for: only "audit" sorts before it. */
  lemma ClaimantTextFailsFirst(m: FieldMap)
    requires "claimant" in m && "audit" !in m
    ensures DecodeReport(m) == Err(InvalidType("claimant"))
  {
    assert EntryError(m, ReportKeys[0]).None?;
    FirstErrorAt(EntryErrors(m, ReportKeys), 1);
  }

  /** A status that is no variant fails at its entry, whatever required
      field is missing, unless an entry sorting before it fails first. */
  lemma BadStatusFailsFirst(m: FieldMap)
    requires "report_status" in m && m["report_status"] !in {"Open", "Claimed", "Closed", "Expired"}
    requires "audit" !in m && "claimant" !in m && !GivenTwice(m, "report_reason")
    ensures DecodeReport(m) == Err(UnknownVariant("report_status", m["report_status"]))
  {
    assert EntryError(m, ReportKeys[0]).None? && EntryError(m, ReportKeys[1]).None?;
    assert EntryError(m, ReportKeys[2]).None?;
    assert EntryError(m, ReportKeys[3]) == Some(UnknownVariant("report_status", m["report_status"]));
    FirstErrorAt(EntryErrors(m, ReportKeys), 3);
  }

  /** `report_from_msg`: only a first embed titled "Player Report" is a report. */
  function ReportFromMsg(embeds: seq<Embed>, subs: string -> string): (r: Result<Option<Report>, FieldError>)
    ensures |embeds| == 0 ==> r == Ok(None)
    ensures |embeds| > 0 && embeds[0].title != Some("Player Report") ==> r == Ok(None)
    ensures r.Ok? && r.value.Some? ==> r.value.value.reportStatus == Open || "report_status" in FieldMapOf(embeds[0].fields, subs)
  {
    if |embeds| == 0 || embeds[0].title != Some("Player Report") then Ok(None)
    else
      match DecodeReport(FieldMapOf(embeds[0].fields, subs))
      case Err(e) => Err(e)
      case Ok(rep) => Ok(Some(rep))
  }

  /** The embed the game server posts for a report, fields under their
      captions. */
  function ReportEmbed(r: Report): Embed {
    Embed(Some("Player Report"), [
      ("Reporter UserID", r.reporterId), ("Reporter Nickname", r.reporterName),
      ("Reported UserID", r.reportedId), ("Reported Nickname", r.reportedName),
      ("Reason", r.reportReason), ("Server Name", r.server), ("UTC Timestamp", r.time)])
  }

  /** A new report: Open, unclaimed, no audit, from the default location. */
  predicate Fresh(r: Report) {
    r.reportStatus == Open && r.claimant.None? && r.audit.None? && r.location == DefaultLocation()
  }

  predicate NoBackticks(r: Report) {
    '`' !in r.reporterId && '`' !in r.reporterName && '`' !in r.reportedId && '`' !in r.reportedName &&
    '`' !in r.reportReason && '`' !in r.server && '`' !in r.time
  }

  /** Building the map one more field on. */
  lemma FieldMapOfSnoc(fields: seq<(string, string)>, k: nat, subs: string -> string)
    requires k < |fields|
    ensures FieldMapOf(fields[..k + 1], subs) == FieldMapOf(fields[..k], subs)[fields[k].0 := RemoveChar(subs(fields[k].1), '`')]
  {
    assert fields[..k + 1][..k] == fields[..k];
  }

  /** The field map of a report's embed, once substitutions and backtick
      removal leave its texts as they are. */
  function CaptionMap(r: Report): FieldMap {
    map["Reporter UserID" := r.reporterId, "Reporter Nickname" := r.reporterName,
        "Reported UserID" := r.reportedId, "Reported Nickname" := r.reportedName,
        "Reason" := r.reportReason, "Server Name" := r.server, "UTC Timestamp" := r.time]
  }

  lemma FieldMapOfReportEmbed(r: Report, subs: string -> string)
    requires forall s :: subs(s) == s
    requires NoBackticks(r)
    ensures FieldMapOf(ReportEmbed(r).fields, subs) == CaptionMap(r)
  {
    var f := ReportEmbed(r).fields;
    RemoveCharNoop(r.reporterId, '`');
    RemoveCharNoop(r.reporterName, '`');
    RemoveCharNoop(r.reportedId, '`');
    RemoveCharNoop(r.reportedName, '`');
    RemoveCharNoop(r.reportReason, '`');
    RemoveCharNoop(r.server, '`');
    RemoveCharNoop(r.time, '`');
    assert f[..0] == [];
    FieldMapOfSnoc(f, 0, subs);
    FieldMapOfSnoc(f, 1, subs);
    FieldMapOfSnoc(f, 2, subs);
    FieldMapOfSnoc(f, 3, subs);
    FieldMapOfSnoc(f, 4, subs);
    FieldMapOfSnoc(f, 5, subs);
    FieldMapOfSnoc(f, 6, subs);
    assert f[..7] == f;
  }

  const Captions: set<string> := {"Reporter UserID", "Reporter Nickname", "Reported UserID", "Reported Nickname",
                                  "Reason", "Server Name", "UTC Timestamp"}

  /** None of the field names themselves is a caption. */
  lemma FieldNamesAreNotCaptions(m: FieldMap)
    requires m.Keys == Captions
    ensures "reporter_id" !in m && "reporter_name" !in m && "reported_id" !in m && "reported_name" !in m
    ensures "report_reason" !in m && "server" !in m && "time" !in m
    ensures "report_status" !in m && "claimant" !in m && "audit" !in m
  {
  }

  /** Each field of a report is found under its caption, and the fields
      with defaults are absent. */
  lemma CaptionMapLookups(r: Report)
    ensures var m := CaptionMap(r);
            && Required(m, ["reporter_id", "Reporter UserID"]) == Ok(r.reporterId)
            && Required(m, ["reporter_name", "Reporter Nickname"]) == Ok(r.reporterName)
            && Required(m, ["reported_id", "Reported UserID"]) == Ok(r.reportedId)
            && Required(m, ["reported_name", "Reported Nickname"]) == Ok(r.reportedName)
            && Required(m, ["report_reason", "Reason"]) == Ok(r.reportReason)
            && Required(m, ["server", "Server Name"]) == Ok(r.server)
            && Required(m, ["time", "UTC Timestamp"]) == Ok(r.time)
            && "report_status" !in m && "claimant" !in m && "audit" !in m
  {
    var m := CaptionMap(r);
    assert m.Keys == Captions;
    FieldNamesAreNotCaptions(m);
    assert m["Reporter UserID"] == r.reporterId && m["Reporter Nickname"] == r.reporterName;
    assert m["Reported UserID"] == r.reportedId && m["Reported Nickname"] == r.reportedName;
    assert m["Reason"] == r.reportReason && m["Server Name"] == r.server && m["UTC Timestamp"] == r.time;
    RequiredPresent(m, "reporter_id", "Reporter UserID");
    RequiredPresent(m, "reporter_name", "Reporter Nickname");
    RequiredPresent(m, "reported_id", "Reported UserID");
    RequiredPresent(m, "reported_name", "Reported Nickname");
    RequiredPresent(m, "report_reason", "Reason");
    RequiredPresent(m, "server", "Server Name");
    RequiredPresent(m, "time", "UTC Timestamp");
  }

  /** The captions decode to the report they carry, new. */
  lemma DecodeCaptionMap(r: Report)
    requires Fresh(r)
    ensures DecodeReport(CaptionMap(r)) == Ok(r)
  {
    CaptionMapReadsCleanly(r);
    CaptionMapLookups(r);
  }

  /** No key of a report's embed fails when read. */
  lemma CaptionMapReadsCleanly(r: Report)
    ensures FirstError(EntryErrors(CaptionMap(r), ReportKeys)).None?
  {
    var m := CaptionMap(r);
    assert m.Keys == Captions;
    FieldNamesAreNotCaptions(m);
    NoFailingKeys(m);
  }

  /** A report posted by the game server, its texts free of backticks and
      untouched by the substitutions, is read back as that report, new. */
  lemma ReportFromMsgRoundTrip(r: Report, subs: string -> string)
    requires forall s :: subs(s) == s
    requires NoBackticks(r) && Fresh(r)
    ensures ReportFromMsg([ReportEmbed(r)], subs) == Ok(Some(r))
  {
    FieldMapOfReportEmbed(r, subs);
    DecodeCaptionMap(r);
  }

  /** A field given under both its name and its caption makes the embed
      undecodable. */
  lemma ReportFromMsgDuplicate(r: Report, subs: string -> string)
    requires forall s :: subs(s) == s
    requires NoBackticks(r)
    ensures ReportFromMsg([ReportEmbed(r).(fields := ReportEmbed(r).fields + [("reporter_id", r.reporterId)])], subs).Err?
  {
    var f := ReportEmbed(r).fields;
    FieldMapOfReportEmbed(r, subs);
    FieldMapLastWins(f, "reporter_id", r.reporterId, subs);
    var m := FieldMapOf(f + [("reporter_id", r.reporterId)], subs);
    assert (f + [("reporter_id", r.reporterId)])[..|f|] == f;
    assert "Reporter UserID" in m;
    RequiredDuplicate(m, "reporter_id", "Reporter UserID");
  }

  /** How handling a message ended. `EmbedFailed` and `Panicked` end the
      building of the re-posted message, after the report was stored. */
  datatype MessageOutcome = NotAReport | Posted | DecodeFailed(e: FieldError) | EmbedFailed(why: Ui.UpdateError) | Panicked
                          | SendFailed

  /** `on_message`: a report message is stored, its message is built
      (`Ui.CreateThings`, with `count` the answer of the count query and
      `timestamp` the time parser), re-posted with its buttons in the same
      channel (`sent`), linked, and the original deleted. A message that
      fails to decode writes nothing. */
  function OnMessage(db: Db, embeds: seq<Embed>, subs: string -> string, count: Option<nat>,
                     timestamp: string -> Option<int>, sent: Option<(u64, u64)>): (r: (Db, MessageOutcome))
    requires db.Valid()
    ensures r.0.Valid()
    ensures r.1.NotAReport? || r.1.DecodeFailed? ==> r.0 == db
    ensures ReportFromMsg(embeds, subs).Ok? && ReportFromMsg(embeds, subs).value.Some? && count.None?
            ==> r.1 == EmbedFailed(Ui.CountFailed)
    ensures ReportFromMsg(embeds, subs).Ok? && ReportFromMsg(embeds, subs).value.Some? && count.Some?
            && ReportFromMsg(embeds, subs).value.value.reportStatus != Closed
            && timestamp(ReportFromMsg(embeds, subs).value.value.time).None?
            ==> r.1 == Panicked
    ensures r.1.EmbedFailed? ==> r.1.why != Ui.TimePanicked
    ensures r.1.EmbedFailed? || r.1.Panicked? || r.1.SendFailed? ==>
              r.0.nextReport == db.nextReport + 1 && r.0.reportLinks == db.reportLinks
    ensures r.1 == Posted ==>
              && count.Some? && sent.Some?
              && ReportFromMsg(embeds, subs).Ok? && ReportFromMsg(embeds, subs).value.Some?
              && timestamp(ReportFromMsg(embeds, subs).value.value.time).Some?
              && r.0.nextReport == db.nextReport + 1 && |r.0.reportLinks| == |db.reportLinks| + 1
    ensures r.0.actions == db.actions && r.0.actionLinks == db.actionLinks
  {
    match ReportFromMsg(embeds, subs)
    case Err(e) => (db, DecodeFailed(e))
    case Ok(None) => (db, NotAReport)
    case Ok(Some(rep)) =>
      var (db1, id) := AddReport(db, rep);
      match Ui.CreateThings(db1, rep, id, count, timestamp)
      case Err(e) => if e == Ui.TimePanicked then (db1, Panicked) else (db1, EmbedFailed(e))
      case Ok(_) =>
        match sent
        case None => (db1, SendFailed)
        case Some((channel, message)) => (AddReportMessage(db1, channel, message, id), Posted)
  }

  /** A posted report reads back under the returned id, with the message
      that shows it, once the count query answers and its time parses. */
  lemma OnMessageStores(db: Db, r: Report, subs: string -> string, n: nat, timestamp: string -> Option<int>,
                        channel: u64, message: u64)
    requires db.Valid() && db.nextReport < U32_LIMIT
    requires forall s :: subs(s) == s
    requires NoBackticks(r) && Fresh(r) && timestamp(r.time).Some?
    requires FindLink(db.reportLinks, db.nextReport).None?
    ensures var out := OnMessage(db, [ReportEmbed(r)], subs, Some(n), timestamp, Some((channel, message)));
            && out.1 == Posted
            && GetReportFromId(out.0, db.nextReport) == Ok(Some(r))
            && GetReportMessage(out.0, db.nextReport) == Ok(Some((channel, message)))
  {
    ReportFromMsgRoundTrip(r, subs);
    var (db1, id) := AddReport(db, r);
    AddReportThenGet(db, r);
    AddReportMessageThenGet(db1, channel, message, id);
  }

  /** A report whose time does not parse is stored, and then building its
      message panics: nothing is posted or linked. */
  lemma OnMessageBadTimePanics(db: Db, r: Report, subs: string -> string, n: nat, timestamp: string -> Option<int>,
                               sent: Option<(u64, u64)>)
    requires db.Valid() && db.nextReport < U32_LIMIT
    requires forall s :: subs(s) == s
    requires NoBackticks(r) && Fresh(r) && timestamp(r.time).None?
    ensures var out := OnMessage(db, [ReportEmbed(r)], subs, Some(n), timestamp, sent);
            && out.1 == Panicked
            && GetReportFromId(out.0, db.nextReport) == Ok(Some(r))
            && out.0.reportLinks == db.reportLinks
  {
    ReportFromMsgRoundTrip(r, subs);
    AddReportThenGet(db, r);
  }
}
