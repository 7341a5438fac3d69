/** The older bot's background work: the expiry sweep (`src/expire.rs`) and
    the guild audit log handler (`src/guild_audit.rs`). */
module LegacyTasks {
  import opened Wrappers
  import opened Text
  import Common
  import opened Store
  import opened Legacy
  import opened LegacyDb
  import opened Expiry
  import Events

  /** The (id, time) of every row whose status text is 'open', from id
      `from` upwards, in id order. Only these two columns are read, so the
      other columns need not decode. */
  function OpenCandidatesFrom(db: Db, from: nat): (c: seq<Candidate>)
    requires db.Valid()
    ensures forall i :: 0 <= i < |c| ==>
              from <= c[i].0 && c[i].0 in db.reports &&
              db.reports[c[i].0].reportStatus == StatusText(Open) && c[i].1 == db.reports[c[i].0].time
    ensures forall i, j :: 0 <= i < j < |c| ==> c[i].0 < c[j].0
    decreases db.nextReport - from
  {
    if from >= db.nextReport then []
    else
      var rest := OpenCandidatesFrom(db, from + 1);
      if from in db.reports && db.reports[from].reportStatus == StatusText(Open) then [(from, db.reports[from].time)] + rest
      else rest
  }

  /** The query misses no open row. */
  lemma {:induction false} OpenCandidatesComplete(db: Db, from: nat, k: nat)
    requires db.Valid() && from <= k && k in db.reports && db.reports[k].reportStatus == StatusText(Open)
    ensures exists i :: 0 <= i < |OpenCandidatesFrom(db, from)| && OpenCandidatesFrom(db, from)[i].0 == k
    decreases db.nextReport - from
  {
    var c := OpenCandidatesFrom(db, from);
    if from == k {
      assert c[0].0 == k;
    } else {
      OpenCandidatesComplete(db, from + 1, k);
      var rest := OpenCandidatesFrom(db, from + 1);
      var i :| 0 <= i < |rest| && rest[i].0 == k;
      if from in db.reports && db.reports[from].reportStatus == StatusText(Open) {
        assert c[i + 1] == rest[i];
      }
    }
  }

  /** Ids in strictly increasing order. */
  predicate Increasing(ids: seq<nat>) {
    forall i, j :: 0 <= i < j < |ids| ==> ids[i] < ids[j]
  }

  /** Candidates in id order give overdue ids in id order. */
  lemma {:induction false} OverdueIdsIncreasing(cands: seq<Candidate>, now: int, parse: string -> Option<int>)
    requires AllParse(cands, parse)
    requires forall i, j :: 0 <= i < j < |cands| ==> cands[i].0 < cands[j].0
    ensures Increasing(OverdueIds(cands, now, parse).value)
    decreases |cands|
  {
    if |cands| > 0 {
      var init := cands[..|cands| - 1];
      var last := cands[|cands| - 1];
      assert forall i :: 0 <= i < |init| ==> init[i] == cands[i];
      OverdueIdsIncreasing(init, now, parse);
      var ids := OverdueIds(init, now, parse).value;
      forall x | x in ids ensures x < last.0 {
        OverdueIdsExact(init, now, parse, x);
        var i :| 0 <= i < |init| && init[i].0 == x && OverdueAt(init, i, now, parse);
        assert cands[i].0 < cands[|cands| - 1].0;
      }
      var r := OverdueIds(cands, now, parse).value;
      assert r == ids || r == ids + [last.0];
      if r != ids {
        forall i, j | 0 <= i < j < |r| ensures r[i] < r[j] {
          if j == |ids| {
            assert r[i] == ids[i] && ids[i] in ids;
          } else {
            assert r[i] == ids[i] && r[j] == ids[j];
          }
        }
      }
    }
  }

  /** The older status update: the status text becomes 'expired'. */
  function OldExpiredRow(row: ReportRow): (r: ReportRow)
    ensures r.(reportStatus := row.reportStatus) == row
    ensures StatusFromText(r.reportStatus).None?
  {
    StatusFromTextDomain("expired");
    row.(reportStatus := "expired")
  }

  /** How one run of the older sweep ended: it expired `ids` (the task goes
      on), a time did not parse, or an update failed (the task stops; the
      updates before it stay). */
  datatype OldSweepOutcome = Swept(db: Db, ids: seq<nat>) | Unparsable | Aborted(db: Db)

  /** One run of the older `expire_task`: the open rows' times are all
      parsed first with one `now`, then each overdue report is set to
      'expired' in turn; the statement failing for an id in `failAt` ends
      the task. */
  function OldSweep(db: Db, now: int, parse: string -> Option<int>, failAt: set<nat>): (r: OldSweepOutcome)
    requires db.Valid()
    ensures r.Unparsable? <==> !AllParse(OpenCandidatesFrom(db, 0), parse)
    ensures r.Swept? || r.Aborted? ==> r.db.Valid() && r.db.reports.Keys == db.reports.Keys
    ensures r.Swept? || r.Aborted? ==>
              r.db.actions == db.actions && r.db.reportLinks == db.reportLinks && r.db.actionLinks == db.actionLinks
    ensures r.Swept? ==> Increasing(r.ids) && forall i :: 0 <= i < |r.ids| ==> r.ids[i] !in failAt
  {
    var cands := OpenCandidatesFrom(db, 0);
    match OverdueIds(cands, now, parse)
    case None => Unparsable
    case Some(ids) =>
      OverdueIdsIncreasing(cands, now, parse);
      if |ids| == 0 then Swept(db, ids)
      else
        var (db1, ok) := UpdateUntilFailure(db, ids, failAt, OldExpiredRow);
        if ok then Swept(db1, ids) else Aborted(db1)
  }

  /** A report is picked exactly when its row is open and overdue at `now`. */
  lemma OldSweepPicks(db: Db, now: int, parse: string -> Option<int>, k: nat)
    requires db.Valid() && AllParse(OpenCandidatesFrom(db, 0), parse)
    ensures k in OverdueIds(OpenCandidatesFrom(db, 0), now, parse).value <==>
              k in db.reports && db.reports[k].reportStatus == StatusText(Open) &&
              parse(db.reports[k].time).Some? && Overdue(now - parse(db.reports[k].time).value)
  {
    var cands := OpenCandidatesFrom(db, 0);
    OverdueIdsExact(cands, now, parse, k);
    if k in db.reports && db.reports[k].reportStatus == StatusText(Open) {
      OpenCandidatesComplete(db, 0, k);
    }
  }

  lemma IncreasingDistinct(ids: seq<nat>)
    requires Increasing(ids)
    ensures forall i, j :: 0 <= i < j < |ids| ==> ids[i] != ids[j]
  {
  }

  /** What a completed sweep does to each report: it is expired exactly when
      it was open and overdue; every other row is left as it was. */
  lemma OldSweepExact(db: Db, now: int, parse: string -> Option<int>, failAt: set<nat>, k: nat)
    requires db.Valid() && k in db.reports
    requires OldSweep(db, now, parse, failAt).Swept?
    ensures OldSweep(db, now, parse, failAt).db.reports[k] ==
              if db.reports[k].reportStatus == StatusText(Open) && parse(db.reports[k].time).Some? &&
                 Overdue(now - parse(db.reports[k].time).value)
              then OldExpiredRow(db.reports[k]) else db.reports[k]
  {
    var cands := OpenCandidatesFrom(db, 0);
    var ids := OverdueIds(cands, now, parse).value;
    OldSweepPicks(db, now, parse, k);
    OverdueIdsIncreasing(cands, now, parse);
    IncreasingDistinct(ids);
    if |ids| > 0 {
      UpdateUntilFailurePrefix(db, ids, failAt, OldExpiredRow, |ids|);
      assert ids[..|ids|] == ids;
    }
  }

  /** When the update of the `n`-th picked report fails, the reports picked
      before it are expired and nothing else changes. */
  lemma OldSweepAbortPrefix(db: Db, now: int, parse: string -> Option<int>, failAt: set<nat>, n: nat, k: nat)
    requires db.Valid() && k in db.reports
    requires AllParse(OpenCandidatesFrom(db, 0), parse)
    requires var ids := OverdueIds(OpenCandidatesFrom(db, 0), now, parse).value;
             n < |ids| && ids[n] in failAt && forall i :: 0 <= i < n ==> ids[i] !in failAt
    ensures var ids := OverdueIds(OpenCandidatesFrom(db, 0), now, parse).value;
            && OldSweep(db, now, parse, failAt).Aborted?
            && OldSweep(db, now, parse, failAt).db.reports[k] ==
                 if k in ids[..n] then OldExpiredRow(db.reports[k]) else db.reports[k]
  {
    var cands := OpenCandidatesFrom(db, 0);
    var ids := OverdueIds(cands, now, parse).value;
    OverdueIdsIncreasing(cands, now, parse);
    IncreasingDistinct(ids);
    UpdateUntilFailurePrefix(db, ids, failAt, OldExpiredRow, n);
  }

  /** The 'expired' the older sweep writes is not a status the older bot can
      read back: once expired, a report fails every read, so refreshing its
      message fails too and the message keeps its buttons. */
  lemma OldExpiredUnreadable(db: Db, now: int, parse: string -> Option<int>, failAt: set<nat>, k: nat, slAudit: u64,
                             timestamp: string -> Option<int>, fetched: bool, edited: bool)
    requires db.Valid() && k in db.reports
    requires OldSweep(db, now, parse, failAt).Swept?
    requires db.reports[k].reportStatus == StatusText(Open)
    requires parse(db.reports[k].time).Some? && Overdue(now - parse(db.reports[k].time).value)
    ensures var db' := OldSweep(db, now, parse, failAt).db;
            && GetReport(db', k) == Err(UndecodableStatus("expired"))
            && UpdateReportMessage(db', k, slAudit, timestamp, fetched, edited) == Err(UndecodableStatus("expired"))
  {
    OldSweepExact(db, now, parse, failAt, k);
    StatusFromTextDomain("expired");
  }

  /** The action text of an older timeout: the end time as one `:f` tag. */
  function OldTimeoutText(until: int): string {
    "Timeout until <t:" + IntText(until) + ":f>"
  }

  /** Reads the end time back out of an older timeout text. */
  function ReadOldTimeoutText(s: string): (r: Option<int>)
    ensures r.Some? ==> StartsWith(s, "Timeout until <t:")
  {
    if !StartsWith(s, "Timeout until <t:") || |s| < 20 then None
    else
      var body := s[17..];
      if body[|body| - 3..] != ":f>" then None
      else ParseI64(body[..|body| - 3])
  }

  lemma OldTimeoutTextRoundTrip(until: int)
    requires InI64(until)
    ensures ReadOldTimeoutText(OldTimeoutText(until)) == Some(until)
  {
    var num := IntText(until);
    var s := OldTimeoutText(until);
    StartsWithConcat("Timeout until <t:", num + ":f>");
    assert s == "Timeout until <t:" + (num + ":f>");
    assert |num| >= 1 by {
      ParseI64RoundTrip(until);
    }
    var body := s[17..];
    assert body == num + ":f>";
    assert body[..|body| - 3] == num;
    ParseI64RoundTrip(until);
  }

  /** The action recorded for a timeout set by `invoker` on `target`. */
  function OldTimeoutAction(target: Events.User, reason: Option<string>, until: int, invoker: u64): (a: Action)
    ensures a.server == Common.Discord && a.report.None? && ParseU64(a.claimant) == Some(invoker)
    ensures a.targetId == DecimalText(target.id) && a.targetUsername == Events.DisplayName(target)
    ensures reason.None? ==> a.offense == "???"
    ensures InI64(until) ==> ReadOldTimeoutText(a.action) == Some(until)
  {
    ParseU64RoundTrip(invoker);
    assert InI64(until) ==> ReadOldTimeoutText(OldTimeoutText(until)) == Some(until) by {
      if InI64(until) {
        OldTimeoutTextRoundTrip(until);
      }
    }
    Action(DecimalText(target.id), Events.DisplayName(target), reason.GetOr("???"), OldTimeoutText(until),
           Common.Discord, DecimalText(invoker), None)
  }

  /** A stored action row a guild-audit timeout by `invoker` produces. */
  predicate OldTimeoutRow(row: ActionRow, invoker: u64) {
    row.server == Common.LocationText(Common.Discord) && row.claimant == DecimalText(invoker) && row.report.None?
  }

  /** The loop over an entry's changes. For each timeout: fetch the target
      (None: no target id, or the fetch failed), insert the action, send its
      message to the Discord audit channel `discAudit` (`sends` gives each
      send's message id in turn; a missing one is a failed send) and link
      it. A lifted timeout ends the handler successfully; any failure ends
      it with an error; the writes already made stay. */
  function OldApplyChanges(db: Db, changes: seq<Events.Change>, target: Option<Events.User>, reason: Option<string>,
                           invoker: u64, discAudit: u64, sends: seq<Option<u64>>): (r: (Db, bool))
    requires db.Valid()
    ensures r.0.Valid()
    ensures r.0.reports == db.reports && r.0.reportLinks == db.reportLinks
    ensures forall k :: k in db.actions ==> k in r.0.actions && r.0.actions[k] == db.actions[k]
    ensures forall k :: k in r.0.actions && k !in db.actions ==> OldTimeoutRow(r.0.actions[k], invoker)
    ensures db.nextAction <= r.0.nextAction <= db.nextAction + Events.TimeoutsBeforeLift(changes)
    ensures target.None? && Events.TimeoutsBeforeLift(changes) > 0 ==> !r.1 && r.0 == db
    decreases |changes|
  {
    if |changes| == 0 then (db, true)
    else match changes[0]
      case OtherChange => OldApplyChanges(db, changes[1..], target, reason, invoker, discAudit, sends)
      case CommunicationDisabledUntil(None) => (db, true)
      case CommunicationDisabledUntil(Some(until)) =>
        match target
        case None => (db, false)
        case Some(user) =>
          var (db1, aid) := AddAction(db, OldTimeoutAction(user, reason, until, invoker));
          if |sends| == 0 || sends[0].None? then (db1, false)
          else
            var db2 := AddActionMessage(db1, aid, discAudit, sends[0].value);
            OldApplyChanges(db2, changes[1..], target, reason, invoker, discAudit, sends[1..])
  }

  predicate AllSent(sends: seq<Option<u64>>, n: nat) {
    n <= |sends| && forall i :: 0 <= i < n ==> sends[i].Some?
  }

  /** When the target is found and every send succeeds, the handler succeeds
      and inserts exactly one action per timeout before the first lift. */
  lemma {:induction false} OldApplyChangesCount(db: Db, changes: seq<Events.Change>, user: Events.User, reason: Option<string>,
                                                invoker: u64, discAudit: u64, sends: seq<Option<u64>>)
    requires db.Valid()
    requires AllSent(sends, Events.TimeoutsBeforeLift(changes))
    ensures var r := OldApplyChanges(db, changes, Some(user), reason, invoker, discAudit, sends);
            r.1 && r.0.nextAction == db.nextAction + Events.TimeoutsBeforeLift(changes)
    decreases |changes|
  {
    if |changes| > 0 {
      match changes[0]
      case OtherChange =>
        OldApplyChangesCount(db, changes[1..], user, reason, invoker, discAudit, sends);
      case CommunicationDisabledUntil(None) =>
      case CommunicationDisabledUntil(Some(until)) =>
        var (db1, aid) := AddAction(db, OldTimeoutAction(user, reason, until, invoker));
        var db2 := AddActionMessage(db1, aid, discAudit, sends[0].value);
        assert AllSent(sends[1..], Events.TimeoutsBeforeLift(changes[1..])) by {
          forall i | 0 <= i < Events.TimeoutsBeforeLift(changes[1..])
            ensures sends[1..][i].Some?
          {
            assert sends[1..][i] == sends[i + 1];
          }
        }
        OldApplyChangesCount(db2, changes[1..], user, reason, invoker, discAudit, sends[1..]);
    }
  }

  /** `on_guild_audit`: only member updates are looked at. */
  function OnOldGuildAudit(db: Db, memberUpdate: bool, changes: seq<Events.Change>, target: Option<Events.User>,
                           reason: Option<string>, invoker: u64, discAudit: u64, sends: seq<Option<u64>>): (r: (Db, bool))
    requires db.Valid()
    ensures r.0.Valid()
    ensures !memberUpdate ==> r == (db, true)
    ensures r.0.reports == db.reports && r.0.reportLinks == db.reportLinks
    ensures forall k :: k in r.0.actions && k !in db.actions ==> OldTimeoutRow(r.0.actions[k], invoker)
  {
    if memberUpdate then OldApplyChanges(db, changes, target, reason, invoker, discAudit, sends) else (db, true)
  }

  /** A single timeout, fully delivered, reads back as the action it records,
      with its message linked in the Discord audit channel. */
  lemma OldGuildAuditSingleTimeout(db: Db, user: Events.User, reason: Option<string>, until: int, invoker: u64,
                                   discAudit: u64, message: u64)
    requires db.Valid() && FindLink(db.actionLinks, db.nextAction).None?
    ensures var r := OnOldGuildAudit(db, true, [Events.CommunicationDisabledUntil(Some(until))], Some(user), reason,
                                     invoker, discAudit, [Some(message)]);
            && r.1
            && GetAction(r.0, db.nextAction) == Ok(Some(OldTimeoutAction(user, reason, until, invoker)))
            && GetAuditMessageFromId(r.0, db.nextAction) == Ok((discAudit, message))
  {
    var a := OldTimeoutAction(user, reason, until, invoker);
    var (db1, aid) := AddAction(db, a);
    AddActionThenGet(db, a);
    AddActionMessageThenGet(db1, aid, discAudit, message);
    var changes := [Events.CommunicationDisabledUntil(Some(until))];
    assert changes[1..] == [];
    assert Events.TimeoutsBeforeLift(changes) == 1;
    OldApplyChangesCount(db, changes, user, reason, invoker, discAudit, [Some(message)]);
  }

  /** A lifted timeout first in the entry ends the handler before anything
      is written, whatever changes follow it. */
  lemma OldGuildAuditLiftStops(db: Db, rest: seq<Events.Change>, target: Option<Events.User>, reason: Option<string>,
                               invoker: u64, discAudit: u64, sends: seq<Option<u64>>)
    requires db.Valid()
    ensures OnOldGuildAudit(db, true, [Events.CommunicationDisabledUntil(None)] + rest, target, reason, invoker, discAudit, sends) == (db, true)
  {
  }
}
