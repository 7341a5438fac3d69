/** The older bot's `/past` command (`src/commands/past.rs`): a user's
    history. Two report lists (reports the user filed, reports filed against
    the user), each the five newest by time, and the actions taken against
    the user, five of them; three counts over all matching rows.

    As written, the "Reported N time(s)" count counts the reports the user
    FILED (it filters reporter_id), so it repeats the "Reported someone"
    count. `PastAsWritten` keeps that; `Past` counts reported_id. */
module Past {
  import opened Wrappers
  import opened Text
  import opened Store
  import opened Legacy
  import opened LegacyDb

  /** The column a report query filters on. */
  datatype ReportColumn = ReporterId | ReportedId

  function ColumnValue(row: ReportRow, column: ReportColumn): string {
    match column
    case ReporterId => row.reporterId
    case ReportedId => row.reportedId
  }

  type Hit = (nat, ReportRow)

  /** The reports whose `column` equals `id`, from row id `from` upwards, in
      id order. */
  function MatchingFrom(db: Db, column: ReportColumn, id: string, from: nat): (hs: seq<Hit>)
    requires db.Valid()
    ensures forall i :: 0 <= i < |hs| ==>
              from <= hs[i].0 && hs[i].0 in db.reports && hs[i].1 == db.reports[hs[i].0] &&
              ColumnValue(hs[i].1, column) == id
    ensures forall i, j :: 0 <= i < j < |hs| ==> hs[i].0 < hs[j].0
    decreases db.nextReport - from
  {
    if from >= db.nextReport then []
    else
      var rest := MatchingFrom(db, column, id, from + 1);
      if from in db.reports && ColumnValue(db.reports[from], column) == id then [(from, db.reports[from])] + rest
      else rest
  }

  function Matching(db: Db, column: ReportColumn, id: string): seq<Hit>
    requires db.Valid()
  {
    MatchingFrom(db, column, id, 1)
  }

  /** The scan misses no matching report. */
  lemma {:induction false} MatchingComplete(db: Db, column: ReportColumn, id: string, from: nat, k: nat)
    requires db.Valid() && from <= k && k in db.reports && ColumnValue(db.reports[k], column) == id
    ensures exists i :: 0 <= i < |MatchingFrom(db, column, id, from)| && MatchingFrom(db, column, id, from)[i].0 == k
    decreases db.nextReport - from
  {
    var hs := MatchingFrom(db, column, id, from);
    if from == k {
      assert hs[0].0 == k;
    } else {
      MatchingComplete(db, column, id, from + 1, k);
      var rest := MatchingFrom(db, column, id, from + 1);
      var i :| 0 <= i < |rest| && rest[i].0 == k;
      if from in db.reports && ColumnValue(db.reports[from], column) == id {
        assert hs[i + 1] == rest[i];
      }
    }
  }

  /* Newest first */

  /** Times compare as SQLite compares text: code point by code point. */
  predicate NewestFirst(hs: seq<Hit>) {
    forall i, j :: 0 <= i < j < |hs| ==> LexLeq(hs[j].1.time, hs[i].1.time)
  }

  /** Inserting a report into a newest-first list, before any of equal time. */
  function InsertByTime(x: Hit, hs: seq<Hit>): (r: seq<Hit>)
    requires NewestFirst(hs)
    ensures NewestFirst(r)
    ensures multiset(r) == multiset(hs) + multiset{x}
    ensures |r| == |hs| + 1
    decreases |hs|
  {
    if |hs| == 0 then [x]
    else if LexLeq(hs[0].1.time, x.1.time) then
      SortedCons(x, hs);
      [x] + hs
    else
      LexLeqTotal(hs[0].1.time, x.1.time);
      var rest := InsertByTime(x, hs[1..]);
      assert hs == [hs[0]] + hs[1..];
      ConsNewest(hs[0], rest, hs[1..], x);
      [hs[0]] + rest
  }

  lemma SortedCons(x: Hit, hs: seq<Hit>)
    requires NewestFirst(hs) && |hs| > 0 && LexLeq(hs[0].1.time, x.1.time)
    ensures NewestFirst([x] + hs)
  {
    var r := [x] + hs;
    forall i, j | 0 <= i < j < |r| ensures LexLeq(r[j].1.time, r[i].1.time) {
      if i == 0 && j > 1 {
        LexLeqTransitive(hs[j - 1].1.time, hs[0].1.time, x.1.time);
      }
    }
  }

  /** `h` may head a list built from `earlier` and `x` when it is no older than
      any of them. */
  lemma ConsNewest(h: Hit, rest: seq<Hit>, earlier: seq<Hit>, x: Hit)
    requires NewestFirst(rest) && multiset(rest) == multiset(earlier) + multiset{x}
    requires forall i :: 0 <= i < |earlier| ==> LexLeq(earlier[i].1.time, h.1.time)
    requires LexLeq(x.1.time, h.1.time)
    ensures NewestFirst([h] + rest)
  {
    var r := [h] + rest;
    forall i, j | 0 <= i < j < |r| ensures LexLeq(r[j].1.time, r[i].1.time) {
      if i == 0 {
        var y := rest[j - 1];
        assert y in multiset(rest);
        if y != x {
          assert y in multiset(earlier);
          var k :| 0 <= k < |earlier| && earlier[k] == y;
        }
      }
    }
  }

  lemma NewestFirstTail(hs: seq<Hit>)
    requires NewestFirst(hs) && |hs| > 0
    ensures forall i :: 0 <= i < |hs[1..]| ==> LexLeq(hs[1..][i].1.time, hs[0].1.time)
  {
    forall i | 0 <= i < |hs[1..]| ensures LexLeq(hs[1..][i].1.time, hs[0].1.time) {
      assert hs[1..][i] == hs[i + 1];
    }
  }

  /** `order by time desc`: newest first, the same rows. Rows of equal time
      keep no particular order in SQLite; here a later row comes first. */
  function SortByTime(hs: seq<Hit>): (r: seq<Hit>)
    ensures NewestFirst(r)
    ensures multiset(r) == multiset(hs)
    ensures |r| == |hs|
  {
    if |hs| == 0 then []
    else
      assert hs == [hs[0]] + hs[1..];
      InsertByTime(hs[0], SortByTime(hs[1..]))
  }

  const ListLimit: nat := 5

  function Min(a: nat, b: nat): nat {
    if a <= b then a else b
  }

  /** `… order by time desc limit 5`. */
  function Recent(db: Db, column: ReportColumn, id: string): (r: seq<Hit>)
    requires db.Valid()
  {
    var sorted := SortByTime(Matching(db, column, id));
    sorted[..Min(ListLimit, |sorted|)]
  }

  /** A prefix of a newest-first list holds its newest entries: nothing left
      after it is newer than anything in it. */
  lemma {:induction false} PrefixIsNewest(sorted: seq<Hit>, n: nat)
    requires NewestFirst(sorted) && n <= |sorted|
    ensures NewestFirst(sorted[..n])
    ensures multiset(sorted[..n]) <= multiset(sorted)
    ensures forall y: Hit, i :: y in multiset(sorted) - multiset(sorted[..n]) && 0 <= i < n ==>
              LexLeq(y.1.time, sorted[..n][i].1.time)
  {
    var r := sorted[..n];
    var left := sorted[n..];
    assert sorted == r + left;
    assert multiset(sorted) == multiset(r) + multiset(left);
    forall y: Hit, i | y in multiset(sorted) - multiset(r) && 0 <= i < n ensures LexLeq(y.1.time, r[i].1.time) {
      assert y in multiset(left);
      var k :| 0 <= k < |left| && left[k] == y;
      assert sorted[n + k] == y && sorted[i] == r[i];
    }
  }

  /** The list holds the five newest matching reports: at most five, newest
      first, each a matching report, and no matching report left out is newer
      than any listed one. */
  lemma RecentIsNewest(db: Db, column: ReportColumn, id: string)
    requires db.Valid()
    ensures var r := Recent(db, column, id);
            && |r| == Min(ListLimit, |Matching(db, column, id)|)
            && NewestFirst(r)
            && multiset(r) <= multiset(Matching(db, column, id))
            && forall y: Hit, i :: y in multiset(Matching(db, column, id)) - multiset(r) && 0 <= i < |r| ==>
                 LexLeq(y.1.time, r[i].1.time)
  {
    var sorted := SortByTime(Matching(db, column, id));
    PrefixIsNewest(sorted, Min(ListLimit, |sorted|));
  }

  /* Actions */

  /** The actions against `target` from id `from` upwards, in id order:
      without an ORDER BY, SQLite scans the table by row id. */
  function ActionsFrom(db: Db, target: string, from: nat): (acts: seq<(nat, ActionRow)>)
    requires db.Valid()
    ensures forall i :: 0 <= i < |acts| ==>
              from <= acts[i].0 && acts[i].0 in db.actions && acts[i].1 == db.actions[acts[i].0] && acts[i].1.targetId == target
    decreases db.nextAction - from
  {
    if from >= db.nextAction then []
    else
      var rest := ActionsFrom(db, target, from + 1);
      if from in db.actions && db.actions[from].targetId == target then [(from, db.actions[from])] + rest
      else rest
  }

  /* The embed */

  /** The three counts of the description, in the order it shows them. */
  datatype Counts = Counts(reported: nat, reportedSomeone: nat, actioned: nat)

  datatype PastEmbed = PastEmbed(title: string, counts: Counts, description: string,
                                 recentReported: string, recentReports: string, recentAction: string)

  datatype PastError = FetchFailed(e: DbError) | PastPanicked

  function Description(id: string, c: Counts): string {
    id + " has been:\n- Reported " + DecimalText(c.reported) + " time(s)\n- Reported someone "
    + DecimalText(c.reportedSomeone) + " time(s)\n- Had action taken against them " + DecimalText(c.actioned)
    + " time(s)"
  }

  /** The listed rows, decoded: one undecodable row fails the fetch. */
  function DecodeReports(hs: seq<Hit>): (r: Result<seq<Report>, DbError>)
    ensures r.Ok? <==> forall i :: 0 <= i < |hs| ==> ReportFromRow(hs[i].1).Ok?
    ensures r.Ok? ==> |r.value| == |hs| && forall i :: 0 <= i < |hs| ==> r.value[i] == ReportFromRow(hs[i].1).value
  {
    if |hs| == 0 then Ok([])
    else
      match ReportFromRow(hs[0].1)
      case Err(e) => Err(e)
      case Ok(rep) =>
        assert forall i :: 1 <= i < |hs| ==> hs[i] == hs[1..][i - 1];
        match DecodeReports(hs[1..])
        case Err(e) => Err(e)
        case Ok(rest) => Ok([rep] + rest)
  }

  function DecodeActions(acts: seq<(nat, ActionRow)>): (r: Result<seq<Action>, DbError>)
    ensures r.Ok? <==> forall i :: 0 <= i < |acts| ==> ActionFromRow(acts[i].1).Ok?
    ensures r.Ok? ==> |r.value| == |acts|
  {
    if |acts| == 0 then Ok([])
    else
      match ActionFromRow(acts[0].1)
      case Err(e) => Err(e)
      case Ok(a) =>
        assert forall i :: 1 <= i < |acts| ==> acts[i] == acts[1..][i - 1];
        match DecodeActions(acts[1..])
        case Err(e) => Err(e)
        case Ok(rest) => Ok([a] + rest)
  }

  /** One line per listed report; a time that is not a timestamp, or a
      status text that panics, panics. `filedBy` picks the wording of the
      first list ("Reported by" the reporter) over the second ("Reported"
      the reported user). */
  function ReportLines(rs: seq<Report>, filedBy: bool, timestamp: string -> Option<int>, slAudit: u64): (r: Option<string>)
    ensures r.Some? <==> forall i :: 0 <= i < |rs| ==> timestamp(rs[i].time).Some? && StatusString(rs[i], slAudit).Some?
  {
    if |rs| == 0 then Some("")
    else
      var rep := rs[0];
      assert forall i :: 1 <= i < |rs| ==> rs[i] == rs[1..][i - 1];
      match (timestamp(rep.time), StatusString(rep, slAudit))
      case (Some(t), Some(st)) =>
        (match ReportLines(rs[1..], filedBy, timestamp, slAudit)
         case None => None
         case Some(more) =>
           var who := if filedBy then "- Reported by " + rep.reporterName else "- Reported " + rep.reportedName;
           Some(who + " on <t:" + IntText(t) + ":f> for '" + rep.reportReason + "' (" + st + ")\n" + more))
      case _ => None
  }

  function ActionLines(acts: seq<Action>): string {
    if |acts| == 0 then ""
    else
      var a := acts[0];
      var report := if a.report.Some? then IntText(a.report.value) else "No report";
      "- '" + a.action + "' for '" + a.offense + "' by <@!" + a.claimant + "> (" + report + ")\n" + ActionLines(acts[1..])
  }

  /** A read error ends the command with that error. */
  function Fetch<T>(r: Result<T, DbError>): (f: Result<T, PastError>)
    ensures f.Ok? <==> r.Ok?
    ensures f.Ok? ==> f.value == r.value
  {
    match r
    case Ok(v) => Ok(v)
    case Err(e) => Err(FetchFailed(e))
  }

  /** `/past`, with the column the "Reported N time(s)" count filters on
      as a parameter. */
  function PastWith(db: Db, id: string, reportedCountColumn: ReportColumn, timestamp: string -> Option<int>,
                    slAudit: u64): (r: Result<PastEmbed, PastError>)
    requires db.Valid()
    ensures r.Ok? ==> r.value.counts == Counts(|Matching(db, reportedCountColumn, id)|, |Matching(db, ReporterId, id)|,
                                               |ActionsFrom(db, id, 1)|)
    ensures r.Ok? ==> r.value.description == Description(id, r.value.counts)
    ensures r.Ok? ==> DecodeReports(Recent(db, ReporterId, id)).Ok? && DecodeReports(Recent(db, ReportedId, id)).Ok?
  {
    var filed :- Fetch(DecodeReports(Recent(db, ReporterId, id)));
    var against :- Fetch(DecodeReports(Recent(db, ReportedId, id)));
    var allActions := ActionsFrom(db, id, 1);
    var actions :- Fetch(DecodeActions(allActions[..Min(ListLimit, |allActions|)]));
    var counts := Counts(|Matching(db, reportedCountColumn, id)|, |Matching(db, ReporterId, id)|, |allActions|);
    var filedLines := ReportLines(filed, true, timestamp, slAudit);
    var againstLines := ReportLines(against, false, timestamp, slAudit);
    if filedLines.None? || againstLines.None? then Err(PastPanicked)
    else
      Ok(PastEmbed(id + "'s past...", counts, Description(id, counts), filedLines.value, againstLines.value,
                   ActionLines(actions)))
  }

  /** The command as written: both report counts filter reporter_id. */
  function PastAsWritten(db: Db, id: string, timestamp: string -> Option<int>, slAudit: u64): (r: Result<PastEmbed, PastError>)
    requires db.Valid()
    ensures r.Ok? ==> r.value.counts.reported == |Matching(db, ReporterId, id)|
  {
    PastWith(db, id, ReporterId, timestamp, slAudit)
  }

  /** The command as intended: reports against the user are counted. */
  function Past(db: Db, id: string, timestamp: string -> Option<int>, slAudit: u64): (r: Result<PastEmbed, PastError>)
    requires db.Valid()
    ensures r.Ok? ==> r.value.counts.reported == |Matching(db, ReportedId, id)|
    ensures r.Ok? ==> r.value.counts.reportedSomeone == |Matching(db, ReporterId, id)|
    ensures r.Ok? ==> r.value.counts.actioned == |ActionsFrom(db, id, 1)|
  {
    PastWith(db, id, ReportedId, timestamp, slAudit)
  }

  /** As written, "Reported N time(s)" always repeats "Reported someone
      N time(s)". */
  lemma AsWrittenCountsRepeat(db: Db, id: string, timestamp: string -> Option<int>, slAudit: u64)
    requires db.Valid() && PastAsWritten(db, id, timestamp, slAudit).Ok?
    ensures var c := PastAsWritten(db, id, timestamp, slAudit).value.counts;
            c.reported == c.reportedSomeone == |Matching(db, ReporterId, id)|
  {
  }

  /** One report, filed by "a" against "b": as written, b's history lists
      that report under the reports against b, yet says b was reported
      0 times. */
  lemma AsWrittenMiscounts()
    ensures var db := OneReport();
            && db.Valid()
            && |Recent(db, ReportedId, "b")| == 1
            && PastAsWritten(db, "b", _ => Some(0), 0).Ok?
            && PastAsWritten(db, "b", _ => Some(0), 0).value.counts.reported == 0
  {
    var db := OneReport();
    assert MatchingFrom(db, ReportedId, "b", 2) == [];
    assert MatchingFrom(db, ReporterId, "b", 2) == [];
    assert Matching(db, ReportedId, "b") == [(1, db.reports[1])];
    assert Matching(db, ReporterId, "b") == [];
    assert ActionsFrom(db, "b", 1) == [];
    var against := Recent(db, ReportedId, "b");
    assert against == [(1, db.reports[1])];
    assert Recent(db, ReporterId, "b") == [];
    assert ReportFromRow(db.reports[1]).Ok?;
  }

  function OneReport(): Db {
    Tables(map[1 := ReportRow("a", "A", "b", "B", "reason", "open", "server", "t", None, None)], map[], [], [], 2, 1)
  }

  /** As intended, the count of reports against the user agrees with the
      list of them: the list shows min(5, count) reports. The list and
      count of reports filed by the user agree in the same way. */
  lemma PastCountsMatchLists(db: Db, id: string, timestamp: string -> Option<int>, slAudit: u64)
    requires db.Valid() && Past(db, id, timestamp, slAudit).Ok?
    ensures var c := Past(db, id, timestamp, slAudit).value.counts;
            && |Recent(db, ReportedId, id)| == Min(ListLimit, c.reported)
            && |Recent(db, ReporterId, id)| == Min(ListLimit, c.reportedSomeone)
  {
    RecentIsNewest(db, ReportedId, id);
    RecentIsNewest(db, ReporterId, id);
  }

  /** Every report against the user is counted, and only those. */
  lemma PastCountsReportsAgainst(db: Db, id: string, k: nat)
    requires db.Valid()
    ensures k in db.reports && db.reports[k].reportedId == id <==>
            exists i :: 0 <= i < |Matching(db, ReportedId, id)| && Matching(db, ReportedId, id)[i].0 == k
  {
    var hs := Matching(db, ReportedId, id);
    if k in db.reports && db.reports[k].reportedId == id {
      MatchingComplete(db, ReportedId, id, 1, k);
    }
    forall i | 0 <= i < |hs| && hs[i].0 == k ensures k in db.reports && db.reports[k].reportedId == id {
      assert ColumnValue(hs[i].1, ReportedId) == id;
    }
  }

  /** A report the older sweep marked 'expired' and that is among the five
      listed makes the whole command fail. */
  lemma ExpiredListedFails(db: Db, id: string, timestamp: string -> Option<int>, slAudit: u64, i: nat)
    requires db.Valid() && i < |Recent(db, ReportedId, id)| && Recent(db, ReportedId, id)[i].1.reportStatus == "expired"
    ensures Past(db, id, timestamp, slAudit).Err?
  {
    var hs := Recent(db, ReportedId, id);
    StatusFromTextDomain("expired");
    assert ReportFromRow(hs[i].1).Err?;
    assert DecodeReports(hs).Err?;
  }
}
