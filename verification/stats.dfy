/** The stats message both bots keep editing: database health and counts, a
    per-status breakdown, the staff leaderboards, and (newer bot) the
    changelog and uptime. The older bot (`src/stats.rs`) runs its SQL
    directly; the newer one (`lurk_chan/src/tasks/stats.rs`) asks the
    database layer for the same numbers, which arrive here as inputs. */
module Stats {
  import opened Wrappers
  import opened Text
  import opened Common
  import opened Store
  import LegacyDb
  import Uptime

  datatype Color = Rgb(red: nat, green: nat, blue: nat) | Blurple | Gold

  datatype Field = Field(name: string, value: string, inline: bool)

  /** An embed as the bots build it; `timestamp` is the "now" stamped on the
      last embed of a stats message. */
  datatype Embed = Embed(
    title: string,
    description: Option<string>,
    fields: seq<Field>,
    color: Option<Color>,
    timestamp: Option<int>)

  function Min(a: nat, b: nat): nat {
    if a <= b then a else b
  }

  /* Database health */

  /** The numbers behind the "DB Status" embed. */
  datatype DbData = DbData(
    reportCount: nat,
    actionCount: nat,
    reportMessageCount: nat,
    actionMessageCount: nat,
    invalidKeys: nat,
    integrity: bool)

  /** The database is healthy when no foreign key is violated and the
      integrity check passed. */
  predicate Healthy(d: DbData) {
    d.invalidKeys == 0 && d.integrity
  }

  /** The "Foreign Key Violations" field: "None" for zero, else the number. */
  function FkText(n: nat): (t: string)
    ensures t == "None" <==> n == 0
    ensures n > 0 ==> AllDigits(t)
  {
    if n == 0 then "None"
    else
      var t := DecimalText(n);
      assert IsDigit(t[0]) && !IsDigit("None"[0]);
      t
  }

  /** A nonzero violation count reads back from its field. */
  lemma FkTextReadsBack(n: nat)
    requires n > 0
    ensures ParseUnsigned(FkText(n), n + 1) == Some(n)
  {
    ParseUnsignedRoundTrip(n, n + 1);
  }

  function IntegrityText(ok: bool): (t: string)
    ensures t == "OK" <==> ok
  {
    if ok then "OK" else "FUCKED"
  }

  const HealthyTitle: string := "DB Status: Healthy"
  const UnhealthyTitle: string := "DB Status: Unhealthy"
  const FailureTitle: string := "DB Status: Failure"
  const FailureText: string := "Oh fuck! Report this to Wackery ASAP this is fucked!"

  /** The "DB Status" embed (the same in both bots): healthy or unhealthy
      with six fields when the numbers came back, a failure notice when any
      of them did not. */
  function DbEmbed<E>(data: Result<DbData, E>): (e: Embed)
    ensures e.title == FailureTitle <==> data.Err?
    ensures data.Ok? ==> (e.title == HealthyTitle <==> Healthy(data.value))
    ensures data.Ok? ==> (e.color == Some(Rgb(0, 255, 0)) <==> Healthy(data.value))
    ensures data.Ok? ==> |e.fields| == 6 && e.description.None?
    ensures data.Ok? ==> (e.fields[0].value == DecimalText(data.value.reportCount)
                          && e.fields[1].value == DecimalText(data.value.actionCount)
                          && e.fields[2].value == DecimalText(data.value.reportMessageCount)
                          && e.fields[3].value == DecimalText(data.value.actionMessageCount))
    ensures data.Ok? ==> (e.fields[4].value == "None" <==> data.value.invalidKeys == 0)
    ensures data.Ok? ==> (e.fields[5].value == "OK" <==> data.value.integrity)
    ensures data.Err? ==> e.description == Some(FailureText) && |e.fields| == 0
  {
    assert HealthyTitle[11] != FailureTitle[11] && |UnhealthyTitle| != |FailureTitle|;
    assert |UnhealthyTitle| != |HealthyTitle|;
    match data
    case Err(_) => Embed(FailureTitle, Some(FailureText), [], None, None)
    case Ok(d) =>
      var healthy := d.invalidKeys == 0 && d.integrity;
      Embed(
        if healthy then HealthyTitle else UnhealthyTitle,
        None,
        [Field("Report Count", DecimalText(d.reportCount), true),
         Field("Action Count", DecimalText(d.actionCount), true),
         Field("Report Message Count", DecimalText(d.reportMessageCount), true),
         Field("Action Message Count", DecimalText(d.actionMessageCount), true),
         Field("Foreign Key Violations", FkText(d.invalidKeys), true),
         Field("Database integrity", IntegrityText(d.integrity), true)],
        Some(if healthy then Rgb(0, 255, 0) else Rgb(255, 0, 0)),
        None)
  }

  /** One row of `PRAGMA foreign_key_check`. */
  datatype FkRow = FkRow(table: string, rowid: int, parent: string)

  /** The older bot's numbers: whole-table counts of the four tables, the
      number of foreign-key rows, and whether `PRAGMA integrity_check`
      answered exactly "ok". */
  function OldDbData(db: LegacyDb.Db, fkRows: seq<FkRow>, integrityCheck: string): (d: DbData)
    ensures d.reportCount == |db.reports.Keys| && d.actionCount == |db.actions.Keys|
    ensures d.reportMessageCount == |db.reportLinks| && d.actionMessageCount == |db.actionLinks|
    ensures Healthy(d) <==> |fkRows| == 0 && integrityCheck == "ok"
  {
    DbData(|db.reports|, |db.actions|, |db.reportLinks|, |db.actionLinks|, |fkRows|, integrityCheck == "ok")
  }

  /** Filing a report raises the report count by one and leaves the other
      counts alone. */
  lemma OldCountsFollowInsert(db: LegacyDb.Db, row: LegacyDb.ReportRow, fkRows: seq<FkRow>, integrityCheck: string)
    requires db.Valid()
    ensures var d := OldDbData(InsertReport(db, row).0, fkRows, integrityCheck);
            var before := OldDbData(db, fkRows, integrityCheck);
            d == before.(reportCount := before.reportCount + 1)
  {
    var (db', id) := InsertReport(db, row);
    assert db'.reports.Keys == db.reports.Keys + {id};
    assert |db.reports.Keys + {id}| == |db.reports.Keys| + 1;
  }

  /** The newer bot's numbers: counts from the database layer, and the
      integrity check counted as passed when it returned without error. */
  function NewDbData<E>(reportCount: nat, actionCount: nat, reportMessageCount: nat, actionMessageCount: nat,
                        invalidKeys: nat, integrityCheck: Result<string, E>): (d: DbData)
    ensures Healthy(d) <==> invalidKeys == 0 && integrityCheck.Ok?
    ensures d.reportCount == reportCount && d.actionCount == actionCount
  {
    DbData(reportCount, actionCount, reportMessageCount, actionMessageCount, invalidKeys, integrityCheck.Ok?)
  }

  /* Detailed stats (newer bot) */

  function CountStatus(reports: seq<Report>, s: ReportStatus): (n: nat)
    ensures n <= |reports|
  {
    if |reports| == 0 then 0
    else CountStatus(reports[..|reports| - 1], s) + (if reports[|reports| - 1].reportStatus == s then 1 else 0)
  }

  function CountServer(actions: seq<Action>, l: Location): (n: nat)
    ensures n <= |actions|
  {
    if |actions| == 0 then 0
    else CountServer(actions[..|actions| - 1], l) + (if actions[|actions| - 1].server == l then 1 else 0)
  }

  function CountUnlinked(actions: seq<Action>): (n: nat)
    ensures n <= |actions|
  {
    if |actions| == 0 then 0
    else CountUnlinked(actions[..|actions| - 1]) + (if actions[|actions| - 1].report.None? then 1 else 0)
  }

  datatype Detailed = Detailed(open: nat, claimed: nat, closed: nat, slAudits: nat, discordAudits: nat, withoutReport: nat)

  /** The "Detailed Stats" numbers: "Closed Reports" folds expired reports
      in with closed ones. */
  function DetailedStats(reports: seq<Report>, actions: seq<Action>): (d: Detailed)
    ensures d.closed == CountStatus(reports, Closed) + CountStatus(reports, Expired)
    ensures d.open == CountStatus(reports, Open) && d.claimed == CountStatus(reports, Claimed)
    ensures d.slAudits == CountServer(actions, SL) && d.discordAudits == CountServer(actions, Discord)
    ensures d.withoutReport == CountUnlinked(actions)
  {
    Detailed(CountStatus(reports, Open), CountStatus(reports, Claimed),
             CountStatus(reports, Closed) + CountStatus(reports, Expired),
             CountServer(actions, SL), CountServer(actions, Discord), CountUnlinked(actions))
  }

  /** The three report counts cover every report exactly once, and the two
      audit counts every action. */
  lemma {:induction false} DetailedPartitions(reports: seq<Report>, actions: seq<Action>)
    ensures var d := DetailedStats(reports, actions);
            d.open + d.claimed + d.closed == |reports| && d.slAudits + d.discordAudits == |actions|
  {
    StatusesPartition(reports);
    ServersPartition(actions);
  }

  lemma {:induction false} StatusesPartition(reports: seq<Report>)
    ensures CountStatus(reports, Open) + CountStatus(reports, Claimed) + CountStatus(reports, Closed)
            + CountStatus(reports, Expired) == |reports|
  {
    if |reports| > 0 {
      StatusesPartition(reports[..|reports| - 1]);
    }
  }

  lemma {:induction false} ServersPartition(actions: seq<Action>)
    ensures CountServer(actions, SL) + CountServer(actions, Discord) == |actions|
  {
    if |actions| > 0 {
      ServersPartition(actions[..|actions| - 1]);
    }
  }

  function DetailedEmbed(d: Detailed): (e: Embed)
    ensures |e.fields| == 6 && e.fields[2] == Field("Closed Reports", DecimalText(d.closed), true)
  {
    Embed("Detailed Stats", None,
          [Field("Open Reports", DecimalText(d.open), true),
           Field("Claimed Reports", DecimalText(d.claimed), true),
           Field("Closed Reports", DecimalText(d.closed), true),
           Field("SL Audits", DecimalText(d.slAudits), true),
           Field("Discord Audits", DecimalText(d.discordAudits), true),
           Field("Audits Without Report", DecimalText(d.withoutReport), true)],
          Some(Gold), None)
  }

  /* Changelog (newer bot) */

  /** `map_while` over the changelog's lines: everything before the first
      empty line. */
  function ChangelogLines(lines: seq<string>): (r: seq<string>)
    ensures r <= lines
    ensures forall i :: 0 <= i < |r| ==> r[i] != ""
    ensures |r| < |lines| ==> lines[|r|] == ""
  {
    if |lines| == 0 || lines[0] == "" then []
    else [lines[0]] + ChangelogLines(lines[1..])
  }

  /** Each kept line followed by a newline. */
  function Unlines(lines: seq<string>): (t: string)
    ensures CountChar(t, '\n') >= |lines|
    ensures |lines| > 0 ==> |t| > 0 && t[|t| - 1] == '\n'
  {
    if |lines| == 0 then ""
    else
      CountCharAppend(lines[0] + "\n", Unlines(lines[1..]), '\n');
      CountCharAppend(lines[0], "\n", '\n');
      lines[0] + "\n" + Unlines(lines[1..])
  }

  /** `str::lines` on text without carriage returns: the pieces between line
      breaks, a final line break ending the last line rather than starting
      an empty one. */
  function SplitLines(t: string): (r: seq<string>)
    ensures forall i :: 0 <= i < |r| ==> '\n' !in r[i]
    decreases |t|
  {
    if |t| == 0 then []
    else
      match SplitOnce(t, '\n')
      case None => [t]
      case Some((line, rest)) =>
        assert |rest| < |t| by { assert line + ['\n'] + rest == t; }
        [line] + SplitLines(rest)
  }

  /** A line and its break come off the front as that line. */
  lemma SplitLinesStep(line: string, rest: string)
    requires '\n' !in line
    ensures SplitLines(line + ['\n'] + rest) == [line] + SplitLines(rest)
  {
    SplitOnceOfJoin(line, '\n', rest);
  }

  /** Splitting the written changelog into lines gives back the lines
      written, each of them having ended in a line break. */
  lemma {:induction false} UnlinesRoundTrip(lines: seq<string>)
    requires forall i :: 0 <= i < |lines| ==> '\n' !in lines[i]
    ensures SplitLines(Unlines(lines)) == lines
  {
    if |lines| > 0 {
      var rest := Unlines(lines[1..]);
      assert Unlines(lines) == lines[0] + ['\n'] + rest;
      SplitLinesStep(lines[0], rest);
      UnlinesRoundTrip(lines[1..]);
      assert lines == [lines[0]] + lines[1..];
    }
  }

  /** The changelog field: the kept lines in a markdown code block. */
  function ChangelogText(lines: seq<string>): string {
    "```md\n" + Unlines(ChangelogLines(lines)) + "```"
  }

  /** Exactly the lines before the first blank one are shown, whatever
      follows it. */
  lemma ChangelogStopsAtBlank(first: seq<string>, rest: seq<string>)
    requires forall i :: 0 <= i < |first| ==> first[i] != ""
    ensures ChangelogLines(first + [""] + rest) == first
  {
    var lines := first + [""] + rest;
    assert lines[|first|] == "";
  }

  /* Leaderboards */

  /** One leaderboard row: a claimant and how many rows they claimed. */
  datatype Entry = Entry(claimant: string, count: nat)

  const LeaderboardLimit: nat := 10

  /** The distinct claimants, in first-occurrence order. */
  function Distinct(keys: seq<string>): (d: seq<string>)
    ensures forall x :: x in d <==> x in keys
    ensures forall i, j :: 0 <= i < j < |d| ==> d[i] != d[j]
  {
    if |keys| == 0 then []
    else
      var d := Distinct(keys[..|keys| - 1]);
      var k := keys[|keys| - 1];
      assert keys == keys[..|keys| - 1] + [k];
      if k in d then d else d + [k]
  }

  /** `group by claimant` with `count(*)`: one entry per claimant. */
  function Tally(keys: seq<string>): (t: seq<Entry>)
    ensures |t| == |Distinct(keys)|
    ensures forall i :: 0 <= i < |t| ==> t[i].claimant == Distinct(keys)[i]
    ensures forall i :: 0 <= i < |t| ==> t[i].count == multiset(keys)[t[i].claimant]
  {
    var d := Distinct(keys);
    seq(|d|, i requires 0 <= i < |d| => Entry(d[i], multiset(keys)[d[i]]))
  }

  predicate CountsDescending(s: seq<Entry>) {
    forall i, j :: 0 <= i < j < |s| ==> s[i].count >= s[j].count
  }

  predicate DistinctClaimants(s: seq<Entry>) {
    forall i, j :: 0 <= i < j < |s| ==> s[i].claimant != s[j].claimant
  }

  /** One step of `order by count desc`: an entry goes before the first
      entry it does not fall short of. */
  function InsertByCount(s: seq<Entry>, e: Entry): (r: seq<Entry>)
    requires CountsDescending(s)
    ensures CountsDescending(r)
    ensures |r| == |s| + 1
    ensures forall x :: x in r <==> x in s || x == e
  {
    if |s| == 0 then [e]
    else if e.count >= s[0].count then [e] + s
    else
      var rest := InsertByCount(s[1..], e);
      forall j | 0 <= j < |rest|
        ensures s[0].count >= rest[j].count
      {
        assert rest[j] in rest;
        if rest[j] != e {
          assert rest[j] in s[1..];
          var k :| 0 <= k < |s[1..]| && s[1..][k] == rest[j];
          assert s[k + 1] == rest[j];
        }
      }
      [s[0]] + rest
  }

  lemma {:induction false} InsertKeepsDistinct(s: seq<Entry>, e: Entry)
    requires CountsDescending(s) && DistinctClaimants(s)
    requires forall x :: x in s ==> x.claimant != e.claimant
    ensures DistinctClaimants(InsertByCount(s, e))
  {
    if |s| > 0 && e.count < s[0].count {
      var rest := InsertByCount(s[1..], e);
      InsertKeepsDistinct(s[1..], e);
      forall j | 0 <= j < |rest|
        ensures s[0].claimant != rest[j].claimant
      {
        assert rest[j] in rest;
        if rest[j] != e {
          assert rest[j] in s[1..];
          var k :| 0 <= k < |s[1..]| && s[1..][k] == rest[j];
          assert s[k + 1] == rest[j];
        }
      }
      assert InsertByCount(s, e) == [s[0]] + rest;
    }
  }

  /** `order by count desc` (SQLite leaves the order of equal counts open;
      here a later entry goes first). */
  function SortByCount(t: seq<Entry>): (r: seq<Entry>)
    ensures CountsDescending(r)
    ensures |r| == |t|
    ensures forall x :: x in r <==> x in t
  {
    if |t| == 0 then []
    else
      assert t == t[..|t| - 1] + [t[|t| - 1]];
      InsertByCount(SortByCount(t[..|t| - 1]), t[|t| - 1])
  }

  lemma {:induction false} SortKeepsDistinct(t: seq<Entry>)
    requires DistinctClaimants(t)
    ensures DistinctClaimants(SortByCount(t))
  {
    if |t| > 0 {
      var front := t[..|t| - 1];
      var last := t[|t| - 1];
      SortKeepsDistinct(front);
      forall x | x in SortByCount(front)
        ensures x.claimant != last.claimant
      {
        var k :| 0 <= k < |front| && front[k] == x;
      }
      InsertKeepsDistinct(SortByCount(front), last);
    }
  }

  /** `group by claimant order by count desc limit ?`. */
  function Leaderboard(keys: seq<string>, limit: nat): (r: seq<Entry>)
    ensures |r| == Min(limit, |Distinct(keys)|)
    ensures CountsDescending(r)
  {
    var s := SortByCount(Tally(keys));
    s[..Min(limit, |s|)]
  }

  /** Every row of a leaderboard is a claimant with their true count, each
      claimant at most once. */
  lemma LeaderboardCountsTrue(keys: seq<string>, limit: nat)
    ensures var r := Leaderboard(keys, limit);
            DistinctClaimants(r) &&
            forall i :: 0 <= i < |r| ==> r[i].claimant in keys && r[i].count == multiset(keys)[r[i].claimant]
  {
    var t := Tally(keys);
    var s := SortByCount(t);
    SortKeepsDistinct(t);
    forall i | 0 <= i < |s|
      ensures s[i].claimant in keys && s[i].count == multiset(keys)[s[i].claimant]
    {
      assert s[i] in t;
      var k :| 0 <= k < |t| && t[k] == s[i];
      assert t[k].claimant in Distinct(keys);
    }
  }

  /** Nobody left off a leaderboard outranks anyone on it: a claimant who
      is missing only misses out because the board is full, and has no more
      rows than anyone listed. */
  lemma LeaderboardIsTop(keys: seq<string>, limit: nat, k: string)
    requires k in keys
    ensures var r := Leaderboard(keys, limit);
            (exists i :: 0 <= i < |r| && r[i].claimant == k) ||
            (|r| == limit && forall i :: 0 <= i < |r| ==> r[i].count >= multiset(keys)[k])
  {
    var d := Distinct(keys);
    var t := Tally(keys);
    var s := SortByCount(t);
    var r := Leaderboard(keys, limit);
    var m :| 0 <= m < |d| && d[m] == k;
    assert t[m] == Entry(k, multiset(keys)[k]);
    assert t[m] in s;
    var j :| 0 <= j < |s| && s[j] == t[m];
    if j < |r| {
      assert r[j].claimant == k;
    }
  }

  /** The claimant column of the Reports table without its NULLs
      (`where claimant is not null`). */
  function NonNull(claimants: seq<Option<string>>): (ks: seq<string>)
    ensures forall x :: x in ks <==> Some(x) in claimants
    ensures forall x :: multiset(ks)[x] == multiset(claimants)[Some(x)]
  {
    if |claimants| == 0 then []
    else
      var c := claimants[|claimants| - 1];
      assert claimants == claimants[..|claimants| - 1] + [c];
      NonNull(claimants[..|claimants| - 1]) + (if c.Some? then [c.value] else [])
  }

  /** One line per row: `* <@!claimant> - count`. */
  function LeaderboardText(entries: seq<Entry>): string {
    if |entries| == 0 then ""
    else EntryLine(entries[0]) + LeaderboardText(entries[1..])
  }

  function EntryLine(e: Entry): string {
    "* <@!" + e.claimant + "> - " + DecimalText(e.count) + "\n"
  }

  /** A board renders one line per row, as long as no claimant holds a
      line break. */
  lemma {:induction false} LeaderboardLines(entries: seq<Entry>)
    requires forall i :: 0 <= i < |entries| ==> '\n' !in entries[i].claimant
    ensures CountChar(LeaderboardText(entries), '\n') == |entries|
  {
    if |entries| > 0 {
      LeaderboardLines(entries[1..]);
      LineNewlines(entries[0]);
      CountCharAppend(EntryLine(entries[0]), LeaderboardText(entries[1..]), '\n');
    }
  }

  lemma LineNewlines(e: Entry)
    requires '\n' !in e.claimant
    ensures CountChar(EntryLine(e), '\n') == 1
  {
    var digits := DecimalText(e.count);
    assert forall i :: 0 <= i < |digits| ==> digits[i] != '\n';
    CountCharAppend("* <@!", e.claimant, '\n');
    CountCharAppend("* <@!" + e.claimant, "> - ", '\n');
    CountCharAppend("* <@!" + e.claimant + "> - ", digits, '\n');
    CountCharAppend("* <@!" + e.claimant + "> - " + digits, "\n", '\n');
    CountCharAbsent("* <@!", '\n');
    CountCharAbsent(e.claimant, '\n');
    CountCharAbsent("> - ", '\n');
    CountCharAbsent(digits, '\n');
  }

  const LeaderboardFailure: string := "Failure to fetch data for leaderboard"

  /** The older bot's two leaderboard queries; when either fails, the error
      reported is the reports query's if it failed, else the actions'. */
  function OldLeaderboards<E>(reports: Result<seq<Option<string>>, E>, actions: Result<seq<string>, E>)
    : (r: Result<(seq<Entry>, seq<Entry>), E>)
    ensures r.Ok? <==> reports.Ok? && actions.Ok?
    ensures r.Err? ==> r.error == (if reports.Err? then reports.error else actions.error)
    ensures r.Ok? ==> r.value == (Leaderboard(NonNull(reports.value), LeaderboardLimit),
                                  Leaderboard(actions.value, LeaderboardLimit))
  {
    match (reports, actions)
    case (Ok(rs), Ok(acts)) =>
      Ok((Leaderboard(NonNull(rs), LeaderboardLimit), Leaderboard(acts, LeaderboardLimit)))
    case (Err(e1), _) => Err(e1)
    case (Ok(_), Err(e2)) => Err(e2)
  }

  /** The reports board lists only claimants who claimed something, at most
      ten of them, so its `unwrap_or("null")` never fires. */
  lemma OldReportsBoardClaimed(claimants: seq<Option<string>>, i: nat)
    requires i < |Leaderboard(NonNull(claimants), LeaderboardLimit)|
    ensures var e := Leaderboard(NonNull(claimants), LeaderboardLimit)[i];
            Some(e.claimant) in claimants && e.count == multiset(claimants)[Some(e.claimant)] && e.count > 0
    ensures |Leaderboard(NonNull(claimants), LeaderboardLimit)| <= LeaderboardLimit
  {
    LeaderboardCountsTrue(NonNull(claimants), LeaderboardLimit);
  }

  function LeaderboardEmbed(reports: seq<Entry>, audits: seq<Entry>, timestamp: Option<int>): Embed {
    Embed("Leaderboard", None,
          [Field("Reports", LeaderboardText(reports), false), Field("Audits", LeaderboardText(audits), false)],
          Some(Blurple), timestamp)
  }

  /** The older bot's leaderboard embed: the boards stamped with the time,
      or a failure notice without one. */
  function OldLeaderboardEmbed<E>(boards: Result<(seq<Entry>, seq<Entry>), E>, now: int): (e: Embed)
    ensures e.title == "Leaderboard" <==> boards.Ok?
    ensures boards.Ok? <==> e.timestamp == Some(now)
    ensures boards.Err? ==> e.title == LeaderboardFailure && e.description == Some(FailureText)
  {
    match boards
    case Ok((r, a)) => LeaderboardEmbed(r, a, Some(now))
    case Err(_) => Embed(LeaderboardFailure, Some(FailureText), [], None, None)
  }

  function ChangelogEmbed(version: string, changelog: seq<string>, uptime: nat): (e: Embed)
    ensures |e.fields| == 2
    ensures e.fields[0].value == ChangelogText(changelog)
    ensures Uptime.ParseUptime(e.fields[1].value) == Some(uptime)
  {
    Uptime.UptimeRoundTrip(uptime);
    Embed("Lurk-Chan v" + version, None,
          [Field("Changelog", ChangelogText(changelog), false), Field("Uptime", Uptime.UptimeText(uptime), false)],
          Some(Rgb(0xff, 0x6e, 0xee)), None)
  }
}
