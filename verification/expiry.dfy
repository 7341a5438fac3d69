/** The expiry sweep: every five minutes both bots look at the open reports
    and mark as expired those filed more than 48 whole hours ago. Times are
    given as unix seconds; parsing a report's time text is the `parse`
    parameter, and its failure is an explicit None. */
module Expiry {
  import opened Wrappers
  import opened Common
  import opened DbCodec
  import opened Store
  import opened Database

  const SECONDS_PER_HOUR: int := 3600
  const EXPIRY_HOURS: int := 48

  /** chrono's `num_hours`: whole hours, truncated toward zero. */
  function WholeHours(seconds: int): (h: int)
    ensures seconds >= 0 ==> 0 <= h && h * SECONDS_PER_HOUR <= seconds < (h + 1) * SECONDS_PER_HOUR
    ensures seconds < 0 ==> h <= 0 && (h - 1) * SECONDS_PER_HOUR < seconds <= h * SECONDS_PER_HOUR
  {
    if seconds >= 0 then seconds / SECONDS_PER_HOUR else -((-seconds) / SECONDS_PER_HOUR)
  }

  /** The rule `num_hours() > 48`. */
  predicate Overdue(ageSeconds: int) {
    WholeHours(ageSeconds) > EXPIRY_HOURS
  }

  /** Over 48 whole hours means at least 49 full hours: a report 48 hours and
      59 minutes old is not yet expired. */
  lemma OverdueThreshold(ageSeconds: int)
    ensures Overdue(ageSeconds) <==> ageSeconds >= (EXPIRY_HOURS + 1) * SECONDS_PER_HOUR
  {
  }

  /** A candidate: row id and the report's time text. */
  type Candidate = (nat, string)

  /** Candidate `i` parses and is overdue at `now`. */
  predicate OverdueAt(cands: seq<Candidate>, i: int, now: int, parse: string -> Option<int>)
    requires 0 <= i < |cands|
  {
    parse(cands[i].1).Some? && Overdue(now - parse(cands[i].1).value)
  }

  predicate AllParse(cands: seq<Candidate>, parse: string -> Option<int>) {
    forall i :: 0 <= i < |cands| ==> parse(cands[i].1).Some?
  }

  /** The ids to expire, in candidate order, or None when any time fails to
      parse: the whole list is read before anything is expired. */
  function OverdueIds(cands: seq<Candidate>, now: int, parse: string -> Option<int>): (r: Option<seq<nat>>)
    ensures r.Some? <==> AllParse(cands, parse)
    ensures r.Some? ==> |r.value| <= |cands|
    decreases |cands|
  {
    if |cands| == 0 then Some([])
    else
      var init := cands[..|cands| - 1];
      var last := cands[|cands| - 1];
      assert forall i :: 0 <= i < |init| ==> init[i] == cands[i];
      match OverdueIds(init, now, parse)
      case None => None
      case Some(ids) =>
        match parse(last.1)
        case None => None
        case Some(t) => Some(if Overdue(now - t) then ids + [last.0] else ids)
  }

  /** An id is selected exactly when some candidate with that id is overdue. */
  lemma {:induction false} OverdueIdsExact(cands: seq<Candidate>, now: int, parse: string -> Option<int>, k: nat)
    requires AllParse(cands, parse)
    ensures k in OverdueIds(cands, now, parse).value <==>
              exists i :: 0 <= i < |cands| && cands[i].0 == k && OverdueAt(cands, i, now, parse)
    decreases |cands|
  {
    if |cands| > 0 {
      var init := cands[..|cands| - 1];
      assert forall i :: 0 <= i < |init| ==> init[i] == cands[i];
      OverdueIdsExact(init, now, parse, k);
      if exists i :: 0 <= i < |cands| && cands[i].0 == k && OverdueAt(cands, i, now, parse) {
        var i :| 0 <= i < |cands| && cands[i].0 == k && OverdueAt(cands, i, now, parse);
        if i < |init| {
          assert init[i].0 == k && OverdueAt(init, i, now, parse);
        }
      }
    }
  }

  /** The sweep's first loop: one pass over the candidates with a single
      `now`, collecting overdue ids and stopping at the first time that does
      not parse. */
  method SelectOverdue(cands: seq<Candidate>, now: int, parse: string -> Option<int>) returns (r: Option<seq<nat>>)
    ensures r == OverdueIds(cands, now, parse)
  {
    var toClose: seq<nat> := [];
    var i := 0;
    while i < |cands|
      invariant 0 <= i <= |cands|
      invariant OverdueIds(cands[..i], now, parse) == Some(toClose)
    {
      assert cands[..i + 1][..i] == cands[..i];
      match parse(cands[i].1)
      case None =>
        assert OverdueIds(cands[..i + 1], now, parse).None?;
        OverdueIdsPrefixNone(cands, i + 1, now, parse);
        return None;
      case Some(t) =>
        if Overdue(now - t) {
          toClose := toClose + [cands[i].0];
        }
      i := i + 1;
    }
    assert cands[..|cands|] == cands;
    return Some(toClose);
  }

  /** A prefix that does not parse makes the whole list fail to parse. */
  lemma OverdueIdsPrefixNone(cands: seq<Candidate>, n: nat, now: int, parse: string -> Option<int>)
    requires n <= |cands|
    requires OverdueIds(cands[..n], now, parse).None?
    ensures OverdueIds(cands, now, parse).None?
  {
    var i :| 0 <= i < n && parse(cands[..n][i].1).None?;
    assert cands[i] == cands[..n][i];
  }

  /** Applies `f` to the row of every id in `ids` except those in `skip`:
      a statement that fails for one report is logged and the loop goes on. */
  function UpdateEach<R(!new), A>(t: Tables<R, A>, ids: seq<nat>, skip: set<nat>, f: R -> R): (r: Tables<R, A>)
    requires t.Valid()
    requires forall x :: f(f(x)) == f(x)
    ensures r.Valid()
    ensures r.reports.Keys == t.reports.Keys
    ensures forall k :: k in t.reports ==> r.reports[k] == if k in ids && k !in skip then f(t.reports[k]) else t.reports[k]
    ensures r.actions == t.actions && r.reportLinks == t.reportLinks && r.actionLinks == t.actionLinks
    ensures r.nextReport == t.nextReport && r.nextAction == t.nextAction
    decreases |ids|
  {
    if |ids| == 0 then t
    else
      var k := ids[0];
      var t1 := if k !in skip && k in t.reports then UpdateReport(t, k, f(t.reports[k])) else t;
      assert forall j :: j in ids <==> j == k || j in ids[1..];
      UpdateEach(t1, ids[1..], skip, f)
  }

  /** Applies `f` to the row of each id in turn and stops at the first id in
      `failAt`: a statement error propagated with `?` ends the task. */
  function UpdateUntilFailure<R, A>(t: Tables<R, A>, ids: seq<nat>, failAt: set<nat>, f: R -> R): (r: (Tables<R, A>, bool))
    requires t.Valid()
    ensures r.0.Valid()
    ensures r.0.reports.Keys == t.reports.Keys
    ensures r.1 <==> forall i :: 0 <= i < |ids| ==> ids[i] !in failAt
    ensures r.0.actions == t.actions && r.0.reportLinks == t.reportLinks && r.0.actionLinks == t.actionLinks
    ensures forall k :: k in t.reports && k !in ids ==> r.0.reports[k] == t.reports[k]
    decreases |ids|
  {
    if |ids| == 0 then (t, true)
    else if ids[0] in failAt then (t, false)
    else
      var k := ids[0];
      var t1 := if k in t.reports then UpdateReport(t, k, f(t.reports[k])) else t;
      var r := UpdateUntilFailure(t1, ids[1..], failAt, f);
      assert forall i :: 1 <= i < |ids| ==> ids[1..][i - 1] == ids[i];
      r
  }

  /** Before the first failing id every listed report is updated; from it on
      nothing is. */
  lemma {:induction false} UpdateUntilFailurePrefix<R, A>(t: Tables<R, A>, ids: seq<nat>, failAt: set<nat>, f: R -> R, n: nat)
    requires t.Valid()
    requires n <= |ids| && (n < |ids| ==> ids[n] in failAt)
    requires forall i :: 0 <= i < n ==> ids[i] !in failAt
    requires forall i, j :: 0 <= i < j < |ids| ==> ids[i] != ids[j]
    ensures forall k :: k in t.reports ==>
              UpdateUntilFailure(t, ids, failAt, f).0.reports[k] == if k in ids[..n] then f(t.reports[k]) else t.reports[k]
    decreases |ids|
  {
    if |ids| > 0 && n > 0 {
      var k := ids[0];
      var t1 := if k in t.reports then UpdateReport(t, k, f(t.reports[k])) else t;
      assert forall i, j :: 0 <= i < j < |ids[1..]| ==> ids[1..][i] != ids[1..][j] by {
        forall i, j | 0 <= i < j < |ids[1..]| ensures ids[1..][i] != ids[1..][j] {
          assert ids[1..][i] == ids[i + 1] && ids[1..][j] == ids[j + 1];
        }
      }
      UpdateUntilFailurePrefix(t1, ids[1..], failAt, f, n - 1);
      assert forall j :: j in ids[..n] <==> j == k || j in ids[1..][..n - 1] by {
        assert ids[..n] == [k] + ids[1..][..n - 1];
      }
      assert ids[1..][..n - 1] == ids[1..n];
      assert forall j :: 1 <= j < n ==> ids[j] != k;
      assert forall j :: 0 <= j < n - 1 ==> ids[1..n][j] != k;
    }
  }

  /** The newer status update: only the status text changes. */
  function ExpiredRow(row: DBReport): (r: DBReport)
    ensures r.reportStatus == StatusToDb(Expired)
    ensures r.(reportStatus := row.reportStatus) == row
  {
    row.(reportStatus := "expired")
  }

  /** Row id and time text of each decoded report. */
  function CandidatesOf(reports: seq<(nat, Report)>): (c: seq<Candidate>)
    ensures |c| == |reports|
    ensures forall i :: 0 <= i < |c| ==> c[i] == (reports[i].0, reports[i].1.time)
  {
    if |reports| == 0 then [] else [(reports[0].0, reports[0].1.time)] + CandidatesOf(reports[1..])
  }

  datatype SweepError = QueryFailed(e: Error) | TimeUnparsable

  /** One run of the newer `expire_task`: query the Open reports, pick the
      overdue ones with one `now`, then expire each, skipping (and only
      logging) those whose update fails — `failing` lists them. Updating the
      report message afterwards only reads the store, so its failure cannot
      undo an expiry. */
  function ExpireSweep(db: Db, now: int, parse: string -> Option<int>, failing: set<nat>): (r: Result<(Db, seq<nat>), SweepError>)
    requires db.Valid()
    ensures r.Ok? ==> r.value.0.Valid() && r.value.0.reports.Keys == db.reports.Keys
    ensures r.Ok? ==> forall k :: k in r.value.1 ==> Selected(db, Open, k)
    ensures r.Ok? && |r.value.1| == 0 ==> r.value.0 == db
    ensures r.Ok? ==> r.value.0.actions == db.actions && r.value.0.reportLinks == db.reportLinks && r.value.0.actionLinks == db.actionLinks
  {
    match AllReportsWithStatus(db, Open)
    case Err(e) => Err(QueryFailed(e))
    case Ok(open) =>
      var cands := CandidatesOf(open);
      match OverdueIds(cands, now, parse)
      case None => Err(TimeUnparsable)
      case Some(ids) =>
        forall k | k in ids ensures Selected(db, Open, k) {
          OverdueIdsExact(cands, now, parse, k);
        }
        if |ids| == 0 then Ok((db, ids))
        else Ok((UpdateEach(db, ids, failing, ExpiredRow), ids))
  }

  /** The sweep picks exactly the open reports that are overdue at `now`. */
  lemma SweepPicks(db: Db, now: int, parse: string -> Option<int>, k: nat)
    requires db.Valid()
    requires AllReportsWithStatus(db, Open).Ok?
    requires OverdueIds(CandidatesOf(AllReportsWithStatus(db, Open).value), now, parse).Some?
    ensures k in OverdueIds(CandidatesOf(AllReportsWithStatus(db, Open).value), now, parse).value <==>
              Selected(db, Open, k) && parse(db.reports[k].time).Some? && Overdue(now - parse(db.reports[k].time).value)
  {
    PicksOf(db, AllReportsWithStatus(db, Open).value, now, parse, k);
  }

  /** `SweepPicks` for a given result of the query. */
  lemma PicksOf(db: Db, open: seq<(nat, Report)>, now: int, parse: string -> Option<int>, k: nat)
    requires db.Valid()
    requires AllReportsWithStatus(db, Open) == Ok(open)
    requires OverdueIds(CandidatesOf(open), now, parse).Some?
    ensures k in OverdueIds(CandidatesOf(open), now, parse).value <==>
              Selected(db, Open, k) && parse(db.reports[k].time).Some? && Overdue(now - parse(db.reports[k].time).value)
  {
    var time := if k in db.reports then db.reports[k].time else "";
    OpenCandidate(db, open, k, time);
    PicksByTime(CandidatesOf(open), now, parse, k, time);
  }

  /** `k` is a candidate of the sweep exactly when it is stored as open, and
      then with its stored time. */
  lemma OpenCandidate(db: Db, open: seq<(nat, Report)>, k: nat, time: string)
    requires db.Valid()
    requires AllReportsWithStatus(db, Open) == Ok(open)
    requires k in db.reports ==> time == db.reports[k].time
    ensures Selected(db, Open, k) <==> exists i :: 0 <= i < |CandidatesOf(open)| && CandidatesOf(open)[i].0 == k
    ensures forall i :: 0 <= i < |CandidatesOf(open)| && CandidatesOf(open)[i].0 == k ==> CandidatesOf(open)[i].1 == time
  {
    var cands := CandidatesOf(open);
    var r := AllReportsWithStatus(db, Open);
    assert r.Ok? && r.value == open;
    if Selected(db, Open, k) {
      var i :| 0 <= i < |open| && open[i].0 == k;
      assert cands[i].0 == k;
    }
    if exists i :: 0 <= i < |cands| && cands[i].0 == k {
      var i :| 0 <= i < |cands| && cands[i].0 == k;
      assert open[i].0 == k;
      assert Selected(db, Open, r.value[i].0);
    }
  }

  /** When every candidate with id `k` carries the same time, `k` is picked
      exactly when it is a candidate and that time is overdue. */
  lemma PicksByTime(cands: seq<Candidate>, now: int, parse: string -> Option<int>, k: nat, time: string)
    requires AllParse(cands, parse)
    requires forall i :: 0 <= i < |cands| && cands[i].0 == k ==> cands[i].1 == time
    ensures k in OverdueIds(cands, now, parse).value <==>
              (exists i :: 0 <= i < |cands| && cands[i].0 == k) && parse(time).Some? && Overdue(now - parse(time).value)
  {
    OverdueIdsExact(cands, now, parse, k);
    if exists i :: 0 <= i < |cands| && cands[i].0 == k {
      var i :| 0 <= i < |cands| && cands[i].0 == k;
      assert OverdueAt(cands, i, now, parse) <==> parse(time).Some? && Overdue(now - parse(time).value);
    }
  }

  /** What a successful sweep does to each report: it is expired exactly when
      it was stored as open, is overdue at `now`, and its update did not fail;
      every other row is left as it was. */
  lemma ExpireSweepExact(db: Db, now: int, parse: string -> Option<int>, failing: set<nat>, k: nat)
    requires db.Valid() && k in db.reports
    requires ExpireSweep(db, now, parse, failing).Ok?
    ensures var db' := ExpireSweep(db, now, parse, failing).value.0;
            db'.reports[k] == if Selected(db, Open, k) && k !in failing && parse(db.reports[k].time).Some? &&
                                 Overdue(now - parse(db.reports[k].time).value)
                              then ExpiredRow(db.reports[k]) else db.reports[k]
  {
    SweepPicks(db, now, parse, k);
  }

  /** A time that does not parse on any open report stops the sweep before
      anything is written. */
  lemma ExpireSweepUnparsable(db: Db, now: int, parse: string -> Option<int>, failing: set<nat>, k: nat)
    requires db.Valid() && Selected(db, Open, k)
    requires AllReportsWithStatus(db, Open).Ok?
    requires parse(db.reports[k].time).None?
    ensures ExpireSweep(db, now, parse, failing) == Err(TimeUnparsable)
  {
    var open := AllReportsWithStatus(db, Open).value;
    var i :| 0 <= i < |open| && open[i].0 == k;
    assert CandidatesOf(open)[i].1 == db.reports[k].time;
  }
}
