/** The SQLite store both bots keep, as a value: the Reports and Actions
    tables keyed by their integer primary key, and the ReportMessages and
    ActionMessages tables that link a report or action to the Discord message
    showing it. Rows are generic so that each generation can keep its own row
    shape. */
module Store {
  import opened Wrappers

  /** A row of ReportMessages or ActionMessages: the id of the report or
      action it belongs to, and the message and channel ids as stored text. */
  datatype LinkRow = LinkRow(owner: int, message: string, channel: string)

  /** The row a `select … where report_id = ?` (or `action_id = ?`) returns
      with `fetch_one`/`fetch_optional`: the first one in insertion order. */
  function FindLink(links: seq<LinkRow>, owner: int): (r: Option<LinkRow>)
    ensures r.Some? ==> r.value in links && r.value.owner == owner
    ensures r.None? <==> forall i :: 0 <= i < |links| ==> links[i].owner != owner
    ensures r.Some? ==> exists i :: 0 <= i < |links| && links[i] == r.value &&
                                    forall j :: 0 <= j < i ==> links[j].owner != owner
  {
    if |links| == 0 then None
    else if links[0].owner == owner then Some(links[0])
    else
      match FindLink(links[1..], owner)
      case None => None
      case Some(row) =>
        assert forall i :: 0 <= i < |links| - 1 ==> links[1..][i] == links[i + 1];
        Some(row)
  }

  /** Appending a link never changes what an earlier lookup found: the first
      row for an owner stays the first. A new owner's lookup finds the new row. */
  lemma {:induction false} FindLinkAppend(links: seq<LinkRow>, row: LinkRow, owner: int)
    ensures FindLink(links + [row], owner) ==
              if FindLink(links, owner).Some? then FindLink(links, owner)
              else if row.owner == owner then Some(row)
              else None
  {
    if |links| > 0 {
      assert (links + [row])[1..] == links[1..] + [row];
      FindLinkAppend(links[1..], row, owner);
    }
  }

  /** Rows whose owner is `owner`, in insertion order (a `select … where`). */
  function LinksOf(links: seq<LinkRow>, owner: int): (r: seq<LinkRow>)
    ensures |r| <= |links|
    ensures forall i :: 0 <= i < |r| ==> r[i].owner == owner && r[i] in links
  {
    if |links| == 0 then []
    else (if links[0].owner == owner then [links[0]] else []) + LinksOf(links[1..], owner)
  }

  /** The first row of the owner's rows is what a lookup finds. */
  lemma {:induction false} FindLinkIsFirstOf(links: seq<LinkRow>, owner: int)
    ensures FindLink(links, owner).None? <==> |LinksOf(links, owner)| == 0
    ensures FindLink(links, owner).Some? ==> FindLink(links, owner).value == LinksOf(links, owner)[0]
  {
    if |links| > 0 && links[0].owner != owner {
      FindLinkIsFirstOf(links[1..], owner);
    }
  }

  /** The four tables. `nextReport`/`nextAction` is the rowid SQLite hands out
      to the next insert; rowids start at 1 and are never reused. */
  datatype Tables<R, A> = Tables(
    reports: map<nat, R>,
    actions: map<nat, A>,
    reportLinks: seq<LinkRow>,
    actionLinks: seq<LinkRow>,
    nextReport: nat,
    nextAction: nat)
  {
    ghost predicate Valid() {
      && 1 <= nextReport && 1 <= nextAction
      && (forall k :: k in reports ==> 1 <= k < nextReport)
      && (forall k :: k in actions ==> 1 <= k < nextAction)
    }
  }

  function Empty<R, A>(): (t: Tables<R, A>)
    ensures t.Valid()
    ensures |t.reports| == 0 && |t.actions| == 0 && |t.reportLinks| == 0 && |t.actionLinks| == 0
  {
    Tables(map[], map[], [], [], 1, 1)
  }

  /** `insert into Reports …`: the row gets the next rowid, which is returned. */
  function InsertReport<R, A>(t: Tables<R, A>, row: R): (r: (Tables<R, A>, nat))
    requires t.Valid()
    ensures r.0.Valid()
    ensures r.1 >= 1 && r.1 !in t.reports && r.1 in r.0.reports && r.0.reports[r.1] == row
    ensures forall k :: k in t.reports ==> k in r.0.reports && r.0.reports[k] == t.reports[k]
    ensures r.0.reports.Keys == t.reports.Keys + {r.1}
    ensures r.0.actions == t.actions && r.0.reportLinks == t.reportLinks && r.0.actionLinks == t.actionLinks
    ensures r.0.nextReport == t.nextReport + 1 && r.0.nextAction == t.nextAction
  {
    var id := t.nextReport;
    (t.(reports := t.reports[id := row], nextReport := id + 1), id)
  }

  /** `insert into Actions …`. */
  function InsertAction<R, A>(t: Tables<R, A>, row: A): (r: (Tables<R, A>, nat))
    requires t.Valid()
    ensures r.0.Valid()
    ensures r.1 >= 1 && r.1 !in t.actions && r.1 in r.0.actions && r.0.actions[r.1] == row
    ensures forall k :: k in t.actions ==> k in r.0.actions && r.0.actions[k] == t.actions[k]
    ensures r.0.actions.Keys == t.actions.Keys + {r.1}
    ensures r.0.reports == t.reports && r.0.reportLinks == t.reportLinks && r.0.actionLinks == t.actionLinks
    ensures r.0.nextAction == t.nextAction + 1 && r.0.nextReport == t.nextReport
  {
    var id := t.nextAction;
    (t.(actions := t.actions[id := row], nextAction := id + 1), id)
  }

  /** Two inserts hand out two different ids. */
  lemma InsertReportFresh<R, A>(t: Tables<R, A>, a: R, b: R)
    requires t.Valid()
    ensures InsertReport(InsertReport(t, a).0, b).1 != InsertReport(t, a).1
  {
  }

  /** `update Reports set … where id = ?`: replaces an existing row; an id
      with no row changes nothing, as an SQL update matching no row does. */
  function UpdateReport<R, A>(t: Tables<R, A>, id: int, row: R): (r: Tables<R, A>)
    requires t.Valid()
    ensures r.Valid()
    ensures r.reports.Keys == t.reports.Keys
    ensures id in t.reports ==> r.reports[id] == row
    ensures forall k :: k in t.reports && k != id ==> r.reports[k] == t.reports[k]
    ensures id !in t.reports ==> r == t
    ensures r.actions == t.actions && r.reportLinks == t.reportLinks && r.actionLinks == t.actionLinks
    ensures r.nextReport == t.nextReport && r.nextAction == t.nextAction
  {
    if id >= 0 && id in t.reports then t.(reports := t.reports[id := row]) else t
  }

  /** `update Actions set … where id = ?`. */
  function UpdateAction<R, A>(t: Tables<R, A>, id: int, row: A): (r: Tables<R, A>)
    requires t.Valid()
    ensures r.Valid()
    ensures r.actions.Keys == t.actions.Keys
    ensures id in t.actions ==> r.actions[id] == row
    ensures forall k :: k in t.actions && k != id ==> r.actions[k] == t.actions[k]
    ensures id !in t.actions ==> r == t
    ensures r.reports == t.reports && r.reportLinks == t.reportLinks && r.actionLinks == t.actionLinks
    ensures r.nextReport == t.nextReport && r.nextAction == t.nextAction
  {
    if id >= 0 && id in t.actions then t.(actions := t.actions[id := row]) else t
  }

  /** `insert into ReportMessages (report_id, message, channel) …`. */
  function AddReportLink<R, A>(t: Tables<R, A>, owner: int, message: string, channel: string): (r: Tables<R, A>)
    requires t.Valid()
    ensures r.Valid()
    ensures r.reportLinks == t.reportLinks + [LinkRow(owner, message, channel)]
    ensures r.reports == t.reports && r.actions == t.actions && r.actionLinks == t.actionLinks
    ensures r.nextReport == t.nextReport && r.nextAction == t.nextAction
  {
    t.(reportLinks := t.reportLinks + [LinkRow(owner, message, channel)])
  }

  /** `insert into ActionMessages (action_id, message, channel) …`. */
  function AddActionLink<R, A>(t: Tables<R, A>, owner: int, message: string, channel: string): (r: Tables<R, A>)
    requires t.Valid()
    ensures r.Valid()
    ensures r.actionLinks == t.actionLinks + [LinkRow(owner, message, channel)]
    ensures r.reports == t.reports && r.actions == t.actions && r.reportLinks == t.reportLinks
    ensures r.nextReport == t.nextReport && r.nextAction == t.nextAction
  {
    t.(actionLinks := t.actionLinks + [LinkRow(owner, message, channel)])
  }
}
