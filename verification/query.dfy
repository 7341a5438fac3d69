/** The older bot's `/query` command (`src/commands/query.rs`). The chosen
    subcommand and its options become typed arguments; the arguments become a
    SELECT with one `column = ?` clause per given argument, bound in the same
    order; of the result rows the first ten are kept while all are counted;
    each kept row becomes one line of the answer, with a link to its message
    when both stored ids read as u64. */
module Query {
  import opened Wrappers
  import opened Text
  import opened Fields
  import Common
  import Ui
  import opened Legacy
  import opened LegacyDb
  import Prefabs
  import LegacyMessages

  /** The value Discord sends for one option of the subcommand. */
  datatype OptionValue = StringValue(s: string) | UserValue(user: u64) | OtherValue

  datatype CommandOption = CommandOption(name: string, value: OptionValue)

  /** One top-level option of the command: a subcommand carries its own
      options, anything else carries None. */
  datatype TopOption = TopOption(name: string, sub: Option<seq<CommandOption>>)

  datatype ReportArgs = ReportArgs(status: Option<Status>, claimant: Option<u64>, reporterId: Option<string>,
                                   reportedId: Option<string>)

  datatype ActionArgs = ActionArgs(targetId: Option<string>, claimant: Option<u64>, server: Option<Common.Location>)

  datatype QueryArgs = ReportQuery(r: ReportArgs) | ActionQuery(a: ActionArgs)

  /** `NoOptions` is the panic of indexing an empty option list; the others
      are the command's `bail!`s and serde's refusals. */
  datatype QueryError = NoOptions | InvalidSubcommand | InvalidOptionValue | BadArgument(e: FieldError)

  /* ---------------------------------------------------------------------- */
  /* Options to arguments                                                     */
  /* ---------------------------------------------------------------------- */

  /** The options gathered into a map by name, a later option replacing an
      earlier one of the same name; any option that is neither a string nor a
      user stops the command. */
  function CollectOptions(opts: seq<CommandOption>): (r: Result<map<string, OptionValue>, QueryError>)
    ensures r.Err? <==> exists i :: 0 <= i < |opts| && opts[i].value.OtherValue?
    ensures r.Err? ==> r.error == InvalidOptionValue
  {
    if |opts| == 0 then Ok(map[])
    else
      var init := opts[..|opts| - 1];
      var last := opts[|opts| - 1];
      assert forall i :: 0 <= i < |init| ==> init[i] == opts[i];
      if last.value.OtherValue? then Err(InvalidOptionValue)
      else
        match CollectOptions(init)
        case Err(e) => Err(e)
        case Ok(m) => Ok(m[last.name := last.value])
  }

  /** Gathering one more option adds it to the map, over any earlier one of
      the same name. */
  lemma CollectSnoc(opts: seq<CommandOption>, o: CommandOption)
    requires CollectOptions(opts).Ok? && !o.value.OtherValue?
    ensures CollectOptions(opts + [o]) == Ok(CollectOptions(opts).value[o.name := o.value])
  {
    assert (opts + [o])[..|opts|] == opts;
  }

  /** An option no later option renames is found under its name with its
      own value: the last option of a name wins. */
  lemma {:induction false} CollectLastWins(opts: seq<CommandOption>, i: nat)
    requires CollectOptions(opts).Ok? && i < |opts|
    requires forall j :: i < j < |opts| ==> opts[j].name != opts[i].name
    ensures opts[i].name in CollectOptions(opts).value
    ensures CollectOptions(opts).value[opts[i].name] == opts[i].value
    decreases |opts|
  {
    var init := opts[..|opts| - 1];
    assert opts == init + [opts[|opts| - 1]];
    assert forall j :: 0 <= j < |init| ==> init[j] == opts[j];
    assert CollectOptions(init).Ok?;
    CollectSnoc(init, opts[|opts| - 1]);
    if i < |opts| - 1 {
      CollectLastWins(init, i);
    }
  }

  /** A `String` field: a user option arrives as the user id's decimal text. */
  function StringArg(m: map<string, OptionValue>, name: string): (r: Result<Option<string>, QueryError>)
    ensures name !in m ==> r == Ok(None)
    ensures name in m && m[name].StringValue? ==> r == Ok(Some(m[name].s))
    ensures name in m && m[name].UserValue? ==> r == Ok(Some(DecimalText(m[name].user)))
  {
    if name !in m then Ok(None)
    else
      match m[name]
      case StringValue(s) => Ok(Some(s))
      case UserValue(u) => Ok(Some(DecimalText(u)))
      case OtherValue => Err(BadArgument(InvalidType(name)))
  }

  /** A `UserId` field: a user option, or a string holding a u64. */
  function UserArg(m: map<string, OptionValue>, name: string): (r: Result<Option<u64>, QueryError>)
    ensures name !in m ==> r == Ok(None)
    ensures name in m && m[name].UserValue? ==> r == Ok(Some(m[name].user))
    ensures name in m && m[name].StringValue? ==> (r.Ok? <==> ParseU64(m[name].s).Some?)
  {
    if name !in m then Ok(None)
    else
      match m[name]
      case UserValue(u) => Ok(Some(u))
      case StringValue(s) => if ParseU64(s).Some? then Ok(Some(ParseU64(s).value)) else Err(BadArgument(InvalidType(name)))
      case OtherValue => Err(BadArgument(InvalidType(name)))
  }

  /** The `status` field, read by variant name. */
  function StatusArg(m: map<string, OptionValue>): (r: Result<Option<Status>, QueryError>)
    ensures "status" !in m ==> r == Ok(None)
    ensures r.Ok? && "status" in m ==> r.value.Some? && m["status"].StringValue? &&
                                       LegacyMessages.OldStatusFromName("status", m["status"].s) == Ok(r.value.value)
  {
    if "status" !in m then Ok(None)
    else
      match m["status"]
      case StringValue(s) =>
        (match LegacyMessages.OldStatusFromName("status", s)
         case Ok(st) => Ok(Some(st))
         case Err(e) => Err(BadArgument(e)))
      case _ => Err(BadArgument(InvalidType("status")))
  }

  /** The `server` field, read by variant name. */
  function ServerArg(m: map<string, OptionValue>): (r: Result<Option<Common.Location>, QueryError>)
    ensures "server" !in m ==> r == Ok(None)
    ensures r.Ok? && "server" in m ==> r.value.Some? && m["server"].StringValue? && LocationFromName(m["server"].s) == Ok(r.value.value)
  {
    if "server" !in m then Ok(None)
    else
      match m["server"]
      case StringValue(s) =>
        (match LocationFromName(s)
         case Ok(l) => Ok(Some(l))
         case Err(_) => Err(BadArgument(UnknownVariant("server", s))))
      case _ => Err(BadArgument(InvalidType("server")))
  }

  function ReportArgsOf(m: map<string, OptionValue>): Result<ReportArgs, QueryError> {
    var status :- StatusArg(m);
    var claimant :- UserArg(m, "claimant");
    var reporterId :- StringArg(m, "reporter_id");
    var reportedId :- StringArg(m, "reported_id");
    Ok(ReportArgs(status, claimant, reporterId, reportedId))
  }

  function ActionArgsOf(m: map<string, OptionValue>): Result<ActionArgs, QueryError> {
    var targetId :- StringArg(m, "target_id");
    var claimant :- UserArg(m, "claimant");
    var server :- ServerArg(m);
    Ok(ActionArgs(targetId, claimant, server))
  }

  /** The command's first option picks the subcommand by name; its options
      are gathered and read into that subcommand's arguments. */
  function ParseCommand(options: seq<TopOption>): (r: Result<QueryArgs, QueryError>)
    ensures |options| == 0 ==> r == Err(NoOptions)
    ensures r.Ok? ==> options[0].sub.Some?
    ensures r.Ok? && r.value.ReportQuery? ==> options[0].name == "reports"
    ensures r.Ok? && r.value.ActionQuery? ==> options[0].name == "actions"
    ensures |options| > 0 && options[0].name != "reports" && options[0].name != "actions" ==> r == Err(InvalidSubcommand)
  {
    if |options| == 0 then Err(NoOptions)
    else if options[0].sub.None? || (options[0].name != "reports" && options[0].name != "actions") then Err(InvalidSubcommand)
    else
      var m :- CollectOptions(options[0].sub.value);
      if options[0].name == "reports" then
        var a :- ReportArgsOf(m);
        Ok(ReportQuery(a))
      else
        var a :- ActionArgsOf(m);
        Ok(ActionQuery(a))
  }

  /** An option Discord sends only when its argument is given. */
  function Sent(name: string, v: Option<OptionValue>): (o: seq<CommandOption>)
    ensures |o| <= 1
  {
    if v.Some? then [CommandOption(name, v.value)] else []
  }

  /** The map after gathering at most one more option. */
  function Put(m: map<string, OptionValue>, o: seq<CommandOption>): map<string, OptionValue>
    requires |o| <= 1
  {
    if |o| == 0 then m else m[o[0].name := o[0].value]
  }

  /** Gathering an option sent under `name` touches that key only. */
  lemma PutSent(m: map<string, OptionValue>, name: string, v: Option<OptionValue>)
    ensures name in Put(m, Sent(name, v)) <==> v.Some? || name in m
    ensures v.Some? ==> Put(m, Sent(name, v))[name] == v.value
    ensures forall k :: k != name ==> (k in Put(m, Sent(name, v)) <==> k in m)
    ensures forall k :: k != name && k in m ==> Put(m, Sent(name, v))[k] == m[k]
  {
  }

  lemma CollectSent(opts: seq<CommandOption>, name: string, v: Option<OptionValue>)
    requires CollectOptions(opts).Ok? && (v.Some? ==> !v.value.OtherValue?)
    ensures CollectOptions(opts + Sent(name, v)) == Ok(Put(CollectOptions(opts).value, Sent(name, v)))
  {
    if v.Some? {
      CollectSnoc(opts, CommandOption(name, v.value));
    } else {
      assert opts + [] == opts;
    }
  }

  /** The variant name of a status, as the command's choices spell it. */
  function StatusName(s: Status): (t: string)
    ensures LegacyMessages.OldStatusFromName("status", t) == Ok(s)
  {
    match s
    case Open => "Open"
    case Claimed => "Claimed"
    case Closed => "Closed"
  }

  function StatusOption(s: Option<Status>): Option<OptionValue> {
    if s.Some? then Some(StringValue(StatusName(s.value))) else None
  }

  function UserOption(u: Option<u64>): Option<OptionValue> {
    if u.Some? then Some(UserValue(u.value)) else None
  }

  function TextOption(t: Option<string>): Option<OptionValue> {
    if t.Some? then Some(StringValue(t.value)) else None
  }

  function ServerOption(l: Option<Common.Location>): Option<OptionValue> {
    if l.Some? then Some(StringValue(Prefabs.LocationName(l.value))) else None
  }

  /** The options Discord sends for given arguments, each under its name. */
  function ReportOptions(a: ReportArgs): seq<CommandOption> {
    Sent("status", StatusOption(a.status)) + Sent("claimant", UserOption(a.claimant))
    + Sent("reporter_id", TextOption(a.reporterId)) + Sent("reported_id", TextOption(a.reportedId))
  }

  function ActionOptions(a: ActionArgs): seq<CommandOption> {
    Sent("target_id", TextOption(a.targetId)) + Sent("claimant", UserOption(a.claimant))
    + Sent("server", ServerOption(a.server))
  }

  function CommandOf(q: QueryArgs): seq<TopOption> {
    match q
    case ReportQuery(a) => [TopOption("reports", Some(ReportOptions(a)))]
    case ActionQuery(a) => [TopOption("actions", Some(ActionOptions(a)))]
  }

  lemma ReportArgsOfMap(m: map<string, OptionValue>, a: ReportArgs)
    requires ("status" in m <==> a.status.Some?) && (a.status.Some? ==> m["status"] == StringValue(StatusName(a.status.value)))
    requires ("claimant" in m <==> a.claimant.Some?) && (a.claimant.Some? ==> m["claimant"] == UserValue(a.claimant.value))
    requires ("reporter_id" in m <==> a.reporterId.Some?) && (a.reporterId.Some? ==> m["reporter_id"] == StringValue(a.reporterId.value))
    requires ("reported_id" in m <==> a.reportedId.Some?) && (a.reportedId.Some? ==> m["reported_id"] == StringValue(a.reportedId.value))
    ensures ReportArgsOf(m) == Ok(a)
  {
    assert StatusArg(m) == Ok(a.status);
    assert UserArg(m, "claimant") == Ok(a.claimant);
    assert StringArg(m, "reporter_id") == Ok(a.reporterId);
    assert StringArg(m, "reported_id") == Ok(a.reportedId);
  }

  /** The map gathered from a report query's options. */
  function ReportMap(a: ReportArgs): map<string, OptionValue> {
    Put(Put(Put(Put(map[], Sent("status", StatusOption(a.status))), Sent("claimant", UserOption(a.claimant))),
            Sent("reporter_id", TextOption(a.reporterId))), Sent("reported_id", TextOption(a.reportedId)))
  }

  lemma CollectReportOptions(a: ReportArgs)
    ensures CollectOptions(ReportOptions(a)) == Ok(ReportMap(a))
  {
    var s := Sent("status", StatusOption(a.status));
    var c := Sent("claimant", UserOption(a.claimant));
    var r := Sent("reporter_id", TextOption(a.reporterId));
    assert [] + s == s;
    CollectSent([], "status", StatusOption(a.status));
    CollectSent(s, "claimant", UserOption(a.claimant));
    CollectSent(s + c, "reporter_id", TextOption(a.reporterId));
    CollectSent(s + c + r, "reported_id", TextOption(a.reportedId));
  }

  lemma ReportMapHolds(a: ReportArgs)
    ensures var m := ReportMap(a);
            && ("status" in m <==> a.status.Some?) && (a.status.Some? ==> m["status"] == StringValue(StatusName(a.status.value)))
            && ("claimant" in m <==> a.claimant.Some?) && (a.claimant.Some? ==> m["claimant"] == UserValue(a.claimant.value))
            && ("reporter_id" in m <==> a.reporterId.Some?) && (a.reporterId.Some? ==> m["reporter_id"] == StringValue(a.reporterId.value))
            && ("reported_id" in m <==> a.reportedId.Some?) && (a.reportedId.Some? ==> m["reported_id"] == StringValue(a.reportedId.value))
  {
    var m1 := Put(map[], Sent("status", StatusOption(a.status)));
    var m2 := Put(m1, Sent("claimant", UserOption(a.claimant)));
    var m3 := Put(m2, Sent("reporter_id", TextOption(a.reporterId)));
    PutSent(map[], "status", StatusOption(a.status));
    PutSent(m1, "claimant", UserOption(a.claimant));
    PutSent(m2, "reporter_id", TextOption(a.reporterId));
    PutSent(m3, "reported_id", TextOption(a.reportedId));
    assert "reported_id"[7] != "reporter_id"[7];
  }

  lemma ReportArgsOfOptions(a: ReportArgs)
    ensures CollectOptions(ReportOptions(a)).Ok?
    ensures ReportArgsOf(CollectOptions(ReportOptions(a)).value) == Ok(a)
  {
    CollectReportOptions(a);
    ReportMapHolds(a);
    ReportArgsOfMap(ReportMap(a), a);
  }

  lemma ActionArgsOfMap(m: map<string, OptionValue>, a: ActionArgs)
    requires ("target_id" in m <==> a.targetId.Some?) && (a.targetId.Some? ==> m["target_id"] == StringValue(a.targetId.value))
    requires ("claimant" in m <==> a.claimant.Some?) && (a.claimant.Some? ==> m["claimant"] == UserValue(a.claimant.value))
    requires ("server" in m <==> a.server.Some?) && (a.server.Some? ==> m["server"] == StringValue(Prefabs.LocationName(a.server.value)))
    ensures ActionArgsOf(m) == Ok(a)
  {
    assert StringArg(m, "target_id") == Ok(a.targetId);
    assert UserArg(m, "claimant") == Ok(a.claimant);
    assert ServerArg(m) == Ok(a.server);
  }

  function ActionMap(a: ActionArgs): map<string, OptionValue> {
    Put(Put(Put(map[], Sent("target_id", TextOption(a.targetId))), Sent("claimant", UserOption(a.claimant))),
        Sent("server", ServerOption(a.server)))
  }

  lemma CollectActionOptions(a: ActionArgs)
    ensures CollectOptions(ActionOptions(a)) == Ok(ActionMap(a))
  {
    var t := Sent("target_id", TextOption(a.targetId));
    var c := Sent("claimant", UserOption(a.claimant));
    assert [] + t == t;
    CollectSent([], "target_id", TextOption(a.targetId));
    CollectSent(t, "claimant", UserOption(a.claimant));
    CollectSent(t + c, "server", ServerOption(a.server));
  }

  lemma ActionMapHolds(a: ActionArgs)
    ensures var m := ActionMap(a);
            && ("target_id" in m <==> a.targetId.Some?) && (a.targetId.Some? ==> m["target_id"] == StringValue(a.targetId.value))
            && ("claimant" in m <==> a.claimant.Some?) && (a.claimant.Some? ==> m["claimant"] == UserValue(a.claimant.value))
            && ("server" in m <==> a.server.Some?) && (a.server.Some? ==> m["server"] == StringValue(Prefabs.LocationName(a.server.value)))
  {
    var m1 := Put(map[], Sent("target_id", TextOption(a.targetId)));
    var m2 := Put(m1, Sent("claimant", UserOption(a.claimant)));
    PutSent(map[], "target_id", TextOption(a.targetId));
    PutSent(m1, "claimant", UserOption(a.claimant));
    PutSent(m2, "server", ServerOption(a.server));
  }

  lemma ActionArgsOfOptions(a: ActionArgs)
    ensures CollectOptions(ActionOptions(a)).Ok?
    ensures ActionArgsOf(CollectOptions(ActionOptions(a)).value) == Ok(a)
  {
    CollectActionOptions(a);
    ActionMapHolds(a);
    ActionArgsOfMap(ActionMap(a), a);
  }

  /** Every set of arguments the command offers is read back from the
      options Discord sends for it. */
  lemma ParseCommandRoundTrip(q: QueryArgs)
    ensures ParseCommand(CommandOf(q)) == Ok(q)
  {
    match q
    case ReportQuery(a) => ReportArgsOfOptions(a);
    case ActionQuery(a) => ActionArgsOfOptions(a);
  }

  /** The command registers an "Expired" status choice, which the
      three-valued status cannot take: choosing it ends the command with an
      error. */
  lemma ExpiredChoiceRejected(rest: seq<CommandOption>)
    requires forall i :: 0 <= i < |rest| ==> rest[i].value.StringValue? && rest[i].name != "status"
    ensures ParseCommand([TopOption("reports", Some([CommandOption("status", StringValue("Expired"))] + rest))])
            == Err(BadArgument(UnknownVariant("status", "Expired")))
  {
    var opts := [CommandOption("status", StringValue("Expired"))] + rest;
    assert forall i :: 0 <= i < |opts| ==> !opts[i].value.OtherValue?;
    assert forall j :: 0 < j < |opts| ==> opts[j].name != opts[0].name;
    CollectLastWins(opts, 0);
  }

  /* ---------------------------------------------------------------------- */
  /* Arguments to SQL                                                         */
  /* ---------------------------------------------------------------------- */

  /** One `column = ?` clause with the text bound to its placeholder. */
  datatype Filter = Filter(column: string, value: string)

  /** A filter present only when its argument is given. */
  function FilterIf(column: string, v: Option<string>): (fs: seq<Filter>)
    ensures |fs| <= 1
  {
    if v.Some? then [Filter(column, v.value)] else []
  }

  function StatusBind(s: Option<Status>): Option<string> {
    if s.Some? then Some(StatusText(s.value)) else None
  }

  function UserBind(u: Option<u64>): Option<string> {
    if u.Some? then Some(DecimalText(u.value)) else None
  }

  function ServerBind(l: Option<Common.Location>): Option<string> {
    if l.Some? then Some(Common.LocationText(l.value)) else None
  }

  /** Report filters, in the order status, claimant, reporter_id,
      reported_id. A status is bound as its stored lowercase text and a
      claimant as its decimal text. */
  function ReportFilters(a: ReportArgs): seq<Filter> {
    FilterIf("report_status", StatusBind(a.status)) + FilterIf("claimant", UserBind(a.claimant))
    + FilterIf("reporter_id", a.reporterId) + FilterIf("reported_id", a.reportedId)
  }

  /** Action filters, in the order target_id, claimant, server; a server is
      bound as its stored lowercase text. */
  function ActionFilters(a: ActionArgs): seq<Filter> {
    FilterIf("target_id", a.targetId) + FilterIf("claimant", UserBind(a.claimant)) + FilterIf("server", ServerBind(a.server))
  }

  function Filters(q: QueryArgs): seq<Filter> {
    match q
    case ReportQuery(a) => ReportFilters(a)
    case ActionQuery(a) => ActionFilters(a)
  }

  const ReportSelect: string :=
    "select reporter_id, " + "reporter_name, " + "reported_id, " + "reported_name, " + "report_reason, " +
    "report_status " + "as \"report_status: " + "ReportStatus\", " + "server, time, " + "claimant, audit, " +
    "id, channel, " + "message " + "from Reports " + "left join " + "ReportMessages RM " + "on Reports.id " +
    "= RM.report_id"

  const ActionSelect: string :=
    "select target_id, " + "target_username, " + "offense, action, " + "server as " + "\"server: Location\", " +
    "claimant, report, " + "id, channel, " + "message " + "from Actions " + "left join " + "ActionMessages " +
    "on Actions.id " + "= ActionMessages." + "action_id"

  const OrderBy: string := " order by id desc;"

  function Select(q: QueryArgs): string {
    if q.ReportQuery? then ReportSelect else ActionSelect
  }

  function Clause(f: Filter): string {
    f.column + " = ?"
  }

  function Clauses(fs: seq<Filter>): (cs: seq<string>)
    ensures |cs| == |fs| && forall i :: 0 <= i < |fs| ==> cs[i] == Clause(fs[i])
  {
    if |fs| == 0 then [] else [Clause(fs[0])] + Clauses(fs[1..])
  }

  function Columns(fs: seq<Filter>): (cs: seq<string>)
    ensures |cs| == |fs| && forall i :: 0 <= i < |fs| ==> cs[i] == fs[i].column
  {
    if |fs| == 0 then [] else [fs[0].column] + Columns(fs[1..])
  }

  function Values(fs: seq<Filter>): (vs: seq<string>)
    ensures |vs| == |fs| && forall i :: 0 <= i < |fs| ==> vs[i] == fs[i].value
  {
    if |fs| == 0 then [] else [fs[0].value] + Values(fs[1..])
  }

  function WherePart(fs: seq<Filter>): string {
    if |fs| == 0 then "" else " where " + Join(Clauses(fs), " and ")
  }

  /** The statement text and the texts bound to its placeholders, in order. */
  datatype Statement = Statement(sql: string, binds: seq<string>)

  function BuildQuery(q: QueryArgs): (s: Statement)
    ensures s.binds == Values(Filters(q))
  {
    Statement(Select(q) + WherePart(Filters(q)) + OrderBy, Values(Filters(q)))
  }

  /* Reading a statement back */

  predicate EndsWith(s: string, suffix: string) {
    |suffix| <= |s| && s[|s| - |suffix|..] == suffix
  }

  /** The columns of `c1 = ? and c2 = ? …`, read at each placeholder. */
  function ReadClauses(body: string): Option<seq<string>>
    decreases |body|
  {
    match SplitOnce(body, '?')
    case None => None
    case Some((clause, rest)) =>
      if !EndsWith(clause, " = ") then None
      else
        var column := clause[..|clause| - 3];
        if rest == "" then Some([column])
        else if StartsWith(rest, " and ") then
          match ReadClauses(rest[5..])
          case None => None
          case Some(cs) => Some([column] + cs)
        else None
  }

  /** The filtered columns of a statement over `select`, or None when the
      text is not such a statement. */
  function ReadQuery(sql: string, select: string): Option<seq<string>> {
    if !StartsWith(sql, select) || |sql| < |select| + |OrderBy| || !EndsWith(sql, OrderBy) then None
    else
      var middle := sql[|select|..|sql| - |OrderBy|];
      if middle == "" then Some([])
      else if StartsWith(middle, " where ") then ReadClauses(middle[7..])
      else None
  }

  predicate NoPlaceholder(fs: seq<Filter>) {
    forall i :: 0 <= i < |fs| ==> '?' !in fs[i].column
  }

  lemma {:induction false} ReadClausesOfJoin(fs: seq<Filter>)
    requires |fs| > 0 && NoPlaceholder(fs)
    ensures ReadClauses(Join(Clauses(fs), " and ")) == Some(Columns(fs))
    decreases |fs|
  {
    var col := fs[0].column;
    var head := col + " = ";
    assert '?' !in head;
    assert EndsWith(head, " = ") && head[..|head| - 3] == col;
    if |fs| == 1 {
      assert Join(Clauses(fs), " and ") == head + ['?'] + "";
      SplitOnceOfJoin(head, '?', "");
      assert Columns(fs) == [col];
    } else {
      var tail := Join(Clauses(fs[1..]), " and ");
      assert Clauses(fs)[1..] == Clauses(fs[1..]);
      assert Join(Clauses(fs), " and ") == head + ['?'] + (" and " + tail);
      SplitOnceOfJoin(head, '?', " and " + tail);
      StartsWithConcat(" and ", tail);
      assert NoPlaceholder(fs[1..]);
      ReadClausesOfJoin(fs[1..]);
      assert Columns(fs) == [col] + Columns(fs[1..]);
    }
  }

  lemma NoPlaceholderAppend(fs: seq<Filter>, gs: seq<Filter>)
    requires NoPlaceholder(fs) && NoPlaceholder(gs)
    ensures NoPlaceholder(fs + gs)
  {
    forall i | 0 <= i < |fs + gs| ensures '?' !in (fs + gs)[i].column {
      if i >= |fs| {
        assert (fs + gs)[i] == gs[i - |fs|];
      }
    }
  }

  lemma FilterIfClean(column: string, v: Option<string>)
    requires '?' !in column
    ensures NoPlaceholder(FilterIf(column, v))
  {
  }

  lemma ReportFiltersClean(a: ReportArgs)
    ensures NoPlaceholder(ReportFilters(a))
  {
    var s := FilterIf("report_status", StatusBind(a.status));
    var c := FilterIf("claimant", UserBind(a.claimant));
    var r := FilterIf("reporter_id", a.reporterId);
    var d := FilterIf("reported_id", a.reportedId);
    FilterIfClean("report_status", StatusBind(a.status));
    FilterIfClean("claimant", UserBind(a.claimant));
    FilterIfClean("reporter_id", a.reporterId);
    FilterIfClean("reported_id", a.reportedId);
    NoPlaceholderAppend(s, c);
    NoPlaceholderAppend(s + c, r);
    NoPlaceholderAppend(s + c + r, d);
  }

  lemma ActionFiltersClean(a: ActionArgs)
    ensures NoPlaceholder(ActionFilters(a))
  {
    var t := FilterIf("target_id", a.targetId);
    var c := FilterIf("claimant", UserBind(a.claimant));
    var v := FilterIf("server", ServerBind(a.server));
    FilterIfClean("target_id", a.targetId);
    FilterIfClean("claimant", UserBind(a.claimant));
    FilterIfClean("server", ServerBind(a.server));
    NoPlaceholderAppend(t, c);
    NoPlaceholderAppend(t + c, v);
  }

  lemma FiltersHaveNoPlaceholder(q: QueryArgs)
    ensures NoPlaceholder(Filters(q))
  {
    match q
    case ReportQuery(a) => ReportFiltersClean(a);
    case ActionQuery(a) => ActionFiltersClean(a);
  }

  /** Any SELECT text followed by the WHERE part of placeholder-free filters
      and the ordering reads back to the filtered columns. */
  lemma StatementReadsBack(select: string, fs: seq<Filter>)
    requires NoPlaceholder(fs)
    ensures ReadQuery(select + WherePart(fs) + OrderBy, select) == Some(Columns(fs))
  {
    var w := WherePart(fs);
    var sql := select + w + OrderBy;
    assert sql[..|select|] == select;
    assert sql[|sql| - |OrderBy|..] == OrderBy;
    assert sql[|select|..|sql| - |OrderBy|] == w;
    if |fs| > 0 {
      StartsWithConcat(" where ", Join(Clauses(fs), " and "));
      ReadClausesOfJoin(fs);
    }
  }

  /** The WHERE part holds one placeholder per filter. */
  lemma WherePlaceholders(fs: seq<Filter>)
    requires NoPlaceholder(fs)
    ensures CountChar(WherePart(fs), '?') == |fs|
  {
    if |fs| > 0 {
      JoinPlaceholders(fs);
      CountCharAbsent(" where ", '?');
      CountCharAppend(" where ", Join(Clauses(fs), " and "), '?');
    }
  }

  lemma OrderByClean()
    ensures CountChar(OrderBy, '?') == 0
  {
    assert '?' !in OrderBy;
    CountCharAbsent(OrderBy, '?');
  }

  /** A placeholder-free SELECT text followed by the WHERE part holds one
      placeholder per filter. */
  lemma StatementPlaceholders(select: string, fs: seq<Filter>)
    requires '?' !in select && NoPlaceholder(fs)
    ensures CountChar(select + WherePart(fs) + OrderBy, '?') == |fs|
  {
    WherePlaceholders(fs);
    OrderByClean();
    CountCharAbsent(select, '?');
    CountCharAppend(select, WherePart(fs), '?');
    CountCharAppend(select + WherePart(fs), OrderBy, '?');
  }


  /** The statement reads back to exactly the filtered columns, in order:
      no filter gives no WHERE clause, and otherwise one clause per filter
      joined by " and "; the text always ends with the ordering. */
  lemma QueryReadsBack(q: QueryArgs)
    ensures ReadQuery(BuildQuery(q).sql, Select(q)) == Some(Columns(Filters(q)))
    ensures EndsWith(BuildQuery(q).sql, OrderBy)
  {
    var sql := BuildQuery(q).sql;
    assert sql == Select(q) + WherePart(Filters(q)) + OrderBy;
    assert sql[|sql| - |OrderBy|..] == OrderBy;
    FiltersHaveNoPlaceholder(q);
    StatementReadsBack(Select(q), Filters(q));
  }

  lemma {:induction false} JoinPlaceholders(fs: seq<Filter>)
    requires NoPlaceholder(fs)
    ensures CountChar(Join(Clauses(fs), " and "), '?') == |fs|
    decreases |fs|
  {
    if |fs| == 1 {
      var c := fs[0].column + " = ";
      assert Join(Clauses(fs), " and ") == c + "?";
      CountCharAbsent(c, '?');
      CountCharAppend(c, "?", '?');
    } else if |fs| > 1 {
      var c := fs[0].column + " = ";
      var tail := Join(Clauses(fs[1..]), " and ");
      assert Clauses(fs)[1..] == Clauses(fs[1..]);
      assert Join(Clauses(fs), " and ") == c + ("?" + (" and " + tail));
      assert NoPlaceholder(fs[1..]);
      JoinPlaceholders(fs[1..]);
      CountCharAbsent(c, '?');
      CountCharAbsent(" and ", '?');
      CountCharAppend(" and ", tail, '?');
      CountCharAppend("?", " and " + tail, '?');
      CountCharAppend(c, "?" + (" and " + tail), '?');
    }
  }

  /** Neither SELECT text holds a placeholder; the texts are checked a few
      words at a time. */
  lemma ReportSelectClean()
    ensures '?' !in ReportSelect
  {
    ReportSelectClean1();
    ReportSelectClean2();
    ReportSelectClean3();
    ReportSelectClean4();
    ReportSelectClean5();
  }

  lemma ReportSelectClean1()
    ensures '?' !in "select reporter_id, "
    ensures '?' !in "reporter_name, "
    ensures '?' !in "reported_id, "
    ensures '?' !in "reported_name, "
  {
  }

  lemma ReportSelectClean2()
    ensures '?' !in "report_reason, "
    ensures '?' !in "report_status "
    ensures '?' !in "as \"report_status: "
    ensures '?' !in "ReportStatus\", "
  {
  }

  lemma ReportSelectClean3()
    ensures '?' !in "server, time, "
    ensures '?' !in "claimant, audit, "
    ensures '?' !in "id, channel, "
    ensures '?' !in "message "
  {
  }

  lemma ReportSelectClean4()
    ensures '?' !in "from Reports "
    ensures '?' !in "left join "
    ensures '?' !in "ReportMessages RM "
    ensures '?' !in "on Reports.id "
  {
  }

  lemma ReportSelectClean5()
    ensures '?' !in "= RM.report_id"
  {
  }

  lemma ActionSelectClean()
    ensures '?' !in ActionSelect
  {
    ActionSelectClean1();
    ActionSelectClean2();
    ActionSelectClean3();
    ActionSelectClean4();
  }

  lemma ActionSelectClean1()
    ensures '?' !in "select target_id, "
    ensures '?' !in "target_username, "
    ensures '?' !in "offense, action, "
    ensures '?' !in "server as "
  {
  }

  lemma ActionSelectClean2()
    ensures '?' !in "\"server: Location\", "
    ensures '?' !in "claimant, report, "
    ensures '?' !in "id, channel, "
    ensures '?' !in "message "
  {
  }

  lemma ActionSelectClean3()
    ensures '?' !in "from Actions "
    ensures '?' !in "left join "
    ensures '?' !in "ActionMessages "
    ensures '?' !in "on Actions.id "
  {
  }

  lemma ActionSelectClean4()
    ensures '?' !in "= ActionMessages."
    ensures '?' !in "action_id"
  {
  }

  /** The number of `?` placeholders equals the number of bound texts. */
  lemma PlaceholdersMatchBinds(q: QueryArgs)
    ensures CountChar(BuildQuery(q).sql, '?') == |BuildQuery(q).binds|
  {
    if q.ReportQuery? { ReportSelectClean(); } else { ActionSelectClean(); }
    FiltersHaveNoPlaceholder(q);
    StatementPlaceholders(Select(q), Filters(q));
  }


  /* What the WHERE clause selects */

  /** The text of a report column, None for NULL. */
  function ReportColumn(row: ReportRow, column: string): Option<string> {
    if column == "report_status" then Some(row.reportStatus)
    else if column == "claimant" then row.claimant
    else if column == "reporter_id" then Some(row.reporterId)
    else if column == "reported_id" then Some(row.reportedId)
    else None
  }

  function ActionColumn(row: ActionRow, column: string): Option<string> {
    if column == "target_id" then Some(row.targetId)
    else if column == "claimant" then Some(row.claimant)
    else if column == "server" then Some(row.server)
    else None
  }

  /** A row passes `c1 = ? and …` when every column equals its bound text;
      a NULL column equals nothing. */
  predicate ReportPasses(row: ReportRow, fs: seq<Filter>) {
    forall i :: 0 <= i < |fs| ==> ReportColumn(row, fs[i].column) == Some(fs[i].value)
  }

  predicate ActionPasses(row: ActionRow, fs: seq<Filter>) {
    forall i :: 0 <= i < |fs| ==> ActionColumn(row, fs[i].column) == Some(fs[i].value)
  }

  /** What the arguments ask of a report, field by field. */
  predicate ReportWanted(row: ReportRow, a: ReportArgs) {
    && (a.status.Some? ==> StatusFromText(row.reportStatus) == a.status)
    && (a.claimant.Some? ==> row.claimant == Some(DecimalText(a.claimant.value)))
    && (a.reporterId.Some? ==> row.reporterId == a.reporterId.value)
    && (a.reportedId.Some? ==> row.reportedId == a.reportedId.value)
  }

  predicate ActionWanted(row: ActionRow, a: ActionArgs) {
    && (a.targetId.Some? ==> row.targetId == a.targetId.value)
    && (a.claimant.Some? ==> row.claimant == DecimalText(a.claimant.value))
    && (a.server.Some? ==> Common.LocationFromText(row.server) == a.server)
  }

  lemma ReportPassesAppend(row: ReportRow, fs: seq<Filter>, gs: seq<Filter>)
    ensures ReportPasses(row, fs + gs) <==> ReportPasses(row, fs) && ReportPasses(row, gs)
  {
    assert forall i :: 0 <= i < |fs| ==> (fs + gs)[i] == fs[i];
    assert forall i :: 0 <= i < |gs| ==> (fs + gs)[|fs| + i] == gs[i];
  }

  lemma ReportPassesIf(row: ReportRow, column: string, v: Option<string>)
    ensures ReportPasses(row, FilterIf(column, v)) <==> (v.Some? ==> ReportColumn(row, column) == v)
  {
    if v.Some? {
      assert FilterIf(column, v)[0] == Filter(column, v.value);
    }
  }

  /** The status clause holds exactly for a row whose status reads as the
      asked one. */
  lemma StatusClauseMeaning(row: ReportRow, s: Status)
    ensures row.reportStatus == StatusText(s) <==> StatusFromText(row.reportStatus) == Some(s)
  {
    StatusTextRoundTrip(s);
    if StatusFromText(row.reportStatus) == Some(s) {
      StatusFromTextInverse(row.reportStatus, s);
    }
  }

  /** The WHERE clause selects exactly the reports the arguments ask for. */
  lemma ReportWhereMeaning(row: ReportRow, a: ReportArgs)
    ensures ReportPasses(row, ReportFilters(a)) <==> ReportWanted(row, a)
  {
    var s := FilterIf("report_status", StatusBind(a.status));
    var c := FilterIf("claimant", UserBind(a.claimant));
    var r := FilterIf("reporter_id", a.reporterId);
    var d := FilterIf("reported_id", a.reportedId);
    ReportPassesAppend(row, s, c);
    ReportPassesAppend(row, s + c, r);
    ReportPassesAppend(row, s + c + r, d);
    ReportPassesIf(row, "report_status", StatusBind(a.status));
    ReportPassesIf(row, "claimant", UserBind(a.claimant));
    ReportPassesIf(row, "reporter_id", a.reporterId);
    ReportPassesIf(row, "reported_id", a.reportedId);
    if a.status.Some? {
      StatusClauseMeaning(row, a.status.value);
    }
  }

  lemma ActionPassesAppend(row: ActionRow, fs: seq<Filter>, gs: seq<Filter>)
    ensures ActionPasses(row, fs + gs) <==> ActionPasses(row, fs) && ActionPasses(row, gs)
  {
    assert forall i :: 0 <= i < |fs| ==> (fs + gs)[i] == fs[i];
    assert forall i :: 0 <= i < |gs| ==> (fs + gs)[|fs| + i] == gs[i];
  }

  lemma ActionPassesIf(row: ActionRow, column: string, v: Option<string>)
    ensures ActionPasses(row, FilterIf(column, v)) <==> (v.Some? ==> ActionColumn(row, column) == v)
  {
    if v.Some? {
      assert FilterIf(column, v)[0] == Filter(column, v.value);
    }
  }

  /** The WHERE clause selects exactly the actions the arguments ask for. */
  lemma ActionWhereMeaning(row: ActionRow, a: ActionArgs)
    ensures ActionPasses(row, ActionFilters(a)) <==> ActionWanted(row, a)
  {
    var t := FilterIf("target_id", a.targetId);
    var c := FilterIf("claimant", UserBind(a.claimant));
    var v := FilterIf("server", ServerBind(a.server));
    ActionPassesAppend(row, t, c);
    ActionPassesAppend(row, t + c, v);
    ActionPassesIf(row, "target_id", a.targetId);
    ActionPassesIf(row, "claimant", UserBind(a.claimant));
    ActionPassesIf(row, "server", ServerBind(a.server));
    if a.server.Some? {
      Common.LocationRoundTrip(a.server.value);
      if Common.LocationFromText(row.server) == a.server {
        Common.LocationFromTextInverse(row.server, a.server.value);
      }
    }
  }

  /* ---------------------------------------------------------------------- */
  /* Result rows                                                              */
  /* ---------------------------------------------------------------------- */

  /** What the row stream yields: a statement summary, or a row. */
  datatype Fetched<T> = Summary | Row(row: T)

  /** The rows of a stream, in order. */
  function Rows<T>(items: seq<Fetched<T>>): (rs: seq<T>)
    ensures |rs| <= |items|
  {
    if |items| == 0 then []
    else
      var last := items[|items| - 1];
      Rows(items[..|items| - 1]) + (if last.Row? then [last.row] else [])
  }

  const ResultsCount: nat := 10

  function Min(a: nat, b: nat): nat {
    if a <= b then a else b
  }

  /** The fetch loop: every row is counted, only the first ten are kept. */
  method CollectRows<T>(items: seq<Fetched<T>>) returns (kept: seq<T>, count: nat)
    ensures count == |Rows(items)|
    ensures kept == Rows(items)[..Min(ResultsCount, count)]
  {
    kept := [];
    count := 0;
    var i := 0;
    while i < |items|
      invariant 0 <= i <= |items|
      invariant count == |Rows(items[..i])|
      invariant kept == Rows(items[..i])[..Min(ResultsCount, count)]
      decreases |items| - i
    {
      assert items[..i + 1][..i] == items[..i];
      if items[i].Row? {
        count := count + 1;
        if |kept| < ResultsCount {
          kept := kept + [items[i].row];
        }
      }
      i := i + 1;
    }
    assert items[..i] == items;
  }

  /** A joined report row: the report's id and columns and, from a matching
      link row if any, its channel and message texts. */
  datatype ReportHit = ReportHit(id: int, row: ReportRow, channel: Option<string>, message: Option<string>)

  datatype ActionHit = ActionHit(id: int, row: ActionRow, channel: Option<string>, message: Option<string>)

  /** The link to a result's message when both texts read as u64, else the
      given text. */
  function LinkOrElse(channel: Option<string>, message: Option<string>, missing: string): string {
    if channel.Some? && message.Some? && ParseU64(channel.value).Some? && ParseU64(message.value).Some? then
      Ui.MessageLink(ParseU64(channel.value).value, ParseU64(message.value).value)
    else missing
  }

  /** A link row written by the bot (decimal ids) shows as the message
      link; a missing link row shows the fallback text. */
  lemma LinkShown(channel: u64, message: u64, missing: string)
    ensures LinkOrElse(Some(DecimalText(channel)), Some(DecimalText(message)), missing) == Ui.MessageLink(channel, message)
    ensures LinkOrElse(None, Some(DecimalText(message)), missing) == missing
    ensures LinkOrElse(Some(DecimalText(channel)), None, missing) == missing
  {
    ParseU64RoundTrip(channel);
    ParseU64RoundTrip(message);
  }

  const LinkPrefix: string := "https://discord.com/channels/@me/"

  /** Every message link starts with the same prefix, so a fallback text
      that does not start with it is never mistaken for a link. */
  lemma LinkNotFallback(channel: u64, message: u64, missing: string)
    requires !StartsWith(missing, LinkPrefix)
    ensures StartsWith(Ui.MessageLink(channel, message), LinkPrefix)
    ensures Ui.MessageLink(channel, message) != missing
  {
    var rest := DecimalText(channel) + "/" + DecimalText(message);
    assert Ui.MessageLink(channel, message) == LinkPrefix + rest;
    StartsWithConcat(LinkPrefix, rest);
  }

  /** The report the line's status text is made from: status, claimant and
      audit from the row, the rest defaulted. */
  function StatusReport(s: Status, row: ReportRow): Report {
    Report("", "", "", "", "", s, "", "", row.claimant, row.audit)
  }

  /** One report line, or None where the bot panics: a status text that is
      not one of the three, or an audit that is not a u64. */
  function ReportLine(hit: ReportHit, slAudit: u64): (line: Option<string>)
    ensures line.Some? <==> StatusFromText(hit.row.reportStatus).Some? &&
                            StatusString(StatusReport(StatusFromText(hit.row.reportStatus).value, hit.row), slAudit).Some?
  {
    var link := LinkOrElse(hit.channel, hit.message, "No report message");
    match StatusFromText(hit.row.reportStatus)
    case None => None
    case Some(s) =>
      match StatusString(StatusReport(s, hit.row), slAudit)
      case None => None
      case Some(st) =>
        Some("* " + IntText(hit.id) + ": " + hit.row.reporterName + " (`" + hit.row.reporterId + "`) reported "
             + hit.row.reportedName + " (`" + hit.row.reportedId + "`) for '" + hit.row.reportReason + "' ("
             + st + ") (" + link + ")\n")
  }

  /** One action line, or None where the stored server does not decode. */
  function ActionLine(hit: ActionHit): (line: Option<string>)
    ensures line.Some? <==> Common.LocationFromText(hit.row.server).Some?
  {
    var link := LinkOrElse(hit.channel, hit.message, "No action message");
    match Common.LocationFromText(hit.row.server)
    case None => None
    case Some(l) =>
      Some("* " + IntText(hit.id) + ": " + hit.row.targetUsername + " (`" + hit.row.targetId + "`) was '"
           + hit.row.action + "' on " + Prefabs.LocationName(l) + " for '" + hit.row.offense + "' by <@!"
           + hit.row.claimant + "> (" + link + ")\n")
  }

  /** The lines of the kept rows, in order; None if any line panics. */
  function ReportLines(hits: seq<ReportHit>, slAudit: u64): (r: Option<string>)
    ensures r.Some? <==> forall i :: 0 <= i < |hits| ==> ReportLine(hits[i], slAudit).Some?
  {
    if |hits| == 0 then Some("")
    else
      match ReportLine(hits[0], slAudit)
      case None => None
      case Some(line) =>
        match ReportLines(hits[1..], slAudit)
        case None =>
          None
        case Some(more) =>
          assert forall i :: 1 <= i < |hits| ==> hits[i] == hits[1..][i - 1];
          Some(line + more)
  }

  function ActionLines(hits: seq<ActionHit>): (r: Option<string>)
    ensures r.Some? <==> forall i :: 0 <= i < |hits| ==> ActionLine(hits[i]).Some?
  {
    if |hits| == 0 then Some("")
    else
      match ActionLine(hits[0])
      case None => None
      case Some(line) =>
        match ActionLines(hits[1..])
        case None => None
        case Some(more) =>
          assert forall i :: 1 <= i < |hits| ==> hits[i] == hits[1..][i - 1];
          Some(line + more)
  }

  /** The answer embed's description and footer. */
  datatype Answer = Answer(description: string, footer: string)

  function Footer(count: nat): string {
    DecimalText(count) + " results"
  }

  /** The answer to a report query: at most ten lines, the footer counting
      every row; None where a kept row makes the bot panic. */
  method AnswerReports(items: seq<Fetched<ReportHit>>, slAudit: u64) returns (r: Option<Answer>)
    ensures r.Some? ==> r.value.footer == Footer(|Rows(items)|)
    ensures r.Some? <==> forall i :: 0 <= i < Min(ResultsCount, |Rows(items)|) ==> ReportLine(Rows(items)[i], slAudit).Some?
  {
    var kept, count := CollectRows(items);
    assert |kept| == Min(ResultsCount, |Rows(items)|);
    assert forall i :: 0 <= i < |kept| ==> kept[i] == Rows(items)[i];
    var lines := ReportLines(kept, slAudit);
    if lines.None? {
      return None;
    }
    return Some(Answer(lines.value, Footer(count)));
  }

  method AnswerActions(items: seq<Fetched<ActionHit>>) returns (r: Option<Answer>)
    ensures r.Some? ==> r.value.footer == Footer(|Rows(items)|)
    ensures r.Some? <==> forall i :: 0 <= i < Min(ResultsCount, |Rows(items)|) ==> ActionLine(Rows(items)[i]).Some?
  {
    var kept, count := CollectRows(items);
    assert |kept| == Min(ResultsCount, |Rows(items)|);
    assert forall i :: 0 <= i < |kept| ==> kept[i] == Rows(items)[i];
    var lines := ActionLines(kept);
    if lines.None? {
      return None;
    }
    return Some(Answer(lines.value, Footer(count)));
  }

  /** A report the older expiry sweep marked 'expired' cannot be listed: its
      line panics, as every read of that status does. */
  lemma ExpiredRowPanics(hit: ReportHit, slAudit: u64)
    requires hit.row.reportStatus == "expired"
    ensures ReportLine(hit, slAudit).None?
  {
  }
}
