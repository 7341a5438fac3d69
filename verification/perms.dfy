/** Who may run which command. The older bot (`src/commands/mod.rs`) gives
    every command name a permission level and checks the invoking member
    against it before dispatching; the newer bot
    (`lurk_chan/src/commands/mod.rs`) marks every command guild-only with a
    required subcommand and attaches one staff check to each. */
module Perms {
  import opened Wrappers
  import opened Text

  datatype PermLevel = Anyone | Staff | Dev | God | Nobody | Invalid

  /** `perm_level`. */
  function PermLevelOf(command: string): PermLevel {
    if command in {"ping", "Report Message"} then Anyone
    else if command in {"audit", "discord", "Audit Message", "Audit User", "past", "report", "search"} then Staff
    else if command == "import" then Dev
    else if command == "when" then God
    else Invalid
  }

  /** The variant name, as `AsRefStr` spells it. */
  function LevelName(p: PermLevel): string {
    match p
    case Anyone => "Anyone"
    case Staff => "Staff"
    case Dev => "Dev"
    case God => "God"
    case Nobody => "Nobody"
    case Invalid => "Invalid"
  }

  const Owner: u64 := 171629704959229952

  /** A guild role as the cache knows it. */
  datatype Role = Role(administrator: bool, name: string)

  /** A guild member: the user id and, per role id the member holds, the
      cached role (None when the cache does not have it). */
  datatype Member = Member(user: u64, roles: seq<Option<Role>>)

  /** A role that makes its holder staff: administrators, and any role whose
      name contains "Admin" or "Mod". An uncached role never does. */
  predicate StaffRole(r: Option<Role>) {
    r.Some? && (r.value.administrator || Contains(r.value.name, "Admin") || Contains(r.value.name, "Mod"))
  }

  predicate IsStaff(m: Member) {
    exists i :: 0 <= i < |m.roles| && StaffRole(m.roles[i])
  }

  /** `roles.iter().any(…)`, scanning in order. */
  function AnyStaffRole(roles: seq<Option<Role>>): (b: bool)
    ensures b <==> exists i :: 0 <= i < |roles| && StaffRole(roles[i])
  {
    if |roles| == 0 then false
    else if StaffRole(roles[0]) then true
    else
      assert forall i :: 1 <= i < |roles| ==> roles[i] == roles[1..][i - 1];
      AnyStaffRole(roles[1..])
  }

  /** `does_fit`. */
  function DoesFit(m: Member, p: PermLevel): (b: bool)
    ensures p == Anyone ==> b
    ensures p == Staff ==> (b <==> IsStaff(m))
    ensures p == Dev ==> (b <==> m.user == Owner)
    ensures p in {God, Nobody, Invalid} ==> !b
  {
    match p
    case Anyone => true
    case Staff => AnyStaffRole(m.roles)
    case Dev => m.user == Owner
    case _ => false
  }

  /** The handlers `run_command` dispatches to. */
  datatype Handler = PingRun | AuditRun | AuditDiscordRun | PastRun | ReportRun | ImportRun | JudgementRun
                   | ReportMessageRun | SearchRun

  function HandlerOf(command: string): Option<Handler> {
    if command == "ping" then Some(PingRun)
    else if command == "audit" then Some(AuditRun)
    else if command in {"discord", "Audit Message", "Audit User"} then Some(AuditDiscordRun)
    else if command == "past" then Some(PastRun)
    else if command == "report" then Some(ReportRun)
    else if command == "import" then Some(ImportRun)
    else if command == "judgement" then Some(JudgementRun)
    else if command == "Report Message" then Some(ReportMessageRun)
    else if command == "search" then Some(SearchRun)
    else None
  }

  /** What `run_command` does: refuses with a message naming the level,
      runs a handler, or reports an unknown command. A missing member
      panics. */
  datatype Dispatch = Denied(message: string) | Ran(handler: Handler) | UnknownCommand | DispatchPanicked

  function RunCommand(command: string, member: Option<Member>): (d: Dispatch)
    ensures member.None? <==> d == DispatchPanicked
    ensures d.Ran? ==> DoesFit(member.value, PermLevelOf(command)) && HandlerOf(command) == Some(d.handler)
    ensures member.Some? && !DoesFit(member.value, PermLevelOf(command)) ==> d.Denied?
  {
    if member.None? then DispatchPanicked
    else if !DoesFit(member.value, PermLevelOf(command)) then
      Denied("nah buddy, permission denied, you need to be a '" + LevelName(PermLevelOf(command)) + "' to run this command")
    else
      match HandlerOf(command)
      case Some(h) => Ran(h)
      case None => UnknownCommand
  }

  /** A command runs exactly when the member fits its level and the command
      has a handler. */
  lemma RunsIffFits(command: string, m: Member)
    ensures RunCommand(command, Some(m)).Ran? <==> DoesFit(m, PermLevelOf(command)) && HandlerOf(command).Some?
  {
  }

  /** Staff commands run for staff members and only for them; the owner
      alone runs `import`. */
  lemma StaffAndDevGates(m: Member)
    ensures RunCommand("past", Some(m)).Ran? <==> IsStaff(m)
    ensures RunCommand("import", Some(m)).Ran? <==> m.user == Owner
    ensures RunCommand("ping", Some(m)) == Ran(PingRun)
  {
    assert PermLevelOf("past") == Staff;
    assert PermLevelOf("import") == Dev;
  }

  /** Names that pass the dispatcher's table check but never run: `when`
      is God-level, and `judgement` and `query` have no level. */
  lemma NeverRun(m: Member)
    ensures RunCommand("when", Some(m)).Denied?
    ensures RunCommand("judgement", Some(m)).Denied?
    ensures RunCommand("query", Some(m)).Denied?
  {
    assert PermLevelOf("judgement") == Invalid;
    assert PermLevelOf("query") == Invalid;
  }

  /** Registration: each command's level is checked against Invalid
      (`assert_ne!`), so one unlisted name panics the whole registration. */
  function Register(names: seq<string>): (r: Option<seq<PermLevel>>)
    ensures r.Some? <==> forall i :: 0 <= i < |names| ==> PermLevelOf(names[i]) != Invalid
    ensures r.Some? ==> |r.value| == |names| && forall i :: 0 <= i < |names| ==> r.value[i] == PermLevelOf(names[i])
  {
    if |names| == 0 then Some([])
    else if PermLevelOf(names[0]) == Invalid then None
    else
      assert forall i :: 1 <= i < |names| ==> names[i] == names[1..][i - 1];
      match Register(names[1..])
      case None => None
      case Some(rest) => Some([PermLevelOf(names[0])] + rest)
  }

  /** Every registered command is dispatched under a real level, so a
      member who fits it and names a handled command runs it. */
  lemma RegisteredHaveLevels(names: seq<string>, i: nat)
    requires Register(names).Some? && i < |names|
    ensures PermLevelOf(names[i]) in {Anyone, Staff, Dev, God}
  {
  }

  /* The newer bot */

  /** A command's check hook. */
  datatype Check = StaffCheck

  datatype Command = Command(name: string, guildOnly: bool, subcommandRequired: bool, checks: seq<Check>)

  /** `commands()`: every command made guild-only, with a required
      subcommand and the staff check appended. */
  function Commands(base: seq<Command>): (cs: seq<Command>)
    ensures |cs| == |base|
    ensures forall i :: 0 <= i < |cs| ==>
              cs[i].name == base[i].name && cs[i].guildOnly && cs[i].subcommandRequired &&
              cs[i].checks == base[i].checks + [StaffCheck]
  {
    if |base| == 0 then []
    else
      assert forall i :: 1 <= i < |base| ==> base[i] == base[1..][i - 1];
      [base[0].(guildOnly := true, subcommandRequired := true, checks := base[0].checks + [StaffCheck])]
      + Commands(base[1..])
  }

  /** `check_perms`: an author who is not a guild member is an error;
      otherwise staff or not. */
  function CheckPerms(author: Option<Member>): (r: Result<bool, string>)
    ensures author.None? <==> r.Err?
    ensures author.Some? ==> r == Ok(IsStaff(author.value))
  {
    match author
    case None => Err("nah")
    case Some(m) => Ok(AnyStaffRole(m.roles))
  }

  /** A command runs when every one of its checks passes (an erroring
      check stops it as a failing one does). */
  predicate CheckPasses(c: Check, author: Option<Member>) {
    match c
    case StaffCheck => CheckPerms(author) == Ok(true)
  }

  predicate ChecksPass(checks: seq<Check>, author: Option<Member>) {
    forall i :: 0 <= i < |checks| ==> CheckPasses(checks[i], author)
  }

  /** Through `commands()`, nothing runs for an author who is not staff. */
  lemma NewCommandsStaffOnly(base: seq<Command>, i: nat, author: Option<Member>)
    requires i < |base|
    ensures ChecksPass(Commands(base)[i].checks, author) ==> author.Some? && IsStaff(author.value)
  {
    var cs := Commands(base)[i].checks;
    assert cs[|cs| - 1] == StaffCheck;
  }

  /** The newer check is the older Staff level: both accept a member
      exactly when one of their roles is a staff role. */
  lemma NewCheckIsOldStaff(m: Member)
    ensures CheckPerms(Some(m)) == Ok(DoesFit(m, Staff))
  {
  }
}
