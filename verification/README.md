# lurk-chan in Dafny

lurk-chan is a Discord moderation bot for an SCP: Secret Laboratory
community. Players file reports about other players, from the game server
or from Discord. Staff claim and close them, and record the actions they
took (kicks, bans, timeouts) as audit entries. The repository holds two
generations of the bot:

- the older bot in `src/`: three report statuses, claimant kept as text;
- the newer bot in `lurk_chan/`, `database/` and `common/`: four statuses
  (Expired added), claimant kept as a `u64` Discord id.

This project models the sequential core shared by both generations:

- the entity codecs (status, location, report and action rows, message
  links stored as decimal text);
- the report and action lifecycle, as transitions over the SQLite store.
  The store is modelled as a value (`Store.Tables`: the Reports and Actions
  tables, the two message-link tables and the rowid counters);
- the expiry sweep and the backup retention rule;
- the buttons, status texts and modal prefill each state is shown with;
- the constructors that build reports and actions from embeds, modals,
  guild audit-log entries and commands;
- `/query`, `/past`, the permission gates, and the stats message.

Discord I/O becomes input. A sent message is a `(channel, message)` pair,
or `None` when sending failed. Only the expiry sweeps (`Expiry.ExpireSweep`,
`Expiry.UpdateUntilFailure`, `LegacyTasks.OldSweep`) take a failing `UPDATE`
as input, as the set of ids it fails for. The older `/import` takes the
position of its first failing insert. Every other write to the store
succeeds. The clock is a `now` parameter. Timestamp parsing is a function
parameter. Each operation returns the new store and what the bot
shows or answers.

Each module follows one source file or one concern:

| module | models |
|---|---|
| `Wrappers`, `Text`, `Fields` | `Option`/`Result`, decimal text and `parse::<u64>()`, serde field decoding with aliases |
| `Common`, `DbCodec`, `Store`, `Database` | the newer bot's entities, row codecs, the store value and the `Database` methods |
| `Ui`, `Lifecycle`, `Events`, `Move`, `Expiry`, `Backup`, `Ingest` | the newer bot's UI derivation, button handler, gateway handlers, `/move`, the expiry and backup tasks, and the record-creating commands |
| `Legacy`, `Prefabs`, `LegacyDb`, `LegacyInteractions`, `LegacyMessages`, `LegacyTasks` | the same concerns in the older bot |
| `Query`, `Past`, `Perms` | `/query`, `/past`, and the permission tables of both bots |
| `Stats`, `Uptime`, `StatsTask` | the stats message of both bots |

## Model

| member | source | states |
|---|---|---|
| Common.DefaultStatus | common/src/lib.rs:27-30 | a status that is not given defaults to Open |
| Common.StatusRoundTrip | common/src/lib.rs:37-53 | reading back the stored text of any of the four statuses gives that status |
| Common.StatusToDbInjective | common/src/lib.rs:37-44 | two statuses with the same stored text are the same status |
| Common.StatusFromDbInverse | common/src/lib.rs:45-53 | any text that reads as a status is exactly the text that status is stored as |
| Common.StatusFromDbDomain | common/src/lib.rs:45-53 | a text reads as a status iff it is one of "open", "claimed", "closed", "expired" |
| Common.StatusFromDbRejects | common/src/lib.rs:65 | "piss", other casings and the empty text read as no status |
| Common.DefaultLocation | src/audit.rs:19-21 | a location that is not given defaults to SL |
| Common.LocationRoundTrip | src/audit.rs:17-23 | each location reads back from its lowercase stored name |
| Common.LocationFromTextInverse | src/audit.rs:17-23 | any text that reads as a location is exactly that location's stored name |
| DbCodec.ParseOptionalId | database/src/lib.rs:116-123 | a NULL id column reads as None; a present one reads iff it is u64 decimal text, and then as that number |
| DbCodec.IntoReport | database/src/lib.rs:106-125 | an unknown status text fails with InvalidReportStatus carrying that exact text, before a bad claimant fails with ParseIntError; reading succeeds iff status, claimant and audit all read; NULL claimant/audit stay None; with no location column the report read back has the default location |
| DbCodec.FromReport | database/src/lib.rs:126-140 | a row built from a report has no id and stores the status's text |
| DbCodec.ReportRoundTrip | database/src/lib.rs:106-140 | writing a report to a row and reading it back gives the same report except for its location, which comes back as the default |
| DbCodec.IntoReportIgnoresId | database/src/lib.rs:90-92 | the row id plays no part in reading a report |
| DbCodec.TruncateToU32 | database/src/lib.rs:172 | an i64 cast to u32 keeps values below 2^32 unchanged |
| DbCodec.ActionToRow | database/src/lib.rs:154-166 | a row built from an action has no id and keeps whether the action has a report |
| DbCodec.RowToAction | database/src/lib.rs:168-180 | reading an action row succeeds iff the claimant is u64 text and the server a known location; a bad claimant fails with ParseIntError, an unknown server with the common error |
| DbCodec.ActionRoundTrip | database/src/lib.rs:154-180 | writing an action and reading it back gives the same action (report u32 to i64 to u32, claimant u64 to text to u64) |
| DbCodec.RowToActionIgnoresId | database/src/lib.rs:143-144 | the row id plays no part in reading an action |
| Store.FindLink | src/db.rs:150-155 | a lookup by report or action id finds the first link row of that owner in insertion order, and finds none exactly when no row has that owner |
| Store.FindLinkAppend | src/db.rs:117-143 | recording another link never changes what an earlier lookup found; an owner with no link finds the new row |
| Store.FindLinkIsFirstOf | src/db.rs:150-155 | the row a lookup finds is the first of the owner's rows, and there is none exactly when the owner has no rows |
| Store.InsertReport | src/db.rs:77-91 | an insert stores the row under a fresh rowid, keeps every other row and touches no other table |
| Store.InsertReportFresh | database/src/lib.rs:66 | two inserts hand out two different rowids |
| Store.UpdateReport | src/interactions.rs:114-120 | an update by id replaces that row only; an id with no row changes nothing |
| Store.AddReportLink | src/db.rs:117-129 | recording a report link appends one row and leaves the other tables as they were |
| Store.AddActionLink | src/db.rs:131-143 | recording an action link appends one row and leaves the other tables as they were |
| Store.InsertAction | src/db.rs:102-115 | an action insert stores the row under a fresh rowid, keeps every other row and touches no other table |
| Store.UpdateAction | lurk_chan/src/event.rs:313-315 | an update by id replaces that action only; an id with no row changes nothing |
| Database.GetReportFromId | database/src/lib.rs:41-49 | a missing id reads as Ok(None); a present row is Some or, exactly when it does not decode, an error — never None |
| Database.GetActionFromId | database/src/lib.rs:68-76 | a missing id reads as Ok(None); a present row is Some or, exactly when it does not decode, an error |
| Database.AddReport | database/src/lib.rs:50-67 | the report is stored as from_report's row under the next rowid, which comes back cast to u32; nothing else changes |
| Database.AddAction | lurk_chan/src/event.rs:214 | the action is stored as its row under the next rowid, which comes back cast to u32; nothing else changes |
| Database.AddReportThenGet | database/src/lib.rs:41-67 | while rowids stay below 2^32 the id add_report returns reads back the same report, with the default location |
| Database.AddActionThenGet | database/src/lib.rs:68-76 | while rowids stay below 2^32 the id add_action returns reads back the same action |
| Database.AddReportIdWraps | database/src/lib.rs:66 | the report stored at rowid 2^32 comes back as id 0, which names no report |
| Database.ClaimReport | src/interactions.rs:114-120 | claiming sets status 'claimed' and the claimant to the presser's decimal id on that row only, whatever its status was |
| Database.CloseReport | lurk_chan/src/event.rs:213 | closing sets the status to 'closed' on that row only |
| Database.ExpireReport | src/expire.rs:55-58 | expiring sets the status to 'expired' on that row only |
| Database.ClaimThenGet | lurk_chan/src/event.rs:167-170 | a claimed report reads back Claimed by the presser with every other field as it was |
| Database.CloseThenGet | lurk_chan/src/event.rs:213 | a closed report reads back Closed with every other field as it was |
| Database.ExpireThenGet | lurk_chan/src/tasks/mod.rs:157 | an expired report reads back Expired with every other field as it was |
| Database.EditAction | lurk_chan/src/event.rs:313-315 | editing replaces that action's row only; an unknown id changes nothing |
| Database.EditThenGet | lurk_chan/src/event.rs:305-316 | an edited action reads back as the new action |
| Database.AddReportMessage | lurk_chan/src/event.rs:377-379 | the report's message and channel ids are stored as decimal text; nothing else changes |
| Database.AddActionMessage | lurk_chan/src/event.rs:226-228 | the action's message and channel ids are stored as decimal text; nothing else changes |
| Database.DecodeLink | src/db.rs:156-165 | a stored link reads iff both texts are u64, and then as those numbers; otherwise a ParseIntError |
| Database.GetReportMessage | lurk_chan/src/lib.rs:135-138 | a report with no link reads as Ok(None); a link read back belongs to that report |
| Database.GetActionMessage | lurk_chan/src/lib.rs:205-208 | an action with no link reads as Ok(None); a link read back belongs to that action |
| Database.AddReportMessageThenGet | src/db.rs:117-165 | a link recorded for a report with none reads back as the stored (channel, message) |
| Database.AddActionMessageThenGet | src/db.rs:131-190 | a link recorded for an action with none reads back as the stored (channel, message) |
| Database.AddActionMessageKeepsFirst | src/db.rs:175-180 | a second link for the same action is stored but never read: lookups keep returning the first |
| Database.FirstLinkForReport | lurk_chan/src/lib.rs:46 | the first action link whose action resolves the report, and none exactly when no such link exists |
| Database.GetActionMessageFromReportId | lurk_chan/src/lib.rs:46-50 | no action of the report with a link reads as Ok(None); a link read back belongs to an action resolving that report |
| Database.ReportsWithStatusFrom | lurk_chan/src/tasks/mod.rs:138-141 | the query returns only rows stored with the status, decoded, in increasing id order |
| Database.ReportsWithStatusComplete | lurk_chan/src/tasks/mod.rs:138-141 | the query misses no row stored with the status |
| Database.AllReportsWithStatus | lurk_chan/src/tasks/mod.rs:138-141 | every returned report has the asked status and is its row decoded, and every row with that status is returned |
| Ui.DecodeKindId | lurk_chan/src/event.rs:157-162 | a decoded id's kind has no '_' and is followed by '_' in the custom id; an id without '_' never decodes |
| Ui.DecodeKindIdRoundTrip | lurk_chan/src/lib.rs:96-115 | every `{kind}_{id}` the bot writes with a '_'-free kind decodes to that kind and id |
| Ui.DecodeKindIdRejects | lurk_chan/src/event.rs:157-162 | a custom id whose text after the first '_' is not a u32 is not decoded, whatever its kind |
| Ui.ReportActionRows | lurk_chan/src/lib.rs:90-120 | a closed report has no buttons; open offers Claim, expired Reopen and Claim, claimed Close and Close without action |
| Ui.ReportButtonsDecode | lurk_chan/src/lib.rs:96-115 | the buttons of an open or expired report decode to a claim of it, a claimed report's to its close and forceclose |
| Ui.ActionComponents | lurk_chan/src/lib.rs:187-194 | an action message has one Edit button, which decodes to an edit of that action |
| Ui.StatusText | lurk_chan/src/lib.rs:31-54 | a claimed report's status line begins "Claimed by ", a closed one's "Closed by " |
| Ui.ReadMentionOf | lurk_chan/src/lib.rs:37-44 | a claimant mention followed by any text reads back as that claimant and text |
| Ui.ReadClaimedText | lurk_chan/src/lib.rs:36-38 | the claimed status line reads back as Claimed by that claimant |
| Ui.ReadClosedText | lurk_chan/src/lib.rs:39-52 | the closed status line reads back as Closed by that claimant, with a link exactly when a See part follows |
| Ui.ReadStatusTextRoundTrip | lurk_chan/src/lib.rs:31-54 | the status line determines the status, the claimant of a claimed or closed report, and whether a closing action is linked |
| Ui.StatusTextDistinguishesStatus | lurk_chan/src/lib.rs:31-54 | two reports with different statuses never show the same status line |
| Ui.ActionFooterRoundTrip | lurk_chan/src/lib.rs:179-185 | the footer of an action embed reads back as the report it resolves, or none |
| Ui.CreateThings | lurk_chan/src/lib.rs:14-120 | a failed count query is CountFailed; then, once a closed report's action message reads, a time that does not parse panics (TimePanicked); the message builds exactly when the count answers, a closed report's action message reads and the time parses, and then shows the status's buttons, the count and, for a report that is not closed, its status line |
| Ui.UpdateReportMessage | lurk_chan/src/lib.rs:25-148 | a missing report is ReportNotFound; a failed count query is CountFailed; a time that does not parse panics (TimePanicked), and only such a time does; then a report without a message is ReportMessageNotFound; a success needs the count and a parsable time, shows the buttons of the stored status and the count of reports against the player |
| Ui.UpdateAuditMessage | lurk_chan/src/lib.rs:196-222 | a missing action is ActionNotFound, an action without a message ActionMessageNotFound; a success's footer reads back as the stored action's report |
| Perms.AnyStaffRole | src/commands/mod.rs:58-75 | the scan finds a staff role iff some role of the member is cached and is administrator or named with Admin or Mod |
| Perms.DoesFit | src/commands/mod.rs:58-75 | Anyone always fits, Staff iff the member holds a staff role, Dev iff the user is the owner, and nothing fits God, Nobody or Invalid |
| Perms.RunCommand | src/commands/mod.rs:22-56 | a missing member panics; a member who does not fit is denied; a handler runs only for a fitting member |
| Perms.RunsIffFits | src/commands/mod.rs:22-56 | a command runs exactly when the member fits its level and the name has a handler |
| Perms.StaffAndDevGates | src/commands/mod.rs:58-99 | past runs iff the member is staff, import iff the user is the owner, ping always |
| Perms.NeverRun | src/commands/mod.rs:90-99 | `when`, `judgement` and `query` are denied to everyone |
| Perms.Register | src/commands/mod.rs:118-137 | registration succeeds iff no name has level Invalid, and then records each name's level |
| Perms.RegisteredHaveLevels | src/commands/mod.rs:118-137 | every registered name has a real level |
| Perms.Commands | lurk_chan/src/commands/mod.rs:7-16 | every command keeps its name, becomes guild-only with a required subcommand and gains the staff check last |
| Perms.CheckPerms | lurk_chan/src/commands/mod.rs:18-25 | an author who is not a member is an error; a member passes iff staff |
| Perms.NewCommandsStaffOnly | lurk_chan/src/commands/mod.rs:7-25 | no command from `commands()` runs for an author who is not a staff member |
| Perms.NewCheckIsOldStaff | lurk_chan/src/commands/mod.rs:18-25 | the newer staff check accepts exactly the members the older Staff level accepts |
| Lifecycle.AfterUpdate | lurk_chan/src/event.rs:229-237 | the handler answers Done exactly when the report message update succeeded, and panics exactly when the update panicked on the report's time; the audit handler (lurk_chan/src/event.rs:316-324) ends the same way |
| Lifecycle.Claim | lurk_chan/src/event.rs:167-171 | a failed defer ends the press with nothing written; otherwise any existing report, whatever its status, reads back Claimed by the presser with its other fields kept; no other report, action or link changes |
| Lifecycle.ClaimPanicsOnBadTime | lurk_chan/src/event.rs:167-171 | claiming a report whose time does not parse writes the claim and then panics in the message refresh (lurk_chan/src/lib.rs:82-86) |
| Lifecycle.Close | lurk_chan/src/event.rs:172-251 | a missing report fails, a non-claimant is told not yours and nothing changes; the store changes only when the claimant submits the modal, and a timeout changes nothing |
| Lifecycle.ForceClose | lurk_chan/src/event.rs:252-274 | a failed defer ends the press with nothing written; otherwise only the claimant can force-close, the report then reads back Closed and no action is added |
| Lifecycle.Edit | lurk_chan/src/event.rs:275-325 | only the action's claimant can edit; a timeout changes nothing; a submitted modal replaces the action's texts and keeps its other fields; reports and links never change |
| Lifecycle.OnButton | lurk_chan/src/event.rs:150-334 | a custom id that does not decode panics; a not-yours or invalid-kind answer changes nothing |
| Lifecycle.OnKind | lurk_chan/src/event.rs:165-329 | every kind keeps the store valid; an unknown kind is refused and changes nothing |
| Lifecycle.DispatchKind | lurk_chan/src/event.rs:165-274 | a decoded claim, close or forceclose id runs that operation on the decoded report |
| Lifecycle.ReportButtonsDispatch | lurk_chan/src/event.rs:165-274 | pressing a report's button claims it when open or expired and closes or force-closes it when claimed |
| Lifecycle.ActionButtonDispatch | lurk_chan/src/event.rs:275-325 | pressing an action's Edit button runs the edit of that action |
| Lifecycle.CloseEffect | lurk_chan/src/event.rs:199-228 | a completed close leaves the report Closed with its claimant, one new action carrying the modal texts, the report's location, the presser and the report, and that action's message linked |
| Lifecycle.CloseOrdering | lurk_chan/src/event.rs:213-225 | when the audit message cannot be sent the report is already closed and the action already stored, with no message link |
| Lifecycle.CloseStores | lurk_chan/src/event.rs:213-214 | a claimant's close stores the closed report and the closing action at the next action id |
| Lifecycle.DuplicateActions | lurk_chan/src/event.rs:178 | closing keeps the claimant, so a second close of the same report by the same member stores a second action for it |
| Events.DisplayName | lurk_chan/src/event.rs:96 | the global name when the user has one, the user name otherwise |
| Events.ReadTimeoutText | lurk_chan/src/event.rs:98-101 | only a text that begins with the timeout wording is read |
| Events.TimeoutTextRoundTrip | lurk_chan/src/event.rs:98-101 | the timeout text determines the i64 unix timestamp it was written from |
| Events.TimeoutAction | lurk_chan/src/event.rs:94-105 | the action targets the user by decimal id and display name, is a Discord action by the entry's author with no report, and has offense "???" when no reason was given |
| Events.TimeoutsBeforeLift | lurk_chan/src/event.rs:83-108 | the number of timeouts before the first lifted timeout is at most the number of changes |
| Events.TimeoutsStopAtLift | lurk_chan/src/event.rs:83-108 | nothing after a lifted timeout is counted: the loop has ended there |
| Events.AllTimeoutsCounted | lurk_chan/src/event.rs:83-108 | when every change sets a timeout, every one is counted |
| Events.ApplyChanges | lurk_chan/src/event.rs:83-133 | only new timeout actions by the invoker are added, at most one per timeout before the first lift; reports and existing actions are kept; a missing target fails before any write |
| Events.ApplyChangesCount | lurk_chan/src/event.rs:83-133 | with the target found and every send succeeding, exactly one action is added per timeout before the first lift |
| Events.OnGuildAudit | lurk_chan/src/event.rs:75-141 | anything but a member update is ignored; otherwise only timeout actions by the invoker are added |
| Events.GuildAuditSingleTimeout | lurk_chan/src/event.rs:85-130 | a single delivered timeout reads back as its action with its audit message linked |
| Events.GuildAuditLiftStops | lurk_chan/src/event.rs:106-107 | a lifted timeout first ends the handler with nothing written, whatever follows |
| Events.FieldMapOf | lurk_chan/src/event.rs:342-348 | every field name is a key, and no stored value contains a backtick |
| Events.FieldMapLastWins | lurk_chan/src/event.rs:343-347 | a field repeated later overrides the earlier value |
| Events.StatusFromName | common/src/lib.rs:27-34 | the status field decodes iff it is one of the four variant names |
| Events.NoTextId | common/src/lib.rs:21-24 | the defaulted claimant and audit decode only when absent, as None |
| Events.EntryError | common/src/lib.rs:3-25 | an entry fails when its field was already given under its caption, when it is a claimant or audit text, or when it is a status that is no variant; a key of no field never fails |
| Events.DecodeFields | common/src/lib.rs:3-25 | the fields taken once the entries are read: a decoded report has the default location, no claimant and no audit, is Open when no status is given, and a missing reporter id is an error |
| Events.CleanEntries | common/src/lib.rs:3-25 | a map whose entries all read cleanly gives no field twice, no claimant or audit, and a status that is a variant |
| Events.DecodeReport | lurk_chan/src/lib.rs:10-12 | the first failing entry in key order decides the error; a missing reporter id is reported only when every entry read cleanly; a decoded report has the default location, no claimant and no audit, is Open when no status is given, and came from a map with no field given twice |
| Events.ReportKeysInByteOrder | lurk_chan/src/lib.rs:10-12 | the keys that can fail are listed in the byte order in which serde_json's map yields them |
| Events.CaptionsBeforeNames | common/src/lib.rs:5-19 | every caption sorts before its field's own name, so a field given twice fails at its own name |
| Events.ClaimantTextFailsFirst | common/src/lib.rs:21-22 | a claimant given as text is an invalid-type error, whatever required field is missing, unless an audit text is given too |
| Events.BadStatusFailsFirst | common/src/lib.rs:15-16 | a status that is no variant is an unknown-variant error, whatever required field is missing, unless an entry sorting before it fails |
| Events.NoFailingKeys | common/src/lib.rs:3-25 | a map holding none of the keys that can fail reads every entry cleanly |
| Events.CaptionMapReadsCleanly | lurk_chan/src/event.rs:336-360 | no entry of a game-server report's embed fails when read |
| Events.ReportFromMsg | lurk_chan/src/event.rs:336-360 | no embed, or a first embed not titled "Player Report", is not a report; a decoded report is Open unless a status field was given |
| Events.FieldMapOfSnoc | lurk_chan/src/event.rs:343-347 | the map after k+1 fields is the map after k with field k inserted |
| Events.FieldMapOfReportEmbed | lurk_chan/src/event.rs:342-348 | the fields of a game-server report map each caption to its value |
| Events.FieldNamesAreNotCaptions | common/src/lib.rs:3-25 | no field name of a report is one of the game server's captions |
| Events.CaptionMapLookups | common/src/lib.rs:3-25 | every required field is found under its alias, and the defaulted fields are absent |
| Events.DecodeCaptionMap | common/src/lib.rs:3-25 | the captions of a new report decode to that report |
| Events.ReportFromMsgRoundTrip | lurk_chan/src/event.rs:336-360 | a game-server report without backticks reads back as the same report |
| Events.ReportFromMsgDuplicate | lurk_chan/src/event.rs:351-356 | giving a field under both its name and its alias makes the message undecodable |
| Events.OnMessage | lurk_chan/src/event.rs:362-384 | a message that is not a report or does not decode writes nothing; a decoded report is stored before its message is built, so a failed count query (EmbedFailed) or an unparsable time (Panicked) leaves it stored with no link; a posted report needs the count, a parsable time and the send, and adds one report and one link; actions are untouched |
| Events.OnMessageStores | lurk_chan/src/event.rs:366-379 | a posted report with a parsable time, once the count answers, reads back under the next id, linked to the message that shows it |
| Events.OnMessageBadTimePanics | lurk_chan/src/event.rs:370-372 | a report whose time does not parse is stored, then building its message panics: nothing is posted or linked |
| Move.ChoiceLocation | lurk_chan/src/commands/move_thing.rs:13-20 | the SL choice is the SL location and the Discord choice the Discord location |
| Move.ChoiceLocationBijective | lurk_chan/src/commands/move_thing.rs:7-20 | every location is offered by exactly one choice |
| Move.MoveAudit | lurk_chan/src/commands/move_thing.rs:30-137 | a failed defer ends the command with nothing read or written; after it, a missing action is not found, someone else's audit is refused and one already there is left; the store changes only once the old message is fetched, and reports, report links and the set of actions never change |
| Move.MovedExactly | lurk_chan/src/commands/move_thing.rs:36-111 | a move completes exactly when the defer succeeds, the invoker claimed the action, it is elsewhere, its message link reads, and Discord fetches, sends and deletes |
| Move.MoveEffect | lurk_chan/src/commands/move_thing.rs:36-111 | under those conditions the move completes; the action reads back with only its server changed, and a link to the new message in the new location's audit channel is appended |
| Move.MoveKeepsOldLink | lurk_chan/src/commands/move_thing.rs:108-111 | after a move the action's message lookup still returns the old, deleted message, because the first link wins |
| Expiry.WholeHours | lurk_chan/src/tasks/mod.rs:147-148 | the whole hours of an age, truncated toward zero for negative ages as for positive ones |
| Expiry.OverdueThreshold | lurk_chan/src/tasks/mod.rs:148 | more than 48 whole hours means an age of at least 49 full hours |
| Expiry.OverdueIds | lurk_chan/src/tasks/mod.rs:144-151 | the selection succeeds iff every candidate's time parses, and picks at most one id per candidate |
| Expiry.OverdueIdsExact | lurk_chan/src/tasks/mod.rs:144-151 | an id is picked exactly when some candidate with that id parses and is overdue |
| Expiry.SelectOverdue | src/expire.rs:41-48 | the single pass with early abort computes the same selection as the all-candidates definition |
| Expiry.OverdueIdsPrefixNone | src/expire.rs:42 | once a prefix has a time that does not parse, the whole selection fails |
| Expiry.UpdateEach | lurk_chan/src/tasks/mod.rs:156-160 | each listed report not in the failing set is updated, every other row is kept, and no other table changes |
| Expiry.UpdateUntilFailure | src/expire.rs:54-60 | the loop succeeds iff no listed id fails; unlisted rows and the other tables are kept |
| Expiry.UpdateUntilFailurePrefix | src/expire.rs:54-60 | the reports before the first failing update are expired and none from it on |
| Expiry.ExpiredRow | common/src/lib.rs:37-44 | expiring sets the status text to 'expired' and changes no other column |
| Expiry.CandidatesOf | lurk_chan/src/tasks/mod.rs:144-145 | the candidates are the queried reports' ids and times, in query order |
| Expiry.ExpireSweep | lurk_chan/src/tasks/mod.rs:124-169 | a successful sweep keeps every row id, expires only reports stored as open, writes nothing when none is overdue, and touches no other table |
| Expiry.SweepPicks | lurk_chan/src/tasks/mod.rs:138-151 | the sweep picks exactly the reports stored as open whose time parses and is more than 48 hours old |
| Expiry.OpenCandidate | lurk_chan/src/tasks/mod.rs:138-145 | a report is a candidate exactly when it is stored as open, and then with its stored time |
| Expiry.PicksByTime | lurk_chan/src/tasks/mod.rs:144-150 | an id whose candidates share one time is picked exactly when that time parses and is overdue |
| Expiry.ExpireSweepExact | lurk_chan/src/tasks/mod.rs:124-169 | after a sweep each report is expired exactly when it was open, overdue and its update did not fail; every other report is unchanged |
| Expiry.ExpireSweepUnparsable | lurk_chan/src/tasks/mod.rs:145 | one open report with an unparsable time aborts the sweep before anything is written |
| Backup.SortNames | lurk_chan/src/tasks/mod.rs:110 | the listing sorted by file name: sorted, and a permutation of the names |
| Backup.OldestOver | lurk_chan/src/tasks/mod.rs:110-112 | a name is chosen iff there are more than the limit, and it is a listed name sorting no later than any other |
| Backup.NewerRemoval | lurk_chan/src/tasks/mod.rs:105-117 | a path is removed iff more than 28 backups are listed, and it is a listed name inside the backups folder |
| Backup.NewerRemovalRemovesOldest | lurk_chan/src/tasks/mod.rs:105-117 | the folder loses exactly its first-sorting backup |
| Backup.OlderRemovalAsWritten | src/main.rs:178-190 | a removal happens iff more than 24 backups are listed |
| Backup.OlderRemovalAsWrittenKeepsAll | src/main.rs:186 | the bare file name never names a file in the backups folder, so no backup is ever removed |
| Backup.OlderRemoval | src/main.rs:178-190 | a path is removed iff more than 24 are listed, and it is a listed name inside the backups folder |
| Backup.OlderRemovalRemovesOldest | src/main.rs:183-189 | the folder loses exactly its first-sorting backup |
| Ingest.ReasonWithLink | lurk_chan/src/commands/report_to_admin.rs:33 | the reason begins with the reporter's text and is three characters longer than text and link together |
| Ingest.ReasonWithLinkSplits | lurk_chan/src/commands/report_to_admin.rs:33 | the reporter's text and the message link can be cut back out of the reason |
| Ingest.StaffReport | lurk_chan/src/commands/report_to_admin.rs:18-48 | the report is open, unclaimed, from Discord, reporter the invoker and reported the message author by id and display name |
| Ingest.ReportToAdmins | lurk_chan/src/commands/report_to_admin.rs:10-71 | no answer, or one shorter than 25 characters, writes nothing; a channel outside a guild writes nothing; the report is stored before its message is built, so a failed count query (EmbedFailed), an unparsable time (Panicked) or a failed send leaves a stored report with no message link; a created report needs the count, a parsable time and the send |
| Ingest.ReportToAdminsStores | lurk_chan/src/commands/report_to_admin.rs:49-62 | once the count answers and the time parses, a submitted report reads back under the next id, linked to its message; its Discord location is not stored and reads back as SL |
| Ingest.DiscordPrefill | lurk_chan/src/commands/audit.rs:26-37 | the chosen user's decimal id and display name, or "0" and "" without a user; missing texts are "" |
| Ingest.SlPrefill | lurk_chan/src/commands/audit.rs:51-58 | the given texts, each missing one "" |
| Ingest.StandaloneAction | lurk_chan/src/commands/audit.rs:72-80 | the action carries the modal's four texts, the given location and the invoker, with no report |
| Ingest.DoIt | lurk_chan/src/commands/audit.rs:64-110 | a timeout writes nothing; a submitted modal stores exactly one action, and a sent message is linked in the location's audit channel |
| Ingest.AuditCommandAsWritten | lurk_chan/src/commands/audit.rs:30-62 | both subcommands store the new action with the Discord location |
| Ingest.SlAuditRecordedAsDiscord | lurk_chan/src/commands/audit.rs:59 | an SL audit is stored as Discord, not SL |
| Ingest.AuditCommand | lurk_chan/src/commands/audit.rs:30-62 | each subcommand stores the new action with its own location |
| Ingest.AuditCommandStores | lurk_chan/src/commands/audit.rs:64-110 | a submitted audit reads back under the next id, linked in its platform's audit channel |
| Legacy.DefaultStatus | src/report.rs:111-113 | a report without a status is Open, stored as the same text as the newer bot's default |
| Legacy.StatusTextRoundTrip | src/report.rs:109-116 | each of the three statuses reads back from its lowercase text |
| Legacy.StatusFromTextInverse | src/report.rs:109-116 | a text that reads as a status is exactly that status's text |
| Legacy.StatusFromTextDomain | src/report.rs:109-116 | only "open", "claimed" and "closed" read as a status; the newer "expired" does not |
| Legacy.StatusString | src/report.rs:58-82 | the line is missing (a panic) exactly for a closed report whose audit is not a message id; claimed and closed lines begin with "Claimed by " and "Closed by " |
| Legacy.ReadClaimantOf | src/report.rs:61-71 | a claimant mention followed by any text reads back as that claimant and text |
| Legacy.ReadClaimedString | src/report.rs:61-64 | the claimed line reads back as Claimed by that claimant |
| Legacy.ReadClosedString | src/report.rs:65-79 | the closed line reads back as Closed by that claimant, with a link exactly when a See part follows |
| Legacy.ReadStatusStringRoundTrip | src/report.rs:58-82 | the line determines the status, the claimant of a claimed or closed report, and whether an audit is linked |
| Legacy.DecodeButtonId | src/interactions.rs:101-106 | a decoded kind has no '_'; a custom id without '_' does not decode |
| Legacy.DecodeButtonIdRoundTrip | src/interactions.rs:101-106 | every `{kind}_{id}` with an i64 id and a '_'-free kind decodes to that kind and id |
| Legacy.Components | src/report.rs:83-106 | a closed report has no buttons; an open one offers Claim, Close and Close without action; a claimed one Close and Close without action |
| Legacy.ComponentsDecode | src/report.rs:83-106 | the buttons decode to claim, close and forceclose of the report when open, to close and forceclose when claimed |
| Legacy.CloseButtonsDecode | src/report.rs:88-95 | the Close and Close without action buttons decode to close and forceclose of the report |
| Legacy.ActionComponents | src/audit.rs:100-107 | one Edit button, which decodes to an edit of that action |
| Legacy.FooterRoundTrip | src/audit.rs:92-98 | the action footer reads back as the report it resolves, or none |
| Legacy.LocationFromName | src/audit.rs:17-23 | a location answer decodes iff it is "SL" or "Discord" |
| Legacy.DecodeAuditModel | src/audit.rs:24-31 | a decoded modal has all five answers and carries them unchanged; a missing location is an error |
| Legacy.ToAction | src/audit.rs:33-45 | the action carries the modal's texts and location, the given report and the presser's id as decimal text |
| Prefabs.LocationName | src/prefabs.rs:27-30 | the prefilled location text decodes back to the default location |
| Prefabs.AuditLogModal | src/prefabs.rs:7-65 | the title says whether a report is being closed; the custom id is the specifier then the id or -1; five inputs in order, prefilled from the location, the report and the punishment |
| Prefabs.ModalIdRoundTrip | src/prefabs.rs:20 | the modal's custom id reads back as the specifier and the id, or -1 |
| Prefabs.Answers | src/interactions.rs:50-62 | every input's id is a key and every key is some input's id |
| Prefabs.AnswersLookup | src/interactions.rs:50-62 | with distinct input ids each id maps to its own input's value |
| Prefabs.DecodeAuditModelOf | src/audit.rs:24-31 | a map with all five answers and a valid location decodes to those answers |
| Prefabs.SubmittedAsPrefilled | src/prefabs.rs:7-65 | a modal submitted unchanged decodes to the default location and the report's id, name and reason |
| Prefabs.SpecifiedIdIsNotAnI64 | src/interactions.rs:47 | a custom id that begins with a non-digit specifier never parses as an i64 |
| LegacyDb.ReportFromRow | src/db.rs:15-18 | a report row decodes iff its status text is one of the three lowercase statuses; otherwise that text is the error |
| LegacyDb.ReportRowRoundTrip | src/db.rs:15-18 | every report written as a row reads back unchanged |
| LegacyDb.ActionFromRow | src/db.rs:20-23 | an action row decodes iff its server text is a lowercase location |
| LegacyDb.ActionRowRoundTrip | src/db.rs:20-23 | every action written as a row reads back unchanged |
| LegacyDb.GetReport | src/db.rs:15-18 | a missing id is Ok(None); a present row reads as its decoding, or fails exactly when that fails |
| LegacyDb.GetAction | src/db.rs:20-23 | a missing id is Ok(None); a present row reads as its decoding, or fails exactly when that fails |
| LegacyDb.AddReport | src/db.rs:77-91 | the report is stored under the next rowid without claimant or audit; nothing else changes |
| LegacyDb.AddReportThenGet | src/db.rs:77-91 | the stored report reads back with no claimant and no audit |
| LegacyDb.AddAction | src/db.rs:102-115 | the action is stored under the next rowid; nothing else changes |
| LegacyDb.AddActionThenGet | src/db.rs:102-115 | the stored action reads back unchanged |
| LegacyDb.AddReportMessage | src/db.rs:117-129 | one link row with the message and channel as decimal text is appended; nothing else changes |
| LegacyDb.AddActionMessage | src/db.rs:131-143 | one link row with the message and channel as decimal text is appended; nothing else changes |
| LegacyDb.ParseLink | src/db.rs:156-165 | a link reads iff both texts are u64 numbers |
| LegacyDb.GetReportMessageFromId | src/db.rs:145-168 | no link is a row-not-found error; otherwise the first link of the report, parsed |
| LegacyDb.GetAuditMessageFromId | src/db.rs:170-193 | no link is a row-not-found error; otherwise the first link of the action, parsed |
| LegacyDb.AddReportMessageThenGet | src/db.rs:117-168 | a link recorded for a report with none reads back as (channel, message) |
| LegacyDb.AddActionMessageThenGet | src/db.rs:131-193 | a link recorded for an action with none reads back as (channel, message) |
| LegacyDb.FindByMessage | src/db.rs:205-212 | a found row has that message id, and none is found exactly when no row has it |
| LegacyDb.GetAuditMessageFromReport | src/db.rs:195-224 | a missing report or one without an audit is Ok(None); a found link's message is the report's audit |
| LegacyDb.UpdateReportMessage | src/db.rs:25-46 | a missing report is an error; a report without a message link fails; a message Discord does not return fails (src/db.rs:166), before the embed is built; then a time that does not parse panics; a success needs the fetch, a parsable time and the edit, and shows the stored status's buttons and status line; a panic happens only after the fetch and is an undecodable audit or an unparsable time (src/report.rs:56) |
| LegacyDb.UpdateAuditMessage | src/db.rs:48-74 | a missing action or message link fails; a success has a numeric claimant, the Edit button and the footer of the stored report |
| LegacyInteractions.ClaimedRow | src/interactions.rs:114-120 | the row decodes as Claimed with the presser as claimant; only status and claimant change |
| LegacyInteractions.ForceClosedRow | src/interactions.rs:144-150 | the row decodes as Closed with the presser as claimant; only status and claimant change |
| LegacyInteractions.ModalClosedRow | src/interactions.rs:80-87 | the row decodes as Closed with the submitter as claimant and the audit message as audit; nothing else changes |
| LegacyInteractions.UpdateRow | src/interactions.rs:114-120 | the row with that id is rewritten and every other row, and every other table, is kept |
| LegacyInteractions.OnButton | src/interactions.rs:95-157 | an undecodable id panics; only a deferred claim or forceclose writes, and only to the pressed report; after such a write the refresh's errors are dropped, but the press panics exactly when the refresh panics, which needs the report message to have been fetched first; close answers with the modal for that report |
| LegacyInteractions.ClaimButtonClaims | src/interactions.rs:111-121 | a claim marks the report Claimed by the presser, keeps its time and links, and panics exactly when the refresh does |
| LegacyInteractions.ForceCloseButtonCloses | src/interactions.rs:142-151 | a force-close marks the report Closed by the presser and keeps its audit, and panics exactly when the refresh does |
| LegacyInteractions.CloseButtonOpensModal | src/interactions.rs:122-129 | close writes nothing and opens the modal, prefilled exactly when the report reads back |
| LegacyInteractions.ReportButtonsHandled | src/interactions.rs:110-153 | no button on a report message panics the handler |
| LegacyInteractions.KnownKindHandled | src/interactions.rs:110-151 | claim, close and forceclose never reach the unreachable arm |
| LegacyInteractions.EditButtonPanics | src/interactions.rs:152 | pressing an audit message's Edit button panics and writes nothing |
| LegacyInteractions.ClaimThenView | src/interactions.rs:111-154 | after a claim of a report with a message Discord returns and a parsable time, the press is acknowledged and the refreshed message shows the Claimed buttons |
| LegacyInteractions.ClaimThenBadTimePanics | src/interactions.rs:111-154 | claiming a report whose message Discord returns but whose time does not parse writes the claim and then panics in the refresh |
| LegacyInteractions.ClaimFetchFailsBeforePanic | src/db.rs:35-41 | when Discord does not return the message, a claim is acknowledged even with an unparsable time: the fetch fails before the embed is built |
| LegacyInteractions.OnModel | src/interactions.rs:39-92 | an undeferred or unparsable submission writes nothing; bad answers write nothing; a stored action goes to its location's channel; no link is recorded; only a report id above 0 closes a report; after the close the refresh's errors are dropped and the submission panics exactly when the refresh panics |
| LegacyInteractions.ModalClosesReport | src/interactions.rs:67-88 | a submitted report modal closes the report with the submitter as claimant and the audit message as audit, and the status line reads back as closed by them with a link; the refresh then panics exactly when Discord returns the message and the time does not parse |
| LegacyInteractions.ClosedRefreshPanics | src/db.rs:25-46 | a closed report whose audit is a message id refreshes without a panic unless its message is returned and its time does not parse |
| LegacyInteractions.ModalClosesThenRefreshes | src/interactions.rs:73-88 | a report modal from the report message stores the action and closes the report before the refresh, and ends in a panic exactly when refreshing the closed report panics |
| LegacyInteractions.ModalThenBadTimePanics | src/interactions.rs:73-88 | a report modal whose report has an unparsable time records the action, closes the report and then panics in the refresh |
| LegacyInteractions.ModalAuditNotFound | src/interactions.rs:73-88 | the closed report's audit message is never found, because the modal records no link for it |
| LegacyInteractions.PrefabModalRejected | src/interactions.rs:47 | the prefab modal's custom id fails the handler's parse, so its submission writes nothing |
| LegacyMessages.OldStatusFromName | src/report.rs:109-116 | the status field decodes iff it is Open, Claimed or Closed |
| LegacyMessages.OptionalText | src/report.rs:26-29 | a defaulted text field is present exactly when given, and then is the given text |
| LegacyMessages.OldEntryError | src/report.rs:8-30 | an entry fails when its field was already given under its caption or when it is a status that is no variant; claimant and audit texts never fail |
| LegacyMessages.OldDecodeFields | src/report.rs:8-30 | the fields taken once the entries are read: Open when no status is given, a claimant or audit exactly when given, and a missing reporter id is an error |
| LegacyMessages.OldDecodeReport | src/main.rs:212 | the first failing entry in key order decides the error; a missing reporter id is reported only when every entry read cleanly; a decoded report is Open when no status is given and has a claimant or audit exactly when given |
| LegacyMessages.ClaimantTextOnlyOld | src/report.rs:26-29 | a claimant text the older bot keeps is an invalid-type error for the newer one |
| LegacyMessages.OldAndNewerEntriesAgree | src/report.rs:8-30 | on a map without claimant, audit or the Expired status an entry fails for one bot exactly as it fails for the other |
| LegacyMessages.OldAndNewerFieldsAgree | src/report.rs:8-30 | on such a map both bots take the same fields, or fail with the same error |
| LegacyMessages.OldAndNewerDecodeAgree | src/main.rs:198-222 | on a map without claimant, audit or the Expired status both bots decode the same report, or both fail with the same error |
| LegacyMessages.OldReportFromMsg | src/main.rs:198-222 | no embed, or a first embed not titled "Player Report", is not a report |
| LegacyMessages.AsNewer | src/report.rs:8-30 | the newer report with the same texts |
| LegacyMessages.OldReportFromMsgRoundTrip | src/main.rs:198-222 | a game-server report without backticks reads back as the same report |
| LegacyMessages.OldDecodeCaptionMap | src/report.rs:8-30 | the captions of a new report decode to that report |
| LegacyMessages.PostReport | src/main.rs:256-289 | the report is stored under the next id without claimant and audit before its embed is built; building it panics exactly on an audit that is not a message id or an unparsable time (src/report.rs:33-75); a sent message is linked, a panic or a failed send leaves no link |
| LegacyMessages.OldOnMessage | src/main.rs:241-296 | a message that is not a report or fails to decode writes nothing; a decoded report with an unparsable time is stored and then panics; a report is posted exactly when it decodes, its embed builds and the send succeeds |
| LegacyMessages.OldOnMessageStores | src/main.rs:241-289 | a posted report with a parsable time reads back under the next id, linked to its message |
| LegacyMessages.OldOnMessageBadTimePanics | src/main.rs:266-273 | a report whose time does not parse is stored, then building its embed panics: nothing is posted or linked |
| LegacyMessages.ImportedReports | src/commands/import.rs:24-44 | at most one report per message, every one Closed |
| LegacyMessages.DecodeAll | src/commands/import.rs:24-44 | each message is run through the game server's decoder, in order |
| LegacyMessages.ClosedReports | src/commands/import.rs:24-44 | the kept reports number at most the decoded messages and are all Closed |
| LegacyMessages.ImportedReportsComplete | src/commands/import.rs:24-44 | every message that decodes to a report contributes that report, Closed |
| LegacyMessages.ClosedReportsContains | src/commands/import.rs:24-44 | every decoded report is kept, Closed, whatever the other messages hold |
| LegacyMessages.Reverse | src/commands/import.rs:51 | the list in reverse order |
| LegacyMessages.InsertAll | src/commands/import.rs:52-55 | the inserts succeed iff none fails, each success takes the next id, and earlier rows and other tables are kept |
| LegacyMessages.InsertAllStores | src/commands/import.rs:53-55 | every id taken holds the matching report of the list, without claimant or audit |
| LegacyMessages.Import | src/commands/import.rs:12-58 | a failed first response writes nothing; existing reports and other tables are kept |
| LegacyMessages.InsertAllGet | src/commands/import.rs:53-55 | without failures every report reads back under consecutive ids |
| LegacyMessages.ImportStoresClosedOldestFirst | src/commands/import.rs:30-55 | a completed import stores every decodable report Closed, oldest message first |
| LegacyMessages.ImportInsertsReversed | src/commands/import.rs:30-55 | a completed import inserts the decoded reports newest message first, all of them Closed |
| LegacyMessages.InsertReversedGet | src/commands/import.rs:51-55 | inserting closed reports newest first stores the i-th from the end at the i-th id, Closed |
| LegacyTasks.OpenCandidatesFrom | src/expire.rs:36-38 | only rows stored as 'open', with their times, in increasing id order |
| LegacyTasks.OpenCandidatesComplete | src/expire.rs:36-38 | every row stored as 'open' is a candidate |
| LegacyTasks.OverdueIdsIncreasing | src/expire.rs:41-48 | the picked ids keep the query's increasing order |
| LegacyTasks.OldExpiredRow | src/expire.rs:55-58 | only the status text changes, and it is a text the older status type cannot read |
| LegacyTasks.OldSweep | src/expire.rs:28-66 | the sweep stops on an unparsable time exactly when some open time does not parse; otherwise only report rows change, in increasing id order |
| LegacyTasks.OldSweepPicks | src/expire.rs:36-48 | a report is picked exactly when it is stored as open and its time is more than 48 hours old |
| LegacyTasks.IncreasingDistinct | src/expire.rs:41-48 | increasing ids are distinct |
| LegacyTasks.OldSweepExact | src/expire.rs:54-64 | after a completed sweep a report is expired exactly when it was open and overdue |
| LegacyTasks.OldSweepAbortPrefix | src/expire.rs:54-60 | a failing update ends the task with the reports before it expired and no other change |
| LegacyTasks.OldExpiredUnreadable | src/expire.rs:55-58 | every report the older sweep expires can no longer be read or shown |
| LegacyTasks.ReadOldTimeoutText | src/guild_audit.rs:47 | only a text that begins with the timeout wording is read |
| LegacyTasks.OldTimeoutTextRoundTrip | src/guild_audit.rs:47 | the timeout text determines the i64 unix timestamp it was written from |
| LegacyTasks.OldTimeoutAction | src/guild_audit.rs:38-51 | a Discord action by the entry's author with no report, targeting the user by id and display name, "???" without a reason, and its text reads back as the timestamp |
| LegacyTasks.OldApplyChanges | src/guild_audit.rs:26-71 | only new timeout actions by the invoker are added, at most one per timeout before the first lift; a missing target fails before any write |
| LegacyTasks.OldApplyChangesCount | src/guild_audit.rs:26-71 | with the target found and every send succeeding, exactly one action per timeout before the first lift |
| LegacyTasks.OnOldGuildAudit | src/guild_audit.rs:14-78 | anything but a member update is ignored; otherwise only timeout actions by the invoker are added |
| LegacyTasks.OldGuildAuditSingleTimeout | src/guild_audit.rs:29-67 | a single delivered timeout reads back as its action, linked to its message in the Discord audit channel |
| LegacyTasks.OldGuildAuditLiftStops | src/guild_audit.rs:52-54 | a lifted timeout first ends the handler with nothing written |
| Query.CollectOptions | src/commands/query.rs:50-61 | collecting fails exactly when some option is neither a string nor a user |
| Query.CollectSnoc | src/commands/query.rs:50-61 | collecting one more option inserts it into the map built so far |
| Query.CollectLastWins | src/commands/query.rs:50-61 | an option not repeated later keeps its own value in the map |
| Query.StringArg | src/commands/query.rs:234-246 | an absent field is None, a string is itself, and a user is its decimal id |
| Query.UserArg | src/commands/query.rs:234-246 | an absent field is None, a user is its id, and a string reads only when it is a u64 |
| Query.StatusArg | src/commands/query.rs:236 | an absent status is None; a read status is the variant the string names |
| Query.ServerArg | src/commands/query.rs:245 | an absent server is None; a read server is the location the string names |
| Query.ParseCommand | src/commands/query.rs:38-66 | no option is an error; a result needs a subcommand, reports or actions by name; any other name is an invalid subcommand |
| Query.PutSent | src/commands/query.rs:50-61 | sending an option sets exactly its own field and leaves the others |
| Query.CollectSent | src/commands/query.rs:50-61 | collecting an optional option is putting it into the map so far |
| Query.StatusName | src/commands/query.rs:259-263 | the status choice's text reads back as that status |
| Query.ReportArgsOfMap | src/commands/query.rs:63-65 | a map holding exactly the given fields decodes to those report arguments |
| Query.CollectReportOptions | src/commands/query.rs:50-61 | the options Discord sends for report arguments collect into their map |
| Query.ReportMapHolds | src/commands/query.rs:235-240 | that map holds a field exactly when the argument is given, with its value |
| Query.ReportArgsOfOptions | src/commands/query.rs:50-65 | any report arguments, sent as options, are read back unchanged |
| Query.ActionArgsOfMap | src/commands/query.rs:63-65 | a map holding exactly the given fields decodes to those action arguments |
| Query.CollectActionOptions | src/commands/query.rs:50-61 | the options Discord sends for action arguments collect into their map |
| Query.ActionMapHolds | src/commands/query.rs:242-246 | that map holds a field exactly when the argument is given, with its value |
| Query.ActionArgsOfOptions | src/commands/query.rs:50-65 | any action arguments, sent as options, are read back unchanged |
| Query.ParseCommandRoundTrip | src/commands/query.rs:38-66 | any query, sent as its subcommand and options, parses back to itself |
| Query.ExpiredChoiceRejected | src/commands/query.rs:259-263 | the registered Expired choice fails to decode as a status |
| Query.FilterIf | src/commands/query.rs:73-88 | at most one clause, present only when the argument is given |
| Query.Clauses | src/commands/query.rs:74-91 | one `column = ?` clause per filter, in order |
| Query.Columns | src/commands/query.rs:74-91 | the filtered columns, in order |
| Query.Values | src/commands/query.rs:75-88 | the bound texts, in order |
| Query.BuildQuery | src/commands/query.rs:68-121 | the binds are the filters' values in clause order |
| Query.ReadClausesOfJoin | src/commands/query.rs:89-92 | the joined clauses read back as their columns |
| Query.NoPlaceholderAppend | src/commands/query.rs:72-88 | clauses from two lists without '?' in any column combine into such a list |
| Query.FilterIfClean | src/commands/query.rs:73-88 | a clause on a column without '?' adds no stray placeholder |
| Query.ReportFiltersClean | src/commands/query.rs:73-88 | no report column contains '?' |
| Query.ActionFiltersClean | src/commands/query.rs:98-109 | no action column contains '?' |
| Query.FiltersHaveNoPlaceholder | src/commands/query.rs:69-116 | no filter column of either query contains '?' |
| Query.StatementReadsBack | src/commands/query.rs:89-117 | select, where part and ordering read back as the filtered columns |
| Query.WherePlaceholders | src/commands/query.rs:89-92 | the where part holds one '?' per filter |
| Query.OrderByClean | src/commands/query.rs:117 | the ordering holds no '?' |
| Query.StatementPlaceholders | src/commands/query.rs:71-117 | the whole statement holds one '?' per filter |
| Query.QueryReadsBack | src/commands/query.rs:68-117 | the statement filters exactly the given columns, in order, and ends with "order by id desc" |
| Query.JoinPlaceholders | src/commands/query.rs:91 | the joined clauses hold one '?' per clause |
| Query.ReportSelectClean | src/commands/query.rs:71 | the report select holds no '?' |
| Query.ActionSelectClean | src/commands/query.rs:96 | the action select holds no '?' |
| Query.PlaceholdersMatchBinds | src/commands/query.rs:117-121 | the statement has exactly as many placeholders as values bound |
| Query.ReportPassesAppend | src/commands/query.rs:89-92 | a row passes joined clauses iff it passes both parts |
| Query.ReportPassesIf | src/commands/query.rs:73-88 | a row passes an optional clause iff the argument is absent or the column equals it |
| Query.StatusClauseMeaning | src/commands/query.rs:73-76 | the stored status text equals the bound text iff it decodes to that status |
| Query.ReportWhereMeaning | src/commands/query.rs:69-94 | a report row passes the where part iff it matches every given argument |
| Query.ActionPassesAppend | src/commands/query.rs:110-113 | a row passes joined clauses iff it passes both parts |
| Query.ActionPassesIf | src/commands/query.rs:98-109 | a row passes an optional clause iff the argument is absent or the column equals it |
| Query.ActionWhereMeaning | src/commands/query.rs:95-115 | an action row passes the where part iff it matches every given argument |
| Query.Rows | src/commands/query.rs:132-144 | the rows of the stream, summaries skipped |
| Query.CollectRows | src/commands/query.rs:129-144 | the count is every row, and the first ten rows are kept |
| Query.LinkShown | src/commands/query.rs:152-162 | both ids give the message link; a missing one gives the fallback text |
| Query.LinkNotFallback | src/commands/query.rs:158-162 | a link never looks like the fallback text |
| Query.ReportLine | src/commands/query.rs:150-182 | the line exists iff the status decodes and its status text can be built |
| Query.ActionLine | src/commands/query.rs:183-209 | the line exists iff the stored server decodes |
| Query.ReportLines | src/commands/query.rs:148-211 | the lines exist iff every kept row's line does |
| Query.ActionLines | src/commands/query.rs:148-211 | the lines exist iff every kept row's line does |
| Query.AnswerReports | src/commands/query.rs:129-227 | the footer counts every row, and an answer exists iff each of the first ten lines can be built |
| Query.AnswerActions | src/commands/query.rs:129-227 | the footer counts every row, and an answer exists iff each of the first ten lines can be built |
| Query.ExpiredRowPanics | src/commands/query.rs:164 | a stored 'expired' report cannot be shown |
| Past.MatchingFrom | src/commands/past.rs:47-54 | every row returned matches the filtered column and is the stored row, in increasing row id |
| Past.MatchingComplete | src/commands/past.rs:47-54 | no stored report whose column matches the user is missed by the scan |
| Past.InsertByTime | src/commands/past.rs:47 | inserting into a newest-first list keeps it newest first and adds exactly that row |
| Past.SortByTime | src/commands/past.rs:47 | `order by time desc` yields a newest-first permutation of the matching rows |
| Past.PrefixIsNewest | src/commands/past.rs:47 | a prefix of a newest-first list is newest first, a sub-multiset, and nothing left out is newer than anything kept |
| Past.RecentIsNewest | src/commands/past.rs:47-53 | each list holds min(5, matches) matching reports, newest first, and no matching report left out is newer than a listed one |
| Past.ActionsFrom | src/commands/past.rs:59-60 | every action returned targets the user and is the stored row |
| Past.DecodeReports | src/commands/past.rs:47-53 | the fetch fails exactly when some listed row does not decode; otherwise each row decodes in place |
| Past.DecodeActions | src/commands/past.rs:59 | the fetch fails exactly when some listed action does not decode; otherwise one action per row |
| Past.ReportLines | src/commands/past.rs:69-78 | the lines exist exactly when every listed time parses as a timestamp and every status has a text |
| Past.Fetch | src/commands/past.rs:47-60 | a read error ends the command with that error; a success passes the value through |
| Past.PastWith | src/commands/past.rs:45-83 | the counts are the sizes of the full matching sets, the description shows them, and success needs both report lists to decode |
| Past.PastAsWritten | src/commands/past.rs:51-56 | as written, the "Reported" count is the number of reports the user filed |
| Past.Past | src/commands/past.rs:45-83 | as intended, the counts are reports against the user, reports filed by the user, and actions against the user |
| Past.AsWrittenCountsRepeat | src/commands/past.rs:48-54 | as written, the two report counts always coincide |
| Past.AsWrittenMiscounts | src/commands/past.rs:53-54 | one report filed by "a" against "b": b's list shows it, yet b is said to be reported 0 times |
| Past.PastCountsMatchLists | src/commands/past.rs:47-56 | as intended, each report list shows min(5, its count) entries |
| Past.PastCountsReportsAgainst | src/commands/past.rs:53 | a stored report is counted against the user exactly when its reported id is the user |
| Past.ExpiredListedFails | src/commands/past.rs:53 | a listed report whose status text is 'expired' makes the command fail |
| Fields.Lookup | common/src/lib.rs:3-25 | a field given under none of its names is absent; given under exactly one name, it is the text stored there; it is an error exactly when two of its names are given |
| Fields.Required | common/src/lib.rs:3-25 | a required field given under none of its names is a missing-field error naming the field; success returns text stored under one of its names |
| Fields.RequiredPresent | common/src/lib.rs:5-6 | a field given only under its alias decodes to that text |
| Fields.RequiredDuplicate | common/src/lib.rs:5-6 | a field given under both its name and its alias is rejected |
| Fields.FirstError | lurk_chan/src/lib.rs:10-12 | there is no error exactly when every entry reads cleanly; otherwise the error is that of one of the entries |
| Fields.FirstErrorIsFirst | lurk_chan/src/lib.rs:10-12 | the error reported is that of an entry before which every entry reads cleanly |
| Fields.FirstErrorAt | lurk_chan/src/lib.rs:10-12 | a failing entry after entries that all read cleanly decides the error |
| Stats.FkText | src/stats.rs:72 | the violations field reads "None" exactly when there are none, and digits otherwise |
| Stats.FkTextReadsBack | lurk_chan/src/tasks/stats.rs:143-149 | a nonzero violation count parses back from its field |
| Stats.IntegrityText | src/stats.rs:73 | the integrity field reads "OK" exactly when the check passed |
| Stats.DbEmbed | lurk_chan/src/tasks/stats.rs:102-168 | failure title exactly when the numbers are missing; healthy title and green exactly when no key is violated and integrity passed; the four counts shown in order |
| Stats.OldDbData | src/stats.rs:49-58 | the counts are the sizes of the four tables; healthy exactly when the key check returns no rows and the integrity check answers "ok" |
| Stats.OldCountsFollowInsert | src/stats.rs:50-53 | filing one report raises the report count by one and changes no other number |
| Stats.NewDbData | lurk_chan/src/tasks/stats.rs:103-120 | healthy exactly when no key is violated and the integrity check returned without error |
| Stats.CountStatus | lurk_chan/src/tasks/stats.rs:181-183 | a status count never exceeds the number of reports |
| Stats.CountServer | lurk_chan/src/tasks/stats.rs:184-185 | a server count never exceeds the number of actions |
| Stats.CountUnlinked | lurk_chan/src/tasks/stats.rs:186 | the count of actions without a report never exceeds the number of actions |
| Stats.DetailedStats | lurk_chan/src/tasks/stats.rs:172-187 | "Closed Reports" counts closed and expired reports together; the other five numbers are their own counts |
| Stats.DetailedPartitions | lurk_chan/src/tasks/stats.rs:181-185 | open, claimed and closed cover every report once; SL and Discord audits cover every action once |
| Stats.StatusesPartition | common/src/lib.rs:27-33 | the four statuses split the reports with no overlap |
| Stats.ServersPartition | lurk_chan/src/tasks/stats.rs:184-185 | the two locations split the actions with no overlap |
| Stats.DetailedEmbed | lurk_chan/src/tasks/stats.rs:189-201 | six fields, the third showing the closed-or-expired count |
| Stats.ChangelogLines | lurk_chan/src/tasks/stats.rs:208-210 | the kept lines are a prefix of the file, none empty, stopping at the first empty line |
| Stats.Unlines | lurk_chan/src/tasks/stats.rs:211-214 | there is at least one line break per kept line, and the text ends in one when any line is kept |
| Stats.SplitLines | lurk_chan/src/tasks/stats.rs:209 | `lines()` gives pieces that hold no line break |
| Stats.SplitLinesStep | lurk_chan/src/tasks/stats.rs:209 | a line and its line break come off the front of the text as that line |
| Stats.UnlinesRoundTrip | lurk_chan/src/tasks/stats.rs:209-214 | splitting the written changelog into lines gives back the lines written, so each ended in a line break |
| Stats.ChangelogStopsAtBlank | lurk_chan/src/tasks/stats.rs:208-214 | exactly the lines before the first blank line are shown, whatever follows it |
| Stats.Distinct | src/stats.rs:90-92 | the groups are the claimants that occur, each once |
| Stats.Tally | src/stats.rs:90-92 | one entry per claimant, holding the number of rows that claimant has |
| Stats.InsertByCount | src/stats.rs:90-92 | inserting into a count-descending list keeps it descending and adds exactly that entry |
| Stats.InsertKeepsDistinct | src/stats.rs:90-92 | inserting a new claimant keeps claimants distinct |
| Stats.SortByCount | src/stats.rs:90-92 | `order by count desc` yields the same entries in descending count order |
| Stats.SortKeepsDistinct | src/stats.rs:90-92 | sorting keeps claimants distinct |
| Stats.Leaderboard | src/stats.rs:88-93 | min(limit, claimants) entries in descending count order |
| Stats.LeaderboardCountsTrue | src/stats.rs:90-92 | every listed claimant occurs, with their true row count, and is listed once |
| Stats.LeaderboardIsTop | src/stats.rs:88-93 | a claimant left off is only left off a full board, and has no more rows than anyone on it |
| Stats.NonNull | src/stats.rs:90 | `claimant is not null` keeps exactly the set claimants, each as often as they occur |
| Stats.LeaderboardLines | lurk_chan/src/tasks/stats.rs:76-95 | a board renders one line per entry when no claimant holds a line break |
| Stats.LineNewlines | src/stats.rs:112 | each entry's line holds exactly one line break |
| Stats.OldLeaderboards | src/stats.rs:87-106 | both boards exactly when both queries succeed; otherwise the reports query's error if it failed, else the actions' |
| Stats.OldReportsBoardClaimed | src/stats.rs:90-112 | every reports-board entry is a claimant who claimed at least one report, and there are at most ten, so the "null" fallback never applies |
| Stats.OldLeaderboardEmbed | src/stats.rs:108-127 | the board title and the time stamp exactly when both queries succeeded; the failure notice otherwise |
| Stats.ChangelogEmbed | lurk_chan/src/tasks/stats.rs:205-235 | two fields: the changelog text, and an uptime field that reads back as the uptime |
| StatsTask.OldStatsTick | src/stats.rs:47-129 | the message always gets two embeds; the first shows failure exactly when the numbers failed, the second the board exactly when both queries succeeded |
| StatsTask.NewEmbeds | lurk_chan/src/tasks/stats.rs:57-59 | four embeds, the uptime readable from the first and the time stamped on the last |
| StatsTask.NewEmbedsHealth | lurk_chan/src/tasks/stats.rs:162-167 | the health embed shows failure exactly when the numbers failed |
| StatsTask.NewStatsTick | lurk_chan/src/tasks/stats.rs:50-61 | the tick succeeds exactly when the breakdown and the boards succeed, and fails with the first failure otherwise |
| StatsTask.LeaderboardFailureDiffers | src/stats.rs:122-126 | a failed reports query gives the older bot a failure notice but fails the newer bot's whole tick |
| Uptime.UptimesShown | lurk_chan/src/tasks/stats.rs:35-46 | the i-th render shows 30·i seconds: the first shows zero |
| Uptime.Pad2 | lurk_chan/src/tasks/stats.rs:227 | each group is all digits, at least two of them |
| Uptime.Pad2Value | lurk_chan/src/tasks/stats.rs:227 | the padded group reads back as its number |
| Uptime.ClockOf | lurk_chan/src/tasks/stats.rs:228-231 | hours below 24, minutes and seconds below 60, and together they make up the uptime |
| Uptime.ClockOfSeconds | lurk_chan/src/tasks/stats.rs:228-231 | a clock within its ranges is recovered from its own seconds |
| Uptime.SplitFieldsOfJoin | lurk_chan/src/tasks/stats.rs:227 | four digit groups joined by colons split back into those groups |
| Uptime.ClockTextReadsBack | lurk_chan/src/tasks/stats.rs:226-232 | every clock reads back from its text |
| Uptime.UptimeRoundTrip | lurk_chan/src/tasks/stats.rs:224-233 | the uptime field shows the uptime exactly |
| Uptime.UptimeUnderAMinute | lurk_chan/src/tasks/stats.rs:224-233 | under a minute reads as zero days, hours and minutes and the padded seconds |

## Left out

- Discord I/O: sending, editing and deleting messages, modal collection (`lurk_chan/src/modal_bullshit.rs`), and channel, guild and role lookups. A send is an input that either yields a `(channel, message)` pair or fails.
- `MessageId::new(0)` panics in serenity. Stored ids are modelled as any `u64`.
- The SQL engine itself: migrations, connection pools (`src/lc.rs`), `VACUUM`, writing the backup file, and `PRAGMA foreign_key_check` / `integrity_check`. Their results are inputs.
- The newer `Database` crate's count and leaderboard queries. Their numbers are inputs to `Stats.NewDbData` and `StatsTask.NewStatsTick`.
- Concurrency: tokio tasks, the shutdown manager, the task spawner and the intervals. A race is shown as two sequential runs from one state (`Lifecycle.DuplicateActions`).
- Timestamp and ISO-8601 parsing (chrono, serenity). The parser is a function parameter, and a parse failure is its `None`. Where the source `expect`s the parse, a `None` is a panic.
- Followup and response failures after the store was written. They change no state.
- The changelog file. It arrives as a sequence of lines; `str::lines()` is modelled by `Stats.SplitLines` for text without carriage returns.
- The stats message lookup, its first send, and the edit that publishes it.
- The `expect` on the import channel and the `expect`s on `/past`'s options. They are treated as always present.
- Errors of the row stream in `/query` other than row decoding.
- `do_sl_subs` (`lurk_chan/src/event.rs:346`). It is a function parameter `subs`.
- FTS5 search (`src/commands/search.rs`), the consoles (`src/console.rs`, `lurk_chan/src/tasks/console.rs`), autorespond randomness and `build.rs`.
- `lurk_chan/src/commands/past.rs`: `collect_user_info` is not part of this model.
- Commands that only open a modal or look up one report, ping, and the judgement and report-message stubs.
- Database.EditAction: replaces the action row only. The edit history (a JSON patch) that `edit_action` also keeps is not part of this model.
- Move.MoveAudit: the history entry written by the move goes through `edit_action` and is left out for the same reason. A failed `create_action_embed` is folded into a failed send (`sent` is None), since both end the command at the same point.
- Storage errors of single statements are not modelled: `add_report`, `add_action`, `claim_report`, `close_report`, `edit_action`, `add_report_message`, `add_action_message` and the older bot's equivalents always succeed, because the store is a value. In the source each of these `?` can fail and end the handler, keeping the writes already made. Only the expiry sweeps (including `expire_report`) and the `/import` inserts take a failure input.
- Past.PastWith: the opening deferral (`create_response(Defer) … ?`, `src/commands/past.rs:23-30`) is not modelled. The model starts at the database reads; a failed deferral ends the command before them, and the command writes nothing either way.
- Query.AnswerReports: the opening deferral (`src/commands/query.rs:30-37`) is not modelled. The model starts at the fetched rows; a failed deferral ends the command before the query, and the command writes nothing either way.
- Query.AnswerActions: the opening deferral (`src/commands/query.rs:30-37`) is not modelled, as for `Query.AnswerReports`.
- Stats.ChangelogEmbed: takes the file already split into lines. `Stats.SplitLines` covers a trailing newline but not `\r\n`.
- Uptime.ClockOf: models chrono's truncating `num_*` for non-negative durations only. Dafny's division agrees with truncation there, and every uptime shown is non-negative (`Uptime.UptimesShown`).
- StatsTask.NewStatsTick: which error `try_join!` returns when several futures fail depends on timing. The model returns the breakdown's error before the boards'.

## Findings

| source | as written | input that shows it | evidently intended | confidence | as-written member | corrected member |
|---|---|---|---|---|---|---|
| src/main.rs:186 | `remove_file(oldest)` passes the bare file name, so the path resolves against the working directory, not `backups/` | 25 backups in `backups/`: the name of the first, relative to the working directory, names no backup, and all 25 stay | remove `backups/<oldest>`, as `lurk_chan/src/tasks/mod.rs:113` does | high (not executed) | Backup.OlderRemovalAsWrittenKeepsAll | Backup.OlderRemovalRemovesOldest |
| lurk_chan/src/commands/audit.rs:59 | the `sl` subcommand passes `Location::Discord` | `/audit sl` with any modal: the action is stored with server "discord" and sent to the Discord audit channel | `Location::SL` | high (not executed) | Ingest.SlAuditRecordedAsDiscord | Ingest.AuditCommandStores |
| src/commands/past.rs:54 | the "Reported N time(s)" count filters `reporter_id` | one report filed by "a" against "b": `/past b` lists it under the reports against b and says b was reported 0 times | filter `reported_id`, as the list at line 53 does | high (not executed) | Past.AsWrittenMiscounts | Past.PastCountsMatchLists |
| src/expire.rs:55-58 | the sweep writes status 'expired', which the older `ReportStatus` (src/report.rs:109-116) has no variant for | an open report older than 48 hours: after the sweep every read of it fails to decode | a status the bot can read back, as the newer bot's four-status `ReportStatus` provides | medium (not executed) | LegacyTasks.OldExpiredUnreadable | Database.ExpireThenGet |

## Notes on the source

Where the two generations, or a file and its callers, disagree, the model
follows each file's own code:

- The newer `Report` in `common/src/lib.rs:3-25` has an `audit` field but no `location`. The newer bot reads `report.location` (`lurk_chan/src/event.rs:204`, `lurk_chan/src/lib.rs:73`, `lurk_chan/src/commands/report_to_admin.rs:47`). The model keeps both fields. A report decoded from an embed gets `Common.DefaultLocation`.
- The Reports table (`database/src/lib.rs:79-103`) has no location column. `add_report` therefore drops a report's location, and `into_report` gives it the default, SL. A report filed through `report_to_admin` as Discord reads back as SL (`Ingest.ReportToAdminsStores`).
- `database/src/lib.rs` holds only `get_report_from_id`, `add_report` and `get_action_from_id` among the store operations. The bodies of these members are rebuilt from their call sites in `lurk_chan/src` and from the older bot's matching SQL (`src/db.rs`, `src/interactions.rs`, `src/expire.rs`):
  - `Database.AddAction`, `Database.EditAction`
  - `Database.ClaimReport`, `Database.CloseReport`, `Database.ExpireReport`
  - `Database.AddReportMessage`, `Database.AddActionMessage`
  - `Database.GetReportMessage`, `Database.GetActionMessage`, `Database.GetActionMessageFromReportId`
  - `Database.AllReportsWithStatus`
- The newer expiry task refreshes each expired report's message (`lurk_chan/src/tasks/mod.rs:161`). It picks only reports whose time parsed, so the model takes that refresh not to panic on the time; `Expiry.ExpireSweep` does not model the refresh.
- Reading a message link (`Store.FindLink`) returns the first matching row in insertion order. The selects have no `ORDER BY`, so this relies on SQLite returning rows of a plain table scan in rowid order. `Database.AddActionMessageKeepsFirst` and `Move.MoveKeepsOldLink` ("the first link wins") rest on it.
- Older bot, `/query`: `src/commands/query.rs:75` and `:108` bind `status.to_string()` and `server.to_string()`. `src/report.rs:109-116` and `src/audit.rs:17-23` define no `Display` for those enums, and `src/commands/mod.rs` declares no `mod query`. The model assumes the text bound is the lowercase stored text (`Query.StatusBind`, `Query.ServerBind`). `Query.StatusClauseMeaning`, `Query.ReportWhereMeaning` and `Query.ActionWhereMeaning` rest on that assumption.
- Decoding a report (`transmute_json`, `lurk_chan/src/lib.rs:10-12`, and `src/main.rs:212`) goes through a serde_json map. The model assumes serde_json's default features: without `preserve_order` that map is a `BTreeMap`, so serde reads the keys in byte order. It stops at the first entry it cannot take: a field seen twice, a claimant text, or a status that is no variant. Missing fields are looked for only after the last entry, in declaration order. `Events.DecodeReport` and `LegacyMessages.OldDecodeReport` read the entries in that order before taking the fields.
- `Location`'s `Display`/`FromStr` and `common::Error` are not part of this model. The location codec uses the older bot's lowercase names (`src/audit.rs:17-23`), and it is a bijection.
- Older bot, commands:
  - `src/commands/mod.rs` gives `query` and `judgement` no permission level, so they are refused as `Invalid`.
  - Registering such a command would panic on its `assert_ne!`.
  - `when` is God-level, which fits nobody.
- Older bot, `/query`: its status option offers an Expired choice the three-status enum cannot read.
- Older bot, `/past`:
  - It labels its lists "Recent reported" (reports the user filed) and "Recent reports" (reports against the user) the other way round from their contents.
  - Its action query has no `ORDER BY`, so actions come in row-id order.
- SQLite leaves ties in `ORDER BY time` and `ORDER BY count` unordered. The model breaks them one fixed way, and no contract depends on how ties fall.
- Older bot, interactions:
  - `src/interactions.rs:47` parses the modal id as `i64`. The id `src/prefabs.rs:20` builds starts with a specifier character, which that parse rejects.
  - The calls at `src/interactions.rs:88`, `128` and `154` do not match the arities of `src/db.rs` and `src/prefabs.rs`.
  - `src/main.rs:287` applies `!` to a `Result`.
  - Where a call's arity is off, the model follows the callee's parameters.
  - `on_model` (`src/interactions.rs:40`) stores the action but never records its message with `add_action_message`.
- Older bot, statuses and buttons:
  - A closed report's status text always links into the `SL_AUDIT` channel (`src/report.rs:77`), whatever the action's location.
  - An audit message's Edit button reaches no handler, so pressing it panics.
- Both bots: claiming checks no status, so a report in any state becomes claimed.
- Newer bot: its stats task ends on the first failure of the breakdown or the leaderboards, where the older one shows a failure notice.
- Older bot, stats: the reports leaderboard's `unwrap_or("null")` cannot fire (`Stats.OldReportsBoardClaimed`).
- `{:<02}` pads with zeros on the left, whatever the alignment flag says. This is how `Uptime.Pad2` reads it.
