/** One tick of each bot's stats task: which embeds the stats message gets
    and which failures end the task (`src/stats.rs`,
    `lurk_chan/src/tasks/stats.rs`). */
module StatsTask {
  import opened Wrappers
  import opened Stats
  import Uptime

  /** A stats message: its content and its embeds. */
  datatype StatsMessage = StatsMessage(content: string, embeds: seq<Embed>)

  /** One tick of the older bot: it always edits the message, with the
      health embed and the leaderboard embed, whatever failed. */
  function OldStatsTick<E>(dbData: Result<DbData, E>, reports: Result<seq<Option<string>>, E>,
                           actions: Result<seq<string>, E>, now: int): (m: StatsMessage)
    ensures m.content == "Stats:" && |m.embeds| == 2
    ensures m.embeds[0].title == FailureTitle <==> dbData.Err?
    ensures m.embeds[1].title == "Leaderboard" <==> reports.Ok? && actions.Ok?
  {
    StatsMessage("Stats:", [DbEmbed(dbData), OldLeaderboardEmbed(OldLeaderboards(reports, actions), now)])
  }

  /** The newer bot's four embeds, the last one stamped with the time. */
  function NewEmbeds<E>(version: string, changelog: seq<string>, uptime: nat, dbData: Result<DbData, E>,
                        detailed: Detailed, reports: seq<Entry>, audits: seq<Entry>, now: int): (es: seq<Embed>)
    ensures |es| == 4
    ensures |es[0].fields| == 2 && Uptime.ParseUptime(es[0].fields[1].value) == Some(uptime)
    ensures es[3].timestamp == Some(now)
  {
    [ChangelogEmbed(version, changelog, uptime), DbEmbed(dbData), DetailedEmbed(detailed),
     LeaderboardEmbed(reports, audits, Some(now))]
  }

  /** The health embed of a newer tick reports failure exactly when the
      numbers could not be fetched. */
  lemma NewEmbedsHealth<E>(version: string, changelog: seq<string>, uptime: nat, dbData: Result<DbData, E>,
                           detailed: Detailed, reports: seq<Entry>, audits: seq<Entry>, now: int)
    ensures var es := NewEmbeds(version, changelog, uptime, dbData, detailed, reports, audits, now);
            es[1].title == FailureTitle <==> dbData.Err?
  {
  }

  /** One tick of the newer bot. The health embed absorbs its own failures;
      a failed breakdown or leaderboard fails the whole tick, which ends the
      stats task. */
  function NewStatsTick<E>(version: string, changelog: seq<string>, uptime: nat, dbData: Result<DbData, E>,
                           detailed: Result<Detailed, E>, boards: Result<(seq<Entry>, seq<Entry>), E>, now: int)
    : (r: Result<StatsMessage, E>)
    ensures r.Ok? <==> detailed.Ok? && boards.Ok?
    ensures r.Err? ==> r.error == (if detailed.Err? then detailed.error else boards.error)
    ensures r.Ok? ==> r.value.content == "Stats:"
    ensures r.Ok? ==> r.value.embeds == NewEmbeds(version, changelog, uptime, dbData, detailed.value,
                                                  boards.value.0, boards.value.1, now)
  {
    if detailed.Err? then Err(detailed.error)
    else if boards.Err? then Err(boards.error)
    else
      Ok(StatsMessage("Stats:", NewEmbeds(version, changelog, uptime, dbData, detailed.value,
                                          boards.value.0, boards.value.1, now)))
  }

  /** Where the older bot shows a failure notice for the leaderboard, the
      newer one stops updating altogether. */
  lemma LeaderboardFailureDiffers<E>(dbData: Result<DbData, E>, reports: Result<seq<Option<string>>, E>,
                                     actions: Result<seq<string>, E>, version: string, changelog: seq<string>,
                                     uptime: nat, detailed: Result<Detailed, E>, err: E, now: int)
    requires reports.Err?
    ensures OldStatsTick(dbData, reports, actions, now).embeds[1].title == LeaderboardFailure
    ensures NewStatsTick(version, changelog, uptime, dbData, detailed, Err(err), now).Err?
  {
  }
}
