/** The per-guild configuration the bot keeps (BotConfig's `guilds` list):
    for each guild, the channel bound to each task state and the id of the
    summary message posted in it. */
module GuildSettings {
  import opened Common
  import opened Tasks

  datatype GuildConfig = GuildConfig(
    guildId: string,
    pendingTasksChannelId: Option<Snowflake>,
    inProgressTasksChannelId: Option<Snowflake>,
    completedTasksChannelId: Option<Snowflake>,
    pendingTasksSummaryMessageId: Option<Snowflake>,
    inProgressTasksSummaryMessageId: Option<Snowflake>,
    completedTasksSummaryMessageId: Option<Snowflake>)

  /** `guilds.find { it.guildId == guildId }`. */
  function FindGuild(guilds: seq<GuildConfig>, guildId: string): (r: Option<GuildConfig>)
    ensures r.None? <==> forall g :: g in guilds ==> g.guildId != guildId
    ensures r.Some? ==> exists k :: 0 <= k < |guilds| && guilds[k] == r.value
                          && r.value.guildId == guildId
                          && forall j :: 0 <= j < k ==> guilds[j].guildId != guildId
  {
    if guilds == [] then None
    else if guilds[0].guildId == guildId then Some(guilds[0])
    else
      var r := FindGuild(guilds[1..], guildId);
      if r.Some? then
        var k :| 0 <= k < |guilds[1..]| && guilds[1..][k] == r.value
                 && r.value.guildId == guildId
                 && forall j :: 0 <= j < k ==> guilds[1..][j].guildId != guildId;
        assert guilds[k + 1] == r.value;
        r
      else r
  }

  /** The channel bound to a state. */
  function ChannelFor(g: GuildConfig, s: TaskState): Option<Snowflake> {
    match s
    case Pending => g.pendingTasksChannelId
    case InProgress => g.inProgressTasksChannelId
    case Completed => g.completedTasksChannelId
  }

  /** The summary message recorded for a state. */
  function SummaryFor(g: GuildConfig, s: TaskState): Option<Snowflake> {
    match s
    case Pending => g.pendingTasksSummaryMessageId
    case InProgress => g.inProgressTasksSummaryMessageId
    case Completed => g.completedTasksSummaryMessageId
  }

  /** The `copy` that records a new summary message id for one state. */
  function WithSummary(g: GuildConfig, s: TaskState, m: Snowflake): (r: GuildConfig)
    ensures r.guildId == g.guildId
    ensures SummaryFor(r, s) == Some(m)
    ensures forall u :: u != s ==> SummaryFor(r, u) == SummaryFor(g, u)
    ensures forall u :: ChannelFor(r, u) == ChannelFor(g, u)
  {
    match s
    case Pending => g.(pendingTasksSummaryMessageId := Some(m))
    case InProgress => g.(inProgressTasksSummaryMessageId := Some(m))
    case Completed => g.(completedTasksSummaryMessageId := Some(m))
  }

  /** The write-back of `updateChannelSummary`: every entry of the guild gets
      the new summary id for that state; other guilds are kept as they are. */
  function RecordSummaryId(guilds: seq<GuildConfig>, guildId: string, s: TaskState, m: Snowflake): (r: seq<GuildConfig>)
    ensures |r| == |guilds|
    ensures forall j :: 0 <= j < |guilds| && guilds[j].guildId != guildId ==> r[j] == guilds[j]
    ensures forall j :: 0 <= j < |guilds| && guilds[j].guildId == guildId ==> r[j] == WithSummary(guilds[j], s, m)
  {
    seq(|guilds|, j requires 0 <= j < |guilds| =>
      if guilds[j].guildId == guildId then WithSummary(guilds[j], s, m) else guilds[j])
  }

  /** Dropping the first entry commutes with the write-back. */
  lemma RecordSummaryIdTail(guilds: seq<GuildConfig>, guildId: string, s: TaskState, m: Snowflake)
    requires guilds != []
    ensures RecordSummaryId(guilds, guildId, s, m)[1..] == RecordSummaryId(guilds[1..], guildId, s, m)
  {
  }

  /** After the write-back, the guild's lookup shows the new summary id for
      that state and every other field of it as before; a guild that is not
      configured leaves the list as it was. */
  lemma {:induction false} RecordSummaryIdLookup(guilds: seq<GuildConfig>, guildId: string, s: TaskState, m: Snowflake)
    ensures FindGuild(guilds, guildId).Some? ==>
              FindGuild(RecordSummaryId(guilds, guildId, s, m), guildId)
                == Some(WithSummary(FindGuild(guilds, guildId).value, s, m))
    ensures FindGuild(guilds, guildId).None? ==> RecordSummaryId(guilds, guildId, s, m) == guilds
  {
    if guilds != [] {
      var r := RecordSummaryId(guilds, guildId, s, m);
      RecordSummaryIdTail(guilds, guildId, s, m);
      RecordSummaryIdLookup(guilds[1..], guildId, s, m);
      if guilds[0].guildId != guildId {
        assert r[0] == guilds[0];
        assert FindGuild(r, guildId) == FindGuild(r[1..], guildId);
        if FindGuild(guilds, guildId).None? {
          assert r == [r[0]] + r[1..];
        }
      }
    }
  }

  /** The write-back leaves the lookup of every other guild unchanged. */
  lemma {:induction false} RecordSummaryIdOthers(guilds: seq<GuildConfig>, guildId: string, s: TaskState, m: Snowflake, other: string)
    requires other != guildId
    ensures FindGuild(RecordSummaryId(guilds, guildId, s, m), other) == FindGuild(guilds, other)
  {
    if guilds != [] {
      var r := RecordSummaryId(guilds, guildId, s, m);
      RecordSummaryIdTail(guilds, guildId, s, m);
      RecordSummaryIdOthers(guilds[1..], guildId, s, m, other);
      assert r[0].guildId == guilds[0].guildId;
      if guilds[0].guildId == other {
        assert r[0] == guilds[0];
      }
    }
  }

  /** BotConfig.instance: the configuration object that `updateInstance`
      replaces. */
  class BotConfig {
    var guilds: seq<GuildConfig>

    constructor (guilds: seq<GuildConfig>)
      ensures this.guilds == guilds
    {
      this.guilds := guilds;
    }

    /** `BotConfig.updateInstance(instance.copy(guilds = newGuilds))`. */
    method UpdateGuilds(newGuilds: seq<GuildConfig>)
      modifies this
      ensures guilds == newGuilds
    {
      guilds := newGuilds;
    }
  }
}
