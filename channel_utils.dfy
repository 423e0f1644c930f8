/** ChannelUtils.kt: the per-state summary message each guild keeps in the
    channel of that state (its text, and the edit-or-create of the message
    with the id written back into the guild's configuration), and the
    startup sweep that drops tasks whose card has vanished and deletes bot
    messages that no task tracks. */
module ChannelUtils {
  import opened Common
  import opened Tasks
  import opened GuildSettings
  import opened Messages
  import opened Manager

  // ---------------------------------------------------------------------------
  // Summary text

  function SummaryTitle(s: TaskState): string {
    match s
    case Pending => "\U{1F4CB} Pending Tasks Summary"
    case InProgress => "\U{26A0}\U{FE0F} Tasks In Progress Summary"
    case Completed => "\U{2705} Completed Tasks Summary"
  }

  /** The words a summary line uses for a state. */
  function StateWords(s: TaskState): string {
    match s
    case Pending => "pending"
    case InProgress => "in progress"
    case Completed => "completed"
  }

  /** The words are the state's enum name in lower case with `_` replaced by
      a space. */
  lemma StateWordsFromName(s: TaskState)
    ensures StateWords(s) == ReplaceChar(Lowercase(StateName(s)), '_', ' ')
  {
    match s
    case Pending => LowerReplaced("PENDING", '_', ' ', "pending");
    case InProgress => LowerReplaced("IN_PROGRESS", '_', ' ', "in progress");
    case Completed => LowerReplaced("COMPLETED", '_', ' ', "completed");
  }

  function SummaryText(s: TaskState, n: nat): string {
    "Total " + StateWords(s) + " tasks: **" + NatToString(n) + "**"
  }

  /** Different counts give different summary lines. */
  lemma SummaryTextInjective(s: TaskState, m: nat, n: nat)
    requires SummaryText(s, m) == SummaryText(s, n)
    ensures m == n
  {
    var p := "Total " + StateWords(s) + " tasks: **";
    var a := NatToString(m);
    var b := NatToString(n);
    assert SummaryText(s, m) == p + a + "**";
    assert SummaryText(s, n) == p + b + "**";
    assert |a| == |b|;
    assert (p + a + "**")[|p|..|p| + |a|] == a;
    assert (p + b + "**")[|p|..|p| + |b|] == b;
    NatToStringInjective(m, n);
  }

  /** The summary embed of a state: its title and the count of the guild's
      tasks in that state. */
  function SummaryBody(tasks: seq<Task>, guildId: string, s: TaskState): Body {
    Summary(SummaryTitle(s), SummaryText(s, |ByState(tasks, guildId, s)|))
  }

  // ---------------------------------------------------------------------------
  // updateChannelSummary, as values

  /** The channel a summary goes to: the one bound to the state in the
      guild's configuration, when it resolves. */
  function SummaryChannel(guilds: seq<GuildConfig>, chs: Channels, guildId: string, s: TaskState): (r: Option<Snowflake>)
    ensures r.Some? ==> FindGuild(guilds, guildId).Some?
                        && ChannelFor(FindGuild(guilds, guildId).value, s) == r && r.value in chs
    ensures r.None? <==>
              || FindGuild(guilds, guildId).None?
              || ChannelFor(FindGuild(guilds, guildId).value, s).None?
              || ChannelFor(FindGuild(guilds, guildId).value, s).value !in chs
  {
    var g := FindGuild(guilds, guildId);
    if g.None? then None
    else
      var c := ChannelFor(g.value, s);
      if c.None? || c.value !in chs then None else c
  }

  /** The recorded summary message exists in the summary channel, so the
      refresh edits it. */
  predicate SummaryEditable(guilds: seq<GuildConfig>, chs: Channels, guildId: string, s: TaskState) {
    var c := SummaryChannel(guilds, chs, guildId, s);
    && c.Some?
    && SummaryFor(FindGuild(guilds, guildId).value, s).Some?
    && FindMessage(chs, c.value, SummaryFor(FindGuild(guilds, guildId).value, s).value).Some?
  }

  /** The refresh posts a new summary message: the channel resolves but no
      recorded summary can be edited. */
  predicate SummaryPosts(guilds: seq<GuildConfig>, chs: Channels, guildId: string, s: TaskState) {
    SummaryChannel(guilds, chs, guildId, s).Some? && !SummaryEditable(guilds, chs, guildId, s)
  }

  function RefreshedChannels(guilds: seq<GuildConfig>, chs: Channels, nextId: Snowflake,
                             tasks: seq<Task>, guildId: string, s: TaskState): Channels
  {
    var c := SummaryChannel(guilds, chs, guildId, s);
    var body := SummaryBody(tasks, guildId, s);
    if c.None? then chs
    else if SummaryEditable(guilds, chs, guildId, s)
    then Edited(chs, c.value, SummaryFor(FindGuild(guilds, guildId).value, s).value, body)
    else Posted(chs, c.value, Message(nextId, true, body))
  }

  function RefreshedGuilds(guilds: seq<GuildConfig>, chs: Channels, guildId: string, s: TaskState, nextId: Snowflake): seq<GuildConfig> {
    if SummaryPosts(guilds, chs, guildId, s) then RecordSummaryId(guilds, guildId, s, nextId) else guilds
  }

  /** Every message id in the store is below `nextId`. */
  predicate IdsBelow(chs: Channels, nextId: Snowflake) {
    forall c, m :: c in chs && m in chs[c] ==> m.id < nextId
  }

  /** After a refresh whose channel resolves, the summary id recorded for
      the guild and state names a message in that channel, and it shows the
      current count. */
  lemma RefreshShowsCount(guilds: seq<GuildConfig>, chs: Channels, nextId: Snowflake,
                          tasks: seq<Task>, guildId: string, s: TaskState)
    requires IdsBelow(chs, nextId)
    requires SummaryChannel(guilds, chs, guildId, s).Some?
    ensures var g2 := FindGuild(RefreshedGuilds(guilds, chs, guildId, s, nextId), guildId);
            var chs2 := RefreshedChannels(guilds, chs, nextId, tasks, guildId, s);
            var c := SummaryChannel(guilds, chs, guildId, s).value;
            && g2.Some? && SummaryFor(g2.value, s).Some?
            && FindMessage(chs2, c, SummaryFor(g2.value, s).value).Some?
            && FindMessage(chs2, c, SummaryFor(g2.value, s).value).value.body == SummaryBody(tasks, guildId, s)
  {
    var c := SummaryChannel(guilds, chs, guildId, s).value;
    var body := SummaryBody(tasks, guildId, s);
    if SummaryEditable(guilds, chs, guildId, s) {
      EditedEffect(chs, c, SummaryFor(FindGuild(guilds, guildId).value, s).value, body);
    } else {
      RecordSummaryIdLookup(guilds, guildId, s, nextId);
      PostedEffect(chs, c, Message(nextId, true, body));
    }
  }

  /** The write-back is narrow: other guilds read the same, and the guild
      keeps its channels and the summary ids of the other states. */
  lemma RefreshNarrow(guilds: seq<GuildConfig>, chs: Channels, nextId: Snowflake, guildId: string,
                      s: TaskState, other: string, u: TaskState)
    ensures other != guildId ==>
              FindGuild(RefreshedGuilds(guilds, chs, guildId, s, nextId), other) == FindGuild(guilds, other)
    ensures FindGuild(guilds, guildId).None? ==> RefreshedGuilds(guilds, chs, guildId, s, nextId) == guilds
    ensures FindGuild(guilds, guildId).Some? ==>
              var g2 := FindGuild(RefreshedGuilds(guilds, chs, guildId, s, nextId), guildId);
              && g2.Some?
              && ChannelFor(g2.value, u) == ChannelFor(FindGuild(guilds, guildId).value, u)
              && (u != s ==> SummaryFor(g2.value, u) == SummaryFor(FindGuild(guilds, guildId).value, u))
  {
    RecordSummaryIdLookup(guilds, guildId, s, nextId);
    if other != guildId {
      RecordSummaryIdOthers(guilds, guildId, s, nextId, other);
    }
  }

  /** Edit-or-create happens once: right after a refresh, a second refresh
      of the same guild and state edits and posts nothing new. */
  lemma RefreshTwicePostsOnce(guilds: seq<GuildConfig>, chs: Channels, nextId: Snowflake,
                              tasks: seq<Task>, guildId: string, s: TaskState)
    requires IdsBelow(chs, nextId)
    ensures !SummaryPosts(RefreshedGuilds(guilds, chs, guildId, s, nextId),
                          RefreshedChannels(guilds, chs, nextId, tasks, guildId, s), guildId, s)
  {
    var guilds2 := RefreshedGuilds(guilds, chs, guildId, s, nextId);
    var chs2 := RefreshedChannels(guilds, chs, nextId, tasks, guildId, s);
    var c := SummaryChannel(guilds, chs, guildId, s);
    if c.Some? {
      RefreshShowsCount(guilds, chs, nextId, tasks, guildId, s);
      RefreshNarrow(guilds, chs, nextId, guildId, s, guildId, s);
      assert chs2.Keys == chs.Keys;
      assert SummaryChannel(guilds2, chs2, guildId, s) == c;
    }
  }

  /** `updateChannelSummary`: edits the recorded summary message of the
      state or, when there is none or it cannot be edited, posts a new one
      and records its id in the guild's configuration. Tasks are counted
      from the TaskManager's list. */
  method UpdateChannelSummary(config: BotConfig, store: MessageStore, manager: TaskManager,
                              guildId: string, s: TaskState)
    requires store.Valid()
    modifies config, store
    ensures store.Valid()
    ensures config.guilds == RefreshedGuilds(old(config.guilds), old(store.channels), guildId, s, old(store.nextId))
    ensures store.channels == RefreshedChannels(old(config.guilds), old(store.channels), old(store.nextId),
                                                manager.tasks, guildId, s)
    ensures store.nextId == old(store.nextId) + if SummaryPosts(old(config.guilds), old(store.channels), guildId, s) then 1 else 0
  {
    var g := FindGuild(config.guilds, guildId);
    if g.None? { return; }
    var channelId := ChannelFor(g.value, s);
    if channelId.None? || channelId.value !in store.channels { return; }
    var body := SummaryBody(manager.tasks, guildId, s);
    WriteSummary(config, store, guildId, s, g.value, channelId.value, body);
  }

  /** The edit-or-create part of `updateChannelSummary`, once the guild
      `g` and its channel `c` for the state are found. */
  method WriteSummary(config: BotConfig, store: MessageStore, guildId: string, s: TaskState,
                      g: GuildConfig, c: Snowflake, body: Body)
    requires store.Valid() && c in store.channels
    requires FindGuild(config.guilds, guildId) == Some(g) && ChannelFor(g, s) == Some(c)
    modifies config, store
    ensures store.Valid()
    ensures SummaryEditable(old(config.guilds), old(store.channels), guildId, s) ==>
              && config.guilds == old(config.guilds)
              && store.channels == Edited(old(store.channels), c, SummaryFor(g, s).value, body)
              && store.nextId == old(store.nextId)
    ensures !SummaryEditable(old(config.guilds), old(store.channels), guildId, s) ==>
              && config.guilds == RecordSummaryId(old(config.guilds), guildId, s, old(store.nextId))
              && store.channels == Posted(old(store.channels), c, Message(old(store.nextId), true, body))
              && store.nextId == old(store.nextId) + 1
  {
    var summaryMessageId := SummaryFor(g, s);
    var edited := false;
    if summaryMessageId.Some? {
      edited := store.EditMessage(c, summaryMessageId.value, body);
    }
    if !edited {
      PostSummary(config, store, guildId, s, c, body);
    }
  }

  /** The create branch of `updateChannelSummary`: posts the summary and
      records the new message's id for the guild and state. */
  method PostSummary(config: BotConfig, store: MessageStore, guildId: string, s: TaskState, c: Snowflake, body: Body)
    requires store.Valid() && c in store.channels
    modifies config, store
    ensures store.Valid()
    ensures config.guilds == RecordSummaryId(old(config.guilds), guildId, s, old(store.nextId))
    ensures store.channels == Posted(old(store.channels), c, Message(old(store.nextId), true, body))
    ensures store.nextId == old(store.nextId) + 1
  {
    var id := store.CreateMessage(c, body);
    config.UpdateGuilds(RecordSummaryId(config.guilds, guildId, s, id));
  }

  // ---------------------------------------------------------------------------
  // The world a refresh changes

  /** Everything an interaction or the startup sweep can change: the guild configurations, the channels
      and their messages, the next message id, and the task list. */
  datatype World = World(guilds: seq<GuildConfig>, chs: Channels, nextId: Snowflake, tasks: seq<Task>)

  function WorldOf(config: BotConfig, store: MessageStore, manager: TaskManager): World
    reads config, store, manager
  {
    World(config.guilds, store.channels, store.nextId, manager.tasks)
  }

  /** `updateChannelSummary` on the world. */
  function AfterRefresh(w: World, guildId: string, s: TaskState): World {
    World(RefreshedGuilds(w.guilds, w.chs, guildId, s, w.nextId),
          RefreshedChannels(w.guilds, w.chs, w.nextId, w.tasks, guildId, s),
          w.nextId + (if SummaryPosts(w.guilds, w.chs, guildId, s) then 1 else 0),
          w.tasks)
  }

  /** Refreshing the summaries of several states, one after the other. */
  function AfterRefreshAll(w: World, guildId: string, states: seq<TaskState>): World
    decreases |states|
  {
    if states == [] then w
    else AfterRefresh(AfterRefreshAll(w, guildId, states[..|states| - 1]), guildId, states[|states| - 1])
  }

  /** Refreshing summaries never touches the task list, and never lowers the
      next message id. */
  lemma {:induction false} RefreshKeepsTasks(w: World, guildId: string, states: seq<TaskState>)
    ensures AfterRefreshAll(w, guildId, states).tasks == w.tasks
    ensures AfterRefreshAll(w, guildId, states).nextId >= w.nextId
    decreases |states|
  {
    if states != [] {
      RefreshKeepsTasks(w, guildId, states[..|states| - 1]);
    }
  }

  /** A guild without a configuration has no summary to refresh: refreshing
      any states of it leaves the whole world as it was. */
  lemma {:induction false} UnknownGuildRefreshNoChange(w: World, guildId: string, states: seq<TaskState>)
    requires FindGuild(w.guilds, guildId).None?
    ensures AfterRefreshAll(w, guildId, states) == w
    decreases |states|
  {
    if states != [] {
      UnknownGuildRefreshNoChange(w, guildId, states[..|states| - 1]);
      RefreshNarrow(w.guilds, w.chs, w.nextId, guildId, states[|states| - 1], guildId, states[|states| - 1]);
    }
  }

  /** A refresh keeps every message id below the next one. */
  lemma RefreshIdsBelow(w: World, guildId: string, s: TaskState)
    requires IdsBelow(w.chs, w.nextId)
    ensures IdsBelow(AfterRefresh(w, guildId, s).chs, AfterRefresh(w, guildId, s).nextId)
  {
    var r := AfterRefresh(w, guildId, s);
    var c := SummaryChannel(w.guilds, w.chs, guildId, s);
    if c.Some? {
      var body := SummaryBody(w.tasks, guildId, s);
      if SummaryEditable(w.guilds, w.chs, guildId, s) {
        var sid := SummaryFor(FindGuild(w.guilds, guildId).value, s).value;
        EditedEffect(w.chs, c.value, sid, body);
        forall d: Snowflake, m: Message | d in r.chs && m in r.chs[d]
          ensures m.id < r.nextId
        {
          var j :| 0 <= j < |r.chs[d]| && r.chs[d][j] == m;
          assert w.chs[d][j] in w.chs[d];
        }
      } else {
        var msg := Message(w.nextId, true, body);
        forall d: Snowflake, m: Message | d in r.chs && m in r.chs[d]
          ensures m.id < r.nextId
        {
          if d == c.value {
            assert r.chs[d] == w.chs[d] + [msg];
            assert m in w.chs[d] || m == msg;
          }
        }
      }
    }
  }

  /** A refresh keeps the channel each state of the guild resolves to. */
  lemma RefreshKeepsSummaryChannels(w: World, guildId: string, s: TaskState)
    ensures forall u :: SummaryChannel(AfterRefresh(w, guildId, s).guilds, AfterRefresh(w, guildId, s).chs, guildId, u)
                        == SummaryChannel(w.guilds, w.chs, guildId, u)
  {
    var r := AfterRefresh(w, guildId, s);
    forall u ensures SummaryChannel(r.guilds, r.chs, guildId, u) == SummaryChannel(w.guilds, w.chs, guildId, u) {
      RefreshNarrow(w.guilds, w.chs, w.nextId, guildId, s, guildId, u);
    }
  }

  /** A refresh keeps the set of channels, the channel each state of the
      guild resolves to, and every message id below the next one. */
  lemma RefreshKeepsLayout(w: World, guildId: string, s: TaskState)
    ensures AfterRefresh(w, guildId, s).chs.Keys == w.chs.Keys
    ensures forall u :: SummaryChannel(AfterRefresh(w, guildId, s).guilds, AfterRefresh(w, guildId, s).chs, guildId, u)
                        == SummaryChannel(w.guilds, w.chs, guildId, u)
    ensures IdsBelow(w.chs, w.nextId) ==> IdsBelow(AfterRefresh(w, guildId, s).chs, AfterRefresh(w, guildId, s).nextId)
  {
    RefreshKeepsSummaryChannels(w, guildId, s);
    if IdsBelow(w.chs, w.nextId) {
      RefreshIdsBelow(w, guildId, s);
    }
  }

  /** The same for several refreshes in a row. */
  lemma {:induction false} RefreshAllKeepsLayout(w: World, guildId: string, states: seq<TaskState>)
    ensures AfterRefreshAll(w, guildId, states).chs.Keys == w.chs.Keys
    ensures forall u :: SummaryChannel(AfterRefreshAll(w, guildId, states).guilds, AfterRefreshAll(w, guildId, states).chs, guildId, u)
                        == SummaryChannel(w.guilds, w.chs, guildId, u)
    ensures IdsBelow(w.chs, w.nextId) ==>
              IdsBelow(AfterRefreshAll(w, guildId, states).chs, AfterRefreshAll(w, guildId, states).nextId)
    decreases |states|
  {
    if states != [] {
      RefreshAllKeepsLayout(w, guildId, states[..|states| - 1]);
      RefreshKeepsLayout(AfterRefreshAll(w, guildId, states[..|states| - 1]), guildId, states[|states| - 1]);
    }
  }

  /** A sequence of `updateChannelSummary` calls. */
  method RefreshSummaries(config: BotConfig, store: MessageStore, manager: TaskManager,
                          guildId: string, states: seq<TaskState>)
    requires store.Valid()
    modifies config, store
    ensures store.Valid()
    ensures WorldOf(config, store, manager) == AfterRefreshAll(old(WorldOf(config, store, manager)), guildId, states)
  {
    ghost var w0 := WorldOf(config, store, manager);
    var k := 0;
    while k < |states|
      invariant 0 <= k <= |states|
      invariant store.Valid()
      invariant WorldOf(config, store, manager) == AfterRefreshAll(w0, guildId, states[..k])
    {
      UpdateChannelSummary(config, store, manager, guildId, states[k]);
      assert states[..k + 1][..k] == states[..k];
      k := k + 1;
    }
    assert states[..k] == states;
  }

  // ---------------------------------------------------------------------------
  // Startup step 1: tasks whose card has vanished

  /** Step 1's verdict on a task of the guild: it has a message id, it is IN
      PROGRESS or COMPLETED, the channel of its state is bound, and either
      looking that channel up throws (`failing`, caught by the outer `catch`)
      or the channel resolves and the message is not found there. */
  predicate Orphaned(g: GuildConfig, chs: Channels, failing: set<Snowflake>, t: Task) {
    && t.messageId.Some?
    && t.state != Pending
    && ChannelFor(g, t.state).Some?
    && (|| ChannelFor(g, t.state).value in failing
        || (&& ChannelFor(g, t.state).value in chs
            && FindMessage(chs, ChannelFor(g, t.state).value, t.messageId.value).None?))
  }

  /** The orphaned tasks of a list, in list order (`tasksToRemove`). */
  function Orphans(g: GuildConfig, chs: Channels, failing: set<Snowflake>, ts: seq<Task>): seq<Task>
    decreases |ts|
  {
    if ts == [] then []
    else
      var last := ts[|ts| - 1];
      Orphans(g, chs, failing, ts[..|ts| - 1]) + if Orphaned(g, chs, failing, last) then [last] else []
  }

  /** The tasks collected are exactly the orphaned ones. */
  lemma {:induction false} OrphansMembers(g: GuildConfig, chs: Channels, failing: set<Snowflake>, ts: seq<Task>)
    ensures forall t :: t in Orphans(g, chs, failing, ts) <==> t in ts && Orphaned(g, chs, failing, t)
    decreases |ts|
  {
    if ts != [] {
      var last := ts[|ts| - 1];
      OrphansMembers(g, chs, failing, ts[..|ts| - 1]);
      assert ts == ts[..|ts| - 1] + [last];
    }
  }

  function TaskIds(ts: seq<Task>): (r: seq<string>)
    ensures |r| == |ts|
    ensures forall i :: 0 <= i < |ts| ==> r[i] == ts[i].id
  {
    seq(|ts|, i requires 0 <= i < |ts| => ts[i].id)
  }

  /** The task list after step 1: every id of an orphan removed. */
  function PruneOrphans(tasks: seq<Task>, g: GuildConfig, chs: Channels, failing: set<Snowflake>): seq<Task> {
    WithoutEach(tasks, TaskId, TaskIds(Orphans(g, chs, failing, ByGuild(tasks, g.guildId))))
  }

  /** With distinct ids, step 1 removes exactly the guild's orphaned tasks;
      a PENDING task is never removed, nor is a task of another guild. */
  lemma PruneOrphansExact(tasks: seq<Task>, g: GuildConfig, chs: Channels, failing: set<Snowflake>)
    requires IdsDistinct(tasks)
    ensures forall t :: t in PruneOrphans(tasks, g, chs, failing) <==>
              t in tasks && !(InGuild(t, g.guildId) && Orphaned(g, chs, failing, t))
    ensures forall t :: t in tasks && t.state == Pending ==> t in PruneOrphans(tasks, g, chs, failing)
    ensures IdsDistinct(PruneOrphans(tasks, g, chs, failing))
  {
    var orphans := Orphans(g, chs, failing, ByGuild(tasks, g.guildId));
    OrphansMembers(g, chs, failing, ByGuild(tasks, g.guildId));
    var ids := TaskIds(orphans);
    forall t | t in tasks
      ensures t.id in ids <==> InGuild(t, g.guildId) && Orphaned(g, chs, failing, t)
    {
      if InGuild(t, g.guildId) && Orphaned(g, chs, failing, t) {
        var k :| 0 <= k < |orphans| && orphans[k] == t;
        assert ids[k] == t.id;
      } else {
        forall k | 0 <= k < |ids| ensures ids[k] != t.id {
          var o := orphans[k];
          assert o in orphans;
          SameIdSameTask(tasks, o, t);
        }
      }
    }
    WithoutEachIdsDistinct(tasks, TaskId, ids);
  }

  /** The collecting loop of step 1: a task with a message id, outside
      PENDING, whose state's channel is bound and either cannot be looked up
      or resolves but no longer holds the message. */
  method CollectOrphans(store: MessageStore, g: GuildConfig, failing: set<Snowflake>, allTasks: seq<Task>)
    returns (tasksToRemove: seq<Task>)
    ensures tasksToRemove == Orphans(g, store.channels, failing, allTasks)
  {
    tasksToRemove := [];
    var i := 0;
    while i < |allTasks|
      invariant 0 <= i <= |allTasks|
      invariant tasksToRemove == Orphans(g, store.channels, failing, allTasks[..i])
    {
      var t := allTasks[i];
      assert allTasks[..i + 1][..i] == allTasks[..i];
      if t.messageId.Some? {
        var expectedChannelId := match t.state
          case Pending => None
          case InProgress => g.inProgressTasksChannelId
          case Completed => g.completedTasksChannelId;
        if expectedChannelId.Some? {
          if expectedChannelId.value in failing {
            tasksToRemove := tasksToRemove + [t];
          } else if expectedChannelId.value in store.channels {
            if FindMessage(store.channels, expectedChannelId.value, t.messageId.value).None? {
              tasksToRemove := tasksToRemove + [t];
            }
          }
        }
      }
      i := i + 1;
    }
    assert allTasks[..i] == allTasks;
  }

  /** The removing loop of step 1: `removeTask` for each collected task. */
  method RemoveTasks(manager: TaskManager, tasksToRemove: seq<Task>)
    modifies manager
    ensures manager.tasks == WithoutEach(old(manager.tasks), TaskId, TaskIds(tasksToRemove))
  {
    ghost var before := manager.tasks;
    var j := 0;
    while j < |tasksToRemove|
      invariant 0 <= j <= |tasksToRemove|
      invariant manager.tasks == WithoutEach(before, TaskId, TaskIds(tasksToRemove[..j]))
    {
      var ids := TaskIds(tasksToRemove[..j + 1]);
      assert ids[..j] == TaskIds(tasksToRemove[..j]);
      manager.RemoveTask(tasksToRemove[j].id);
      j := j + 1;
    }
    assert tasksToRemove[..j] == tasksToRemove;
  }

  /** Step 1 for one guild: collects the orphaned tasks of the guild, then
      removes each by id. */
  method PruneGuildOrphans(manager: TaskManager, store: MessageStore, g: GuildConfig, failing: set<Snowflake>)
    modifies manager
    ensures manager.tasks == PruneOrphans(old(manager.tasks), g, store.channels, failing)
  {
    var tasksToRemove := CollectOrphans(store, g, failing, ByGuild(manager.tasks, g.guildId));
    RemoveTasks(manager, tasksToRemove);
  }

  // ---------------------------------------------------------------------------
  // Startup step 2: bot messages no task tracks

  /** The messages step 2 considers: those written by any bot account, except the state's
      recorded summary message, in channel order. */
  function Candidates(ms: seq<Message>, summaryId: Option<Snowflake>): (r: seq<Message>)
    ensures forall m :: m in r <==> m in ms && m.fromBot && Some(m.id) != summaryId
    decreases |ms|
  {
    if ms == [] then []
    else
      var last := ms[|ms| - 1];
      assert ms == ms[..|ms| - 1] + [last];
      Candidates(ms[..|ms| - 1], summaryId) + if last.fromBot && Some(last.id) != summaryId then [last] else []
  }

  /** The ids of the messages among `ms` that no tracked id covers, in
      order. */
  function UntrackedIds(ms: seq<Message>, tracked: set<Snowflake>): seq<Snowflake>
    decreases |ms|
  {
    if ms == [] then []
    else
      var last := ms[|ms| - 1];
      UntrackedIds(ms[..|ms| - 1], tracked) + if last.id !in tracked then [last.id] else []
  }

  /** The ids collected are exactly those of the untracked messages. */
  lemma {:induction false} UntrackedIdsMembers(ms: seq<Message>, tracked: set<Snowflake>)
    ensures forall x :: x in UntrackedIds(ms, tracked) <==> x !in tracked && exists m :: m in ms && m.id == x
    decreases |ms|
  {
    if ms != [] {
      var last := ms[|ms| - 1];
      UntrackedIdsMembers(ms[..|ms| - 1], tracked);
      assert ms == ms[..|ms| - 1] + [last];
    }
  }

  /** The message ids of the guild's tasks in a state (`trackedMessageIds`). */
  function TrackedIds(tasks: seq<Task>, guildId: string, s: TaskState): set<Snowflake> {
    set t | t in ByState(tasks, guildId, s) && t.messageId.Some? :: t.messageId.value
  }

  /** How many recent messages step 2 fetches. */
  const FetchWindow: nat := 100

  /** A channel's messages after step 2. */
  function Cleaned(msgs: seq<Message>, summaryId: Option<Snowflake>, tracked: set<Snowflake>): seq<Message> {
    WithoutEach(msgs, MessageId, UntrackedIds(Candidates(Latest(msgs, FetchWindow), summaryId), tracked))
  }

  /** The messages step 2 deletes: those by any bot account among the latest 100 that
      are neither the summary nor tracked by a task. */
  predicate Doomed(msgs: seq<Message>, summaryId: Option<Snowflake>, tracked: set<Snowflake>, m: Message) {
    m in Latest(msgs, FetchWindow) && m.fromBot && Some(m.id) != summaryId && m.id !in tracked
  }

  predicate MessageIdsUnique(msgs: seq<Message>) {
    forall i, j :: 0 <= i < j < |msgs| ==> msgs[i].id != msgs[j].id
  }

  /** With unique message ids, step 2 deletes exactly the doomed messages. */
  lemma CleanedExact(msgs: seq<Message>, summaryId: Option<Snowflake>, tracked: set<Snowflake>)
    requires MessageIdsUnique(msgs)
    ensures forall m :: m in Cleaned(msgs, summaryId, tracked) <==> m in msgs && !Doomed(msgs, summaryId, tracked, m)
  {
    var ids := UntrackedIds(Candidates(Latest(msgs, FetchWindow), summaryId), tracked);
    UntrackedIdsMembers(Candidates(Latest(msgs, FetchWindow), summaryId), tracked);
    forall m | m in msgs
      ensures m.id in ids <==> Doomed(msgs, summaryId, tracked, m)
    {
      forall m2 | m2 in Latest(msgs, FetchWindow) && m2.id == m.id
        ensures m2 == m
      {
        var i :| 0 <= i < |msgs| && msgs[i] == m;
        var j :| 0 <= j < |msgs| && msgs[j] == m2;
        assert i == j;
      }
    }
  }

  /** Once every message fits in the fetch window, a second sweep with the
      same summary and tracked ids deletes nothing more. */
  lemma CleanedIdempotent(msgs: seq<Message>, summaryId: Option<Snowflake>, tracked: set<Snowflake>)
    requires |msgs| <= FetchWindow
    ensures Cleaned(Cleaned(msgs, summaryId, tracked), summaryId, tracked) == Cleaned(msgs, summaryId, tracked)
  {
    var c := Cleaned(msgs, summaryId, tracked);
    var ids := UntrackedIds(Candidates(Latest(msgs, FetchWindow), summaryId), tracked);
    var ids2 := UntrackedIds(Candidates(Latest(c, FetchWindow), summaryId), tracked);
    UntrackedIdsMembers(Candidates(Latest(msgs, FetchWindow), summaryId), tracked);
    UntrackedIdsMembers(Candidates(Latest(c, FetchWindow), summaryId), tracked);
    assert Latest(msgs, FetchWindow) == msgs;
    forall m | m in c ensures m.id !in ids2 {
      assert m.id !in ids;
    }
    WithoutEachAbsent(c, MessageId, ids2);
  }

  /** `UntrackedIds` grows by the id of one more untracked message. */
  lemma UntrackedIdsSnoc(ms: seq<Message>, m: Message, tracked: set<Snowflake>)
    ensures UntrackedIds(ms + [m], tracked) == UntrackedIds(ms, tracked) + if m.id !in tracked then [m.id] else []
  {
    assert (ms + [m])[..|ms|] == ms;
  }

  /** The untracked ids of one more fetched message. */
  lemma UntrackedIdsPrefix(ms: seq<Message>, i: nat, tracked: set<Snowflake>)
    requires i < |ms|
    ensures UntrackedIds(ms[..i + 1], tracked)
            == UntrackedIds(ms[..i], tracked) + if ms[i].id !in tracked then [ms[i].id] else []
  {
    assert ms[..i + 1] == ms[..i] + [ms[i]];
    UntrackedIdsSnoc(ms[..i], ms[i], tracked);
  }

  /** The delete loop of step 2: every fetched message that no task tracks
      is deleted from channel `c`, in order. */
  method DeleteUntracked(store: MessageStore, c: Snowflake, messages: seq<Message>, tracked: set<Snowflake>)
    requires store.Valid() && c in store.channels
    modifies store
    ensures store.Valid() && store.nextId == old(store.nextId)
    ensures store.channels == old(store.channels)[c := WithoutEach(old(store.channels)[c], MessageId,
                                                                    UntrackedIds(messages, tracked))]
  {
    ghost var start := store.channels;
    ghost var base := start[c];
    ghost var done: seq<Snowflake> := [];
    var i := 0;
    while i < |messages|
      invariant 0 <= i <= |messages|
      invariant store.Valid() && store.nextId == old(store.nextId)
      invariant done == UntrackedIds(messages[..i], tracked)
      invariant store.channels == start[c := WithoutEach(base, MessageId, done)]
    {
      UntrackedIdsPrefix(messages, i, tracked);
      done := DeleteIfUntracked(store, start, c, base, done, messages[i], tracked);
      i := i + 1;
    }
    assert messages[..i] == messages;
  }

  /** Step 2 for one channel: fetch the latest 100 messages, keep those by
      bot accounts other than the summary, and delete those no task
      tracks. */
  method CleanChannel(store: MessageStore, c: Snowflake, summaryId: Option<Snowflake>, tracked: set<Snowflake>)
    requires store.Valid() && c in store.channels
    modifies store
    ensures store.Valid() && store.nextId == old(store.nextId)
    ensures store.channels == old(store.channels)[c := Cleaned(old(store.channels)[c], summaryId, tracked)]
  {
    var messages := Candidates(Latest(store.channels[c], FetchWindow), summaryId);
    DeleteUntracked(store, c, messages, tracked);
  }

  /** One turn of the delete loop of step 2: the message is deleted when no
      task tracks it. */
  method DeleteIfUntracked(store: MessageStore, ghost start: Channels, c: Snowflake, ghost base: seq<Message>,
                           ghost done: seq<Snowflake>, m: Message, tracked: set<Snowflake>)
    returns (ghost done2: seq<Snowflake>)
    requires store.Valid() && c in start
    requires store.channels == start[c := WithoutEach(base, MessageId, done)]
    modifies store
    ensures done2 == done + if m.id !in tracked then [m.id] else []
    ensures store.Valid() && store.nextId == old(store.nextId)
    ensures store.channels == start[c := WithoutEach(base, MessageId, done2)]
  {
    done2 := done;
    if m.id !in tracked {
      DeleteNext(store, start, c, base, done, m.id);
      done2 := done + [m.id];
    }
  }

  /** One more `message.delete()` in the delete loop of step 2. */
  method DeleteNext(store: MessageStore, ghost start: Channels, c: Snowflake, ghost base: seq<Message>,
                    ghost done: seq<Snowflake>, id: Snowflake)
    requires store.Valid() && c in start
    requires store.channels == start[c := WithoutEach(base, MessageId, done)]
    modifies store
    ensures store.Valid() && store.nextId == old(store.nextId)
    ensures store.channels == start[c := WithoutEach(base, MessageId, done + [id])]
  {
    DeleteOneMore(store.channels, start, c, base, done, id);
    var _ := store.DeleteMessage(c, id);
  }

  /** One deletion extends the removals so far by one id. */
  lemma DeleteOneMore(chs: Channels, start: Channels, c: Snowflake, base: seq<Message>, done: seq<Snowflake>, id: Snowflake)
    requires c in start
    requires chs == start[c := WithoutEach(base, MessageId, done)]
    ensures Deleted(chs, c, id) == start[c := WithoutEach(base, MessageId, done + [id])]
  {
    WithoutEachSnoc(base, MessageId, done, id);
    DeletedIsRemoval(chs, c, id);
  }

  /** The channels step 2 sweeps: IN PROGRESS then COMPLETED, where bound. */
  function ChannelsToValidate(g: GuildConfig): (r: seq<(Snowflake, TaskState)>)
    ensures forall p :: p in r <==>
              (p.1 == InProgress || p.1 == Completed) && ChannelFor(g, p.1) == Some(p.0)
  {
    (if g.inProgressTasksChannelId.Some? then [(g.inProgressTasksChannelId.value, InProgress)] else [])
    + (if g.completedTasksChannelId.Some? then [(g.completedTasksChannelId.value, Completed)] else [])
  }

  /** One channel of step 2: a channel that does not resolve, or whose
      lookup or message fetch throws (`unreadable`, caught at the end of the
      channel's turn), is skipped and nothing else is affected. */
  function SweepOne(chs: Channels, tasks: seq<Task>, g: GuildConfig, c: Snowflake, s: TaskState,
                    unreadable: set<Snowflake>): (r: Channels)
    ensures r.Keys == chs.Keys
    ensures forall d :: d in chs && d != c ==> r[d] == chs[d]
    ensures c !in chs || c in unreadable ==> r == chs
    ensures forall d, m :: d in r && m in r[d] ==> m in chs[d]
  {
    if c in chs && c !in unreadable
    then chs[c := Cleaned(chs[c], SummaryFor(g, s), TrackedIds(tasks, g.guildId, s))]
    else chs
  }

  function Sweep(chs: Channels, tasks: seq<Task>, g: GuildConfig, pairs: seq<(Snowflake, TaskState)>,
                 unreadable: set<Snowflake>): (r: Channels)
    ensures r.Keys == chs.Keys
    ensures forall d :: d in chs && (d in unreadable || forall p :: p in pairs ==> p.0 != d) ==> r[d] == chs[d]
    ensures forall d, m :: d in r && m in r[d] ==> m in chs[d]
    decreases |pairs|
  {
    if pairs == [] then chs
    else
      var last := pairs[|pairs| - 1];
      assert pairs == pairs[..|pairs| - 1] + [last];
      SweepOne(Sweep(chs, tasks, g, pairs[..|pairs| - 1], unreadable), tasks, g, last.0, last.1, unreadable)
  }

  /** Step 2 for one guild. */
  method SweepGuildChannels(store: MessageStore, manager: TaskManager, g: GuildConfig, unreadable: set<Snowflake>)
    requires store.Valid()
    modifies store
    ensures store.Valid() && store.nextId == old(store.nextId)
    ensures store.channels == Sweep(old(store.channels), manager.tasks, g, ChannelsToValidate(g), unreadable)
  {
    var pairs := ChannelsToValidate(g);
    var k := 0;
    while k < |pairs|
      invariant 0 <= k <= |pairs|
      invariant store.Valid() && store.nextId == old(store.nextId)
      invariant store.channels == Sweep(old(store.channels), manager.tasks, g, pairs[..k], unreadable)
    {
      var (channelId, taskState) := pairs[k];
      assert pairs[..k + 1][..k] == pairs[..k];
      assert Sweep(old(store.channels), manager.tasks, g, pairs[..k + 1], unreadable)
          == SweepOne(store.channels, manager.tasks, g, channelId, taskState, unreadable);
      SweepChannel(store, manager.tasks, g, channelId, taskState, unreadable);
      k := k + 1;
    }
    assert pairs[..k] == pairs;
  }

  /** One channel of step 2: cleaned when it resolves and can be read. */
  method SweepChannel(store: MessageStore, tasks: seq<Task>, g: GuildConfig, channelId: Snowflake, taskState: TaskState,
                      unreadable: set<Snowflake>)
    requires store.Valid()
    modifies store
    ensures store.Valid() && store.nextId == old(store.nextId)
    ensures store.channels == SweepOne(old(store.channels), tasks, g, channelId, taskState, unreadable)
  {
    if channelId in store.channels && channelId !in unreadable {
      var tracked := TrackedIds(tasks, g.guildId, taskState);
      var summaryMessageId := SummaryFor(g, taskState);
      CleanChannel(store, channelId, summaryMessageId, tracked);
    }
  }

  // ---------------------------------------------------------------------------
  // performStartupValidation

  function StatesOf(pairs: seq<(Snowflake, TaskState)>): (r: seq<TaskState>)
    ensures |r| == |pairs|
    ensures forall i :: 0 <= i < |pairs| ==> r[i] == pairs[i].1
  {
    seq(|pairs|, i requires 0 <= i < |pairs| => pairs[i].1)
  }

  /** The summaries the sweep refreshes for a guild, in order: those of the
      swept states, then PENDING when its channel is bound; so exactly the
      states the guild binds a channel to, PENDING last. */
  function SummaryStates(g: GuildConfig): (r: seq<TaskState>)
    ensures forall s :: s in r <==> ChannelFor(g, s).Some?
    ensures g.pendingTasksChannelId.Some? ==> r != [] && r[|r| - 1] == Pending
  {
    var pairs := ChannelsToValidate(g);
    var r := StatesOf(pairs) + if g.pendingTasksChannelId.Some? then [Pending] else [];
    forall s | ChannelFor(g, s).Some? && s != Pending
      ensures s in StatesOf(pairs)
    {
      var p := (ChannelFor(g, s).value, s);
      assert p in pairs;
      var i :| 0 <= i < |pairs| && pairs[i] == p;
      assert StatesOf(pairs)[i] == s;
    }
    r
  }

  /** One guild of the startup sweep on the world: step 1 against the
      channels as they are, step 2 with the pruned list, then the
      summaries. `failing` holds the channels whose lookup throws, in step 1
      and step 2 alike; `unreadable` those whose messages cannot be fetched
      in step 2. */
  function ValidatedGuild(w: World, g: GuildConfig, failing: set<Snowflake>, unreadable: set<Snowflake>): World {
    var tasks := PruneOrphans(w.tasks, g, w.chs, failing);
    var swept := World(w.guilds, Sweep(w.chs, tasks, g, ChannelsToValidate(g), failing + unreadable), w.nextId, tasks);
    AfterRefreshAll(swept, g.guildId, SummaryStates(g))
  }

  /** The startup sweep over the guild configurations, in order. */
  function Validated(w: World, guilds: seq<GuildConfig>, failing: set<Snowflake>, unreadable: set<Snowflake>): World
    decreases |guilds|
  {
    if guilds == [] then w
    else ValidatedGuild(Validated(w, guilds[..|guilds| - 1], failing, unreadable), guilds[|guilds| - 1], failing, unreadable)
  }

  /** One guild's sweep only removes tasks; with distinct ids it removes
      exactly the guild's orphaned tasks, keeps the ids distinct and keeps
      every PENDING task. */
  lemma ValidatedGuildTasks(w: World, g: GuildConfig, failing: set<Snowflake>, unreadable: set<Snowflake>)
    ensures forall t :: t in ValidatedGuild(w, g, failing, unreadable).tasks ==> t in w.tasks
    ensures IdsDistinct(w.tasks) ==>
              && (forall t :: t in ValidatedGuild(w, g, failing, unreadable).tasks <==>
                    t in w.tasks && !(InGuild(t, g.guildId) && Orphaned(g, w.chs, failing, t)))
              && (forall t :: t in w.tasks && t.state == Pending ==> t in ValidatedGuild(w, g, failing, unreadable).tasks)
              && IdsDistinct(ValidatedGuild(w, g, failing, unreadable).tasks)
  {
    var tasks := PruneOrphans(w.tasks, g, w.chs, failing);
    var swept := World(w.guilds, Sweep(w.chs, tasks, g, ChannelsToValidate(g), failing + unreadable), w.nextId, tasks);
    RefreshKeepsTasks(swept, g.guildId, SummaryStates(g));
    if IdsDistinct(w.tasks) {
      PruneOrphansExact(w.tasks, g, w.chs, failing);
    }
  }

  /** After a guild's sweep, its PENDING summary (when the channel is bound
      and resolves) shows the number of its PENDING tasks that step 1 left. */
  lemma ValidatedGuildShowsPending(w: World, g: GuildConfig, failing: set<Snowflake>, unreadable: set<Snowflake>)
    requires IdsBelow(w.chs, w.nextId)
    requires g.pendingTasksChannelId.Some?
    requires SummaryChannel(w.guilds, w.chs, g.guildId, Pending).Some?
    ensures var r := ValidatedGuild(w, g, failing, unreadable);
            var c := SummaryChannel(w.guilds, w.chs, g.guildId, Pending).value;
            var gg := FindGuild(r.guilds, g.guildId);
            && gg.Some? && SummaryFor(gg.value, Pending).Some?
            && FindMessage(r.chs, c, SummaryFor(gg.value, Pending).value).Some?
            && FindMessage(r.chs, c, SummaryFor(gg.value, Pending).value).value.body
                 == SummaryBody(PruneOrphans(w.tasks, g, w.chs, failing), g.guildId, Pending)
  {
    var tasks := PruneOrphans(w.tasks, g, w.chs, failing);
    var swept := World(w.guilds, Sweep(w.chs, tasks, g, ChannelsToValidate(g), failing + unreadable), w.nextId, tasks);
    var states := SummaryStates(g);
    var init := states[..|states| - 1];
    assert states == init + [Pending];
    var before := AfterRefreshAll(swept, g.guildId, init);
    assert ValidatedGuild(w, g, failing, unreadable) == AfterRefresh(before, g.guildId, Pending);
    assert IdsBelow(swept.chs, swept.nextId);
    assert SummaryChannel(swept.guilds, swept.chs, g.guildId, Pending) == SummaryChannel(w.guilds, w.chs, g.guildId, Pending);
    RefreshAllKeepsLayout(swept, g.guildId, init);
    RefreshKeepsTasks(swept, g.guildId, init);
    RefreshShowsCount(before.guilds, before.chs, before.nextId, before.tasks, g.guildId, Pending);
  }

  /** The whole sweep only removes tasks; with distinct ids it keeps them
      distinct and never removes a PENDING task. */
  lemma {:induction false} StartupOnlyPrunes(w: World, guilds: seq<GuildConfig>, failing: set<Snowflake>, unreadable: set<Snowflake>)
    ensures forall t :: t in Validated(w, guilds, failing, unreadable).tasks ==> t in w.tasks
    ensures IdsDistinct(w.tasks) ==> IdsDistinct(Validated(w, guilds, failing, unreadable).tasks)
    ensures IdsDistinct(w.tasks) ==>
              forall t :: t in w.tasks && t.state == Pending ==> t in Validated(w, guilds, failing, unreadable).tasks
    decreases |guilds|
  {
    if guilds != [] {
      var prev := Validated(w, guilds[..|guilds| - 1], failing, unreadable);
      StartupOnlyPrunes(w, guilds[..|guilds| - 1], failing, unreadable);
      ValidatedGuildTasks(prev, guilds[|guilds| - 1], failing, unreadable);
    }
  }

  /** One guild of the startup sweep: step 1, step 2, then the summaries of
      the swept states and, when its channel is bound, of PENDING. */
  method ValidateGuild(config: BotConfig, store: MessageStore, manager: TaskManager, g: GuildConfig,
                       failing: set<Snowflake>, unreadable: set<Snowflake>)
    requires store.Valid()
    modifies config, store, manager
    ensures store.Valid()
    ensures WorldOf(config, store, manager) == ValidatedGuild(old(WorldOf(config, store, manager)), g, failing, unreadable)
  {
    PruneGuildOrphans(manager, store, g, failing);
    SweepGuildChannels(store, manager, g, failing + unreadable);
    var pairs := ChannelsToValidate(g);
    RefreshSummaries(config, store, manager, g.guildId, StatesOf(pairs));
    if g.pendingTasksChannelId.Some? {
      UpdateChannelSummary(config, store, manager, g.guildId, Pending);
      assert (StatesOf(pairs) + [Pending])[..|pairs|] == StatesOf(pairs);
    } else {
      assert SummaryStates(g) == StatesOf(pairs);
    }
  }

  /** `performStartupValidation`: every configured guild in turn, as listed
      when the sweep starts. */
  method PerformStartupValidation(config: BotConfig, store: MessageStore, manager: TaskManager,
                                  failing: set<Snowflake>, unreadable: set<Snowflake>)
    requires store.Valid()
    modifies config, store, manager
    ensures store.Valid()
    ensures WorldOf(config, store, manager) == Validated(old(WorldOf(config, store, manager)), old(config.guilds), failing, unreadable)
  {
    ghost var w0 := WorldOf(config, store, manager);
    var guilds := config.guilds;
    var k := 0;
    while k < |guilds|
      invariant 0 <= k <= |guilds|
      invariant store.Valid()
      invariant WorldOf(config, store, manager) == Validated(w0, guilds[..k], failing, unreadable)
    {
      ValidateGuild(config, store, manager, guilds[k], failing, unreadable);
      assert guilds[..k + 1][..k] == guilds[..k];
      k := k + 1;
    }
    assert guilds[..k] == guilds;
  }
}
