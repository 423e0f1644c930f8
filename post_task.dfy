/** The `/posttask` command of PostTaskCommand.kt: a chain of guards (a
    guild, its configuration, its pending channel, a title that is not blank,
    a channel that resolves), then a new PENDING task whose card is posted to
    the pending channel, whose id is recorded, which joins the task list, and
    whose guild's pending summary is refreshed. The clock and the random
    suffix are parameters. */
module PostTask {
  import opened Common
  import opened Tasks
  import opened Buttons
  import opened GuildSettings
  import opened Messages
  import opened Manager
  import opened ChannelUtils
  import opened TaskButtons

  const NoGuildConfigReply: string :=
    "\U{274C} No pending tasks channel is set for this server. Please use `/settaskchannels` first."
  const NoPendingChannelReply: string :=
    "\U{274C} No pending tasks channel is set. Please use `/settaskchannels` first to configure all task channels."
  const MissingTitleReply: string := "\U{274C} Please provide a task title."
  const ChannelNotFoundReply: string :=
    "\U{274C} Pending tasks channel not found. Please check your channel configuration."
  const DefaultDescription: string := "No description provided"

  function CreatedReply(title: string): string {
    "\U{2705} Task \"" + title + "\" has been created and posted to the pending tasks channel!"
  }

  // ---------------------------------------------------------------------------
  // Task ids

  /** A digit string followed by `_` starts with `g + "_"` only for `g` that
      digit string itself, when either `g` or what follows the `_` is all
      digits. */
  lemma UnderscoreAfterDigits(a: string, rest: string, g: string)
    requires AllDigits(a)
    requires AllDigits(g) || AllDigits(rest)
    requires StartsWith(a + "_" + rest, g + "_")
    ensures g == a
  {
    var id := a + "_" + rest;
    var k := |g|;
    assert id[k] == (g + "_")[k] == '_';
    assert forall j :: 0 <= j < |a| ==> id[j] == a[j] && IsDigit(id[j]);
    assert forall j :: |a| < j < |id| ==> id[j] == rest[j - |a| - 1];
    assert forall j :: 0 <= j < k ==> id[j] == (g + "_")[j] == g[j];
    assert id[|a|] == '_';
    assert k >= |a|;
    assert k <= |a|;
    assert k == |a|;
    assert g == (g + "_")[..k] == id[..k] == a;
  }

  /** The id as the command mints it: epoch seconds, `_`, the random
      suffix. */
  function AsWrittenTaskId(epochSeconds: nat, suffix: nat): string {
    NatToString(epochSeconds) + "_" + NatToString(suffix)
  }

  /** A task with an id minted that way belongs to a guild only when the
      guild id happens to be the text of the epoch seconds. */
  lemma AsWrittenIdGuild(epochSeconds: nat, suffix: nat, t: Task, guildId: string)
    requires t.id == AsWrittenTaskId(epochSeconds, suffix)
    ensures InGuild(t, guildId) <==> guildId == NatToString(epochSeconds)
  {
    var e := NatToString(epochSeconds);
    var r := NatToString(suffix);
    if guildId == e {
      assert (e + "_" + r)[..|e| + 1] == e + "_";
    }
    if InGuild(t, guildId) {
      UnderscoreAfterDigits(e, r, guildId);
    }
  }

  /** So adding such a task leaves the guild's counts as they were: for a
      guild whose id is the text of a snowflake other than the epoch seconds,
      the task is counted in no state. */
  lemma AsWrittenTaskUncounted(tasks: seq<Task>, t: Task, epochSeconds: nat, suffix: nat,
                               guildSnowflake: nat, s: TaskState)
    requires t.id == AsWrittenTaskId(epochSeconds, suffix)
    requires guildSnowflake != epochSeconds
    ensures |ByState(tasks + [t], NatToString(guildSnowflake), s)| == |ByState(tasks, NatToString(guildSnowflake), s)|
  {
    AsWrittenIdGuild(epochSeconds, suffix, t, NatToString(guildSnowflake));
    if NatToString(guildSnowflake) == NatToString(epochSeconds) {
      NatToStringInjective(guildSnowflake, epochSeconds);
    }
    ByStateAfterAppend(tasks, t, NatToString(guildSnowflake), s);
  }

  /** The id with the guild prefix the filters of TaskManager.kt expect. */
  function MintTaskId(guildId: string, epochSeconds: nat, suffix: nat): string {
    guildId + "_" + AsWrittenTaskId(epochSeconds, suffix)
  }

  /** A task with a minted id belongs to its guild, and for numeric guild
      ids to no other. */
  lemma MintedIdGuild(guildId: string, epochSeconds: nat, suffix: nat, t: Task, other: string)
    requires t.id == MintTaskId(guildId, epochSeconds, suffix)
    ensures InGuild(t, guildId)
    ensures AllDigits(guildId) && AllDigits(other) ==> (InGuild(t, other) <==> other == guildId)
  {
    assert t.id[..|guildId| + 1] == guildId + "_";
    if AllDigits(guildId) && AllDigits(other) && InGuild(t, other) {
      assert t.id == guildId + "_" + AsWrittenTaskId(epochSeconds, suffix);
      UnderscoreAfterDigits(guildId, AsWrittenTaskId(epochSeconds, suffix), other);
    }
  }

  /** The random suffix, drawn from 1000..9999, is always four digits. */
  lemma {:induction false} SuffixWidth(n: nat)
    ensures n < 10 ==> |NatToString(n)| == 1
    ensures 10 <= n < 100 ==> |NatToString(n)| == 2
    ensures 100 <= n < 1000 ==> |NatToString(n)| == 3
    ensures 1000 <= n < 10000 ==> |NatToString(n)| == 4
  {
    if n >= 10 {
      SuffixWidth(n / 10);
    }
  }

  /** The task the command creates under the given id, before its card is
      posted. */
  function NewTask(id: string, title: string, description: Option<string>): Task {
    Task(id, title,
         if description.Some? then description.value else DefaultDescription,
         Pending, [], None)
  }

  // ---------------------------------------------------------------------------
  // The command

  /** Every guard of the command passes: the interaction has a guild, the
      guild is configured with a pending channel that resolves, and the
      trimmed title is not blank. */
  predicate Proceeds(w: World, guildId: Option<string>, options: map<string, string>) {
    && guildId.Some?
    && FindGuild(w.guilds, guildId.value).Some?
    && FindGuild(w.guilds, guildId.value).value.pendingTasksChannelId.Some?
    && !IsNullOrBlank(TrimmedValue(options, "title"))
    && FindGuild(w.guilds, guildId.value).value.pendingTasksChannelId.value in w.chs
  }

  /** The world right after the card of the new task is posted in the
      pending channel `c` under the next message id and the task, showing
      that id, is appended to the list. */
  function Created(w: World, registry: seq<TaskButton>, c: Snowflake, task: Task): World
    requires c in w.chs
  {
    World(w.guilds, Posted(w.chs, c, Message(w.nextId, true, CardFor(registry, task, Pending))),
          w.nextId + 1, w.tasks + [task.(messageId := Some(w.nextId))])
  }

  /** The pending channel of the guild, when every guard passes. */
  function PendingChannel(w: World, guildId: Option<string>, options: map<string, string>): (c: Snowflake)
    requires Proceeds(w, guildId, options)
    ensures c in w.chs
  {
    FindGuild(w.guilds, guildId.value).value.pendingTasksChannelId.value
  }

  /** `execute` on the world, creating the task under the given id: the
      world after the command and its answer. The command as written passes
      `AsWrittenTaskId`, the corrected one `MintTaskId`. */
  function PostTaskOutcome(w: World, registry: seq<TaskButton>, guildId: Option<string>,
                           options: map<string, string>, id: string): Handled
  {
    if guildId.None? then Handled(w, Deferred)
    else
      var g := FindGuild(w.guilds, guildId.value);
      if g.None? then Handled(w, Ephemeral(NoGuildConfigReply))
      else if g.value.pendingTasksChannelId.None? then Handled(w, Ephemeral(NoPendingChannelReply))
      else
        var title := TrimmedValue(options, "title");
        var c := g.value.pendingTasksChannelId.value;
        if IsNullOrBlank(title) then Handled(w, Ephemeral(MissingTitleReply))
        else if c !in w.chs then Handled(w, Ephemeral(ChannelNotFoundReply))
        else
          var task := NewTask(id, title.value, TrimmedValue(options, "description"));
          Handled(AfterRefresh(Created(w, registry, c, task), guildId.value, Pending),
                  Ephemeral(CreatedReply(title.value)))
  }

  /** No task, message or configuration change when a guard fails. */
  lemma PostTaskGuards(w: World, registry: seq<TaskButton>, guildId: Option<string>,
                       options: map<string, string>, id: string)
    requires !Proceeds(w, guildId, options)
    ensures PostTaskOutcome(w, registry, guildId, options, id).world == w
  {
  }

  /** When the guards pass, one task is appended under the given id:
      PENDING, unassigned, titled with the trimmed title (never blank),
      described by the trimmed description or the default one, and showing
      the card posted under the next message id. */
  lemma PostTaskNewTask(w: World, registry: seq<TaskButton>, guildId: Option<string>,
                        options: map<string, string>, id: string)
    requires Proceeds(w, guildId, options)
    ensures var r := PostTaskOutcome(w, registry, guildId, options, id).world;
            var t := r.tasks[|r.tasks| - 1];
            && |r.tasks| == |w.tasks| + 1 && r.tasks[..|w.tasks|] == w.tasks
            && t.id == id
            && t.state == Pending && t.assignedUsers == [] && t.messageId == Some(w.nextId)
            && t.title == Trim(options["title"]) && !IsBlank(t.title)
            && ("description" in options ==> t.description == Trim(options["description"]))
            && ("description" !in options ==> t.description == DefaultDescription)
  {
    var title := TrimmedValue(options, "title");
    var task := NewTask(id, title.value, TrimmedValue(options, "description"));
    var created := Created(w, registry, PendingChannel(w, guildId, options), task);
    assert PostTaskOutcome(w, registry, guildId, options, id).world.tasks == created.tasks;
    assert (w.tasks + [task.(messageId := Some(w.nextId))])[..|w.tasks|] == w.tasks;
  }

  /** The command with the guild-prefixed id: the new task belongs to its
      guild, so the guild's pending count grows by one. */
  lemma PostTaskAppends(w: World, registry: seq<TaskButton>, guildId: Option<string>,
                        options: map<string, string>, epochSeconds: nat, suffix: nat)
    requires Proceeds(w, guildId, options)
    ensures var r := PostTaskOutcome(w, registry, guildId, options, MintTaskId(guildId.value, epochSeconds, suffix)).world;
            && |r.tasks| == |w.tasks| + 1
            && r.tasks[|r.tasks| - 1].id == MintTaskId(guildId.value, epochSeconds, suffix)
            && InGuild(r.tasks[|r.tasks| - 1], guildId.value)
            && |ByState(r.tasks, guildId.value, Pending)| == |ByState(w.tasks, guildId.value, Pending)| + 1
  {
    var id := MintTaskId(guildId.value, epochSeconds, suffix);
    var r := PostTaskOutcome(w, registry, guildId, options, id).world;
    PostTaskNewTask(w, registry, guildId, options, id);
    var t := r.tasks[|r.tasks| - 1];
    assert r.tasks == w.tasks + [t];
    MintedIdGuild(guildId.value, epochSeconds, suffix, t, guildId.value);
    ByStateAfterAppend(w.tasks, t, guildId.value, Pending);
  }

  /** The command as written, in a guild whose id is the text of a
      snowflake other than the epoch seconds: the task is appended, but the
      guild counts it in no state, so its pending count stays as it was. */
  lemma PostTaskAsWrittenUncounted(w: World, registry: seq<TaskButton>, guildSnowflake: nat,
                                   options: map<string, string>, epochSeconds: nat, suffix: nat, s: TaskState)
    requires Proceeds(w, Some(NatToString(guildSnowflake)), options)
    requires guildSnowflake != epochSeconds
    ensures var r := PostTaskOutcome(w, registry, Some(NatToString(guildSnowflake)), options,
                                     AsWrittenTaskId(epochSeconds, suffix)).world;
            && |r.tasks| == |w.tasks| + 1
            && !InGuild(r.tasks[|r.tasks| - 1], NatToString(guildSnowflake))
            && |ByState(r.tasks, NatToString(guildSnowflake), s)| == |ByState(w.tasks, NatToString(guildSnowflake), s)|
  {
    var guildId := Some(NatToString(guildSnowflake));
    var id := AsWrittenTaskId(epochSeconds, suffix);
    var r := PostTaskOutcome(w, registry, guildId, options, id).world;
    PostTaskNewTask(w, registry, guildId, options, id);
    var t := r.tasks[|r.tasks| - 1];
    assert r.tasks == w.tasks + [t];
    AsWrittenTaskUncounted(w.tasks, t, epochSeconds, suffix, guildSnowflake, s);
    AsWrittenIdGuild(epochSeconds, suffix, t, NatToString(guildSnowflake));
    if NatToString(guildSnowflake) == NatToString(epochSeconds) {
      NatToStringInjective(guildSnowflake, epochSeconds);
    }
  }

  /** Nor does the startup sweep track its card: a listed task with an id
      minted as written, in such a guild, is in none of the guild's state
      lists, so when no other task shows the same message its card is not
      among the ids step 2 keeps. Step 2 sweeps only the IN_PROGRESS and
      COMPLETED channels, so the card is deleted once the task has been moved
      to one of them; a card still in the PENDING channel is never swept. */
  lemma AsWrittenCardUntracked(tasks: seq<Task>, t: Task, epochSeconds: nat, suffix: nat,
                               guildSnowflake: nat, s: TaskState)
    requires t in tasks && t.id == AsWrittenTaskId(epochSeconds, suffix)
    requires guildSnowflake != epochSeconds
    requires t.messageId.Some?
    requires forall u :: u in tasks && u.messageId == t.messageId ==> u == t
    ensures t !in ByState(tasks, NatToString(guildSnowflake), s)
    ensures t.messageId.value !in TrackedIds(tasks, NatToString(guildSnowflake), s)
  {
    AsWrittenIdGuild(epochSeconds, suffix, t, NatToString(guildSnowflake));
    if NatToString(guildSnowflake) == NatToString(epochSeconds) {
      NatToStringInjective(guildSnowflake, epochSeconds);
    }
  }

  /** Posting keeps every message id below the next one. */
  lemma CreatedIdsBelow(w: World, registry: seq<TaskButton>, c: Snowflake, task: Task)
    requires c in w.chs && IdsBelow(w.chs, w.nextId)
    ensures IdsBelow(Created(w, registry, c, task).chs, Created(w, registry, c, task).nextId)
  {
    var chs1 := Created(w, registry, c, task).chs;
    var card := Message(w.nextId, true, CardFor(registry, task, Pending));
    forall d: Snowflake, m: Message | d in chs1 && m in chs1[d]
      ensures m.id < w.nextId + 1
    {
      if d == c {
        assert chs1[d] == w.chs[c] + [card];
        assert m in w.chs[c] || m == card;
      }
    }
  }

  /** When the guards pass, the guild's pending summary, in the pending
      channel, shows the count that includes the new task. */
  lemma PostTaskSummaryShown(w: World, registry: seq<TaskButton>, guildId: Option<string>,
                             options: map<string, string>, id: string)
    requires Proceeds(w, guildId, options)
    requires IdsBelow(w.chs, w.nextId)
    ensures var r := PostTaskOutcome(w, registry, guildId, options, id).world;
            var g := FindGuild(r.guilds, guildId.value);
            var c := PendingChannel(w, guildId, options);
            && g.Some? && SummaryFor(g.value, Pending).Some?
            && FindMessage(r.chs, c, SummaryFor(g.value, Pending).value).Some?
            && FindMessage(r.chs, c, SummaryFor(g.value, Pending).value).value.body
                 == SummaryBody(r.tasks, guildId.value, Pending)
  {
    var c := PendingChannel(w, guildId, options);
    var title := TrimmedValue(options, "title");
    var task := NewTask(id, title.value, TrimmedValue(options, "description"));
    var created := Created(w, registry, c, task);
    assert PostTaskOutcome(w, registry, guildId, options, id).world
           == AfterRefresh(created, guildId.value, Pending);
    CreatedIdsBelow(w, registry, c, task);
    assert ChannelFor(FindGuild(w.guilds, guildId.value).value, Pending) == Some(c);
    RefreshShowsCount(created.guilds, created.chs, created.nextId, created.tasks, guildId.value, Pending);
  }

  /** The second half of `execute`: post the new task's card in the pending
      channel, add the task showing that card, and refresh the pending
      summary. */
  method PostAndRecord(config: BotConfig, store: MessageStore, manager: TaskManager, registry: seq<TaskButton>,
                       guildId: string, c: Snowflake, task: Task)
    requires store.Valid() && c in store.channels && task.state == Pending
    modifies config, store, manager
    ensures store.Valid()
    ensures WorldOf(config, store, manager)
              == AfterRefresh(Created(old(WorldOf(config, store, manager)), registry, c, task), guildId, Pending)
  {
    ghost var w1 := Created(WorldOf(config, store, manager), registry, c, task);
    var messageId := store.CreateMessage(c, CardFor(registry, task, task.state));
    manager.AddTask(task.(messageId := Some(messageId)));
    assert WorldOf(config, store, manager) == w1;
    UpdateChannelSummary(config, store, manager, guildId, Pending);
  }

  /** `execute`: the guard chain, then the new task under the id minted as
      written (epoch seconds and suffix, no guild prefix), its card, its
      place in the list and the pending summary. */
  method Execute(config: BotConfig, store: MessageStore, manager: TaskManager, registry: seq<TaskButton>,
                 guildId: Option<string>, options: map<string, string>, epochSeconds: nat, suffix: nat)
    returns (reply: Reply)
    requires store.Valid()
    requires 1000 <= suffix <= 9999
    modifies config, store, manager
    ensures store.Valid()
    ensures Handled(WorldOf(config, store, manager), reply)
              == PostTaskOutcome(old(WorldOf(config, store, manager)), registry, guildId, options,
                                 AsWrittenTaskId(epochSeconds, suffix))
  {
    if guildId.None? {
      return Deferred;
    }
    var g := FindGuild(config.guilds, guildId.value);
    if g.None? {
      return Ephemeral(NoGuildConfigReply);
    }
    var pendingChannelId := g.value.pendingTasksChannelId;
    if pendingChannelId.None? {
      return Ephemeral(NoPendingChannelReply);
    }
    var title := TrimmedValue(options, "title");
    if IsNullOrBlank(title) {
      return Ephemeral(MissingTitleReply);
    }
    var description := TrimmedValue(options, "description");
    if pendingChannelId.value !in store.channels {
      return Ephemeral(ChannelNotFoundReply);
    }
    var taskId := AsWrittenTaskId(epochSeconds, suffix);
    var task := NewTask(taskId, title.value, description);
    PostAndRecord(config, store, manager, registry, guildId.value, pendingChannelId.value, task);
    reply := Ephemeral(CreatedReply(title.value));
  }
}
