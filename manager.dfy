/** TaskManager.kt: the task card a message shows (assignee list, status,
    the action rows of buttons a state offers), the TaskManager object that
    owns the task list and mutates it in place, and the transition
    `moveTaskToCategory`, which reposts a task's card in the channel of its
    new state. */
module Manager {
  import opened Common
  import opened Tasks
  import opened Buttons
  import opened GuildSettings
  import opened Messages

  // ---------------------------------------------------------------------------
  // Assignee list (`formatAssignedUsers`)

  /** An all-digit entry is a Discord user id and is shown as a mention;
      anything else is shown as typed. */
  function Mention(u: string): string {
    if AllDigits(u) then "<@" + u + ">" else u
  }

  function Mentions(users: seq<string>): (r: seq<string>)
    ensures |r| == |users|
    ensures forall i :: 0 <= i < |users| ==> r[i] == Mention(users[i])
  {
    seq(|users|, i requires 0 <= i < |users| => Mention(users[i]))
  }

  function FormatAssignedUsers(users: seq<string>): string {
    Join(Mentions(users), ", ")
  }

  /** The list is rendered entry by entry in list order: nothing for no
      users, one entry as its mention, and each further user adds ", " and
      its mention at the end. */
  lemma {:induction false} FormatAssignedUsersShape(users: seq<string>, u: string)
    ensures FormatAssignedUsers([]) == ""
    ensures FormatAssignedUsers([u]) == Mention(u)
    ensures users != [] ==>
              FormatAssignedUsers(users + [u]) == FormatAssignedUsers(users) + ", " + Mention(u)
  {
    assert Mentions([u]) == [Mention(u)];
    if users != [] {
      assert Mentions(users + [u]) == Mentions(users) + [Mention(u)];
      JoinAppend(Mentions(users), Mention(u), ", ");
    }
  }

  /** The "Assigned Users" field of a task card. */
  function AssigneesField(users: seq<string>): string {
    if users != [] then FormatAssignedUsers(users) else "_No users assigned_"
  }

  /** The "Status" field of a task card. */
  function StatusLabel(s: TaskState): string {
    match s
    case Pending => "\U{23F3} Pending"
    case InProgress => "\U{1F504} In Progress"
    case Completed => "\U{2705} Completed"
  }

  // ---------------------------------------------------------------------------
  // Action rows (`addTaskActionRows`)

  /** The button types a card offers in each state, in order; DELETE_TASK is
      always added last. */
  function ButtonTypesFor(s: TaskState): seq<ButtonType> {
    match s
    case Pending => [StartTask, CompleteTask, SelectUsers, AssignMe, EditTask, DeleteTask]
    case InProgress => [CompleteTask, PauseTask, SelectUsers, AssignMe, EditTask, DeleteTask]
    case Completed => [ReopenTask, DeleteTask]
  }

  /** `list + [b]` when the lookup found a button, the list itself otherwise
      (Kotlin's `?.let { buttons.add(it) }`). */
  function AddFound(bs: seq<TaskButton>, found: Option<TaskButton>): seq<TaskButton> {
    if found.Some? then bs + [found.value] else bs
  }

  /** The registered buttons of the given types, in the order of the types;
      a type with no registered button is skipped. */
  function Present(registry: seq<TaskButton>, types: seq<ButtonType>): (r: seq<TaskButton>)
    ensures |r| <= |types|
  {
    if types == [] then []
    else AddFound(Present(registry, types[..|types| - 1]), ButtonByType(registry, types[|types| - 1]))
  }

  /** Every button on a card is registered and of a type asked for. */
  lemma {:induction false} PresentSound(registry: seq<TaskButton>, types: seq<ButtonType>)
    ensures forall b :: b in Present(registry, types) ==> b in registry && b.kind in types
  {
    if types != [] {
      var init := types[..|types| - 1];
      var last := types[|types| - 1];
      PresentSound(registry, init);
      var found := ButtonByType(registry, last);
      if found.Some? {
        var k :| 0 <= k < |registry| && registry[k] == found.value && found.value.kind == last;
      }
      assert forall t :: t in init ==> t in types;
    }
  }

  /** With every type registered, the card shows one button per type, in the
      order of the types. */
  lemma {:induction false} PresentAllRegistered(registry: seq<TaskButton>, types: seq<ButtonType>)
    requires forall i :: 0 <= i < |types| ==> ButtonByType(registry, types[i]).Some?
    ensures |Present(registry, types)| == |types|
    ensures forall i :: 0 <= i < |types| ==> Present(registry, types)[i].kind == types[i]
  {
    if types != [] {
      var init := types[..|types| - 1];
      var last := types[|types| - 1];
      PresentAllRegistered(registry, init);
      var found := ButtonByType(registry, last);
      var k :| 0 <= k < |registry| && registry[k] == found.value && found.value.kind == last;
      var p := Present(registry, init);
      var q := Present(registry, types);
      assert q == p + [found.value];
      forall i | 0 <= i < |types| ensures q[i].kind == types[i] {
        if i < |init| {
          assert q[i] == p[i] && types[i] == init[i];
        }
      }
    }
  }

  /** `Present` grows by at most one button per type added at the end. */
  lemma PresentSnoc(registry: seq<TaskButton>, types: seq<ButtonType>, t: ButtonType)
    ensures Present(registry, types + [t]) == AddFound(Present(registry, types), ButtonByType(registry, t))
  {
    assert (types + [t])[..|types|] == types;
  }

  /** The delete button, when registered, is the last button of every card. */
  lemma DeleteAlwaysLast(registry: seq<TaskButton>, s: TaskState)
    requires ButtonByType(registry, DeleteTask).Some?
    ensures Present(registry, ButtonTypesFor(s)) != []
    ensures Present(registry, ButtonTypesFor(s))[|Present(registry, ButtonTypesFor(s))| - 1].kind == DeleteTask
  {
  }

  /** The bot registers a button of every type. */
  lemma StandardButtonsRegistered(t: ButtonType)
    ensures ButtonByType(StandardButtons(), t).Some?
  {
    var reg := StandardButtons();
    match t
    case StartTask => assert reg[0].kind == t;
    case CompleteTask => assert reg[1].kind == t;
    case PauseTask => assert reg[2].kind == t;
    case ReopenTask => assert reg[3].kind == t;
    case DeleteTask => assert reg[4].kind == t;
    case SelectUsers => assert reg[5].kind == t;
    case AssignMe => assert reg[6].kind == t;
    case EditTask => assert reg[7].kind == t;
  }

  /** With the bot's own buttons registered, the three states offer exactly
      these buttons. */
  lemma StandardButtonsPerState(s: TaskState)
    ensures |Present(StandardButtons(), ButtonTypesFor(s))| == |ButtonTypesFor(s)|
    ensures forall i :: 0 <= i < |ButtonTypesFor(s)| ==>
              Present(StandardButtons(), ButtonTypesFor(s))[i].kind == ButtonTypesFor(s)[i]
  {
    var types := ButtonTypesFor(s);
    forall i | 0 <= i < |types| ensures ButtonByType(StandardButtons(), types[i]).Some? {
      StandardButtonsRegistered(types[i]);
    }
    PresentAllRegistered(StandardButtons(), types);
  }

  /** Kotlin's `chunked(n)`: consecutive rows of `n`, the last one shorter. */
  function Chunk<T>(s: seq<T>, n: nat): seq<seq<T>>
    requires n > 0
    decreases |s|
  {
    if s == [] then [] else if |s| <= n then [s] else [s[..n]] + Chunk(s[n..], n)
  }

  function Flatten<T>(rows: seq<seq<T>>): seq<T> {
    if rows == [] then [] else rows[0] + Flatten(rows[1..])
  }

  /** Chunking loses and reorders nothing, and every row holds between one
      and `n` elements, all rows but the last exactly `n`. */
  lemma {:induction false} ChunkShape<T>(s: seq<T>, n: nat)
    requires n > 0
    ensures Flatten(Chunk(s, n)) == s
    ensures forall row :: row in Chunk(s, n) ==> 0 < |row| <= n
    ensures forall i :: 0 <= i < |Chunk(s, n)| - 1 ==> |Chunk(s, n)[i]| == n
    decreases |s|
  {
    if s != [] && |s| > n {
      ChunkShape(s[n..], n);
      var rest := Chunk(s[n..], n);
      assert Chunk(s, n) == [s[..n]] + rest;
      assert ([s[..n]] + rest)[1..] == rest;
      assert s[..n] + s[n..] == s;
    } else if s != [] {
      assert Chunk(s, n) == [s];
      assert [s][1..] == [];
    }
  }

  /** The first row of the chunks of `s[i..]` is `s[i..j]`, with `j` five
      (`n`) further or the end; the remaining rows are the chunks of `s[j..]`. */
  lemma ChunkFront<T>(s: seq<T>, i: nat, j: nat, n: nat)
    requires n > 0 && i < j <= |s|
    requires j == i + n || (j == |s| && |s| < i + n)
    ensures Chunk(s[i..], n) == [s[i..j]] + Chunk(s[j..], n)
  {
    var t := s[i..];
    assert t[..j - i] == s[i..j];
    assert t[j - i..] == s[j..];
    if |t| <= n {
      assert j == |s| && s[j..] == [];
      assert s[i..j] == t;
    }
  }

  /** An element of a row is an element of the flattened rows. */
  lemma {:induction false} FlattenMember<T>(rows: seq<seq<T>>, row: seq<T>, x: T)
    requires row in rows && x in row
    ensures x in Flatten(rows)
  {
    if rows[0] != row {
      FlattenMember(rows[1..], row, x);
    }
  }

  function ComponentIds(bs: seq<TaskButton>, taskId: string): (r: seq<string>)
    ensures |r| == |bs|
    ensures forall i :: 0 <= i < |bs| ==> r[i] == ComponentId(bs[i], taskId)
  {
    seq(|bs|, i requires 0 <= i < |bs| => ComponentId(bs[i], taskId))
  }

  /** The rows of component ids a task card carries in a state. */
  function ActionRowsOf(registry: seq<TaskButton>, taskId: string, s: TaskState): seq<seq<string>> {
    Chunk(ComponentIds(Present(registry, ButtonTypesFor(s)), taskId), 5)
  }

  /** Every row of a card holds one to five buttons, and every component id
      on it dispatches back to a button of a type the state offers and to
      exactly this task id. */
  lemma ActionRowsDispatch(registry: seq<TaskButton>, taskId: string, s: TaskState)
    ensures forall row :: row in ActionRowsOf(registry, taskId, s) ==> 0 < |row| <= 5
    ensures forall row, cid :: row in ActionRowsOf(registry, taskId, s) && cid in row ==>
              Dispatch(registry, cid).Some?
              && Dispatch(registry, cid).value.taskId == taskId
              && Dispatch(registry, cid).value.button.kind in ButtonTypesFor(s)
  {
    var bs := Present(registry, ButtonTypesFor(s));
    var ids := ComponentIds(bs, taskId);
    ChunkShape(ids, 5);
    forall row, cid | row in ActionRowsOf(registry, taskId, s) && cid in row
      ensures Dispatch(registry, cid).Some?
      ensures Dispatch(registry, cid).value.taskId == taskId
      ensures Dispatch(registry, cid).value.button.kind in ButtonTypesFor(s)
    {
      FlattenMember(ActionRowsOf(registry, taskId, s), row, cid);
      var i :| 0 <= i < |ids| && ids[i] == cid;
      assert bs[i] in bs;
      PresentSound(registry, ButtonTypesFor(s));
      DispatchComponentId(registry, bs[i], taskId);
    }
  }

  /** The first half of `addTaskActionRows`: the state's registered
      buttons, added one lookup at a time, DELETE last. */
  method CollectButtons(registry: seq<TaskButton>, s: TaskState) returns (buttons: seq<TaskButton>)
    ensures buttons == Present(registry, ButtonTypesFor(s))
  {
    buttons := [];
    var order: seq<ButtonType>;
    match s {
      case Pending => order := [StartTask, CompleteTask, SelectUsers, AssignMe, EditTask];
      case InProgress => order := [CompleteTask, PauseTask, SelectUsers, AssignMe, EditTask];
      case Completed => order := [ReopenTask];
    }
    assert order + [DeleteTask] == ButtonTypesFor(s);
    var i := 0;
    while i < |order|
      invariant 0 <= i <= |order|
      invariant buttons == Present(registry, order[..i])
    {
      assert order[..i + 1] == order[..i] + [order[i]];
      PresentSnoc(registry, order[..i], order[i]);
      buttons := AddFound(buttons, ButtonByType(registry, order[i]));
      i := i + 1;
    }
    assert order[..i] == order;
    PresentSnoc(registry, order, DeleteTask);
    buttons := AddFound(buttons, ButtonByType(registry, DeleteTask));
  }

  /** `addTaskActionRows`: the state's buttons laid out five to a row, each
      carrying its component id for the task. */
  method ActionRows(registry: seq<TaskButton>, taskId: string, s: TaskState) returns (rows: seq<seq<string>>)
    ensures rows == ActionRowsOf(registry, taskId, s)
  {
    var buttons := CollectButtons(registry, s);
    var ids := ComponentIds(buttons, taskId);
    rows := [];
    var i := 0;
    while i < |ids|
      invariant 0 <= i <= |ids|
      invariant rows + Chunk(ids[i..], 5) == Chunk(ids, 5)
      decreases |ids| - i
    {
      var j := if i + 5 <= |ids| then i + 5 else |ids|;
      ChunkFront(ids, i, j, 5);
      rows := rows + [ids[i..j]];
      i := j;
    }
  }

  // ---------------------------------------------------------------------------
  // Task card (`buildTaskMessage`)

  /** The card posted for a task: the embed shows the task's own state in
      its Status field, while the buttons follow the state the card is built
      for. */
  function CardFor(registry: seq<TaskButton>, t: Task, s: TaskState): Body {
    Card(t.title, t.description, StatusLabel(t.state), "`" + t.id + "`",
         AssigneesField(t.assignedUsers), ActionRowsOf(registry, t.id, s))
  }

  /** Every button on a task's card leads back to that task. */
  lemma CardButtonsLeadBack(registry: seq<TaskButton>, t: Task, s: TaskState, row: seq<string>, cid: string)
    requires row in CardFor(registry, t, s).rows && cid in row
    ensures Dispatch(registry, cid).Some? && Dispatch(registry, cid).value.taskId == t.id
  {
    ActionRowsDispatch(registry, t.id, s);
  }

  // ---------------------------------------------------------------------------
  // moveTaskToCategory, as values

  /** The channels a move resolves before it changes anything. */
  datatype MovePlan = MovePlan(task: Task, fromChannel: Snowflake, toChannel: Snowflake)

  /** The guard chain of `moveTaskToCategory`: a configured guild, a channel
      bound to the target state, a known task, a channel bound to its current
      state, and both channels resolvable. */
  function PlanMove(guilds: seq<GuildConfig>, chs: Channels, tasks: seq<Task>, guildId: string,
                    taskId: string, target: TaskState): (r: Option<MovePlan>)
    ensures r.None? <==>
              || FindGuild(guilds, guildId).None?
              || ChannelFor(FindGuild(guilds, guildId).value, target).None?
              || FindTask(tasks, taskId).None?
              || ChannelFor(FindGuild(guilds, guildId).value, FindTask(tasks, taskId).value.state).None?
              || ChannelFor(FindGuild(guilds, guildId).value, FindTask(tasks, taskId).value.state).value !in chs
              || ChannelFor(FindGuild(guilds, guildId).value, target).value !in chs
    ensures r.Some? ==>
              && FindTask(tasks, taskId) == Some(r.value.task)
              && r.value.fromChannel in chs && r.value.toChannel in chs
              && ChannelFor(FindGuild(guilds, guildId).value, target) == Some(r.value.toChannel)
              && ChannelFor(FindGuild(guilds, guildId).value, r.value.task.state) == Some(r.value.fromChannel)
  {
    var g := FindGuild(guilds, guildId);
    if g.None? then None
    else
      var to := ChannelFor(g.value, target);
      if to.None? then None
      else
        var t := FindTask(tasks, taskId);
        if t.None? then None
        else
          var from := ChannelFor(g.value, t.value.state);
          if from.None? || from.value !in chs || to.value !in chs then None
          else Some(MovePlan(t.value, from.value, to.value))
  }

  /** The task list after a move that went ahead: new state, new message. */
  function MovedTasks(tasks: seq<Task>, taskId: string, target: TaskState, m: Snowflake): seq<Task> {
    SetMessageId(SetState(tasks, taskId, target), taskId, m)
  }

  /** The channels after a move that went ahead: the old card deleted when it
      can be found, then the new card posted under id `m`. */
  function MovedChannels(chs: Channels, plan: MovePlan, registry: seq<TaskButton>, target: TaskState, m: Snowflake): Channels
    requires plan.toChannel in chs
  {
    var afterDelete := if plan.task.messageId.Some? then Deleted(chs, plan.fromChannel, plan.task.messageId.value) else chs;
    Posted(afterDelete, plan.toChannel, Message(m, true, CardFor(registry, plan.task.(state := target), target)))
  }

  /** After a move the task is found in the target state showing the new
      message, with its id, title, description and assignees kept; every
      other task keeps its place and its content. */
  lemma {:induction false} MoveTaskEffect(tasks: seq<Task>, taskId: string, target: TaskState, m: Snowflake)
    ensures |MovedTasks(tasks, taskId, target, m)| == |tasks|
    ensures FindTask(tasks, taskId).None? ==> MovedTasks(tasks, taskId, target, m) == tasks
    ensures FindTask(tasks, taskId).Some? ==>
              FindTask(MovedTasks(tasks, taskId, target, m), taskId)
                == Some(FindTask(tasks, taskId).value.(state := target, messageId := Some(m)))
    ensures forall j :: 0 <= j < |tasks| && Some(j) != FindIndex(tasks, taskId) ==>
              MovedTasks(tasks, taskId, target, m)[j] == tasks[j]
  {
    var a := SetState(tasks, taskId, target);
    SetStateEffect(tasks, taskId, target);
    UpdateFirstOnlyThere(tasks, taskId, (t: Task) => t.(state := target));
    UpdateFirstOnlyThere(a, taskId, (t: Task) => t.(messageId := Some(m)));
  }

  /** There is no same-state shortcut: moving a task to the state it is in
      still replaces its message. */
  lemma SameStateMoveReposts(tasks: seq<Task>, taskId: string, m: Snowflake)
    requires FindTask(tasks, taskId).Some?
    requires FindTask(tasks, taskId).value.messageId != Some(m)
    ensures MovedTasks(tasks, taskId, FindTask(tasks, taskId).value.state, m) != tasks
  {
    var t := FindTask(tasks, taskId).value;
    MoveTaskEffect(tasks, taskId, t.state, m);
  }

  /** After a move the new card is in the target channel under the fresh id
      and the old card is gone from the old channel. */
  lemma MoveMessagesEffect(chs: Channels, plan: MovePlan, registry: seq<TaskButton>, target: TaskState, m: Snowflake)
    requires plan.toChannel in chs && plan.fromChannel in chs
    requires forall d, x :: d in chs && x in chs[d] ==> x.id != m
    ensures FindMessage(MovedChannels(chs, plan, registry, target, m), plan.toChannel, m)
              == Some(Message(m, true, CardFor(registry, plan.task.(state := target), target)))
    ensures plan.task.messageId.Some? && plan.task.messageId.value != m ==>
              FindMessage(MovedChannels(chs, plan, registry, target, m), plan.fromChannel, plan.task.messageId.value).None?
  {
    var afterDelete := if plan.task.messageId.Some? then Deleted(chs, plan.fromChannel, plan.task.messageId.value) else chs;
    if plan.task.messageId.Some? {
      DeletedEffect(chs, plan.fromChannel, plan.task.messageId.value);
    }
    assert forall x :: x in afterDelete[plan.toChannel] ==> x in chs[plan.toChannel];
    PostedEffect(afterDelete, plan.toChannel, Message(m, true, CardFor(registry, plan.task.(state := target), target)));
  }

  /** The channel holding a task's card, where `updateTaskEmbed` edits it
      and the delete button removes it: the task has a message id and its
      guild binds a resolvable channel to the task's current state. */
  function CardChannel(guilds: seq<GuildConfig>, chs: Channels, guildId: string, t: Task): (r: Option<Snowflake>)
    ensures r.Some? ==> r.value in chs && t.messageId.Some?
                        && FindGuild(guilds, guildId).Some?
                        && ChannelFor(FindGuild(guilds, guildId).value, t.state) == r
    ensures r.None? <==>
              || t.messageId.None? || FindGuild(guilds, guildId).None?
              || ChannelFor(FindGuild(guilds, guildId).value, t.state).None?
              || ChannelFor(FindGuild(guilds, guildId).value, t.state).value !in chs
  {
    if t.messageId.None? then None
    else
      var g := FindGuild(guilds, guildId);
      if g.None? then None
      else
        var c := ChannelFor(g.value, t.state);
        if c.None? || c.value !in chs then None else c
  }

  // ---------------------------------------------------------------------------
  // The TaskManager object

  class TaskManager {
    var tasks: seq<Task>

    constructor (tasks: seq<Task>)
      ensures this.tasks == tasks
    {
      this.tasks := tasks;
    }

    /** `addTask`: appends at the end. */
    method AddTask(t: Task)
      modifies this
      ensures tasks == old(tasks) + [t]
    {
      tasks := tasks + [t];
    }

    /** `updateTaskState`. */
    method UpdateTaskState(id: string, s: TaskState)
      modifies this
      ensures tasks == SetState(old(tasks), id, s)
    {
      var i := FindIndex(tasks, id);
      if i.Some? {
        tasks := tasks[i.value := tasks[i.value].(state := s)];
      }
    }

    /** `assignUserToTask`: reports whether the user was added. */
    method AssignUserToTask(taskId: string, userId: string) returns (ok: bool)
      modifies this
      ensures ok == CanAssign(old(tasks), taskId, userId)
      ensures tasks == Assign(old(tasks), taskId, userId)
    {
      var i := FindIndex(tasks, taskId);
      ok := false;
      if i.Some? {
        var t := tasks[i.value];
        if userId !in t.assignedUsers {
          tasks := tasks[i.value := t.(assignedUsers := t.assignedUsers + [userId])];
          ok := true;
        }
      }
    }

    /** `unassignUserFromTask`. */
    method UnassignUserFromTask(taskId: string, userId: string)
      modifies this
      ensures tasks == Unassign(old(tasks), taskId, userId)
    {
      var i := FindIndex(tasks, taskId);
      if i.Some? {
        var t := tasks[i.value];
        tasks := tasks[i.value := t.(assignedUsers := RemoveFirst(t.assignedUsers, userId))];
      }
    }

    /** `removeTask`: `removeAll`, which keeps the tasks with other ids in
        order. */
    method RemoveTask(id: string)
      modifies this
      ensures tasks == RemoveById(old(tasks), id)
    {
      var all := tasks;
      var kept: seq<Task> := [];
      var i := 0;
      while i < |all|
        invariant 0 <= i <= |all|
        invariant kept == WithoutKey(all[..i], TaskId, id)
      {
        assert all[..i + 1] == all[..i] + [all[i]];
        WithoutKeySnoc(all[..i], all[i], TaskId, id);
        if all[i].id != id {
          kept := kept + [all[i]];
        }
        i := i + 1;
      }
      assert all[..i] == all;
      tasks := kept;
    }

    /** `removeTaskByMessageId`. */
    method RemoveTaskByMessageId(m: Snowflake)
      modifies this
      ensures tasks == RemoveByMessageId(old(tasks), m)
    {
      var all := tasks;
      var kept: seq<Task> := [];
      var i := 0;
      while i < |all|
        invariant 0 <= i <= |all|
        invariant kept == WithoutKey(all[..i], TaskMessageId, Some(m))
      {
        assert all[..i + 1] == all[..i] + [all[i]];
        WithoutKeySnoc(all[..i], all[i], TaskMessageId, Some(m));
        if all[i].messageId != Some(m) {
          kept := kept + [all[i]];
        }
        i := i + 1;
      }
      assert all[..i] == all;
      tasks := kept;
    }

    /** `updateTask`: a replacement copy at the task's index. */
    method UpdateTask(id: string, newTitle: Option<string>, newDescription: Option<string>)
      modifies this
      ensures tasks == Edit(old(tasks), id, newTitle, newDescription)
    {
      var i := FindIndex(tasks, id);
      if i.Some? {
        var t := tasks[i.value];
        var title := if newTitle.Some? then newTitle.value else t.title;
        var description := if newDescription.Some? then newDescription.value else t.description;
        tasks := tasks[i.value := t.(title := title, description := description)];
      }
    }

    /** `updateTaskMessageId`. */
    method UpdateTaskMessageId(id: string, m: Snowflake)
      modifies this
      ensures tasks == SetMessageId(old(tasks), id, m)
    {
      var i := FindIndex(tasks, id);
      if i.Some? {
        tasks := tasks[i.value := tasks[i.value].(messageId := Some(m))];
      }
    }

    /** `moveTaskToCategory`: after the guards, sets the new state, deletes
        the old card when it can be found, posts the new card in the target
        channel and records its id. */
    method MoveTaskToCategory(config: BotConfig, store: MessageStore, registry: seq<TaskButton>,
                              guildId: string, taskId: string, target: TaskState)
      requires store.Valid()
      modifies this, store
      ensures store.Valid()
      ensures PlanMove(config.guilds, old(store.channels), old(tasks), guildId, taskId, target).None? ==>
                tasks == old(tasks) && store.channels == old(store.channels) && store.nextId == old(store.nextId)
      ensures PlanMove(config.guilds, old(store.channels), old(tasks), guildId, taskId, target).Some? ==>
                && tasks == MovedTasks(old(tasks), taskId, target, old(store.nextId))
                && store.nextId == old(store.nextId) + 1
                && store.channels == MovedChannels(old(store.channels),
                                                   PlanMove(config.guilds, old(store.channels), old(tasks), guildId, taskId, target).value,
                                                   registry, target, old(store.nextId))
    {
      var g := FindGuild(config.guilds, guildId);
      if g.None? { return; }
      var channelId := ChannelFor(g.value, target);
      if channelId.None? { return; }
      var oldTask := FindTask(tasks, taskId);
      if oldTask.None? { return; }
      var oldChannelId := ChannelFor(g.value, oldTask.value.state);
      if oldChannelId.None? { return; }
      if oldChannelId.value !in store.channels { return; }
      if channelId.value !in store.channels { return; }
      var task := oldTask.value;

      UpdateTaskState(taskId, target);
      if task.messageId.Some? {
        var _ := store.DeleteMessage(oldChannelId.value, task.messageId.value);
      }
      var newId := store.CreateMessage(channelId.value, CardFor(registry, task.(state := target), target));
      UpdateTaskMessageId(taskId, newId);
    }

    /** `updateTaskEmbed`: re-renders the task's card in place; any failure
        (no message id, no guild, no channel, message gone) changes nothing. */
    method UpdateTaskEmbed(config: BotConfig, store: MessageStore, registry: seq<TaskButton>, guildId: string, t: Task)
      requires store.Valid()
      modifies store
      ensures store.Valid() && store.nextId == old(store.nextId)
      ensures CardChannel(config.guilds, old(store.channels), guildId, t).None? ==> store.channels == old(store.channels)
      ensures CardChannel(config.guilds, old(store.channels), guildId, t).Some? ==>
                store.channels == Edited(old(store.channels), CardChannel(config.guilds, old(store.channels), guildId, t).value,
                                         t.messageId.value, CardFor(registry, t, t.state))
    {
      if t.messageId.None? { return; }
      var g := FindGuild(config.guilds, guildId);
      if g.None? { return; }
      var channelId := ChannelFor(g.value, t.state);
      if channelId.None? || channelId.value !in store.channels { return; }
      var _ := store.EditMessage(channelId.value, t.messageId.value, CardFor(registry, t, t.state));
    }
  }
}
