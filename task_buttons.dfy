/** The button handlers of TaskButtons.kt and the click entry point of
    ButtonHandler.kt (`handleButtonClick`). The four move buttons form the
    task state machine: each moves the task to a fixed state and refreshes a
    fixed set of summaries. Delete removes the task and its card, assign-me
    toggles the clicking user's membership, and the two modal buttons answer
    with a form. The handlers work on the three mutable objects (the guild
    configuration, the message store and the task list); `World` gathers their
    contents so that each handler can be specified by a function of the world
    before the click. */
module TaskButtons {
  import opened Common
  import opened Tasks
  import opened Buttons
  import opened GuildSettings
  import opened Messages
  import opened Manager
  import opened ChannelUtils

  /** What the interaction is answered with. */
  datatype Reply =
    | NoReply
    | Deferred
    | Ephemeral(text: string)
    | OpenModal(heading: string, modalId: string, prefilled: seq<string>)

  /** The world after an interaction and the answer to it. */
  datatype Handled = Handled(world: World, reply: Reply)

  const AssignModalPrefix: string := "assign-user-modal-"
  const EditModalPrefix: string := "edit-task-modal-"

  // ---------------------------------------------------------------------------
  // The state machine table

  /** The state a move button sends its task to. */
  function MoveTarget(kind: ButtonType): (r: Option<TaskState>)
    ensures r.Some? <==> kind in {StartTask, CompleteTask, PauseTask, ReopenTask}
  {
    match kind
    case StartTask => Some(InProgress)
    case CompleteTask => Some(Completed)
    case PauseTask => Some(Pending)
    case ReopenTask => Some(Pending)
    case _ => None
  }

  /** The summaries a move button refreshes after the move, in order. */
  function RefreshedStates(kind: ButtonType): seq<TaskState> {
    match kind
    case StartTask => [Pending, InProgress]
    case CompleteTask => [Pending, InProgress, Completed]
    case PauseTask => [Pending, InProgress]
    case ReopenTask => [Pending, Completed]
    case _ => []
  }

  /** The table agrees with the cards: a move button is only offered in a
      state other than its target, and its refresh list covers both the
      state it is offered in and the target, so both counts that change are
      redrawn. */
  lemma MoveTableCoversBothEnds(kind: ButtonType, s: TaskState)
    requires MoveTarget(kind).Some? && kind in ButtonTypesFor(s)
    ensures MoveTarget(kind).value != s
    ensures s in RefreshedStates(kind)
    ensures MoveTarget(kind).value in RefreshedStates(kind)
  {
  }

  // ---------------------------------------------------------------------------
  // The world after each step

  /** `moveTaskToCategory` on the world: nothing when a guard fails, else
      the moved task, the reposted card and one id used. */
  function AfterMove(w: World, registry: seq<TaskButton>, guildId: string, taskId: string, target: TaskState): World {
    var plan := PlanMove(w.guilds, w.chs, w.tasks, guildId, taskId, target);
    if plan.None? then w
    else World(w.guilds, MovedChannels(w.chs, plan.value, registry, target, w.nextId), w.nextId + 1,
               MovedTasks(w.tasks, taskId, target, w.nextId))
  }

  /** The channels after the card of a listed task is deleted, before the
      summary refresh. */
  function DeletedCard(w: World, guildId: string, t: Task): (r: Channels)
    ensures r.Keys == w.chs.Keys
    ensures IdsBelow(w.chs, w.nextId) ==> IdsBelow(r, w.nextId)
  {
    var c := CardChannel(w.guilds, w.chs, guildId, t);
    if c.Some? then Deleted(w.chs, c.value, t.messageId.value) else w.chs
  }

  /** The delete button: re-reads the task and, when it is still there,
      deletes its card if it can be found, removes the task, and refreshes the
      summary of the state the task was in. */
  function AfterDelete(w: World, guildId: string, taskId: string): World {
    var found := FindTask(w.tasks, taskId);
    if found.None? then w
    else
      var t := found.value;
      AfterRefresh(World(w.guilds, DeletedCard(w, guildId, t), w.nextId, RemoveById(w.tasks, t.id)), guildId, t.state)
  }

  /** `getTaskById(id)?.let { updateTaskEmbed(guildId, it) }`: the task is
      read again and its card, when it can be found, is edited in place to
      show it; without a guild there is nothing to redraw. */
  function Redrawn(w: World, registry: seq<TaskButton>, guildId: Option<string>, taskId: string): World {
    var u := FindTask(w.tasks, taskId);
    var c := if guildId.Some? && u.Some? then CardChannel(w.guilds, w.chs, guildId.value, u.value) else None;
    if c.Some? then w.(chs := Edited(w.chs, c.value, u.value.messageId.value, CardFor(registry, u.value, u.value.state)))
    else w
  }

  /** A redraw leaves the tasks, the configuration and the next id alone,
      and the card found in the channel of the task's state then shows the
      task as it is now. */
  lemma RedrawShowsTask(w: World, registry: seq<TaskButton>, guildId: string, taskId: string)
    ensures Redrawn(w, registry, Some(guildId), taskId).tasks == w.tasks
    ensures Redrawn(w, registry, Some(guildId), taskId).guilds == w.guilds
    ensures Redrawn(w, registry, Some(guildId), taskId).nextId == w.nextId
    ensures FindTask(w.tasks, taskId).Some? ==>
              var t := FindTask(w.tasks, taskId).value;
              var c := CardChannel(w.guilds, w.chs, guildId, t);
              c.Some? && FindMessage(w.chs, c.value, t.messageId.value).Some? ==>
                FindMessage(Redrawn(w, registry, Some(guildId), taskId).chs, c.value, t.messageId.value)
                  == Some(FindMessage(w.chs, c.value, t.messageId.value).value.(body := CardFor(registry, t, t.state)))
  {
    var u := FindTask(w.tasks, taskId);
    if u.Some? {
      var c := CardChannel(w.guilds, w.chs, guildId, u.value);
      if c.Some? {
        EditedEffect(w.chs, c.value, u.value.messageId.value, CardFor(registry, u.value, u.value.state));
      }
    }
  }

  /** The assign-me button: unassigns the clicking user when listed, assigns
      otherwise, then redraws the task's card. */
  function AfterAssignMe(w: World, registry: seq<TaskButton>, guildId: Option<string>, task: Task, userId: string): World {
    var tasks1 := if userId in task.assignedUsers then Unassign(w.tasks, task.id, userId)
                  else Assign(w.tasks, task.id, userId);
    Redrawn(w.(tasks := tasks1), registry, guildId, task.id)
  }

  /** The guild id the default `handle` passes on. `guildId?.value.toString()`
      turns a missing guild into the text "null" rather than into `null`, so
      the `?: return` after it never fires and a click without a guild goes
      on with the guild id "null". */
  function HandlerGuild(guildId: Option<string>): (r: string)
    ensures guildId.Some? ==> r == guildId.value
    ensures guildId.None? ==> r == "null"
  {
    match guildId
    case Some(g) => g
    case None => "null"
  }

  /** What handling a click on a button of the given kind does to the world.
      The modal buttons change nothing; the move and delete buttons go
      through the default `handle` with the guild it derives. */
  function AfterButton(w: World, registry: seq<TaskButton>, kind: ButtonType, task: Task,
                       guildId: Option<string>, userId: string): World
  {
    match kind
    case SelectUsers => w
    case EditTask => w
    case AssignMe => AfterAssignMe(w, registry, guildId, task, userId)
    case DeleteTask => AfterDelete(w, HandlerGuild(guildId), task.id)
    case _ =>
      AfterRefreshAll(AfterMove(w, registry, HandlerGuild(guildId), task.id, MoveTarget(kind).value),
                      HandlerGuild(guildId), RefreshedStates(kind))
  }

  /** The answer to a click: the modal buttons open their form (the edit
      form filled with the task's title and description), assign-me confirms
      what it did, and the other buttons acknowledge the click silently. */
  function ButtonReply(kind: ButtonType, task: Task, userId: string): Reply {
    match kind
    case SelectUsers => OpenModal("Assign User to Task", AssignModalPrefix + task.id, [])
    case EditTask => OpenModal("Edit Task", EditModalPrefix + task.id, [task.title, task.description])
    case AssignMe =>
      if userId in task.assignedUsers
      then Ephemeral("\U{2705} Successfully unassigned yourself from task \"" + task.title + "\"!")
      else Ephemeral("\U{2705} Successfully assigned yourself to task \"" + task.title + "\"!")
    case _ => Deferred
  }

  // ---------------------------------------------------------------------------
  // Properties of the handlers

  /** A move button with a guild: when the move's guards pass, the task ends
      in the target state showing the freshly posted card, whatever the
      refreshes do afterwards; when they fail, the task list is unchanged. */
  lemma MoveButtonOutcome(w: World, registry: seq<TaskButton>, kind: ButtonType, task: Task, guildId: string, userId: string)
    requires MoveTarget(kind).Some?
    ensures var w2 := AfterButton(w, registry, kind, task, Some(guildId), userId);
            var target := MoveTarget(kind).value;
            && (PlanMove(w.guilds, w.chs, w.tasks, guildId, task.id, target).None? ==> w2.tasks == w.tasks)
            && (PlanMove(w.guilds, w.chs, w.tasks, guildId, task.id, target).Some? ==>
                  && FindTask(w2.tasks, task.id)
                       == Some(FindTask(w.tasks, task.id).value.(state := target, messageId := Some(w.nextId)))
                  && w2.nextId > w.nextId)
  {
    var target := MoveTarget(kind).value;
    var w1 := AfterMove(w, registry, guildId, task.id, target);
    RefreshKeepsTasks(w1, guildId, RefreshedStates(kind));
    MoveTaskEffect(w.tasks, task.id, target, w.nextId);
  }

  /** A refresh adds no message with an id other than the next one, so a
      message absent from a channel stays absent. */
  lemma RefreshKeepsAbsent(w: World, guildId: string, s: TaskState, c: Snowflake, id: Snowflake)
    requires FindMessage(w.chs, c, id).None? && id != w.nextId
    ensures FindMessage(AfterRefresh(w, guildId, s).chs, c, id).None?
  {
    var sc := SummaryChannel(w.guilds, w.chs, guildId, s);
    var r := AfterRefresh(w, guildId, s).chs;
    var body := SummaryBody(w.tasks, guildId, s);
    if sc.None? {
      assert r == w.chs;
    } else if SummaryEditable(w.guilds, w.chs, guildId, s) {
      var sid := SummaryFor(FindGuild(w.guilds, guildId).value, s).value;
      assert r == Edited(w.chs, sc.value, sid, body);
      EditedKeepsAbsent(w.chs, sc.value, sid, body, c, id);
    } else {
      assert r == Posted(w.chs, sc.value, Message(w.nextId, true, body));
      PostedKeepsAbsent(w.chs, sc.value, Message(w.nextId, true, body), c, id);
    }
  }

  /** The delete button on the task list: afterwards no task has the id,
      every other task is still listed, and a task already gone means
      nothing happens at all. */
  lemma DeleteRemovesTask(w: World, guildId: string, taskId: string)
    ensures FindTask(AfterDelete(w, guildId, taskId).tasks, taskId).None?
    ensures forall t :: t in w.tasks && t.id != taskId ==> t in AfterDelete(w, guildId, taskId).tasks
    ensures FindTask(w.tasks, taskId).None? ==> AfterDelete(w, guildId, taskId) == w
  {
  }

  /** The delete button on the channels: the task's card (an id the store
      handed out) is gone from the channel of its state, and the summary
      refresh that follows does not bring that id back. */
  lemma DeleteRemovesCard(w: World, guildId: string, taskId: string)
    requires IdsBelow(w.chs, w.nextId)
    requires FindTask(w.tasks, taskId).Some?
    requires CardChannel(w.guilds, w.chs, guildId, FindTask(w.tasks, taskId).value).Some?
    requires FindTask(w.tasks, taskId).value.messageId.value < w.nextId
    ensures var t := FindTask(w.tasks, taskId).value;
            FindMessage(AfterDelete(w, guildId, taskId).chs,
                        CardChannel(w.guilds, w.chs, guildId, t).value, t.messageId.value).None?
  {
    var t := FindTask(w.tasks, taskId).value;
    var c := CardChannel(w.guilds, w.chs, guildId, t).value;
    var mid := t.messageId.value;
    var chs1 := DeletedCard(w, guildId, t);
    var w1 := World(w.guilds, chs1, w.nextId, RemoveById(w.tasks, t.id));
    assert AfterDelete(w, guildId, taskId) == AfterRefresh(w1, guildId, t.state);
    DeletedEffect(w.chs, c, mid);
    RefreshKeepsAbsent(w1, guildId, t.state, c, mid);
  }

  /** The delete button on the summaries: the summary of the state the task
      was in shows the count without it. */
  lemma DeleteRefreshesCount(w: World, guildId: string, taskId: string)
    requires IdsBelow(w.chs, w.nextId)
    requires FindTask(w.tasks, taskId).Some?
    requires SummaryChannel(w.guilds, w.chs, guildId, FindTask(w.tasks, taskId).value.state).Some?
    ensures var t := FindTask(w.tasks, taskId).value;
            var w2 := AfterDelete(w, guildId, taskId);
            var c := SummaryChannel(w.guilds, w.chs, guildId, t.state).value;
            && FindGuild(w2.guilds, guildId).Some?
            && SummaryFor(FindGuild(w2.guilds, guildId).value, t.state).Some?
            && var m := FindMessage(w2.chs, c, SummaryFor(FindGuild(w2.guilds, guildId).value, t.state).value);
               m.Some? && m.value.body == SummaryBody(RemoveById(w.tasks, taskId), guildId, t.state)
  {
    var t := FindTask(w.tasks, taskId).value;
    var chs1 := DeletedCard(w, guildId, t);
    var w1 := World(w.guilds, chs1, w.nextId, RemoveById(w.tasks, t.id));
    assert AfterDelete(w, guildId, taskId) == AfterRefresh(w1, guildId, t.state);
    assert SummaryChannel(w.guilds, chs1, guildId, t.state) == SummaryChannel(w.guilds, w.chs, guildId, t.state);
    RefreshShowsCount(w.guilds, chs1, w.nextId, w1.tasks, guildId, t.state);
  }

  /** The assign-me button toggles: a listed user is no longer listed, an
      unlisted one is listed, and every assignee list stays duplicate-free. */
  lemma AssignMeToggles(w: World, registry: seq<TaskButton>, guildId: Option<string>, task: Task, userId: string)
    requires FindTask(w.tasks, task.id) == Some(task)
    requires AssigneesDistinct(w.tasks)
    ensures var w2 := AfterAssignMe(w, registry, guildId, task, userId);
            && AssigneesDistinct(w2.tasks)
            && FindTask(w2.tasks, task.id).Some?
            && (userId in FindTask(w2.tasks, task.id).value.assignedUsers <==> userId !in task.assignedUsers)
  {
    if userId in task.assignedUsers {
      UnassignEffect(w.tasks, task.id, userId);
    } else {
      AssignEffect(w.tasks, task.id, userId);
    }
  }

  /** Assign-me twice from an unassigned start gives back the task list. */
  lemma AssignMeTwiceRestores(w: World, registry: seq<TaskButton>, guildId: Option<string>, task: Task, userId: string)
    requires FindTask(w.tasks, task.id) == Some(task)
    requires userId !in task.assignedUsers
    ensures var w1 := AfterAssignMe(w, registry, guildId, task, userId);
            && FindTask(w1.tasks, task.id).Some?
            && AfterAssignMe(w1, registry, guildId, FindTask(w1.tasks, task.id).value, userId).tasks == w.tasks
  {
    assert CanAssign(w.tasks, task.id, userId);
    var a := Assign(w.tasks, task.id, userId);
    var i := FindIndex(w.tasks, task.id).value;
    SameIdsSameLookup(w.tasks, a, task.id);
    assert a[i] == task.(assignedUsers := task.assignedUsers + [userId]);
    var w1 := AfterAssignMe(w, registry, guildId, task, userId);
    assert w1.tasks == a;
    UnassignAfterAssign(w.tasks, task.id, userId);
  }

  /** A move button clicked without a guild, when no configuration has the
      guild id "null": the move finds no guild and nothing changes. */
  lemma NoGuildMoveNoChange(w: World, registry: seq<TaskButton>, kind: ButtonType, task: Task, userId: string)
    requires MoveTarget(kind).Some?
    requires FindGuild(w.guilds, "null").None?
    ensures AfterButton(w, registry, kind, task, None, userId) == w
  {
    assert AfterMove(w, registry, "null", task.id, MoveTarget(kind).value) == w;
    UnknownGuildRefreshNoChange(w, "null", RefreshedStates(kind));
  }

  /** The delete button clicked without a guild, when no configuration has
      the guild id "null": no card is found and no summary refreshed, but the
      task is still taken off the list. */
  lemma NoGuildDeleteStillRemoves(w: World, registry: seq<TaskButton>, task: Task, userId: string)
    requires FindGuild(w.guilds, "null").None?
    ensures AfterButton(w, registry, DeleteTask, task, None, userId) == w.(tasks := RemoveById(w.tasks, task.id))
    ensures FindTask(AfterButton(w, registry, DeleteTask, task, None, userId).tasks, task.id).None?
  {
    var found := FindTask(w.tasks, task.id);
    if found.None? {
      RemoveByIdProperties(w.tasks, [], task.id);
    } else {
      var t := found.value;
      var w1 := World(w.guilds, w.chs, w.nextId, RemoveById(w.tasks, t.id));
      assert DeletedCard(w, "null", t) == w.chs;
      UnknownGuildRefreshNoChange(w1, "null", [t.state]);
    }
  }

  // ---------------------------------------------------------------------------
  // The handlers

  /** `moveTaskToCategory` on the three objects, seen as the world. */
  method MoveOnWorld(config: BotConfig, store: MessageStore, manager: TaskManager, registry: seq<TaskButton>,
                     guildId: string, taskId: string, target: TaskState)
    requires store.Valid()
    modifies store, manager
    ensures store.Valid()
    ensures WorldOf(config, store, manager) == AfterMove(old(WorldOf(config, store, manager)), registry, guildId, taskId, target)
  {
    manager.MoveTaskToCategory(config, store, registry, guildId, taskId, target);
  }

  /** The four move buttons: `moveTaskToCategory`, then the summaries. */
  method HandleMove(config: BotConfig, store: MessageStore, manager: TaskManager, registry: seq<TaskButton>,
                    guildId: string, taskId: string, target: TaskState, states: seq<TaskState>)
    requires store.Valid()
    modifies config, store, manager
    ensures store.Valid()
    ensures WorldOf(config, store, manager)
              == AfterRefreshAll(AfterMove(old(WorldOf(config, store, manager)), registry, guildId, taskId, target),
                                 guildId, states)
  {
    MoveOnWorld(config, store, manager, registry, guildId, taskId, target);
    RefreshSummaries(config, store, manager, guildId, states);
  }

  /** The delete button. */
  method HandleDelete(config: BotConfig, store: MessageStore, manager: TaskManager, guildId: string, taskId: string)
    requires store.Valid()
    modifies config, store, manager
    ensures store.Valid()
    ensures WorldOf(config, store, manager) == AfterDelete(old(WorldOf(config, store, manager)), guildId, taskId)
  {
    var found := FindTask(manager.tasks, taskId);
    if found.None? { return; }
    var t := found.value;
    var c := CardChannel(config.guilds, store.channels, guildId, t);
    if c.Some? {
      var _ := store.DeleteMessage(c.value, t.messageId.value);
    }
    manager.RemoveTask(t.id);
    UpdateChannelSummary(config, store, manager, guildId, t.state);
  }

  /** `getTaskById(id)?.let { updateTaskEmbed(it) }`: re-reads the task and
      edits its card in place. */
  method RedrawTask(config: BotConfig, store: MessageStore, manager: TaskManager, registry: seq<TaskButton>,
                    guildId: Option<string>, taskId: string)
    requires store.Valid()
    modifies store
    ensures store.Valid()
    ensures WorldOf(config, store, manager) == Redrawn(old(WorldOf(config, store, manager)), registry, guildId, taskId)
  {
    var u := FindTask(manager.tasks, taskId);
    if guildId.Some? && u.Some? {
      manager.UpdateTaskEmbed(config, store, registry, guildId.value, u.value);
    }
  }

  /** The assign-me button. */
  method HandleAssignMe(config: BotConfig, store: MessageStore, manager: TaskManager, registry: seq<TaskButton>,
                        guildId: Option<string>, task: Task, userId: string) returns (reply: Reply)
    requires store.Valid()
    modifies store, manager
    ensures store.Valid()
    ensures WorldOf(config, store, manager) == AfterAssignMe(old(WorldOf(config, store, manager)), registry, guildId, task, userId)
    ensures reply == ButtonReply(AssignMe, task, userId)
  {
    if userId in task.assignedUsers {
      manager.UnassignUserFromTask(task.id, userId);
    } else {
      var _ := manager.AssignUserToTask(task.id, userId);
    }
    RedrawTask(config, store, manager, registry, guildId, task.id);
    reply := ButtonReply(AssignMe, task, userId);
  }

  /** `button.handle(task, event)` for a task taken from the list. */
  method HandleButton(config: BotConfig, store: MessageStore, manager: TaskManager, registry: seq<TaskButton>,
                      kind: ButtonType, task: Task, guildId: Option<string>, userId: string) returns (reply: Reply)
    requires store.Valid()
    modifies config, store, manager
    ensures store.Valid()
    ensures WorldOf(config, store, manager)
              == AfterButton(old(WorldOf(config, store, manager)), registry, kind, task, guildId, userId)
    ensures reply == ButtonReply(kind, task, userId)
  {
    reply := ButtonReply(kind, task, userId);
    if kind == SelectUsers || kind == EditTask {
      return;
    }
    if kind == AssignMe {
      reply := HandleAssignMe(config, store, manager, registry, guildId, task, userId);
      return;
    }
    var handlerGuild := HandlerGuild(guildId);
    if kind == DeleteTask {
      HandleDelete(config, store, manager, handlerGuild, task.id);
    } else {
      HandleMove(config, store, manager, registry, handlerGuild, task.id, MoveTarget(kind).value, RefreshedStates(kind));
    }
  }

  /** `handleButtonClick`: resolves the clicked component id to a button
      and a task id, looks the task up, and runs the button's handler.
      Reports whether a handler ran; when none did, nothing has changed. */
  method HandleButtonClick(config: BotConfig, store: MessageStore, manager: TaskManager, registry: seq<TaskButton>,
                           componentId: string, guildId: Option<string>, userId: string)
    returns (handled: bool, reply: Reply)
    requires store.Valid()
    modifies config, store, manager
    ensures store.Valid()
    ensures handled <==> Dispatch(registry, componentId).Some?
                         && FindTask(old(manager.tasks), Dispatch(registry, componentId).value.taskId).Some?
    ensures !handled ==> WorldOf(config, store, manager) == old(WorldOf(config, store, manager)) && reply == NoReply
    ensures handled ==>
              var click := Dispatch(registry, componentId).value;
              var task := FindTask(old(manager.tasks), click.taskId).value;
              && WorldOf(config, store, manager)
                   == AfterButton(old(WorldOf(config, store, manager)), registry, click.button.kind, task, guildId, userId)
              && reply == ButtonReply(click.button.kind, task, userId)
  {
    var click := Dispatch(registry, componentId);
    if click.None? {
      return false, NoReply;
    }
    var found := FindTask(manager.tasks, click.value.taskId);
    if found.None? {
      return false, NoReply;
    }
    reply := HandleButton(config, store, manager, registry, click.value.button.kind, found.value, guildId, userId);
    handled := true;
  }

  /** A click on a button of a task's own card reaches that task, with the
      button's kind, whenever the task is still listed. */
  lemma CardClickReachesTask(registry: seq<TaskButton>, b: TaskButton, task: Task, tasks: seq<Task>)
    requires b in registry && task in tasks
    ensures var click := Dispatch(registry, ComponentId(b, task.id));
            && click.Some? && click.value.button.kind == b.kind
            && FindTask(tasks, click.value.taskId).Some?
            && FindTask(tasks, click.value.taskId).value.id == task.id
  {
    DispatchComponentId(registry, b, task.id);
  }
}
