/** The form submissions of Main.kt: the assign-user and edit-task forms the
    select-users and edit buttons open, and the submission listener that
    drops stale submissions and routes the rest by modal-id prefix. The
    decisions (prefix stripping, trimming, the blank guards, mention
    normalisation, the age cut-off) are functions; the handlers apply them
    through the TaskManager and the message store. */
module ModalHandling {
  import opened Common
  import opened Tasks
  import opened Buttons
  import opened Messages
  import opened GuildSettings
  import opened Manager
  import opened ChannelUtils
  import opened TaskButtons

  /** A submitted form: its modal id, its age in milliseconds (the time of
      receipt minus the time stamped in the interaction id), the guild it
      came from, and the values of its text inputs by input id. */
  datatype ModalSubmit = ModalSubmit(modalId: string, ageMillis: int, guildId: Option<string>, inputs: map<string, string>)

  const InvalidUserReply: string := "\U{274C} Please provide a valid user ID, mention, or name."
  const TaskNotFoundReply: string := "\U{274C} Task not found."
  const MissingFieldsReply: string := "\U{274C} Please provide both title and description."
  const UnknownModalReply: string := "\U{274C} Unknown modal submission."

  // ---------------------------------------------------------------------------
  // Input parsing

  /** A mention typed as `<@…>` gives the text between `<@` and `>` with a
      leading `!` (the nickname form) dropped; anything else is kept as
      typed. */
  function NormalizeMention(input: string): string {
    if StartsWith(input, "<@") && EndsWith(input, ">")
    then RemovePrefix(RemoveSuffix(RemovePrefix(input, "<@"), ">"), "!")
    else input
  }

  /** Normalisation undoes both mention forms, and in particular the mention
      the task card shows for a user id. */
  lemma {:induction false} MentionNormalized(u: string)
    ensures NormalizeMention("<@" + u + ">") == RemovePrefix(u, "!")
    ensures NormalizeMention("<@!" + u + ">") == u
    ensures AllDigits(u) ==> NormalizeMention(Mention(u)) == u
  {
    MentionStripped(u);
    assert "<@!" + u + ">" == "<@" + ("!" + u) + ">";
    MentionStripped("!" + u);
    RemovePrefixOfConcat("!", u);
    if AllDigits(u) {
      assert u[0] != '!' by { assert IsDigit(u[0]); }
      assert !StartsWith(u, "!");
    }
  }

  /** The two strip steps on a text of the form `<@u>`. */
  lemma MentionStripped(u: string)
    ensures StartsWith("<@" + u + ">", "<@") && EndsWith("<@" + u + ">", ">")
    ensures RemoveSuffix(RemovePrefix("<@" + u + ">", "<@"), ">") == u
  {
    var s := "<@" + u + ">";
    assert s[..2] == "<@";
    assert s[|s| - 1..] == ">";
    RemovePrefixOfConcat("<@", u + ">");
    assert "<@" + u + ">" == "<@" + (u + ">");
    assert (u + ">")[..|u|] == u;
  }

  /** How the user is named in the reply: a mention for an all-digit id, the
      text in quotes otherwise. */
  function DisplayName(userId: string): (r: string)
    ensures AllDigits(userId) ==> r == Mention(userId)
    ensures !AllDigits(userId) ==> r == "\"" + userId + "\""
  {
    if AllDigits(userId) then "<@" + userId + ">" else "\"" + userId + "\""
  }

  // ---------------------------------------------------------------------------
  // The two forms

  /** `handleAssignUserModal`. */
  function AssignUserModal(w: World, registry: seq<TaskButton>, guildId: Option<string>,
                           modalId: string, inputs: map<string, string>): Handled
  {
    var taskId := RemovePrefix(modalId, AssignModalPrefix);
    var input := TrimmedValue(inputs, "user-id");
    if IsNullOrBlank(input) then Handled(w, Ephemeral(InvalidUserReply))
    else
      var userId := NormalizeMention(input.value);
      var task := FindTask(w.tasks, taskId);
      if task.None? then Handled(w, Ephemeral(TaskNotFoundReply))
      else if CanAssign(w.tasks, taskId, userId) then
        Handled(Redrawn(w.(tasks := Assign(w.tasks, taskId, userId)), registry, guildId, taskId),
                Ephemeral("\U{2705} Successfully assigned " + DisplayName(userId) + " to task \"" + task.value.title + "\"!"))
      else
        Handled(w, Ephemeral("\U{26A0}\U{FE0F} " + DisplayName(userId) + " is already assigned to task \""
                             + task.value.title + "\"."))
  }

  /** `handleEditTaskModal`. */
  function EditTaskModal(w: World, registry: seq<TaskButton>, guildId: Option<string>,
                         modalId: string, inputs: map<string, string>): Handled
  {
    var taskId := RemovePrefix(modalId, EditModalPrefix);
    var title := TrimmedValue(inputs, "title");
    var description := TrimmedValue(inputs, "description");
    if IsNullOrBlank(title) || IsNullOrBlank(description) then Handled(w, Ephemeral(MissingFieldsReply))
    else if FindTask(w.tasks, taskId).None? then Handled(w, Ephemeral(TaskNotFoundReply))
    else
      Handled(Redrawn(w.(tasks := Edit(w.tasks, taskId, title, description)), registry, guildId, taskId),
              Ephemeral("\U{2705} Task \"" + title.value + "\" has been updated successfully!"))
  }

  /** The assign form: a blank or missing input and an unknown task change
      nothing; otherwise the normalised user is assigned as
      `assignUserToTask` does, every assignee list stays duplicate-free, and
      afterwards the task lists the user. The form never posts a message or
      touches the configuration. */
  lemma AssignModalEffect(w: World, registry: seq<TaskButton>, guildId: Option<string>,
                          modalId: string, inputs: map<string, string>)
    ensures var r := AssignUserModal(w, registry, guildId, modalId, inputs);
            && r.world.guilds == w.guilds && r.world.nextId == w.nextId
            && (IsNullOrBlank(TrimmedValue(inputs, "user-id")) ==> r.world == w)
            && (FindTask(w.tasks, RemovePrefix(modalId, AssignModalPrefix)).None? ==> r.world == w)
            && (!IsNullOrBlank(TrimmedValue(inputs, "user-id")) ==>
                  r.world.tasks == Assign(w.tasks, RemovePrefix(modalId, AssignModalPrefix),
                                          NormalizeMention(TrimmedValue(inputs, "user-id").value)))
    ensures AssigneesDistinct(w.tasks) ==> AssigneesDistinct(AssignUserModal(w, registry, guildId, modalId, inputs).world.tasks)
    ensures AssigneesDistinct(w.tasks) && !IsNullOrBlank(TrimmedValue(inputs, "user-id"))
              && FindTask(w.tasks, RemovePrefix(modalId, AssignModalPrefix)).Some? ==>
              var r := AssignUserModal(w, registry, guildId, modalId, inputs);
              var taskId := RemovePrefix(modalId, AssignModalPrefix);
              && FindTask(r.world.tasks, taskId).Some?
              && NormalizeMention(TrimmedValue(inputs, "user-id").value) in FindTask(r.world.tasks, taskId).value.assignedUsers
  {
    var taskId := RemovePrefix(modalId, AssignModalPrefix);
    var input := TrimmedValue(inputs, "user-id");
    if !IsNullOrBlank(input) {
      var userId := NormalizeMention(input.value);
      var w1 := w.(tasks := Assign(w.tasks, taskId, userId));
      if FindTask(w.tasks, taskId).Some? && CanAssign(w.tasks, taskId, userId) {
        RedrawShowsTask(w1, registry, if guildId.Some? then guildId.value else "", taskId);
      }
      if AssigneesDistinct(w.tasks) {
        AssignEffect(w.tasks, taskId, userId);
      }
    }
  }

  /** The edit form's guards: unless both inputs are present and not blank
      and the task is known, nothing changes. The form never posts a message
      or touches the configuration. */
  lemma EditModalGuards(w: World, registry: seq<TaskButton>, guildId: Option<string>,
                        modalId: string, inputs: map<string, string>)
    ensures var r := EditTaskModal(w, registry, guildId, modalId, inputs);
            && r.world.guilds == w.guilds && r.world.nextId == w.nextId
            && ((|| IsNullOrBlank(TrimmedValue(inputs, "title"))
                 || IsNullOrBlank(TrimmedValue(inputs, "description"))
                 || FindTask(w.tasks, RemovePrefix(modalId, EditModalPrefix)).None?) ==> r.world == w)
  {
    var taskId := RemovePrefix(modalId, EditModalPrefix);
    var w1 := w.(tasks := Edit(w.tasks, taskId, TrimmedValue(inputs, "title"), TrimmedValue(inputs, "description")));
    RedrawShowsTask(w1, registry, if guildId.Some? then guildId.value else "", taskId);
  }

  /** The edit form when its guards pass: the task gets the trimmed title
      and description, neither blank, and keeps its place, id, state,
      assignees and card id. */
  lemma EditModalApplies(w: World, registry: seq<TaskButton>, guildId: Option<string>,
                         modalId: string, inputs: map<string, string>)
    requires !IsNullOrBlank(TrimmedValue(inputs, "title")) && !IsNullOrBlank(TrimmedValue(inputs, "description"))
    requires FindTask(w.tasks, RemovePrefix(modalId, EditModalPrefix)).Some?
    ensures var r := EditTaskModal(w, registry, guildId, modalId, inputs);
            var taskId := RemovePrefix(modalId, EditModalPrefix);
            var t := FindTask(w.tasks, taskId).value;
            && |r.world.tasks| == |w.tasks|
            && FindTask(r.world.tasks, taskId)
                 == Some(t.(title := Trim(inputs["title"]), description := Trim(inputs["description"])))
            && !IsBlank(FindTask(r.world.tasks, taskId).value.title)
            && !IsBlank(FindTask(r.world.tasks, taskId).value.description)
  {
    var taskId := RemovePrefix(modalId, EditModalPrefix);
    var title := TrimmedValue(inputs, "title");
    var description := TrimmedValue(inputs, "description");
    var w1 := w.(tasks := Edit(w.tasks, taskId, title, description));
    RedrawShowsTask(w1, registry, if guildId.Some? then guildId.value else "", taskId);
    EditEffect(w.tasks, taskId, title, description);
    var i := FindIndex(w.tasks, taskId).value;
    assert FindTask(w1.tasks, taskId) == Some(w1.tasks[i]);
  }

  // ---------------------------------------------------------------------------
  // The submission listener

  /** Kotlin's `Duration.inWholeMinutes`: whole minutes, truncated toward
      zero. */
  function WholeMinutes(millis: int): int {
    if millis >= 0 then millis / 60000 else -((-millis) / 60000)
  }

  /** A submission is ignored when it is more than 14 whole minutes old. */
  predicate Expired(ageMillis: int) {
    WholeMinutes(ageMillis) > 14
  }

  /** The cut-off in milliseconds: a submission is expired exactly from 15
      minutes of age on; a negative age (a clock behind the stamp) never
      is. */
  lemma ExpiredExactly(ageMillis: int)
    ensures Expired(ageMillis) <==> ageMillis >= 15 * 60000
  {
    if ageMillis >= 0 {
      if ageMillis >= 15 * 60000 {
        assert ageMillis / 60000 >= 15;
      } else {
        assert ageMillis / 60000 < 15;
      }
    } else {
      assert (-ageMillis) / 60000 >= 0;
    }
  }

  /** The listener: an expired submission gets no answer and changes
      nothing; otherwise the modal id's prefix picks the form, assign first,
      and any other id is answered as unknown. */
  function ModalSubmitted(w: World, registry: seq<TaskButton>, m: ModalSubmit): Handled {
    if Expired(m.ageMillis) then Handled(w, NoReply)
    else if StartsWith(m.modalId, AssignModalPrefix) then AssignUserModal(w, registry, m.guildId, m.modalId, m.inputs)
    else if StartsWith(m.modalId, EditModalPrefix) then EditTaskModal(w, registry, m.guildId, m.modalId, m.inputs)
    else Handled(w, Ephemeral(UnknownModalReply))
  }

  /** Round trip with the buttons: the form the select-users button opens
      for a task, submitted in time, reaches the assign handler, and the
      form the edit button opens reaches the edit handler; each strips its
      prefix back to exactly the task's id. */
  lemma {:induction false} FormsReachTheirHandlers(w: World, registry: seq<TaskButton>, task: Task, userId: string,
                                                   ageMillis: int, guildId: Option<string>, inputs: map<string, string>)
    requires ageMillis < 15 * 60000
    ensures var id := ButtonReply(SelectUsers, task, userId).modalId;
            && RemovePrefix(id, AssignModalPrefix) == task.id
            && ModalSubmitted(w, registry, ModalSubmit(id, ageMillis, guildId, inputs))
                 == AssignUserModal(w, registry, guildId, id, inputs)
    ensures var id := ButtonReply(EditTask, task, userId).modalId;
            && RemovePrefix(id, EditModalPrefix) == task.id
            && ModalSubmitted(w, registry, ModalSubmit(id, ageMillis, guildId, inputs))
                 == EditTaskModal(w, registry, guildId, id, inputs)
  {
    ExpiredExactly(ageMillis);
    RemovePrefixOfConcat(AssignModalPrefix, task.id);
    RemovePrefixOfConcat(EditModalPrefix, task.id);
    var editId := EditModalPrefix + task.id;
    assert editId[0] == 'e';
    assert !StartsWith(editId, AssignModalPrefix);
  }

  // ---------------------------------------------------------------------------
  // The handlers

  method HandleAssignUserModal(config: BotConfig, store: MessageStore, manager: TaskManager, registry: seq<TaskButton>,
                               guildId: Option<string>, modalId: string, inputs: map<string, string>)
    returns (reply: Reply)
    requires store.Valid()
    modifies store, manager
    ensures store.Valid()
    ensures Handled(WorldOf(config, store, manager), reply)
              == AssignUserModal(old(WorldOf(config, store, manager)), registry, guildId, modalId, inputs)
  {
    var taskId := RemovePrefix(modalId, AssignModalPrefix);
    var input := TrimmedValue(inputs, "user-id");
    if IsNullOrBlank(input) {
      return Ephemeral(InvalidUserReply);
    }
    var userId := NormalizeMention(input.value);
    var task := FindTask(manager.tasks, taskId);
    if task.None? {
      return Ephemeral(TaskNotFoundReply);
    }
    var success := manager.AssignUserToTask(taskId, userId);
    if success {
      RedrawTask(config, store, manager, registry, guildId, taskId);
      reply := Ephemeral("\U{2705} Successfully assigned " + DisplayName(userId) + " to task \"" + task.value.title + "\"!");
    } else {
      reply := Ephemeral("\U{26A0}\U{FE0F} " + DisplayName(userId) + " is already assigned to task \""
                         + task.value.title + "\".");
    }
  }

  /** `updateTask`, then the redraw of the edited task's card. */
  method EditAndRedraw(config: BotConfig, store: MessageStore, manager: TaskManager, registry: seq<TaskButton>,
                       guildId: Option<string>, taskId: string, title: Option<string>, description: Option<string>)
    requires store.Valid()
    modifies store, manager
    ensures store.Valid()
    ensures WorldOf(config, store, manager)
              == Redrawn(old(WorldOf(config, store, manager)).(tasks := Edit(old(manager.tasks), taskId, title, description)),
                         registry, guildId, taskId)
  {
    ghost var w1 := WorldOf(config, store, manager).(tasks := Edit(manager.tasks, taskId, title, description));
    manager.UpdateTask(taskId, title, description);
    assert WorldOf(config, store, manager) == w1;
    RedrawTask(config, store, manager, registry, guildId, taskId);
  }

  method HandleEditTaskModal(config: BotConfig, store: MessageStore, manager: TaskManager, registry: seq<TaskButton>,
                             guildId: Option<string>, modalId: string, inputs: map<string, string>)
    returns (reply: Reply)
    requires store.Valid()
    modifies store, manager
    ensures store.Valid()
    ensures Handled(WorldOf(config, store, manager), reply)
              == EditTaskModal(old(WorldOf(config, store, manager)), registry, guildId, modalId, inputs)
  {
    var taskId := RemovePrefix(modalId, EditModalPrefix);
    var title := TrimmedValue(inputs, "title");
    var description := TrimmedValue(inputs, "description");
    if IsNullOrBlank(title) || IsNullOrBlank(description) {
      return Ephemeral(MissingFieldsReply);
    }
    var task := FindTask(manager.tasks, taskId);
    if task.None? {
      return Ephemeral(TaskNotFoundReply);
    }
    EditAndRedraw(config, store, manager, registry, guildId, taskId, title, description);
    reply := Ephemeral("\U{2705} Task \"" + title.value + "\" has been updated successfully!");
  }

  /** The `ModalSubmitInteractionCreateEvent` listener. */
  method OnModalSubmit(config: BotConfig, store: MessageStore, manager: TaskManager, registry: seq<TaskButton>,
                       m: ModalSubmit) returns (reply: Reply)
    requires store.Valid()
    modifies store, manager
    ensures store.Valid()
    ensures Handled(WorldOf(config, store, manager), reply)
              == ModalSubmitted(old(WorldOf(config, store, manager)), registry, m)
  {
    if Expired(m.ageMillis) {
      return NoReply;
    }
    if StartsWith(m.modalId, AssignModalPrefix) {
      reply := HandleAssignUserModal(config, store, manager, registry, m.guildId, m.modalId, m.inputs);
    } else if StartsWith(m.modalId, EditModalPrefix) {
      reply := HandleEditTaskModal(config, store, manager, registry, m.guildId, m.modalId, m.inputs);
    } else {
      reply := Ephemeral(UnknownModalReply);
    }
  }
}
