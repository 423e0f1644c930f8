/** The task record of TaskManager.kt and the list operations TaskManager
    performs on its task list, as functions on values: lookup by id,
    state/message-id/assignee/title updates, removal, and the tenant and
    state filters. The TaskManager class in manager.dfy applies them to its
    list in place. */
module Tasks {
  import opened Common

  datatype TaskState = Pending | InProgress | Completed

  /** The enum constant's name. */
  function StateName(s: TaskState): string {
    match s
    case Pending => "PENDING"
    case InProgress => "IN_PROGRESS"
    case Completed => "COMPLETED"
  }

  datatype Task = Task(
    id: string,
    title: string,
    description: string,
    state: TaskState,
    assignedUsers: seq<string>,
    messageId: Option<Snowflake>)

  function TaskId(t: Task): string { t.id }

  function TaskMessageId(t: Task): Option<Snowflake> { t.messageId }

  // ---------------------------------------------------------------------------
  // Lookup (`tasks.find { it.id == id }`)

  /** The position of the first task with the given id. */
  function FindIndex(tasks: seq<Task>, id: string): (r: Option<nat>)
    ensures r.None? <==> forall j :: 0 <= j < |tasks| ==> tasks[j].id != id
    ensures r.Some? ==> r.value < |tasks| && tasks[r.value].id == id
                        && forall j :: 0 <= j < r.value ==> tasks[j].id != id
  {
    if tasks == [] then None
    else if tasks[0].id == id then Some(0)
    else
      var r := FindIndex(tasks[1..], id);
      if r.Some? then Some(r.value + 1) else None
  }

  /** `getTaskById`: the first listed task with the id, as `find` returns it. */
  function FindTask(tasks: seq<Task>, id: string): (r: Option<Task>)
    ensures r.None? <==> forall t :: t in tasks ==> t.id != id
    ensures r.Some? ==> r.value == tasks[FindIndex(tasks, id).value]
    ensures r.Some? ==> r.value in tasks && r.value.id == id
  {
    var i := FindIndex(tasks, id);
    if i.Some? then Some(tasks[i.value]) else None
  }

  /** Replaces the first task with the given id by `f` of it; an unknown id
      leaves the list as it is. */
  function UpdateFirst(tasks: seq<Task>, id: string, f: Task -> Task): (r: seq<Task>)
  {
    var i := FindIndex(tasks, id);
    if i.Some? then tasks[i.value := f(tasks[i.value])] else tasks
  }

  /** An update through `UpdateFirst` touches one task at most: the first one
      with the id. */
  lemma UpdateFirstOnlyThere(tasks: seq<Task>, id: string, f: Task -> Task)
    ensures |UpdateFirst(tasks, id, f)| == |tasks|
    ensures FindIndex(tasks, id).None? ==> UpdateFirst(tasks, id, f) == tasks
    ensures forall j :: 0 <= j < |tasks| && Some(j) != FindIndex(tasks, id)
              ==> UpdateFirst(tasks, id, f)[j] == tasks[j]
  {
  }

  // ---------------------------------------------------------------------------
  // Field updates

  /** `updateTaskState`. */
  function SetState(tasks: seq<Task>, id: string, s: TaskState): seq<Task> {
    UpdateFirst(tasks, id, (t: Task) => t.(state := s))
  }

  /** `updateTaskMessageId`. */
  function SetMessageId(tasks: seq<Task>, id: string, m: Snowflake): seq<Task> {
    UpdateFirst(tasks, id, (t: Task) => t.(messageId := Some(m)))
  }

  /** `updateTask`: replaces the title and the description where a new one is
      given. */
  function Edit(tasks: seq<Task>, id: string, newTitle: Option<string>, newDescription: Option<string>): seq<Task> {
    UpdateFirst(tasks, id, (t: Task) => t.(title := if newTitle.Some? then newTitle.value else t.title,
                                   description := if newDescription.Some? then newDescription.value else t.description))
  }

  /** After `updateTaskState` the task with that id is found in the new
      state with every other field as before; the list keeps its length and
      the ids of its tasks, so every lookup still finds the same position. */
  lemma {:induction false} SetStateEffect(tasks: seq<Task>, id: string, s: TaskState)
    ensures |SetState(tasks, id, s)| == |tasks|
    ensures forall j :: 0 <= j < |tasks| ==> SetState(tasks, id, s)[j].id == tasks[j].id
    ensures FindTask(tasks, id).None? ==> SetState(tasks, id, s) == tasks
    ensures FindTask(tasks, id).Some? ==>
              FindTask(SetState(tasks, id, s), id) == Some(FindTask(tasks, id).value.(state := s))
    ensures forall k :: FindIndex(SetState(tasks, id, s), k) == FindIndex(tasks, k)
  {
    var r := SetState(tasks, id, s);
    forall k ensures FindIndex(r, k) == FindIndex(tasks, k) {
      SameIdsSameLookup(tasks, r, k);
    }
  }

  /** `updateTask` keeps the position, state, assignees and message id of the
      task it edits; a title or description that is not given stays. */
  lemma {:induction false} EditEffect(tasks: seq<Task>, id: string, newTitle: Option<string>, newDescription: Option<string>)
    ensures |Edit(tasks, id, newTitle, newDescription)| == |tasks|
    ensures FindTask(tasks, id).None? ==> Edit(tasks, id, newTitle, newDescription) == tasks
    ensures FindIndex(tasks, id).Some? ==>
              var i := FindIndex(tasks, id).value;
              var e := Edit(tasks, id, newTitle, newDescription)[i];
              && FindIndex(Edit(tasks, id, newTitle, newDescription), id) == Some(i)
              && e.id == tasks[i].id && e.state == tasks[i].state
              && e.assignedUsers == tasks[i].assignedUsers && e.messageId == tasks[i].messageId
              && (newTitle.None? ==> e.title == tasks[i].title)
              && (newTitle.Some? ==> e.title == newTitle.value)
              && (newDescription.None? ==> e.description == tasks[i].description)
              && (newDescription.Some? ==> e.description == newDescription.value)
  {
    SameIdsSameLookup(tasks, Edit(tasks, id, newTitle, newDescription), id);
  }

  /** Two lists whose tasks have the same ids position by position give the
      same lookups. */
  lemma {:induction false} SameIdsSameLookup(a: seq<Task>, b: seq<Task>, id: string)
    requires |a| == |b|
    requires forall j :: 0 <= j < |a| ==> a[j].id == b[j].id
    ensures FindIndex(a, id) == FindIndex(b, id)
  {
    if a != [] && a[0].id != id {
      SameIdsSameLookup(a[1..], b[1..], id);
    }
  }

  // ---------------------------------------------------------------------------
  // Assignees (`assignUserToTask`, `unassignUserFromTask`)

  /** `assignUserToTask` succeeds exactly when the task exists and does not
      yet list the user. */
  predicate CanAssign(tasks: seq<Task>, id: string, user: string) {
    var t := FindTask(tasks, id);
    t.Some? && user !in t.value.assignedUsers
  }

  /** The list after `assignUserToTask`: the user appended to the task's
      assignees when that succeeds, the list unchanged otherwise. */
  function Assign(tasks: seq<Task>, id: string, user: string): seq<Task> {
    if CanAssign(tasks, id, user)
    then UpdateFirst(tasks, id, (t: Task) => t.(assignedUsers := t.assignedUsers + [user]))
    else tasks
  }

  /** The list after `unassignUserFromTask`: the first occurrence of the user
      removed from the task's assignees. */
  function Unassign(tasks: seq<Task>, id: string, user: string): seq<Task> {
    UpdateFirst(tasks, id, (t: Task) => t.(assignedUsers := RemoveFirst(t.assignedUsers, user)))
  }

  /** Every task's assignee list is free of duplicates. */
  predicate AssigneesDistinct(tasks: seq<Task>) {
    forall j :: 0 <= j < |tasks| ==> NoDuplicates(tasks[j].assignedUsers)
  }

  /** Assigning a user to a task lists the user there afterwards, and keeps
      every assignee list duplicate-free. */
  lemma AssignEffect(tasks: seq<Task>, id: string, user: string)
    requires AssigneesDistinct(tasks)
    ensures AssigneesDistinct(Assign(tasks, id, user))
    ensures FindTask(tasks, id).Some? ==>
              FindTask(Assign(tasks, id, user), id).Some?
              && user in FindTask(Assign(tasks, id, user), id).value.assignedUsers
    ensures !CanAssign(tasks, id, user) ==> Assign(tasks, id, user) == tasks
  {
    var r := Assign(tasks, id, user);
    var i := FindIndex(tasks, id);
    if CanAssign(tasks, id, user) {
      SameIdsSameLookup(tasks, r, id);
      AppendNoDuplicates(tasks[i.value].assignedUsers, user);
    }
  }

  /** A second identical assignment changes nothing and reports failure. */
  lemma AssignTwice(tasks: seq<Task>, id: string, user: string)
    ensures !CanAssign(Assign(tasks, id, user), id, user)
    ensures Assign(Assign(tasks, id, user), id, user) == Assign(tasks, id, user)
  {
    if CanAssign(tasks, id, user) {
      SameIdsSameLookup(tasks, Assign(tasks, id, user), id);
    }
  }

  /** Unassigning removes the user from the task and keeps every assignee
      list duplicate-free; a user who was not listed leaves the list as it
      was. */
  lemma UnassignEffect(tasks: seq<Task>, id: string, user: string)
    requires AssigneesDistinct(tasks)
    ensures AssigneesDistinct(Unassign(tasks, id, user))
    ensures FindTask(tasks, id).Some? ==>
              FindTask(Unassign(tasks, id, user), id).Some?
              && user !in FindTask(Unassign(tasks, id, user), id).value.assignedUsers
    ensures (FindTask(tasks, id).None? || user !in FindTask(tasks, id).value.assignedUsers)
              ==> Unassign(tasks, id, user) == tasks
  {
    var i := FindIndex(tasks, id);
    if i.Some? {
      RemoveFirstNoDuplicates(tasks[i.value].assignedUsers, user);
      SameIdsSameLookup(tasks, Unassign(tasks, id, user), id);
    }
  }

  /** Unassigning right after a successful assignment restores the list. */
  lemma UnassignAfterAssign(tasks: seq<Task>, id: string, user: string)
    requires CanAssign(tasks, id, user)
    ensures Unassign(Assign(tasks, id, user), id, user) == tasks
  {
    var i := FindIndex(tasks, id).value;
    var a := Assign(tasks, id, user);
    SameIdsSameLookup(tasks, a, id);
    RemoveFirstAfterAppend(tasks[i].assignedUsers, user);
    assert tasks[i].(assignedUsers := tasks[i].assignedUsers) == tasks[i];
  }

  // ---------------------------------------------------------------------------
  // Removal (`removeTask`, `removeTaskByMessageId`)

  /** `removeTask`: every task with the id goes, the rest keep their order. */
  function RemoveById(tasks: seq<Task>, id: string): (r: seq<Task>)
    ensures forall t :: t in r <==> t in tasks && t.id != id
  {
    WithoutKey(tasks, TaskId, id)
  }

  /** `removeTaskByMessageId`: every task showing that message goes. */
  function RemoveByMessageId(tasks: seq<Task>, m: Snowflake): (r: seq<Task>)
    ensures forall t :: t in r <==> t in tasks && t.messageId != Some(m)
  {
    WithoutKey(tasks, TaskMessageId, Some(m))
  }

  /** Removal is idempotent and keeps the survivors in order. */
  lemma RemoveByIdProperties(a: seq<Task>, b: seq<Task>, id: string)
    ensures RemoveById(RemoveById(a, id), id) == RemoveById(a, id)
    ensures RemoveById(a + b, id) == RemoveById(a, id) + RemoveById(b, id)
    ensures (forall t :: t in a ==> t.id != id) ==> RemoveById(a, id) == a
  {
    WithoutKeyIdempotent(a, TaskId, id);
    WithoutKeyConcat(a, b, TaskId, id);
    if forall t :: t in a ==> t.id != id {
      WithoutAbsentKey(a, TaskId, id);
    }
  }

  lemma RemoveByMessageIdProperties(a: seq<Task>, b: seq<Task>, m: Snowflake)
    ensures RemoveByMessageId(RemoveByMessageId(a, m), m) == RemoveByMessageId(a, m)
    ensures RemoveByMessageId(a + b, m) == RemoveByMessageId(a, m) + RemoveByMessageId(b, m)
  {
    WithoutKeyIdempotent(a, TaskMessageId, Some(m));
    WithoutKeyConcat(a, b, TaskMessageId, Some(m));
  }

  // ---------------------------------------------------------------------------
  // Tenant and state filters (`getTasksByGuild`, `getTasksByState`)

  /** A task belongs to a guild when its id starts with the guild id and `_`. */
  predicate InGuild(t: Task, guildId: string) {
    StartsWith(t.id, guildId + "_")
  }

  function ByGuild(tasks: seq<Task>, guildId: string): (r: seq<Task>)
    ensures forall t :: t in r <==> t in tasks && InGuild(t, guildId)
  {
    Filter(tasks, (t: Task) => InGuild(t, guildId))
  }

  function ByState(tasks: seq<Task>, guildId: string, s: TaskState): (r: seq<Task>)
    ensures forall t :: t in r <==> t in tasks && InGuild(t, guildId) && t.state == s
    ensures |r| <= |ByGuild(tasks, guildId)|
  {
    Filter(ByGuild(tasks, guildId), (t: Task) => t.state == s)
  }

  /** Both filters keep the list order: they distribute over concatenation. */
  lemma {:induction false} FiltersKeepOrder(a: seq<Task>, b: seq<Task>, guildId: string, s: TaskState)
    ensures ByGuild(a + b, guildId) == ByGuild(a, guildId) + ByGuild(b, guildId)
    ensures ByState(a + b, guildId, s) == ByState(a, guildId, s) + ByState(b, guildId, s)
  {
    FilterConcat(a, b, (t: Task) => InGuild(t, guildId));
    FilterConcat(ByGuild(a, guildId), ByGuild(b, guildId), (t: Task) => t.state == s);
  }

  /** Appending a task (as `addTask` does) adds one to the count of its
      guild and state exactly when its id carries the guild's prefix. */
  lemma {:induction false} ByStateAfterAppend(tasks: seq<Task>, t: Task, guildId: string, s: TaskState)
    ensures |ByState(tasks + [t], guildId, s)|
            == |ByState(tasks, guildId, s)| + (if InGuild(t, guildId) && t.state == s then 1 else 0)
  {
    FiltersKeepOrder(tasks, [t], guildId, s);
    assert Filter([t], (x: Task) => InGuild(x, guildId)) == (if InGuild(t, guildId) then [t] else []) by {
      assert [t][1..] == [];
    }
    if InGuild(t, guildId) {
      assert Filter([t], (x: Task) => x.state == s) == (if t.state == s then [t] else []) by {
        assert [t][1..] == [];
      }
    }
  }

  /** Every id in the list is distinct. */
  predicate IdsDistinct(tasks: seq<Task>) {
    forall i, j :: 0 <= i < j < |tasks| ==> tasks[i].id != tasks[j].id
  }

  /** Two tasks of a list with distinct ids that share an id are the same
      task. */
  lemma SameIdSameTask(tasks: seq<Task>, a: Task, b: Task)
    requires IdsDistinct(tasks) && a in tasks && b in tasks
    ensures a.id == b.id ==> a == b
  {
    if a.id == b.id {
      var i :| 0 <= i < |tasks| && tasks[i] == a;
      var j :| 0 <= j < |tasks| && tasks[j] == b;
      assert i == j;
    }
  }

  /** A task put in front of a list with distinct ids none of which is its
      own keeps the ids distinct. */
  lemma ConsIdsDistinct(t: Task, tail: seq<Task>)
    requires IdsDistinct(tail)
    requires forall u :: u in tail ==> u.id != t.id
    ensures IdsDistinct([t] + tail)
  {
    var r := [t] + tail;
    forall i, j | 0 <= i < j < |r|
      ensures r[i].id != r[j].id
    {
      assert r[j] == tail[j - 1];
      if i > 0 {
        assert r[i] == tail[i - 1];
      } else {
        assert tail[j - 1] in tail;
      }
    }
  }

  /** Removal keeps the ids distinct. */
  lemma {:induction false} WithoutKeyIdsDistinct<K>(tasks: seq<Task>, key: Task -> K, k: K)
    requires IdsDistinct(tasks)
    ensures IdsDistinct(WithoutKey(tasks, key, k))
  {
    if tasks != [] {
      var rest := tasks[1..];
      assert IdsDistinct(rest) by {
        forall i, j | 0 <= i < j < |rest|
          ensures rest[i].id != rest[j].id
        {
          assert rest[i] == tasks[i + 1] && rest[j] == tasks[j + 1];
        }
      }
      WithoutKeyIdsDistinct(rest, key, k);
      var tail := WithoutKey(rest, key, k);
      assert WithoutKey(tasks, key, k) == (if key(tasks[0]) != k then [tasks[0]] else []) + tail;
      if key(tasks[0]) != k {
        forall u | u in tail
          ensures u.id != tasks[0].id
        {
          var j :| 0 <= j < |rest| && rest[j] == u;
          assert tasks[j + 1] == u;
        }
        ConsIdsDistinct(tasks[0], tail);
      } else {
        assert [] + tail == tail;
      }
    }
  }

  /** Removing several ids keeps the ids distinct. */
  lemma {:induction false} WithoutEachIdsDistinct<K>(tasks: seq<Task>, key: Task -> K, ks: seq<K>)
    requires IdsDistinct(tasks)
    ensures IdsDistinct(WithoutEach(tasks, key, ks))
    decreases |ks|
  {
    if ks != [] {
      WithoutEachIdsDistinct(tasks, key, ks[..|ks| - 1]);
      WithoutKeyIdsDistinct(WithoutEach(tasks, key, ks[..|ks| - 1]), key, ks[|ks| - 1]);
    }
  }
}
