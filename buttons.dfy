/** The task buttons of ButtonHandler.kt: the eight button types, the id each
    button derives from its type's name, the component id a button carries on
    a task message (`<button id>-<task id>`), the registry lookup by type, and
    the dispatch of a clicked component id back to a button and a task id. */
module Buttons {
  import opened Common

  datatype ButtonType =
    | StartTask
    | CompleteTask
    | SelectUsers
    | DeleteTask
    | PauseTask
    | AssignMe
    | ReopenTask
    | EditTask

  /** The enum constant's name, as Kotlin's `name` gives it. */
  function TypeName(t: ButtonType): string {
    match t
    case StartTask => "START_TASK"
    case CompleteTask => "COMPLETE_TASK"
    case SelectUsers => "SELECT_USERS"
    case DeleteTask => "DELETE_TASK"
    case PauseTask => "PAUSE_TASK"
    case AssignMe => "ASSIGN_ME"
    case ReopenTask => "REOPEN_TASK"
    case EditTask => "EDIT_TASK"
  }

  datatype ButtonStyle = Primary | Secondary | Success | Danger

  /** A registered button: its type, the label shown and its colour style. */
  datatype TaskButton = TaskButton(kind: ButtonType, labelText: string, style: ButtonStyle)

  /** A button's id, written out per type; `TypeIdFromName` shows each is
      the type's name in lower case with `_` replaced by `-`. */
  function TypeId(t: ButtonType): string {
    match t
    case StartTask => "start-task"
    case CompleteTask => "complete-task"
    case SelectUsers => "select-users"
    case DeleteTask => "delete-task"
    case PauseTask => "pause-task"
    case AssignMe => "assign-me"
    case ReopenTask => "reopen-task"
    case EditTask => "edit-task"
  }

  function Id(b: TaskButton): string {
    TypeId(b.kind)
  }

  /** Each button id is its type's enum name in lower case with `_`
      replaced by `-`. */
  lemma TypeIdFromName(t: ButtonType)
    ensures TypeId(t) == ReplaceChar(Lowercase(TypeName(t)), '_', '-')
  {
    match t
    case StartTask => LowerReplaced("START_TASK", '_', '-', "start-task");
    case CompleteTask => LowerReplaced("COMPLETE_TASK", '_', '-', "complete-task");
    case SelectUsers => LowerReplaced("SELECT_USERS", '_', '-', "select-users");
    case DeleteTask => LowerReplaced("DELETE_TASK", '_', '-', "delete-task");
    case PauseTask => LowerReplaced("PAUSE_TASK", '_', '-', "pause-task");
    case AssignMe => LowerReplaced("ASSIGN_ME", '_', '-', "assign-me");
    case ReopenTask => LowerReplaced("REOPEN_TASK", '_', '-', "reopen-task");
    case EditTask => LowerReplaced("EDIT_TASK", '_', '-', "edit-task");
  }

  /** The component id `addToActionRow` gives the button it puts on the
      message of task `taskId`. */
  function ComponentId(b: TaskButton, taskId: string): (r: string)
    ensures StartsWith(r, Id(b) + "-")
    ensures RemovePrefix(r, Id(b) + "-") == taskId
  {
    RemovePrefixOfConcat(Id(b) + "-", taskId);
    Id(b) + "-" + taskId
  }

  /** The button ids with their separator never prefix one another: a
      component id built for one type is matched by no other type. */
  lemma {:induction false} OnlyOwnTypeMatches(t: ButtonType, u: ButtonType, taskId: string)
    requires StartsWith(TypeId(t) + "-" + taskId, TypeId(u) + "-")
    ensures t == u
  {
    var c := TypeId(t) + "-" + taskId;
    var p := TypeId(u) + "-";
    // Two ids that differ in one of their first two characters cannot both
    // prefix `c`; only start-task and select-users share a first character.
    assert c[0] == TypeId(t)[0] && c[1] == TypeId(t)[1];
    assert p[0] == TypeId(u)[0] && p[1] == TypeId(u)[1];
    assert c[..|p|][0] == p[0] && c[..|p|][1] == p[1];
  }

  // ---------------------------------------------------------------------------
  // The registry

  /** `ButtonRegistry.getButtonByType`: the first registered button of that
      type, or none when no button of that type is registered. */
  function ButtonByType(registry: seq<TaskButton>, t: ButtonType): (r: Option<TaskButton>)
    ensures r.None? <==> forall b :: b in registry ==> b.kind != t
    ensures r.Some? ==> exists k :: 0 <= k < |registry| && registry[k] == r.value
                          && r.value.kind == t
                          && forall j :: 0 <= j < k ==> registry[j].kind != t
  {
    if registry == [] then None
    else if registry[0].kind == t then Some(registry[0])
    else
      var r := ButtonByType(registry[1..], t);
      if r.Some? then
        var k :| 0 <= k < |registry[1..]| && registry[1..][k] == r.value
                 && r.value.kind == t
                 && forall j :: 0 <= j < k ==> registry[1..][j].kind != t;
        assert registry[k + 1] == r.value;
        r
      else r
  }

  /** The buttons the bot registers: one per type, with the labels and styles
      of TaskButtons.kt. */
  function StandardButtons(): seq<TaskButton> {
    [ TaskButton(StartTask, "Start Task", Primary),
      TaskButton(CompleteTask, "Complete", Success),
      TaskButton(PauseTask, "Pause", Secondary),
      TaskButton(ReopenTask, "Reopen", Secondary),
      TaskButton(DeleteTask, "Delete", Danger),
      TaskButton(SelectUsers, "Select Users", Secondary),
      TaskButton(AssignMe, "Assign to Me", Secondary),
      TaskButton(EditTask, "Edit Task", Secondary) ]
  }

  /** No two registered buttons share a type. */
  predicate TypesDistinct(registry: seq<TaskButton>) {
    forall i, j :: 0 <= i < j < |registry| ==> registry[i].kind != registry[j].kind
  }

  // ---------------------------------------------------------------------------
  // Dispatch of a click

  predicate MatchesComponent(b: TaskButton, componentId: string) {
    StartsWith(componentId, Id(b) + "-")
  }

  /** Kotlin's `maxByOrNull { it.id.length }`: the position of the first
      button whose id is longest. */
  function LongestIdIndex(bs: seq<TaskButton>): (k: nat)
    requires bs != []
    ensures k < |bs|
    ensures forall j :: 0 <= j < |bs| ==> |Id(bs[j])| <= |Id(bs[k])|
    ensures forall j :: 0 <= j < k ==> |Id(bs[j])| < |Id(bs[k])|
  {
    FirstMaxIndex(IdLengths(bs))
  }

  /** The lengths of the buttons' ids, in order. */
  function IdLengths(bs: seq<TaskButton>): (r: seq<nat>)
    ensures |r| == |bs|
    ensures forall j :: 0 <= j < |bs| ==> r[j] == |Id(bs[j])|
  {
    if bs == [] then []
    else
      var init := bs[..|bs| - 1];
      assert forall j :: 0 <= j < |init| ==> init[j] == bs[j];
      IdLengths(init) + [|Id(bs[|bs| - 1])|]
  }

  /** The first position holding the largest number. */
  function FirstMaxIndex(ns: seq<nat>): (k: nat)
    requires ns != []
    ensures k < |ns|
    ensures forall j :: 0 <= j < |ns| ==> ns[j] <= ns[k]
    ensures forall j :: 0 <= j < k ==> ns[j] < ns[k]
  {
    if |ns| == 1 then 0
    else
      var k := FirstMaxIndex(ns[..|ns| - 1]);
      if ns[k] < ns[|ns| - 1] then |ns| - 1 else k
  }

  /** What a click resolves to: the button and the task id it carries. */
  datatype Click = Click(button: TaskButton, taskId: string)

  /** `handleButtonClick`'s choice of button: among the registered buttons
      whose `id + "-"` starts the component id, the first with the longest id;
      the task id is what follows that prefix. */
  function Dispatch(registry: seq<TaskButton>, componentId: string): (r: Option<Click>)
    ensures r.None? <==> forall b :: b in registry ==> !MatchesComponent(b, componentId)
    ensures r.Some? ==> r.value.button in registry
                        && MatchesComponent(r.value.button, componentId)
                        && Id(r.value.button) + "-" + r.value.taskId == componentId
    ensures r.Some? ==> forall b :: b in registry && MatchesComponent(b, componentId)
                          ==> |Id(b)| <= |Id(r.value.button)|
  {
    var matching := Filter(registry, b => MatchesComponent(b, componentId));
    if matching == [] then None
    else
      var b := matching[LongestIdIndex(matching)];
      assert b in matching && b in registry && MatchesComponent(b, componentId);
      Some(Click(b, RemovePrefix(componentId, Id(b) + "-")))
  }

  /** Round trip: a click on a component id made for a registered button and
      a task recovers exactly that task id and a button of the same type
      (the very same button when the registry holds each type once). */
  lemma {:induction false} DispatchComponentId(registry: seq<TaskButton>, b: TaskButton, taskId: string)
    requires b in registry
    ensures Dispatch(registry, ComponentId(b, taskId)).Some?
    ensures Dispatch(registry, ComponentId(b, taskId)).value.taskId == taskId
    ensures Dispatch(registry, ComponentId(b, taskId)).value.button.kind == b.kind
    ensures TypesDistinct(registry) ==> Dispatch(registry, ComponentId(b, taskId)).value.button == b
  {
    var cid := ComponentId(b, taskId);
    assert MatchesComponent(b, cid);
    var click := Dispatch(registry, cid).value;
    OnlyOwnTypeMatches(b.kind, click.button.kind, taskId);
    assert Id(click.button) == Id(b);
    assert Id(b) + "-" + click.taskId == Id(b) + "-" + taskId;
    assert click.taskId == (Id(b) + "-" + click.taskId)[|Id(b)| + 1..];
    assert taskId == (Id(b) + "-" + taskId)[|Id(b)| + 1..];
    if TypesDistinct(registry) {
      var i :| 0 <= i < |registry| && registry[i] == b;
      var j :| 0 <= j < |registry| && registry[j] == click.button;
      assert i == j;
    }
  }
}
