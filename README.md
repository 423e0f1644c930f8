# Taskyra task bot, modelled in Dafny

Taskyra is a Discord bot that keeps a per-server (per-guild) board of tasks. Each task is a card posted in the channel bound to its state: PENDING, IN PROGRESS or COMPLETED. The card's buttons move the task between states, delete it, assign users and open edit forms. Each state channel also keeps one summary message with the count of the guild's tasks in that state. At startup the bot drops tasks whose card has vanished and deletes bot messages that no task tracks.

This project models the bot's bookkeeping core and proves properties of it:

- `common.dfy` (module `Common`): the optional type that stands for Kotlin's nullable types, and the Kotlin string functions the bot relies on (`removePrefix`, `trim`, `isNullOrBlank`, `lowercase`, `replace`, `joinToString`, the `\d+` test). It also has decimal rendering and the order-keeping filters behind `filter` and `removeAll`.
- `tasks.dfy` (module `Tasks`): the `Task` record and the list operations of `TaskManager` as functions on values. These are lookup, state, message id and assignee updates, partial edits, removal, and the guild and state filters.
- `buttons.dfy` (module `Buttons`): button types and ids, the component id a button carries, the registry lookup, and the longest-prefix dispatch of a click.
- `guild_config.dfy` (module `GuildSettings`): the per-guild configuration (a channel and a summary id per state), its lookup and the narrow write-back of a summary id. `BotConfig` is the object that holds it.
- `messages.dfy` (module `Messages`): the Discord side, reduced to channels holding messages in order. `MessageStore` posts (with a fresh id), edits and deletes messages.
- `manager.dfy` (module `Manager`): the task card (assignee list, status, buttons per state packed five to a row). It also has the `TaskManager` object, which mutates its list in place, and `moveTaskToCategory`.
- `channel_utils.dfy` (module `ChannelUtils`): `updateChannelSummary` (edit or create the summary, write back its id) and the two-step startup sweep `performStartupValidation`. It also holds the `World` snapshot (configuration, channels, next message id, task list) that the handlers are specified against.
- `task_buttons.dfy` (module `TaskButtons`): the button handlers, which form the state machine, and `handleButtonClick`.
- `modals.dfy` (module `ModalHandling`): the two form handlers and the form-submission listener (age cut-off, prefix routing).
- `post_task.dfy` (module `PostTask`): the `/posttask` command. It also holds both halves of the finding below.

Every state-changing operation is a method on the objects (`BotConfig`, `MessageStore`, `TaskManager`). Its `ensures` ties the new contents to a function of the old ones. The properties are then lemmas about those functions.

In these places the model follows the code as written:
- A move to the state a task is already in still deletes and reposts its card. It is not a no-op.
- The age check applies only to form submissions. Button clicks have none.
- Startup step 1 never checks PENDING tasks.
- Startup step 2 sweeps only the IN PROGRESS and COMPLETED channels, and only among the messages written by a bot account (this bot or any other) in the latest 100.
- A created task's id has no guild prefix (see Findings). `PostTask.Execute` mints it that way. The corrected outcome, with the guild prefix, is stated beside it.
- A click that carries no guild still runs the move and delete handlers. `guildId?.value.toString()` at ButtonHandler.kt:30 gives the text "null", so the `?: return` after it never fires. The handlers then work with the guild id "null".
- In startup step 1, a channel lookup that throws makes the outer catch remove the task (ChannelUtils.kt:121-124).
- Failures end an operation silently instead of returning an error kind.

## Model

| member | source | states |
|---|---|---|
| Common.RemovePrefix | src/main/kotlin/utils/ButtonHandler.kt:78 | Kotlin's `removePrefix`: with the prefix present, prefix and result make up the text; otherwise the text is returned unchanged |
| Common.RemoveSuffix | src/main/kotlin/Main.kt:57 | Kotlin's `removeSuffix`: with the suffix present, result and suffix make up the text; otherwise the text is returned unchanged |
| Common.Trim | src/main/kotlin/Main.kt:51 | the trimmed text is a slice of the input with only whitespace before and after it, and neither starts nor ends with whitespace |
| Common.TrimUntrimmed | src/main/kotlin/Main.kt:51 | a text that neither starts nor ends with whitespace is its own trim |
| Common.TrimIdempotent | src/main/kotlin/Main.kt:51 | trimming twice is trimming once |
| Common.NatToStringRoundTrip | src/main/kotlin/commands/impl/PostTaskCommand.kt:75 | reading back the decimal text of a number gives the number |
| Common.NatToStringInjective | src/main/kotlin/commands/impl/PostTaskCommand.kt:75 | different numbers print differently |
| Common.TrimmedValue | src/main/kotlin/Main.kt:51 | an input's value is present exactly when its key is, and is then the trimmed text |
| Common.TrimBlank | src/main/kotlin/commands/impl/PostTaskCommand.kt:55-56 | a trimmed text is blank exactly when it is empty, exactly when the raw text was blank |
| Buttons.TypeIdFromName | src/main/kotlin/utils/ButtonHandler.kt:26 | each button id is its type's enum name lower-cased with `_` turned into `-` (START_TASK gives "start-task", and so on for all eight) |
| Buttons.ComponentId | src/main/kotlin/utils/ButtonHandler.kt:39-41 | a component id starts with the button id and `-`; stripping that prefix gives back exactly the task id |
| Buttons.OnlyOwnTypeMatches | src/main/kotlin/utils/ButtonHandler.kt:70-72 | a component id built for one type starts with no other type's id and `-` |
| Buttons.ButtonByType | src/main/kotlin/utils/ButtonHandler.kt:63-64 | none exactly when no registered button has the type; otherwise the first registered button of that type |
| Buttons.LongestIdIndex | src/main/kotlin/utils/ButtonHandler.kt:72 | the first position holding a longest id, as `maxByOrNull` picks it |
| Buttons.IdLengths | src/main/kotlin/utils/ButtonHandler.kt:72 | position by position, the length of each button's id |
| Buttons.FirstMaxIndex | src/main/kotlin/utils/ButtonHandler.kt:72 | a position whose value no other exceeds, and no earlier position holds that maximum |
| Buttons.Dispatch | src/main/kotlin/utils/ButtonHandler.kt:67-78 | no button exactly when none matches; otherwise a matching registered button with a longest id, whose id, `-` and the recovered task id rebuild the component id |
| Buttons.DispatchComponentId | src/main/kotlin/utils/ButtonHandler.kt:67-78 | round trip: the component id of a registered button and a task dispatches to that task id and a button of the same type, and to the same button when types are distinct |
| Tasks.FindIndex | src/main/kotlin/commands/impl/TaskManager.kt:78 | none exactly when no task has the id; otherwise the first position with the id |
| Tasks.FindTask | src/main/kotlin/commands/impl/TaskManager.kt:78 | `getTaskById`: none exactly when no listed task has the id; otherwise the first listed task with that id, as `find` returns it |
| Tasks.UpdateFirstOnlyThere | src/main/kotlin/commands/impl/TaskManager.kt:53 | an update by id keeps the length, touches only the first task with the id, and leaves the list alone for an unknown id |
| Tasks.SetStateEffect | src/main/kotlin/commands/impl/TaskManager.kt:52-57 | `updateTaskState` changes only the state of the task with the id; ids, length and every lookup are kept; an unknown id leaves the list unchanged |
| Tasks.EditEffect | src/main/kotlin/commands/impl/TaskManager.kt:166-175 | `updateTask` replaces title and description only where given, and keeps the index, id, state, assignees and message id; an unknown id changes nothing |
| Tasks.SameIdsSameLookup | src/main/kotlin/commands/impl/TaskManager.kt:171-172 | lists with the same ids position by position answer every lookup alike, so a replacement at an index keeps the index |
| Tasks.AssignEffect | src/main/kotlin/commands/impl/TaskManager.kt:59-68 | after `assignUserToTask` an existing task lists the user, no assignee list gains a duplicate, and a failed call changes nothing |
| Tasks.AssignTwice | src/main/kotlin/commands/impl/TaskManager.kt:59-68 | a repeated assignment fails and changes nothing |
| Tasks.UnassignEffect | src/main/kotlin/commands/impl/TaskManager.kt:70-76 | `unassignUserFromTask` leaves the user off the task, keeps every assignee list duplicate-free, and changes nothing when the user was not listed |
| Tasks.UnassignAfterAssign | src/main/kotlin/commands/impl/TaskManager.kt:59-76 | unassigning right after a successful assignment restores the list |
| Tasks.RemoveById | src/main/kotlin/commands/impl/TaskManager.kt:80-83 | the tasks left are exactly the listed tasks with another id |
| Tasks.RemoveByMessageId | src/main/kotlin/commands/impl/TaskManager.kt:85-88 | the tasks left are exactly the listed tasks showing another message |
| Tasks.RemoveByIdProperties | src/main/kotlin/commands/impl/TaskManager.kt:80-83 | removal by id is idempotent, keeps the survivors in order (distributes over concatenation), and is the identity when the id is absent |
| Tasks.RemoveByMessageIdProperties | src/main/kotlin/commands/impl/TaskManager.kt:85-88 | removal by message id is idempotent and keeps the survivors in order |
| Tasks.ByGuild | src/main/kotlin/commands/impl/TaskManager.kt:98 | exactly the tasks whose id starts with the guild id and `_` |
| Tasks.ByState | src/main/kotlin/commands/impl/TaskManager.kt:101-102 | exactly the guild's tasks in the state, never more than the guild's tasks |
| Tasks.FiltersKeepOrder | src/main/kotlin/commands/impl/TaskManager.kt:98-102 | both filters keep list order (they distribute over concatenation) |
| Tasks.ByStateAfterAppend | src/main/kotlin/commands/impl/TaskManager.kt:98-102 | appending a task adds one to a guild's count in a state exactly when the id carries the guild prefix and the state matches |
| Tasks.SameIdSameTask | src/main/kotlin/commands/impl/TaskManager.kt:78 | in a list with distinct ids, tasks sharing an id are the same task |
| Tasks.WithoutKeyIdsDistinct | src/main/kotlin/commands/impl/TaskManager.kt:81 | removal keeps ids distinct |
| Tasks.WithoutEachIdsDistinct | src/main/kotlin/utils/ChannelUtils.kt:129-131 | removing several ids one after another keeps ids distinct |
| GuildSettings.FindGuild | src/main/kotlin/utils/ChannelUtils.kt:18 | none exactly when no entry has the guild id; otherwise the first such entry |
| GuildSettings.WithSummary | src/main/kotlin/utils/ChannelUtils.kt:66-70 | the copy records the new summary id for its state only; guild id, channels and the other summary ids are kept |
| GuildSettings.RecordSummaryId | src/main/kotlin/utils/ChannelUtils.kt:64-72 | every entry of the guild gets the new id for the state; every other entry is kept as is |
| GuildSettings.RecordSummaryIdLookup | src/main/kotlin/utils/ChannelUtils.kt:64-73 | afterwards the guild's lookup shows the new id with everything else as before; an unconfigured guild leaves the list unchanged |
| GuildSettings.RecordSummaryIdOthers | src/main/kotlin/utils/ChannelUtils.kt:64-72 | the lookup of every other guild is unchanged |
| GuildSettings.BotConfig.UpdateGuilds | src/main/kotlin/utils/ChannelUtils.kt:73 | the configuration now holds the new guild list |
| Messages.MessageIndex | src/main/kotlin/utils/ChannelUtils.kt:39 | none exactly when no message has the id; otherwise the first position with it |
| Messages.FindMessage | src/main/kotlin/utils/ChannelUtils.kt:39 | `getMessage`: fails exactly when the channel is unknown or holds no message with the id; otherwise a message of that channel with the id |
| Messages.Deleted | src/main/kotlin/commands/impl/TaskManager.kt:211 | a delete keeps the set of channels and every other channel |
| Messages.Latest | src/main/kotlin/utils/ChannelUtils.kt:162 | the fetch returns the channel's `n` most recent messages (its last `n`), all of them when it holds no more |
| Messages.DeletedEffect | src/main/kotlin/commands/impl/TaskManager.kt:211 | the deleted message is gone and every other message stays |
| Messages.DeletedIsRemoval | src/main/kotlin/utils/ChannelUtils.kt:178 | deleting from an existing channel is removal by id |
| Messages.PostedEffect | src/main/kotlin/utils/ChannelUtils.kt:55-62 | a posted message is found under its id after everything the channel held |
| Messages.EditedEffect | src/main/kotlin/utils/ChannelUtils.kt:40-49 | an edit changes only what the message shows: channels, lengths, ids and authors are kept |
| Messages.EditedKeepsAbsent | src/main/kotlin/utils/ChannelUtils.kt:40-49 | an edit adds no id: a message absent from a channel stays absent |
| Messages.PostedKeepsAbsent | src/main/kotlin/utils/ChannelUtils.kt:55-62 | a post adds only the posted message's id |
| Messages.MessageStore.CreateMessage | src/main/kotlin/commands/impl/TaskManager.kt:280-282 | the new message gets a fresh id, one above the previous next id, and goes after everything in its channel |
| Messages.MessageStore.DeleteMessage | src/main/kotlin/commands/impl/TaskManager.kt:211 | reports whether the message existed; the channels become `Deleted` of the old ones |
| Messages.MessageStore.EditMessage | src/main/kotlin/commands/impl/TaskManager.kt:155-159 | reports whether the message existed; the channels become `Edited` of the old ones |
| Manager.Mentions | src/main/kotlin/commands/impl/TaskManager.kt:120-122 | each entry in order becomes `<@id>` when it is all digits and stays verbatim otherwise |
| Manager.FormatAssignedUsersShape | src/main/kotlin/commands/impl/TaskManager.kt:119-123 | the list renders as its mentions joined with ", " in list order |
| Manager.Present | src/main/kotlin/commands/impl/TaskManager.kt:249-271 | at most one button per type asked for |
| Manager.PresentSound | src/main/kotlin/commands/impl/TaskManager.kt:249-271 | every button shown is registered and has one of the types asked for |
| Manager.PresentAllRegistered | src/main/kotlin/commands/impl/TaskManager.kt:249-271 | with every type registered, exactly one button per type in the order given |
| Manager.PresentSnoc | src/main/kotlin/commands/impl/TaskManager.kt:252 | one more type adds the found button at the end, or nothing |
| Manager.DeleteAlwaysLast | src/main/kotlin/commands/impl/TaskManager.kt:271 | the delete button, when registered, is the last button of every card |
| Manager.StandardButtonsPerState | src/main/kotlin/commands/impl/TaskManager.kt:250-271 | PENDING offers start, complete, select users, assign me, edit, delete; IN PROGRESS offers complete, pause, select users, assign me, edit, delete; COMPLETED offers reopen, delete |
| Manager.StandardButtonsRegistered | src/main/kotlin/utils/ButtonHandler.kt:63-64 | among the bot's own buttons, `getButtonByType` finds one of every type |
| Manager.ChunkShape | src/main/kotlin/commands/impl/TaskManager.kt:273 | `chunked(n)` loses and reorders nothing; rows hold 1 to n buttons, all but the last exactly n |
| Manager.ChunkFront | src/main/kotlin/commands/impl/TaskManager.kt:273 | the first row of the rest is the next five buttons (or what remains) |
| Manager.FlattenMember | src/main/kotlin/commands/impl/TaskManager.kt:273-277 | a button in a row is among the buttons chunked |
| Manager.ComponentIds | src/main/kotlin/commands/impl/TaskManager.kt:275 | each button in order carries its component id for the task |
| Manager.ActionRowsDispatch | src/main/kotlin/commands/impl/TaskManager.kt:273-277 | rows hold one to five buttons, and every component id on a card dispatches to this task id and to a type the state offers |
| Manager.CollectButtons | src/main/kotlin/commands/impl/TaskManager.kt:249-271 | the loop collects exactly the state's registered buttons in order, delete last |
| Manager.ActionRows | src/main/kotlin/commands/impl/TaskManager.kt:248-278 | the rows built are the state's buttons chunked five to a row |
| Manager.CardButtonsLeadBack | src/main/kotlin/commands/impl/TaskManager.kt:125-142 | every button on a task's card dispatches back to that task |
| Manager.PlanMove | src/main/kotlin/commands/impl/TaskManager.kt:187-205 | no plan exactly when the guild, the target channel, the task, its current channel, or either channel's resolution is missing; otherwise the task and both resolved channels |
| Manager.MoveTaskEffect | src/main/kotlin/commands/impl/TaskManager.kt:207-217 | after a move the task has the target state and the new message id, with everything else of it kept; every other task is untouched |
| Manager.SameStateMoveReposts | src/main/kotlin/commands/impl/TaskManager.kt:184-218 | a move to the current state is not a no-op: the stored message id changes |
| Manager.MoveMessagesEffect | src/main/kotlin/commands/impl/TaskManager.kt:209-216 | the new card, with the target state's buttons, is in the target channel under the fresh id, and the old card is gone from the old channel |
| Manager.CardChannel | src/main/kotlin/commands/impl/TaskManager.kt:145-153 | the card's channel exists exactly when the task has a message id and its guild binds a resolvable channel to the task's state |
| Manager.TaskManager.constructor | src/main/kotlin/commands/impl/TaskManager.kt:45 | the manager starts with the given list |
| Manager.TaskManager.AddTask | src/main/kotlin/commands/impl/TaskManager.kt:47-50 | the task is appended at the end; every existing entry stays in place |
| Manager.TaskManager.UpdateTaskState | src/main/kotlin/commands/impl/TaskManager.kt:52-57 | the list becomes `SetState` of the old one |
| Manager.TaskManager.AssignUserToTask | src/main/kotlin/commands/impl/TaskManager.kt:59-68 | returns true exactly when the task exists without the user; the list becomes `Assign` of the old one |
| Manager.TaskManager.UnassignUserFromTask | src/main/kotlin/commands/impl/TaskManager.kt:70-76 | the list becomes `Unassign` of the old one |
| Manager.TaskManager.RemoveTask | src/main/kotlin/commands/impl/TaskManager.kt:80-83 | the loop leaves exactly `RemoveById` of the old list |
| Manager.TaskManager.RemoveTaskByMessageId | src/main/kotlin/commands/impl/TaskManager.kt:85-88 | the loop leaves exactly `RemoveByMessageId` of the old list |
| Manager.TaskManager.UpdateTask | src/main/kotlin/commands/impl/TaskManager.kt:166-175 | the list becomes `Edit` of the old one |
| Manager.TaskManager.UpdateTaskMessageId | src/main/kotlin/commands/impl/TaskManager.kt:177-182 | the list becomes `SetMessageId` of the old one |
| Manager.TaskManager.MoveTaskToCategory | src/main/kotlin/commands/impl/TaskManager.kt:184-218 | with no plan nothing changes; otherwise the tasks become `MovedTasks`, the channels `MovedChannels`, and one id is used |
| Manager.TaskManager.UpdateTaskEmbed | src/main/kotlin/commands/impl/TaskManager.kt:144-164 | edits the card in its channel to show the task as it is, or changes nothing when the card cannot be located |
| ChannelUtils.StateWordsFromName | src/main/kotlin/utils/ChannelUtils.kt:46 | the words of a state's summary line are its enum name lower-cased with `_` turned into a space: "pending", "in progress", "completed" |
| ChannelUtils.SummaryTextInjective | src/main/kotlin/utils/ChannelUtils.kt:46 | different counts give different summary lines |
| ChannelUtils.SummaryChannel | src/main/kotlin/utils/ChannelUtils.kt:18-24 | the summary channel exists exactly when the guild is configured and binds a resolvable channel to the state |
| ChannelUtils.RefreshShowsCount | src/main/kotlin/utils/ChannelUtils.kt:16-74 | after a refresh the recorded summary id names a message in the channel that shows the current count of the guild's tasks in the state |
| ChannelUtils.RefreshNarrow | src/main/kotlin/utils/ChannelUtils.kt:63-73 | the write-back touches only that guild's field for that state; other guilds, channels and fields are unchanged |
| ChannelUtils.RefreshTwicePostsOnce | src/main/kotlin/utils/ChannelUtils.kt:36-74 | edit or create once: right after a refresh, a second one posts no new summary |
| ChannelUtils.UpdateChannelSummary | src/main/kotlin/utils/ChannelUtils.kt:16-78 | the configuration, channels and next id become the refreshed ones; a new id is used exactly when a summary is posted |
| ChannelUtils.WriteSummary | src/main/kotlin/utils/ChannelUtils.kt:36-74 | an editable recorded summary is edited in place with nothing else changed; otherwise one bot message with the next id is posted and its id recorded for the guild and state |
| ChannelUtils.PostSummary | src/main/kotlin/utils/ChannelUtils.kt:54-74 | one bot message with the next id goes after everything in the channel, and that id is recorded as the summary of the guild and state |
| ChannelUtils.RefreshKeepsTasks | src/main/kotlin/utils/ChannelUtils.kt:25 | refreshes never change the task list and never lower the next id |
| ChannelUtils.UnknownGuildRefreshNoChange | src/main/kotlin/utils/ChannelUtils.kt:18 | refreshing any states of a guild with no configuration leaves the world unchanged |
| ChannelUtils.RefreshKeepsLayout | src/main/kotlin/utils/ChannelUtils.kt:16-74 | a refresh keeps the channels, the channel each state resolves to, and every id below the next one |
| ChannelUtils.RefreshIdsBelow | src/main/kotlin/utils/ChannelUtils.kt:36-74 | after a refresh every id in the store is still below the next one |
| ChannelUtils.RefreshKeepsSummaryChannels | src/main/kotlin/utils/ChannelUtils.kt:63-73 | recording a summary id leaves the channel every state of the guild resolves to unchanged |
| ChannelUtils.RefreshAllKeepsLayout | src/main/kotlin/utils/ChannelUtils.kt:200-215 | the same across several refreshes |
| ChannelUtils.RefreshSummaries | src/main/kotlin/utils/ChannelUtils.kt:200-207 | the loop refreshes the states in order: the world becomes `AfterRefreshAll` of the old one |
| ChannelUtils.OrphansMembers | src/main/kotlin/utils/ChannelUtils.kt:97-126 | the tasks collected are exactly those with a message id, not PENDING, with a bound channel whose lookup throws, or that resolves and no longer holds the message |
| ChannelUtils.CollectOrphans | src/main/kotlin/utils/ChannelUtils.kt:97-126 | the loop collects exactly the orphaned tasks, in list order, a throwing channel lookup (outer `catch`) counting as orphaned |
| ChannelUtils.RemoveTasks | src/main/kotlin/utils/ChannelUtils.kt:129-131 | the task list loses every task whose id was collected, and nothing else |
| ChannelUtils.TaskIds | src/main/kotlin/utils/ChannelUtils.kt:129-131 | the ids of the tasks in order |
| ChannelUtils.PruneOrphansExact | src/main/kotlin/utils/ChannelUtils.kt:92-131 | with distinct ids, step 1 removes exactly the guild's orphaned tasks (missing message, or a channel lookup that throws), never a PENDING task or another guild's task, and keeps ids distinct |
| ChannelUtils.PruneGuildOrphans | src/main/kotlin/utils/ChannelUtils.kt:94-131 | the two loops leave exactly `PruneOrphans` of the old list |
| ChannelUtils.Candidates | src/main/kotlin/utils/ChannelUtils.kt:160-167 | exactly the messages written by a bot account (any bot, as `author?.isBot` tests) other than the recorded summary |
| ChannelUtils.UntrackedIdsMembers | src/main/kotlin/utils/ChannelUtils.kt:174-176 | an id is deleted exactly when some candidate has it and no task tracks it |
| ChannelUtils.CleanedExact | src/main/kotlin/utils/ChannelUtils.kt:148-185 | with unique ids, step 2 deletes exactly the messages by bot accounts among the latest 100 that are neither the summary nor tracked by a task of the state |
| ChannelUtils.CleanedIdempotent | src/main/kotlin/utils/ChannelUtils.kt:160-185 | when a channel holds at most 100 messages, a second sweep deletes nothing more |
| ChannelUtils.UntrackedIdsSnoc | src/main/kotlin/utils/ChannelUtils.kt:174-176 | one more message adds its id when untracked |
| ChannelUtils.CleanChannel | src/main/kotlin/utils/ChannelUtils.kt:160-185 | fetching, filtering and deleting leave exactly the cleaned channel; every other channel and the next id are kept |
| ChannelUtils.DeleteUntracked | src/main/kotlin/utils/ChannelUtils.kt:173-185 | the loop removes from the channel exactly the untracked candidates' ids, and nothing else |
| ChannelUtils.DeleteIfUntracked | src/main/kotlin/utils/ChannelUtils.kt:175-178 | a fetched message is deleted exactly when no task tracks it; the removals so far grow by its id exactly then |
| ChannelUtils.UntrackedIdsPrefix | src/main/kotlin/utils/ChannelUtils.kt:174-176 | one more fetched message adds its id to the ids to delete exactly when it is untracked |
| ChannelUtils.DeleteNext | src/main/kotlin/utils/ChannelUtils.kt:178 | one more deletion removes that id too |
| ChannelUtils.DeleteOneMore | src/main/kotlin/utils/ChannelUtils.kt:178 | one more deletion extends the removals by one id |
| ChannelUtils.ChannelsToValidate | src/main/kotlin/utils/ChannelUtils.kt:85-90 | exactly the bound IN PROGRESS and COMPLETED channels |
| ChannelUtils.SweepOne | src/main/kotlin/utils/ChannelUtils.kt:138-171 | a channel that does not resolve, or whose lookup or fetch throws, is skipped; no other channel is touched; nothing is added |
| ChannelUtils.Sweep | src/main/kotlin/utils/ChannelUtils.kt:138-197 | channels not swept, or unreadable, are unchanged; nothing is added |
| ChannelUtils.SweepGuildChannels | src/main/kotlin/utils/ChannelUtils.kt:137-197 | the loop leaves exactly `Sweep` of the old channels |
| ChannelUtils.SweepChannel | src/main/kotlin/utils/ChannelUtils.kt:138-171 | a channel that resolves and can be read is cleaned; otherwise no channel changes |
| ChannelUtils.StatesOf | src/main/kotlin/utils/ChannelUtils.kt:200 | the states of the swept channels in order |
| ChannelUtils.SummaryStates | src/main/kotlin/utils/ChannelUtils.kt:199-215 | summaries are refreshed for exactly the states the guild binds a channel to, PENDING last when bound |
| ChannelUtils.ValidatedGuildTasks | src/main/kotlin/utils/ChannelUtils.kt:92-131 | a guild's sweep only removes tasks; with distinct ids it removes exactly the guild's orphans, including those whose channel lookup throws, keeps every PENDING task and keeps ids distinct |
| ChannelUtils.ValidatedGuildShowsPending | src/main/kotlin/utils/ChannelUtils.kt:209-215 | after a guild's sweep its PENDING summary shows the count of PENDING tasks step 1 left |
| ChannelUtils.StartupOnlyPrunes | src/main/kotlin/utils/ChannelUtils.kt:80-218 | the whole sweep only removes tasks; with distinct ids it never removes a PENDING task and keeps ids distinct |
| ChannelUtils.ValidateGuild | src/main/kotlin/utils/ChannelUtils.kt:83-215 | the world becomes `ValidatedGuild` of the old one (step 1, step 2, then the summaries) |
| ChannelUtils.PerformStartupValidation | src/main/kotlin/utils/ChannelUtils.kt:80-218 | the world becomes `Validated` of the old one over the guilds listed at the start |
| TaskButtons.MoveTarget | src/main/kotlin/utils/TaskButtons.kt:20-61 | exactly the four move buttons have a target: start gives IN PROGRESS, complete gives COMPLETED, pause and reopen give PENDING |
| TaskButtons.MoveTableCoversBothEnds | src/main/kotlin/utils/TaskButtons.kt:20-61 | a move button offered in a state targets another state, and its refresh list covers both the state it leaves and the target |
| TaskButtons.DeletedCard | src/main/kotlin/utils/TaskButtons.kt:76-79 | deleting the card keeps the channels and every id below the next one |
| TaskButtons.RedrawShowsTask | src/main/kotlin/commands/impl/TaskManager.kt:144-164 | a redraw keeps the tasks, configuration and next id, and the card found in its channel then shows the task as it is |
| TaskButtons.MoveButtonOutcome | src/main/kotlin/utils/TaskButtons.kt:20-61 | a move button with a guild leaves the task in the target state showing the freshly posted card, or leaves the list unchanged when a guard fails |
| TaskButtons.RefreshKeepsAbsent | src/main/kotlin/utils/ChannelUtils.kt:36-74 | a refresh never brings back a message id other than the next one |
| TaskButtons.DeleteRemovesTask | src/main/kotlin/utils/TaskButtons.kt:69-84 | afterwards no task has the id and every other task stays; a task already gone means nothing happens |
| TaskButtons.DeleteRemovesCard | src/main/kotlin/utils/TaskButtons.kt:76-79 | the task's card is gone from the channel of its state, and the refresh does not bring it back |
| TaskButtons.DeleteRefreshesCount | src/main/kotlin/utils/TaskButtons.kt:81-83 | the summary of the task's last state shows the count without it |
| TaskButtons.AssignMeToggles | src/main/kotlin/utils/TaskButtons.kt:110-132 | the clicking user is listed afterwards exactly when they were not listed before; assignee lists stay duplicate-free |
| TaskButtons.AssignMeTwiceRestores | src/main/kotlin/utils/TaskButtons.kt:110-132 | two clicks from an unassigned start give back the task list |
| TaskButtons.NoGuildMoveNoChange | src/main/kotlin/utils/ButtonHandler.kt:27-30 | a move button clicked without a guild runs with the guild id "null"; when no configuration has that id, the world is unchanged |
| TaskButtons.NoGuildDeleteStillRemoves | src/main/kotlin/utils/ButtonHandler.kt:27-30 | a delete button clicked without a guild runs with the guild id "null"; when no configuration has that id, no card or summary changes but the task is still removed from the list |
| TaskButtons.HandleMove | src/main/kotlin/utils/TaskButtons.kt:20-61 | the world becomes the move followed by the button's summary refreshes |
| TaskButtons.MoveOnWorld | src/main/kotlin/commands/impl/TaskManager.kt:184-205 | `moveTaskToCategory` on the three objects leaves exactly the world `AfterMove` describes |
| TaskButtons.HandleDelete | src/main/kotlin/utils/TaskButtons.kt:69-84 | the world becomes `AfterDelete` of the old one |
| TaskButtons.HandleAssignMe | src/main/kotlin/utils/TaskButtons.kt:110-132 | the world becomes `AfterAssignMe` of the old one; the reply names what was done |
| TaskButtons.RedrawTask | src/main/kotlin/Main.kt:67 | re-reading the task and redrawing its card leaves exactly the world `Redrawn` describes: only that card changes |
| TaskButtons.HandleButton | src/main/kotlin/utils/ButtonHandler.kt:27-37 | the world and reply become `AfterButton` and `ButtonReply`: the move and delete buttons run with the click's guild, or the guild id "null" when it has none; forms for select users (assign form) and edit (prefilled with title and description) |
| TaskButtons.HandleButtonClick | src/main/kotlin/utils/ButtonHandler.kt:67-84 | returns true exactly when a button matches and the task id is known; otherwise nothing changes and nothing is answered |
| TaskButtons.CardClickReachesTask | src/main/kotlin/utils/ButtonHandler.kt:67-84 | a click on a listed task's card reaches that task with the button's type |
| ModalHandling.MentionNormalized | src/main/kotlin/Main.kt:56-58 | `<@u>` gives u with a leading `!` dropped, `<@!u>` gives u, and the mention a card shows for a user id gives back the id |
| ModalHandling.MentionStripped | src/main/kotlin/Main.kt:57 | stripping `<@` and `>` from `<@u>` gives u |
| ModalHandling.DisplayName | src/main/kotlin/Main.kt:65 | an all-digit user is shown as a mention, anything else in quotes |
| ModalHandling.AssignModalEffect | src/main/kotlin/Main.kt:48-72 | blank or missing input and an unknown task change nothing; otherwise the normalised user is assigned as `assignUserToTask` does and is then listed; configuration and ids are untouched |
| ModalHandling.EditModalGuards | src/main/kotlin/Main.kt:74-87 | unless both inputs are present and not blank and the task is known, nothing changes |
| ModalHandling.EditModalApplies | src/main/kotlin/Main.kt:88-91 | the task gets the trimmed, non-blank title and description with everything else kept |
| ModalHandling.ExpiredExactly | src/main/kotlin/Main.kt:117-121 | a submission is dropped exactly from 15 minutes of age on; a negative age never is |
| ModalHandling.FormsReachTheirHandlers | src/main/kotlin/Main.kt:122-126 | the forms the two buttons open, submitted in time, reach their handlers and strip back to exactly the task id |
| ModalHandling.HandleAssignUserModal | src/main/kotlin/Main.kt:48-72 | world and reply become `AssignUserModal` of the old world |
| ModalHandling.HandleEditTaskModal | src/main/kotlin/Main.kt:74-91 | world and reply become `EditTaskModal` of the old world |
| ModalHandling.EditAndRedraw | src/main/kotlin/Main.kt:88-89 | the world becomes the edited task list with the edited task's card redrawn |
| ModalHandling.OnModalSubmit | src/main/kotlin/Main.kt:112-132 | world and reply become `ModalSubmitted`: expired gets no answer, then assign prefix, then edit prefix, then "Unknown modal submission." |
| PostTask.UnderscoreAfterDigits | src/main/kotlin/commands/impl/TaskManager.kt:98 | when an id is a digit string `a`, `_` and a rest, and the guild id or the rest is all digits, the guild prefix test `startsWith("${g}_")` holds only for g equal to `a` |
| PostTask.AsWrittenIdGuild | src/main/kotlin/commands/impl/PostTaskCommand.kt:75 | a task with the id as written belongs to a guild exactly when the guild id is the text of the epoch seconds |
| PostTask.AsWrittenTaskUncounted | src/main/kotlin/commands/impl/PostTaskCommand.kt:75 | so adding it leaves every other numeric guild's count in every state unchanged |
| PostTask.MintedIdGuild | src/main/kotlin/commands/impl/TaskManager.kt:98 | a task with the corrected id belongs to its guild, and for numeric ids to no other |
| PostTask.SuffixWidth | src/main/kotlin/commands/impl/PostTaskCommand.kt:75 | a suffix drawn from 1000..9999 always has four digits |
| PostTask.PendingChannel | src/main/kotlin/commands/impl/PostTaskCommand.kt:46-47 | the pending channel the guards found resolves |
| PostTask.PostTaskGuards | src/main/kotlin/commands/impl/PostTaskCommand.kt:38-73 | no guild, no configuration, no pending channel, a blank title or an unresolvable channel changes nothing, whatever the id |
| PostTask.PostTaskNewTask | src/main/kotlin/commands/impl/PostTaskCommand.kt:77-93 | when the guards pass, one task is appended under the given id: PENDING, unassigned, trimmed non-blank title, trimmed description or "No description provided", and the posted card's id |
| PostTask.PostTaskAppends | src/main/kotlin/commands/impl/PostTaskCommand.kt:75-95 | corrected: with the guild-prefixed id the new task belongs to its guild and the guild's PENDING count grows by one |
| PostTask.PostTaskAsWrittenUncounted | src/main/kotlin/commands/impl/PostTaskCommand.kt:75-95 | as written: in a numeric guild other than the epoch seconds, the appended task belongs to no guild and every count of the guild stays as it was |
| PostTask.AsWrittenCardUntracked | src/main/kotlin/utils/ChannelUtils.kt:149-151 | a listed task with the id as written is in none of the guild's state lists, so its card is not among the ids step 2 keeps when it sweeps the IN_PROGRESS or COMPLETED channel |
| PostTask.PostAndRecord | src/main/kotlin/commands/impl/PostTaskCommand.kt:88-95 | posting the card, adding the task with the card's id, then refreshing the PENDING summary gives exactly the created world refreshed |
| PostTask.CreatedIdsBelow | src/main/kotlin/commands/impl/PostTaskCommand.kt:88 | posting the card keeps every id below the next one |
| PostTask.PostTaskSummaryShown | src/main/kotlin/commands/impl/PostTaskCommand.kt:95 | afterwards the guild's PENDING summary shows the count of the guild's PENDING tasks, the new one among them when its id carries the guild prefix |
| PostTask.Execute | src/main/kotlin/commands/impl/PostTaskCommand.kt:32-107 | world and reply become `PostTaskOutcome` of the old world with the id minted as written, epoch seconds and suffix |

## Left out

- Discord I/O: the gateway, REST calls and interaction responses become operations on `MessageStore` and a `Reply` value. A call that throws is modelled only where the code turns the failure into a decision. Those cases are a missing channel, a missing message (`getMessage`), a channel lookup that throws during the startup sweep (the `failing` set: step 1 removes the task, step 2 skips the channel), and a channel whose messages cannot be fetched (the `unreadable` set of step 2).
- The remaining `catch` blocks are not modelled. They only log, or answer "Failed to create task" / "An error occurred", after an unexpected exception. So a channel lookup that throws outside the startup sweep (in `updateChannelSummary`, including the summary refreshes that end the startup sweep, a handler or `/posttask`) is not modelled: the model treats such a channel as resolving. Also out are a failed `createMessage` and a failed delete during step 2 (ChannelUtils.kt:181).
- JSON persistence (`saveTasks`, `loadTasks`, the configuration file) is left out, because it is file I/O. The lists are the in-memory state.
- Reflection-based button registration is left out. The registered buttons are a given sequence, and `StandardButtons` lists the bot's own.
- Embed colours, timestamps, `delay` pauses, emoji-only text and log lines are left out. They are presentation or timing.
- Snowflakes are natural numbers, so parsing their text form is not modelled. A fresh message id is the store's next id.
- Coroutines are not modelled. Everything runs sequentially.
- Object aliasing: handlers that hold the task object while `TaskManager` mutates it are modelled by reading the task again from the list after the mutation.
- The one-tenant calls in TaskButtons.kt (`moveTaskToCategory(id, state)`, `updateChannelSummary(state)`, `updateTaskEmbed(task)`, `BotConfig.instance.*ChannelId`) are modelled with the guild-scoped operations.
  - The guild is the one the click came from. A click without one runs with the guild id "null" (ButtonHandler.kt:30), so the guild-scoped lookups find no configuration, where the one-tenant calls would still reach the single configured channels.
  - Assign-me and the two forms redraw the card only when the interaction has a guild.
- The modal age is an input in milliseconds, because the clock is not modelled.
- `markTaskCompleted` is a deprecated alias of `updateTaskState(id, COMPLETED)`. `getTasks` returns the list itself. Neither has a member of its own.
- The text inputs' length limits (1..100) and `required` flags belong to Discord's form, not to the bot, and are not modelled.
- `handleComponentInteraction` (Main.kt:36-45) only logs around `handleButtonClick`. The log line is left out.
- ChannelUtils.CleanedIdempotent: idempotence is proved only for channels holding at most 100 messages. Beyond that, the fetch window of a second sweep reaches older messages.
- ChannelUtils.ValidatedGuildShowsPending: only the PENDING summary, refreshed last, is proved to show its count after a guild's sweep. The earlier summaries are covered by `ValidatedGuild` itself.
- TaskButtons.DeleteRemovesCard: requires the card's id to be one the store handed out (below the next id). A dangling id equal to the next id would be reused by a newly posted summary.

## Findings

| source | as written | input that shows it | evidently intended | confidence | as-written member | corrected member |
|---|---|---|---|---|---|---|
| src/main/kotlin/commands/impl/PostTaskCommand.kt:75 | `/posttask` mints the id as `<epochSeconds>_<suffix>`, with no guild prefix, but `getTasksByGuild` (TaskManager.kt:98) keeps only ids starting with `<guildId>_`. So a created task is not counted in the pending summary refreshed right after. Startup step 1 never checks it. Once the task is moved to IN PROGRESS or COMPLETED, step 2 at the next startup finds its card untracked in that channel and deletes it, while the task stays listed; a card still in the PENDING channel is never swept. | guild "123456789012345678", epoch seconds 1700000000, suffix 4242: the id "1700000000_4242" does not start with "123456789012345678_", so the guild's PENDING count stays as it was | the id `<guildId>_<epochSeconds>_<suffix>`, so the task belongs to its guild and the count grows by one | high; not executed | PostTask.PostTaskAsWrittenUncounted | PostTask.PostTaskAppends |
