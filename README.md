# jpa-os core in Dafny

This project models the core of jpa-os, a personal assistant built around a
Claude agent. The modelled parts are:

- the autonomous work queue and the daemon that drains it;
- the routine table, the once-a-minute scheduler tick and the routine runner;
- the Discord bot's message routing, reply chunking and `!run` command;
- the agent's tool hooks: permission decisions, logging, and the Stop hook
  that reads `- [ ]` work items back from Markdown;
- the Granola transcript ingestor, the documentation scraper's naming, and the
  vault tools.

Modules, one per file:

| module | source |
|---|---|
| `Queue` | `engine/autonomous/queue.py` |
| `Daemon` | `engine/autonomous/daemon.py` |
| `Routines` | `engine/scheduler/routines.py` |
| `Scheduler` | the tick of `engine/scheduler/daemon.py` and of `scheduler_check` |
| `Runner` | `engine/scheduler/runner.py` |
| `Bot` | `engine/main.py` |
| `Hooks` | `engine/hooks/core.py` |
| `WorkHooks` | `engine/hooks/autonomous.py` |
| `Granola` | `engine/ingestors/granola.py` |
| `Scraper` | `engine/tools/scraper.py` |
| `Vault` | `engine/tools/vault.py` |
| `Text`, `Sorting`, `Optional` | shared string, stable-sort and option helpers |

## How the program is represented

**State that the program changes in place is a class.**

- `Queue.WorkQueue` holds the stored task list (`stored`), a `corrupt` flag
  and the Markdown mirror it last wrote (`view`).
  - `Load()` is `_load`: a corrupt store reads as `[]`.
  - Each mutating method ends by rewriting the mirror.
  - The mirror is recorded as `Mirror(tasks, at)`, the tasks shown and the
    header time. Its `Text()` is the file's text, `SummaryText(tasks, at)`.
- `Daemon.AutonomousDaemon` holds `running`, `consecutiveFailures`,
  `tasksProcessed` and `startTime` over a `WorkQueue`. Sleeps are recorded as
  the list `naps` and the shutdown statistics as the list `reports`.
- `Scheduler.MinuteLedger` is a `last_run` dictionary together with the names
  the tick has passed to `run_routine`.
- `Vault.Store` is the vault as a map from relative path to content.

**The parts the program cannot foresee are inputs.**

- Daemon: each pass of the main loop is a `Step`. It says:
  - whether the loop body raises before it touches the queue;
  - whether the agent returns or raises;
  - whether a shutdown signal arrives;
  - what the clock reads when `start` marks the task in progress, before the agent runs, and when `complete` or `fail` records the outcome, after it.
- Timestamps and minute keys are strings passed in.
- `croniter` is the parameter `due(schedule, minute)`.
- The agent is a function from prompt to `Result<string>`.

**Pure code is functions.** A loop in the source is a `method` proved equal
to a function, with lemmas about that function. These methods are:

- `Bot.ChunkReply`;
- `Runner.PostToDiscord`;
- `Vault.MatchingSnippets`, `Vault.CollectResults`, `Vault.Render`;
- `Scheduler.MinuteLedger.Tick`;
- the queue's methods.

**The routine table is parametrised by its prompts.**

- `Routines.Table(p)` is `ROUTINES` for any four prompt texts `p`.
- `Routines.All == Table(ShippedPrompts)` is the shipped table, with the
  prompts verbatim.
- Lemmas about the table hold for every `p`, so they hold for the shipped one.
- `Bot.SchedulerCheck` takes the prompts as a parameter; the program's check
  runs over `Table(ShippedPrompts)`.

**Behaviour of the code that the model keeps as written:**

- The daemon's docstring (engine/autonomous/daemon.py:66) says it stops
  "after this many failures in a row". Only the main loop's exception
  handler checks that ceiling (daemon.py:120-128). A failed agent run adds to
  `consecutive_failures` (daemon.py:158) but never stops the daemon.
- `start`, `complete` and `fail` (engine/autonomous/queue.py:151-193) do not
  look at a task's previous status. They rewrite the first stored task with
  the id, whatever its status.
- Task ids are not unique (queue.py:115; `Queue.DuplicateIdAfterPurge`).
  Together with the previous point this can keep a pending task pending
  forever; see "## Findings".

## Model

| member | source | states |
|---|---|---|
| Queue.PriorityValue | engine/autonomous/queue.py:21-25 | a priority's value is one of 1..4 |
| Queue.PriorityOf | engine/autonomous/queue.py:21-25 | `TaskPriority(v)` succeeds exactly for 1..4 and gives the priority whose value is `v` |
| Queue.StatusOf | engine/autonomous/queue.py:28-32 | `TaskStatus(v)` succeeds exactly for the four status strings, and gives the status whose string is `v` |
| Queue.ToRecord | engine/autonomous/queue.py:82-87 | the stored form keeps the id, has a priority number in 1..4 and a status string that reads back as the task's status |
| Queue.FromRecord | engine/autonomous/queue.py:89-93 | decoding a stored dict succeeds exactly when its priority is 1..4 and its status string is known |
| Queue.TaskRoundTrip | engine/autonomous/queue.py:82-93 | encoding a task and decoding it gives the task back (an empty creation time is re-stamped) |
| Queue.RecordRoundTrip | engine/autonomous/queue.py:82-93 | a dict that decodes, with a creation time, is exactly what encoding the decoded task stores |
| Queue.TaskIdSuffix | engine/autonomous/queue.py:115 | the id of an added task ends in `_` and the decimal digits of the number of tasks before the add |
| Queue.KeyLessIrreflexive | engine/autonomous/queue.py:145-146 | the `(-priority, created_at)` order is irreflexive |
| Queue.KeyLessAsymmetric | engine/autonomous/queue.py:145-146 | the `(-priority, created_at)` order is asymmetric |
| Queue.KeyLessCotransitive | engine/autonomous/queue.py:145-146 | the `(-priority, created_at)` order is a strict weak order (incomparability is transitive) |
| Queue.KeyLess | engine/autonomous/queue.py:146-147 | the sort key `(-priority, created_at)` compared as a tuple; the three lemmas above make it a strict weak order |
| Queue.BestIndex | engine/autonomous/queue.py:138-149 | the index found is none exactly when no task is pending, and otherwise is a pending task |
| Queue.BestIndexIsNext | engine/autonomous/queue.py:138-149 | the index found is the pending task of highest priority, oldest among those, earliest stored on a full tie |
| Queue.NextOf | engine/autonomous/queue.py:138-149 | `get_next`'s choice is none exactly when nothing is pending, and otherwise the stable sort's first pending task |
| Queue.WithStatus | engine/autonomous/queue.py:195-199 | filtering by status keeps at most the tasks there are |
| Queue.WithStatusAppend | engine/autonomous/queue.py:195-199 | filtering distributes over concatenation |
| Queue.WithStatusMembers | engine/autonomous/queue.py:195-199 | the filter keeps exactly the tasks of that status |
| Queue.WithStatusNone | engine/autonomous/queue.py:195-199 | the filter is empty exactly when no task has that status |
| Queue.Live | engine/autonomous/queue.py:206-214 | the kept tasks are at most the tasks there are |
| Queue.LiveAppend | engine/autonomous/queue.py:206-214 | purging distributes over concatenation |
| Queue.LiveMembers | engine/autonomous/queue.py:206-214 | the purge keeps exactly the pending and in-progress tasks, unchanged |
| Queue.LiveKeepsLive | engine/autonomous/queue.py:206-214 | a list of only live tasks is left as it is |
| Queue.LiveIdempotent | engine/autonomous/queue.py:206-214 | purging twice is purging once |
| Queue.LiveCount | engine/autonomous/queue.py:206-214 | the purge keeps as many tasks as there are pending plus in-progress ones |
| Queue.FirstIndex | engine/autonomous/queue.py:155-163 | the loop's hit is the first task with the id, or none when no task has it |
| Queue.RewriteFirstSpec | engine/autonomous/queue.py:155-193 | a rewrite changes only the first task with the id, keeps the length, and changes nothing when the id is absent |
| Queue.RewriteFirst | engine/autonomous/queue.py:155-193 | the `for task in tasks: if task['id'] == task_id` rewrite; `Queue.RewriteFirstSpec` and `Queue.RewriteKeepsIds` state its effect |
| Queue.Apply | engine/autonomous/queue.py:155-193 | the field writes of `start`, `complete` and `fail`: only the status and the change's own fields are written, and the task never comes out pending |
| Queue.StatusCountAfterUpdate | engine/autonomous/queue.py:155-193 | replacing one task moves the count of a status by the change at that place only |
| Queue.StartLeavesPending | engine/autonomous/queue.py:155-163 | starting a pending task leaves one pending task fewer |
| Queue.UniqueFirstIndex | engine/autonomous/queue.py:155-163 | with unique ids, the first task with a task's id is that task |
| Queue.RewriteFirstAt | engine/autonomous/queue.py:155-193 | rewriting the first task with an id updates exactly that place, which stays first |
| Queue.UpdateKeepsIds | engine/autonomous/queue.py:155-193 | replacing a task by one with the same id keeps ids unique |
| Queue.RewriteKeepsIds | engine/autonomous/queue.py:155-193 | a rewrite keeps every task's id, so unique ids stay unique |
| Queue.ItemLine | engine/autonomous/queue.py:229-252 | every summary item line opens with its five-character check box |
| Queue.ItemLines | engine/autonomous/queue.py:229-252 | one item line per task, in order |
| Queue.ByPriorityDesc | engine/autonomous/queue.py:237 | the pending section lists a permutation of the pending tasks in descending priority, and tasks of equal priority keep their stored order (the sort is stable) |
| Queue.SummaryText | engine/autonomous/queue.py:216-254 | every line of the summary occurs in the mirror file's text |
| Queue.SummaryLines | engine/autonomous/queue.py:216-252 | the mirror's lines: the header, then the four sections in the source's order; `Queue.SummaryCounts` and `Queue.SummaryListsPending` state what they list |
| Queue.Header | engine/autonomous/queue.py:221 | the title, a blank line, "Last updated" with the time, and a blank line; `Queue.HeaderCount` states that it holds no check box |
| Queue.InProgressSection | engine/autonomous/queue.py:229-233 | the in-progress tasks in stored order under "## In Progress", or nothing; counted in `Queue.SummaryCounts` |
| Queue.PendingSection | engine/autonomous/queue.py:235-240 | the pending tasks in `Queue.ByPriorityDesc` order under "## Pending", or nothing; `Queue.PendingSectionLists` states that every pending task is listed |
| Queue.CompletedSection | engine/autonomous/queue.py:242-246 | the last five completed tasks under "## Completed", or nothing; counted in `Queue.SummaryCounts` |
| Queue.FailedSection | engine/autonomous/queue.py:248-252 | the last three failed tasks under "## Failed", or nothing; counted in `Queue.SummaryCounts` |
| Queue.CountItemLines | engine/autonomous/queue.py:229-252 | a section's item lines all carry its check box and no other |
| Queue.CountSection | engine/autonomous/queue.py:229-252 | a section with its heading and blank line has one box per task |
| Queue.HeaderCount | engine/autonomous/queue.py:221 | the header has no item lines |
| Queue.PendingSectionCount | engine/autonomous/queue.py:235-240 | the pending section has one unchecked box per pending task |
| Queue.SummaryCountsBySection | engine/autonomous/queue.py:216-254 | the summary's item count for each box is the sum over its sections |
| Queue.SummaryCounts | engine/autonomous/queue.py:216-254 | the summary lists every in-progress and pending task under `[ ]`, the last five completed under `[x]` and the last three failed under `[!]` |
| Queue.PendingSectionLists | engine/autonomous/queue.py:235-240 | every pending task has its line in the pending section |
| Queue.SummaryListsPending | engine/autonomous/queue.py:216-254 | every pending task has its line in the summary, whatever its priority |
| Queue.WorkQueue.constructor | engine/autonomous/queue.py:61-76 | a missing file is created empty, a corrupt one reads as `[]`, a readable one as its tasks |
| Queue.WorkQueue.Load | engine/autonomous/queue.py:71-76 | `_load`: the stored tasks, or [] when the file does not parse |
| Queue.WorkQueue.UpdateMarkdownView | engine/autonomous/queue.py:216-254 | the mirror now shows the loaded tasks at this time |
| Queue.WorkQueue.Add | engine/autonomous/queue.py:112-130 | exactly one new pending task is appended after the loaded ones, with its id suffix the count before the add |
| Queue.WorkQueue.GetNext | engine/autonomous/queue.py:138-149 | the result is `NextOf` the loaded tasks: none exactly when nothing is pending, else the best pending task; nothing changes |
| Queue.WorkQueue.ListPending | engine/autonomous/queue.py:195-199 | exactly the pending tasks, in stored order; nothing changes |
| Queue.WorkQueue.ListAll | engine/autonomous/queue.py:201-204 | every stored task, or nothing when the store is corrupt; nothing changes |
| Queue.WorkQueue.RewriteTask | engine/autonomous/queue.py:151-193 | True exactly when some task has the id; then the first such task is rewritten and the mirror refreshed, otherwise nothing changes |
| Queue.WorkQueue.Start | engine/autonomous/queue.py:151-163 | the first task with the id becomes in progress with its start time, whatever its status; an unknown id changes nothing |
| Queue.WorkQueue.Complete | engine/autonomous/queue.py:165-178 | the first task with the id becomes completed with its time and result; an unknown id changes nothing |
| Queue.WorkQueue.Fail | engine/autonomous/queue.py:180-193 | the first task with the id becomes failed with its time and error; an unknown id changes nothing |
| Queue.WorkQueue.ClearCompleted | engine/autonomous/queue.py:206-214 | the store keeps exactly the pending and in-progress tasks, in order, and the mirror is refreshed |
| Queue.DuplicateIdAfterPurge | engine/autonomous/queue.py:115 | after a completed task is purged, the next `add` in the same second reuses a live task's id |
| Daemon.PassStops | engine/autonomous/daemon.py:101-131 | a pass stops the daemon exactly on a shutdown signal or on a loop error that brings the failures to the ceiling; agent failures never stop it |
| Daemon.PassCounters | engine/autonomous/daemon.py:106-128 | a success counts a task and clears the failures; an agent failure or a loop error adds one failure; an idle pass changes neither counter nor the queue |
| Daemon.ProcessedAt | engine/autonomous/daemon.py:133-158 | with unique ids, processing the chosen task finishes exactly that task, started then completed or failed |
| Daemon.PassTasks | engine/autonomous/daemon.py:101-131 | only a pass that finds a pending task changes the tasks, and then by processing that task |
| Daemon.PassPending | engine/autonomous/daemon.py:106-114 | given unique ids, a pass without a loop error keeps ids unique and leaves one pending task fewer when it finds one |
| Daemon.ProcessedStamps | engine/autonomous/daemon.py:139-158 | with unique ids, only the chosen task changes; its start time is the reading taken before the agent ran (queue.py:158), its completion time the reading taken after (queue.py:172, 187), and it is completed exactly when the agent succeeded |
| Daemon.ProcessedPending | engine/autonomous/daemon.py:133-158 | given unique ids, processing the chosen task keeps ids unique and removes it from the pending tasks |
| Daemon.PassProcessing | engine/autonomous/daemon.py:112-118 | a pass that finds a task processes it, then stops on a signal or sleeps between tasks |
| Daemon.FaultKeepsTasks | engine/autonomous/daemon.py:120-128 | a loop error leaves the queue and its mirror untouched |
| Daemon.RunDrains | engine/autonomous/daemon.py:101-118 | given unique ids (which the queue does not guarantee, see "## Findings") and no errors, signals or outside adds, as many passes as there are pending tasks leave none pending and the daemon running |
| Daemon.Processed | engine/autonomous/daemon.py:133-158 | `start` at the first clock reading, then `complete` or `fail` at the second, keeps the number of tasks, and unique ids stay unique |
| Daemon.Finish | engine/autonomous/daemon.py:149-158 | a returned answer completes the task and a raised error fails it, both stamped with the reading taken after the agent run |
| Daemon.AfterTask | engine/autonomous/daemon.py:133-158 | a success counts one processed task and clears the failures; a failure adds one failure; the queue's mirror shows the new tasks at the reading taken after the agent run |
| Daemon.Pass | engine/autonomous/daemon.py:101-128 | a pass never starts a stopped daemon and stops on a signal; it keeps the number of tasks, counts at most one processed task and sleeps at most once |
| Daemon.Run | engine/autonomous/daemon.py:101-128 | the loop never restarts a stopped daemon, keeps the number of tasks, and counts at most one processed task and one sleep per pass |
| Daemon.ShadowedNext | engine/autonomous/queue.py:132-149 | with a finished task before a pending one of the same id, `get_next` picks the pending one |
| Daemon.ShadowedProcessed | engine/autonomous/queue.py:151-193 | processing that id rewrites the finished task and leaves the pending one as it was |
| Daemon.ShadowedPass | engine/autonomous/daemon.py:101-158 | a pass over such a queue picks the pending task, leaves it pending, and counts a success as processed |
| Daemon.ShadowedAfterReuse | engine/autonomous/queue.py:115 | the queue reached after `Queue.DuplicateIdAfterPurge` once its survivor is processed and a task is added in the same second has that shape |
| Daemon.ShadowedRun | engine/autonomous/daemon.py:101-158 | without errors or signals and with successful agent runs, the daemon runs on, the pending task stays pending and is picked every pass, and every pass counts a processed task |
| Daemon.RunStopsOnErrors | engine/autonomous/daemon.py:120-128 | enough consecutive loop errors stop the daemon without touching the queue |
| Daemon.AutonomousDaemon.constructor | engine/autonomous/daemon.py:52-76 | a new daemon keeps its settings, is not running, and has both counters at zero and no start time |
| Daemon.AutonomousDaemon.Default | engine/autonomous/daemon.py:55-57 | the default settings are 10 seconds between tasks, 60 when idle and a ceiling of 3 |
| Daemon.AutonomousDaemon.HandleShutdown | engine/autonomous/daemon.py:96-99 | a shutdown signal only clears `running` |
| Daemon.AutonomousDaemon.LogShutdownStats | engine/autonomous/daemon.py:160-171 | one report is appended with the start time, the stop time and the processed count |
| Daemon.AutonomousDaemon.ProcessTask | engine/autonomous/daemon.py:133-158 | the task is started at the first clock reading, then completed or failed at the second, and the mirror carries the second; a success counts it and clears the failures; a failure adds one failure and counts nothing |
| Daemon.AutonomousDaemon.RunFound | engine/autonomous/daemon.py:112-118 | the part of a pass after a task is found matches the pass function |
| Daemon.AutonomousDaemon.Iterate | engine/autonomous/daemon.py:103-128 | one pass of the loop body changes the daemon and its queue as `Pass` says |
| Daemon.AutonomousDaemon.MainLoop | engine/autonomous/daemon.py:101-131 | the loop runs the passes as `Run` says, and logs the statistics once, only after it stops |
| Daemon.AutonomousDaemon.Start | engine/autonomous/daemon.py:78-94 | `start` records the start time and sets `running` before the loop, then runs it |
| Routines.NewRoutine | engine/scheduler/routines.py:12-19 | a routine defaults to no channel and enabled |
| Routines.Find | engine/scheduler/routines.py:100-105 | the lookup gives none exactly when no routine has the name, otherwise the first routine with it |
| Routines.FindMember | engine/scheduler/routines.py:100-105 | with distinct names, looking up a routine's name finds that routine |
| Routines.ShippedRoutines | engine/scheduler/routines.py:23-97 | four enabled routines posting to team-jpa, with distinct names, in the order morning_brief, evening_recap, proactive_checkin, weekly_review |
| Routines.GetShipped | engine/scheduler/routines.py:100-105 | `get_routine(r.name) == r` for every shipped routine |
| Routines.GetRoutine | engine/scheduler/routines.py:100-105 | `get_routine` gives none exactly when no shipped routine has the name, otherwise a shipped routine with that name |
| Routines.Table | engine/scheduler/routines.py:23-97 | the `ROUTINES` list; `Routines.ShippedRoutines` states its contents |
| Scheduler.TickRecords | engine/scheduler/daemon.py:60-78 | every fired routine is enabled and due and has this minute recorded; every other `last_run` entry is unchanged |
| Scheduler.TickCoversDue | engine/scheduler/daemon.py:60-78 | after a tick every enabled, due routine has this minute recorded, even if it raised |
| Scheduler.TickQuiet | engine/scheduler/daemon.py:65-72 | a tick against entries that already record this minute fires nothing and changes nothing |
| Scheduler.SecondTickQuiet | engine/scheduler/daemon.py:65-72 | a second tick in the same minute fires nothing |
| Scheduler.TickFiresIff | engine/scheduler/daemon.py:60-72 | with distinct names, a routine fires exactly when it is enabled, due and not yet recorded for the minute |
| Scheduler.TickFiresOnce | engine/scheduler/daemon.py:60-72 | with distinct names, a tick fires each routine at most once |
| Scheduler.ShippedTick | engine/scheduler/daemon.py:60-78 | over the shipped table each routine fires at most once, and exactly when enabled, due and unrecorded |
| Scheduler.Fires | engine/scheduler/daemon.py:65-72 | the firing condition: enabled, due this minute and not yet recorded for it; `Scheduler.TickFiresIff` states that the tick fires exactly these |
| Scheduler.TickOver | engine/scheduler/daemon.py:60-78 | the tick fires at most one name per routine and never forgets a `last_run` entry |
| Scheduler.SleepSeconds | engine/scheduler/daemon.py:80-83 | the sleep `60 - second` is 1..60 and ends on a whole minute |
| Scheduler.MinuteLedger.constructor | engine/scheduler/daemon.py:53-54 | the scheduler starts with an empty `last_run` |
| Scheduler.MinuteLedger.Tick | engine/scheduler/daemon.py:60-78 | the loop over the routines records and fires exactly as `TickOver` says, appending to what was fired before |
| Runner.Slices | engine/scheduler/runner.py:48-53 | the slices concatenate to the text, are non-empty and at most `size` long, and all but the last are full |
| Runner.SlicesUnique | engine/scheduler/runner.py:48-53 | any cut into non-empty pieces of at most `size` with all but the last full is the slicing |
| Runner.SlicesStep | engine/scheduler/runner.py:48-53 | the first slice is `s[:size]` and the rest slices the remainder |
| Runner.Messages | engine/scheduler/runner.py:48-53 | the messages concatenate to the content and are at most 2000 long; there is one message exactly when the content fits |
| Runner.PostToDiscord | engine/scheduler/runner.py:30-66 | posts exactly when there is a token, the client connects and some guild has the channel; then it sends the messages |
| Runner.Names | engine/scheduler/runner.py:80-83 | the names of the table, in order |
| Runner.UnknownMessage | engine/scheduler/runner.py:82-83 | the error text for an unknown routine; `Runner.UnknownMessageNames` states that it names the request and every routine |
| Runner.TimeContext | engine/scheduler/runner.py:96-98 | the time context opens with "Current time: ", holds the clock reading and ends with a blank line |
| Runner.MapChannel | engine/scheduler/runner.py:111-118 | the mapped channel is never the retired `team-jpa` |
| Runner.RunRoutine | engine/scheduler/runner.py:69-120 | the agent is prompted exactly for a known, enabled routine; a post carries the agent's answer and happens only outside a dry run; only an unknown name raises without prompting |
| Runner.UnknownListsEveryName | engine/scheduler/runner.py:80-83 | an unknown name raises without consulting the agent, and the message names it and every routine |
| Runner.UnknownMessageNames | engine/scheduler/runner.py:82-83 | the error message contains the requested name and every routine name |
| Runner.DisabledSkips | engine/scheduler/runner.py:85-87 | a disabled routine returns "" and neither prompts nor posts |
| Runner.SkippedRunIgnoresAgent | engine/scheduler/runner.py:80-87 | when the agent is skipped, the run does not depend on the agent |
| Runner.PromptKeepsRoutinePrompt | engine/scheduler/runner.py:89-100 | the prompt opens with the time context and ends with the routine's prompt, unchanged |
| Runner.DryRunPostsNothing | engine/scheduler/runner.py:102-109 | a dry run posts nothing and returns the agent's answer |
| Runner.PostsIff | engine/scheduler/runner.py:102-120 | a run posts exactly when it is not a dry run, the agent answers and the channel is non-empty; the post goes to the mapped channel with the answer |
| Runner.MapChannelRenamesOnlyTeamJpa | engine/scheduler/runner.py:111-118 | `team-jpa` maps to `general` and every other name to itself |
| Runner.ShippedPostsToGeneral | engine/scheduler/runner.py:69-120 | every shipped routine in a real run prompts with its own prompt and posts the answer to `general` |
| Bot.ChunkReply | engine/main.py:61-69 | the `while remaining` loop emits the placeholder edit and then one send per piece it cuts, and these are exactly the messages `post_to_discord` cuts the answer into |
| Bot.ReplyShape | engine/main.py:61-69 | the edit and the sends concatenate to the answer; a short answer is one edit; a long one edits 2000 characters and sends non-empty pieces of at most 2000 |
| Bot.RespondWithAgent | engine/main.py:50-73 | the placeholder is sent first; an error sends the apology with the message; an answer is edited in and continued in chunks |
| Bot.OnMessage | engine/main.py:96-116 | the agent only ever gets a non-empty prompt that does not start with whitespace |
| Bot.BotsIgnored | engine/main.py:99-100 | messages from the bot itself or any other bot get no reply and no command processing |
| Bot.AgentRunsIff | engine/main.py:102-114 | the agent runs exactly for a human message that addresses the bot and says something beyond the mention, with the cleaned text |
| Bot.Addressed | engine/main.py:102-106 | a message is for the bot when it mentions it, is a direct message, or is in `general` or `team-jpa`; `Bot.AgentRunsIff` states its use |
| Bot.Cleaned | engine/main.py:107 | the mention removed and the text stripped; `Bot.OnMessage` states that the agent only gets non-empty cleaned text |
| Bot.EmptyMentionAsksHow | engine/main.py:107-111 | an addressed message that is empty once cleaned gets "How can I help?" and skips command processing |
| Bot.CommandsProcessedIff | engine/main.py:99-116 | commands are processed for every human message except an empty mention |
| Bot.RunNow | engine/main.py:173-181 | `!run` sends the announcement and then one outcome message |
| Bot.RunNowDisabled | engine/main.py:173-181 | `!run` of a disabled routine reports completion without prompting the agent |
| Bot.RunNowErrorIff | engine/main.py:173-181 | `!run` reports an error exactly when the routine is unknown or the agent raises |
| Bot.SchedulerCheck | engine/main.py:119-144 | the bot's check is the scheduler's tick over the routine table and the module-level `last_run` |
| Hooks.FirstMatch | engine/hooks/core.py:88-98 | the scan gives none exactly when nothing matches, otherwise the first match in list order |
| Hooks.AutoApproveReads | engine/hooks/core.py:38-65 | the hook only ever allows, for PreToolUse, without a system message |
| Hooks.AutoApproveSafeWrites | engine/hooks/core.py:68-100 | the hook only ever allows, for PreToolUse, without a system message |
| Hooks.BlockDangerousCommands | engine/hooks/core.py:103-134 | the hook only ever denies, for PreToolUse, with the safety system message |
| Hooks.PermissionHooksOnlyPreToolUse | engine/hooks/core.py:49-50 | the three permission hooks return `{}` for any other event |
| Hooks.ReadsApprovedIff | engine/hooks/core.py:52-65 | reads are approved exactly for Read, Glob, Grep, WebFetch and WebSearch |
| Hooks.WritesApprovedIff | engine/hooks/core.py:82-100 | a write is approved exactly when it is a Write or Edit and some safe directory is a string prefix of the path |
| Hooks.PrefixWithoutSeparatorApproved | engine/hooks/core.py:88-90 | any path that merely starts with a safe directory's name is approved, with no separator check |
| Hooks.CommandsBlockedIff | engine/hooks/core.py:117-134 | a command is denied exactly when it is Bash and contains some dangerous pattern |
| Hooks.BlockNamesFirstPattern | engine/hooks/core.py:120-132 | the reason names the first dangerous pattern in list order that the command contains |
| Hooks.WriteNamesFirstDirectory | engine/hooks/core.py:88-98 | the reason names the first safe directory in list order that prefixes the path |
| Hooks.DecisionsOneSided | engine/hooks/core.py:58-132 | the approving hooks never deny and the blocking hook never allows |
| Hooks.ContainingPatternBlocked | engine/hooks/core.py:120-121 | any Bash command containing a dangerous pattern is blocked, harmless or not |
| Hooks.Truncate | engine/hooks/core.py:187-191 | short text is unchanged; longer text becomes `max_len` characters plus "..." |
| Hooks.TruncateKeepsStart | engine/hooks/core.py:187-191 | a truncation keeps the text's start and is at most `max_len + 3` long |
| Hooks.LogToolUse | engine/hooks/core.py:137-160 | the hook returns `{}` and logs a line exactly for PreToolUse and PostToolUse |
| Hooks.TrackProgress | engine/hooks/core.py:163-184 | the hook returns `{}` and logs a line exactly for SubagentStop and Stop |
| Hooks.ToolLogBounded | engine/hooks/core.py:150-153 | the logged tool input is cut to 200 characters plus the ellipsis |
| WorkHooks.ItemsOf | engine/hooks/autonomous.py:101-109 | the parser yields at most one item per line |
| WorkHooks.Numbered | engine/hooks/autonomous.py:115-120 | one numbered line per item |
| WorkHooks.PendingWork | engine/hooks/autonomous.py:95-112 | at most one item per line of the work file; `WorkHooks.NoFileNoWork` covers the missing and unreadable file |
| WorkHooks.FormatWorkItems | engine/hooks/autonomous.py:115-120 | every item appears in the formatted list |
| WorkHooks.CheckForMoreWork | engine/hooks/autonomous.py:20-57 | a message wraps the list between the autonomous-mode introduction and the closing instructions |
| WorkHooks.LogStopReason | engine/hooks/autonomous.py:60-86 | the hook returns `{}`, logs exactly on Stop, and appends to the timesheet exactly on Stop when it exists |
| WorkHooks.NoFileNoWork | engine/hooks/autonomous.py:95-112 | a missing or unreadable file yields no work |
| WorkHooks.CheckSpeaksIff | engine/hooks/autonomous.py:36-57 | the hook speaks exactly on Stop with open items, and then embeds the formatted list |
| WorkHooks.LineItem | engine/hooks/autonomous.py:104-107 | an item read from a line is stripped and has no newline when the line has none |
| WorkHooks.ItemsStripped | engine/hooks/autonomous.py:101-109 | every item neither starts nor ends with whitespace |
| WorkHooks.ItemsNoNewline | engine/hooks/autonomous.py:101-109 | items read from newline-free lines are newline-free |
| WorkHooks.NumberedLine | engine/hooks/autonomous.py:115-120 | line k opens with the number k+1 and ". " and ends with item k |
| WorkHooks.FormatReadsBack | engine/hooks/autonomous.py:115-120 | the formatted list splits back into the numbered lines, numbered 1..n, each ending with its item |
| WorkHooks.SummaryLinesOk | engine/autonomous/queue.py:216-254 | no summary line holds a newline or starts with whitespace, for newline-free task texts |
| WorkHooks.HeadItem | engine/hooks/autonomous.py:104-105 | on such a line, the stripped form starts with `- [ ]` exactly when the line does |
| WorkHooks.CountItems | engine/hooks/autonomous.py:101-109 | on such lines the parser finds one item per line starting with `- [ ]` |
| WorkHooks.SummaryParsesToLiveTasks | engine/hooks/autonomous.py:101-109 | reading the queue's summary back finds one item per in-progress task and one per pending task, and nothing for completed or failed ones |
| WorkHooks.StopHookSeesLiveTasks | engine/hooks/autonomous.py:36-57 | pointed at the queue's summary, the Stop hook keeps the agent going exactly while the queue has live tasks |
| Granola.SlugChars | engine/ingestors/granola.py:63-65 | a slug holds only ASCII digits, lower-case letters and hyphens |
| Granola.SlugOfKept | engine/ingestors/granola.py:63-65 | hyphenating and lower-casing the kept characters leaves only slug characters |
| Granola.Slugify | engine/ingestors/granola.py:63-65 | the slug recipe; `Granola.SlugChars` states what a slug holds |
| Granola.Paragraphs | engine/ingestors/granola.py:42-51 | at most one paragraph per segment |
| Granola.SpokenMembers | engine/ingestors/granola.py:46-49 | the kept segments are segments that say something |
| Granola.ParagraphsCount | engine/ingestors/granola.py:42-51 | one paragraph per segment with non-empty stripped text |
| Granola.ParagraphsOfSpoken | engine/ingestors/granola.py:42-51 | the paragraphs are those of the speaking segments, in segment order |
| Granola.SpeakerIsMeIff | engine/ingestors/granola.py:47-50 | a paragraph is by "Me" exactly when its segment came from the microphone, otherwise by "Them" |
| Granola.Speaker | engine/ingestors/granola.py:46-47 | "Me" for the microphone, otherwise "Them"; `Granola.SpeakerIsMeIff` states it for the paragraph |
| Granola.Paragraph | engine/ingestors/granola.py:48-50 | the `**speaker:** text` line of a segment; `Granola.ParagraphsOfSpoken` states which segments get one |
| Granola.Spoken | engine/ingestors/granola.py:45-49 | the segments whose stripped text is non-empty, in order; `Granola.SpokenMembers` states it |
| Granola.FormatTranscript | engine/ingestors/granola.py:42-51 | every paragraph appears in the formatted transcript |
| Granola.MeetingDate | engine/ingestors/granola.py:54-60 | the date is the first ten characters of the first timestamp when there is one, otherwise today |
| Granola.WithTranscripts | engine/ingestors/granola.py:28-37 | the filter keeps at most the documents there are |
| Granola.TitleOf | engine/ingestors/granola.py:33 | `doc.get('title', 'Untitled')` (also at granola.py:80); `Granola.WithTranscriptsMembers` states that each kept meeting carries it |
| Granola.WithTranscriptsMembers | engine/ingestors/granola.py:28-37 | exactly the documents with a non-empty transcript are kept: every kept meeting is one of the documents, with its title, segment count and transcript, and every such document is kept |
| Granola.MeetingsSorted | engine/ingestors/granola.py:22-39 | the meetings are the kept documents, each with its document's title, sorted by segment count, most first; meetings with equal counts keep document order |
| Granola.MeetingsWithTranscripts | engine/ingestors/granola.py:22-39 | `get_meetings_with_transcripts`; `Granola.MeetingsSorted` states its order and contents |
| Granola.FindDoc | engine/ingestors/granola.py:72-75 | the lookup finds a document with the id, or none exactly when no document has it |
| Granola.IngestMeeting | engine/ingestors/granola.py:68-103 | ingesting fails exactly for an unknown id |
| Granola.IngestUnknown | engine/ingestors/granola.py:74-75 | an unknown id raises with a message naming it |
| Granola.IngestFileName | engine/ingestors/granola.py:79-99 | a known meeting is saved as `<date>-<slug>.md` with a slug of slug characters only |
| Granola.IngestHeading | engine/ingestors/granola.py:85-95 | the saved text opens with the title as a level-one heading |
| Granola.MeetingMarkdown | engine/ingestors/granola.py:85-95 | the saved Markdown opens with the title heading and holds the whole formatted transcript |
| Granola.MeetingBody | engine/ingestors/granola.py:86-95 | the text after the title: the date and segment-count lines, the transcript heading, the formatted transcript and a final newline; `Granola.MeetingMarkdown` states what the file holds |
| Granola.BodyHead | engine/ingestors/granola.py:86-93 | the date and segment-count lines and the transcript heading |
| Scraper.Slugify | engine/tools/scraper.py:19-21 | a slug is non-empty and holds only `[a-z0-9-]` |
| Scraper.HyphenatedChars | engine/tools/scraper.py:21 | spaces become hyphens before anything is dropped |
| Scraper.SlugIsIndexIff | engine/tools/scraper.py:21 | the slug is "index" exactly when nothing survives or what survives spells "index" |
| Scraper.SlugOfSlugChars | engine/tools/scraper.py:21 | non-empty text of slug characters is its own slug |
| Scraper.SlugifyIdempotent | engine/tools/scraper.py:21 | slugifying a slug changes nothing |
| Scraper.FileSlug | engine/tools/scraper.py:54-55 | the file slug is non-empty and holds only slug characters |
| Scraper.PageAtBaseIsIndex | engine/tools/scraper.py:54-55 | the page at the base URL itself is saved as `index.md` |
| Scraper.SingleSegmentSlug | engine/tools/scraper.py:55 | a path without slashes is its own last segment |
| Scraper.LastSegmentAfterSlash | engine/tools/scraper.py:55 | the last segment of `dir/name` is `name` |
| Scraper.LastSegment | engine/tools/scraper.py:54-55 | `split("/")[-1]`; `Scraper.SingleSegmentSlug` and `Scraper.LastSegmentAfterSlash` state it |
| Scraper.WithTitleHeads | engine/tools/scraper.py:58-59 | non-empty Markdown then opens with a heading and keeps its text at the end; empty Markdown stays empty; headed Markdown is unchanged |
| Scraper.WithTitleIdempotent | engine/tools/scraper.py:58-59 | framing a page twice frames it once |
| Scraper.WithTitle | engine/tools/scraper.py:58-59 | the title framing; `Scraper.WithTitleHeads` states its effect |
| Scraper.SavePage | engine/tools/scraper.py:50-63 | a page is saved to a `.md` file, with empty text when it has no Markdown |
| Scraper.SavePages | engine/tools/scraper.py:50-63 | one saved file per crawled page, in crawl order |
| Scraper.NoMetadataIsIndex | engine/tools/scraper.py:51-55 | a page without metadata is saved as `index.md` |
| Vault.Store.constructor | engine/tools/vault.py:7 | the store holds the given files |
| Vault.Store.ReadFile | engine/tools/vault.py:10-15 | an existing file reads as its content and a missing file as "" |
| Vault.Store.WriteFile | engine/tools/vault.py:18-23 | the file then holds exactly the content and no other file changes |
| Vault.Store.AppendFile | engine/tools/vault.py:26-32 | the file then holds the old text, a newline and the content, a missing file counting as ""; no other file changes |
| Vault.AppendAddsLines | engine/tools/vault.py:30-31 | an append keeps the old lines and adds the content's lines after them |
| Vault.AppendToMissingLeadsWithBlankLine | engine/tools/vault.py:30-31 | appending to a missing file leaves an empty first line |
| Vault.Lines | engine/tools/vault.py:56 | splitting on newlines gives at least one line |
| Vault.WindowLines | engine/tools/vault.py:64-66 | a snippet window is one to three consecutive lines holding the matching line |
| Vault.SnippetsFrom | engine/tools/vault.py:60-69 | the inner loop collects at most the snippets it has room for |
| Vault.Snippets | engine/tools/vault.py:60-69 | a file's snippets, at most two; `Vault.SnippetsOfMatchingLines` and `Vault.SnippetsAreFirstWindows` state which |
| Vault.TitleOf | engine/tools/vault.py:57 | the first line with "# " removed (also at vault.py:107) |
| Vault.Entry | engine/tools/vault.py:71-75 | a matched file's result: title, file name and snippets; `Vault.Collect` states it for the loop |
| Vault.SnippetsAreFirstWindows | engine/tools/vault.py:60-69 | the early-exit loop keeps exactly the first two windows |
| Vault.WindowsMention | engine/tools/vault.py:61-66 | every window belongs to a line mentioning the query |
| Vault.SnippetsOfMatchingLines | engine/tools/vault.py:60-69 | a file gives at most two snippets, each the window of a matching line and containing it |
| Vault.Entries | engine/tools/vault.py:52-75 | at most one entry per file |
| Vault.FoundFrom | engine/tools/vault.py:52-78 | the outer search loop; `Vault.FoundIsFirstEntries` and `Vault.SearchResultCount` state what it finds |
| Vault.FoundIsFirstEntries | engine/tools/vault.py:52-78 | the results are the first `max(limit, 1)` matching files, in listing order |
| Vault.EntriesEmptyIff | engine/tools/vault.py:52-54 | there are no entries exactly when no file mentions the query |
| Vault.SearchResultCount | engine/tools/vault.py:52-81 | at most `limit` results for a positive limit, one for a smaller limit when something matches, none exactly when nothing matches |
| Vault.OutputLines | engine/tools/vault.py:83-87 | at least one output line per result |
| Vault.Block | engine/tools/vault.py:84-87 | one result's heading line, then one `>` line per snippet; `Vault.OutputHead` states that the output opens with it |
| Vault.MatchingSnippets | engine/tools/vault.py:60-69 | the inner loop collects exactly the file's snippets |
| Vault.CollectResults | engine/tools/vault.py:49-78 | the outer loop collects exactly the first matching files' entries up to the limit |
| Vault.Collect | engine/tools/vault.py:56-75 | a matched file's entry is its title, its name and its snippets |
| Vault.FoundFromAt | engine/tools/vault.py:52-78 | one step of the outer loop: a matching file adds its entry and stops at the limit |
| Vault.Render | engine/tools/vault.py:83-87 | the output loop writes the heading line of each result and then its snippets |
| Vault.SearchMeetings | engine/tools/vault.py:43-89 | the returned text is that of the search over the listing |
| Vault.SearchText | engine/tools/vault.py:43-89 | the text of `search_meetings`; `Vault.SearchTextCases` states its three cases |
| Vault.SearchTextCases | engine/tools/vault.py:45-89 | a missing directory gives "(no meetings found)", no match gives the message naming the query, otherwise the output opens with the first result's heading |
| Vault.OutputHead | engine/tools/vault.py:84-85 | the output opens with the first result's heading line |
| Vault.Preview | engine/tools/vault.py:108 | content of at most 500 characters is the preview; longer content gives its first 500 characters plus "..." |
| Vault.RecentBlock | engine/tools/vault.py:110 | one recent meeting: title, file name and preview |
| Vault.PreviewIsTruncation | engine/tools/vault.py:108 | the preview is the hooks' truncation at 500 characters |
| Vault.NewestFirstIsPreorder | engine/tools/vault.py:99 | descending name order is a total preorder |
| Vault.ChosenAreNewest | engine/tools/vault.py:99 | the shown files are in descending name order, are files of the listing, number `limit` when there are enough, and the first has the greatest name |
| Vault.Chosen | engine/tools/vault.py:99 | the files `get_recent_meetings` shows; `Vault.ChosenAreNewest` states which |
| Vault.RecentMeetings | engine/tools/vault.py:92-111 | the text of `get_recent_meetings`; `Vault.EmptyDirectoryGivesNothing` states the empty cases |
| Vault.EmptyDirectoryGivesNothing | engine/tools/vault.py:92-111 | an existing empty directory gives "" and a missing one gives "(no meetings found)" |

## Findings

| source | as written | input that shows it | evidently intended | confidence | as-written member | corrected member |
|---|---|---|---|---|---|---|
| engine/autonomous/queue.py:115, 151-193 | ids are `task_<second>_<len(tasks)>`, which can repeat after `clear_completed`; `start`, `complete` and `fail` rewrite the first stored task with the id | the store `[b, c]` with `b` completed, `c` pending and `b.id == c.id` (reached by `Daemon.ShadowedAfterReuse`): `get_next` gives `c`, but processing it rewrites `b`, so `c` stays pending and the daemon processes it on every pass | every task has its own id, so processing the task `get_next` chose finishes that task and the daemon drains the queue | not executed | Daemon.ShadowedRun | Daemon.RunDrains |

## Left out

- File and JSON persistence, directory creation and the glob order are left out. The queue's store is a task list with a `corrupt` flag. The vault is a map. A meetings directory is its listing, in listing order.
- Concurrency is left out: the asyncio event loop, concurrent writers of the queue file, and the daemon and scheduler running side by side.
- Signal handlers and `asyncio.sleep` are left out. A signal is part of a `Step`. A sleep is a recorded duration.
- Clocks and time zones are parameters: `datetime.now`, `strftime`, `isoformat`.
- `Queue.WorkQueue.Add` takes one clock reading for both the task's `created_at` and the mirror's "Last updated" line; the source reads the clock twice (`__post_init__` at queue.py:50-51 and the mirror at queue.py:221), so the two may differ by the time between the reads.
- JSON `null` values are not modelled. A dictionary value is either absent (its default is used) or a string. The source raises on a present `null` where the model does not. For example, a null `title` reaches `slugify` as `None` and raises `TypeError` (granola.py:65, 80-82), where the model uses "Untitled"; a null segment `text` (granola.py:48) or hook `file_path` (hooks/core.py:86-90) raises `AttributeError`. The crawl's page metadata is the same: `Scraper.Metadata` holds strings, so a `None` `source_url` (scraper.py:49), which raises `AttributeError` at scraper.py:54, and a `None` `title` (scraper.py:51), which the source writes as the heading "# None" (scraper.py:59), are not modelled.
- `croniter` is the parameter `due`.
- The Claude agent SDK is a parameter (`string -> Result<string>` in the runner, an `AgentOutcome` in the daemon). So are the Discord client, the Slack client and the Firecrawl crawl.
- Logging output is left out, except the lines the hooks write and the daemon's shutdown report.
- `isalnum` and `lower` are modelled on ASCII only, so non-ASCII letters are not modelled. `isspace` (`Text.IsSpace`) is Python's full whitespace set, including the Unicode spaces.
- `Daemon.Pass`: a shutdown signal that arrives during the sleep between tasks is modelled as arriving before it. That sleep is then not recorded in `naps`, whereas the daemon would finish it first.
- `Hooks.TrackProgress` and `WorkHooks.LogStopReason` take `stop_hook_active` in its printed form. The `False` that `input_data.get` supplies for a missing key is left to the caller.
- A loop error in the daemon is modelled as raised at the start of a pass, before the queue changes. A fault raised after the queue has changed is not modelled.
- `Daemon.AutonomousDaemon.ProcessTask` requires the task's id to be in the queue. `_process_task` is only called with a task `get_next` just read, so an absent id is not modelled.
- `Runner.PostToDiscord` does not model waiting for the client's ready event or closing the client.
- In main.py, `on_ready`, `ping`, `status`, `list_routines`, `before_scheduler` and `main` are left out: they are logging, presence and SDK plumbing.
- In vault.py, `list_files` is left out: it is a glob over the file system.
- In granola.py, `load_cache`, `list_meetings` and the file write of `ingest_meeting` are left out. The cache is given as documents and transcripts.
- In scraper.py, the crawl call and the directory creation of `scrape_docs` are left out. A crawl is its list of pages.
- `Scheduler.MinuteLedger.Tick` records the fired names rather than running them: a routine's run cannot change `last_run`, and its exceptions are swallowed.
- `Routines.ShippedRoutines` and the other table lemmas are stated for `Table(p)` with any prompt texts `p`, not only `ShippedPrompts`.
- The Markdown mirror is recorded as `Mirror(tasks, at)`. Its text is `Mirror.Text()` rather than a string stored in the state.
