# Game server control bot: a Dafny model of its bookkeeping

`game_server_bot.py` is a Discord bot that starts and stops a game server from one
control channel. It keeps three persistent messages in that channel: the button panel,
the status message and the recent-activity history. It remembers their ids in files so
it can find them again after a restart. It also keeps a five-entry command history and
a single automated-shutdown task that stops the server twelve hours after it was started.
Its `clear_channel` command purges every other message from the channel.

This project models that bookkeeping. Every call into Discord, the process list, the shell
and the clock is given as an outcome parameter (an "oracle"), so each handler becomes a
deterministic transition.

- `BotTypes` (`bot_types.dfy`): the three message slots, the configuration constants, and
  `IsSet`, Python's truthiness of a message id (`None` and `0` both mean "no message").
- `StoredIds` (`stored_ids.dfy`): how an id file is read back. This is `str.strip()` with
  Python's whitespace set, then `int()` with its optional sign and `_` digit separators.
  `str(n)` is what the bot writes. The module proves that reading back what was written
  gives the same id.
- `PersistentMessages` (`persistent_messages.dfy`): `update_persistent_message` as the
  function `Upsert` over fetch, edit and send outcomes, and its effect on the id registry
  and the id files (`Refresh`). Also the startup loader (`LoadSlot`, `LoadInto`,
  `LoadSlots`). The invariant `Consistent` says every id in memory is what its file reads
  back as.
- `CommandHistory` (`command_history.dfy`): the history deque (`maxlen=5`) and the text of
  the history message.
- `ServerStatus` (`server_status.dfy`): the lines of the status message and the
  time-remaining `divmod`.
- `ShutdownTimer` (`shutdown_timer.dfy`): `bot.shutdown_task` as a slot indexing a table of
  every shutdown task created. `SingleFlight` says only the slot's task may still be pending.
- `ChannelPurge` (`channel_purge.dfy`): the protected-id set, the scan of the channel
  history (`Purge`, a loop), and what `clear_channel` reports.
- `ServerControl` (`server_control.dfy`): start, stop, the automated shutdown, the button
  and command logging, and `on_ready`, as functions over `BotState`. Lemmas show they keep
  the invariant `Inv`: ids agree with files, the history holds at most 5 entries, and at
  most one shutdown task is pending.
- `GameServerBot` (`game_server_bot.dfy`): the `bot` object as a class whose fields are
  the attributes the handlers assign. Each handler is a method that updates those fields
  in place. Its contract states the new state as the `ServerControl` transition of the old
  state, and that `Valid()` (which is `Inv`) is kept.

## Model

| member | source | states |
|---|---|---|
| BotTypes.SlotIds.Set | game_server_bot.py:137 | `setattr` on one slot's id attribute sets that slot and leaves the other two slots' ids alone |
| StoredIds.StripLeading | game_server_bot.py:408 | the leading part of `strip()`: the result is a suffix, everything removed is whitespace, and the result does not start with whitespace |
| StoredIds.StripTrailing | game_server_bot.py:408 | the trailing part of `strip()`: the result is a prefix, everything removed is whitespace, and the result does not end with whitespace |
| StoredIds.ParseInt | game_server_bot.py:411 | `int()` on stripped text: accepted text ends in a digit, holds nothing but digits, underscores and one leading sign (so no whitespace and no letters), only a leading minus gives a negative value, and a minus applies to the unsigned reading of the rest |
| StoredIds.DigitsParse | game_server_bot.py:411 | `int()` accepts every non-empty run of plain digits, as a non-negative number |
| StoredIds.ReadStoredId | game_server_bot.py:408-415 | a file counts as empty (`if message_id_str` fails) exactly when all of its text is whitespace |
| StoredIds.NatDigitsReadBack | game_server_bot.py:157 | the decimal digits `str()` writes for a non-negative id form a digit run, with no leading zero, that `int()` reads back as that id |
| StoredIds.DecimalString | game_server_bot.py:157 | `str(id)`: a minus sign exactly for a negative id, then only digits, with no leading zero |
| StoredIds.StripDecimalString | game_server_bot.py:157 | the text `str(id)` writes has no surrounding whitespace, so `strip()` leaves it unchanged |
| StoredIds.StoredIdRoundTrip | game_server_bot.py:157 | for every integer id, the loader reads the file text `str(id)` back as exactly that id |
| PersistentMessages.Upsert | game_server_bot.py:126-169 | edits in place (nothing sent, id kept) exactly when the id is set, the fetch succeeds and the edit succeeds. Otherwise one send is attempted and the sent message's id becomes the slot's id. An id the call did not confirm never survives it. A failed send leaves no usable id. |
| PersistentMessages.Refresh | game_server_bot.py:126-169 | the slot's id becomes the id `Upsert` leaves. The slot's file is rewritten with `str(id)` exactly when a new message was sent, and no file changes otherwise. The other slots' ids and files are unchanged. |
| PersistentMessages.LiveEditKeepsRegistry | game_server_bot.py:132-148 | an upsert whose stored message is fetched and edited sends nothing and leaves every id and file as it was |
| PersistentMessages.RefreshKeepsConsistent | game_server_bot.py:155-157 | however an upsert ends, every id in memory is still what its file reads back as |
| PersistentMessages.RefreshTwiceWithLiveMessage | game_server_bot.py:132-148 | two upserts on a live message both edit in place and leave ids and files exactly as they were |
| PersistentMessages.StaleIdReplaced | game_server_bot.py:135-143 | a stored id whose fetch fails (not found, forbidden or any other error) is replaced by the id the send returns, and the file then reads back as that new id |
| PersistentMessages.LoadSlot | game_server_bot.py:406-417 | with no file the id is untouched. A file is deleted exactly when its stripped text is non-empty and not an integer. With a file, the id is set exactly when the text holds an integer, and then it is that integer. |
| PersistentMessages.LoadInto | game_server_bot.py:406-417 | loading one slot leaves the other slots' ids and files alone |
| PersistentMessages.LoadIntoCases | game_server_bot.py:406-417 | loading one slot, case by case: no file, blank file, integer file, malformed file (which is removed) |
| PersistentMessages.LoadIntoKeepsConsistent | game_server_bot.py:406-417 | loading a slot keeps ids and files in agreement |
| PersistentMessages.LoadSlotsKeepsConsistent | game_server_bot.py:401-417 | loading any sequence of slots keeps ids and files in agreement |
| PersistentMessages.Fresh | game_server_bot.py:71-73 | a new process holds no ids, so its registry is consistent with whatever files exist |
| PersistentMessages.LoadIntoRecovers | game_server_bot.py:406-411 | loading a slot whose file holds an integer sets exactly that id |
| PersistentMessages.RestartRecoversSlot | game_server_bot.py:401-417 | after a restart, the loader restores the id a consistent registry held in any one slot, since loading the other slots leaves that slot's id and file alone |
| PersistentMessages.RestartRecoversIds | game_server_bot.py:401-417 | after a restart, loading the files in the order panel, history, status restores every id the previous process held |
| CommandHistory.Append | game_server_bot.py:74 | appending to the deque keeps at most 5 entries: the newest 5 of the old entries and the new one taken together, in order |
| CommandHistory.AppendAll | game_server_bot.py:74 | any number of appends keeps the history within its capacity |
| CommandHistory.NewestOfNewest | game_server_bot.py:74 | trimming to 5 and then appending gives the same result as appending to the full record and then trimming |
| CommandHistory.AppendAllKeepsNewest | game_server_bot.py:74 | after any sequence of appends, the history is exactly the newest 5 of everything appended, oldest first |
| CommandHistory.SixthAppendEvictsFirst | game_server_bot.py:58 | the sixth append drops the first entry and keeps the other five in insertion order |
| CommandHistory.SplitJoin | game_server_bot.py:286 | joining lines that contain no newline with `"\n"` and splitting the result on newlines gives back the lines |
| CommandHistory.RenderHistory | game_server_bot.py:284-287 | the history message reads, line by line, as the header and then either "No activity yet." or one line per entry in history order, provided no entry contains a newline |
| ServerStatus.HoursMinutes | game_server_bot.py:110-111 | minutes lie in 0..59, and the hours and minutes bracket the remaining seconds to the minute, including when that time is negative |
| ServerStatus.HoursMinutesUnique | game_server_bot.py:110-111 | the displayed hours and minutes are the only such pair for that remaining time |
| ServerStatus.StatusLines | game_server_bot.py:99-124 | a stopped server shows two lines: "Stopped" and the help hint. A running server with a known start shows the start, the shutdown due 12 hours later, and the time left to it. A running server with an unknown start shows three unknowns. |
| ShutdownTimer.CancelSlotTask | game_server_bot.py:180-181 | only the slot's task is cancelled, and only if it is still pending; every other task keeps its state |
| ShutdownTimer.Finish | game_server_bot.py:249-266 | a task that runs to its end is no longer pending, and no other task changes |
| ShutdownTimer.SingleFlightCount | game_server_bot.py:180-183 | under the single-flight invariant, the number of pending tasks is 1 if the slot's task is pending and 0 otherwise |
| ShutdownTimer.Reschedule | game_server_bot.py:180-183 | the slot holds one new pending task; of the earlier tasks only the slot's pending one changes, to cancelled |
| ShutdownTimer.RescheduleLeavesOnePending | game_server_bot.py:180-183 | cancelling the slot's task before installing a new one leaves exactly one pending task, the one in the slot |
| ShutdownTimer.CancelAndClear | game_server_bot.py:236-239 | the slot ends empty; only the slot's pending task changes, to cancelled |
| ShutdownTimer.CancelAndClearLeavesNonePending | game_server_bot.py:236-239 | cancelling and emptying the slot leaves no pending task |
| ShutdownTimer.FinishKeepsSingleFlight | game_server_bot.py:249-266 | a task ending keeps the single-flight invariant |
| ChannelPurge.KeepSet | game_server_bot.py:623-629 | the protected set holds exactly the slot ids that are set plus the invoking command's message id |
| ChannelPurge.Purge | game_server_bot.py:636-650 | the scan queues exactly the ids `BulkQueue` names and deletes exactly the ids `OldDeleted` names, both in history order |
| ChannelPurge.BulkQueueExact | game_server_bot.py:638-640 | an id is queued for bulk deletion if and only if it is unprotected and some message carrying it is under 14 days old |
| ChannelPurge.OldDeletedExact | game_server_bot.py:638-647 | an id is deleted individually if and only if it is unprotected and some message carrying it is 14 days or older and its delete succeeded |
| ChannelPurge.PurgeSparesProtected | game_server_bot.py:638 | a protected id is neither queued nor deleted |
| ChannelPurge.PurgePlacesOnce | game_server_bot.py:638-650 | with distinct ids, each unprotected message goes to exactly one place: under 14 days to the bulk list, otherwise to an individual delete that counts only if it succeeds |
| ChannelPurge.ClearOutcome | game_server_bot.py:614-674 | outside the control channel nothing is deleted. In it, the run reports success exactly when the bulk list is empty or the bulk call succeeds. A successful run reports the bulk count, the individual count and their sum. A failed bulk call leaves only the individual deletions. |
| ChannelPurge.ClearOutcomeSparesProtected | game_server_bot.py:623-655 | whatever the channel holds and however the deletes end, no protected id is deleted |
| ServerControl.Initial | game_server_bot.py:71-76 | the state of a fresh process satisfies the invariant |
| ServerControl.RefreshSlotKeepsInv | game_server_bot.py:126-169 | an upsert keeps the invariant |
| ServerControl.StartServer | game_server_bot.py:172-209 | starting never touches the history and keeps the task slot within the task table. The user gets "timer reset" exactly when the server was already running and that reply went out (:185), "started" exactly for a confirmed launch whose reply went out (:196), "failed to confirm" exactly for an unconfirmed launch whose reply went out (:203), and the error reply exactly when the launch or its reply raised and the error reply went out (:207-209). The status message is refreshed exactly when a reply of the normal path went out (:186, :205); a reply that raises skips it. |
| ServerControl.StartKeepsInv | game_server_bot.py:172-209 | starting keeps the invariant, with at most one pending shutdown task |
| ServerControl.StartConfirmedResetsTimer | game_server_bot.py:178-201 | when the server was already running, or its start is confirmed, the start time is set. If it was already running, or the confirmation reply went out, exactly one task is then pending: a new one in the slot, with every earlier task no longer pending. A confirmed start whose reply raised (:196, then :207-209) keeps the old tasks. |
| ServerControl.StartUnconfirmedKeepsTimer | game_server_bot.py:202-209 | an unconfirmed start, or one whose launch raised, leaves the start time and the tasks unchanged |
| ServerControl.StartAll | game_server_bot.py:172-209 | a sequence of starts keeps the state well formed |
| ServerControl.RepeatedStartsKeepOneTimer | game_server_bot.py:178-184 | repeated starts while the server runs never stack timers: exactly one task is pending after them |
| ServerControl.StopServer | game_server_bot.py:211-243 | stopping never touches the history and keeps the task slot within the task table. The user gets "not running" exactly when the server was stopped and that reply went out (:216), "stopped" or "failed to confirm" exactly when the stop command succeeded, the reply went out and the server is gone or still there (:229-232), and the error reply exactly when the command succeeded, its reply raised and the error reply went out (:241-243). The status message is refreshed exactly when a reply of the normal path went out (:217, :234); a reply that raises skips it. |
| ServerControl.StopCommandFails | game_server_bot.py:220-243 | a stop command that fails changes nothing and raises: the `except` branch at :241-243 uses `response_target`, which :225 never bound |
| ServerControl.StopKeepsInv | game_server_bot.py:211-243 | stopping keeps the invariant |
| ServerControl.StopWhenNotRunning | game_server_bot.py:214-218 | when the server is not running, stop issues no stop command. It refreshes the status message if its reply went out, and otherwise raises with no change. The start time and the shutdown tasks are unchanged. |
| ServerControl.StopWhenRunning | game_server_bot.py:220-243 | when the server runs and the stop command succeeds, the start time is cleared only if the stop is confirmed. Once the reply has gone out, the slot ends empty with no pending task whether or not the stop is confirmed. A reply that raises (:230 or :232, then :241-243) leaves the tasks as they were. The status message is refreshed exactly when the reply went out (:234). |
| ServerControl.AutoShutdown | game_server_bot.py:249-266 | the automated shutdown keeps the state well formed |
| ServerControl.AutoShutdownKeepsInv | game_server_bot.py:249-266 | the automated shutdown keeps the invariant |
| ServerControl.AutoShutdownWhileRunning | game_server_bot.py:253-260 | if the server still runs, exactly one entry, "Automated Shutdown" by "System", is appended. However the stop path ends, no task is left pending. The slot is emptied exactly when the stop command succeeded and its reply went out, and otherwise still names the finished task. After the entry and the history refresh, the stop path runs: the start time and the messages end as `StopServer` leaves them, so a confirmed stop clears the start time (:229) and a reply that went out refreshes the status (:234). |
| ServerControl.AutoShutdownWhenStopped | game_server_bot.py:261-262 | if the server has stopped, nothing changes except that the task ends |
| ServerControl.LogCommand | game_server_bot.py:504-510 | a recognised command in the control channel appends exactly its entry to the history and refreshes the history message; the start time, the shutdown tasks and the other messages stay as they were |
| ServerControl.LogCommandKeepsInv | game_server_bot.py:504-510 | logging a command keeps the invariant |
| ServerControl.PressStart | game_server_bot.py:354-371 | the Start button gives the start path's reply, start time and shutdown tasks. It appends one "Start Server (Button)" entry for the user and refreshes the history message, unless the start path raised, in which case only the start path's changes remain |
| ServerControl.PressStop | game_server_bot.py:354-375 | the Stop button gives the stop path's reply, start time and shutdown tasks. It appends one "Stop Server (Button)" entry and refreshes the history message, unless the stop path raised, in which case only the stop path's changes remain |
| ServerControl.PressStartKeepsInv | game_server_bot.py:354-371 | the Start button keeps the invariant |
| ServerControl.PressStopKeepsInv | game_server_bot.py:354-375 | the Stop button keeps the invariant |
| ServerControl.ReadyCheck | game_server_bot.py:447-460 | the startup liveness check changes neither the message registry nor the history |
| ServerControl.ReadyCheckOutcome | game_server_bot.py:447-460 | the startup check keeps the invariant. A running server, with the channel found and an empty slot, gets exactly one pending task. Scheduling that task also records the start time (:451). A running server with no channel, or whose slot still names a task, even a finished one (:450 tests for `None`), is left as it was. A stopped server is left with no start time and no pending task, and keeps its tasks when the slot's task was not pending. |
| ServerControl.Ready | game_server_bot.py:378-460 | `on_ready` after the purge keeps the state well formed |
| ServerControl.ReadyKeepsInv | game_server_bot.py:378-460 | `on_ready` keeps the invariant |
| GameServerBot.Bot.constructor | game_server_bot.py:71-76 | the bot starts in the initial state with the files on disk, and satisfies the invariant |
| GameServerBot.Bot.UpdatePersistentMessage | game_server_bot.py:126-169 | updates the slot's id and file in place, exactly as `Refresh` says, keeps the invariant, and returns the action `Upsert` names |
| GameServerBot.Bot.LoadIdFile | game_server_bot.py:406-417 | one iteration of the loader, performed in place as `LoadInto` says |
| GameServerBot.Bot.LoadPersistedIds | game_server_bot.py:401-417 | the loader loop over panel, history and status, performed in place as `LoadSlots` says, keeping the invariant |
| GameServerBot.Bot.RecordCommand | game_server_bot.py:254-258 | the deque append, in place, as `Append` says |
| GameServerBot.Bot.LogCommand | game_server_bot.py:504-510 | logs the command and refreshes the history message, as `ServerControl.LogCommand` says |
| GameServerBot.Bot.CancelPendingShutdown | game_server_bot.py:180-181 | cancels the slot's task if it is still pending, as `CancelSlotTask` says |
| GameServerBot.Bot.ResetShutdownTimer | game_server_bot.py:180-183 | cancels, then installs a new task in the slot, as `Reschedule` says |
| GameServerBot.Bot.StartGameServer | game_server_bot.py:172-209 | performs the start in place and returns the reply, as `StartServer` says, keeping the invariant |
| GameServerBot.Bot.StopGameServer | game_server_bot.py:211-243 | performs the stop in place and returns the reply, as `StopServer` says, keeping the invariant |
| GameServerBot.Bot.ShutdownTimerFires | game_server_bot.py:249-266 | the shutdown task's body after its delay, as `AutoShutdown` says, keeping the invariant |
| GameServerBot.Bot.PressStartButton | game_server_bot.py:354-371 | the Start button's callback, as `PressStart` says: a start that raised is not logged |
| GameServerBot.Bot.PressStopButton | game_server_bot.py:354-375 | the Stop button's callback, as `PressStop` says: a stop that raised is not logged |
| GameServerBot.Bot.ClearChannel | game_server_bot.py:613-674 | changes nothing in the bot. It reports and deletes as `ClearOutcome` says. No set slot id and no protected id is ever deleted, and a successful report's total is the sum of its two counts. |
| GameServerBot.Bot.CheckServerOnReady | game_server_bot.py:447-460 | the startup liveness check, performed in place as `ReadyCheck` says |
| GameServerBot.Bot.OnReady | game_server_bot.py:378-460 | the startup purge runs with the ids held before loading and no invoking message. Then come the loader, the three upserts and the check, as `Ready` says, keeping the invariant. |

## Left out

- Discord itself is not modelled. The outcome of each remote call (`fetch_message`, `edit`, `send`, `delete`, `delete_messages`) is a parameter. So is the channel history, given as a sequence.
- `ServerControlView.interaction_check`, `on_command_error`, `!serverhelp` and its auto-deletion are remote I/O and not modelled.
- The `!panel` and `!serverstatus` commands are not modelled separately: each is a composition of the upserts modelled here.
- The process check (`check_server_process`, :80-93) is not modelled. The start and stop shell commands are not either. Liveness before and after each command, whether launching the start command raised, and whether the stop command succeeded are all parameters.
- Whether each reply of the start, stop and automated-shutdown paths goes out is a parameter (`replyOk`, and `errorReplyOk` for the reply in an `except` branch). Whether a given target accepts `ephemeral=` is not modelled: the automated shutdown replies through the bare channel (:260), and the caller's choice of `replyOk` stands for that outcome.
- `asyncio` is not modelled: the sleeps, the 12-hour wait and the race between overlapping starts. A shutdown task's cancellation is modelled as an immediate change of its state (`Cancelled`), and `done()` as "not pending".
- Datetime handling is not modelled: timezones, `localize`, `strftime` and the float `total_seconds()` are out. Times are integer seconds, message ages are whole days, and timestamps are opaque strings.
- HoursMinutes: `int()` on the float `total_seconds()` truncates toward zero. That differs from flooring for a negative remaining time with a fraction of a second. The model starts from integer seconds.
- Logging is not modelled. Neither is `bot.run` and login handling.
- The text of replies to the user is not modelled, only which reply start and stop give.
- File writes are assumed to succeed. A failing `open(..., "w")` after a successful send would leave the id in memory without a file.
- ReadStoredId: `int()` also accepts non-ASCII Unicode digits, and it refuses texts longer than 4300 digits. The model accepts ASCII digits only and has no length limit.
- ClearOutcome: the replies of `clear_channel` (:617, :621, :658, :670, :674) are assumed to go out. In particular, the notice at :621 sits outside the `try`, so if it raises the command ends before any message is deleted; the model always purges in the control channel.
- ClearOutcome: a failed history fetch is not modelled. The limits of `delete_messages` are not modelled either: more than 100 messages, messages older than 14 days by the time of the call, and a single message. The outcome of the bulk call is one parameter.
- Purge returns the ids it deleted, where the source keeps only a count. The reported counts are the lengths of those sequences.
- StopServer: when the stop command fails (`check=True` raises), the handler at :241-243 replies through a name that was never bound, so it raises in turn. The model makes this path change nothing and return `StopRaised`. The button handler then logs no entry, and the automated shutdown only ends its task.
- StartServer: a start confirmed at :194 whose reply at :196 raises has its start time set but no new shutdown task, because :197-200 are skipped; an earlier pending task stays and fires at its old deadline. The model keeps this path as written and states it in `StartConfirmedResetsTimer`.
- OnReady: the startup purge runs before the id files are read. In a fresh process its protected set is therefore empty, and the panel, status and history messages of the previous run are purged too. The model follows the code here.
