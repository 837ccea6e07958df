/** The bot object: the attributes the handlers update in place (`current_*_message_id`,
    `command_history_list`, `server_start_time`, `shutdown_task`), the id files on disk,
    and the handlers as methods. Each method is proved to perform exactly the transition
    of `ServerControl`, whose lemmas carry the properties. */
module GameServerBot {
  import opened BotTypes
  import opened StoredIds
  import opened PersistentMessages
  import opened CommandHistory
  import opened ShutdownTimer
  import opened ChannelPurge
  import opened ServerControl

  class Bot {
    var ids: SlotIds
    /** The id files that exist, with their text. */
    var files: map<Slot, string>
    var history: seq<HistoryEntry>
    var startTime: Option<int>
    /** `bot.shutdown_task`, as an index into `tasks`. */
    var shutdownTask: Option<nat>
    /** Every shutdown task handed to the event loop so far. */
    var tasks: seq<TaskState>

    function State(): BotState
      reads this
    {
      BotState(Registry(ids, files), history, startTime, Timer(shutdownTask, tasks))
    }

    ghost predicate Valid()
      reads this
    {
      Inv(State())
    }

    constructor (storedFiles: map<Slot, string>)
      ensures Valid() && State() == Initial(storedFiles)
    {
      ids := NoIds;
      files := storedFiles;
      history := [];
      startTime := None;
      shutdownTask := None;
      tasks := [];
    }

    /** `update_persistent_message` for one slot. */
    method UpdatePersistentMessage(slot: Slot, o: UpsertOracle) returns (action: UpsertAction)
      requires Valid()
      modifies this
      ensures Valid()
      ensures State() == RefreshSlot(old(State()), slot, o)
      ensures action == Upsert(old(ids.Get(slot)), o).action
    {
      ghost var s0 := State();
      ghost var u := Upsert(ids.Get(slot), o);
      var messageId := ids.Get(slot);
      var existing := false;
      if IsSet(messageId) {
        if o.fetch == Fetched {
          existing := true;
        } else {
          ids := ids.Set(slot, None);
        }
      }
      if existing && o.editOk {
        action := EditedInPlace;
      } else {
        if existing {
          ids := ids.Set(slot, None);
        }
        match o.send {
          case Some(n) =>
            SetTwice(s0.reg.ids, slot, None, Some(n));
            ids := ids.Set(slot, Some(n));
            files := files[slot := DecimalString(n)];
            action := SentNew(n);
          case None =>
            action := SendFailed;
        }
      }
      assert ids == s0.reg.ids.Set(slot, u.id);
      RefreshSlotKeepsInv(s0, slot, o);
    }

    /** One iteration of the loader: read `slot`'s file, if it exists, into the slot's id;
        a file whose text is not an integer is removed. */
    method LoadIdFile(slot: Slot)
      modifies this
      ensures State() == old(State()).(reg := LoadInto(old(State()).reg, slot))
    {
      LoadIntoCases(Registry(ids, files), slot);
      if slot in files {
        match ReadStoredId(files[slot]) {
          case Blank =>
            ids := ids.Set(slot, None);
          case Number(n) =>
            ids := ids.Set(slot, Some(n));
          case Malformed =>
            files := files - {slot};
            ids := ids.Set(slot, None);
        }
      }
    }

    /** Step 2 of `on_ready`: read each slot's id file, in the order panel, history, status. */
    method LoadPersistedIds()
      requires Valid()
      modifies this
      ensures Valid()
      ensures State() == old(State()).(reg := LoadSlots(old(State()).reg, LoadOrder))
    {
      ghost var s0 := State();
      var order := LoadOrder;
      for k := 0 to |order|
        invariant State() == s0.(reg := LoadSlots(s0.reg, order[..k]))
      {
        LoadIdFile(order[k]);
        assert order[..k + 1][..k] == order[..k];
      }
      assert order[..|order|] == order;
      LoadSlotsKeepsConsistent(s0.reg, LoadOrder);
    }

    /** `command_history_list.append(entry)`. */
    method RecordCommand(entry: HistoryEntry)
      requires |history| <= MaxCommandHistory
      modifies this
      ensures State() == old(State()).(history := Append(old(history), entry))
    {
      if |history| == MaxCommandHistory {
        history := history[1..];
      }
      history := history + [entry];
    }

    /** A recognised command in the control channel: log it, then refresh the history message. */
    method LogCommand(entry: HistoryEntry, historyRefresh: UpsertOracle)
      requires Valid()
      modifies this
      ensures Valid()
      ensures State() == ServerControl.LogCommand(old(State()), entry, historyRefresh)
    {
      RecordCommand(entry);
      var _ := UpdatePersistentMessage(History, historyRefresh);
    }

    /** Cancel the task `bot.shutdown_task` names, if there is one and it has not finished. */
    method CancelPendingShutdown()
      requires SlotInRange(Timer(shutdownTask, tasks))
      modifies this
      ensures State() == old(State()).(timer := CancelSlotTask(old(State()).timer))
    {
      if shutdownTask.Some? && tasks[shutdownTask.value] == Pending {
        tasks := tasks[shutdownTask.value := Cancelled];
      }
    }

    /** `bot.shutdown_task = bot.loop.create_task(bot.schedule_shutdown(...))`, after cancelling. */
    method ResetShutdownTimer()
      requires SlotInRange(Timer(shutdownTask, tasks))
      modifies this
      ensures State() == old(State()).(timer := Reschedule(old(State()).timer))
    {
      CancelPendingShutdown();
      shutdownTask := Some(|tasks|);
      tasks := tasks + [Pending];
    }

    /** `start_game_server`. */
    method StartGameServer(o: StartOracle) returns (reply: StartReply)
      requires Valid()
      modifies this
      ensures Valid()
      ensures (State(), reply) == StartServer(old(State()), o)
    {
      ghost var s0 := State();
      RescheduleLeavesOnePending(s0.timer);
      if o.runningBefore {
        startTime := Some(o.now);
        ResetShutdownTimer();
        if !o.replyOk {
          return StartRaised;
        }
        reply := TimerReset;
        var _ := UpdatePersistentMessage(Status, o.statusRefresh);
        return;
      }
      if o.launchOk && o.runningAfter {
        startTime := Some(o.now);
      }
      if !o.launchOk || !o.replyOk {
        // The `except` branch: report the error, which may itself raise.
        reply := if o.errorReplyOk then StartFailed else StartRaised;
        return;
      }
      if o.runningAfter {
        reply := Started;
        ResetShutdownTimer();
      } else {
        reply := StartUnconfirmed;
      }
      var _ := UpdatePersistentMessage(Status, o.statusRefresh);
    }

    /** `stop_game_server`. */
    method StopGameServer(o: StopOracle) returns (reply: StopReply)
      requires Valid()
      modifies this
      ensures Valid()
      ensures (State(), reply) == StopServer(old(State()), o)
    {
      ghost var s0 := State();
      if !o.runningBefore {
        if !o.replyOk {
          return StopRaised;
        }
        reply := NotRunning;
        var _ := UpdatePersistentMessage(Status, o.statusRefresh);
        return;
      }
      if !o.commandOk {
        reply := StopRaised;
        return;
      }
      if !o.runningAfter {
        startTime := None;
      }
      if !o.replyOk {
        // The `except` branch: report the error, which may itself raise.
        reply := if o.errorReplyOk then StopFailed else StopRaised;
        StopKeepsInv(s0, o);
        return;
      }
      reply := if o.runningAfter then StopUnconfirmed else Stopped;
      var _ := UpdatePersistentMessage(Status, o.statusRefresh);
      CancelPendingShutdown();
      shutdownTask := None;
      StopKeepsInv(s0, o);
    }

    /** The body of `schedule_shutdown` once task `t`'s delay has elapsed. */
    method ShutdownTimerFires(t: nat, o: AutoShutdownOracle)
      requires Valid() && t < |tasks| && tasks[t] == Pending
      modifies this
      ensures Valid()
      ensures State() == AutoShutdown(old(State()), t, o)
    {
      ghost var s0 := State();
      if o.runningAtCheck {
        RecordCommand(AutoShutdownEntry(o.timestamp));
        RefreshSlotKeepsInv(s0.(history := history), History, o.historyRefresh);
        var _ := UpdatePersistentMessage(History, o.historyRefresh);
        var _ := StopGameServer(o.stop);
      }
      if tasks[t] == Pending {
        tasks := tasks[t := Done];
      }
      AutoShutdownKeepsInv(s0, t, o);
    }

    /** The Start button's callback: a start that raised is reported and not logged. */
    method PressStartButton(user: string, timestamp: string, o: StartOracle, historyRefresh: UpsertOracle)
      returns (reply: StartReply)
      requires Valid()
      modifies this
      ensures Valid()
      ensures (State(), reply) == PressStart(old(State()), user, timestamp, o, historyRefresh)
    {
      reply := StartGameServer(o);
      if reply != StartRaised {
        LogCommand(HistoryEntry("Start Server (Button)", user, timestamp), historyRefresh);
      }
    }

    /** The Stop button's callback: a stop that raised is reported and not logged. */
    method PressStopButton(user: string, timestamp: string, o: StopOracle, historyRefresh: UpsertOracle)
      returns (reply: StopReply)
      requires Valid()
      modifies this
      ensures Valid()
      ensures (State(), reply) == PressStop(old(State()), user, timestamp, o, historyRefresh)
    {
      reply := StopGameServer(o);
      if reply != StopRaised {
        LogCommand(HistoryEntry("Stop Server (Button)", user, timestamp), historyRefresh);
      }
    }

    /** `clear_channel`: nothing in the bot changes; the result is what was deleted and reported. */
    method ClearChannel(inControlChannel: bool, invoking: Option<int>, channelHistory: seq<ChannelMessage>,
                        bulkOk: bool)
      returns (report: PurgeReport, removed: seq<int>)
      ensures (report, removed) == ClearOutcome(KeepSet(ids, invoking), inControlChannel, channelHistory, bulkOk)
      ensures forall x :: x in removed ==> x !in KeepSet(ids, invoking)
      ensures forall s :: IsSet(ids.Get(s)) ==> ids.Get(s).value !in removed
      ensures report.Cleared? ==> report.total == report.bulkCount + report.individualCount
    {
      if !inControlChannel {
        return WrongChannel, [];
      }
      var keep := KeepSet(ids, invoking);
      var bulk, deleted := Purge(channelHistory, keep);
      if |bulk| > 0 && !bulkOk {
        report, removed := BulkDeleteFailed(|deleted|), deleted;
      } else {
        report, removed := Cleared(|bulk| + |deleted|, |bulk|, |deleted|), deleted + bulk;
      }
      ClearOutcomeSparesProtected(keep, inControlChannel, channelHistory, bulkOk);
    }

    /** Step 4 of `on_ready`. */
    method CheckServerOnReady(running: bool, channelFound: bool, now: int)
      requires Valid()
      modifies this
      ensures Valid()
      ensures State() == ReadyCheck(old(State()), running, channelFound, now)
    {
      ghost var s0 := State();
      ReadyCheckOutcome(s0, running, channelFound, now);
      if running {
        if channelFound && shutdownTask == None {
          startTime := Some(now);
          ResetShutdownTimer();
        }
      } else {
        startTime := None;
        if shutdownTask.Some? && tasks[shutdownTask.value] == Pending {
          CancelPendingShutdown();
          shutdownTask := None;
        }
      }
    }

    /** `on_ready`: the startup purge (run before the id files are read, with no invoking
        message), then loading the ids, the three upserts, and the server check. */
    method OnReady(channelHistory: seq<ChannelMessage>, bulkOk: bool, o: ReadyOracle)
      returns (purge: Option<PurgeReport>)
      requires Valid()
      modifies this
      ensures Valid()
      ensures State() == Ready(old(State()), o)
      ensures o.channelFound ==>
        purge == Some(ClearOutcome(KeepSet(old(ids), None), true, channelHistory, bulkOk).0)
      ensures !o.channelFound ==> purge == None
    {
      ghost var s0 := State();
      ReadyKeepsInv(s0, o);
      purge := None;
      if o.channelFound {
        var report, _ := ClearChannel(true, None, channelHistory, bulkOk);
        purge := Some(report);
        LoadPersistedIds();
        var _ := UpdatePersistentMessage(Panel, o.panelRefresh);
        var _ := UpdatePersistentMessage(Status, o.statusRefresh);
        var _ := UpdatePersistentMessage(History, o.historyRefresh);
      }
      CheckServerOnReady(o.running, o.channelFound, o.now);
    }
  }
}
