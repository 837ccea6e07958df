/** The control flow of the bot as state transitions: start, stop, the automated
    shutdown, the startup checks, and the history entries commands and buttons add.
    Liveness checks, shell commands and chat calls appear only as their outcomes. */
module ServerControl {
  import opened BotTypes
  import opened PersistentMessages
  import opened CommandHistory
  import opened ShutdownTimer

  /** Everything the core keeps: the message registry, the history, `server_start_time`
      and the shutdown-task slot with the tasks created so far. */
  datatype BotState = BotState(reg: Registry, history: seq<HistoryEntry>, startTime: Option<int>, timer: Timer)

  /** What every transition needs to be defined. */
  predicate WellFormed(s: BotState) {
    |s.history| <= MaxCommandHistory && SlotInRange(s.timer)
  }

  /** The invariant the bot keeps: ids agree with their files, the history is within its
      capacity, and at most one shutdown task is pending. */
  predicate Inv(s: BotState) {
    Consistent(s.reg) && |s.history| <= MaxCommandHistory && SingleFlight(s.timer)
  }

  /** The state of a freshly started process, given the id files on disk. */
  function Initial(files: map<Slot, string>): (s: BotState)
    ensures Inv(s)
  {
    BotState(Fresh(files), [], None, NoTimer)
  }

  function RefreshSlot(s: BotState, slot: Slot, o: UpsertOracle): BotState {
    s.(reg := Refresh(s.reg, slot, o))
  }

  lemma RefreshSlotKeepsInv(s: BotState, slot: Slot, o: UpsertOracle)
    requires Inv(s)
    ensures Inv(RefreshSlot(s, slot, o))
  {
    RefreshKeepsConsistent(s.reg, slot, o);
  }

  // ----- Start -----

  /** Outcomes the start path depends on: liveness before, whether launching the start
      command raised, liveness after the settle wait, whether the reply to the user went
      out, whether the error reply of the `except` branch went out, the clock, and the
      status upsert. */
  datatype StartOracle = StartOracle(runningBefore: bool, launchOk: bool, runningAfter: bool,
                                     replyOk: bool, errorReplyOk: bool,
                                     now: int, statusRefresh: UpsertOracle)

  /** `StartFailed`: the `except` branch reported an error. `StartRaised`: an exception
      left `start_game_server`, because a reply outside the `try` or the error reply
      itself raised. */
  datatype StartReply = TimerReset | Started | StartUnconfirmed | StartFailed | StartRaised

  /** `start_game_server`. A reply that raises skips every step after it. */
  function StartServer(s: BotState, o: StartOracle): (r: (BotState, StartReply))
    requires WellFormed(s)
    ensures WellFormed(r.0) && r.0.history == s.history
    // Which reply the user gets.
    ensures r.1 == TimerReset <==> o.runningBefore && o.replyOk
    ensures r.1 == Started <==> !o.runningBefore && o.launchOk && o.runningAfter && o.replyOk
    ensures r.1 == StartUnconfirmed <==> !o.runningBefore && o.launchOk && !o.runningAfter && o.replyOk
    ensures r.1 == StartFailed <==> !o.runningBefore && !(o.launchOk && o.replyOk) && o.errorReplyOk
    // The status message is refreshed exactly when a reply of the normal path went out.
    ensures r.0.reg == if o.replyOk && (o.runningBefore || o.launchOk) then Refresh(s.reg, Status, o.statusRefresh) else s.reg
  {
    if o.runningBefore then
      // Outside the `try`: the timer is reset before the reply, the status refresh after it.
      var s1 := s.(startTime := Some(o.now), timer := Reschedule(s.timer));
      if o.replyOk then (RefreshSlot(s1, Status, o.statusRefresh), TimerReset)
      else (s1, StartRaised)
    else
      // Inside the `try`: a confirmed start records its time before replying.
      var s1 := if o.launchOk && o.runningAfter then s.(startTime := Some(o.now)) else s;
      if o.launchOk && o.replyOk then
        if o.runningAfter then
          (RefreshSlot(s1.(timer := Reschedule(s.timer)), Status, o.statusRefresh), Started)
        else
          (RefreshSlot(s, Status, o.statusRefresh), StartUnconfirmed)
      else
        (s1, if o.errorReplyOk then StartFailed else StartRaised)
  }

  lemma StartKeepsInv(s: BotState, o: StartOracle)
    requires Inv(s)
    ensures Inv(StartServer(s, o).0)
  {
    RescheduleLeavesOnePending(s.timer);
    RefreshSlotKeepsInv(s.(startTime := Some(o.now), timer := Reschedule(s.timer)), Status, o.statusRefresh);
    RefreshSlotKeepsInv(s, Status, o.statusRefresh);
  }

  /** A start that finds the server running, or confirms it came up, records the start
      time. When the server was already running, or the confirmation reached the user,
      exactly one shutdown task is then pending: a new one, in the slot, and every earlier
      task is no longer pending. A confirmed start whose reply raised keeps the old tasks. */
  lemma StartConfirmedResetsTimer(s: BotState, o: StartOracle)
    requires Inv(s)
    requires o.runningBefore || (o.launchOk && o.runningAfter)
    ensures StartServer(s, o).0.startTime == Some(o.now)
    ensures o.runningBefore || o.replyOk ==>
      var r := StartServer(s, o).0;
      r.timer.slot == Some(|s.timer.tasks|) &&
      SlotPending(r.timer) && PendingCount(r.timer.tasks) == 1 &&
      forall i :: 0 <= i < |s.timer.tasks| ==> r.timer.tasks[i] != Pending
    ensures !o.runningBefore && !o.replyOk ==> StartServer(s, o).0.timer == s.timer
  {
    RescheduleLeavesOnePending(s.timer);
  }

  /** A start that could not be confirmed, or whose launch raised, leaves the start time
      and the shutdown tasks untouched. */
  lemma StartUnconfirmedKeepsTimer(s: BotState, o: StartOracle)
    requires WellFormed(s)
    requires !o.runningBefore && !(o.launchOk && o.runningAfter)
    ensures StartServer(s, o).0.startTime == s.startTime
    ensures StartServer(s, o).0.timer == s.timer
  {
  }

  /** Apply a sequence of starts. */
  function StartAll(s: BotState, os: seq<StartOracle>): (r: BotState)
    requires WellFormed(s)
    ensures WellFormed(r)
    decreases |os|
  {
    if |os| == 0 then s else StartServer(StartAll(s, os[..|os| - 1]), os[|os| - 1]).0
  }

  /** Repeated starts while the server runs never stack timers: after each one exactly
      one shutdown task is pending. */
  lemma {:induction false} RepeatedStartsKeepOneTimer(s: BotState, os: seq<StartOracle>)
    requires Inv(s) && |os| > 0
    requires forall k :: 0 <= k < |os| ==> os[k].runningBefore
    ensures Inv(StartAll(s, os)) && PendingCount(StartAll(s, os).timer.tasks) == 1
    decreases |os|
  {
    var init := os[..|os| - 1];
    var prev := StartAll(s, init);
    if |init| > 0 {
      RepeatedStartsKeepOneTimer(s, init);
    }
    StartKeepsInv(prev, os[|os| - 1]);
    StartConfirmedResetsTimer(prev, os[|os| - 1]);
  }

  // ----- Stop -----

  /** Outcomes the stop path depends on: liveness before, whether the stop command
      succeeded (it runs with `check=True`), liveness after the settle wait, whether the
      reply to the user went out, whether the error reply of the `except` branch went out,
      and the status upsert. */
  datatype StopOracle = StopOracle(runningBefore: bool, commandOk: bool, runningAfter: bool,
                                   replyOk: bool, errorReplyOk: bool, statusRefresh: UpsertOracle)

  /** `StopFailed`: the `except` branch reported an error. `StopRaised`: an exception left
      `stop_game_server`. This happens when the "not running" reply raises, when the error
      reply raises, and always when the stop command fails: the `except` branch then
      replies through a name that was never bound. */
  datatype StopReply = NotRunning | Stopped | StopUnconfirmed | StopFailed | StopRaised

  /** `stop_game_server`. A reply that raises skips every step after it. */
  function StopServer(s: BotState, o: StopOracle): (r: (BotState, StopReply))
    requires WellFormed(s)
    ensures WellFormed(r.0) && r.0.history == s.history
    // Which reply the user gets.
    ensures r.1 == NotRunning <==> !o.runningBefore && o.replyOk
    ensures r.1 == Stopped <==> o.runningBefore && o.commandOk && !o.runningAfter && o.replyOk
    ensures r.1 == StopUnconfirmed <==> o.runningBefore && o.commandOk && o.runningAfter && o.replyOk
    ensures r.1 == StopFailed <==> o.runningBefore && o.commandOk && !o.replyOk && o.errorReplyOk
    // The status message is refreshed exactly when a reply of the normal path went out.
    ensures r.0.reg == if o.replyOk && (!o.runningBefore || o.commandOk) then Refresh(s.reg, Status, o.statusRefresh) else s.reg
  {
    if !o.runningBefore then
      if o.replyOk then (RefreshSlot(s, Status, o.statusRefresh), NotRunning) else (s, StopRaised)
    else if !o.commandOk then
      (s, StopRaised)
    else
      var s1 := if o.runningAfter then s else s.(startTime := None);
      if !o.replyOk then
        (s1, if o.errorReplyOk then StopFailed else StopRaised)
      else
        var s2 := RefreshSlot(s1, Status, o.statusRefresh);
        (s2.(timer := CancelAndClear(s2.timer)), if o.runningAfter then StopUnconfirmed else Stopped)
  }

  lemma StopKeepsInv(s: BotState, o: StopOracle)
    requires Inv(s)
    ensures Inv(StopServer(s, o).0)
  {
    var s1 := if o.runningAfter then s else s.(startTime := None);
    RefreshSlotKeepsInv(s, Status, o.statusRefresh);
    RefreshSlotKeepsInv(s1, Status, o.statusRefresh);
    CancelAndClearLeavesNonePending(s.timer);
  }

  /** Stopping a server that is not running issues no stop command: it replies
      "not running" and refreshes the status message (or raises if that reply fails),
      and leaves the start time and the shutdown tasks alone. */
  lemma StopWhenNotRunning(s: BotState, o: StopOracle)
    requires WellFormed(s) && !o.runningBefore
    ensures StopServer(s, o) ==
      if o.replyOk then (RefreshSlot(s, Status, o.statusRefresh), NotRunning) else (s, StopRaised)
    ensures StopServer(s, o).0.timer == s.timer && StopServer(s, o).0.startTime == s.startTime
  {
  }

  /** Stopping a running server clears the start time only when the stop is confirmed.
      Once the reply has gone out, the shutdown slot ends empty with no pending task,
      whether or not the stop is confirmed; a reply that raises leaves the tasks as they were. */
  lemma StopWhenRunning(s: BotState, o: StopOracle)
    requires Inv(s) && o.runningBefore && o.commandOk
    ensures StopServer(s, o).0.startTime == (if o.runningAfter then s.startTime else None)
    ensures o.replyOk ==>
      var r := StopServer(s, o);
      r.0.timer.slot == None && PendingCount(r.0.timer.tasks) == 0 &&
      r.1 == (if o.runningAfter then StopUnconfirmed else Stopped)
    ensures !o.replyOk ==>
      StopServer(s, o).0.timer == s.timer && StopServer(s, o).1 in {StopFailed, StopRaised}
    ensures StopServer(s, o).0.reg == if o.replyOk then Refresh(s.reg, Status, o.statusRefresh) else s.reg
  {
    CancelAndClearLeavesNonePending(s.timer);
  }

  /** A failing stop command changes nothing: the `except` branch raises before it can
      reply, so neither the start time, the status message nor the shutdown tasks move. */
  lemma StopCommandFails(s: BotState, o: StopOracle)
    requires WellFormed(s) && o.runningBefore && !o.commandOk
    ensures StopServer(s, o) == (s, StopRaised)
  {
  }

  // ----- Automated shutdown -----

  /** Outcomes the automated shutdown depends on, once its delay has elapsed. */
  datatype AutoShutdownOracle = AutoShutdownOracle(runningAtCheck: bool, timestamp: string,
                                                   historyRefresh: UpsertOracle, stop: StopOracle)

  function AutoShutdownEntry(timestamp: string): HistoryEntry {
    HistoryEntry("Automated Shutdown", "System", timestamp)
  }

  /** Task `t` of `schedule_shutdown` wakes after its delay. If the server still runs it
      logs an entry, refreshes the history message and takes the stop path; either way
      the task then ends. */
  function AutoShutdown(s: BotState, t: nat, o: AutoShutdownOracle): (r: BotState)
    requires WellFormed(s) && t < |s.timer.tasks|
    ensures WellFormed(r)
  {
    if o.runningAtCheck then
      var s1 := s.(history := Append(s.history, AutoShutdownEntry(o.timestamp)));
      var s2 := RefreshSlot(s1, History, o.historyRefresh);
      var s3 := StopServer(s2, o.stop).0;
      s3.(timer := Finish(s3.timer, t))
    else
      s.(timer := Finish(s.timer, t))
  }

  lemma AutoShutdownKeepsInv(s: BotState, t: nat, o: AutoShutdownOracle)
    requires Inv(s) && t < |s.timer.tasks|
    ensures Inv(AutoShutdown(s, t, o))
  {
    if o.runningAtCheck {
      var s1 := s.(history := Append(s.history, AutoShutdownEntry(o.timestamp)));
      RefreshSlotKeepsInv(s1, History, o.historyRefresh);
      var s2 := RefreshSlot(s1, History, o.historyRefresh);
      StopKeepsInv(s2, o.stop);
      FinishKeepsSingleFlight(StopServer(s2, o.stop).0.timer, t);
    } else {
      FinishKeepsSingleFlight(s.timer, t);
    }
  }

  /** When the pending task fires and the server still runs, exactly one entry,
      "Automated Shutdown" by "System", is added to the history. However the stop path
      ends, no shutdown task is left pending; the slot is emptied when the stop command
      succeeded and its reply went out, and otherwise still names the finished task. */
  lemma AutoShutdownWhileRunning(s: BotState, t: nat, o: AutoShutdownOracle)
    requires Inv(s) && t < |s.timer.tasks| && s.timer.tasks[t] == Pending
    requires o.runningAtCheck
    ensures AutoShutdown(s, t, o).history == Append(s.history, AutoShutdownEntry(o.timestamp))
    ensures PendingCount(AutoShutdown(s, t, o).timer.tasks) == 0
    ensures AutoShutdown(s, t, o).timer.slot ==
      if o.stop.runningBefore && o.stop.commandOk && o.stop.replyOk then None else Some(t)
    // After logging, the stop path runs: its start time and its messages are the result's.
    ensures var logged := RefreshSlot(s.(history := Append(s.history, AutoShutdownEntry(o.timestamp))), History, o.historyRefresh);
      AutoShutdown(s, t, o).startTime == StopServer(logged, o.stop).0.startTime &&
      AutoShutdown(s, t, o).reg == StopServer(logged, o.stop).0.reg
  {
    var s1 := s.(history := Append(s.history, AutoShutdownEntry(o.timestamp)));
    var s2 := RefreshSlot(s1, History, o.historyRefresh);
    RefreshSlotKeepsInv(s1, History, o.historyRefresh);
    StopKeepsInv(s2, o.stop);
    var s3 := StopServer(s2, o.stop).0;
    FinishKeepsSingleFlight(s3.timer, t);
    SingleFlightCount(AutoShutdown(s, t, o).timer);
  }

  /** When the task fires and the server is already stopped, nothing changes except that
      the task ends. */
  lemma AutoShutdownWhenStopped(s: BotState, t: nat, o: AutoShutdownOracle)
    requires WellFormed(s) && t < |s.timer.tasks| && !o.runningAtCheck
    ensures AutoShutdown(s, t, o) == s.(timer := Finish(s.timer, t))
    ensures AutoShutdown(s, t, o).timer.tasks[t] != Pending
  {
  }

  // ----- History entries from commands and buttons -----

  /** A recognised command in the control channel is logged and the history message refreshed. */
  function LogCommand(s: BotState, entry: HistoryEntry, historyRefresh: UpsertOracle): (r: BotState)
    requires WellFormed(s)
    ensures WellFormed(r) && r.history == Append(s.history, entry)
    // Only the history and its message change.
    ensures r.startTime == s.startTime && r.timer == s.timer
    ensures r.reg == Refresh(s.reg, History, historyRefresh)
  {
    RefreshSlot(s.(history := Append(s.history, entry)), History, historyRefresh)
  }

  lemma LogCommandKeepsInv(s: BotState, entry: HistoryEntry, historyRefresh: UpsertOracle)
    requires Inv(s)
    ensures Inv(LogCommand(s, entry, historyRefresh))
  {
    RefreshSlotKeepsInv(s.(history := Append(s.history, entry)), History, historyRefresh);
  }

  /** The Start button: the start path, then a "Start Server (Button)" entry for the user,
      unless the start path raised, in which case the handler only reports the error. */
  function PressStart(s: BotState, user: string, timestamp: string, o: StartOracle,
                      historyRefresh: UpsertOracle): (r: (BotState, StartReply))
    requires WellFormed(s)
    ensures WellFormed(r.0)
    ensures r.1 == StartServer(s, o).1
    ensures r.0.startTime == StartServer(s, o).0.startTime && r.0.timer == StartServer(s, o).0.timer
    ensures r.1 == StartRaised ==> r.0 == StartServer(s, o).0 && r.0.history == s.history
    ensures r.1 != StartRaised ==> r.0.reg == Refresh(StartServer(s, o).0.reg, History, historyRefresh)
    ensures r.1 != StartRaised ==> r.0.history == Append(s.history, HistoryEntry("Start Server (Button)", user, timestamp))
  {
    var (s1, reply) := StartServer(s, o);
    if reply == StartRaised then (s1, reply)
    else (LogCommand(s1, HistoryEntry("Start Server (Button)", user, timestamp), historyRefresh), reply)
  }

  /** The Stop button: the stop path, then a "Stop Server (Button)" entry, unless the stop
      path raised, in which case the handler only reports the error. */
  function PressStop(s: BotState, user: string, timestamp: string, o: StopOracle,
                     historyRefresh: UpsertOracle): (r: (BotState, StopReply))
    requires WellFormed(s)
    ensures WellFormed(r.0)
    ensures r.1 == StopServer(s, o).1
    ensures r.0.startTime == StopServer(s, o).0.startTime && r.0.timer == StopServer(s, o).0.timer
    ensures r.1 == StopRaised ==> r.0 == StopServer(s, o).0 && r.0.history == s.history
    ensures r.1 != StopRaised ==> r.0.reg == Refresh(StopServer(s, o).0.reg, History, historyRefresh)
    ensures r.1 != StopRaised ==> r.0.history == Append(s.history, HistoryEntry("Stop Server (Button)", user, timestamp))
  {
    var (s1, reply) := StopServer(s, o);
    if reply == StopRaised then (s1, reply)
    else (LogCommand(s1, HistoryEntry("Stop Server (Button)", user, timestamp), historyRefresh), reply)
  }

  lemma PressStartKeepsInv(s: BotState, user: string, timestamp: string, o: StartOracle, historyRefresh: UpsertOracle)
    requires Inv(s)
    ensures Inv(PressStart(s, user, timestamp, o, historyRefresh).0)
  {
    StartKeepsInv(s, o);
    LogCommandKeepsInv(StartServer(s, o).0, HistoryEntry("Start Server (Button)", user, timestamp), historyRefresh);
  }

  lemma PressStopKeepsInv(s: BotState, user: string, timestamp: string, o: StopOracle, historyRefresh: UpsertOracle)
    requires Inv(s)
    ensures Inv(PressStop(s, user, timestamp, o, historyRefresh).0)
  {
    StopKeepsInv(s, o);
    LogCommandKeepsInv(StopServer(s, o).0, HistoryEntry("Stop Server (Button)", user, timestamp), historyRefresh);
  }

  // ----- Startup -----

  /** The liveness check at the end of `on_ready`. */
  function ReadyCheck(s: BotState, running: bool, channelFound: bool, now: int): (r: BotState)
    requires WellFormed(s)
    ensures WellFormed(r) && r.reg == s.reg && r.history == s.history
  {
    if running then
      if channelFound && s.timer.slot == None then
        s.(startTime := Some(now), timer := Reschedule(s.timer))
      else s
    else
      s.(startTime := None,
         timer := if SlotPending(s.timer) then CancelAndClear(s.timer) else s.timer)
  }

  /** After the startup check, a running server has a pending shutdown task whenever one
      could be scheduled; a stopped server has no start time and no pending task. */
  lemma ReadyCheckOutcome(s: BotState, running: bool, channelFound: bool, now: int)
    requires Inv(s)
    ensures Inv(ReadyCheck(s, running, channelFound, now))
    ensures running && channelFound && s.timer.slot == None ==>
      PendingCount(ReadyCheck(s, running, channelFound, now).timer.tasks) == 1
    ensures !running ==>
      ReadyCheck(s, running, channelFound, now).startTime == None &&
      PendingCount(ReadyCheck(s, running, channelFound, now).timer.tasks) == 0
    // Scheduling a task also records the start time.
    ensures running && channelFound && s.timer.slot == None ==>
      ReadyCheck(s, running, channelFound, now).startTime == Some(now)
    // A running server with no channel, or whose slot still names a task (even a finished
    // one), is left as it was.
    ensures running && !(channelFound && s.timer.slot == None) ==> ReadyCheck(s, running, channelFound, now) == s
    // A stopped server whose slot task is not pending keeps its tasks.
    ensures !running && !SlotPending(s.timer) ==> ReadyCheck(s, running, channelFound, now).timer == s.timer
  {
    RescheduleLeavesOnePending(s.timer);
    CancelAndClearLeavesNonePending(s.timer);
    SingleFlightCount(s.timer);
  }

  /** Outcomes `on_ready` depends on after the startup purge. */
  datatype ReadyOracle = ReadyOracle(channelFound: bool, panelRefresh: UpsertOracle, statusRefresh: UpsertOracle,
                                     historyRefresh: UpsertOracle, running: bool, now: int)

  /** `on_ready` after the startup purge: load the id files, upsert the panel, status and
      history messages, then check the server. */
  function Ready(s: BotState, o: ReadyOracle): (r: BotState)
    requires WellFormed(s)
    ensures WellFormed(r)
  {
    var s1 := if o.channelFound then
        var loaded := s.(reg := LoadSlots(s.reg, LoadOrder));
        RefreshSlot(RefreshSlot(RefreshSlot(loaded, Panel, o.panelRefresh), Status, o.statusRefresh),
                    History, o.historyRefresh)
      else s;
    ReadyCheck(s1, o.running, o.channelFound, o.now)
  }

  lemma ReadyKeepsInv(s: BotState, o: ReadyOracle)
    requires Inv(s)
    ensures Inv(Ready(s, o))
  {
    var loaded := s.(reg := LoadSlots(s.reg, LoadOrder));
    LoadSlotsKeepsConsistent(s.reg, LoadOrder);
    RefreshSlotKeepsInv(loaded, Panel, o.panelRefresh);
    var a := RefreshSlot(loaded, Panel, o.panelRefresh);
    RefreshSlotKeepsInv(a, Status, o.statusRefresh);
    var b := RefreshSlot(a, Status, o.statusRefresh);
    RefreshSlotKeepsInv(b, History, o.historyRefresh);
    var s1 := if o.channelFound then RefreshSlot(b, History, o.historyRefresh) else s;
    ReadyCheckOutcome(s1, o.running, o.channelFound, o.now);
  }
}
