/** The automated-shutdown task slot (`bot.shutdown_task`) and the shutdown tasks the
    event loop has been given. Cancellation is a state of a task, not a concurrency event. */
module ShutdownTimer {
  import opened BotTypes

  /** A `schedule_shutdown` task: still waiting (and so due to act), finished, or told to cancel. */
  datatype TaskState = Pending | Done | Cancelled

  /** `slot` is `bot.shutdown_task` as an index into `tasks`, every shutdown task created so far. */
  datatype Timer = Timer(slot: Option<nat>, tasks: seq<TaskState>)

  const NoTimer: Timer := Timer(None, [])

  predicate SlotInRange(t: Timer) {
    t.slot.Some? ==> t.slot.value < |t.tasks|
  }

  /** The single-flight invariant: the only task that may still be pending is the one in the slot. */
  predicate SingleFlight(t: Timer) {
    SlotInRange(t) &&
    forall i :: 0 <= i < |t.tasks| && t.tasks[i] == Pending ==> t.slot == Some(i)
  }

  /** Whether the slot holds a task that is still pending. */
  predicate SlotPending(t: Timer)
    requires SlotInRange(t)
  {
    t.slot.Some? && t.tasks[t.slot.value] == Pending
  }

  /** Cancel the task `bot.shutdown_task` names, if there is one and it has not finished. */
  function CancelSlotTask(t: Timer): (r: Timer)
    requires SlotInRange(t)
    ensures r.slot == t.slot && |r.tasks| == |t.tasks| && SlotInRange(r)
    ensures forall i :: 0 <= i < |t.tasks| ==>
      r.tasks[i] == (if t.slot == Some(i) && t.tasks[i] == Pending then Cancelled else t.tasks[i])
  {
    match t.slot
    case Some(i) => if t.tasks[i] == Pending then t.(tasks := t.tasks[i := Cancelled]) else t
    case None => t
  }

  /** Cancel the slot's pending task, then install a newly created task in the slot. */
  function Reschedule(t: Timer): (r: Timer)
    requires SlotInRange(t)
    // The slot holds one new, pending task; of the earlier tasks only the slot's
    // pending one changes, to cancelled.
    ensures |r.tasks| == |t.tasks| + 1 && r.slot == Some(|t.tasks|) && r.tasks[|t.tasks|] == Pending
    ensures forall i :: 0 <= i < |t.tasks| ==>
      r.tasks[i] == (if t.slot == Some(i) && t.tasks[i] == Pending then Cancelled else t.tasks[i])
  {
    Timer(Some(|t.tasks|), CancelSlotTask(t).tasks + [Pending])
  }

  /** Cancel the slot's pending task, then empty the slot (`bot.shutdown_task = None`). */
  function CancelAndClear(t: Timer): (r: Timer)
    requires SlotInRange(t)
    // The slot is empty; only the slot's pending task changes, to cancelled.
    ensures r.slot == None && |r.tasks| == |t.tasks|
    ensures forall i :: 0 <= i < |t.tasks| ==>
      r.tasks[i] == (if t.slot == Some(i) && t.tasks[i] == Pending then Cancelled else t.tasks[i])
  {
    Timer(None, CancelSlotTask(t).tasks)
  }

  /** Task `i` runs to its end: if it was still pending it is now done. */
  function Finish(t: Timer, i: nat): (r: Timer)
    requires i < |t.tasks|
    ensures r.slot == t.slot && |r.tasks| == |t.tasks| && r.tasks[i] != Pending
    ensures forall j :: 0 <= j < |t.tasks| && j != i ==> r.tasks[j] == t.tasks[j]
  {
    if t.tasks[i] == Pending then t.(tasks := t.tasks[i := Done]) else t
  }

  /** The number of pending tasks. */
  function PendingCount(tasks: seq<TaskState>): nat
    decreases |tasks|
  {
    if |tasks| == 0 then 0
    else PendingCount(tasks[..|tasks| - 1]) + (if tasks[|tasks| - 1] == Pending then 1 else 0)
  }

  lemma {:induction false} PendingCountPrefix(t: Timer, k: nat)
    requires SingleFlight(t) && k <= |t.tasks|
    ensures PendingCount(t.tasks[..k]) ==
      if t.slot.Some? && t.slot.value < k && t.tasks[t.slot.value] == Pending then 1 else 0
    decreases k
  {
    if k > 0 {
      PendingCountPrefix(t, k - 1);
      assert t.tasks[..k][..k - 1] == t.tasks[..k - 1];
    }
  }

  /** Under the single-flight invariant there is at most one pending task: exactly one when
      the slot's task is pending, none otherwise. */
  lemma {:induction false} SingleFlightCount(t: Timer)
    requires SingleFlight(t)
    ensures PendingCount(t.tasks) == if SlotPending(t) then 1 else 0
  {
    PendingCountPrefix(t, |t.tasks|);
    assert t.tasks[..|t.tasks|] == t.tasks;
  }

  /** Rescheduling resets the timer rather than stacking it: afterwards exactly one task is
      pending, the newly created one in the slot. */
  lemma RescheduleLeavesOnePending(t: Timer)
    requires SingleFlight(t)
    ensures SingleFlight(Reschedule(t)) && SlotPending(Reschedule(t))
    ensures PendingCount(Reschedule(t).tasks) == 1
  {
    SingleFlightCount(Reschedule(t));
  }

  /** Cancelling and clearing leaves no pending task at all. */
  lemma CancelAndClearLeavesNonePending(t: Timer)
    requires SingleFlight(t)
    ensures SingleFlight(CancelAndClear(t)) && PendingCount(CancelAndClear(t).tasks) == 0
  {
    SingleFlightCount(CancelAndClear(t));
  }

  /** A task running to its end keeps the single-flight invariant. */
  lemma FinishKeepsSingleFlight(t: Timer, i: nat)
    requires SingleFlight(t) && i < |t.tasks|
    ensures SingleFlight(Finish(t, i))
  {
  }
}
