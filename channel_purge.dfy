/** The channel purge (`clear_channel`): every message of the control channel except the
    protected ones is deleted, recent ones in one bulk call, older ones one at a time. */
module ChannelPurge {
  import opened BotTypes

  /** One message of the channel history: its id, its age in whole days
      (`(now - created_at).days`), and whether deleting it on its own would succeed. */
  datatype ChannelMessage = ChannelMessage(id: int, ageDays: int, deleteOk: bool)

  /** `ids_to_keep`: the slot ids that are set, and the invoking command's own message. */
  function KeepSet(ids: SlotIds, invoking: Option<int>): (keep: set<int>)
    ensures forall s :: IsSet(ids.Get(s)) ==> ids.Get(s).value in keep
    ensures invoking.Some? ==> invoking.value in keep
    ensures forall x :: x in keep ==>
      (exists s :: IsSet(ids.Get(s)) && ids.Get(s).value == x) || invoking == Some(x)
  {
    assert ids.Get(Panel) == ids.panel && ids.Get(History) == ids.history && ids.Get(Status) == ids.status;
    (if IsSet(ids.panel) then {ids.panel.value} else {}) +
    (if IsSet(ids.history) then {ids.history.value} else {}) +
    (if IsSet(ids.status) then {ids.status.value} else {}) +
    (if invoking.Some? then {invoking.value} else {})
  }

  /** Ids queued for the bulk delete: unprotected messages younger than 14 days, in history order. */
  function BulkQueue(history: seq<ChannelMessage>, keep: set<int>): seq<int>
    decreases |history|
  {
    if |history| == 0 then []
    else
      var m := history[|history| - 1];
      BulkQueue(history[..|history| - 1], keep) +
        (if m.id !in keep && m.ageDays < BulkDeleteWindowDays then [m.id] else [])
  }

  /** Ids deleted one at a time: unprotected messages 14 days or older whose delete succeeded. */
  function OldDeleted(history: seq<ChannelMessage>, keep: set<int>): seq<int>
    decreases |history|
  {
    if |history| == 0 then []
    else
      var m := history[|history| - 1];
      OldDeleted(history[..|history| - 1], keep) +
        (if m.id !in keep && m.ageDays >= BulkDeleteWindowDays && m.deleteOk then [m.id] else [])
  }

  /** The scan of the channel history (the `async for` loop): it builds the bulk list and
      deletes old messages individually, keeping the ids whose delete succeeded. */
  method Purge(history: seq<ChannelMessage>, keep: set<int>) returns (bulk: seq<int>, deleted: seq<int>)
    ensures bulk == BulkQueue(history, keep)
    ensures deleted == OldDeleted(history, keep)
  {
    bulk, deleted := [], [];
    var i := 0;
    while i < |history|
      invariant 0 <= i <= |history|
      invariant bulk == BulkQueue(history[..i], keep)
      invariant deleted == OldDeleted(history[..i], keep)
    {
      var m := history[i];
      if m.id !in keep {
        if m.ageDays < BulkDeleteWindowDays {
          bulk := bulk + [m.id];
        } else if m.deleteOk {
          deleted := deleted + [m.id];
        }
      }
      assert history[..i + 1][..i] == history[..i];
      i := i + 1;
    }
    assert history[..|history|] == history;
  }

  /** An id is queued for the bulk delete exactly when some unprotected message younger
      than 14 days carries it. */
  lemma {:induction false} BulkQueueExact(history: seq<ChannelMessage>, keep: set<int>, x: int)
    ensures x in BulkQueue(history, keep) <==>
      x !in keep && exists i :: 0 <= i < |history| && history[i].id == x && history[i].ageDays < BulkDeleteWindowDays
    decreases |history|
  {
    if |history| > 0 {
      var init := history[..|history| - 1];
      BulkQueueExact(init, keep, x);
      if x !in keep && exists i :: 0 <= i < |history| && history[i].id == x && history[i].ageDays < BulkDeleteWindowDays {
        var i :| 0 <= i < |history| && history[i].id == x && history[i].ageDays < BulkDeleteWindowDays;
        if i < |history| - 1 {
          assert init[i] == history[i];
        }
      }
      if x in BulkQueue(init, keep) {
        var i :| 0 <= i < |init| && init[i].id == x && init[i].ageDays < BulkDeleteWindowDays;
        assert history[i] == init[i];
      }
    }
  }

  /** An id is deleted individually exactly when some unprotected message 14 days or older
      carries it and deleting that message succeeded. */
  lemma {:induction false} OldDeletedExact(history: seq<ChannelMessage>, keep: set<int>, x: int)
    ensures x in OldDeleted(history, keep) <==>
      x !in keep && (exists i :: 0 <= i < |history| && history[i].id == x &&
                                history[i].ageDays >= BulkDeleteWindowDays && history[i].deleteOk)
    decreases |history|
  {
    if |history| > 0 {
      var init := history[..|history| - 1];
      OldDeletedExact(init, keep, x);
      if x !in keep && (exists i :: 0 <= i < |history| && history[i].id == x &&
                                   history[i].ageDays >= BulkDeleteWindowDays && history[i].deleteOk) {
        var i :| 0 <= i < |history| && history[i].id == x &&
                 history[i].ageDays >= BulkDeleteWindowDays && history[i].deleteOk;
        if i < |history| - 1 {
          assert init[i] == history[i];
        }
      }
      if x in OldDeleted(init, keep) {
        var i :| 0 <= i < |init| && init[i].id == x && init[i].ageDays >= BulkDeleteWindowDays && init[i].deleteOk;
        assert history[i] == init[i];
      }
    }
  }

  /** Protected messages are never deleted, whatever the channel holds. */
  lemma PurgeSparesProtected(history: seq<ChannelMessage>, keep: set<int>, x: int)
    requires x in keep
    ensures x !in BulkQueue(history, keep) && x !in OldDeleted(history, keep)
  {
    BulkQueueExact(history, keep, x);
    OldDeletedExact(history, keep, x);
  }

  /** With distinct message ids, every unprotected message goes to exactly one place:
      under 14 days old to the bulk list, otherwise to an individual delete that counts
      only if it succeeds. */
  lemma PurgePlacesOnce(history: seq<ChannelMessage>, keep: set<int>, i: nat)
    requires forall j, k :: 0 <= j < k < |history| ==> history[j].id != history[k].id
    requires i < |history| && history[i].id !in keep
    ensures history[i].ageDays < BulkDeleteWindowDays ==>
      history[i].id in BulkQueue(history, keep) && history[i].id !in OldDeleted(history, keep)
    ensures history[i].ageDays >= BulkDeleteWindowDays ==>
      history[i].id !in BulkQueue(history, keep) &&
      (history[i].id in OldDeleted(history, keep) <==> history[i].deleteOk)
  {
    var x := history[i].id;
    BulkQueueExact(history, keep, x);
    OldDeletedExact(history, keep, x);
  }

  /** What `clear_channel` reports. */
  datatype PurgeReport =
    | WrongChannel
    | Cleared(total: nat, bulkCount: nat, individualCount: nat)
    | BulkDeleteFailed(individualCount: nat)

  /** The report of one `clear_channel` run and the ids it actually deleted: the
      individually deleted ones during the scan, then the bulk batch if its call succeeded.
      The bulk call is made only when the batch is non-empty; when it raises, the run
      reports an error and only the individual deletions stand. */
  function ClearOutcome(keep: set<int>, inControlChannel: bool, history: seq<ChannelMessage>, bulkOk: bool)
    : (r: (PurgeReport, seq<int>))
    ensures !inControlChannel ==> r == (WrongChannel, [])
    // In the control channel the run reports success unless a non-empty bulk call fails.
    ensures inControlChannel ==> !r.0.WrongChannel?
    ensures inControlChannel ==> (r.0.Cleared? <==> |BulkQueue(history, keep)| == 0 || bulkOk)
    ensures r.0.Cleared? ==>
      r.0.bulkCount == |BulkQueue(history, keep)| &&
      r.0.individualCount == |OldDeleted(history, keep)| &&
      r.0.total == r.0.bulkCount + r.0.individualCount &&
      r.1 == OldDeleted(history, keep) + BulkQueue(history, keep)
    ensures r.0.BulkDeleteFailed? ==> r.1 == OldDeleted(history, keep) && |BulkQueue(history, keep)| > 0
  {
    if !inControlChannel then (WrongChannel, [])
    else
      var bulk := BulkQueue(history, keep);
      var individual := OldDeleted(history, keep);
      if |bulk| > 0 && !bulkOk then (BulkDeleteFailed(|individual|), individual)
      else (Cleared(|bulk| + |individual|, |bulk|, |individual|), individual + bulk)
  }

  /** Whatever the channel holds and however the deletes end, no protected id is deleted. */
  lemma ClearOutcomeSparesProtected(keep: set<int>, inControlChannel: bool, history: seq<ChannelMessage>, bulkOk: bool)
    ensures forall x :: x in ClearOutcome(keep, inControlChannel, history, bulkOk).1 ==> x !in keep
  {
    forall x | x in keep {
      PurgeSparesProtected(history, keep, x);
    }
  }
}
