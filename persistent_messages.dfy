/** The persistent-message registry: for each slot, the id of the message the bot
    keeps editing, the file that remembers it across restarts, the upsert that
    edits or re-creates the message, and the loader that reads the files at startup. */
module PersistentMessages {
  import opened BotTypes
  import opened StoredIds

  /** How `channel.fetch_message(id)` ends: the message, `NotFound`, `Forbidden` or any other error. */
  datatype FetchOutcome = Fetched | NotFound | Forbidden | FetchFailed

  /** The outcome each remote call of one upsert would have: the fetch, the edit, and
      the send (the new message's id, or `None` when sending raises). */
  datatype UpsertOracle = UpsertOracle(fetch: FetchOutcome, editOk: bool, send: Option<int>)

  /** What one upsert did in the channel. */
  datatype UpsertAction = EditedInPlace | SentNew(id: int) | SendFailed

  datatype UpsertResult = UpsertResult(id: Option<int>, action: UpsertAction)

  /** One `update_persistent_message` call on a slot whose current id is `id`. */
  function Upsert(id: Option<int>, o: UpsertOracle): (r: UpsertResult)
    // The message is edited in place, and nothing is sent, exactly when the stored
    // id was fetched and the edit went through; the id is then kept.
    ensures r.action == EditedInPlace <==> IsSet(id) && o.fetch == Fetched && o.editOk
    ensures r.action == EditedInPlace ==> r.id == id
    // Otherwise one send is attempted, and a sent message becomes the slot's id.
    ensures r.action != EditedInPlace ==> (r.action.SentNew? <==> o.send.Some?)
    ensures r.action.SentNew? ==> o.send == Some(r.action.id) && r.id == o.send
    // An id that this call did not confirm never survives it.
    ensures IsSet(r.id) ==> r.action == EditedInPlace || r.action == SentNew(r.id.value)
    // A failed send leaves the slot without a usable id: a stale id is cleared,
    // an absent one stays as it was.
    ensures r.action == SendFailed ==> !IsSet(r.id) && r.id == (if IsSet(id) then None else id)
  {
    var existing := IsSet(id) && o.fetch == Fetched;
    if existing && o.editOk then UpsertResult(id, EditedInPlace)
    else
      // A failed fetch or edit clears the id before the send.
      var cleared := if IsSet(id) then None else id;
      match o.send
      case Some(n) => UpsertResult(Some(n), SentNew(n))
      case None => UpsertResult(cleared, SendFailed)
  }

  /** The in-memory ids (`bot.current_*_message_id`) and the id files that exist on disk. */
  datatype Registry = Registry(ids: SlotIds, files: map<Slot, string>)

  /** Every id held in memory is also what the loader would read back from its file,
      so a restart recovers it. */
  predicate Consistent(reg: Registry) {
    forall s :: reg.ids.Get(s).Some? ==>
      s in reg.files && ReadStoredId(reg.files[s]) == Number(reg.ids.Get(s).value)
  }

  /** Upsert one slot: the id changes as `Upsert` says, and a newly sent message's id
      is written to the slot's file with `str(id)`. */
  function Refresh(reg: Registry, slot: Slot, o: UpsertOracle): (r: Registry)
    // The slot's id becomes what the upsert leaves, and its file is rewritten exactly
    // when a new message was sent, with that message's id.
    ensures r.ids.Get(slot) == Upsert(reg.ids.Get(slot), o).id
    ensures Upsert(reg.ids.Get(slot), o).action.SentNew? ==>
      r.files == reg.files[slot := DecimalString(Upsert(reg.ids.Get(slot), o).action.id)]
    ensures !Upsert(reg.ids.Get(slot), o).action.SentNew? ==> r.files == reg.files
    ensures forall s :: s != slot ==> r.ids.Get(s) == reg.ids.Get(s)
    ensures forall s :: s != slot ==> (s in r.files <==> s in reg.files) && (s in r.files ==> r.files[s] == reg.files[s])
  {
    var u := Upsert(reg.ids.Get(slot), o);
    Registry(reg.ids.Set(slot, u.id),
             if u.action.SentNew? then reg.files[slot := DecimalString(u.action.id)] else reg.files)
  }

  /** An upsert keeps memory and disk in agreement, whichever way it ends. */
  lemma {:induction false} RefreshKeepsConsistent(reg: Registry, slot: Slot, o: UpsertOracle)
    requires Consistent(reg)
    ensures Consistent(Refresh(reg, slot, o))
  {
    var u := Upsert(reg.ids.Get(slot), o);
    var r := Refresh(reg, slot, o);
    forall s | r.ids.Get(s).Some?
      ensures s in r.files && ReadStoredId(r.files[s]) == Number(r.ids.Get(s).value)
    {
      if s == slot && u.action.SentNew? {
        StoredIdRoundTrip(u.action.id);
      }
    }
  }

  /** An upsert whose stored message is fetched and edited sends nothing and leaves the
      slot's id and every file exactly as they were. */
  lemma LiveEditKeepsRegistry(reg: Registry, slot: Slot, o: UpsertOracle)
    requires IsSet(reg.ids.Get(slot)) && o.fetch == Fetched && o.editOk
    ensures Upsert(reg.ids.Get(slot), o).action == EditedInPlace
    ensures Refresh(reg, slot, o) == reg
  {
    assert reg.ids.Set(slot, reg.ids.Get(slot)) == reg.ids;
  }

  /** Upserting a slot twice, when both fetches and edits succeed, sends no message at all
      and leaves the registry as it was. */
  lemma RefreshTwiceWithLiveMessage(reg: Registry, slot: Slot, o1: UpsertOracle, o2: UpsertOracle)
    requires IsSet(reg.ids.Get(slot))
    requires o1.fetch == Fetched && o1.editOk && o2.fetch == Fetched && o2.editOk
    ensures Upsert(reg.ids.Get(slot), o1).action == EditedInPlace
    ensures Upsert(Refresh(reg, slot, o1).ids.Get(slot), o2).action == EditedInPlace
    ensures Refresh(Refresh(reg, slot, o1), slot, o2) == reg
  {
    LiveEditKeepsRegistry(reg, slot, o1);
    LiveEditKeepsRegistry(reg, slot, o2);
  }

  /** A stale id (its message can no longer be fetched) is replaced within one upsert by
      the single message that upsert sends, and the replacement is what a restart reads back. */
  lemma StaleIdReplaced(reg: Registry, slot: Slot, o: UpsertOracle, n: int)
    requires Consistent(reg) && IsSet(reg.ids.Get(slot))
    requires o.fetch != Fetched && o.send == Some(n)
    ensures Upsert(reg.ids.Get(slot), o).action == SentNew(n)
    ensures Refresh(reg, slot, o).ids.Get(slot) == Some(n)
    ensures slot in Refresh(reg, slot, o).files
    ensures ReadStoredId(Refresh(reg, slot, o).files[slot]) == Number(n)
  {
    StoredIdRoundTrip(n);
  }

  // ----- Loading the id files at startup -----

  /** The result of loading one slot: its id and whether (and with what text) its file remains. */
  datatype LoadedSlot = LoadedSlot(id: Option<int>, file: Option<string>)

  /** One iteration of the startup loader: `file` is the slot's file text if the file exists. */
  function LoadSlot(file: Option<string>, current: Option<int>): (r: LoadedSlot)
    // No file: the id in memory is left alone.
    ensures file == None ==> r == LoadedSlot(current, None)
    // A file is deleted exactly when its stripped text is not an integer.
    ensures file.Some? ==> (r.file == None <==> ReadStoredId(file.value) == Malformed)
    ensures r.file.Some? ==> r.file == file
    // With a file, the id is the file's integer if it holds one, and none otherwise.
    ensures file.Some? ==> (r.id.Some? <==> ReadStoredId(file.value).Number?)
    ensures file.Some? && r.id.Some? ==> ReadStoredId(file.value) == Number(r.id.value)
  {
    match file
    case None => LoadedSlot(current, None)
    case Some(text) =>
      match ReadStoredId(text)
      case Blank => LoadedSlot(None, file)
      case Number(n) => LoadedSlot(Some(n), file)
      case Malformed => LoadedSlot(None, None)
  }

  /** Load one slot of the registry from its file. */
  function LoadInto(reg: Registry, s: Slot): (r: Registry)
    ensures forall t :: t != s ==> r.ids.Get(t) == reg.ids.Get(t)
    ensures forall t :: t != s ==> (t in r.files <==> t in reg.files) && (t in r.files ==> r.files[t] == reg.files[t])
  {
    var l := LoadSlot(if s in reg.files then Some(reg.files[s]) else None, reg.ids.Get(s));
    Registry(reg.ids.Set(s, l.id), if l.file.Some? then reg.files[s := l.file.value] else reg.files - {s})
  }

  /** What loading one slot does, case by case on the slot's file. */
  lemma LoadIntoCases(reg: Registry, s: Slot)
    ensures s !in reg.files ==> LoadInto(reg, s) == reg
    ensures s in reg.files && ReadStoredId(reg.files[s]) == Blank ==>
      LoadInto(reg, s) == Registry(reg.ids.Set(s, None), reg.files)
    ensures s in reg.files && ReadStoredId(reg.files[s]).Number? ==>
      LoadInto(reg, s) == Registry(reg.ids.Set(s, Some(ReadStoredId(reg.files[s]).n)), reg.files)
    ensures s in reg.files && ReadStoredId(reg.files[s]) == Malformed ==>
      LoadInto(reg, s) == Registry(reg.ids.Set(s, None), reg.files - {s})
  {
    if s !in reg.files {
      assert LoadSlot(None, reg.ids.Get(s)) == LoadedSlot(reg.ids.Get(s), None);
      assert reg.ids.Set(s, reg.ids.Get(s)) == reg.ids;
    } else {
      var text := reg.files[s];
      match ReadStoredId(text)
      case Blank =>
        assert LoadSlot(Some(text), reg.ids.Get(s)) == LoadedSlot(None, Some(text));
        assert reg.files[s := text] == reg.files;
      case Number(n) =>
        assert LoadSlot(Some(text), reg.ids.Get(s)) == LoadedSlot(Some(n), Some(text));
        assert reg.files[s := text] == reg.files;
      case Malformed =>
        assert LoadSlot(Some(text), reg.ids.Get(s)) == LoadedSlot(None, None);
    }
  }

  /** The order in which the loader visits the files: panel, history, status. */
  const LoadOrder: seq<Slot> := [Panel, History, Status]

  /** Load the given slots, in order. */
  function LoadSlots(reg: Registry, slots: seq<Slot>): (r: Registry)
    decreases |slots|
  {
    if |slots| == 0 then reg else LoadInto(LoadSlots(reg, slots[..|slots| - 1]), slots[|slots| - 1])
  }

  /** Loading a slot keeps memory and disk in agreement. */
  lemma LoadIntoKeepsConsistent(reg: Registry, s: Slot)
    requires Consistent(reg)
    ensures Consistent(LoadInto(reg, s))
  {
  }

  /** Loading any sequence of slots keeps memory and disk in agreement. */
  lemma {:induction false} LoadSlotsKeepsConsistent(reg: Registry, slots: seq<Slot>)
    requires Consistent(reg)
    ensures Consistent(LoadSlots(reg, slots))
    decreases |slots|
  {
    if |slots| > 0 {
      LoadSlotsKeepsConsistent(reg, slots[..|slots| - 1]);
      LoadIntoKeepsConsistent(LoadSlots(reg, slots[..|slots| - 1]), slots[|slots| - 1]);
    }
  }

  /** The registry of a freshly started process: no ids in memory, the files left by the last run. */
  function Fresh(files: map<Slot, string>): (r: Registry)
    ensures Consistent(r)
  {
    Registry(NoIds, files)
  }

  /** Loading a slot that has no id yet sets exactly the id a consistent registry held there. */
  lemma LoadIntoRecovers(reg: Registry, files: map<Slot, string>, s: Slot, id: Option<int>)
    requires reg.ids.Get(s) == None
    requires s in reg.files <==> s in files
    requires s in files ==> reg.files[s] == files[s]
    requires id.Some? ==> s in files && ReadStoredId(files[s]) == Number(id.value)
    ensures id.Some? ==> LoadInto(reg, s).ids.Get(s) == id
  {
  }

  /** Loading slot `s` leaves slot `t`'s id and file as they were. */
  lemma LoadIntoElsewhere(reg: Registry, s: Slot, t: Slot)
    requires t != s
    ensures LoadInto(reg, s).ids.Get(t) == reg.ids.Get(t)
    ensures t in LoadInto(reg, s).files <==> t in reg.files
    ensures t in reg.files ==> LoadInto(reg, s).files[t] == reg.files[t]
  {
  }

  /** The loader's three steps, one slot at a time. */
  lemma LoadOrderSteps(reg: Registry)
    ensures LoadSlots(reg, LoadOrder) == LoadInto(LoadInto(LoadInto(reg, Panel), History), Status)
  {
    assert [Panel][..0] == [] && [Panel, History][..1] == [Panel] && LoadOrder[..2] == [Panel, History];
    assert LoadSlots(reg, [Panel]) == LoadInto(reg, Panel);
    assert LoadSlots(reg, [Panel, History]) == LoadInto(LoadInto(reg, Panel), History);
  }

  /** After a restart, the loader restores the id a consistent registry held in slot `s`:
      the slots loaded before and after `s` leave its id and file alone. */
  lemma RestartRecoversSlot(reg: Registry, s: Slot)
    requires Consistent(reg)
    requires reg.ids.Get(s).Some?
    ensures LoadSlots(Fresh(reg.files), LoadOrder).ids.Get(s) == reg.ids.Get(s)
  {
    var r0 := Fresh(reg.files);
    var r1 := LoadInto(r0, Panel);
    var r2 := LoadInto(r1, History);
    LoadOrderSteps(r0);
    match s
    case Panel =>
      LoadIntoRecovers(r0, reg.files, Panel, reg.ids.Get(Panel));
      LoadIntoElsewhere(r1, History, Panel);
      LoadIntoElsewhere(r2, Status, Panel);
    case History =>
      LoadIntoElsewhere(r0, Panel, History);
      LoadIntoRecovers(r1, reg.files, History, reg.ids.Get(History));
      LoadIntoElsewhere(r2, Status, History);
    case Status =>
      LoadIntoElsewhere(r0, Panel, Status);
      LoadIntoElsewhere(r1, History, Status);
      LoadIntoRecovers(r2, reg.files, Status, reg.ids.Get(Status));
  }

  /** Persistence works: after a restart, loading the files a consistent registry left
      behind restores every id that registry held. */
  lemma RestartRecoversIds(reg: Registry)
    requires Consistent(reg)
    ensures forall s :: reg.ids.Get(s).Some? ==> LoadSlots(Fresh(reg.files), LoadOrder).ids.Get(s) == reg.ids.Get(s)
  {
    forall s | reg.ids.Get(s).Some?
      ensures LoadSlots(Fresh(reg.files), LoadOrder).ids.Get(s) == reg.ids.Get(s)
    {
      RestartRecoversSlot(reg, s);
    }
  }


}
