/**
 * The main process's state and handlers: the change callback that inserts into
 * the history and persists it, and the `clipboard:*` and `settings:save` IPC
 * handlers. The persisted copy of the history always equals the in-memory one.
 */
module MainProcess {
  import opened Wrappers
  import opened Entries
  import opened Monitor
  import opened History
  import opened Store

  /** Whether `settings:save` re-registers: the new shortcut is present, non-empty and not the stored one. */
  predicate Reregisters(stored: string, update: PartialSettings) {
    update.shortcut.Some? && update.shortcut.value != "" && update.shortcut.value != stored
  }

  /**
   * The accelerators registered after `settings:save`: when it re-registers,
   * the stored shortcut is unregistered and the new one registered; otherwise
   * nothing changes. Only the stored shortcut can go, only the new one can come.
   */
  function Reregistered(registered: set<string>, stored: string, update: PartialSettings): (r: set<string>)
    ensures Reregisters(stored, update) ==> update.shortcut.value in r && stored !in r
    ensures !Reregisters(stored, update) ==> r == registered
    ensures forall a :: a in r ==> a in registered || (update.shortcut.Some? && a == update.shortcut.value)
    ensures forall a :: a in registered && a != stored ==> a in r
  {
    if Reregisters(stored, update) then registered - {stored} + {update.shortcut.value} else registered
  }

  /**
   * While the stored shortcut is registered, a save that does not store the
   * empty string leaves the newly stored shortcut registered.
   */
  lemma StoredShortcutStaysRegistered(registered: set<string>, current: Settings, update: PartialSettings)
    requires current.shortcut in registered
    requires update.shortcut != Some("")
    ensures Merge(current, update).shortcut in Reregistered(registered, current.shortcut, update)
  {
  }

  /**
   * Storing an empty shortcut registers nothing and unregisters nothing. The
   * next save then unregisters `""` instead of the accelerator still
   * registered, so the first and the new accelerator both stay registered.
   */
  lemma EmptyShortcutLeavesOldRegistered(current: Settings, x: string)
    requires current.shortcut != "" && x != "" && x != current.shortcut
    ensures var first := PartialSettings(None, Some(""));
      var second := PartialSettings(None, Some(x));
      var afterFirst := Reregistered({current.shortcut}, current.shortcut, first);
      && Merge(current, first).shortcut == ""
      && afterFirst == {current.shortcut}
      && Reregistered(afterFirst, Merge(current, first).shortcut, second) == {current.shortcut, x}
  {
  }

  class MainState {
    const store: AppStore
    const monitor: ClipboardMonitor
    const history: HistoryStore
    /** The accelerators registered as global shortcuts. */
    var registered: set<string>
    /** Every text written to the clipboard by `clipboard:copy`, oldest first. */
    var clipboardWrites: seq<string>

    ghost predicate Valid()
      reads this, store, monitor, history
    {
      store.history == history.items && monitor.hasCallback
    }

    /**
     * The `ready` sequence: load the history, read the settings and register
     * the shortcut, then start the monitor on the clipboard as it is now.
     */
    constructor (store: AppStore, hash: Hasher, clipboardNow: Clipboard, timer: TimerId)
      ensures Valid() && fresh(monitor) && fresh(history)
      ensures this.store == store && unchanged(store)
      ensures history.items == store.history && history.maxHistory == store.settings.maxHistory
      ensures registered == {store.settings.shortcut} && clipboardWrites == []
      ensures monitor.hash == hash && monitor.intervalId == Some(timer)
      ensures monitor.Slots() == Baseline(hash, Fingerprints("", ""), clipboardNow)
    {
      var loaded := store.GetHistory();
      var windowSettings := store.GetSettings();
      var monitorSettings := store.GetSettings();
      var m := new ClipboardMonitor(hash);
      m.Start(clipboardNow, timer);
      this.store := store;
      this.monitor := m;
      this.history := new HistoryStore(loaded, monitorSettings.maxHistory);
      registered := {windowSettings.shortcut};
      clipboardWrites := [];
    }

    /** One poll of the monitor; an emitted entry goes through the change callback. */
    method Poll(c: Clipboard, id: string, now: int) returns (added: Option<Entry>)
      requires Valid()
      modifies monitor`lastTextHash, monitor`lastImageHash, history`items, store`history, store`writes
      ensures Valid()
      ensures monitor.Slots() == Step(monitor.hash, old(monitor.Slots()), c, id, now).0
      ensures added == Step(monitor.hash, old(monitor.Slots()), c, id, now).1
      ensures added.Some? ==> history.items == Inserted(old(history.items), added.value, history.maxHistory)
      ensures added.None? ==> history.items == old(history.items) && store.writes == old(store.writes)
    {
      added := monitor.Check(c, id, now);
      if added.Some? {
        OnClipboardChange(added.value);
      }
    }

    /** The change callback: insert at the head, evict at most one, persist. */
    method OnClipboardChange(entry: Entry)
      requires Valid()
      modifies history`items, store`history, store`writes
      ensures Valid()
      ensures history.items == Inserted(old(history.items), entry, history.maxHistory)
    {
      history.Insert(entry);
      store.SaveHistory(history.items);
    }

    /** `clipboard:get-history`. */
    method GetHistory() returns (h: seq<Entry>)
      requires Valid()
      ensures h == history.items && h == store.history
    {
      h := history.items;
    }

    /** `clipboard:copy`: write the text to the clipboard; the history is not touched and nothing is suppressed. */
    method Copy(content: string)
      modifies this`clipboardWrites
      ensures clipboardWrites == old(clipboardWrites) + [content]
    {
      clipboardWrites := clipboardWrites + [content];
    }

    /** `clipboard:delete`: remove the first entry with that id, and persist only if one was found. */
    method Delete(id: string)
      requires Valid()
      modifies history`items, store`history, store`writes
      ensures Valid()
      ensures history.items == RemoveFirst(old(history.items), id)
      ensures (forall j :: 0 <= j < |old(history.items)| ==> old(history.items)[j].id != id) ==>
        history.items == old(history.items) && store.writes == old(store.writes)
    {
      var found := history.Delete(id);
      if found {
        store.SaveHistory(history.items);
      }
    }

    /** `clipboard:clear`. */
    method Clear()
      requires Valid()
      modifies history`items, store`history, store`writes
      ensures Valid()
      ensures history.items == [] && store.history == []
    {
      history.Clear();
      store.SaveHistory(history.items);
    }

    /** `settings:get`. */
    method GetSettings() returns (s: Settings)
      ensures s == store.settings
    {
      s := store.GetSettings();
    }

    /**
     * `settings:save`: merge into the store, and when a non-empty different
     * shortcut arrives, unregister the stored one and register the new one.
     * The history bound is not re-read.
     */
    method SaveSettings(update: PartialSettings)
      requires Valid()
      modifies store`settings, store`writes, this`registered
      ensures Valid()
      ensures store.settings == Merge(old(store.settings), update)
      ensures history.items == old(history.items)
      ensures registered == Reregistered(old(registered), old(store.settings.shortcut), update)
    {
      var oldSettings := store.GetSettings();
      store.SaveSettings(update);
      if update.shortcut.Some? && update.shortcut.value != "" && update.shortcut.value != oldSettings.shortcut {
        registered := registered - {oldSettings.shortcut};
        registered := registered + {update.shortcut.value};
      }
    }
  }
}
