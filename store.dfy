/**
 * The persisted key-value store (`electron-store`), held in memory: the
 * `history` key and the `settings` key, with their defaults.
 */
module Store {
  import opened Wrappers
  import opened Entries

  datatype Settings = Settings(maxHistory: int, shortcut: string)

  /** `Partial<Settings>`: a field that is absent is `None`. */
  datatype PartialSettings = PartialSettings(maxHistory: Option<int>, shortcut: Option<string>)

  const DefaultSettings := Settings(100, "CommandOrControl+Option+V")

  /** `{ ...current, ...update }`: every field present in `update` wins, every absent one is kept. */
  function Merge(current: Settings, update: PartialSettings): (r: Settings)
    ensures update.maxHistory.Some? ==> r.maxHistory == update.maxHistory.value
    ensures update.maxHistory.None? ==> r.maxHistory == current.maxHistory
    ensures update.shortcut.Some? ==> r.shortcut == update.shortcut.value
    ensures update.shortcut.None? ==> r.shortcut == current.shortcut
  {
    Settings(update.maxHistory.GetOr(current.maxHistory), update.shortcut.GetOr(current.shortcut))
  }

  /** Merging an empty partial changes nothing; merging the same partial twice is merging it once. */
  lemma MergeEmptyAndIdempotent(current: Settings, update: PartialSettings)
    ensures Merge(current, PartialSettings(None, None)) == current
    ensures Merge(Merge(current, update), update) == Merge(current, update)
  {
  }

  class AppStore {
    var history: seq<Entry>
    var settings: Settings
    /** How many times the store has been written. */
    var writes: nat

    /** A store on a fresh install: the defaults. */
    constructor ()
      ensures history == [] && settings == DefaultSettings && writes == 0
    {
      history := [];
      settings := DefaultSettings;
      writes := 0;
    }

    method GetHistory() returns (h: seq<Entry>)
      ensures h == history
    {
      h := history;
    }

    /** After `SaveHistory(h)`, `GetHistory()` returns `h`; the settings are untouched. */
    method SaveHistory(h: seq<Entry>)
      modifies this`history, this`writes
      ensures history == h && writes == old(writes) + 1
    {
      history := h;
      writes := writes + 1;
    }

    method GetSettings() returns (s: Settings)
      ensures s == settings
    {
      s := settings;
    }

    /** `saveSettings`: merge the partial over the current settings and write them back. */
    method SaveSettings(update: PartialSettings)
      modifies this`settings, this`writes
      ensures settings == Merge(old(settings), update) && writes == old(writes) + 1
    {
      var current := settings;
      settings := Merge(current, update);
      writes := writes + 1;
    }
  }
}
