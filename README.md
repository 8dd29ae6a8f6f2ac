# Pastry clipboard history — a Dafny model

Pastry is an Electron menu-bar app that keeps a history of what was copied.
This project models its logic:

- **The change detector** (`ClipboardMonitor`). It keeps two fingerprint slots,
  one for text and one for images. `start` primes them from the clipboard as it
  is. Each poll is an explicit call to `Check` with the clipboard's contents.
  Non-empty text wins over an image. An entry is emitted only when the
  fingerprint of the winning kind differs from its slot. On an emission that
  slot is updated and the other slot is cleared. The pure function
  `Monitor.Step` states one poll, and `Monitor.Run` states a series of polls.
- **The main process's history** (`HistoryStore`). It is newest first. On
  insert it does `unshift` and then at most one `pop`. Delete removes the first
  entry with that id. Clear empties the list. The bound is read once at setup.
  `MainState` wires the monitor, the history and the persisted store together
  through the change callback and the `clipboard:*` / `settings:*` IPC handlers.
  Its invariant is that the persisted history always equals the in-memory one.
- **The settings store** (`electron-store`). It holds defaults, the history
  key and a settings merge `{...current, ...partial}`.
- **Renderer helpers.** These cover shortcut recording from one key press, the
  history-limit range check, the glyph form of a shortcut, content truncation,
  the relative-time buckets, the search filter and the local delete.

The digest (MD5 in the app) is a function supplied to the monitor. The model
assumes only what `Monitor.IsDigest` says: the digest is injective and never
the empty string. `randomUUID()`, `Date.now()`, `toPNG()`, `toDataURL()`,
`getSize()`, `parseInt` and `toLocaleDateString()` are inputs.

A few facts about the code that the model keeps:

- The monitor keeps two fingerprint slots, text and image. There is no file
  kind and no suppression of self-writes: `clipboard:copy` writes to the
  clipboard with no guard, so the next poll records that text again if its
  slot differs (`Monitor.EmitsExactlyOnChange`).
- Each insert pops at most one entry, so a history loaded longer than the
  bound keeps its length (`History.InsertBound`).
- The bound is read once, when the monitor is set up. A later `settings:save`
  does not change it (`HistoryStore.maxHistory` is a `const`).
- `start` does not guard against being called twice.
- `settings:save` unregisters the stored shortcut, not necessarily the
  registered one. The model takes `globalShortcut.unregister` to return
  normally for any string, `""` included, and `register` to succeed. Under
  that assumption, after a save that stores the empty shortcut, the next save
  leaves two accelerators registered
  (`MainProcess.EmptyShortcutLeavesOldRegistered`).

A shortcut whose key is `+` joins to an ambiguous accelerator such as
`Shift++`. `SettingsView.RecordedShortcutSplits` shows that any other recorded
shortcut splits back into its parts.

## Model

| member | source | states |
|---|---|---|
| Monitor.ClipboardMonitor.constructor | src/main/clipboard-monitor.ts:14-18 | a new monitor has no timer, no callback and both slots empty |
| Monitor.ClipboardMonitor.Start | src/main/clipboard-monitor.ts:20-27 | registers the callback, primes the slots from the current clipboard (`Baseline`) and overwrites the timer handle |
| Monitor.ClipboardMonitor.Stop | src/main/clipboard-monitor.ts:29-34 | afterwards there is no timer, whatever the state before, so stopping twice is harmless |
| Monitor.ClipboardMonitor.UpdateHashes | src/main/clipboard-monitor.ts:70-80 | overwrites only the slots of the kinds present, both when text and image are present |
| Monitor.ClipboardMonitor.EmitEntry | src/main/clipboard-monitor.ts:86-90 | the entry reaches the callback exactly when one is registered, otherwise nothing happens |
| Monitor.Baseline | src/main/clipboard-monitor.ts:70-80 | `updateHashes` as a value: each present kind's slot takes its digest, an absent kind's slot keeps its value (specified further by `BaselineSilencesFirstCheck`) |
| Monitor.Step | src/main/clipboard-monitor.ts:36-68 | one `check` as a value: a silent poll keeps the slots; an entry carries the poll's id and clock, and one of the slots is then cleared (specified further by `EmitsExactlyOnChange`, `TextTakesPrecedence`, `AcceptedContentShape`) |
| Monitor.Run | src/main/clipboard-monitor.ts:24-68 | a series of polls: at most one entry per poll, and no entry means unchanged slots (specified further by `IdenticalPollsEmitAtMostOnce`, `TextRevisitReemits`) |
| Monitor.ClipboardMonitor.Check | src/main/clipboard-monitor.ts:36-68 | the new slots and the entry handed on are those of `Step` on the old slots |
| Monitor.BaselineSilencesFirstCheck | src/main/clipboard-monitor.ts:20-80 | after priming, a poll of the same clipboard emits nothing and changes no slot |
| Monitor.EmitsExactlyOnChange | src/main/clipboard-monitor.ts:40-67 | a poll emits iff (text non-empty and its digest differs from the text slot) or (text empty, image present and its digest differs from the image slot); with no emission the slots are unchanged |
| Monitor.TextTakesPrecedence | src/main/clipboard-monitor.ts:40-52 | with non-empty text the image is ignored entirely and any entry is a text entry |
| Monitor.ImageOnlyWithoutText | src/main/clipboard-monitor.ts:52-66 | an image entry implies empty text and a present image |
| Monitor.EmptyClipboardIsNoop | src/main/clipboard-monitor.ts:36-68 | empty text and no image: no entry, slots unchanged |
| Monitor.RepeatIsSilent | src/main/clipboard-monitor.ts:42-55 | a second poll of identical content emits nothing and leaves both slots as they are |
| Monitor.AcceptedContentShape | src/main/clipboard-monitor.ts:43-65 | text emission sets slots to (digest(text), ""), image emission to ("", digest(png)); text entry has content = text and no preview; image entry has content `[Image WxH]` and the data-URL preview |
| Monitor.UnchangedContentStaysSilent | src/main/clipboard-monitor.ts:36-68 | once a poll of some content is silent, any number of further polls of it emit nothing |
| Monitor.IdenticalPollsEmitAtMostOnce | src/main/clipboard-monitor.ts:24-68 | a run of polls of identical content yields at most one entry, the one of the first poll |
| Monitor.TextRevisitReemits | src/main/clipboard-monitor.ts:42-44 | text A, B, A (A new) yields three entries A, B, A: only the latest fingerprint is remembered |
| Monitor.ImageBetweenReemitsText | src/main/clipboard-monitor.ts:42-57 | text A, an image, text A yields A, the image entry, A: the image clears the text slot |
| History.HistoryStore.constructor | src/main.ts:85 | the history starts as the loaded list with the bound read at setup |
| History.Inserted | src/main.ts:88-94 | `unshift` then at most one `pop`: the length grows by at most one and never shrinks, the entry is first, nothing else enters (specified further by `InsertKeepsNewestFirst`, `InsertBound`) |
| History.InsertAll | src/main.ts:87-97 | the callback run once per arrival: at most one element more per arrival, and only arrivals or loaded entries (specified further by `InsertAllNewestFirst`) |
| History.HistoryStore.Insert | src/main.ts:89-94 | the new list is `Inserted(old, entry, maxHistory)` |
| History.InsertKeepsNewestFirst | src/main.ts:88-94 | the result is a prefix of `[entry] + old` that drops at most the last element; the entry is first and the old entries follow in order |
| History.InsertBound | src/main.ts:92-94 | length <= bound is preserved; an over-long loaded list keeps its length; with bound >= 1 the entry is at index 0 |
| History.InsertAllNewestFirst | src/main.ts:87-97 | over any run of inserts the bound is kept and the list is a prefix of the arrivals newest first followed by the loaded list (eviction from the tail only) |
| History.FindIndex | src/main.ts:116 | returns the first index with that id, or -1 exactly when no entry has it |
| History.RemoveFirst | src/main.ts:116-118 | `findIndex` plus `splice(index, 1)`: one element shorter exactly when the id is present, and nothing new appears (specified further by `RemoveFirstAt`, `RemoveFirstAbsent`) |
| History.RemoveFirstAt | src/main.ts:116-118 | removing the first match at index i is `h[..i] + h[i+1..]`: the others keep their order |
| History.RemoveFirstAbsent | src/main.ts:116-117 | removing an absent id leaves the list unchanged |
| History.HistoryStore.Delete | src/main.ts:115-121 | reports whether the id was present, removes only its first occurrence, and leaves the list unchanged otherwise |
| History.HistoryStore.Clear | src/main.ts:124 | the list becomes empty |
| Store.Merge | src/main/store.ts:34-37 | each field present in the partial takes its value; each absent field keeps the current value |
| Store.MergeEmptyAndIdempotent | src/main/store.ts:34-37 | merging `{}` changes nothing; merging the same partial twice equals merging it once |
| Store.AppStore.constructor | src/main/store.ts:12-20 | a fresh store has an empty history and settings `{maxHistory: 100, shortcut: 'CommandOrControl+Option+V'}` |
| Store.AppStore.GetHistory | src/main/store.ts:22-24 | returns the stored history |
| Store.AppStore.SaveHistory | src/main/store.ts:26-28 | stores exactly `h`, so a following `GetHistory` returns `h`; counts one write |
| Store.AppStore.GetSettings | src/main/store.ts:30-32 | returns the stored settings |
| Store.AppStore.SaveSettings | src/main/store.ts:34-37 | the settings become `Merge(old, partial)`; counts one write |
| MainProcess.MainState.constructor | src/main.ts:152-164 | loads the history, takes the bound from the settings, registers exactly the stored shortcut (main.ts:68), starts the monitor primed on the current clipboard; persisted and in-memory history agree |
| MainProcess.MainState.Poll | src/main.ts:87-103 | a poll updates the slots as `Step` does; an emitted entry is inserted with the setup bound and persisted; a silent poll changes the history and the store not at all |
| MainProcess.MainState.OnClipboardChange | src/main.ts:87-97 | the callback inserts the entry and persists the list, keeping persisted = in-memory |
| MainProcess.MainState.GetHistory | src/main.ts:107-109 | returns the in-memory history, which equals the persisted one |
| MainProcess.MainState.Copy | src/main.ts:111-113 | appends the text to the clipboard writes and touches nothing else (no history change, no suppression) |
| MainProcess.MainState.Delete | src/main.ts:115-121 | removes the first entry with that id; for an absent id the history is unchanged and the store is not written |
| MainProcess.MainState.Clear | src/main.ts:123-126 | both the in-memory and the persisted history become empty |
| MainProcess.MainState.GetSettings | src/main.ts:129-131 | returns the stored settings |
| MainProcess.MainState.SaveSettings | src/main.ts:133-149 | the settings become the merge; the history is untouched; the registered set becomes `Reregistered` of the old set and the old stored shortcut |
| MainProcess.Reregistered | src/main.ts:138-141 | for a present, non-empty shortcut other than the stored one, the stored one is unregistered and the new one registered; otherwise the set is unchanged; nothing else enters or leaves |
| MainProcess.StoredShortcutStaysRegistered | src/main.ts:133-141 | while the stored shortcut is registered, a save that does not store `""` leaves the newly stored shortcut registered |
| MainProcess.EmptyShortcutLeavesOldRegistered | src/main.ts:133-141 | saving `""` stores it and changes no registration; a following save of `x` unregisters `""`, so the old accelerator and `x` are both registered (assuming `unregister("")` returns normally) |
| SettingsView.ShortcutKeys | src/components/Settings.tsx:31-41 | the parts pushed for one key press: one per modifier pressed (ctrl counts only without meta) plus one for a one-character key (specified further by `ShortcutKeysInOrder`, `ShortcutKeysParts`) |
| SettingsView.KeyPart | src/components/Settings.tsx:38-41 | the key is used exactly when it is one character, and then upper-cased |
| SettingsView.ShortcutKeysInOrder | src/components/Settings.tsx:33-41 | the parts are a subsequence of CommandOrControl, Control, Option, Shift, key |
| SettingsView.ShortcutKeysParts | src/components/Settings.tsx:33-41 | `CommandOrControl` is present iff meta is held, `Control` iff ctrl without meta, `Option` iff alt, `Shift` iff shift; a one-character key comes last, upper-cased |
| SettingsView.TwoModifiersQualify | src/components/Settings.tsx:43-46 | meta+shift with the Meta key gives the two-part shortcut `CommandOrControl+Shift` |
| SettingsView.RecordedShortcutSplits | src/components/Settings.tsx:44 | a recorded shortcut whose key is not `+` splits at `+` back into its parts |
| SettingsView.SettingsPanel.HandleKeyDown | src/components/Settings.tsx:27-47 | when not recording nothing changes; otherwise with at least two parts the shortcut becomes their `+` join and recording stops, and with fewer both stay |
| SettingsView.AcceptedMaxHistory | src/components/Settings.tsx:50-53 | a limit is accepted iff it parsed and lies in [10, 1000], both ends included, and then unchanged |
| SettingsView.SettingsPanel.HandleSave | src/components/Settings.tsx:49-62 | a rejected limit makes no request and leaves the saved flag; an accepted one requests both fields and sets the flag |
| SettingsView.SettingsPanel.constructor | src/components/Settings.tsx:19-25 | after loading, the panel shows the stored shortcut and is neither recording nor saved |
| SettingsView.SettingsPanel.StartRecording | src/components/Settings.tsx:103 | a click starts recording |
| SettingsView.SettingsPanel.StopRecording | src/components/Settings.tsx:105 | leaving the field stops recording |
| SettingsView.FormatShortcut | src/components/Settings.tsx:64-71 | the glyph form contains no `+` (specified further by `FormatRecordedShortcut`) |
| SettingsView.FormatRecordedShortcut | src/components/Settings.tsx:31-71 | for a recorded shortcut whose key is not `+`, the glyph form of its `+`-join is the space-join of its parts, each modifier as its glyph (`⌘`, `⌃`, `⌥`, `⇧`) and the key as recorded |
| SettingsView.FormatDefaultShortcut | src/components/Settings.tsx:64-71 | the default shortcut `CommandOrControl+Option+V` is shown as `⌘ ⌥ V` |
| ClipboardCard.TruncateContent | src/components/ClipboardCard.tsx:21-24 | at most `maxLength + 3` characters; content within the limit is unchanged; longer content keeps its first `maxLength` characters (specified further by `TruncateShape`, `TruncateIdempotent`) |
| ClipboardCard.TruncateShape | src/components/ClipboardCard.tsx:21-24 | content within the limit is shown whole; longer content becomes its first `maxLength` characters plus `...` (length `maxLength + 3`, 103 with the default 100) |
| ClipboardCard.TruncateIdempotent | src/components/ClipboardCard.tsx:21-24 | truncating a truncated text changes nothing |
| ClipboardCard.TimeBucket | src/components/ClipboardCard.tsx:13-18 | `diff < 60000` (negative included) is "Just now"; [60000, 3600000) gives minutes 1..59 with minutes*60000 <= diff; [3600000, 86400000) gives hours 1..23; later diffs give the locale date |
| ClipboardCard.LabelText | src/components/ClipboardCard.tsx:15-18 | "Just now", the date, or a text ending in `m ago` / `h ago` by kind (specified further by `LabelNumberReadsBack`) |
| ClipboardCard.FormatTime | src/components/ClipboardCard.tsx:10-18 | an age under a minute reads "Just now", under an hour ends in `m ago`, under a day ends in `h ago`, and later is the locale date |
| ClipboardCard.LabelNumberReadsBack | src/components/ClipboardCard.tsx:16-17 | a minutes or hours label is the bucket's number in decimal followed by `m ago` / `h ago`, and that number reads back |
| AppView.FilteredItems | src/App.tsx:9-11 | `filteredItems`: each matching item with all its copies, no other item (specified further by `FilteredItemsSpec`) |
| AppView.FilteredItemsSpec | src/App.tsx:9-11 | the search result is a subsequence of the items; an item is kept, with all its copies, iff its lower-cased content contains the lower-cased query; an empty query keeps all; searching twice equals once |
| AppView.HandleDelete | src/App.tsx:18-20 | `handleDelete`: every item without the id with all its copies, none with it (specified further by `HandleDeleteSpec`, `HandleDeleteAbsent`) |
| AppView.HandleDeleteSpec | src/App.tsx:18-20 | every item with the id is removed, every other kept with all its copies, in order |
| AppView.HandleDeleteAbsent | src/App.tsx:18-20 | deleting an id no item has leaves the list unchanged |
| Sequences.Filter | src/App.tsx:9-11 | `filter` keeps every element passing the test with all its copies, drops every other, and is no longer than its input |
| Sequences.FilterIsSubsequence | src/App.tsx:9-11 | the kept elements keep their relative order |
| Sequences.FilterIdempotent | src/App.tsx:9-11 | filtering twice with the same test equals filtering once |
| Strings.IndexOf | src/App.tsx:10 | `indexOf` finds the first occurrence, or reports that there is none |
| Strings.IncludesIff | src/App.tsx:10 | `includes` holds iff the substring occurs somewhere |
| Strings.Lower | src/App.tsx:10 | lower-casing keeps the length and maps each character |
| Strings.Upper | src/components/Settings.tsx:38 | upper-casing keeps the length and maps each character |
| Strings.ReplaceFirst | src/components/Settings.tsx:66-69 | a string-pattern `replace` replaces only the first occurrence, and changes nothing when there is none |
| Strings.ReplaceAllChar | src/components/Settings.tsx:70 | the global `replace` of one character replaces every occurrence and leaves none |
| Strings.Join | src/components/Settings.tsx:44 | `join` begins with the first part (specified further by `SplitJoin`: splitting gives the parts back) |
| Strings.ReplaceFirstJoin | src/components/Settings.tsx:44-69 | a first-occurrence `replace` on a join, for a pattern free of the separator, replaces inside the first part that contains the pattern and leaves the other parts |
| Strings.ReplaceSeparator | src/components/Settings.tsx:44-70 | replacing every separator of a join, when no part contains it, gives the join with the new separator |
| Strings.SplitJoin | src/components/Settings.tsx:44 | splitting a `join` at a separator no part contains gives the parts back |
| Strings.NatToString | src/main/clipboard-monitor.ts:61 | a non-negative integer is printed as a non-empty string of digits without a leading zero |
| Strings.DecimalRoundTrip | src/components/ClipboardCard.tsx:16-17 | reading back a printed number gives the number |

## Left out

- Timers: `setInterval`, `clearInterval` and the 500 ms default interval are not modelled; each poll is an explicit `Check` / `Poll` call. A second `start` overwrites the interval handle without clearing the old interval, so the old timer would keep polling; the model records only the handle.
- The digest: MD5 is a supplied function assumed injective and never empty (`IsDigest`); real collisions are not modelled. A text and a PNG buffer with the same bytes are separate inputs.
- `randomUUID()`, `Date.now()`, `toPNG()`, `toDataURL()`, `getSize()` and `toLocaleDateString()` are inputs. Reading the clipboard is an input `Clipboard` value, and `writeText` is a log of written strings.
- Strings.Lower, Strings.Upper: only ASCII letters are case-mapped; other Unicode mappings, including those that change length (`ß` to `SS`), are not modelled.
- String lengths count Unicode characters, not JavaScript's UTF-16 code units (`truncateContent`, the one-character key test).
- `parseInt` is not modelled; its result is an input `Option<int>`, with `None` for `NaN`.
- Store.Merge: a partial whose field is present with the value `undefined` would overwrite that field in the spread; the model treats such a field as absent.
- Disk persistence of `electron-store` is an in-memory record; a write is counted in `writes`. Load failures are not modelled.
- The notification to the renderer (`clipboard:change`), the window, tray, dock, app lifecycle, `will-quit`, the actual global-shortcut registration (only the set of registered accelerators is kept; `register` is assumed to succeed and `unregister` to accept any string, `""` included, and to remove it from the set), the preload bridge, the list rendering, React state plumbing, the confirm dialog before clearing, `handleSelect` (a console log) and the 2-second reset of the saved flag are not modelled.
- The `'file'` entry kind declared for the renderer is never produced and is not modelled.
