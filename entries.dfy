/** The record the monitor emits and the history keeps (`ClipboardEntry`). */
module Entries {
  import opened Wrappers

  /** The `type` field: the monitor only ever produces text and image entries. */
  datatype EntryKind = TextKind | ImageKind

  /**
   * One history item. `id` comes from `randomUUID`, `timestamp` from `Date.now`;
   * `preview` is set for image entries only.
   */
  datatype Entry = Entry(
    id: string,
    content: string,
    kind: EntryKind,
    timestamp: int,
    preview: Option<string>)
}
