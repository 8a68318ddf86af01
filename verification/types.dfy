/** The records every component shares. */
module Types {

  /** One captured file: its path relative to the workspace folder, its text,
      and the clock reading (milliseconds) at capture. */
  datatype Entry = Entry(relativePath: string, content: string, timestamp: int)

  /** A named list of entries. The older list service calls the two clock
      fields `created` and `lastModified`; they hold the same readings. */
  datatype List = List(id: string, name: string, entries: seq<Entry>, createdAt: int, updatedAt: int)
}
