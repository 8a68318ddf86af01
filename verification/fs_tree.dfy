/** The part of the workspace file system the resource walkers see. Each
    node carries the path the walkers compute for it relative to the
    workspace folder, and the outcome of the operations they perform on it:
    a file's read either yields its text or fails; a directory's listing
    either yields its children, in listing order, or fails. Nodes of any
    other type (a symbolic link, say) may still be readable. */
module FsTree {
  import opened Wrappers

  datatype Node =
    | File(path: string, content: Option<string>)
    | Dir(path: string, children: seq<Node>)
    | UnlistableDir(path: string)
    | Other(path: string, content: Option<string>)
  {
    /** `stat(uri).type === FileType.Directory`. */
    predicate IsDirectory() {
      Dir? || UnlistableDir?
    }
  }
}
