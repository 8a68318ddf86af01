/** The filtered walk of src/services/resource-processor-service.ts. A
    directory is expanded depth first, in listing order: a subdirectory's
    entries stand where the subdirectory stands among its siblings, a file
    gives an entry when the filter accepts its path and its read succeeds,
    and any other kind of child gives nothing. A directory whose listing
    fails gives nothing, and its siblings are still walked. The walked
    entries then go to the clipboard service: the first starts a new
    clipboard, the rest are added one by one until the service reports that
    it has no space left, and finally the clipboard text is set to all walked
    entries formatted, the ones not added included. */
module ResourceWalker {
  import opened Wrappers
  import opened Types
  import opened FsTree
  import opened Formatter
  import opened Sink

  /** `filterService.shouldProcessFile(relativePath)`. */
  type Accept = string -> bool
  /** `Date.now()` at the moment the file at a path is read. */
  type Clock = string -> int
  /** `clipboardService.hasSpace()`, as a function of the calls received. */
  type HasSpace = seq<SinkCall> -> bool

  // ---------------------------------------------------------------------------
  // The walk as functions

  /** `processFile`: an entry exactly when the path is accepted and the read
      succeeds, stamped with the clock. */
  function FileEntry(path: string, content: Option<string>, accept: Accept, clock: Clock): (r: Option<Entry>)
    ensures r.Some? <==> accept(path) && content.Some?
    ensures r.Some? ==> r.value.relativePath == path && r.value.content == content.value
                        && r.value.timestamp == clock(path)
  {
    if accept(path) && content.Some? then Some(Entry(path, content.value, clock(path))) else None
  }

  /** What one child of a listed directory contributes. */
  function ChildEntries(c: Node, accept: Accept, clock: Clock): (r: seq<Entry>)
    ensures forall k :: 0 <= k < |r| ==> accept(r[k].relativePath) && r[k].timestamp == clock(r[k].relativePath)
  {
    match c
    case File(p, content) => FileEntry(p, content, accept, clock).ToSeq()
    case Dir(_, cs) => Expand(cs, accept, clock)
    case UnlistableDir(_) => []
    case Other(_, _) => []
  }

  /** The children's contributions, in listing order. */
  function Expand(cs: seq<Node>, accept: Accept, clock: Clock): (r: seq<Entry>)
    ensures forall k :: 0 <= k < |r| ==> accept(r[k].relativePath) && r[k].timestamp == clock(r[k].relativePath)
  {
    if cs == [] then []
    else
      var head := ChildEntries(cs[0], accept, clock);
      var tail := Expand(cs[1..], accept, clock);
      assert forall k :: |head| <= k < |head + tail| ==> (head + tail)[k] == tail[k - |head|];
      head + tail
  }

  /** `processDirectory`: the expansion of the listing, or nothing when the
      listing fails. */
  function DirEntries(d: Node, accept: Accept, clock: Clock): (r: seq<Entry>)
    requires d.IsDirectory()
    ensures d.UnlistableDir? ==> r == []
    ensures forall k :: 0 <= k < |r| ==> accept(r[k].relativePath) && r[k].timestamp == clock(r[k].relativePath)
  {
    match d
    case Dir(_, cs) => Expand(cs, accept, clock)
    case UnlistableDir(_) => []
  }

  /** The entries `processResource` collects for a resource in a workspace:
      a directory is walked; anything else is processed as one file. */
  function RootEntries(root: Node, accept: Accept, clock: Clock): (r: seq<Entry>)
    ensures forall k :: 0 <= k < |r| ==> accept(r[k].relativePath) && r[k].timestamp == clock(r[k].relativePath)
    ensures !root.IsDirectory() ==> (r != [] <==> accept(root.path) && root.content.Some?) && |r| <= 1
  {
    match root
    case Dir(_, _) => DirEntries(root, accept, clock)
    case UnlistableDir(_) => DirEntries(root, accept, clock)
    case File(p, content) => FileEntry(p, content, accept, clock).ToSeq()
    case Other(p, content) => FileEntry(p, content, accept, clock).ToSeq()
  }

  /** Pre-order in listing order: walking two runs of siblings is walking the
      first, then the second. */
  lemma {:induction false} ExpandConcat(a: seq<Node>, b: seq<Node>, accept: Accept, clock: Clock)
    ensures Expand(a + b, accept, clock) == Expand(a, accept, clock) + Expand(b, accept, clock)
  {
    if a == [] {
      assert a + b == b;
    } else {
      assert (a + b)[0] == a[0] && (a + b)[1..] == a[1..] + b;
      ExpandConcat(a[1..], b, accept, clock);
    }
  }

  /** A single child contributes what it contributes on its own. */
  lemma ExpandOne(c: Node, accept: Accept, clock: Clock)
    ensures Expand([c], accept, clock) == ChildEntries(c, accept, clock)
  {
    assert [c][1..] == [];
  }

  /** A subdirectory's entries sit exactly where the subdirectory sits. */
  lemma SubdirectoryInPlace(before: seq<Node>, p: string, sub: seq<Node>, after: seq<Node>, accept: Accept, clock: Clock)
    ensures Expand(before + [Dir(p, sub)] + after, accept, clock)
         == Expand(before, accept, clock) + Expand(sub, accept, clock) + Expand(after, accept, clock)
  {
    ExpandConcat(before + [Dir(p, sub)], after, accept, clock);
    ExpandConcat(before, [Dir(p, sub)], accept, clock);
    ExpandOne(Dir(p, sub), accept, clock);
  }

  /** A child whose listing fails, or that is neither a file nor a directory,
      is passed over and the walk goes on with its siblings. */
  lemma SkippedChildren(before: seq<Node>, c: Node, after: seq<Node>, accept: Accept, clock: Clock)
    requires c.UnlistableDir? || c.Other?
    ensures Expand(before + [c] + after, accept, clock)
         == Expand(before, accept, clock) + Expand(after, accept, clock)
  {
    ExpandConcat(before + [c], after, accept, clock);
    ExpandConcat(before, [c], accept, clock);
    ExpandOne(c, accept, clock);
  }

  // ---------------------------------------------------------------------------
  // Feeding the clipboard service

  /** The calls made by adding `rest` one entry at a time, stopping at the
      first moment the service has no space. */
  function Fed(calls: seq<SinkCall>, rest: seq<Entry>, hasSpace: HasSpace): (r: seq<SinkCall>)
    ensures |calls| <= |r| <= |calls| + |rest|
    ensures !hasSpace(calls) ==> r == calls
    decreases |rest|
  {
    if rest == [] || !hasSpace(calls) then calls
    else Fed(calls + [AddEntry(rest[0])], rest[1..], hasSpace)
  }

  /** Feeding adds `AddEntry` calls for a prefix of `rest`, in order; each
      call was made only after the service reported space, and feeding stops
      early only when the service is full. */
  lemma {:induction false} FedPrefix(calls: seq<SinkCall>, rest: seq<Entry>, hasSpace: HasSpace)
    ensures var r := Fed(calls, rest, hasSpace);
      && |calls| <= |r| <= |calls| + |rest|
      && r[..|calls|] == calls
      && (forall k :: |calls| <= k < |r| ==> r[k] == AddEntry(rest[k - |calls|]))
      && (forall k :: |calls| <= k < |r| ==> hasSpace(r[..k]))
      && (|r| < |calls| + |rest| ==> !hasSpace(r))
    decreases |rest|
  {
    if rest != [] && hasSpace(calls) {
      var next := calls + [AddEntry(rest[0])];
      FedPrefix(next, rest[1..], hasSpace);
      var r := Fed(calls, rest, hasSpace);
      assert r[..|next|][..|calls|] == r[..|calls|];
      forall k | |calls| <= k < |r| ensures r[k] == AddEntry(rest[k - |calls|]) {
        if k == |calls| {
          assert r[..|next|][k] == next[k];
        } else {
          assert rest[1..][k - |next|] == rest[k - |calls|];
        }
      }
      assert r[..|calls|] == calls;
    }
  }

  /** While the service has space, every entry is added. */
  lemma {:induction false} FedAll(calls: seq<SinkCall>, rest: seq<Entry>, hasSpace: HasSpace)
    requires forall cs :: hasSpace(cs)
    ensures |Fed(calls, rest, hasSpace)| == |calls| + |rest|
    decreases |rest|
  {
    if rest != [] {
      FedAll(calls + [AddEntry(rest[0])], rest[1..], hasSpace);
    }
  }

  /** The calls `processResource` makes after `prior`, given its entries. */
  function ResourceCalls(prior: seq<SinkCall>, root: Node, entries: seq<Entry>,
                         hasSpace: HasSpace, format: Option<string>): (r: seq<SinkCall>)
    ensures entries == [] ==> r == prior
    ensures entries != [] ==> && |prior| + 2 <= |r| <= |prior| + |entries| + 1
                              && r[..|prior| + 1] == prior + [StartNew(entries[0])]
                              && r[|r| - 1] == SetContent(FormatEntries(format, entries))
    ensures entries != [] && !root.IsDirectory() ==> |r| == |prior| + 2
  {
    if entries == [] then prior
    else if root.IsDirectory() then
      FedPrefix(prior + [StartNew(entries[0])], entries[1..], hasSpace);
      Fed(prior + [StartNew(entries[0])], entries[1..], hasSpace) + [SetContent(FormatEntries(format, entries))]
    else prior + [StartNew(entries[0]), SetContent(FormatEntries(format, entries))]
  }

  // ---------------------------------------------------------------------------
  // The service

  class ResourceProcessor {
    const sink: ClipboardSink
    const accept: Accept
    const clock: Clock
    const hasSpace: HasSpace
    /** The format setting the formatter reads. */
    const format: Option<string>

    constructor (sink: ClipboardSink, accept: Accept, clock: Clock, hasSpace: HasSpace, format: Option<string>)
      ensures this.sink == sink && this.accept == accept && this.clock == clock
      ensures this.hasSpace == hasSpace && this.format == format
    {
      this.sink := sink;
      this.accept := accept;
      this.clock := clock;
      this.hasSpace := hasSpace;
      this.format := format;
    }

    /** `processFile`. */
    method ProcessFile(path: string, content: Option<string>) returns (r: Option<Entry>)
      ensures r == FileEntry(path, content, accept, clock)
    {
      r := None;
      if accept(path) {
        match content
        case Some(text) => r := Some(Entry(path, text, clock(path)));
        case None =>
      }
    }

    /** `processDirectory`: the children in listing order, each directory
        walked in turn, each file processed, everything else passed over. */
    method ProcessDirectory(d: Node) returns (entries: seq<Entry>)
      requires d.IsDirectory()
      ensures entries == DirEntries(d, accept, clock)
      decreases d
    {
      entries := [];
      if d.UnlistableDir? {
        return;
      }
      var cs := d.children;
      for i := 0 to |cs|
        invariant entries == Expand(cs[..i], accept, clock)
      {
        var c := cs[i];
        var part: seq<Entry> := [];
        match c {
          case Dir(_, _) =>
            part := ProcessDirectory(c);
          case UnlistableDir(_) =>
            part := ProcessDirectory(c);
          case File(p, content) =>
            var e := ProcessFile(p, content);
            if e.Some? {
              part := [e.value];
            }
          case Other(_, _) =>
        }
        ExpandConcat(cs[..i], [c], accept, clock);
        ExpandOne(c, accept, clock);
        assert cs[..i + 1] == cs[..i] + [c];
        entries := entries + part;
      }
      assert cs[..|cs|] == cs;
    }

    /** `processResource`: nothing happens outside a workspace. Otherwise
        the resource is walked (a directory) or processed (anything else);
        the entries go to the clipboard service and are returned. */
    method ProcessResource(root: Node, inWorkspace: bool) returns (entries: seq<Entry>)
      modifies sink
      ensures !inWorkspace ==> entries == [] && sink.calls == old(sink.calls)
      ensures inWorkspace ==> entries == RootEntries(root, accept, clock)
      ensures inWorkspace ==> sink.calls == ResourceCalls(old(sink.calls), root, entries, hasSpace, format)
    {
      if !inWorkspace {
        return [];
      }
      entries := [];
      if root.IsDirectory() {
        var dirEntries := ProcessDirectory(root);
        if |dirEntries| > 0 {
          sink.StartNewClipboard(dirEntries[0]);
          var i := 1;
          while i < |dirEntries|
            invariant 1 <= i <= |dirEntries|
            invariant Fed(sink.calls, dirEntries[i..], hasSpace)
                   == Fed(old(sink.calls) + [StartNew(dirEntries[0])], dirEntries[1..], hasSpace)
            decreases |dirEntries| - i
          {
            if !hasSpace(sink.calls) {
              break;
            }
            assert dirEntries[i..][1..] == dirEntries[i + 1..];
            sink.AddEntryToClipboard(dirEntries[i]);
            i := i + 1;
          }
        }
        entries := dirEntries;
      } else {
        var fileEntry := ProcessFile(root.path, root.content);
        if fileEntry.Some? {
          sink.StartNewClipboard(fileEntry.value);
          entries := [fileEntry.value];
        }
      }
      if |entries| > 0 {
        sink.SetContentCall(FormatEntries(format, entries));
      }
    }
  }
}
