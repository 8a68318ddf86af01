/** The pattern-filtered walk of src/services/file-processor.ts. Every child
    of a directory, directories included, is first checked against the
    configured pattern lists: it is skipped unless some allowlist pattern
    matches its relative path and no blocklist pattern does, so a skipped
    directory takes its whole subtree with it. A kept directory is walked; any
    other kept child is processed as a file, which sends one entry to the
    clipboard service. A failed read or listing is rethrown, so the rest of
    the walk does not happen; the entries already sent stay sent. */
module PatternWalker {
  import opened Wrappers
  import opened Types
  import opened FsTree
  import opened Sink
  import Filter

  /** The `CopyToolConfig` pattern lists (its `format` is not used here). */
  datatype Patterns = Patterns(allowlist: seq<string>, blocklist: seq<string>)

  /** What a walk sends to the clipboard service, and whether it ended with a
      rethrown error. */
  datatype Outcome = Outcome(emitted: seq<Entry>, failed: bool)

  /** `config.allowlist.some(match) && !config.blocklist.some(match)`. */
  predicate Kept(path: string, cfg: Patterns, matches: Filter.Matcher) {
    Filter.Some(cfg.allowlist, path, matches) && !Filter.Some(cfg.blocklist, path, matches)
  }

  /** A child is kept exactly when some allowlist pattern matches its path
      and no blocklist pattern does. */
  lemma KeptMeaning(path: string, cfg: Patterns, matches: Filter.Matcher)
    ensures Kept(path, cfg, matches) <==>
      (exists p :: p in cfg.allowlist && matches(p, path)) && (forall p :: p in cfg.blocklist ==> !matches(p, path))
  {
    Filter.SomeMeaning(cfg.allowlist, path, matches);
    Filter.SomeMeaning(cfg.blocklist, path, matches);
  }

  /** `processFile`: one entry, or a failure when the read fails. */
  function FileOutcome(path: string, content: Option<string>, clock: string -> int): (r: Outcome)
    ensures r.failed <==> content.None?
    ensures !r.failed ==> r.emitted == [Entry(path, content.value, clock(path))]
    ensures r.failed ==> r.emitted == []
  {
    match content
    case Some(text) => Outcome([Entry(path, text, clock(path))], false)
    case None => Outcome([], true)
  }

  /** The first outcome, then (unless it failed) the second. */
  function Then(a: Outcome, b: Outcome): (r: Outcome)
    ensures a.failed ==> r == a
    ensures !a.failed ==> r == Outcome(a.emitted + b.emitted, b.failed)
  {
    if a.failed then a else Outcome(a.emitted + b.emitted, b.failed)
  }

  /** What one child of a listed directory contributes. */
  function ChildOutcome(c: Node, cfg: Patterns, matches: Filter.Matcher, clock: string -> int): (r: Outcome)
    ensures !Kept(c.path, cfg, matches) ==> r == Outcome([], false)
    ensures Kept(c.path, cfg, matches) && c.UnlistableDir? ==> r == Outcome([], true)
    ensures Kept(c.path, cfg, matches) && !c.IsDirectory() ==> (r.failed <==> c.content.None?) && |r.emitted| <= 1
  {
    if !Kept(c.path, cfg, matches) then Outcome([], false)
    else
      match c
      case Dir(_, cs) => Expand(cs, cfg, matches, clock)
      case UnlistableDir(_) => Outcome([], true)
      case File(p, content) => FileOutcome(p, content, clock)
      case Other(p, content) => FileOutcome(p, content, clock)
  }

  /** The children in listing order, stopping at the first failure. */
  function Expand(cs: seq<Node>, cfg: Patterns, matches: Filter.Matcher, clock: string -> int): Outcome {
    if cs == [] then Outcome([], false)
    else Then(ChildOutcome(cs[0], cfg, matches, clock), Expand(cs[1..], cfg, matches, clock))
  }

  /** `processDirectory`: the listing's children, or a failure. */
  function DirOutcome(d: Node, cfg: Patterns, matches: Filter.Matcher, clock: string -> int): (r: Outcome)
    requires d.IsDirectory()
    ensures d.UnlistableDir? ==> r == Outcome([], true)
    ensures d.Dir? && cfg.allowlist == [] ==> r == Outcome([], false)
  {
    match d
    case Dir(_, cs) =>
      if cfg.allowlist == [] then
        EmptyAllowlistSkipsAll(cs, cfg, matches, clock);
        Expand(cs, cfg, matches, clock)
      else Expand(cs, cfg, matches, clock)
    case UnlistableDir(_) => Outcome([], true)
  }

  /** Everything a child sends passed the patterns. */
  lemma {:induction false} ChildKept(c: Node, cfg: Patterns, matches: Filter.Matcher, clock: string -> int)
    ensures forall e :: e in ChildOutcome(c, cfg, matches, clock).emitted ==> Kept(e.relativePath, cfg, matches)
    decreases c, 1
  {
    if Kept(c.path, cfg, matches) && c.Dir? {
      ExpandKept(c.children, cfg, matches, clock);
    }
  }

  /** Everything a walk sends passed the patterns: a skipped directory's
      subtree is never entered. */
  lemma {:induction false} ExpandKept(cs: seq<Node>, cfg: Patterns, matches: Filter.Matcher, clock: string -> int)
    ensures forall e :: e in Expand(cs, cfg, matches, clock).emitted ==> Kept(e.relativePath, cfg, matches)
    decreases cs
  {
    if cs != [] {
      ChildKept(cs[0], cfg, matches, clock);
      ExpandKept(cs[1..], cfg, matches, clock);
    }
  }

  /** A failure stops the walk: walking two runs of siblings is walking the
      first and, only if it did not fail, the second. */
  lemma {:induction false} ExpandConcat(a: seq<Node>, b: seq<Node>, cfg: Patterns, matches: Filter.Matcher, clock: string -> int)
    ensures Expand(a + b, cfg, matches, clock)
         == Then(Expand(a, cfg, matches, clock), Expand(b, cfg, matches, clock))
  {
    if a == [] {
      assert a + b == b;
    } else {
      assert (a + b)[0] == a[0] && (a + b)[1..] == a[1..] + b;
      ExpandConcat(a[1..], b, cfg, matches, clock);
    }
  }

  /** A child the patterns skip contributes nothing, whatever lies below
      it, even an unreadable file or an unlistable directory. */
  lemma SkippedSubtree(c: Node, rest: seq<Node>, cfg: Patterns, matches: Filter.Matcher, clock: string -> int)
    requires !Kept(c.path, cfg, matches)
    ensures Expand([c] + rest, cfg, matches, clock) == Expand(rest, cfg, matches, clock)
  {
    assert ([c] + rest)[0] == c && ([c] + rest)[1..] == rest;
  }

  /** With no allowlist pattern every child is skipped: nothing is sent and
      nothing fails. */
  lemma {:induction false} EmptyAllowlistSkipsAll(cs: seq<Node>, cfg: Patterns, matches: Filter.Matcher, clock: string -> int)
    requires cfg.allowlist == []
    ensures Expand(cs, cfg, matches, clock) == Outcome([], false)
  {
    if cs != [] {
      EmptyAllowlistSkipsAll(cs[1..], cfg, matches, clock);
    }
  }

  /** The calls that send `es` to the clipboard service, in order. */
  function AddCalls(es: seq<Entry>): seq<SinkCall> {
    if es == [] then [] else [AddToClipboard(es[0])] + AddCalls(es[1..])
  }

  /** One step of the walk over `cs[i..]`. */
  lemma ExpandStep(cs: seq<Node>, i: nat, cfg: Patterns, matches: Filter.Matcher, clock: string -> int)
    requires i < |cs|
    ensures Expand(cs[i..], cfg, matches, clock)
         == Then(ChildOutcome(cs[i], cfg, matches, clock), Expand(cs[i + 1..], cfg, matches, clock))
  {
    assert cs[i..][0] == cs[i] && cs[i..][1..] == cs[i + 1..];
  }

  /** Regrouping the steps of a walk that has not failed so far. */
  lemma ThenStep(sent: seq<Entry>, part: Outcome, rest: Outcome)
    ensures !part.failed ==>
              Then(Outcome(sent, false), Then(part, rest)) == Then(Outcome(sent + part.emitted, false), rest)
    ensures part.failed ==> Then(Outcome(sent, false), Then(part, rest)) == Outcome(sent + part.emitted, true)
  {
  }

  /** The walk of a listing, once `sent` came from its first `i` children:
      the next child either fails, ending the walk with what it sent, or
      adds what it sent and the walk goes on. */
  lemma WalkStep(cs: seq<Node>, i: nat, sent: seq<Entry>, cfg: Patterns, matches: Filter.Matcher, clock: string -> int)
    requires i < |cs|
    requires Expand(cs, cfg, matches, clock) == Then(Outcome(sent, false), Expand(cs[i..], cfg, matches, clock))
    ensures var part := ChildOutcome(cs[i], cfg, matches, clock);
      && (part.failed ==> Expand(cs, cfg, matches, clock) == Outcome(sent + part.emitted, true))
      && (!part.failed ==>
            Expand(cs, cfg, matches, clock) == Then(Outcome(sent + part.emitted, false), Expand(cs[i + 1..], cfg, matches, clock)))
  {
    ExpandStep(cs, i, cfg, matches, clock);
    ThenStep(sent, ChildOutcome(cs[i], cfg, matches, clock), Expand(cs[i + 1..], cfg, matches, clock));
  }

  /** A kept child is walked when it is a directory and processed as a file
      otherwise. */
  lemma KeptChild(c: Node, cfg: Patterns, matches: Filter.Matcher, clock: string -> int)
    requires Kept(c.path, cfg, matches)
    ensures c.IsDirectory() ==> ChildOutcome(c, cfg, matches, clock) == DirOutcome(c, cfg, matches, clock)
    ensures !c.IsDirectory() ==> ChildOutcome(c, cfg, matches, clock) == FileOutcome(c.path, c.content, clock)
  {
  }

  /** The entries are sent one call each, in order. */
  lemma {:induction false} AddCallsOrder(es: seq<Entry>)
    ensures |AddCalls(es)| == |es|
    ensures forall k :: 0 <= k < |es| ==> AddCalls(es)[k] == AddToClipboard(es[k])
  {
    if es != [] {
      AddCallsOrder(es[1..]);
    }
  }

  /** Sending two runs of entries is sending the first, then the second. */
  lemma {:induction false} AddCallsConcat(a: seq<Entry>, b: seq<Entry>)
    ensures AddCalls(a + b) == AddCalls(a) + AddCalls(b)
  {
    if a == [] {
      assert a + b == b;
    } else {
      assert (a + b)[0] == a[0] && (a + b)[1..] == a[1..] + b;
      AddCallsConcat(a[1..], b);
    }
  }

  /** The call log of a walk that goes on after sending `more`. */
  lemma CallsStep(base: seq<SinkCall>, sent: seq<Entry>, more: seq<Entry>)
    ensures base + AddCalls(sent) + AddCalls(more) == base + AddCalls(sent + more)
  {
    AddCallsConcat(sent, more);
  }

  class FileProcessor {
    const sink: ClipboardSink
    /** `minimatch(relativePath, pattern)`; the matcher takes the pattern first. */
    const matches: Filter.Matcher
    /** `Date.now()` when the file at a path is read. */
    const clock: string -> int

    constructor (sink: ClipboardSink, matches: Filter.Matcher, clock: string -> int)
      ensures this.sink == sink && this.matches == matches && this.clock == clock
    {
      this.sink := sink;
      this.matches := matches;
      this.clock := clock;
    }

    /** `processFile`: the entry goes to the clipboard service; a failed read
        is rethrown and nothing is sent. */
    method ProcessFile(path: string, content: Option<string>) returns (failed: bool)
      modifies sink
      ensures failed == FileOutcome(path, content, clock).failed
      ensures sink.calls == old(sink.calls) + AddCalls(FileOutcome(path, content, clock).emitted)
    {
      if content.None? {
        return true;
      }
      var e := Entry(path, content.value, clock(path));
      sink.AddToClipboardCall(e);
      failed := false;
    }

    /** The body of `processDirectory`'s loop for one child: skipped unless
        the patterns keep it, then walked (a directory) or processed (anything
        else). */
    method ProcessChild(c: Node, cfg: Patterns) returns (failed: bool)
      modifies sink
      ensures failed == ChildOutcome(c, cfg, matches, clock).failed
      ensures sink.calls == old(sink.calls) + AddCalls(ChildOutcome(c, cfg, matches, clock).emitted)
      decreases c, 1
    {
      if !Kept(c.path, cfg, matches) {
        return false;
      }
      KeptChild(c, cfg, matches, clock);
      if c.IsDirectory() {
        failed := ProcessDirectory(c, cfg);
      } else {
        failed := ProcessFile(c.path, c.content);
      }
    }

    /** `processDirectory`: a listing failure is rethrown; otherwise the
        children are processed. */
    method ProcessDirectory(d: Node, cfg: Patterns) returns (failed: bool)
      requires d.IsDirectory()
      modifies sink
      ensures failed == DirOutcome(d, cfg, matches, clock).failed
      ensures sink.calls == old(sink.calls) + AddCalls(DirOutcome(d, cfg, matches, clock).emitted)
      decreases d, 0
    {
      if d.UnlistableDir? {
        return true;
      }
      failed := ProcessChildren(d.children, cfg);
    }

    /** The loop of `processDirectory`: the children in listing order; the
        first failure is rethrown. */
    method ProcessChildren(cs: seq<Node>, cfg: Patterns) returns (failed: bool)
      modifies sink
      ensures failed == Expand(cs, cfg, matches, clock).failed
      ensures sink.calls == old(sink.calls) + AddCalls(Expand(cs, cfg, matches, clock).emitted)
      decreases cs, 2
    {
      ghost var sent: seq<Entry> := [];
      for i := 0 to |cs|
        invariant Expand(cs, cfg, matches, clock) == Then(Outcome(sent, false), Expand(cs[i..], cfg, matches, clock))
        invariant sink.calls == old(sink.calls) + AddCalls(sent)
      {
        ghost var part := ChildOutcome(cs[i], cfg, matches, clock);
        WalkStep(cs, i, sent, cfg, matches, clock);
        var childFailed := ProcessChild(cs[i], cfg);
        CallsStep(old(sink.calls), sent, part.emitted);
        sent := sent + part.emitted;
        if childFailed {
          return true;
        }
      }
      assert cs[|cs|..] == [];
      assert Expand(cs, cfg, matches, clock).emitted == sent by {
        assert sent + [] == sent;
      }
      failed := false;
    }
  }
}
