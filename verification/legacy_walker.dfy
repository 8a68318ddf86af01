/** The older, unfiltered walk of out/services/file-processor.js. Every
    readable file becomes a snippet (path and text, no timestamp) and a file
    whose read fails is passed over, but a directory whose listing fails is
    not caught anywhere: the whole walk is abandoned and `processResource`
    rejects. Children that are neither files nor directories are passed
    over. */
module LegacyWalker {
  import opened Wrappers
  import opened Types
  import opened FsTree
  import ResourceWalker

  /** What the older service collects for a file: no timestamp. */
  datatype Snippet = Snippet(relativePath: string, content: string)

  /** How the walk ends: with the snippets collected, or abandoned by a
      listing failure. */
  datatype Walk = Done(snippets: seq<Snippet>) | Aborted

  /** Some directory on the way down, this one included, cannot be listed. */
  predicate ReachesUnlistable(cs: seq<Node>) {
    if cs == [] then false
    else
      (match cs[0]
       case UnlistableDir(_) => true
       case Dir(_, sub) => ReachesUnlistable(sub)
       case _ => false)
      || ReachesUnlistable(cs[1..])
  }

  /** `processFile`: a snippet when the read succeeds. */
  function FileSnippet(path: string, content: Option<string>): (r: Option<Snippet>)
    ensures r.Some? <==> content.Some?
    ensures r.Some? ==> r.value == Snippet(path, content.value)
  {
    match content
    case Some(text) => Some(Snippet(path, text))
    case None => None
  }

  /** Two walk results one after the other: an abandoned walk stays abandoned. */
  function Then(a: Walk, b: Walk): (r: Walk)
    ensures r.Aborted? <==> a.Aborted? || b.Aborted?
    ensures r.Done? ==> r.snippets == a.snippets + b.snippets
  {
    match a
    case Aborted => Aborted
    case Done(x) =>
      match b
      case Aborted => Aborted
      case Done(y) => Done(x + y)
  }

  /** What one child contributes. */
  function ChildWalk(c: Node): (r: Walk)
    ensures c.UnlistableDir? ==> r == Aborted
    ensures c.Other? ==> r == Done([])
    ensures c.File? ==> r.Done? && |r.snippets| <= 1
  {
    match c
    case File(p, content) => Done(FileSnippet(p, content).ToSeq())
    case Dir(_, cs) => Expand(cs)
    case UnlistableDir(_) => Aborted
    case Other(_, _) => Done([])
  }

  /** The children, in listing order. */
  function Expand(cs: seq<Node>): Walk {
    if cs == [] then Done([]) else Then(ChildWalk(cs[0]), Expand(cs[1..]))
  }

  /** `processResource` for a resource in a workspace. */
  function RootWalk(root: Node): (r: Walk)
    ensures !root.IsDirectory() ==> r.Done? && (|r.snippets| == 1 <==> root.content.Some?) && |r.snippets| <= 1
    ensures root.IsDirectory() ==> (r.Aborted? <==> root.UnlistableDir? || ReachesUnlistable(root.children))
  {
    match root
    case Dir(_, cs) => AbortsIffUnlistable(cs); Expand(cs)
    case UnlistableDir(_) => Aborted
    case File(p, content) => Done(FileSnippet(p, content).ToSeq())
    case Other(p, content) => Done(FileSnippet(p, content).ToSeq())
  }

  /** The walk is abandoned exactly when some directory below cannot be
      listed. */
  lemma {:induction false} AbortsIffUnlistable(cs: seq<Node>)
    ensures Expand(cs).Aborted? <==> ReachesUnlistable(cs)
  {
    if cs != [] {
      AbortsIffUnlistable(cs[1..]);
      match cs[0]
      case Dir(_, sub) => AbortsIffUnlistable(sub);
      case _ =>
    }
  }

  function Strip(es: seq<Entry>): (r: seq<Snippet>)
    ensures |r| == |es|
    ensures forall k :: 0 <= k < |es| ==> r[k] == Snippet(es[k].relativePath, es[k].content)
  {
    seq(|es|, k requires 0 <= k < |es| => Snippet(es[k].relativePath, es[k].content))
  }

  /** When it is not abandoned, the older walk visits what the filtered walk
      visits with a filter that accepts everything, minus the timestamps. */
  lemma {:induction false} MatchesUnfilteredWalk(cs: seq<Node>, clock: ResourceWalker.Clock)
    requires Expand(cs).Done?
    ensures Expand(cs).snippets == Strip(ResourceWalker.Expand(cs, p => true, clock))
  {
    if cs != [] {
      var accept: ResourceWalker.Accept := p => true;
      var head := ChildWalk(cs[0]);
      MatchesUnfilteredWalk(cs[1..], clock);
      var a := ResourceWalker.ChildEntries(cs[0], accept, clock);
      assert head.snippets == Strip(a) by {
        match cs[0]
        case Dir(_, sub) => MatchesUnfilteredWalk(sub, clock);
        case _ =>
      }
      var b := ResourceWalker.Expand(cs[1..], accept, clock);
      assert Strip(a + b) == Strip(a) + Strip(b);
    }
  }

  /** One step of the walk over a listing, once `snippets` came from its
      first `i` children: an abandoned child abandons the walk; otherwise its
      snippets are added and the walk goes on. */
  lemma WalkStep(cs: seq<Node>, i: nat, snippets: seq<Snippet>)
    requires i < |cs|
    requires Expand(cs) == Then(Done(snippets), Expand(cs[i..]))
    ensures ChildWalk(cs[i]).Aborted? ==> Expand(cs) == Aborted
    ensures ChildWalk(cs[i]).Done? ==>
              Expand(cs) == Then(Done(snippets + ChildWalk(cs[i]).snippets), Expand(cs[i + 1..]))
  {
    var x := ChildWalk(cs[i]);
    var rest := Expand(cs[i + 1..]);
    assert Expand(cs[i..]) == Then(x, rest) by {
      assert cs[i..][0] == cs[i] && cs[i..][1..] == cs[i + 1..];
    }
    ThenAssoc(Done(snippets), x, rest);
  }

  /** Walk results chain associatively. */
  lemma ThenAssoc(a: Walk, b: Walk, c: Walk)
    ensures Then(a, Then(b, c)) == Then(Then(a, b), c)
  {
    if a.Done? && b.Done? && c.Done? {
      assert a.snippets + (b.snippets + c.snippets) == a.snippets + b.snippets + c.snippets;
    }
  }

  class FileProcessor {
    constructor ()
    {
    }

    /** `processFile`: a read failure is caught and gives nothing. */
    method ProcessFile(path: string, content: Option<string>) returns (r: Option<Snippet>)
      ensures r == FileSnippet(path, content)
    {
      r := None;
      if content.Some? {
        r := Some(Snippet(path, content.value));
      }
    }

    /** The body of `processDirectory`'s loop for one child: a directory is
        walked, a file processed, anything else passed over. */
    method ProcessChild(c: Node) returns (w: Walk)
      ensures w == ChildWalk(c)
      decreases c, 1
    {
      match c {
        case Dir(_, _) =>
          w := ProcessDirectory(c);
        case UnlistableDir(_) =>
          w := ProcessDirectory(c);
        case File(p, content) =>
          var s := ProcessFile(p, content);
          w := Done(s.ToSeq());
        case Other(_, _) =>
          w := Done([]);
      }
    }

    /** `processDirectory`: the children in listing order; a listing
        failure, here or below, abandons the walk. */
    method ProcessDirectory(d: Node) returns (w: Walk)
      requires d.IsDirectory()
      ensures w == if d.Dir? then Expand(d.children) else Aborted
      decreases d, 0
    {
      if d.UnlistableDir? {
        return Aborted;
      }
      var cs := d.children;
      var snippets: seq<Snippet> := [];
      for i := 0 to |cs|
        invariant Expand(cs) == Then(Done(snippets), Expand(cs[i..]))
      {
        WalkStep(cs, i, snippets);
        var sub := ProcessChild(cs[i]);
        if sub.Aborted? {
          return Aborted;
        }
        snippets := snippets + sub.snippets;
      }
      assert cs[|cs|..] == [];
      assert snippets + [] == snippets;
      return Done(snippets);
    }

    /** `processResource`: nothing outside a workspace; otherwise a directory
        is walked and anything else is processed as one file. */
    method ProcessResource(root: Node, inWorkspace: bool) returns (w: Walk)
      ensures !inWorkspace ==> w == Done([])
      ensures inWorkspace ==> w == RootWalk(root)
    {
      if !inWorkspace {
        return Done([]);
      }
      if root.IsDirectory() {
        w := ProcessDirectory(root);
      } else {
        var s := ProcessFile(root.path, root.content);
        w := Done(s.ToSeq());
      }
    }
  }
}
