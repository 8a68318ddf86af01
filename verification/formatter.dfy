/** Entry formatting (src/services/content-formatter-service.ts and the
    `formatEntry` copies in the two clipboard services): a template with a
    path placeholder and a `{content}` placeholder, each replaced at its first
    occurrence, the path first; several entries are joined with a blank line
    in their given order. */
module Formatter {
  import opened Wrappers
  import opened Types
  import opened Strings

  /** The path placeholder of the current services. */
  const FilePathToken := "{filepath}"
  /** The path placeholder of the older clipboard service. */
  const ProjectPathToken := "{filepath-from-the-project directory}"
  const ContentToken := "{content}"
  /** What separates two formatted entries: one blank line. */
  const Separator := "\n\n"

  /** The text between the path and the content in the built-in template. */
  const Fence := "\n```\n"
  /** The text after the content in the built-in template. */
  const Closing := "\n```"

  /** The built-in template around a given path placeholder: the path, then
      the content in a fenced code block. */
  function DefaultTemplate(pathToken: string): string {
    pathToken + Fence + ContentToken + Closing
  }

  /** `config.get('format') || default`: an unset or empty setting falls back
      to the built-in template. */
  function ResolveFormat(configured: Option<string>, pathToken: string): (f: string)
    ensures configured.Some? && configured.value != "" ==> f == configured.value
    ensures configured.None? || configured.value == "" ==> f == DefaultTemplate(pathToken)
  {
    if configured.Some? && configured.value != "" then configured.value else DefaultTemplate(pathToken)
  }

  /** One entry through the template: `format.replace(pathToken, path).replace('{content}', content)`. */
  function Render(configured: Option<string>, pathToken: string, e: Entry): (r: string)
    ensures var f := ResolveFormat(configured, pathToken);
      Absent(f, pathToken) && Absent(f, ContentToken) ==> r == f
  {
    ReplaceFirst(ReplaceFirst(ResolveFormat(configured, pathToken), pathToken, e.relativePath),
                 ContentToken, e.content)
  }

  /** Every entry through the template, in order, joined by a blank line. */
  function RenderAll(configured: Option<string>, pathToken: string, es: seq<Entry>): (r: string)
    ensures es == [] ==> r == ""
    ensures |es| == 1 ==> r == Render(configured, pathToken, es[0])
  {
    Join(Rendered(configured, pathToken, es), Separator)
  }

  function Rendered(configured: Option<string>, pathToken: string, es: seq<Entry>): (r: seq<string>)
    ensures |r| == |es|
    ensures forall i :: 0 <= i < |es| ==> r[i] == Render(configured, pathToken, es[i])
  {
    seq(|es|, i requires 0 <= i < |es| => Render(configured, pathToken, es[i]))
  }

  /** `formatEntry` of the current services: with no template configured,
      the path and then the content in a fenced block. */
  function FormatEntry(configured: Option<string>, e: Entry): (r: string)
    ensures (configured.None? || configured.value == "") && Absent(e.relativePath, ContentToken)
            ==> r == FencedBlock(e.relativePath, e.content)
  {
    if (configured.None? || configured.value == "") && Absent(e.relativePath, ContentToken) then
      DefaultRendering(configured, FilePathToken, e);
      Render(configured, FilePathToken, e)
    else
      Render(configured, FilePathToken, e)
  }

  /** `formatEntries`: `entries.map(formatEntry).join('\n\n')`. */
  function FormatEntries(configured: Option<string>, es: seq<Entry>): (r: string)
    ensures es == [] ==> r == ""
    ensures |es| == 1 ==> r == FormatEntry(configured, es[0])
  {
    RenderAll(configured, FilePathToken, es)
  }

  /** The formatted text of two non-empty runs is the text of the first, a
      blank line, and the text of the second: the order of the input is kept
      and nothing is re-sorted. */
  lemma RenderAllConcat(configured: Option<string>, pathToken: string, a: seq<Entry>, b: seq<Entry>)
    requires a != [] && b != []
    ensures RenderAll(configured, pathToken, a + b)
         == RenderAll(configured, pathToken, a) + Separator + RenderAll(configured, pathToken, b)
  {
    assert Rendered(configured, pathToken, a + b)
        == Rendered(configured, pathToken, a) + Rendered(configured, pathToken, b);
    JoinConcat(Rendered(configured, pathToken, a), Rendered(configured, pathToken, b), Separator);
  }

  /** Appending one entry appends a blank line and that entry's block. */
  lemma RenderAllSnoc(configured: Option<string>, pathToken: string, a: seq<Entry>, e: Entry)
    requires a != []
    ensures RenderAll(configured, pathToken, a + [e])
         == RenderAll(configured, pathToken, a) + Separator + Render(configured, pathToken, e)
  {
    RenderAllConcat(configured, pathToken, a, [e]);
  }

  /** The path, then a fenced block holding the content: what the built-in
      template produces when the path does not itself contain `{content}`. */
  function FencedBlock(path: string, content: string): string {
    path + Fence + content + Closing
  }

  /** No `{content}` starts before the end of `path + Fence` when the path has
      none: a window reaching into the fence would have to contain a newline
      or start with a backtick or newline, and the placeholder does neither. */
  lemma NoEarlyContent(p: string, rest: string, j: nat)
    requires Absent(p, ContentToken)
    requires j < |p| + |Fence|
    ensures !OccursAt(p + Fence + rest, ContentToken, j)
  {
    var s := p + Fence + rest;
    var n := |ContentToken|;
    if j + n <= |s| {
      if j + n <= |p| {
        assert s[j..j + n] == p[j..j + n];
        assert !OccursAt(p, ContentToken, j);
      } else if j <= |p| {
        assert s[j..j + n][|p| - j] == '\n' != ContentToken[|p| - j];
      } else {
        assert s[j..j + n][0] == Fence[j - |p|] != ContentToken[0];
      }
    }
  }

  /** The built-in template with the path put in: the path, the fence, the
      `{content}` placeholder and the closing fence. */
  lemma DefaultWithPath(configured: Option<string>, pathToken: string, p: string)
    requires configured.None? || configured.value == ""
    ensures ReplaceFirst(ResolveFormat(configured, pathToken), pathToken, p) == p + Fence + ContentToken + Closing
  {
    var tail := Fence + ContentToken + Closing;
    assert ResolveFormat(configured, pathToken) == pathToken + tail;
    ReplaceLeading(pathToken, tail, p);
    assert p + tail == p + Fence + ContentToken + Closing;
  }

  /** The first `{content}` after a path free of it is the template's own. */
  lemma ContentAfterFence(p: string, content: string)
    requires Absent(p, ContentToken)
    ensures ReplaceFirst(p + Fence + ContentToken + Closing, ContentToken, content) == FencedBlock(p, content)
  {
    var tail := ContentToken + Closing;
    var s1 := p + Fence + ContentToken + Closing;
    assert s1 == p + Fence + tail;
    var at := |p| + |Fence|;
    assert FirstAt(s1, ContentToken, at) by {
      assert s1[at..at + |ContentToken|] == ContentToken;
      forall j: nat | j < at ensures !OccursAt(s1, ContentToken, j) {
        NoEarlyContent(p, tail, j);
      }
    }
    ReplaceAt(s1, ContentToken, content, at);
    assert s1[..at] == p + Fence;
    assert s1[at + |ContentToken|..] == Closing;
  }

  /** With no template configured, and a path free of `{content}`, an entry is
      rendered as its path followed by its content in a fenced block, whatever
      the content holds (placeholders in it included). */
  lemma DefaultRendering(configured: Option<string>, pathToken: string, e: Entry)
    requires configured.None? || configured.value == ""
    requires Absent(e.relativePath, ContentToken)
    ensures Render(configured, pathToken, e) == FencedBlock(e.relativePath, e.content)
  {
    DefaultWithPath(configured, pathToken, e.relativePath);
    ContentAfterFence(e.relativePath, e.content);
  }

  /** With the built-in template, formatting an entry replaces the first
      `{content}` of its path followed by the template's tail. */
  lemma DefaultFormat(e: Entry)
    ensures FormatEntry(None, e) == ReplaceFirst(e.relativePath + Fence + ContentToken + Closing, ContentToken, e.content)
  {
    assert FormatEntry(None, e) == Render(None, FilePathToken, e);
    DefaultWithPath(None, FilePathToken, e.relativePath);
  }

  /** The path is substituted before the content, so a path that itself
      holds `{content}` receives the content at its own first placeholder,
      and the template's `{content}` stays in the output. */
  lemma PathFirst(p: string, content: string, timestamp: int, i: nat)
    requires FirstAt(p, ContentToken, i)
    ensures FormatEntry(None, Entry(p, content, timestamp))
         == p[..i] + content + p[i + |ContentToken|..] + Fence + ContentToken + Closing
  {
    var tail := Fence + ContentToken + Closing;
    var n := |ContentToken|;
    DefaultFormat(Entry(p, content, timestamp));
    AppendThree(p, Fence, ContentToken, Closing);
    ReplaceBeforeTail(p, tail, ContentToken, content, i);
    AppendThree(p[..i] + content + p[i + n..], Fence, ContentToken, Closing);
  }

  /** Only the first path placeholder is replaced; a second one stays literally. */
  lemma FirstOccurrenceOnly(path: string, rest: string)
    requires Absent(path + FilePathToken + rest, ContentToken)
    ensures FormatEntry(Some(FilePathToken + FilePathToken + rest), Entry(path, "x", 0))
         == path + FilePathToken + rest
  {
    ReplaceLeading(FilePathToken, FilePathToken + rest, path);
    assert FilePathToken + FilePathToken + rest == FilePathToken + (FilePathToken + rest);
    assert path + (FilePathToken + rest) == path + FilePathToken + rest;
  }
}
