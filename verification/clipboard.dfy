/** The clipboard accumulator (src/services/clipboard-service.ts and its older
    build out/services/clipboard-service.js). It holds the entries of the
    current capture; starting a new capture replaces them with one entry,
    adding appends one, and after each change the system clipboard receives
    the formatted text of everything held. The two builds differ only in the
    path placeholder of their template. */
module Clipboard {
  import opened Wrappers
  import opened Types
  import opened Formatter
  import opened Sink

  class ClipboardService {
    /** `currentClipboard`: the held entries, oldest first. */
    var current: seq<Entry>
    /** The configured `copytool.format` setting. */
    const format: Option<string>
    /** The placeholder this build replaces with the path. */
    const pathToken: string
    /** Where the formatted text goes. */
    const system: SystemClipboard

    /** The current service: `{filepath}` placeholder; nothing held at first. */
    constructor (format: Option<string>, system: SystemClipboard)
      ensures current == [] && this.format == format && this.system == system
      ensures pathToken == FilePathToken
    {
      current := [];
      this.format := format;
      this.pathToken := FilePathToken;
      this.system := system;
    }

    /** The older service: `{filepath-from-the-project directory}` placeholder. */
    constructor Legacy(format: Option<string>, system: SystemClipboard)
      ensures current == [] && this.format == format && this.system == system
      ensures pathToken == ProjectPathToken
    {
      current := [];
      this.format := format;
      this.pathToken := ProjectPathToken;
      this.system := system;
    }

    /** The text the held entries format to. */
    function Text(): (r: string)
      reads this
      ensures current == [] ==> r == ""
      ensures |current| == 1 ==> r == FormatOne(current[0])
    {
      RenderAll(format, pathToken, current)
    }

    /** `formatEntry`: this build's template applied to one entry. */
    function FormatOne(e: Entry): (r: string)
      ensures (format.None? || format.value == "") && Strings.Absent(e.relativePath, ContentToken)
              ==> r == FencedBlock(e.relativePath, e.content)
    {
      if (format.None? || format.value == "") && Strings.Absent(e.relativePath, ContentToken) then
        DefaultRendering(format, pathToken, e);
        Render(format, pathToken, e)
      else
        Render(format, pathToken, e)
    }

    /** `addToNewClipboard`: whatever was held is dropped, exactly `[e]` is
        held, and the clipboard receives that one entry's block. */
    method AddToNewClipboard(e: Entry)
      modifies this, system
      ensures current == [e]
      ensures system.text == FormatOne(e) == Text()
    {
      current := [e];
      system.WriteText(FormatOne(e));
    }

    /** `addToExistingClipboard`: `e` is appended after the held entries, with
        no duplicate check and no limit, and the clipboard receives the blocks
        of all held entries in insertion order, a blank line apart. */
    method AddToExistingClipboard(e: Entry)
      modifies this, system
      ensures current == old(current) + [e]
      ensures system.text == Text()
      ensures old(current) != [] ==> system.text == old(Text()) + Separator + FormatOne(e)
    {
      if current != [] {
        RenderAllSnoc(format, pathToken, current, e);
      }
      current := current + [e];
      system.WriteText(RenderAll(format, pathToken, current));
    }

    /** `getCurrentClipboardContents`: a copy of the held entries. */
    method GetCurrentClipboardContents() returns (r: seq<Entry>)
      ensures r == current
    {
      r := current;
    }
  }

  /** The older service's built-in template renders an entry whose path holds
      no `{content}` as the path and a fenced block, like the current one. */
  lemma LegacyDefaultRendering(e: Entry)
    requires Strings.Absent(e.relativePath, ContentToken)
    ensures Render(None, ProjectPathToken, e) == FencedBlock(e.relativePath, e.content)
  {
    DefaultRendering(None, ProjectPathToken, e);
  }

  /** `getColoredMessage`: the three known levels put a tag before the
      message; any other level leaves it as it is. */
  function GetColoredMessage(message: string, level: string): (r: string)
    ensures |r| >= |message| && r[|r| - |message|..] == message
    ensures level == "info" ==> r == "[INFO] " + message
    ensures level == "warning" ==> r == "[WARNING] " + message
    ensures level == "error" ==> r == "[ERROR] " + message
    ensures r == message <==> level != "info" && level != "warning" && level != "error"
  {
    match level
    case "info" => "[INFO] " + message
    case "warning" => "[WARNING] " + message
    case "error" => "[ERROR] " + message
    case _ => message
  }
}
