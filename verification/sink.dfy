/** The host boundaries the services write to. */
module Sink {
  import opened Types

  /** The system clipboard (`vscode.env.clipboard`): `writeText` replaces its text. */
  class SystemClipboard {
    var text: string

    constructor (initial: string)
      ensures text == initial
    {
      text := initial;
    }

    method WriteText(s: string)
      modifies this
      ensures text == s
    {
      text := s;
    }
  }

  /** A call made to the clipboard service that the list services and the
      resource walkers hand entries to. `src/services/clipboard-service.ts`,
      which those callers import, defines none of these methods, so the
      service is a recorder of the calls it receives. */
  datatype SinkCall =
    | StartNew(entry: Entry)        // `startNewClipboard(entry)`
    | AddEntry(entry: Entry)        // `addEntry(entry)`
    | AddToClipboard(entry: Entry)  // `addToClipboard(entry)`
    | SetContent(text: string)      // `setContent(text)`

  /** That clipboard service, whose source is not part of this model, seen
      from outside: it records the calls it receives, in order. Whatever it
      does with them (its capacity, the text it writes) is a function of this
      history. */
  class ClipboardSink {
    var calls: seq<SinkCall>

    constructor ()
      ensures calls == []
    {
      calls := [];
    }

    method StartNewClipboard(e: Entry)
      modifies this
      ensures calls == old(calls) + [StartNew(e)]
    {
      calls := calls + [StartNew(e)];
    }

    method AddEntryToClipboard(e: Entry)
      modifies this
      ensures calls == old(calls) + [AddEntry(e)]
    {
      calls := calls + [AddEntry(e)];
    }

    method AddToClipboardCall(e: Entry)
      modifies this
      ensures calls == old(calls) + [AddToClipboard(e)]
    {
      calls := calls + [AddToClipboard(e)];
    }

    method SetContentCall(text: string)
      modifies this
      ensures calls == old(calls) + [SetContent(text)]
    {
      calls := calls + [SetContent(text)];
    }
  }
}
