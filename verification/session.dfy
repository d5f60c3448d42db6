/** The page as a whole: the DOMContentLoaded handler followed by a sequence
    of user events, each dispatched to its handler in arrival order. */
module Session {
  import opened Wrappers
  import Storage
  import Compositor
  import Resizer
  import Buffers
  import Defaults
  import Editor

  /** Everything a user can do once the page is loaded. */
  datatype Event =
    | Type(target: Buffers.Buffer, text: string)   // input event: the buffer now holds `text`
    | ClearClick(target: Buffers.Buffer)
    | ResetClick(confirmed: bool)                  // `confirmed`: the answer to the dialog
    | RefreshClick
    | DownloadClick
    | DividerDown
    | MouseMove(percent: real)
    | MouseUp

  /** One event handler. */
  function Step(s: Editor.State, starters: Buffers.Snippets, e: Event): Editor.State
  {
    match e
    case Type(b, text) => Editor.Input(s, b, text)
    case ClearClick(b) => Editor.Clear(s, b)
    case ResetClick(ok) => Editor.Reset(s, starters, ok)
    case RefreshClick => Editor.Refresh(s)
    case DownloadClick => Editor.Download(s).0
    case DividerDown => Editor.MouseDown(s)
    case MouseMove(p) => Editor.MouseMove(s, p)
    case MouseUp => Editor.MouseUp(s)
  }

  /** The events handled one after another. */
  function Run(s: Editor.State, starters: Buffers.Snippets, events: seq<Event>): Editor.State
    decreases |events|
  {
    if |events| == 0 then s else Run(Step(s, starters, events[0]), starters, events[1..])
  }

  /** Opening the page on `store` and handling `events`. */
  function Session(store: Storage.Store, starters: Buffers.Snippets, events: seq<Event>): Editor.State
  {
    Run(Editor.Initialize(Editor.Fresh(store), starters), starters, events)
  }

  /** Every handler keeps the store and the preview in step with the buffers
      and keeps the panel shares in the band. */
  lemma StepKeepsInvariant(s: Editor.State, starters: Buffers.Snippets, e: Event)
    requires Editor.Invariant(s)
    ensures Editor.Invariant(Step(s, starters, e))
  {
  }

  /** After the page has loaded, whatever the user does, the store mirrors the
      buffers, the preview shows them, and any panel share written is in the
      band with the preview getting the rest. */
  lemma {:induction false} RunKeepsInvariant(s: Editor.State, starters: Buffers.Snippets, events: seq<Event>)
    requires Editor.Invariant(s)
    ensures Editor.Invariant(Run(s, starters, events))
    decreases |events|
  {
    if |events| != 0 {
      StepKeepsInvariant(s, starters, events[0]);
      RunKeepsInvariant(Step(s, starters, events[0]), starters, events[1..]);
    }
  }

  /** Loading establishes the invariant, so every session state satisfies it. */
  lemma SessionInvariant(store: Storage.Store, starters: Buffers.Snippets, events: seq<Event>)
    ensures Editor.Invariant(Session(store, starters, events))
  {
    RunKeepsInvariant(Editor.Initialize(Editor.Fresh(store), starters), starters, events);
  }

  /** Only the divider events touch the drag flag: mousedown on the divider
      sets it, mouseup clears it, and every other event leaves it alone. */
  lemma DragFlagOnlyByDivider(s: Editor.State, starters: Buffers.Snippets, e: Event)
    ensures e.DividerDown? ==> Step(s, starters, e).divider.isResizing
    ensures e.MouseUp? ==> !Step(s, starters, e).divider.isResizing
    ensures !e.DividerDown? && !e.MouseUp? ==>
              Step(s, starters, e).divider.isResizing == s.divider.isResizing
  {
    match e
    case Type(b, text) =>
    case ClearClick(b) =>
    case ResetClick(ok) =>
    case RefreshClick =>
    case DownloadClick =>
    case DividerDown =>
    case MouseMove(p) =>
    case MouseUp =>
  }

  /** Divider events change nothing but the divider, and editing events change
      nothing of the divider. */
  lemma DividerSeparate(s: Editor.State, starters: Buffers.Snippets, e: Event)
    ensures e.DividerDown? || e.MouseMove? || e.MouseUp? ==>
              Step(s, starters, e) == s.(divider := Step(s, starters, e).divider)
    ensures !(e.DividerDown? || e.MouseMove? || e.MouseUp?) ==>
              Step(s, starters, e).divider == s.divider
  {
  }

  /** Downloading leaves the whole state, buffers and store included, as it was. */
  lemma DownloadChangesNothing(s: Editor.State, starters: Buffers.Snippets)
    ensures Step(s, starters, DownloadClick) == s
  {
  }

  /** Two refreshes in a row compose the same document as one: the refresh
      event is one updatePreview pass, which is idempotent. */
  lemma RefreshTwice(s: Editor.State, starters: Buffers.Snippets)
    ensures Run(s, starters, [RefreshClick, RefreshClick]).preview == Step(s, starters, RefreshClick).preview
    ensures Run(s, starters, [RefreshClick, RefreshClick]).store == Step(s, starters, RefreshClick).store
  {
    Editor.UpdatePreviewIdempotent(s);
  }

  /** A drag through 10%, 50% and 90% leaves the editor at 50%: both ends are
      rejected, not saturated to 20 or 80. */
  lemma RejectNotSaturate(s: Editor.State, starters: Buffers.Snippets)
    ensures Run(s, starters, [DividerDown, MouseMove(10.0), MouseMove(50.0), MouseMove(90.0)]).divider.panels
            == Some(Resizer.Panels(50.0, 50.0))
  {
  }

  /** Clearing the CSS buffer empties it, keeps the HTML and the JavaScript,
      saves all three and recomposes the preview. */
  lemma ClearCssIsolated(s: Editor.State, starters: Buffers.Snippets)
    ensures var r := Step(s, starters, ClearClick(Buffers.Css));
            r.css == "" && r.html == s.html && r.js == s.js &&
            Storage.HoldsBuffers(r.store, s.html, "", s.js) &&
            r.preview == Compositor.LiveDocument(s.html, "", s.js)
  {
  }

  /** With nothing stored, the page opens on the three starter snippets
      verbatim, and saves them. */
  lemma FirstRun()
    ensures var r := Editor.Initialize(Editor.Fresh(map[]), Defaults.Starters);
            && r.html == Defaults.DefaultHtml && r.css == Defaults.DefaultCss && r.js == Defaults.DefaultJs
            && Storage.HoldsBuffers(r.store, Defaults.DefaultHtml, Defaults.DefaultCss, Defaults.DefaultJs)
  {
  }
}
