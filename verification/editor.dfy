/** The editor controller of script.js as a state machine: one immutable
    record for everything the event handlers read or write, and one pure
    transition per handler.  DOM lookups are gone: the three textarea values
    are the buffers, the iframe's srcdoc is `preview`, and localStorage is
    `store`. */
module Editor {
  import opened Wrappers
  import opened Buffers
  import Storage
  import Compositor
  import Resizer

  datatype State = State(
    html: string,
    css: string,
    js: string,
    store: Storage.Store,
    preview: string,
    divider: Resizer.Divider)
  {
    /** The current contents of buffer `b`. */
    function Get(b: Buffer): string
    {
      match b
      case Html => html
      case Css => css
      case Js => js
    }

    /** This state with buffer `b` replaced by `text`. */
    function With(b: Buffer, text: string): (r: State)
      ensures r.Get(b) == text
      ensures forall o :: o != b ==> r.Get(o) == Get(o)
      ensures r.store == store && r.preview == preview && r.divider == divider
    {
      match b
      case Html => this.(html := text)
      case Css => this.(css := text)
      case Js => this.(js := text)
    }
  }

  /** The storage key of each buffer. */
  function KeyOf(b: Buffer): string
  {
    match b
    case Html => Storage.HtmlKey
    case Css => Storage.CssKey
    case Js => Storage.JsKey
  }

  /** The page as it is before DOMContentLoaded: nothing composed yet, no drag
      in progress, and whatever the store already holds. */
  function Fresh(store: Storage.Store): State
  {
    State("", "", "", store, "", Resizer.Idle)
  }

  /** The store mirrors the buffers and the preview shows their composition:
      what every handler that calls updatePreview leaves behind. */
  predicate Synced(s: State)
  {
    && Storage.HoldsBuffers(s.store, s.html, s.css, s.js)
    && s.preview == Compositor.LiveDocument(s.html, s.css, s.js)
  }

  /** The invariant of every reachable state. */
  predicate Invariant(s: State)
  {
    Synced(s) && Resizer.Valid(s.divider)
  }

  /** updatePreview: compose the live document, save the three buffers, and
      hand the document to the preview frame.  No buffer changes, and only the
      three buffer keys of the store are written. */
  function UpdatePreview(s: State): (r: State)
    ensures r.html == s.html && r.css == s.css && r.js == s.js
    ensures r.divider == s.divider
    ensures Synced(r)
    ensures r.store.Keys == s.store.Keys + {Storage.HtmlKey, Storage.CssKey, Storage.JsKey}
    ensures forall k :: k in s.store && k != Storage.HtmlKey && k != Storage.CssKey && k != Storage.JsKey ==>
              r.store[k] == s.store[k]
  {
    s.(store := Storage.SaveBuffers(s.store, s.html, s.css, s.js),
       preview := Compositor.LiveDocument(s.html, s.css, s.js))
  }

  /** The buffers loaded from the store with the given fallbacks, followed by
      one updatePreview pass. */
  function LoadWith(s: State, dh: string, dc: string, dj: string): (r: State)
    ensures r.html == Storage.LoadOr(s.store, Storage.HtmlKey, dh)
    ensures r.css == Storage.LoadOr(s.store, Storage.CssKey, dc)
    ensures r.js == Storage.LoadOr(s.store, Storage.JsKey, dj)
    ensures Synced(r)
    ensures r.divider == s.divider
    ensures r.store.Keys == s.store.Keys + {Storage.HtmlKey, Storage.CssKey, Storage.JsKey}
    ensures forall k :: k in s.store && k != Storage.HtmlKey && k != Storage.CssKey && k != Storage.JsKey ==>
              r.store[k] == s.store[k]
  {
    UpdatePreview(s.(html := Storage.LoadOr(s.store, Storage.HtmlKey, dh),
                     css := Storage.LoadOr(s.store, Storage.CssKey, dc),
                     js := Storage.LoadOr(s.store, Storage.JsKey, dj)))
  }

  /** initializeCode: each buffer takes its stored value when that value is
      present and non-empty, and its starter snippet otherwise; then one
      updatePreview pass. */
  function Initialize(s: State, starters: Snippets): (r: State)
    ensures forall b :: KeyOf(b) in s.store && s.store[KeyOf(b)] != "" ==> r.Get(b) == s.store[KeyOf(b)]
    ensures forall b :: KeyOf(b) !in s.store || s.store[KeyOf(b)] == "" ==> r.Get(b) == starters.Of(b)
    ensures starters.NonEmpty() ==> forall b :: r.Get(b) != ""
    ensures Synced(r)
    ensures r.divider == s.divider
    ensures r.store.Keys == s.store.Keys + {Storage.HtmlKey, Storage.CssKey, Storage.JsKey}
    ensures forall k :: k in s.store && k != Storage.HtmlKey && k != Storage.CssKey && k != Storage.JsKey ==>
              r.store[k] == s.store[k]
  {
    LoadWith(s, starters.html, starters.css, starters.js)
  }

  /** An input event in buffer `b`, whose contents are now `text`. */
  function Input(s: State, b: Buffer, text: string): (r: State)
    ensures r.Get(b) == text
    ensures forall o :: o != b ==> r.Get(o) == s.Get(o)
    ensures KeyOf(b) in r.store && r.store[KeyOf(b)] == text
    ensures Synced(r)
    ensures r.divider == s.divider
  {
    UpdatePreview(s.With(b, text))
  }

  /** A clear button: blank its target buffer, then updatePreview. */
  function Clear(s: State, b: Buffer): (r: State)
    ensures r.Get(b) == ""
    ensures forall o :: o != b ==> r.Get(o) == s.Get(o)
    ensures Storage.HoldsBuffers(r.store, r.html, r.css, r.js)
    ensures KeyOf(b) in r.store && r.store[KeyOf(b)] == ""
    ensures r.preview == Compositor.LiveDocument(r.html, r.css, r.js)
    ensures r.divider == s.divider
  {
    UpdatePreview(s.With(b, ""))
  }

  /** All three buffers replaced, followed by one updatePreview pass. */
  function SetAll(s: State, html: string, css: string, js: string): (r: State)
    ensures r.html == html && r.css == css && r.js == js
    ensures Synced(r)
    ensures r.divider == s.divider
  {
    UpdatePreview(s.(html := html, css := css, js := js))
  }

  /** The reset button; `confirmed` is the user's answer to the confirm
      dialog.  Declining changes nothing; confirming puts every buffer, and
      every stored buffer, back to its starter snippet. */
  function Reset(s: State, starters: Snippets, confirmed: bool): (r: State)
    ensures !confirmed ==> r == s
    ensures confirmed ==> forall b :: r.Get(b) == starters.Of(b) && KeyOf(b) in r.store && r.store[KeyOf(b)] == starters.Of(b)
    ensures confirmed ==> Synced(r)
    ensures r.divider == s.divider
  {
    if confirmed then SetAll(s, starters.html, starters.css, starters.js) else s
  }

  /** The refresh button: one more updatePreview pass.  On a synchronised
      state it changes nothing in the state record (the frame still reloads
      its document, which the record does not track). */
  function Refresh(s: State): (r: State)
    ensures r.html == s.html && r.css == s.css && r.js == s.js
    ensures Synced(r)
    ensures r.divider == s.divider
    ensures Synced(s) ==> r == s
  {
    UpdatePreview(s)
  }

  /** The file the download button offers. */
  datatype File = File(name: string, mimeType: string, content: string)

  /** The download button: the export document of the current buffers, offered
      as index.html of type text/html; the state is left as it is. */
  function Download(s: State): (r: (State, File))
    ensures r.0 == s
    ensures r.1.name == "index.html" && r.1.mimeType == "text/html"
    ensures Compositor.DecodeExport(r.1.content, |s.html|, |s.css|, |s.js|) == Some((s.html, s.css, s.js))
    ensures |Compositor.ExportOpen| + |Compositor.TitleTag| <= |r.1.content|
    ensures r.1.content[|Compositor.ExportOpen|..|Compositor.ExportOpen| + |Compositor.TitleTag|] == Compositor.TitleTag
  {
    var doc := Compositor.ExportDocument(s.html, s.css, s.js);
    Compositor.ExportRoundTrip(s.html, s.css, s.js);
    Compositor.ExportHasTitle(s.html, s.css, s.js);
    (s, File("index.html", "text/html", doc))
  }

  /** mousedown on the divider: start a drag; nothing else changes. */
  function MouseDown(s: State): (r: State)
    ensures r.divider.isResizing
    ensures r == s.(divider := r.divider)
    ensures r.divider.panels == s.divider.panels
  {
    s.(divider := Resizer.MouseDown(s.divider))
  }

  /** mousemove at `p` percent of the container width: while dragging, an
      in-band position becomes the editor share and the preview gets the rest;
      nothing but the divider ever changes. */
  function MouseMove(s: State, p: real): (r: State)
    ensures r == s.(divider := r.divider)
    ensures !s.divider.isResizing || !Resizer.InBand(p) ==> r == s
    ensures s.divider.isResizing && Resizer.InBand(p) ==>
              r.divider.panels == Some(Resizer.Panels(p, 100.0 - p))
    ensures r.divider.isResizing == s.divider.isResizing
  {
    s.(divider := Resizer.MouseMove(s.divider, p))
  }

  /** mouseup anywhere: end the drag; nothing else changes. */
  function MouseUp(s: State): (r: State)
    ensures !r.divider.isResizing
    ensures r == s.(divider := r.divider)
    ensures r.divider.panels == s.divider.panels
  {
    s.(divider := Resizer.MouseUp(s.divider))
  }

  /** Two updatePreview passes in a row leave the same store and the same
      document as one. */
  lemma UpdatePreviewIdempotent(s: State)
    ensures UpdatePreview(UpdatePreview(s)) == UpdatePreview(s)
  {
  }

  /** Reopening the page on the store a synchronised state left behind: every
      non-empty buffer comes back exactly, and an empty one comes back as its
      starter snippet rather than empty. */
  lemma Reload(s: State, starters: Snippets)
    requires Synced(s)
    ensures forall b :: Initialize(Fresh(s.store), starters).Get(b) ==
                        (if s.Get(b) == "" then starters.Of(b) else s.Get(b))
  {
  }

  /** The load fallback in one instance: with non-empty starters, a cleared
      CSS buffer does not survive a reload. */
  lemma ClearedBufferReturnsAsDefault(s: State, starters: Snippets)
    requires starters.NonEmpty()
    ensures Initialize(Fresh(Clear(s, Css).store), starters).css == starters.css
    ensures Initialize(Fresh(Clear(s, Css).store), starters).css != Clear(s, Css).css
  {
  }
}
