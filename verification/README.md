# Online code editor: controller model

This project models the controller of a browser-based live-preview code editor
(`script.js`). The user types HTML, CSS and JavaScript into three text areas.
On every change the editor composes one HTML document from the three buffers
and shows it in a preview frame. It also saves the buffers to `localStorage`
and offers clear, reset, refresh and download actions, plus a draggable
divider between the editor and preview panels.

The model is functional. One immutable record, `Editor.State`, holds what the
event handlers read and write:

- the three buffers;
- the store, a `map<string, string>` that stands for `localStorage`;
- the last preview document;
- the divider: the `isResizing` flag and the panel shares last written.

Each handler is a pure transition on that record. The two documents are
built by `Template.Fill`, which splices values verbatim between fixed
fragments. `Template.Decode` is its inverse once the value lengths are known.

Modules:

- `Template`: generic fragment/hole templates, with layout and round-trip lemmas.
- `Compositor`: the live preview template (`script.js:94-111`) and the export template (`script.js:158-174`).
- `Defaults`: the three starter snippets, written out exactly.
- `Buffers`: the names of the three buffers, and a one-string-per-buffer value used for the starter snippets.
- `Storage`: the keys `htmlCode`, `cssCode` and `jsCode`. It models the `getItem(...) || default` load and the three `setItem` calls.
- `Resizer`: the divider's mousedown, mousemove and mouseup handlers.
- `Editor`: the state record and one transition per handler.
- `Session`: page load followed by any sequence of user events, and the invariant kept along the way.

The starter snippets are passed to `Editor.Initialize` and `Editor.Reset` as an
`Buffers.Snippets` value. `Defaults.Starters` holds the three literals of
`getDefaultHtml`, `getDefaultCss` and `getDefaultJs`. Keeping them as a value
means the controller's proofs never have to unfold those long literals.

The source file uses CR LF line ends. A JavaScript template literal reads
each of them as a single line feed, so every line break in the fragments and
snippets here is `"\n"`.

A reload does not give back an emptied buffer. The code loads with
`localStorage.getItem(key) || default`, and `||` treats `""` like a missing
key, so the buffer comes back as its starter snippet (`Editor.Reload`,
`Editor.ClearedBufferReturnsAsDefault`).

## Model

| member | source | states |
|---|---|---|
| Storage.LoadOr | script.js:14-16 | a stored value is used only when the key is present and its value non-empty; a missing key and a stored `""` both give the fallback |
| Storage.SaveBuffers | script.js:113-116 | after saving, the three buffer keys hold the buffers, the key set grows by exactly those keys, and every other key keeps its value |
| Storage.SaveHeld | script.js:113-116 | saving what the store already holds leaves the store unchanged |
| Storage.LoadAfterSave | script.js:14-16 | reading back a saved buffer gives it unchanged if it is non-empty, and the fallback if it is empty |
| Template.FragmentHolds | script.js:94-111 | every fixed fragment of a filled template appears unchanged at its computed position |
| Template.SlotHoldsValue | script.js:94-111 | every value appears verbatim in its slot, which ends exactly where the next fragment begins |
| Template.DecodeFill | script.js:94-111 | decoding a filled template with the values' lengths returns exactly those values |
| Template.DecodeSound | script.js:94-111 | anything the decoder accepts is the template filled with the returned values, which have the requested lengths |
| Compositor.LiveLayout | script.js:94-111 | the live document is the style-block fragment, the CSS, the body fragment, the HTML, the script fragment, the JavaScript and the closing fragment, in that order, with no escaping |
| Compositor.LiveLength | script.js:94-111 | the live document is exactly as long as the three buffers plus the fixed fragments |
| Compositor.LiveRoundTrip | script.js:94-111 | the three buffers can be read back out of the live document unchanged |
| Compositor.LiveDecodeSound | script.js:94-111 | only a genuine live document decodes, and it decodes to buffers of the requested lengths |
| Compositor.SplicingIsAmbiguous | script.js:100-105 | because nothing is escaped, two buffer triples that differ produce the same live document |
| Compositor.ExportLayout | script.js:158-174 | the export document places the CSS, the HTML and the JavaScript in the same order as the live document, between its own fragments |
| Compositor.ExportHasTitle | script.js:163 | the export document contains `<title>My Project</title>` at a fixed position in its head |
| Compositor.ExportRoundTrip | script.js:158-174 | the three buffers can be read back out of the export document unchanged |
| Compositor.ExportDecodeSound | script.js:158-174 | only a genuine export document decodes, and it decodes to buffers of the requested lengths |
| Defaults.StartersNonEmpty | script.js:26-86 | none of the three starter snippets is empty |
| Editor.UpdatePreview | script.js:89-123 | no buffer and no divider state changes; the store then mirrors the buffers; the preview is their live document; store keys other than the three buffer keys are untouched |
| Editor.Initialize | script.js:13-23 | each buffer becomes its stored value if that value is present and non-empty, and its starter snippet otherwise; with non-empty starters no buffer is empty; store and preview are in step afterwards; store keys other than the three buffer keys are kept |
| Editor.Input | script.js:126-128 | typing in one buffer changes only that buffer; the new text is saved under its key and the preview is recomposed |
| Editor.Clear | script.js:131-137 | the target buffer becomes `""`, the other two are unchanged, the store holds the new triple, and the preview shows it |
| Editor.Reset | script.js:140-147 | if the user declines, nothing changes; if they confirm, every buffer and every stored buffer equals its starter snippet |
| Editor.Refresh | script.js:150 | no buffer and no divider state changes and the result is in step; on a state already in step, refresh changes nothing in the state record |
| Editor.Download | script.js:153-181 | the state is unchanged; the file is `index.html` of type `text/html`; it holds the export document, from which the current buffers decode back, with the title in place |
| Editor.MouseDown | script.js:186-189 | the drag flag becomes true and nothing else changes |
| Editor.MouseMove | script.js:191-202 | only the divider can change; nothing happens unless a drag is in progress and the position is strictly between 20 and 80; otherwise the editor gets the position and the preview gets 100 minus it |
| Editor.MouseUp | script.js:204-207 | the drag flag becomes false and nothing else changes |
| Editor.UpdatePreviewIdempotent | script.js:89-123 | two composition-and-save passes in a row leave the same state as one |
| Editor.Reload | script.js:14-20 | reopening the page on the store of an in-step state gives back every non-empty buffer exactly, and the starter snippet for an empty one |
| Editor.ClearedBufferReturnsAsDefault | script.js:14-16 | with non-empty starters, a cleared CSS buffer does not survive a reload |
| Resizer.MouseDown | script.js:186-189 | starts a drag and keeps the panel shares |
| Resizer.MouseMove | script.js:191-202 | a move while not dragging, or to a position outside (20, 80), changes nothing; an in-band move sets the editor share to the position and the preview share to the rest; the band invariant is preserved |
| Resizer.MouseUp | script.js:204-207 | ends the drag and keeps the panel shares |
| Resizer.DragKeepsLastAccepted | script.js:191-202 | after a run of moves during a drag, the editor share is the last in-band position, or unchanged if none was in band (rejection, not saturation) |
| Resizer.LastInBand | script.js:198 | returns the index of the last in-band position, and no later position is in band |
| Session.StepKeepsInvariant | script.js:125-207 | every handler keeps the store and the preview in step with the buffers, and keeps the panel shares in the band |
| Session.RunKeepsInvariant | script.js:125-207 | any sequence of events keeps that invariant |
| Session.SessionInvariant | script.js:209-210 | every state reachable after page load satisfies the invariant |
| Session.DragFlagOnlyByDivider | script.js:184-207 | mousedown sets the drag flag, mouseup clears it, and no other event touches it |
| Session.DividerSeparate | script.js:183-207 | divider events change only the divider, and all other events leave the divider alone |
| Session.DownloadChangesNothing | script.js:153-181 | the download event leaves buffers, store, preview and divider as they were |
| Session.RefreshTwice | script.js:150 | two refreshes produce the same document and the same store as one |
| Session.RejectNotSaturate | script.js:198-201 | a drag through 10%, 50% and 90% leaves the editor share at 50% |
| Session.ClearCssIsolated | script.js:131-136 | clearing the CSS keeps the HTML and the JavaScript, saves all three and recomposes the preview |
| Session.FirstRun | script.js:13-23 | with an empty store, the page opens on the three starter snippets verbatim and saves them |

## Left out

- The DOM lookups and the event-listener wiring (`script.js:1-10`, `126-128`, `210`) are left out. Each handler is a transition function, and `Session.Step` dispatches events to them.
- The failure modes of `localStorage` (disabled store, quota exceeded) are not modelled. The store is a total map, and every save succeeds.
- The `try`/`catch` around the `srcdoc` assignment and the `console.error` call are not modelled. Assigning the preview always succeeds.
- The frame reload that every `srcdoc` assignment causes is not part of the state record. So `Editor.Refresh` on an in-step state is the identity on the record, although the page still reloads the frame; that reload is the refresh button's only visible effect.
- The text areas' newline normalisation is not modelled. A textarea's `value` turns CR LF and lone CR into LF, so in the page a stored `"a\r\nb"` loads and saves back as `"a\nb"`, while `Editor.Initialize` keeps it as stored. Only a store written by something other than this page can hold a CR, since the page saves what the textareas report.
- The store is assumed to be written only by this page. Other tabs, windows and scripts of the same origin share `localStorage` and may rewrite the three keys without this page's buffers changing; `Editor.Synced` and `Session.SessionInvariant` hold only for a page that is the store's sole writer.
- Running the previewed code inside the frame is left out. The model stops at the document string.
- The download's `Blob`, `URL.createObjectURL` and anchor click are browser file I/O. The model keeps only the file name, the MIME type and the content.
- The `confirm` dialog is not modelled. Its answer is the boolean parameter of `Editor.Reset`.
- The pixel geometry that turns a mouse position into a percentage (`script.js:194-196`) is not modelled. The percentage is a `real` parameter, so the floating-point rounding and the NaN of a zero-width container are not modelled.
- Cursor styling and the `flex` style strings are UI output only. The model records the two shares those strings carry.
- The text areas' contents before the page finishes loading come from the page markup, which is not part of this model. `Editor.Fresh` uses empty buffers, which `Editor.Initialize` overwrites anyway.
- The panel widths before the first accepted move come from the stylesheet, which is not part of this model. They are `None` in `Resizer.Divider`.
- A clear button whose `data-target` names no element would make `script.js` throw. The model's clear target is one of the three buffers, matching the three buttons the page has.
- Events that arrive before `DOMContentLoaded` are not modelled. `Session.Session` starts with the load handler.
