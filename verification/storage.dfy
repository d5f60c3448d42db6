/** The persisted key-value store (the browser's localStorage) as script.js
    uses it: three fixed keys, one per buffer, holding raw strings.  Other keys
    of the same origin may be present and are never touched. */
module Storage {
  import opened Wrappers

  type Store = map<string, string>

  const HtmlKey: string := "htmlCode"
  const CssKey: string := "cssCode"
  const JsKey: string := "jsCode"

  /** localStorage.getItem: the stored string, or nothing (null) for an absent key. */
  function GetItem(store: Store, key: string): (r: Option<string>)
    ensures r.Some? <==> key in store
    ensures r.Some? ==> r.value == store[key]
  {
    if key in store then Some(store[key]) else None
  }

  /** JavaScript's `a || b` where `a` is a string or null: only a non-empty
      string is truthy, so null and "" both give `b`. */
  function OrElse(a: Option<string>, b: string): string
  {
    match a
    case Some(v) => if v != "" then v else b
    case None => b
  }

  /** `localStorage.getItem(key) || fallback`: the stored value when the key is
      present and its value non-empty, the fallback otherwise. */
  function LoadOr(store: Store, key: string, fallback: string): (r: string)
    ensures key in store && store[key] != "" ==> r == store[key]
    ensures key !in store || store[key] == "" ==> r == fallback
    ensures r == "" ==> fallback == ""
  {
    OrElse(GetItem(store, key), fallback)
  }

  /** The store holds the three buffers under their keys. */
  predicate HoldsBuffers(store: Store, html: string, css: string, js: string)
  {
    && HtmlKey in store && store[HtmlKey] == html
    && CssKey in store && store[CssKey] == css
    && JsKey in store && store[JsKey] == js
  }

  /** The three localStorage.setItem calls of updatePreview. */
  function SaveBuffers(store: Store, html: string, css: string, js: string): (r: Store)
    ensures HoldsBuffers(r, html, css, js)
    ensures r.Keys == store.Keys + {HtmlKey, CssKey, JsKey}
    ensures forall k :: k in store && k != HtmlKey && k != CssKey && k != JsKey ==> r[k] == store[k]
  {
    store[HtmlKey := html][CssKey := css][JsKey := js]
  }

  /** Saving what the store already holds leaves it as it was. */
  lemma SaveHeld(store: Store, html: string, css: string, js: string)
    requires HoldsBuffers(store, html, css, js)
    ensures SaveBuffers(store, html, css, js) == store
  {
  }

  /** Reading back what was saved gives the saved buffer, except that an empty
      buffer reads back as the fallback: `||` treats "" like a missing key. */
  lemma LoadAfterSave(store: Store, html: string, css: string, js: string,
                      dh: string, dc: string, dj: string)
    ensures LoadOr(SaveBuffers(store, html, css, js), HtmlKey, dh) == (if html == "" then dh else html)
    ensures LoadOr(SaveBuffers(store, html, css, js), CssKey, dc) == (if css == "" then dc else css)
    ensures LoadOr(SaveBuffers(store, html, css, js), JsKey, dj) == (if js == "" then dj else js)
  {
  }
}
