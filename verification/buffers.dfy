/** The three code buffers by name, and a value holding one string per
    buffer, as the starter snippets are. */
module Buffers {

  /** The three editing areas, each named by a clear button's data-target. */
  datatype Buffer = Html | Css | Js

  /** One snippet per buffer: the starter code that getDefaultHtml,
      getDefaultCss and getDefaultJs return, passed in as a value. */
  datatype Snippets = Snippets(html: string, css: string, js: string)
  {
    function Of(b: Buffer): string
    {
      match b
      case Html => html
      case Css => css
      case Js => js
    }

    predicate NonEmpty()
    {
      html != "" && css != "" && js != ""
    }
  }
}
