/** The three starter snippets of the editor (getDefaultHtml, getDefaultCss and
    getDefaultJs in script.js), one string literal per source line.  Every
    line break is a single line feed, which is how JavaScript reads the CR LF
    line ends of the file the template literals sit in. */
module Defaults {
  import Buffers

  /** Starter markup: a heading, a paragraph, a button and an output box. */
  const DefaultHtml: string :=
    "<h1>Welcome to Online Code Editor</h1>\n" +
    "<p>Edit HTML, CSS, and JavaScript to see live preview!</p>\n" +
    "<button id=\"myBtn\">Click Me</button>\n" +
    "<div id=\"output\"></div>"

  /** Starter stylesheet. */
  const DefaultCss: string :=
    "body {\n" +
    "    font-family: Arial, sans-serif;\n" +
    "    display: flex;\n" +
    "    justify-content: center;\n" +
    "    align-items: center;\n" +
    "    min-height: 100vh;\n" +
    "    margin: 0;\n" +
    "    background: linear-gradient(135deg, #667eea 0%, #764ba2 100%);\n" +
    "}\n" +
    "\n" +
    "h1 {\n" +
    "    color: white;\n" +
    "    margin-bottom: 10px;\n" +
    "}\n" +
    "\n" +
    "p {\n" +
    "    color: #e0e0e0;\n" +
    "    font-size: 16px;\n" +
    "}\n" +
    "\n" +
    "button {\n" +
    "    background-color: #ff6b6b;\n" +
    "    color: white;\n" +
    "    border: none;\n" +
    "    padding: 10px 20px;\n" +
    "    font-size: 16px;\n" +
    "    border-radius: 5px;\n" +
    "    cursor: pointer;\n" +
    "    transition: background-color 0.3s ease;\n" +
    "    margin-top: 10px;\n" +
    "}\n" +
    "\n" +
    "button:hover {\n" +
    "    background-color: #ff5252;\n" +
    "}\n" +
    "\n" +
    "#output {\n" +
    "    margin-top: 20px;\n" +
    "    padding: 10px 20px;\n" +
    "    background-color: rgba(255, 255, 255, 0.1);\n" +
    "    border-radius: 5px;\n" +
    "    color: white;\n" +
    "    min-height: 20px;\n" +
    "}"

  /** Starter script: a click handler that writes the time into the output box. */
  const DefaultJs: string :=
    "// JavaScript code here\n" +
    "document.getElementById('myBtn').addEventListener('click', function() {\n" +
    "    const output = document.getElementById('output');\n" +
    "    output.textContent = 'Button clicked! ' + new Date().toLocaleTimeString();\n" +
    "});"

  /** The snippets script.js installs on first run and on reset. */
  const Starters: Buffers.Snippets := Buffers.Snippets(DefaultHtml, DefaultCss, DefaultJs)

  /** None of the starter snippets is empty, so a buffer loaded at start-up
      never is. */
  lemma StartersNonEmpty()
    ensures Starters.NonEmpty()
  {
    HtmlNonEmpty();
    CssNonEmpty();
    JsNonEmpty();
  }

  // One literal per lemma keeps each proof small.
  lemma HtmlNonEmpty() ensures DefaultHtml != "" {}
  lemma CssNonEmpty() ensures DefaultCss != "" {}
  lemma JsNonEmpty() ensures DefaultJs != "" {}
}
