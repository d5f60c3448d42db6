/** The two documents script.js composes from the three buffers: the live
    preview handed to the iframe (updatePreview) and the standalone file offered
    for download (the download handler).  Both place the CSS inside a style
    block, then the HTML as the body, then the JavaScript inside a script block,
    each spliced in verbatim.  Line breaks are "\n": the template literals sit in
    a file with CR LF line ends, which JavaScript reads as a single line feed. */
module Compositor {
  import opened Wrappers
  import Template

  // ---- live preview template (script.js:94-111) ----

  const LiveHead: string :=
    "\n        <!DOCTYPE html>\n        <html lang=\"en\">\n        <head>\n" +
    "            <meta charset=\"UTF-8\">\n" +
    "            <meta name=\"viewport\" content=\"width=device-width, initial-scale=1.0\">\n" +
    "            <style>\n                "
  const LiveBody: string := "\n            </style>\n        </head>\n        <body>\n            "
  const LiveScript: string := "\n            <script>\n                "
  const LiveTail: string := "\n            </script>\n        </body>\n        </html>\n    "

  const LiveFragments: seq<string> := [LiveHead, LiveBody, LiveScript, LiveTail]

  // ---- export template (script.js:158-174) ----

  const TitleTag: string := "<title>My Project</title>"

  /** The export head up to the title, the title, and the rest of the head. */
  const ExportOpen: string :=
    "<!DOCTYPE html>\n<html lang=\"en\">\n<head>\n" +
    "    <meta charset=\"UTF-8\">\n" +
    "    <meta name=\"viewport\" content=\"width=device-width, initial-scale=1.0\">\n    "
  const ExportStyle: string := "\n    <style>\n        "
  const ExportHead: string := ExportOpen + TitleTag + ExportStyle
  const ExportBody: string := "\n    </style>\n</head>\n<body>\n    "
  const ExportScript: string := "\n    <script>\n        "
  const ExportTail: string := "\n    </script>\n</body>\n</html>"

  const ExportFragments: seq<string> := [ExportHead, ExportBody, ExportScript, ExportTail]

  /** The buffers in the order the templates use them: style, body, script. */
  function Slots(html: string, css: string, js: string): seq<string>
  {
    [css, html, js]
  }

  /** The document assigned to the preview frame's srcdoc. */
  function LiveDocument(html: string, css: string, js: string): string
  {
    Template.Fill(LiveFragments, Slots(html, css, js))
  }

  /** The content of the downloaded index.html. */
  function ExportDocument(html: string, css: string, js: string): string
  {
    Template.Fill(ExportFragments, Slots(html, css, js))
  }

  /** Recovers the three buffers from a live document, given their lengths. */
  function DecodeLive(doc: string, htmlLen: nat, cssLen: nat, jsLen: nat): Option<(string, string, string)>
  {
    match Template.Decode(doc, LiveFragments, [cssLen, htmlLen, jsLen])
    case Some(v) => if |v| == 3 then Some((v[1], v[0], v[2])) else None
    case None => None
  }

  /** Recovers the three buffers from an exported document, given their lengths. */
  function DecodeExport(doc: string, htmlLen: nat, cssLen: nat, jsLen: nat): Option<(string, string, string)>
  {
    match Template.Decode(doc, ExportFragments, [cssLen, htmlLen, jsLen])
    case Some(v) => if |v| == 3 then Some((v[1], v[0], v[2])) else None
    case None => None
  }

  /** A three-hole template filled with (c, h, j) is its four fragments with the
      values spliced in between, in that order. */
  lemma {:induction false} FillThree(frags: seq<string>, c: string, h: string, j: string)
    requires |frags| == 4
    ensures Template.Fill(frags, [c, h, j]) == frags[0] + c + frags[1] + h + frags[2] + j + frags[3]
  {
    var f1 := frags[1..];
    var f2 := f1[1..];
    var f3 := f2[1..];
    assert [c, h, j][1..] == [h, j] && [h, j][1..] == [j] && [j][1..] == [];
    assert Template.Fill(f3, []) == f3[0];
    var last := Template.Fill(f2, [j]);
    assert last == f2[0] + j + f3[0];
    var mid := Template.Fill(f1, [h, j]);
    assert mid == f1[0] + h + last;
    assert Template.Fill(frags, [c, h, j]) == frags[0] + c + mid;
  }

  /** Layout of the live document: the CSS, the HTML and the JavaScript appear
      verbatim, in that order, between the fixed fragments. */
  lemma LiveLayout(html: string, css: string, js: string)
    ensures LiveDocument(html, css, js) ==
            LiveHead + css + LiveBody + html + LiveScript + js + LiveTail
  {
    FillThree(LiveFragments, css, html, js);
  }

  /** Layout of the exported document, with the same order as the live one. */
  lemma ExportLayout(html: string, css: string, js: string)
    ensures ExportDocument(html, css, js) ==
            ExportHead + css + ExportBody + html + ExportScript + js + ExportTail
  {
    FillThree(ExportFragments, css, html, js);
  }

  /** The exported document carries the "My Project" title at a fixed place. */
  lemma ExportHasTitle(html: string, css: string, js: string)
    ensures |ExportOpen| + |TitleTag| <= |ExportDocument(html, css, js)|
    ensures ExportDocument(html, css, js)[|ExportOpen|..|ExportOpen| + |TitleTag|] == TitleTag
  {
  }

  /** The live document's length is the buffers' lengths plus a fixed overhead. */
  lemma LiveLength(html: string, css: string, js: string)
    ensures |LiveDocument(html, css, js)| ==
            |html| + |css| + |js| + |LiveHead| + |LiveBody| + |LiveScript| + |LiveTail|
  {
    LiveLayout(html, css, js);
  }

  /** The buffers can be read back out of the live document. */
  lemma LiveRoundTrip(html: string, css: string, js: string)
    ensures DecodeLive(LiveDocument(html, css, js), |html|, |css|, |js|) == Some((html, css, js))
  {
    Template.DecodeFill(LiveFragments, Slots(html, css, js));
    assert Template.Lengths(Slots(html, css, js)) == [|css|, |html|, |js|];
  }

  /** Only a genuine live document of buffers with the given lengths decodes. */
  lemma LiveDecodeSound(doc: string, htmlLen: nat, cssLen: nat, jsLen: nat)
    requires DecodeLive(doc, htmlLen, cssLen, jsLen).Some?
    ensures var (h, c, j) := DecodeLive(doc, htmlLen, cssLen, jsLen).value;
            LiveDocument(h, c, j) == doc && |h| == htmlLen && |c| == cssLen && |j| == jsLen
  {
    var lens := [cssLen, htmlLen, jsLen];
    Template.DecodeSound(doc, LiveFragments, lens);
    var v := Template.Decode(doc, LiveFragments, lens).value;
    assert Slots(v[1], v[0], v[2]) == v;
    assert Template.Lengths(v)[0] == |v[0]|;
  }

  /** The buffers can be read back out of the exported document. */
  lemma ExportRoundTrip(html: string, css: string, js: string)
    ensures DecodeExport(ExportDocument(html, css, js), |html|, |css|, |js|) == Some((html, css, js))
  {
    Template.DecodeFill(ExportFragments, Slots(html, css, js));
    assert Template.Lengths(Slots(html, css, js)) == [|css|, |html|, |js|];
  }

  /** Only a genuine exported document of buffers with the given lengths decodes. */
  lemma ExportDecodeSound(doc: string, htmlLen: nat, cssLen: nat, jsLen: nat)
    requires DecodeExport(doc, htmlLen, cssLen, jsLen).Some?
    ensures var (h, c, j) := DecodeExport(doc, htmlLen, cssLen, jsLen).value;
            ExportDocument(h, c, j) == doc && |h| == htmlLen && |c| == cssLen && |j| == jsLen
  {
    var lens := [cssLen, htmlLen, jsLen];
    Template.DecodeSound(doc, ExportFragments, lens);
    var v := Template.Decode(doc, ExportFragments, lens).value;
    assert Slots(v[1], v[0], v[2]) == v;
    assert Template.Lengths(v)[0] == |v[0]|;
  }

  /** Nothing is escaped, so the live document alone does not determine the
      buffers: a style sheet ending in the text that closes the style block
      renders the same document as that text opening the body. */
  lemma SplicingIsAmbiguous(js: string)
    ensures (LiveBody, "", js) != ("", LiveBody, js)
    ensures LiveDocument(LiveBody, "", js) == LiveDocument("", LiveBody, js)
  {
    assert |LiveBody| > 0;
    AmbiguousFill(LiveFragments, js);
  }

  /** In any three-hole template, moving the second fragment's text from the
      end of the first value to the start of the second leaves the result
      unchanged. */
  lemma AmbiguousFill(frags: seq<string>, j: string)
    requires |frags| == 4
    ensures Template.Fill(frags, ["", frags[1], j]) == Template.Fill(frags, [frags[1], "", j])
  {
    FillThree(frags, "", frags[1], j);
    FillThree(frags, frags[1], "", j);
    MoveEmpty(frags[0], frags[1], frags[2], j, frags[3]);
  }

  /** Moving an empty string inside a concatenation. */
  lemma MoveEmpty(a: string, b: string, c: string, j: string, d: string)
    ensures a + "" + b + b + c + j + d == a + b + b + "" + c + j + d
  {
  }
}
