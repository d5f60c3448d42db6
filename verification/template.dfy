/** A document template: fixed literal fragments with a hole between each pair
    of neighbours.  Both documents script.js composes (the live preview and the
    exported file) are JavaScript template literals of this shape, whose holes
    are filled with the editor buffers verbatim.

    `Fill` splices values into the holes; `Decode` is its inverse once the
    lengths of the values are known.  Lengths are needed because nothing is
    escaped: a value may itself contain the text of a fragment. */
module Template {
  import opened Wrappers

  /** The length of each value, in order. */
  function Lengths(vals: seq<string>): (lens: seq<nat>)
    ensures |lens| == |vals|
    ensures forall i :: 0 <= i < |vals| ==> lens[i] == |vals[i]|
  {
    if |vals| == 0 then [] else [|vals[0]|] + Lengths(vals[1..])
  }

  /** The document `frags[0] + vals[0] + frags[1] + ... + vals[n-1] + frags[n]`. */
  function Fill(frags: seq<string>, vals: seq<string>): (doc: string)
    requires |frags| == |vals| + 1
    decreases |vals|
  {
    if |vals| == 0 then frags[0]
    else frags[0] + vals[0] + Fill(frags[1..], vals[1..])
  }

  /** Index in `Fill(frags, vals)` at which fragment `k` begins. */
  function FragmentStart(frags: seq<string>, vals: seq<string>, k: nat): nat
    requires |frags| == |vals| + 1
    requires k < |frags|
    decreases k
  {
    if k == 0 then 0
    else |frags[0]| + |vals[0]| + FragmentStart(frags[1..], vals[1..], k - 1)
  }

  /** Index in `Fill(frags, vals)` at which value `k` begins. */
  function SlotStart(frags: seq<string>, vals: seq<string>, k: nat): nat
    requires |frags| == |vals| + 1
    requires k < |vals|
  {
    FragmentStart(frags, vals, k) + |frags[k]|
  }

  /** Splits `doc` back into the values of a template whose fragments are
      `frags`, given the length of each value; `None` when `doc` does not have
      the template's shape with values of those lengths. */
  function Decode(doc: string, frags: seq<string>, lens: seq<nat>): Option<seq<string>>
    requires |frags| == |lens| + 1
    decreases |lens|
  {
    if |lens| == 0 then
      if doc == frags[0] then Some([]) else None
    else
      var f := |frags[0]|;
      var n := f + lens[0];
      if n <= |doc| && doc[..f] == frags[0] then
        match Decode(doc[n..], frags[1..], lens[1..])
        case Some(rest) => Some([doc[f..n]] + rest)
        case None => None
      else None
  }

  /** Every fixed fragment appears unchanged where the layout puts it. */
  lemma {:induction false} FragmentHolds(frags: seq<string>, vals: seq<string>, k: nat)
    requires |frags| == |vals| + 1
    requires k < |frags|
    ensures FragmentStart(frags, vals, k) + |frags[k]| <= |Fill(frags, vals)|
    ensures Fill(frags, vals)[FragmentStart(frags, vals, k)..FragmentStart(frags, vals, k) + |frags[k]|] == frags[k]
    decreases k
  {
    var doc := Fill(frags, vals);
    if |vals| == 0 {
    } else if k == 0 {
      assert doc == frags[0] + (vals[0] + Fill(frags[1..], vals[1..]));
    } else {
      var head := frags[0] + vals[0];
      var rest := Fill(frags[1..], vals[1..]);
      assert doc == head + rest;
      FragmentHolds(frags[1..], vals[1..], k - 1);
      var i := FragmentStart(frags[1..], vals[1..], k - 1);
      assert doc[|head| + i..|head| + i + |frags[k]|] == rest[i..i + |frags[k]|];
    }
  }

  /** Every value appears verbatim, unescaped, in its slot. */
  lemma {:induction false} SlotHoldsValue(frags: seq<string>, vals: seq<string>, k: nat)
    requires |frags| == |vals| + 1
    requires k < |vals|
    ensures SlotStart(frags, vals, k) + |vals[k]| == FragmentStart(frags, vals, k + 1)
    ensures FragmentStart(frags, vals, k + 1) <= |Fill(frags, vals)|
    ensures Fill(frags, vals)[SlotStart(frags, vals, k)..SlotStart(frags, vals, k) + |vals[k]|] == vals[k]
    decreases k
  {
    FragmentHolds(frags, vals, k + 1);
    var doc := Fill(frags, vals);
    var head := frags[0] + vals[0];
    var rest := Fill(frags[1..], vals[1..]);
    assert doc == head + rest;
    if k == 0 {
      assert doc[|frags[0]|..|head|] == head[|frags[0]|..] == vals[0];
    } else {
      SlotHoldsValue(frags[1..], vals[1..], k - 1);
      var i := SlotStart(frags[1..], vals[1..], k - 1);
      assert doc[|head| + i..|head| + i + |vals[k]|] == rest[i..i + |vals[k]|];
    }
  }

  /** Decoding a filled template with the values' lengths gives the values back. */
  lemma {:induction false} DecodeFill(frags: seq<string>, vals: seq<string>)
    requires |frags| == |vals| + 1
    ensures Decode(Fill(frags, vals), frags, Lengths(vals)) == Some(vals)
    decreases |vals|
  {
    if |vals| != 0 {
      var doc := Fill(frags, vals);
      var f := |frags[0]|;
      var n := f + |vals[0]|;
      var rest := Fill(frags[1..], vals[1..]);
      assert doc == frags[0] + vals[0] + rest;
      assert Lengths(vals)[1..] == Lengths(vals[1..]);
      assert doc[..f] == frags[0];
      assert doc[f..n] == vals[0];
      assert doc[n..] == rest;
      DecodeFill(frags[1..], vals[1..]);
      assert [vals[0]] + vals[1..] == vals;
    }
  }

  /** Whatever `Decode` accepts is exactly the template filled with the values it
      returns, and those values have the requested lengths. */
  lemma {:induction false} DecodeSound(doc: string, frags: seq<string>, lens: seq<nat>)
    requires |frags| == |lens| + 1
    requires Decode(doc, frags, lens).Some?
    ensures |Decode(doc, frags, lens).value| == |lens|
    ensures Fill(frags, Decode(doc, frags, lens).value) == doc
    ensures Lengths(Decode(doc, frags, lens).value) == lens
    decreases |lens|
  {
    if |lens| != 0 {
      var f := |frags[0]|;
      var n := f + lens[0];
      var rest := Decode(doc[n..], frags[1..], lens[1..]).value;
      DecodeSound(doc[n..], frags[1..], lens[1..]);
      var vals := [doc[f..n]] + rest;
      assert Decode(doc, frags, lens) == Some(vals);
      assert vals[0] == doc[f..n] && vals[1..] == rest;
      assert doc == doc[..f] + doc[f..n] + doc[n..];
      assert Lengths(vals) == [lens[0]] + lens[1..];
    }
  }
}
