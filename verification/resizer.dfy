/** The draggable divider between the editor panel and the preview panel
    (script.js:184-207).  Pressing on the divider starts a drag; while
    dragging, each mouse position, as a percentage of the container width,
    is accepted as the editor panel's share only when it lies strictly between
    20 and 80, and then the preview panel gets the rest; other positions are
    ignored.  Releasing the mouse button anywhere ends the drag. */
module Resizer {
  import opened Wrappers

  const MinShare: real := 20.0
  const MaxShare: real := 80.0

  /** The flex shares, in percent, last written to the two panels. */
  datatype Panels = Panels(editor: real, preview: real)

  /** The drag flag `isResizing` and the shares written so far; `None` until
      the first accepted move, when the stylesheet's layout applies. */
  datatype Divider = Divider(isResizing: bool, panels: Option<Panels>)

  const Idle: Divider := Divider(false, None)

  /** A percentage the divider accepts. */
  predicate InBand(p: real)
  {
    MinShare < p < MaxShare
  }

  /** Shares that were ever written are in the band and add up to 100. */
  predicate Valid(d: Divider)
  {
    d.panels.Some? ==>
      InBand(d.panels.value.editor) && d.panels.value.preview == 100.0 - d.panels.value.editor
  }

  /** mousedown on the divider. */
  function MouseDown(d: Divider): (r: Divider)
    ensures r.isResizing
    ensures r.panels == d.panels
  {
    d.(isResizing := true)
  }

  /** mousemove anywhere in the document, at position `p` percent. */
  function MouseMove(d: Divider, p: real): (r: Divider)
    ensures !d.isResizing ==> r == d
    ensures !InBand(p) ==> r == d
    ensures d.isResizing && InBand(p) ==> r.panels == Some(Panels(p, 100.0 - p))
    ensures r.isResizing == d.isResizing
    ensures Valid(d) ==> Valid(r)
  {
    if !d.isResizing then d
    else if p > MinShare && p < MaxShare then d.(panels := Some(Panels(p, 100.0 - p)))
    else d
  }

  /** mouseup anywhere in the document. */
  function MouseUp(d: Divider): (r: Divider)
    ensures !r.isResizing
    ensures r.panels == d.panels
  {
    d.(isResizing := false)
  }

  /** A run of mouse positions during one drag. */
  function Drag(d: Divider, ps: seq<real>): Divider
    decreases |ps|
  {
    if |ps| == 0 then d else Drag(MouseMove(d, ps[0]), ps[1..])
  }

  /** During a drag the editor share is the last accepted position, or what it
      was before if no position was accepted: out-of-band positions are
      rejected, never saturated to 20 or 80. */
  lemma {:induction false} DragKeepsLastAccepted(d: Divider, ps: seq<real>)
    requires d.isResizing
    ensures Drag(d, ps).isResizing
    ensures (exists i :: 0 <= i < |ps| && InBand(ps[i])) ==>
              Drag(d, ps).panels == Some(Panels(ps[LastInBand(ps)], 100.0 - ps[LastInBand(ps)]))
    ensures (forall i :: 0 <= i < |ps| ==> !InBand(ps[i])) ==> Drag(d, ps).panels == d.panels
    decreases |ps|
  {
    if |ps| != 0 {
      DragKeepsLastAccepted(MouseMove(d, ps[0]), ps[1..]);
      if exists i :: 0 <= i < |ps[1..]| && InBand(ps[1..][i]) {
        var i :| 0 <= i < |ps[1..]| && InBand(ps[1..][i]);
        assert InBand(ps[i + 1]);
      }
      if forall i :: 0 <= i < |ps| ==> !InBand(ps[i]) {
        assert !InBand(ps[0]);
      }
    }
  }

  /** Index of the last accepted position in `ps`; `0` when there is none. */
  function LastInBand(ps: seq<real>): (i: nat)
    ensures |ps| > 0 ==> i < |ps|
    ensures (exists k :: 0 <= k < |ps| && InBand(ps[k])) ==>
              InBand(ps[i]) && forall k :: i < k < |ps| ==> !InBand(ps[k])
    decreases |ps|
  {
    if |ps| == 0 then 0
    else if InBand(ps[|ps| - 1]) then |ps| - 1
    else LastInBand(ps[..|ps| - 1])
  }
}
