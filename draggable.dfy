/**
 * `makeDraggable(element)` (content.js): the result card can be dragged from
 * anywhere but its controls and its text blocks; while dragging, its
 * position follows the pointer and is clamped so that part of it stays in
 * the viewport.  The closure variables and the element's `left`/`top` style
 * are the fields of `Drag`.
 */
module Draggable {
  import opened Numbers

  /** The tag names `dragStart` looks at. */
  datatype Tag = Button | Select | Input | Textarea | OtherTag

  /** An element on the path from the event target up to the document root. */
  datatype Elem = Elem(tag: Tag, classes: set<string>)

  const TextBlock: string := "ocr-text-block"

  /** How much of the card is kept on screen, in pixels. */
  const Margin: int := 50

  /** `el.closest(tag)`: the element or an ancestor has that tag. */
  predicate ClosestTag(path: seq<Elem>, tag: Tag) {
    path != [] && (path[0].tag == tag || ClosestTag(path[1..], tag))
  }

  /** `el.closest('.' + cls)`: the element or an ancestor has that class. */
  predicate ClosestClass(path: seq<Elem>, cls: string) {
    path != [] && (cls in path[0].classes || ClosestClass(path[1..], cls))
  }

  lemma {:induction false} ClosestTagAny(path: seq<Elem>, tag: Tag)
    ensures ClosestTag(path, tag) <==> exists i :: 0 <= i < |path| && path[i].tag == tag
  {
    if path != [] {
      ClosestTagAny(path[1..], tag);
      if exists i :: 0 <= i < |path[1..]| && path[1..][i].tag == tag {
        var i :| 0 <= i < |path[1..]| && path[1..][i].tag == tag;
        assert path[i + 1].tag == tag;
      }
      if exists i :: 0 <= i < |path| && path[i].tag == tag {
        var i :| 0 <= i < |path| && path[i].tag == tag;
        if i > 0 { assert path[1..][i - 1].tag == tag; }
      }
    }
  }

  lemma {:induction false} ClosestClassAny(path: seq<Elem>, cls: string)
    ensures ClosestClass(path, cls) <==> exists i :: 0 <= i < |path| && cls in path[i].classes
  {
    if path != [] {
      ClosestClassAny(path[1..], cls);
      if exists i :: 0 <= i < |path[1..]| && cls in path[1..][i].classes {
        var i :| 0 <= i < |path[1..]| && cls in path[1..][i].classes;
        assert cls in path[i + 1].classes;
      }
      if exists i :: 0 <= i < |path| && cls in path[i].classes {
        var i :| 0 <= i < |path| && cls in path[i].classes;
        if i > 0 { assert cls in path[1..][i - 1].classes; }
      }
    }
  }

  /** The test at the top of `dragStart`, as written: `path[0]` is
      `e.target`, the rest its ancestors.  A drag starts exactly when the
      target is not an input or a text area, and neither it nor any ancestor
      is a button, a select or a text block. */
  predicate CanStartDrag(path: seq<Elem>): (r: bool)
    requires path != []
    ensures r <==>
      path[0].tag != Input && path[0].tag != Textarea &&
      forall i :: 0 <= i < |path| ==>
        path[i].tag != Button && path[i].tag != Select && TextBlock !in path[i].classes
  {
    ClosestTagAny(path, Button);
    ClosestTagAny(path, Select);
    ClosestClassAny(path, TextBlock);
    var t := path[0];
    !(t.tag == Button || t.tag == Select || t.tag == Input || t.tag == Textarea ||
      ClosestTag(path, Button) || ClosestTag(path, Select)) &&
    !(TextBlock in t.classes || ClosestClass(path, TextBlock))
  }

  /** The boundary checks of the animation-frame callback: four `if`s that
      reassign `newLeft` and `newTop` in turn. */
  method ClampPosition(newLeft: int, newTop: int, width: int, innerWidth: int, innerHeight: int)
      returns (left: int, top: int)
    ensures left == Min(Max(newLeft, Margin - width), innerWidth - Margin)
    ensures top == Min(Max(newTop, 0), innerHeight - Margin)
    ensures left <= innerWidth - Margin && top <= innerHeight - Margin
    ensures Margin - width <= innerWidth - Margin ==> left + width >= Margin
    ensures 0 <= innerHeight - Margin ==> top >= 0
    ensures Margin - width <= newLeft <= innerWidth - Margin ==> left == newLeft
    ensures 0 <= newTop <= innerHeight - Margin ==> top == newTop
  {
    left, top := newLeft, newTop;
    if left + width < Margin {
      left := Margin - width;
    }
    if left > innerWidth - Margin {
      left := innerWidth - Margin;
    }
    if top < 0 {
      top := 0;
    }
    if top > innerHeight - Margin {
      top := innerHeight - Margin;
    }
  }

  class Drag {
    /** The closure state of `makeDraggable`. */
    var isDragging: bool
    var startX: int
    var startY: int
    var initialLeft: int
    var initialTop: int
    /** The element's `left`/`top` as last written by the drag.  The drawn
        position and the current width are read from the layout
        (`getBoundingClientRect`) at each event, so they are inputs of the
        handlers, not fields. */
    var left: int
    var top: int
    /** `transform: none; margin: 0` applied, so `left`/`top` are absolute. */
    var pinned: bool
    /** `mousemove` and `mouseup` listen on the document. */
    var documentListeners: bool

    ghost predicate Valid()
      reads this
    {
      (isDragging ==> documentListeners && pinned) &&
      (documentListeners ==> isDragging)
    }

    /** `makeDraggable(element)` on an element laid out at `(left, top)`. */
    constructor (left: int, top: int)
      ensures Valid()
      ensures !isDragging && !documentListeners && !pinned
      ensures this.left == left && this.top == top
    {
      isDragging, startX, startY, initialLeft, initialTop := false, 0, 0, 0, 0;
      this.left, this.top := left, top;
      pinned, documentListeners := false, false;
    }

    /** `dragStart(e)`: ignored on controls and text blocks; otherwise pin the
        element where it is drawn now, `(drawnLeft, drawnTop)` from
        `getBoundingClientRect`, and remember that origin and the pointer. */
    method DragStart(path: seq<Elem>, x: int, y: int, drawnLeft: int, drawnTop: int)
        returns (started: bool)
      requires Valid() && path != []
      modifies this
      ensures Valid()
      ensures started == CanStartDrag(path)
      ensures started ==>
        isDragging && documentListeners && pinned && startX == x && startY == y &&
        left == drawnLeft && top == drawnTop && initialLeft == drawnLeft && initialTop == drawnTop
      ensures !started ==> unchanged(this)
    {
      if !CanStartDrag(path) {
        return false;
      }
      isDragging := true;
      startX, startY := x, y;
      pinned := true;
      left, top := drawnLeft, drawnTop;
      initialLeft, initialTop := drawnLeft, drawnTop;
      documentListeners := true;
      started := true;
    }

    /** `onMouseMove(e)` with its animation frame run at once: while
        dragging, the origin moved by the pointer's offset, clamped with the
        element's current `width` and the viewport size.  The element only
        ever moves once it is pinned, so `left`/`top` are absolute
        coordinates whenever they change. */
    method OnMouseMove(x: int, y: int, width: int, innerWidth: int, innerHeight: int)
      requires Valid()
      modifies this
      ensures Valid()
      ensures old(isDragging) ==>
        left == Min(Max(initialLeft + (x - startX), Margin - width), innerWidth - Margin) &&
        top == Min(Max(initialTop + (y - startY), 0), innerHeight - Margin)
      ensures old(isDragging) ==> left <= innerWidth - Margin && top <= innerHeight - Margin
      ensures !old(isDragging) ==> unchanged(this)
      ensures isDragging == old(isDragging) && documentListeners == old(documentListeners)
      ensures startX == old(startX) && startY == old(startY)
      ensures initialLeft == old(initialLeft) && initialTop == old(initialTop)
      ensures pinned == old(pinned)
      ensures left != old(left) || top != old(top) ==> pinned
    {
      if !isDragging {
        return;
      }
      var dx := x - startX;
      var dy := y - startY;
      left, top := ClampPosition(initialLeft + dx, initialTop + dy, width, innerWidth, innerHeight);
    }

    /** `dragEnd(e)`: stop dragging and stop listening on the document. */
    method DragEnd()
      requires Valid()
      modifies this`isDragging, this`documentListeners
      ensures Valid()
      ensures !isDragging && !documentListeners
    {
      isDragging := false;
      documentListeners := false;
    }
  }

  /** A press on an eligible part of the card followed by a move, with the
      target position inside the viewport bounds: the card follows the
      pointer exactly, from where it is drawn at the press. */
  method DragFollowsPointer(d: Drag, path: seq<Elem>, x: int, y: int,
                            drawnLeft: int, drawnTop: int, x2: int, y2: int,
                            width: int, innerWidth: int, innerHeight: int)
    requires d.Valid() && path != [] && CanStartDrag(path)
    requires Margin - width <= drawnLeft + (x2 - x) <= innerWidth - Margin
    requires 0 <= drawnTop + (y2 - y) <= innerHeight - Margin
    modifies d
    ensures d.Valid() && d.isDragging && d.pinned
    ensures d.left == drawnLeft + (x2 - x) && d.top == drawnTop + (y2 - y)
  {
    var started := d.DragStart(path, x, y, drawnLeft, drawnTop);
    d.OnMouseMove(x2, y2, width, innerWidth, innerHeight);
  }
}
