/**
 * The capture overlay of content.js: the module-level variables `overlay`,
 * `selectionBox`, `startX`, `startY`, `isDrawing` and the handlers that
 * update them (`startCapture`, `onMouseDown`, `onMouseMove`, `onMouseUp`,
 * `onKeyDown`, `cleanup`).  The document is abstracted to the number of
 * overlay, result-card, loading and error-toast nodes it holds and to which
 * listeners are installed.
 */
module Selection {
  import opened Wrappers
  import opened Numbers
  import opened Geometry
  import opened CapturePipeline

  /** A pointer event delivered to the overlay. */
  datatype MouseEvent = Down(x: int, y: int) | Move(x: int, y: int) | Up

  /** What a release of the button led to. */
  datatype Release =
    | Ignored                       // not drawing: the handler returned at once
    | Cancelled(rect: Rect)         // the box was too small: clean up, nothing else
    | Captured(rect: Rect, run: Run)  // the box went through the capture pipeline

  class ContentScript {
    /** `overlay` is set and its node is in the document. */
    var overlay: bool
    /** The style box of `#ocr-selection`; `None` once `selectionBox` is null. */
    var selectionBox: Option<Rect>
    var startX: int
    var startY: int
    var isDrawing: bool
    /** `mousedown`/`mousemove`/`mouseup` are registered on the live overlay. */
    var overlayListeners: bool
    /** `keydown` is registered on the document. */
    var keyListener: bool

    /** Nodes of the document: `#ocr-overlay`, `#ocr-result`, `#ocr-loading`,
        and the error toasts shown so far. */
    var overlayNodes: nat
    var resultPanels: nat
    var loadingNodes: nat
    var errorToasts: nat

    /** Between two events: at most one overlay and at most one result card,
        the variables agree with the document, and no loading node is left. */
    ghost predicate Valid()
      reads this
    {
      overlayNodes == (if overlay then 1 else 0) &&
      (selectionBox.Some? <==> overlay) &&
      keyListener == overlay &&
      (overlayListeners ==> overlay) &&
      (isDrawing ==> overlayListeners) &&
      resultPanels <= 1 &&
      loadingNodes == 0
    }

    /** The script as loaded into a page: no overlay, nothing drawn. */
    constructor ()
      ensures Valid()
      ensures !overlay && !isDrawing && !overlayListeners && selectionBox == None
      ensures overlayNodes == 0 && resultPanels == 0 && errorToasts == 0
    {
      overlay, selectionBox, startX, startY, isDrawing := false, None, 0, 0, false;
      overlayListeners, keyListener := false, false;
      overlayNodes, resultPanels, loadingNodes, errorToasts := 0, 0, 0, 0;
    }

    /** `cleanup()`: safe with no overlay; removes it if there is one, forgets
        the selection box, stops drawing and the Escape listener.  The overlay
        listeners go with the discarded overlay.  Without an overlay it changes
        nothing, so a second clean-up after the first is a no-op. */
    method Cleanup()
      requires Valid()
      modifies this
      ensures Valid()
      ensures !old(overlay) ==> unchanged(this)
      ensures !overlay && overlayNodes == 0 && selectionBox == None
      ensures !isDrawing && !overlayListeners && !keyListener
      ensures startX == old(startX) && startY == old(startY)
      ensures resultPanels == old(resultPanels) && errorToasts == old(errorToasts)
    {
      if overlay {
        overlayNodes := overlayNodes - 1;
      }
      overlay := false;
      selectionBox := None;
      isDrawing := false;
      overlayListeners := false;
      keyListener := false;
    }

    /** `startCapture()`: clean up first, then read the theme setting.  When
        that read succeeds, create exactly one overlay with a hidden 0 x 0
        selection box, and listen for the pointer and Escape; when it fails,
        the call ends after the clean-up with no overlay at all. */
    method StartCapture(themeRead: bool)
      requires Valid()
      modifies this
      ensures Valid()
      ensures themeRead ==> overlay && overlayNodes == 1 && selectionBox == Some(Rect(0, 0, 0, 0))
      ensures themeRead ==> overlayListeners && keyListener
      ensures !themeRead ==> !overlay && overlayNodes == 0 && !overlayListeners && !keyListener
      ensures !isDrawing
      ensures resultPanels == old(resultPanels) && errorToasts == old(errorToasts)
    {
      Cleanup();
      if !themeRead {
        return;
      }
      overlay := true;
      overlayNodes := overlayNodes + 1;
      selectionBox := Some(Rect(0, 0, 0, 0));
      overlayListeners := true;
      keyListener := true;
    }

    /** `onMouseDown(e)`: anchor the selection at the pointer, 0 x 0. */
    method OnMouseDown(x: int, y: int)
      requires Valid() && overlayListeners
      modifies this
      ensures Valid()
      ensures isDrawing && startX == x && startY == y
      ensures selectionBox == Some(Rect(x, y, 0, 0))
      ensures overlay == old(overlay) && overlayListeners && keyListener == old(keyListener)
      ensures overlayNodes == old(overlayNodes) && resultPanels == old(resultPanels)
      ensures errorToasts == old(errorToasts)
    {
      isDrawing := true;
      startX := x;
      startY := y;
      selectionBox := Some(Rect(startX, startY, 0, 0));
    }

    /** `onMouseMove(e)`: while drawing, the box spans anchor and pointer;
        otherwise nothing happens. */
    method OnMouseMove(x: int, y: int)
      requires Valid() && overlayListeners
      modifies this
      ensures Valid()
      ensures old(isDrawing) ==> selectionBox == Some(Span(startX, startY, x, y))
      ensures !old(isDrawing) ==> unchanged(this)
      ensures isDrawing == old(isDrawing) && startX == old(startX) && startY == old(startY)
      ensures overlay == old(overlay) && overlayListeners && keyListener == old(keyListener)
      ensures overlayNodes == old(overlayNodes) && resultPanels == old(resultPanels)
      ensures errorToasts == old(errorToasts)
    {
      if !isDrawing {
        return;
      }
      var width := Abs(x - startX);
      var height := Abs(y - startY);
      var left := Min(x, startX);
      var top := Min(y, startY);
      selectionBox := Some(Rect(left, top, width, height));
    }

    /** `onMouseUp(e)`: the first release while drawing stops drawing and
        detaches the overlay listeners, reads the box the last move wrote, and
        either cancels (too small) or cleans up and runs the capture pipeline
        under a loading node; the outcome is a result card or an error toast. */
    method OnMouseUp(env: Env) returns (outcome: Release)
      requires Valid() && overlayListeners
      modifies this
      ensures Valid()
      ensures !old(isDrawing) ==> outcome == Ignored && unchanged(this)
      ensures old(isDrawing) ==>
        !overlay && overlayNodes == 0 && !overlayListeners && !isDrawing && !keyListener
      ensures old(isDrawing) && TooSmall(old(selectionBox).value) ==>
        outcome == Cancelled(old(selectionBox).value) &&
        resultPanels == old(resultPanels) && errorToasts == old(errorToasts)
      ensures old(isDrawing) && !TooSmall(old(selectionBox).value) ==>
        outcome == Captured(old(selectionBox).value, RunPipeline(old(selectionBox).value, env)) &&
        (outcome.run.shown.Card? ==> resultPanels == 1 && errorToasts == old(errorToasts)) &&
        (outcome.run.shown.Toast? ==>
           resultPanels == old(resultPanels) && errorToasts == old(errorToasts) + 1)
    {
      if !isDrawing {
        return Ignored;
      }
      isDrawing := false;
      overlayListeners := false;

      var rect := selectionBox.value;
      if rect.width < MinSide || rect.height < MinSide {
        Cleanup();
        return Cancelled(rect);
      }
      Cleanup();

      loadingNodes := loadingNodes + 1;
      var run := RunPipeline(rect, env);
      loadingNodes := loadingNodes - 1;
      match run.shown {
        case Card(_) =>
          // `showResult`: remove an existing `#ocr-result`, append the new one
          if resultPanels > 0 {
            resultPanels := resultPanels - 1;
          }
          resultPanels := resultPanels + 1;
        case Toast(_, _) =>
          errorToasts := errorToasts + 1;
      }
      outcome := Captured(rect, run);
    }

    /** `onKeyDown(e)`: Escape cleans up; any other key does nothing. */
    method OnKeyDown(key: string)
      requires Valid() && keyListener
      modifies this
      ensures Valid()
      ensures key == "Escape" ==> !overlay && overlayNodes == 0 && !isDrawing && !overlayListeners
      ensures key != "Escape" ==> unchanged(this)
      ensures overlayNodes <= old(overlayNodes)
      ensures resultPanels == old(resultPanels) && errorToasts == old(errorToasts)
    {
      if key == "Escape" {
        Cleanup();
      }
    }

    /** The browser delivering a pointer event to the overlay: only while the
        overlay listeners are registered does a handler run. */
    method DeliverMouse(ev: MouseEvent, env: Env) returns (outcome: Release)
      requires Valid()
      modifies this
      ensures Valid()
      ensures !old(overlayListeners) ==> outcome == Ignored && unchanged(this)
      ensures !ev.Up? ==> outcome == Ignored
      ensures old(overlayListeners) && !ev.Up? ==>
        overlay == old(overlay) && overlayListeners && keyListener == old(keyListener) &&
        overlayNodes == old(overlayNodes) && resultPanels == old(resultPanels) &&
        errorToasts == old(errorToasts)
      ensures old(overlayListeners) && ev.Down? ==>
        isDrawing && startX == ev.x && startY == ev.y &&
        selectionBox == Some(Rect(ev.x, ev.y, 0, 0))
      ensures old(overlayListeners) && ev.Move? ==>
        isDrawing == old(isDrawing) && startX == old(startX) && startY == old(startY) &&
        selectionBox == (if old(isDrawing) then Some(Span(old(startX), old(startY), ev.x, ev.y))
                         else old(selectionBox))
      ensures old(overlayListeners) && ev.Up? && !old(isDrawing) ==>
        outcome == Ignored && unchanged(this)
      ensures old(overlayListeners) && ev.Up? && old(isDrawing) ==>
        !overlay && overlayNodes == 0 && !overlayListeners && !isDrawing && !keyListener &&
        outcome == (if TooSmall(old(selectionBox).value) then Cancelled(old(selectionBox).value)
                    else Captured(old(selectionBox).value, RunPipeline(old(selectionBox).value, env)))
      ensures old(overlayListeners) && ev.Up? && old(isDrawing) ==>
        (outcome.Cancelled? ==> resultPanels == old(resultPanels) && errorToasts == old(errorToasts)) &&
        (outcome.Captured? && outcome.run.shown.Card? ==>
           resultPanels == 1 && errorToasts == old(errorToasts)) &&
        (outcome.Captured? && outcome.run.shown.Toast? ==>
           resultPanels == old(resultPanels) && errorToasts == old(errorToasts) + 1)
    {
      outcome := Ignored;
      if !overlayListeners {
        return;
      }
      match ev {
        case Down(x, y) => OnMouseDown(x, y);
        case Move(x, y) => OnMouseMove(x, y);
        case Up => outcome := OnMouseUp(env);
      }
    }

    /** The browser delivering a key press to the document. */
    method DeliverKey(key: string)
      requires Valid()
      modifies this
      ensures Valid()
      ensures old(keyListener) && key == "Escape" ==>
        !overlay && overlayNodes == 0 && !isDrawing && !overlayListeners && !keyListener &&
        selectionBox == None
      ensures !old(keyListener) || key != "Escape" ==> unchanged(this)
      ensures resultPanels == old(resultPanels) && errorToasts == old(errorToasts)
    {
      if keyListener {
        OnKeyDown(key);
      }
    }

    /** The close button and the first half of "scan next": remove this card. */
    method CloseResult()
      requires Valid()
      modifies this`resultPanels
      ensures Valid()
      ensures resultPanels == 0
    {
      resultPanels := 0;
    }
 
    /** "Scan next": remove this card and start a new capture. */
    method ScanNext(themeRead: bool)
      requires Valid()
      modifies this
      ensures Valid()
      ensures resultPanels == 0 && !isDrawing && errorToasts == old(errorToasts)
      ensures themeRead <==> overlay
      ensures themeRead ==> overlayNodes == 1 && overlayListeners
    {
      CloseResult();
      StartCapture(themeRead);
    }
  }

  /** A press released without any move cancels: the box is 0 x 0. */
  method PressWithoutMoveCancels(c: ContentScript, x: int, y: int, env: Env)
      returns (outcome: Release)
    requires c.Valid() && c.overlayListeners
    modifies c
    ensures c.Valid()
    ensures outcome == Cancelled(Rect(x, y, 0, 0))
    ensures !c.overlay && c.overlayNodes == 0 && c.resultPanels == old(c.resultPanels)
    ensures c.errorToasts == old(c.errorToasts)
  {
    c.OnMouseDown(x, y);
    outcome := c.OnMouseUp(env);
  }

  /** A drag commits at most once: after the first release every further
      pointer event is ignored until a new capture starts. */
  method DragCommitsOnce(c: ContentScript, x0: int, y0: int, x: int, y: int,
                         later: seq<MouseEvent>, env: Env)
      returns (first: Release, rest: seq<Release>)
    requires c.Valid() && c.overlayListeners
    modifies c
    ensures c.Valid()
    ensures first.Cancelled? || first.Captured?
    ensures first.rect == Span(x0, y0, x, y)
    ensures |rest| == |later| && forall i :: 0 <= i < |rest| ==> rest[i] == Ignored
    ensures !c.overlay && c.overlayNodes == 0
  {
    c.OnMouseDown(x0, y0);
    c.OnMouseMove(x, y);
    first := c.OnMouseUp(env);
    rest := [];
    var i := 0;
    while i < |later|
      invariant 0 <= i <= |later| && |rest| == i
      invariant c.Valid() && !c.overlayListeners && !c.overlay && c.overlayNodes == 0
      invariant forall j :: 0 <= j < i ==> rest[j] == Ignored
    {
      var o := c.DeliverMouse(later[i], env);
      rest := rest + [o];
      i := i + 1;
    }
  }

  /** Something the user does to the page. */
  datatype Action =
    | StartCapture(themeRead: bool)  // the floating button, the popup or "scan next"
    | Pointer(ev: MouseEvent)
    | Key(key: string)
    | CloseCard

  /** Whatever the order of captures, pointer events, key presses and card
      closes, the page never holds two overlays or two result cards. */
  method AtMostOneOverlay(c: ContentScript, actions: seq<Action>, env: Env)
    requires c.Valid()
    modifies c
    ensures c.Valid() && c.overlayNodes <= 1 && c.resultPanels <= 1
  {
    var i := 0;
    while i < |actions|
      invariant 0 <= i <= |actions|
      invariant c.Valid()
    {
      match actions[i] {
        case StartCapture(ok) => c.StartCapture(ok);
        case Pointer(ev) => var _ := c.DeliverMouse(ev, env);
        case Key(k) => c.DeliverKey(k);
        case CloseCard => c.CloseResult();
      }
      i := i + 1;
    }
  }
}
