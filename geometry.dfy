/**
 * The selection rectangle of the capture overlay (content.js, `onMouseMove`):
 * the box spanned by the anchor of the press and the current pointer.
 */
module Geometry {
  import opened Numbers

  /** A box in viewport pixels, as `left`/`top`/`width`/`height` style values. */
  datatype Rect = Rect(left: int, top: int, width: int, height: int)

  /** The smallest side a selection may have before it is captured. */
  const MinSide: int := 20

  function Abs(v: int): (r: nat)
    ensures r == v || r == -v
  {
    if v < 0 then -v else v
  }

  /** The point lies in the box, edges included. */
  predicate Covers(r: Rect, x: int, y: int) {
    r.left <= x <= r.left + r.width && r.top <= y <= r.top + r.height
  }

  /** Box `r` lies within box `q`. */
  predicate Within(r: Rect, q: Rect) {
    q.left <= r.left && r.left + r.width <= q.left + q.width &&
    q.top <= r.top && r.top + r.height <= q.top + q.height
  }

  /** The box `onMouseMove` writes for anchor `(x0, y0)` and pointer `(x, y)`. */
  function Span(x0: int, y0: int, x: int, y: int): (r: Rect)
    ensures r.width >= 0 && r.height >= 0
    ensures Covers(r, x0, y0) && Covers(r, x, y)
  {
    Rect(Min(x, x0), Min(y, y0), Abs(x - x0), Abs(y - y0))
  }

  /** The box is the smallest one holding both points. */
  lemma SpanIsSmallest(x0: int, y0: int, x: int, y: int, q: Rect)
    requires Covers(q, x0, y0) && Covers(q, x, y)
    ensures Within(Span(x0, y0, x, y), q)
  {
  }

  /** It does not matter which point is the anchor. */
  lemma SpanSymmetric(x0: int, y0: int, x: int, y: int)
    ensures Span(x0, y0, x, y) == Span(x, y, x0, y0)
  {
  }

  /** A release at the anchor spans a 0 x 0 box there. */
  lemma SpanOfPoint(x: int, y: int)
    ensures Span(x, y, x, y) == Rect(x, y, 0, 0)
  {
  }

  /** `rect.width < 20 || rect.height < 20` */
  predicate TooSmall(r: Rect): (b: bool)
    ensures !b ==> r.width * r.height >= MinSide * MinSide
  {
    r.width < MinSide || r.height < MinSide
  }

  /** The box is too small exactly when the pointer moved less than 20 px
      along one of the axes. */
  lemma TooSmallSpan(x0: int, y0: int, x: int, y: int)
    ensures TooSmall(Span(x0, y0, x, y)) <==>
            (-MinSide < x - x0 < MinSide || -MinSide < y - y0 < MinSide)
  {
  }
}
