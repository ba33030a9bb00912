/**
 * Frame-by-frame geometry of a drag: the snapshot taken on mouse-down and the
 * new box computed on every mouse-move, from `src/models/space.ts` `_mouseMove`
 * and `main.js` `handleMouseMove` (the same arithmetic in both).
 */
module Geometry {
  import opened Options
  import opened Edges
  import Commons

  /** The `clientX`/`clientY` of a mouse event. */
  datatype Pointer = Pointer(clientX: int, clientY: int)

  /**
   * What a handler reads from the browser's layout: `getBoundingClientRect()`
   * and `offsetWidth`/`offsetHeight`.
   */
  datatype Layout = Layout(rectLeft: int, rectTop: int, rectWidth: int, rectHeight: int,
                           offsetWidth: int, offsetHeight: int)

  /**
   * The inline style of the box element. `left` and `top` are what
   * `parseInt(style.left, 10)` reads back: `None` when that is NaN (a host may
   * write any string into the style). `cursor` is the CSS cursor keyword.
   */
  datatype ElementStyle = ElementStyle(left: Option<int>, top: Option<int>, width: int, height: int, cursor: string)

  /** `style.width = '400px'` ... as the box is created; the cursor is unset. */
  const InitialStyle := ElementStyle(Some(0), Some(0), 400, 200, "")

  /** Pointer and box position captured when a drag starts. */
  datatype Snapshot = Snapshot(startClientX: int, startClientY: int, startWidth: int, startHeight: int,
                               startLeft: int, startTop: int)

  const ZeroSnapshot := Snapshot(0, 0, 0, 0, 0, 0)

  /** `parseInt(v, 10) || 0`. */
  function ParseIntOrZero(v: Option<int>): (n: int)
    ensures v.Some? ==> n == v.value
    ensures v.None? ==> n == 0
  {
    match v
    case Some(k) => k
    case None => 0
  }

  /** The snapshot of mouse-down: pointer, offset size and parsed style position. */
  function TakeSnapshot(p: Pointer, l: Layout, style: ElementStyle): (s: Snapshot)
    ensures s.startClientX == p.clientX && s.startClientY == p.clientY
    ensures s.startWidth == l.offsetWidth && s.startHeight == l.offsetHeight
    ensures s.startLeft == ParseIntOrZero(style.left) && s.startTop == ParseIntOrZero(style.top)
  {
    Snapshot(p.clientX, p.clientY, l.offsetWidth, l.offsetHeight,
             ParseIntOrZero(style.left), ParseIntOrZero(style.top))
  }

  /** The hard size floor of a resize. */
  const MinSize: int := Commons.RESIZE_OFFSET * 2

  /** `Math.max(2 * RESIZE_OFFSET, size)`. */
  function Clamp(size: int): (c: int)
    ensures c >= MinSize && c >= size
    ensures c == MinSize || c == size
  {
    if size < MinSize then MinSize else size
  }

  /** What one axis of a resize writes: nothing, the size, or the size and the position. */
  datatype AxisEdit = Keep | Grow(size: int) | Anchored(pos: int, size: int)

  /**
   * One axis of a resize, `low`/`high` being the left/right (or top/bottom)
   * flags. The high edge is tested first: it grows from the fixed low edge;
   * the low edge keeps the high edge where it was. The size never drops under
   * `MinSize`, however far the pointer overshoots.
   */
  function ResizeAxis(low: bool, high: bool, startPos: int, startSize: int, delta: int): (e: AxisEdit)
    ensures e.Grow? <==> high
    ensures e.Anchored? <==> !high && low
    ensures e.Grow? ==> e.size >= MinSize && e.size >= startSize + delta
                        && (e.size == MinSize || e.size == startSize + delta)
    ensures e.Anchored? ==> e.size >= MinSize && e.size >= startSize - delta
                            && (e.size == MinSize || e.size == startSize - delta)
                            && e.pos + e.size == startPos + startSize
  {
    if high then
      Grow(Clamp(startSize + delta))
    else if low then
      var size := Clamp(startSize - delta);
      Anchored(startPos + startSize - size, size)
    else
      Keep
  }

  /** The box after a resize frame: the pointer's displacement from the snapshot applied per axis. */
  function ResizeStyle(style: ElementStyle, s: Snapshot, f: Flags, p: Pointer): (r: ElementStyle)
    ensures r.cursor == style.cursor
    ensures (f.left || f.right) ==> r.width >= MinSize
    ensures (f.top || f.bottom) ==> r.height >= MinSize
    ensures !f.left && !f.right ==> r.width == style.width && r.left == style.left
    ensures !f.top && !f.bottom ==> r.height == style.height && r.top == style.top
    ensures f.right ==> r.left == style.left
    ensures f.bottom ==> r.top == style.top
    ensures f.left && !f.right ==> r.left == Some(s.startLeft + s.startWidth - r.width)
    ensures f.top && !f.bottom ==> r.top == Some(s.startTop + s.startHeight - r.height)
    ensures f.right ==> r.width == Clamp(s.startWidth + (p.clientX - s.startClientX))
    ensures f.left && !f.right ==> r.width == Clamp(s.startWidth - (p.clientX - s.startClientX))
    ensures f.bottom ==> r.height == Clamp(s.startHeight + (p.clientY - s.startClientY))
    ensures f.top && !f.bottom ==> r.height == Clamp(s.startHeight - (p.clientY - s.startClientY))
  {
    var h := ResizeAxis(f.left, f.right, s.startLeft, s.startWidth, p.clientX - s.startClientX);
    var v := ResizeAxis(f.top, f.bottom, s.startTop, s.startHeight, p.clientY - s.startClientY);
    var afterH := match h
      case Keep => style
      case Grow(w) => style.(width := w)
      case Anchored(x, w) => style.(width := w, left := Some(x));
    match v
    case Keep => afterH
    case Grow(ht) => afterH.(height := ht)
    case Anchored(y, ht) => afterH.(height := ht, top := Some(y))
  }

  /** The box after a move frame: translated by the pointer's displacement from the snapshot. */
  function MoveStyle(style: ElementStyle, s: Snapshot, p: Pointer): (r: ElementStyle)
    ensures r.left.Some? && r.left.value - s.startLeft == p.clientX - s.startClientX
    ensures r.top.Some? && r.top.value - s.startTop == p.clientY - s.startClientY
    ensures r.width == style.width && r.height == style.height && r.cursor == style.cursor
  {
    style.(left := Some(s.startLeft + (p.clientX - s.startClientX)),
           top := Some(s.startTop + (p.clientY - s.startClientY)))
  }

  /** The right resize grows the width by the pointer's displacement, down to the floor. */
  lemma RightResizeWidth(style: ElementStyle, s: Snapshot, f: Flags, p: Pointer)
    requires f.right
    ensures var r := ResizeStyle(style, s, f, p);
            var grown := s.startWidth + (p.clientX - s.startClientX);
            r.width == (if grown < MinSize then MinSize else grown) && r.left == style.left
  {
  }

  /** The left resize keeps the right edge at `startLeft + startWidth`, even under the clamp. */
  lemma LeftResizeAnchorsRightEdge(style: ElementStyle, s: Snapshot, f: Flags, p: Pointer)
    requires f.left && !f.right
    ensures var r := ResizeStyle(style, s, f, p);
            var shrunk := s.startWidth - (p.clientX - s.startClientX);
            r.width == (if shrunk < MinSize then MinSize else shrunk)
            && r.left.Some? && r.left.value + r.width == s.startLeft + s.startWidth
  {
  }

  /** The top resize keeps the bottom edge at `startTop + startHeight`, even under the clamp. */
  lemma TopResizeAnchorsBottomEdge(style: ElementStyle, s: Snapshot, f: Flags, p: Pointer)
    requires f.top && !f.bottom
    ensures var r := ResizeStyle(style, s, f, p);
            var shrunk := s.startHeight - (p.clientY - s.startClientY);
            r.height == (if shrunk < MinSize then MinSize else shrunk)
            && r.top.Some? && r.top.value + r.height == s.startTop + s.startHeight
  {
  }

  /** The bottom resize grows the height by the pointer's displacement, down to the floor. */
  lemma BottomResizeHeight(style: ElementStyle, s: Snapshot, f: Flags, p: Pointer)
    requires f.bottom
    ensures var r := ResizeStyle(style, s, f, p);
            var grown := s.startHeight + (p.clientY - s.startClientY);
            r.height == (if grown < MinSize then MinSize else grown) && r.top == style.top
  {
  }

  /**
   * Each frame is computed from the snapshot, not from the previous frame:
   * replaying frames never drifts, only the last pointer position counts.
   */
  lemma ResizeFramesDoNotAccumulate(style: ElementStyle, s: Snapshot, f: Flags, p: Pointer, q: Pointer)
    ensures ResizeStyle(ResizeStyle(style, s, f, p), s, f, q) == ResizeStyle(style, s, f, q)
  {
  }

  /** Two move frames differ by exactly the pointer's displacement between them. */
  lemma MoveIsTranslation(style: ElementStyle, s: Snapshot, p: Pointer, q: Pointer)
    ensures var a := MoveStyle(style, s, p);
            var b := MoveStyle(style, s, q);
            b.left.value - a.left.value == q.clientX - p.clientX
            && b.top.value - a.top.value == q.clientY - p.clientY
  {
  }

  /** A move frame at the pointer of the snapshot puts the box back at its start position. */
  lemma MoveAtStartPointIsIdentity(style: ElementStyle, s: Snapshot)
    ensures MoveStyle(style, s, Pointer(s.startClientX, s.startClientY)).left == Some(s.startLeft)
    ensures MoveStyle(style, s, Pointer(s.startClientX, s.startClientY)).top == Some(s.startTop)
  {
  }

  lemma ResizeExamples(style: ElementStyle)
    ensures ResizeStyle(style, Snapshot(0, 0, 400, 200, 0, 0), Flags(false, true, false, false), Pointer(50, 0))
            == style.(width := 450)
    ensures ResizeStyle(style, Snapshot(0, 0, 400, 200, 0, 0), Flags(true, false, false, false), Pointer(50, 0))
            == style.(width := 350, left := Some(50))
    ensures ResizeStyle(style, Snapshot(0, 0, 400, 200, 0, 0), Flags(false, true, false, false), Pointer(-10000, 0)).width
            == 20
  {
  }

  lemma MoveExample(style: ElementStyle)
    ensures MoveStyle(style, Snapshot(100, 0, 400, 200, 10, 0), Pointer(130, 0)).left == Some(40)
  {
  }
}
