/**
 * The `_state` object of an Area (the `AreaState` interface that
 * `src/area.ts` and `src/models/area.ts` declare identically) and the state
 * changes their pointer handlers make to it.
 */
module AreaRecords {
  import opened Options
  import opened Edges
  import opened Geometry
  import Commons

  datatype AreaRecord = AreaRecord(
    prunable: bool,
    isThisAreaSelected: bool,
    enableMovement: bool,
    isResizing: bool,
    offsetX: int,
    offsetY: int,
    snap: Snapshot,
    position: Flags)
  {
    /** Neither resizing nor moving: the hover state. */
    predicate Idle() {
      !enableMovement && !isResizing
    }
  }

  /** The record an Area is created with: every flag false, every number 0. */
  const InitialRecord := AreaRecord(false, false, false, false, 0, 0, ZeroSnapshot, NoFlags)

  /** The pointer relative to the element's bounding box. */
  function RelX(p: Pointer, l: Layout): int { p.clientX - l.rectLeft }
  function RelY(p: Pointer, l: Layout): int { p.clientY - l.rectTop }

  /** What `_mouseDown` does before the `select` event is fired: mark the area selected. */
  function Selected(r: AreaRecord): AreaRecord {
    r.(isThisAreaSelected := true)
  }

  /**
   * `_mouseDown` on the area's own element: ignored on a prunable area;
   * otherwise select it, take the snapshot, mark the edges under the pointer
   * (without clearing earlier flags) and enter resizing when some flag is set,
   * moving otherwise.
   */
  function MouseDownRecord(r: AreaRecord, p: Pointer, l: Layout, style: ElementStyle): (r': AreaRecord)
    ensures r.prunable ==> r' == r
    ensures !r.prunable ==> r'.isThisAreaSelected && !r'.prunable
    ensures !r.prunable ==> r'.snap == TakeSnapshot(p, l, style)
    ensures !r.prunable ==> r'.offsetX == RelX(p, l) && r'.offsetY == RelY(p, l)
    ensures !r.prunable ==>
              r'.position == MarkEdges(r.position, RelX(p, l), RelY(p, l), l.rectWidth, l.rectHeight, Commons.RESIZE_OFFSET)
    ensures !r.prunable ==> (r'.isResizing <==> r'.position.Any()) && (r'.enableMovement <==> !r'.isResizing)
  {
    if r.prunable then r
    else
      var x := RelX(p, l);
      var y := RelY(p, l);
      var pos := MarkEdges(r.position, x, y, l.rectWidth, l.rectHeight, Commons.RESIZE_OFFSET);
      var resizing := pos.Any();
      Selected(r).(snap := TakeSnapshot(p, l, style), offsetX := x, offsetY := y, position := pos,
                   isResizing := resizing, enableMovement := !resizing)
  }

  /**
   * `_mouseMove` on the area's own element: while hovering (neither resizing
   * nor moving) the flags are cleared and re-classified at the pointer;
   * during a drag, and on a prunable area, nothing changes.
   */
  function HoverRecord(r: AreaRecord, p: Pointer, l: Layout): (r': AreaRecord)
    ensures r.prunable || !r.Idle() ==> r' == r
    ensures !r.prunable && r.Idle() ==>
              r' == r.(position := Classify(RelX(p, l), RelY(p, l), l.rectWidth, l.rectHeight, Commons.RESIZE_OFFSET))
  {
    if r.prunable || !r.Idle() then r
    else r.(position := Classify(RelX(p, l), RelY(p, l), l.rectWidth, l.rectHeight, Commons.RESIZE_OFFSET))
  }

  /** `_mouseUp`: deselect and leave both modes; the position flags stay as they are. */
  function MouseUpRecord(r: AreaRecord): (r': AreaRecord)
    ensures r.prunable ==> r' == r
    ensures !r.prunable ==> !r'.isThisAreaSelected && r'.Idle()
    ensures r'.position == r.position && r'.snap == r.snap && r'.prunable == r.prunable
    ensures r'.offsetX == r.offsetX && r'.offsetY == r.offsetY
  {
    if r.prunable then r
    else r.(isThisAreaSelected := false, enableMovement := false, isResizing := false)
  }

  /** `Space._mouseDown` on the selected area: set resizing if some flag is set, moving otherwise. */
  function SpaceMouseDownRecord(r: AreaRecord): (r': AreaRecord)
    ensures r.position.Any() ==> r' == r.(isResizing := true)
    ensures !r.position.Any() ==> r' == r.(enableMovement := true)
  {
    if r.position.Any() then r.(isResizing := true) else r.(enableMovement := true)
  }

  /** After mouse-down exactly one of resizing and moving holds, resizing iff some flag is set. */
  lemma MouseDownPicksOneMode(r: AreaRecord, p: Pointer, l: Layout, style: ElementStyle)
    requires !r.prunable
    ensures var r' := MouseDownRecord(r, p, l, style);
            (r'.isResizing != r'.enableMovement) && (r'.isResizing <==> r'.position.Any())
  {
  }

  /**
   * In the browser's usual sequence a hover at the pointer precedes the
   * press, so the mouse-down flags are the classification at that point and
   * keep one flag per axis.
   */
  lemma HoverThenMouseDownIsExclusive(r: AreaRecord, p: Pointer, l: Layout, style: ElementStyle)
    requires !r.prunable && r.Idle()
    ensures var r' := MouseDownRecord(HoverRecord(r, p, l), p, l, style);
            r'.position == Classify(RelX(p, l), RelY(p, l), l.rectWidth, l.rectHeight, Commons.RESIZE_OFFSET)
            && r'.position.Exclusive()
  {
    MarkEdgesAfterSamePoint(RelX(p, l), RelY(p, l), l.rectWidth, l.rectHeight, Commons.RESIZE_OFFSET);
  }

  /**
   * Without that hover, flags left from an earlier press survive: a left-edge
   * flag and a press near the right edge leave both horizontal flags set.
   */
  lemma StaleFlagsSurviveMouseDown()
    ensures var r := InitialRecord.(position := Flags(true, false, false, false));
            var r' := MouseDownRecord(r, Pointer(395, 100), Layout(0, 0, 400, 200, 400, 200), InitialStyle);
            r'.position.left && r'.position.right
  {
  }

  /** The container's mouse-down, run after the element's, leaves the record as the element left it. */
  lemma SpaceMouseDownAfterAreaMouseDown(r: AreaRecord, p: Pointer, l: Layout, style: ElementStyle)
    requires !r.prunable
    ensures var r' := MouseDownRecord(r, p, l, style);
            SpaceMouseDownRecord(r') == r'
  {
  }

  /** A whole press-release gesture brings the area back to the idle, deselected state. */
  lemma GestureEndsIdle(r: AreaRecord, p: Pointer, l: Layout, style: ElementStyle)
    requires !r.prunable
    ensures var r' := MouseUpRecord(MouseDownRecord(r, p, l, style));
            r'.Idle() && !r'.isThisAreaSelected && r'.snap == TakeSnapshot(p, l, style)
  {
  }

  /** A prunable area ignores every pointer handler. */
  lemma PrunableIgnoresPointer(r: AreaRecord, p: Pointer, l: Layout, style: ElementStyle)
    requires r.prunable
    ensures MouseDownRecord(r, p, l, style) == r
    ensures HoverRecord(r, p, l) == r
    ensures MouseUpRecord(r) == r
  {
  }
}
