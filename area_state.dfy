/**
 * `src/models/area-state.ts`: the `AreaState` class, whose private fields are
 * read and written through plain getters and setters (modelled as public
 * fields) and whose three methods clear and set the edge flags in place.
 * The optional geometry (`left`, `top`, `width`, `height`, `side`) has no
 * initialiser and is `undefined` until set: `None` here.
 */
module AreaStates {
  import opened Options
  import opened Edges

  class AreaState {
    var prunable: bool
    var isActive: bool
    var isConfirmed: bool
    var isDeleted: bool
    var enableMovement: bool
    var isResizing: bool
    var offsetX: int
    var offsetY: int
    var startClientX: int
    var startClientY: int
    var startWidth: int
    var startHeight: int
    var startLeft: int
    var startTop: int
    var left: Option<int>
    var top: Option<int>
    var width: Option<int>
    var height: Option<int>
    var side: Option<string>
    var isLeftEdge: bool
    var isRightEdge: bool
    var isTopEdge: bool
    var isBottomEdge: bool

    /** The `position` record, as the edge flags of the Area classes. */
    function Position(): (f: Flags)
      reads this
      ensures f.left == isLeftEdge && f.right == isRightEdge && f.top == isTopEdge && f.bottom == isBottomEdge
    {
      Flags(isLeftEdge, isRightEdge, isTopEdge, isBottomEdge)
    }

    /** Every boolean false, every start and offset field 0, geometry unset. */
    predicate IsFresh()
      reads this
    {
      !prunable && !isActive && !isConfirmed && !isDeleted && !enableMovement && !isResizing
      && offsetX == 0 && offsetY == 0 && startClientX == 0 && startClientY == 0
      && startWidth == 0 && startHeight == 0 && startLeft == 0 && startTop == 0
      && left.None? && top.None? && width.None? && height.None? && side.None?
      && Position() == NoFlags
    }

    constructor ()
      ensures IsFresh()
    {
      prunable, isActive, isConfirmed, isDeleted := false, false, false, false;
      enableMovement, isResizing := false, false;
      offsetX, offsetY := 0, 0;
      startClientX, startClientY, startWidth, startHeight, startLeft, startTop := 0, 0, 0, 0, 0, 0;
      left, top, width, height, side := None, None, None, None, None;
      isLeftEdge, isRightEdge, isTopEdge, isBottomEdge := false, false, false, false;
    }

    /** `resetPosition`: the four edge flags false; no other field is touched. */
    method ResetPosition()
      modifies this`isLeftEdge, this`isRightEdge, this`isTopEdge, this`isBottomEdge
      ensures Position() == NoFlags
    {
      isLeftEdge := false;
      isRightEdge := false;
      isTopEdge := false;
      isBottomEdge := false;
    }

    /**
     * `updatePosition`: reset the flags, then classify (x, y) against the box
     * with left before right and top before bottom. The result depends on the
     * arguments only, and never holds two flags on one axis.
     */
    method UpdatePosition(x: int, y: int, width: int, height: int, resizeOffset: int)
      modifies this`isLeftEdge, this`isRightEdge, this`isTopEdge, this`isBottomEdge
      ensures Position() == Classify(x, y, width, height, resizeOffset)
      ensures !(isLeftEdge && isRightEdge) && !(isTopEdge && isBottomEdge)
    {
      ResetPosition();
      if x < resizeOffset {
        isLeftEdge := true;
      } else if x > width - resizeOffset {
        isRightEdge := true;
      }
      if y < resizeOffset {
        isTopEdge := true;
      } else if y > height - resizeOffset {
        isBottomEdge := true;
      }
    }

    /** `reset`: leave every mode and clear the flags; snapshots and geometry stay. */
    method Reset()
      modifies this`isActive, this`enableMovement, this`isResizing
      modifies this`isLeftEdge, this`isRightEdge, this`isTopEdge, this`isBottomEdge
      ensures !isActive && !enableMovement && !isResizing && Position() == NoFlags
    {
      isActive := false;
      enableMovement := false;
      isResizing := false;
      ResetPosition();
    }
  }
}
