/** `src/commons.ts`: the resize margin, the cursor value table and the flag-to-cursor choice. */
module Commons {
  import opened Options
  import opened Edges

  /** Distance in pixels from a border within which the pointer resizes. */
  const RESIZE_OFFSET: int := 10

  const DEFAULT := "default"
  const MOVE := "move"
  const N_RESIZE := "n-resize"
  const S_RESIZE := "s-resize"
  const E_RESIZE := "e-resize"
  const W_RESIZE := "w-resize"
  const NE_RESIZE := "ne-resize"
  const NW_RESIZE := "nw-resize"
  const SE_RESIZE := "se-resize"
  const SW_RESIZE := "sw-resize"

  /** The values of the frozen `cursors` object (the same 35 values as `Cursors` in `cursors.js`). */
  const CursorValues: set<string> := {
    DEFAULT, "pointer", "text", "wait", "help", MOVE, "crosshair", "not-allowed", "none",
    "progress", "cell", "context-menu", "alias", "copy", "grab", "grabbing", "zoom-in", "zoom-out",
    "col-resize", "row-resize", "ew-resize", "ns-resize", "nesw-resize", "nwse-resize",
    N_RESIZE, S_RESIZE, E_RESIZE, W_RESIZE, NE_RESIZE, NW_RESIZE, SE_RESIZE, SW_RESIZE,
    "vertical-text", "all-scroll", "no-drop"
  }

  /** The resize cursors `updateCursor` can choose. */
  const ResizeCursors: set<string> := {N_RESIZE, S_RESIZE, E_RESIZE, W_RESIZE, NE_RESIZE, NW_RESIZE, SE_RESIZE, SW_RESIZE}

  /**
   * `updateCursor`: the cursor for the current flags. Corners first (ne, nw,
   * se, sw), then single edges (s, e, w, n), and `move` inside the box.
   */
  function CursorFor(f: Flags): (c: string)
    ensures c in CursorValues
    ensures c == MOVE <==> !f.Any()
    ensures c != MOVE ==> c in ResizeCursors
  {
    if f.top && f.right then NE_RESIZE
    else if f.top && f.left then NW_RESIZE
    else if f.bottom && f.right then SE_RESIZE
    else if f.bottom && f.left then SW_RESIZE
    else if f.bottom then S_RESIZE
    else if f.right then E_RESIZE
    else if f.left then W_RESIZE
    else if f.top then N_RESIZE
    else MOVE
  }

  function Mask(left: bool, right: bool, top: bool, bottom: bool): Flags {
    Flags(left, right, top, bottom)
  }

  /** The priority order of `updateCursor`, written as a table. */
  const CursorTable: seq<Rule> := [
    Rule(NE_RESIZE, Mask(false, true, true, false)),
    Rule(NW_RESIZE, Mask(true, false, true, false)),
    Rule(SE_RESIZE, Mask(false, true, false, true)),
    Rule(SW_RESIZE, Mask(true, false, false, true)),
    Rule(S_RESIZE, Mask(false, false, false, true)),
    Rule(E_RESIZE, Mask(false, true, false, false)),
    Rule(W_RESIZE, Mask(true, false, false, false)),
    Rule(N_RESIZE, Mask(false, false, true, false))
  ]

  /** The last four rows of the cursor table: the single edges. */
  lemma CursorTableEdges(f: Flags)
    ensures FirstMatch(f, CursorTable[4..]) ==
              if f.bottom then Some(S_RESIZE) else if f.right then Some(E_RESIZE)
              else if f.left then Some(W_RESIZE) else if f.top then Some(N_RESIZE) else None
  {
    var t := CursorTable;
    assert FirstMatch(f, t[7..]) == if f.top then Some(N_RESIZE) else None by {
      assert t[7..][1..] == [];
    }
    assert FirstMatch(f, t[6..]) == if f.left then Some(W_RESIZE) else FirstMatch(f, t[7..]) by {
      assert t[6..][1..] == t[7..];
    }
    assert FirstMatch(f, t[5..]) == if f.right then Some(E_RESIZE) else FirstMatch(f, t[6..]) by {
      assert t[5..][1..] == t[6..];
    }
    assert t[4..][1..] == t[5..];
  }

  /** The cursor table from its bottom corners on. */
  lemma CursorTableBottomCorners(f: Flags)
    ensures FirstMatch(f, CursorTable[2..]) ==
              if f.bottom && f.right then Some(SE_RESIZE) else if f.bottom && f.left then Some(SW_RESIZE)
              else FirstMatch(f, CursorTable[4..])
  {
    var t := CursorTable;
    assert FirstMatch(f, t[3..]) == if f.bottom && f.left then Some(SW_RESIZE) else FirstMatch(f, t[4..]) by {
      assert t[3..][1..] == t[4..];
    }
    assert t[2..][1..] == t[3..];
  }

  /** `updateCursor` picks the first row of the priority table that applies, else `move`. */
  lemma CursorForFollowsTable(f: Flags)
    ensures CursorFor(f) == FirstMatch(f, CursorTable).GetOr(MOVE)
  {
    var t := CursorTable;
    CursorTableEdges(f);
    CursorTableBottomCorners(f);
    assert FirstMatch(f, t[1..]) == if f.top && f.left then Some(NW_RESIZE) else FirstMatch(f, t[2..]) by {
      assert t[1..][1..] == t[2..];
    }
  }

  /** Over the nine flag combinations with one flag per axis, different flags give different cursors. */
  lemma CursorForInjective(f: Flags, g: Flags)
    requires f.Exclusive() && g.Exclusive()
    requires CursorFor(f) == CursorFor(g)
    ensures f == g
  {
  }

  /** The resize floor used by the move handlers. */
  lemma MinimumSizeIsTwenty()
    ensures 2 * RESIZE_OFFSET == 20
  {
  }
}
