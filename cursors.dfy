/**
 * `cursors.js`: the page-wide cursor setter. A value is written to the body's
 * cursor only when it is one of the `Cursors` values (the same 35 values as
 * `src/commons.ts`) and the module-level `blockCursor` is off; any other value
 * is reported with a warning and changes nothing.
 */
module CursorSwitch {
  import Commons

  /** The body cursor after `changeCursor(c)`. */
  function CursorAfterChange(blocked: bool, current: string, c: string): (r: string)
    ensures r == c <==> c == current || (c in Commons.CursorValues && !blocked)
    ensures r != current ==> r == c && c in Commons.CursorValues && !blocked
  {
    if c in Commons.CursorValues then
      if !blocked then c else current
    else
      current
  }

  /** The cursor after a sequence of `changeCursor` calls. */
  function ApplyAll(blocked: bool, current: string, cs: seq<string>): string
    decreases |cs|
  {
    if cs == [] then current else ApplyAll(blocked, CursorAfterChange(blocked, current, cs[0]), cs[1..])
  }

  /** While the switch is blocked no sequence of changes moves the cursor. */
  lemma {:induction false} BlockedCursorNeverChanges(current: string, cs: seq<string>)
    ensures ApplyAll(true, current, cs) == current
    decreases |cs|
  {
    if cs != [] {
      BlockedCursorNeverChanges(CursorAfterChange(true, current, cs[0]), cs[1..]);
    }
  }

  /** Unblocked, the body shows the last valid cursor of a sequence, or the initial one if none was valid. */
  lemma {:induction false} UnblockedShowsLastValid(current: string, cs: seq<string>, k: nat)
    requires k < |cs| && cs[k] in Commons.CursorValues
    requires forall j :: k < j < |cs| ==> cs[j] !in Commons.CursorValues
    ensures ApplyAll(false, current, cs) == cs[k]
    decreases |cs|
  {
    if k == 0 {
      InvalidTailKeepsCursor(cs[0], cs[1..]);
    } else {
      UnblockedShowsLastValid(CursorAfterChange(false, current, cs[0]), cs[1..], k - 1);
    }
  }

  lemma {:induction false} InvalidTailKeepsCursor(current: string, cs: seq<string>)
    requires forall j :: 0 <= j < |cs| ==> cs[j] !in Commons.CursorValues
    ensures ApplyAll(false, current, cs) == current
    decreases |cs|
  {
    if cs != [] {
      InvalidTailKeepsCursor(current, cs[1..]);
    }
  }

  /** The module's `blockCursor` and `document.body.style.cursor`. */
  class CursorControl {
    var blockCursor: bool
    var bodyCursor: string

    /** `let blockCursor = false`, on a body whose cursor is `initial`. */
    constructor (initial: string)
      ensures !blockCursor && bodyCursor == initial
    {
      blockCursor := false;
      bodyCursor := initial;
    }

    /** `changeCursor(c)`; `valid` is false on the warning branch. */
    method ChangeCursor(c: string) returns (valid: bool)
      modifies this`bodyCursor
      ensures valid <==> c in Commons.CursorValues
      ensures bodyCursor == CursorAfterChange(blockCursor, old(bodyCursor), c)
    {
      valid := c in Commons.CursorValues;
      if valid {
        if !blockCursor {
          bodyCursor := c;
        }
      }
    }
  }
}
