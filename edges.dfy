/**
 * The `position` record of an area: which edges of the box the pointer is
 * near. `src/models/area-state.ts` names the flags `isLeftEdge` ..., the two
 * Area files and `main.js` name them `left`, `right`, `top`, `bottom`; both are
 * this one datatype.
 */
module Edges {
  import opened Options

  datatype Edge = Left | Right | Top | Bottom

  datatype Flags = Flags(left: bool, right: bool, top: bool, bottom: bool) {
    function Get(e: Edge): bool {
      match e
      case Left => left
      case Right => right
      case Top => top
      case Bottom => bottom
    }

    /** Assigning one flag of the record (`position[key] = v`). */
    function Set(e: Edge, v: bool): (f: Flags)
      ensures f.Get(e) == v
      ensures forall e' :: e' != e ==> f.Get(e') == Get(e')
    {
      match e
      case Left => this.(left := v)
      case Right => this.(right := v)
      case Top => this.(top := v)
      case Bottom => this.(bottom := v)
    }

    /** Some edge is hot: the pointer is in a resize zone. */
    predicate Any() {
      left || right || top || bottom
    }

    /** At most one flag per axis. */
    predicate Exclusive() {
      !(left && right) && !(top && bottom)
    }

    /** A horizontal and a vertical flag are both set. */
    predicate IsCorner() {
      (left || right) && (top || bottom)
    }

    /** Every flag set in `mask` is set here. */
    predicate Covers(mask: Flags) {
      (mask.left ==> left) && (mask.right ==> right) && (mask.top ==> top) && (mask.bottom ==> bottom)
    }
  }

  const NoFlags := Flags(false, false, false, false)

  /** The keys of the position record, in declaration order. */
  const AllEdges: seq<Edge> := [Left, Right, Top, Bottom]

  /** Flag-wise disjunction: setting flags to true on top of existing ones. */
  function Union(f: Flags, g: Flags): (u: Flags)
    ensures forall e :: u.Get(e) == (f.Get(e) || g.Get(e))
  {
    Flags(f.left || g.left, f.right || g.right, f.top || g.top, f.bottom || g.bottom)
  }

  /**
   * Edge classification of a point (x, y), relative to the box's top-left
   * corner, against a box of the given size and margin. Left is tested before
   * right and top before bottom (`else if`), so a box narrower than
   * `2 * offset` still reports a single horizontal flag.
   */
  function Classify(x: int, y: int, width: int, height: int, offset: int): (f: Flags)
    ensures f.Exclusive()
    ensures f.left <==> x < offset
    ensures f.right <==> offset <= x && width - offset < x
    ensures f.top <==> y < offset
    ensures f.bottom <==> offset <= y && height - offset < y
  {
    var left := x < offset;
    var right := !left && x > width - offset;
    var top := y < offset;
    var bottom := !top && y > height - offset;
    Flags(left, right, top, bottom)
  }

  /**
   * The classification as the two Area classes write it: the `if`/`else if`
   * chains only ever set flags to true, on top of whatever the record held.
   */
  function MarkEdges(f: Flags, x: int, y: int, width: int, height: int, offset: int): (g: Flags)
    ensures forall e :: f.Get(e) ==> g.Get(e)
    ensures forall e :: Classify(x, y, width, height, offset).Get(e) ==> g.Get(e)
    ensures forall e :: g.Get(e) ==> f.Get(e) || Classify(x, y, width, height, offset).Get(e)
  {
    Union(f, Classify(x, y, width, height, offset))
  }

  /** All four flags false exactly in the move zone. */
  lemma ClassifyInteriorIsMoveZone(x: int, y: int, width: int, height: int, offset: int)
    ensures !Classify(x, y, width, height, offset).Any()
        <==> offset <= x <= width - offset && offset <= y <= height - offset
  {
  }

  /** With x < offset only the left flag is set, even for a box narrower than 2 * offset. */
  lemma ClassifyLeftWins(x: int, y: int, width: int, height: int, offset: int)
    requires x < offset
    ensures Classify(x, y, width, height, offset).left
    ensures !Classify(x, y, width, height, offset).right
  {
  }

  lemma ClassifyNarrowBoxExample()
    ensures Classify(7, 50, 15, 100, 10) == Flags(true, false, false, false)
  {
  }

  /** Marking on cleared flags is the plain classification. */
  lemma MarkEdgesOnClearedFlags(x: int, y: int, width: int, height: int, offset: int)
    ensures MarkEdges(NoFlags, x, y, width, height, offset) == Classify(x, y, width, height, offset)
  {
  }

  /**
   * Marking the flags a classification at the same point already produced
   * changes nothing, so the result then keeps one flag per axis.
   */
  lemma MarkEdgesAfterSamePoint(x: int, y: int, width: int, height: int, offset: int)
    ensures var c := Classify(x, y, width, height, offset);
            MarkEdges(c, x, y, width, height, offset) == c && c.Exclusive()
  {
  }

  /**
   * Stale flags are not cleared by marking: a left flag left over from an
   * earlier classification and a click near the right edge give both.
   */
  lemma MarkEdgesCanBreakExclusivity()
    ensures !MarkEdges(Flags(true, false, false, false), 395, 100, 400, 200, 10).Exclusive()
  {
  }

  /**
   * `for (const prop in position) position[prop] = false` and
   * `Object.keys(position).forEach(key => position[key] = false)`:
   * clear every key of the record in turn.
   */
  method ClearFlags(f: Flags) returns (r: Flags)
    ensures r == NoFlags
  {
    r := f;
    for i := 0 to |AllEdges|
      invariant forall j :: 0 <= j < i ==> !r.Get(AllEdges[j])
    {
      r := r.Set(AllEdges[i], false);
    }
    assert !r.Get(Left) && !r.Get(Right) && !r.Get(Top) && !r.Get(Bottom) by {
      assert AllEdges[0] == Left && AllEdges[1] == Right && AllEdges[2] == Top && AllEdges[3] == Bottom;
    }
  }

  /** A row of a priority table: its name applies when every flag of `mask` is set. */
  datatype Rule = Rule(name: string, mask: Flags)

  /** The name of the first rule that applies, as an `if`/`else if` chain picks it. */
  function FirstMatch(f: Flags, rules: seq<Rule>): (r: Option<string>)
    ensures r.None? ==> forall i :: 0 <= i < |rules| ==> !f.Covers(rules[i].mask)
    ensures r.Some? ==> exists i :: 0 <= i < |rules| && rules[i].name == r.value && f.Covers(rules[i].mask)
                           && forall j :: 0 <= j < i ==> !f.Covers(rules[j].mask)
  {
    if rules == [] then None
    else if f.Covers(rules[0].mask) then Some(rules[0].name)
    else
      var r := FirstMatch(f, rules[1..]);
      assert r.Some? ==> exists i :: 1 <= i < |rules| && rules[i].name == r.value && f.Covers(rules[i].mask)
                           && forall j :: 1 <= j < i ==> !f.Covers(rules[j].mask) by {
        if r.Some? {
          var k :| 0 <= k < |rules[1..]| && rules[1..][k].name == r.value && f.Covers(rules[1..][k].mask)
                   && forall j :: 0 <= j < k ==> !f.Covers(rules[1..][j].mask);
          assert forall j :: 1 <= j < k + 1 ==> !f.Covers(rules[j].mask) by {
            forall j | 1 <= j < k + 1 ensures !f.Covers(rules[j].mask) {
              assert rules[j] == rules[1..][j - 1];
            }
          }
        }
      }
      r
  }
}
