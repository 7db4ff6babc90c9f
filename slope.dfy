/** Slope segments of the map: two end points and the slope between them,
    with the y axis pointing down on screen, so the sign is flipped to give
    the usual "rising to the right is positive" slope. Slopes are stored but
    no collision rule consults them. */
module Slopes {
  import opened Options

  /** An end point of a slope segment. */
  datatype Point = Point(x: real, y: real)
  {
    function Pos(): (real, real)
    {
      (x, y)
    }

    /** The point's position shifted vertically by `offset` (used to draw a
        segment scrolled by the current level band). */
    function PosOffset(offset: real): (p: (real, real))
      ensures p.0 == Pos().0
      ensures p.1 - Pos().1 == offset
    {
      (x, y + offset)
    }
  }

  /** The slope of a segment: a vertical segment has none (its run is zero). */
  datatype Gradient = Vertical | Sloped(value: real)

  /** The slope from `start` to `end`, rise over run with the screen's y axis
      flipped. */
  function SlopeBetween(start: Point, end: Point): (g: Gradient)
    ensures g.Vertical? <==> start.x == end.x
    ensures g.Sloped? ==> g.value * (end.x - start.x) == start.y - end.y
  {
    if end.x == start.x then Vertical
    else
      var run := end.x - start.x;
      var r := (end.y - start.y) / run * -1.0;
      assert r * run == -(end.y - start.y);
      Sloped(r)
  }

  /** Exchanging the two end points does not change the slope. */
  lemma SlopeBetweenSwapped(a: Point, b: Point)
    ensures SlopeBetween(a, b) == SlopeBetween(b, a)
  {
    if a.x != b.x {
      var g, h := SlopeBetween(a, b).value, SlopeBetween(b, a).value;
      assert g * (b.x - a.x) == h * (b.x - a.x);
    }
  }

  /** A segment drawn with both end points shifted by the same scroll offset
      has the same slope as the segment itself. */
  lemma {:induction false} OffsetKeepsSlope(a: Point, b: Point, offset: real)
    ensures var a', b' := Point(a.PosOffset(offset).0, a.PosOffset(offset).1),
                          Point(b.PosOffset(offset).0, b.PosOffset(offset).1);
            SlopeBetween(a', b') == SlopeBetween(a, b)
  {
    var a', b' := Point(a.x, a.y + offset), Point(b.x, b.y + offset);
    assert b'.y - a'.y == b.y - a.y;
  }

  /** The segment (0, 10) to (10, 0) rises to the right with slope 1. */
  lemma SlopeExample()
    ensures SlopeBetween(Point(0.0, 10.0), Point(10.0, 0.0)) == Sloped(1.0)
  {
  }

  /** The end points reordered so that the first is the lower one on screen
      (the one with the larger y); already ordered points are kept as they are. */
  function Ordered(start: Point, end: Point): (r: (Point, Point))
    ensures r.0.y >= r.1.y
    ensures r == (start, end) || r == (end, start)
    ensures start.y >= end.y ==> r == (start, end)
  {
    if start.y < end.y then (end, start) else (start, end)
  }

  /** Reordering twice is the same as reordering once. */
  lemma OrderedIdempotent(start: Point, end: Point)
    ensures Ordered(Ordered(start, end).0, Ordered(start, end).1) == Ordered(start, end)
  {
  }

  /** A slope segment of the map. */
  class Slope {
    var start: Point
    var end: Point
    var tag: Option<string>
    var slope: real

    /** The stored slope is the slope between the stored end points. */
    ghost predicate Valid()
      reads this
    {
      SlopeBetween(start, end) == Sloped(slope)
    }

    /** Building a segment computes its slope; a vertical segment has none
        to compute. */
    constructor (start: Point, end: Point, tag: Option<string>)
      requires start.x != end.x
      ensures this.start == start && this.end == end && this.tag == tag
      ensures Valid()
    {
      this.start := start;
      this.end := end;
      this.tag := tag;
      var g := SlopeBetween(start, end);
      this.slope := g.value;
    }

    /** Swaps the end points when needed so that `start` is the lower one on
        screen; the stored slope stays correct. */
    method CorrectPoints()
      modifies this
      ensures (start, end) == Ordered(old(start), old(end))
      ensures start.y >= end.y
      ensures tag == old(tag) && slope == old(slope)
      ensures Valid() <==> old(Valid())
    {
      if start.y < end.y {
        var temp := start;
        start := end;
        end := temp;
        SlopeBetweenSwapped(start, end);
      }
    }
  }
}
