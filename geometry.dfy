/** Geometry primitives of the platformer: axis-aligned boxes (the actor's
    50x50 rectangle and the static map rectangles) and the surface type
    that a map rectangle carries.

    Coordinates are screen coordinates: x grows to the right and y grows
    downwards, so a box's top edge is its y and its bottom edge is y + height. */
module Geometry {

  /** A position or a velocity: the source keeps both as two-element lists. */
  datatype Vec = Vec(x: real, y: real)

  /** The surface type of a map rectangle. The map stores it as a string tag;
      every tag other than "f", "c", "l" and "r" is ignored by the collision
      step, which is what Other stands for. */
  datatype Surface = Floor | Ceiling | LeftWall | RightWall | Other

  /** Reads the map's string tag. */
  function SurfaceOf(tag: string): (s: Surface)
    ensures s == Floor <==> tag == "f"
    ensures s == Ceiling <==> tag == "c"
    ensures s == LeftWall <==> tag == "l"
    ensures s == RightWall <==> tag == "r"
  {
    if tag == "f" then Floor
    else if tag == "c" then Ceiling
    else if tag == "l" then LeftWall
    else if tag == "r" then RightWall
    else Other
  }

  /** An axis-aligned box: top-left corner and size. */
  datatype Box = Box(x: real, y: real, width: real, height: real)
  {
    function Left(): real { x }
    function Right(): real { x + width }
    function Top(): real { y }
    function Bottom(): real { y + height }
    function CenterX(): real { x + width / 2.0 }

    /** Assigning the right edge moves the box horizontally and keeps its size. */
    function WithRight(v: real): (r: Box)
      ensures r.Right() == v && r.y == y
      ensures r.width == width && r.height == height
    {
      this.(x := v - width)
    }

    /** Assigning the left edge moves the box horizontally and keeps its size. */
    function WithLeft(v: real): (r: Box)
      ensures r.Left() == v && r.y == y
      ensures r.width == width && r.height == height
    {
      this.(x := v)
    }

    /** Assigning the top edge moves the box vertically and keeps its size. */
    function WithTop(v: real): (r: Box)
      ensures r.Top() == v && r.x == x
      ensures r.width == width && r.height == height
    {
      this.(y := v)
    }

    /** Assigning the bottom edge moves the box vertically and keeps its size. */
    function WithBottom(v: real): (r: Box)
      ensures r.Bottom() == v && r.x == x
      ensures r.width == width && r.height == height
    {
      this.(y := v - height)
    }
  }

  /** Two boxes overlap when neither has a zero width or height and their
      open intervals intersect on both axes: boxes that only share an edge do
      not overlap, and a box of zero width or height overlaps nothing. */
  predicate Overlaps(a: Box, b: Box)
  {
    a.width != 0.0 && a.height != 0.0 && b.width != 0.0 && b.height != 0.0 &&
    a.Left() < b.Right() && b.Left() < a.Right() &&
    a.Top() < b.Bottom() && b.Top() < a.Bottom()
  }

  lemma OverlapsSymmetric(a: Box, b: Box)
    ensures Overlaps(a, b) <==> Overlaps(b, a)
  {
  }

  /** A box of zero width or zero height overlaps nothing. */
  lemma ZeroSizeOverlapsNothing(a: Box, b: Box)
    requires b.width == 0.0 || b.height == 0.0
    ensures !Overlaps(a, b) && !Overlaps(b, a)
  {
  }

  /** Two boxes that only touch along an edge do not overlap. */
  lemma EdgeContactIsNotOverlap(a: Box, b: Box)
    requires a.Bottom() <= b.Top() || b.Bottom() <= a.Top() ||
             a.Right() <= b.Left() || b.Right() <= a.Left()
    ensures !Overlaps(a, b)
  {
  }

  /** A static map rectangle: its box and its surface type. */
  datatype Rectangle = Rectangle(box: Box, surface: Surface)

  /** Builds a map rectangle from its origin, size and string tag. */
  function MakeRectangle(origin: Vec, width: real, height: real, tag: string): (r: Rectangle)
    ensures r.box.Left() == origin.x && r.box.Top() == origin.y
    ensures r.box.Right() == origin.x + width && r.box.Bottom() == origin.y + height
    ensures r.surface == SurfaceOf(tag)
  {
    Rectangle(Box(origin.x, origin.y, width, height), SurfaceOf(tag))
  }

  /** The actor's box is always 50 by 50. */
  const ActorSize: real := 50.0

  /** The actor's box at `pos`. */
  function ActorBox(pos: Vec): (b: Box)
    ensures b.Left() == pos.x && b.Top() == pos.y
    ensures b.width == ActorSize && b.height == ActorSize
  {
    Box(pos.x, pos.y, ActorSize, ActorSize)
  }
}
