/** The resolution half of the collision step: given the tentative box and
    the contact set, the ordered decision list that moves the box out of the
    surfaces it touches. Resolved states, per shape of the contact set, where
    the corrected box ends up; BasicCollision and Resolve are the step-by-step
    edge assignments of the source, proved against it. */
module Resolver {
  import opened Geometry
  import opened Classifier

  /** `r` rests against the wall `w`: its right edge on the left face of a
      left wall, or its left edge on the right face of any other wall. */
  predicate AgainstWall(r: Box, w: Rectangle)
  {
    if w.surface == LeftWall then r.Right() == w.box.Left() else r.Left() == w.box.Right()
  }

  /** `r` stands on the floor `f`. */
  predicate OnFloor(r: Box, f: Rectangle)
  {
    r.Bottom() == f.box.Top()
  }

  /** `r` is pressed up under the ceiling `c`. */
  predicate UnderCeiling(r: Box, c: Rectangle)
  {
    r.Top() == c.box.Bottom()
  }

  /** How far `t` has sunk into the floor `f`. */
  function FloorDepth(t: Box, f: Rectangle): real
  {
    t.Bottom() - f.box.Top()
  }

  /** How far `t` has pushed up into the ceiling `c`. */
  function CeilingDepth(t: Box, c: Rectangle): real
  {
    c.box.Bottom() - t.Top()
  }

  /** How far `t` has pushed into the wall `w`, measured from the face it is
      snapped to. */
  function WallDepth(t: Box, w: Rectangle): real
  {
    if w.surface == LeftWall then t.Right() - w.box.Left() else w.box.Right() - t.Left()
  }

  /** The "wall beside the edge of a floor or ceiling" test: a floor (or a
      ceiling) is touched, the actor's centre is right of its centre and the
      first wall is a left wall, or left of its centre and the first wall is a
      right wall. */
  predicate EdgeCase(t: Box, c: Contacts)
  {
    c.walls != [] &&
    ((c.floor.Some? &&
      ((t.CenterX() > c.floor.value.box.CenterX() && c.walls[0].surface == LeftWall) ||
       (t.CenterX() < c.floor.value.box.CenterX() && c.walls[0].surface == RightWall))) ||
     (c.ceiling.Some? &&
      ((t.CenterX() > c.ceiling.value.box.CenterX() && c.walls[0].surface == LeftWall) ||
       (t.CenterX() < c.ceiling.value.box.CenterX() && c.walls[0].surface == RightWall))))
  }

  /** Horizontal outcome of a two-wall ledge: when both walls have the same
      type, the box rests against the farther of the two faces (the larger
      left face of two left walls, the smaller right face of two right walls);
      when their types differ it is not moved horizontally. */
  predicate LedgeX(t: Box, w0: Rectangle, w1: Rectangle, r: Box)
  {
    if w0.surface != w1.surface then r.x == t.x
    else if w0.surface == LeftWall then
      r.Right() >= w0.box.Left() && r.Right() >= w1.box.Left() &&
      (r.Right() == w0.box.Left() || r.Right() == w1.box.Left())
    else
      r.Left() <= w0.box.Right() && r.Left() <= w1.box.Right() &&
      (r.Left() == w0.box.Right() || r.Left() == w1.box.Right())
  }

  /** The decision table: where the corrected box `r` ends up for the
      tentative box `t` and the contact set `c`, case by case on which
      surfaces are touched. The size never changes. */
  predicate Resolved(t: Box, c: Contacts, r: Box)
  {
    var fl, cl, n := c.floor.Some?, c.ceiling.Some?, |c.walls|;
    r.width == t.width && r.height == t.height &&
    // nothing touched, or a floor and a ceiling with no wall: no correction
    (!fl && !cl && n == 0 ==> r == t) &&
    (fl && cl && n == 0 ==> r == t) &&
    // a single kind of surface
    (fl && !cl && n == 0 ==> OnFloor(r, c.floor.value) && r.x == t.x) &&
    (!fl && cl && n == 0 ==> UnderCeiling(r, c.ceiling.value) && r.x == t.x) &&
    (!fl && !cl && n > 0 ==> AgainstWall(r, c.walls[n - 1]) && r.y == t.y) &&
    // ledges: two or more walls with a floor, or with a ceiling and no floor
    (fl && n >= 2 ==> OnFloor(r, c.floor.value) && LedgeX(t, c.walls[0], c.walls[1], r)) &&
    (!fl && cl && n >= 2 ==> UnderCeiling(r, c.ceiling.value) && LedgeX(t, c.walls[0], c.walls[1], r)) &&
    // one wall beside the edge of a floor or ceiling: every snap applies
    ((fl || cl) && n == 1 && EdgeCase(t, c) ==>
       AgainstWall(r, c.walls[0]) &&
       (if cl then UnderCeiling(r, c.ceiling.value) else OnFloor(r, c.floor.value))) &&
    // corners: only the snap along the shallower penetration applies
    (fl && n == 1 && !EdgeCase(t, c) ==>
       if FloorDepth(t, c.floor.value) > WallDepth(t, c.walls[0])
       then AgainstWall(r, c.walls[0]) && r.y == t.y
       else OnFloor(r, c.floor.value) && r.x == t.x) &&
    (!fl && cl && n == 1 && !EdgeCase(t, c) ==>
       if CeilingDepth(t, c.ceiling.value) > WallDepth(t, c.walls[0])
       then AgainstWall(r, c.walls[0]) && r.y == t.y
       else UnderCeiling(r, c.ceiling.value) && r.x == t.x)
  }

  /** Snaps the box against the wall `w`. */
  function SnapToWall(b: Box, w: Rectangle): (r: Box)
    ensures AgainstWall(r, w) && r.y == b.y
    ensures r.width == b.width && r.height == b.height
  {
    if w.surface == LeftWall then b.WithRight(w.box.Left()) else b.WithLeft(w.box.Right())
  }

  /** Applies every touched surface's snap in turn: the floor, then the
      ceiling, then each wall in list order, so the ceiling wins over the
      floor and the last wall wins over earlier ones. */
  method BasicCollision(t: Box, c: Contacts) returns (r: Box)
    ensures r.width == t.width && r.height == t.height
    ensures c.ceiling.Some? ==> UnderCeiling(r, c.ceiling.value)
    ensures c.ceiling.None? && c.floor.Some? ==> OnFloor(r, c.floor.value)
    ensures c.ceiling.None? && c.floor.None? ==> r.y == t.y
    ensures c.walls == [] ==> r.x == t.x
    ensures c.walls != [] ==> AgainstWall(r, c.walls[|c.walls| - 1])
  {
    r := t;
    if c.floor.Some? {
      r := r.WithBottom(c.floor.value.box.Top());
    }
    if c.ceiling.Some? {
      r := r.WithTop(c.ceiling.value.box.Bottom());
    }
    if c.walls != [] {
      var y := r.y;
      for i := 0 to |c.walls|
        invariant r.width == t.width && r.height == t.height && r.y == y
        invariant i == 0 ==> r.x == t.x
        invariant i > 0 ==> AgainstWall(r, c.walls[i - 1])
      {
        r := SnapToWall(r, c.walls[i]);
      }
    }
  }

  /** The ordered decision list: the first matching rule corrects the box. */
  method Resolve(t: Box, c: Contacts) returns (r: Box)
    ensures Resolved(t, c, r)
  {
    r := t;
    var fl, cl, walls := c.floor.Some?, c.ceiling.Some?, c.walls;
    if c.Kinds() == 1 {
      r := BasicCollision(r, c);
    } else if fl && walls != [] && |walls| > 1 {
      if walls[0].surface == walls[1].surface {
        var w0, w1 := walls[0], walls[1];
        if w0.surface == LeftWall {
          if w0.box.Left() > w1.box.Left() {
            r := r.WithRight(w0.box.Left());
          } else {
            r := r.WithRight(w1.box.Left());
          }
        } else {
          if w0.box.Right() < w1.box.Right() {
            r := r.WithLeft(w0.box.Right());
          } else {
            r := r.WithLeft(w1.box.Right());
          }
        }
      }
      r := r.WithBottom(c.floor.value.box.Top());
    } else if cl && walls != [] && |walls| > 1 {
      if walls[0].surface == walls[1].surface {
        var w0, w1 := walls[0], walls[1];
        if w0.surface == LeftWall {
          if w0.box.Left() > w1.box.Left() {
            r := r.WithRight(w0.box.Left());
          } else {
            r := r.WithRight(w1.box.Left());
          }
        } else {
          if w0.box.Right() < w1.box.Right() {
            r := r.WithLeft(w0.box.Right());
          } else {
            r := r.WithLeft(w1.box.Right());
          }
        }
      }
      r := r.WithTop(c.ceiling.value.box.Bottom());
    } else if fl && r.CenterX() > c.floor.value.box.CenterX() && walls != [] && walls[0].surface == LeftWall {
      r := BasicCollision(r, c);
    } else if fl && r.CenterX() < c.floor.value.box.CenterX() && walls != [] && walls[0].surface == RightWall {
      r := BasicCollision(r, c);
    } else if cl && r.CenterX() > c.ceiling.value.box.CenterX() && walls != [] && walls[0].surface == LeftWall {
      r := BasicCollision(r, c);
    } else if cl && r.CenterX() < c.ceiling.value.box.CenterX() && walls != [] && walls[0].surface == RightWall {
      r := BasicCollision(r, c);
    } else if fl && walls != [] {
      var vertical := r.Bottom() - c.floor.value.box.Top();
      if walls[0].surface == LeftWall {
        var horizontal := r.Right() - walls[0].box.Left();
        if vertical > horizontal {
          r := r.WithRight(walls[0].box.Left());
        } else {
          r := r.WithBottom(c.floor.value.box.Top());
        }
      } else {
        var horizontal := walls[0].box.Right() - r.Left();
        if vertical > horizontal {
          r := r.WithLeft(walls[0].box.Right());
        } else {
          r := r.WithBottom(c.floor.value.box.Top());
        }
      }
    } else if cl && walls != [] {
      var vertical := c.ceiling.value.box.Bottom() - r.Top();
      if walls[0].surface == LeftWall {
        var horizontal := r.Right() - walls[0].box.Left();
        if vertical > horizontal {
          r := r.WithRight(walls[0].box.Left());
        } else {
          r := r.WithTop(c.ceiling.value.box.Bottom());
        }
      } else {
        var horizontal := walls[0].box.Right() - r.Left();
        if vertical > horizontal {
          r := r.WithLeft(walls[0].box.Right());
        } else {
          r := r.WithTop(c.ceiling.value.box.Bottom());
        }
      }
    }
  }

  /** The decision table determines the corrected box uniquely. */
  lemma ResolvedIsFunctional(t: Box, c: Contacts, r1: Box, r2: Box)
    requires Resolved(t, c, r1) && Resolved(t, c, r2)
    ensures r1 == r2
  {
  }
}
