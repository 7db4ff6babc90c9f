/** The collision step of the game loop: build the actor's tentative box at
    position + velocity, classify the static rectangles it overlaps (zeroing
    velocity components on contact), then correct the box with the decision
    list. The velocity is a two-element array updated in place. */
module Collision {
  import opened Options
  import opened Geometry
  import opened Classifier
  import opened Resolver

  /** The actor's box after moving by `velocity` from `player`. */
  function Tentative(player: Vec, velocity: Vec): (t: Box)
    ensures t.Left() == player.x + velocity.x && t.Top() == player.y + velocity.y
    ensures t.width == ActorSize && t.height == ActorSize
  {
    ActorBox(Vec(player.x + velocity.x, player.y + velocity.y))
  }

  /** `t` overlaps `r` and `r` carries one of the four surface types. */
  predicate HitsTyped(t: Box, r: Rectangle)
  {
    Overlaps(t, r.box) && r.surface != Other
  }

  /** `t` overlaps a floor or a ceiling. */
  predicate HitsFloorOrCeiling(t: Box, r: Rectangle)
  {
    Hits(t, r, Floor) || Hits(t, r, Ceiling)
  }

  /** One step: returns the corrected position and zeroes, in `velocity`, the
      vertical component when a floor or ceiling is touched and the
      horizontal component when a wall is touched. */
  method CheckCollisions(player: Vec, rects: seq<Rectangle>, velocity: array<real>) returns (pos: Vec)
    requires velocity.Length == 2
    modifies velocity
    ensures var t := Tentative(player, Vec(old(velocity[0]), old(velocity[1])));
            Resolved(t, Classify(t, rects), ActorBox(pos))
    ensures var t := Tentative(player, Vec(old(velocity[0]), old(velocity[1])));
            velocity[0] == if exists j :: 0 <= j < |rects| && HitsWall(t, rects[j]) then 0.0 else old(velocity[0])
    ensures var t := Tentative(player, Vec(old(velocity[0]), old(velocity[1])));
            velocity[1] == if exists j :: 0 <= j < |rects| && HitsFloorOrCeiling(t, rects[j]) then 0.0 else old(velocity[1])
    ensures var t := Tentative(player, Vec(old(velocity[0]), old(velocity[1])));
            (forall j :: 0 <= j < |rects| ==> !HitsTyped(t, rects[j])) ==>
              pos == Vec(player.x + old(velocity[0]), player.y + old(velocity[1]))
  {
    var t := Tentative(player, Vec(velocity[0], velocity[1]));
    ghost var v0, v1 := velocity[0], velocity[1];
    var floor: Option<Rectangle> := None;
    var ceiling: Option<Rectangle> := None;
    var walls: seq<Rectangle> := [];
    for i := 0 to |rects|
      invariant Contacts(floor, ceiling, walls) == Classify(t, rects[..i])
      invariant velocity[0] == if walls != [] then 0.0 else v0
      invariant velocity[1] == if floor.Some? || ceiling.Some? then 0.0 else v1
    {
      var rect := rects[i];
      if Overlaps(t, rect.box) {
        if rect.surface == Ceiling {
          if ceiling.None? || ceiling.value.box.y > rect.box.y {
            velocity[1] := 0.0;
            ceiling := Some(rect);
          }
        }
        if rect.surface == Floor {
          if floor.None? || floor.value.box.y < rect.box.y {
            velocity[1] := 0.0;
            floor := Some(rect);
          }
        }
        if rect.surface == LeftWall || rect.surface == RightWall {
          velocity[0] := 0.0;
          walls := walls + [rect];
        }
      }
      assert rects[..i + 1][..i] == rects[..i];
    }
    assert rects[..|rects|] == rects;
    var c := Contacts(floor, ceiling, walls);
    var r := Resolve(t, c);
    pos := Vec(r.x, r.y);
    assert ActorBox(pos) == r;
    StopsIff(t, rects);
    if forall j :: 0 <= j < |rects| ==> !HitsTyped(t, rects[j]) {
      PassThrough(t, rects, r);
    }
  }

  /** The vertical component is stopped exactly when a floor or ceiling is
      overlapped, the horizontal one exactly when a wall is. */
  lemma {:induction false} StopsIff(t: Box, rects: seq<Rectangle>)
    ensures (Classify(t, rects).floor.Some? || Classify(t, rects).ceiling.Some?) <==>
            exists j :: 0 <= j < |rects| && HitsFloorOrCeiling(t, rects[j])
    ensures Classify(t, rects).walls != [] <==>
            exists j :: 0 <= j < |rects| && HitsWall(t, rects[j])
  {
    NothingSelectedIff(t, rects, Floor);
    NothingSelectedIff(t, rects, Ceiling);
    NoWallsIff(t, rects);
  }

  /** With no typed rectangle overlapped, the box is not corrected. */
  lemma PassThrough(t: Box, rects: seq<Rectangle>, r: Box)
    requires forall j :: 0 <= j < |rects| ==> !HitsTyped(t, rects[j])
    requires Resolved(t, Classify(t, rects), r)
    ensures r == t
  {
    NothingSelectedIff(t, rects, Floor);
    NothingSelectedIff(t, rects, Ceiling);
    NoWallsIff(t, rects);
  }

  /** A floor and a ceiling overlapped with no wall: no rule fires and the box
      is not corrected. */
  lemma FloorAndCeilingWithoutWall(t: Box, rects: seq<Rectangle>, r: Box)
    requires exists j :: 0 <= j < |rects| && Hits(t, rects[j], Floor)
    requires exists j :: 0 <= j < |rects| && Hits(t, rects[j], Ceiling)
    requires forall j :: 0 <= j < |rects| ==> !HitsWall(t, rects[j])
    requires Resolved(t, Classify(t, rects), r)
    ensures r == t
  {
    NothingSelectedIff(t, rects, Floor);
    NothingSelectedIff(t, rects, Ceiling);
    NoWallsIff(t, rects);
  }

  /** Only floors overlapped: the box keeps its x and stands on the top of the
      overlapped floor with the largest y, which it no longer overlaps; it is
      moved up. */
  lemma SingleFloor(t: Box, rects: seq<Rectangle>, r: Box) returns (i: nat)
    requires exists j :: 0 <= j < |rects| && Hits(t, rects[j], Floor)
    requires forall j :: 0 <= j < |rects| ==> !Hits(t, rects[j], Ceiling) && !HitsWall(t, rects[j])
    requires Resolved(t, Classify(t, rects), r)
    ensures i < |rects| && Hits(t, rects[i], Floor)
    ensures forall j :: 0 <= j < |rects| && Hits(t, rects[j], Floor) ==> rects[j].box.y <= rects[i].box.y
    ensures OnFloor(r, rects[i]) && r.x == t.x
    ensures !Overlaps(r, rects[i].box) && r.y < t.y
  {
    NothingSelectedIff(t, rects, Floor);
    NothingSelectedIff(t, rects, Ceiling);
    NoWallsIff(t, rects);
    i := SelectedIsFirstBest(t, rects, Floor);
  }

  /** Only ceilings overlapped: the box keeps its x and hangs under the bottom
      of the overlapped ceiling with the smallest y, which it no longer
      overlaps; it is moved down. */
  lemma SingleCeiling(t: Box, rects: seq<Rectangle>, r: Box) returns (i: nat)
    requires exists j :: 0 <= j < |rects| && Hits(t, rects[j], Ceiling)
    requires forall j :: 0 <= j < |rects| ==> !Hits(t, rects[j], Floor) && !HitsWall(t, rects[j])
    requires Resolved(t, Classify(t, rects), r)
    ensures i < |rects| && Hits(t, rects[i], Ceiling)
    ensures forall j :: 0 <= j < |rects| && Hits(t, rects[j], Ceiling) ==> rects[j].box.y >= rects[i].box.y
    ensures UnderCeiling(r, rects[i]) && r.x == t.x
    ensures !Overlaps(r, rects[i].box) && r.y > t.y
  {
    NothingSelectedIff(t, rects, Floor);
    NothingSelectedIff(t, rects, Ceiling);
    NoWallsIff(t, rects);
    i := SelectedIsFirstBest(t, rects, Ceiling);
  }

  /** Only walls overlapped: the box keeps its y and rests against the last
      overlapped wall in input order, which it no longer overlaps. */
  lemma WallsOnly(t: Box, rects: seq<Rectangle>, r: Box)
    requires exists j :: 0 <= j < |rects| && HitsWall(t, rects[j])
    requires forall j :: 0 <= j < |rects| ==> !HitsFloorOrCeiling(t, rects[j])
    requires Resolved(t, Classify(t, rects), r)
    ensures WallHits(t, rects) != []
    ensures var last := WallHits(t, rects)[|WallHits(t, rects)| - 1];
            AgainstWall(r, last) && r.y == t.y && !Overlaps(r, last.box)
  {
    StopsIff(t, rects);
    WallsAreWallHits(t, rects);
    var ws := WallHits(t, rects);
    assert ws[|ws| - 1] in ws;
  }

  /** Distance the box was moved, horizontally plus vertically. */
  function Moved(t: Box, r: Box): real
  {
    (if r.x >= t.x then r.x - t.x else t.x - r.x) + (if r.y >= t.y then r.y - t.y else t.y - r.y)
  }

  /** Floor corner: the box is moved by the smaller of its two penetration
      depths, which are both positive, so only the shallower overlap is undone. */
  lemma FloorCornerMovesLeast(t: Box, rects: seq<Rectangle>, r: Box)
    requires Classify(t, rects).floor.Some? && |Classify(t, rects).walls| == 1
    requires !EdgeCase(t, Classify(t, rects))
    requires Resolved(t, Classify(t, rects), r)
    ensures var c := Classify(t, rects);
            var v, h := FloorDepth(t, c.floor.value), WallDepth(t, c.walls[0]);
            0.0 < v && 0.0 < h && Moved(t, r) == (if v > h then h else v)
  {
    var c := Classify(t, rects);
    var i := SelectedIsFirstBest(t, rects, Floor);
    WallsAreWallHits(t, rects);
    assert c.walls[0] in WallHits(t, rects);
  }

  /** Ceiling corner: the same, with the depth measured up into the ceiling. */
  lemma CeilingCornerMovesLeast(t: Box, rects: seq<Rectangle>, r: Box)
    requires Classify(t, rects).floor.None? && Classify(t, rects).ceiling.Some?
    requires |Classify(t, rects).walls| == 1
    requires !EdgeCase(t, Classify(t, rects))
    requires Resolved(t, Classify(t, rects), r)
    ensures var c := Classify(t, rects);
            var v, h := CeilingDepth(t, c.ceiling.value), WallDepth(t, c.walls[0]);
            0.0 < v && 0.0 < h && Moved(t, r) == (if v > h then h else v)
  {
    var c := Classify(t, rects);
    var i := SelectedIsFirstBest(t, rects, Ceiling);
    WallsAreWallHits(t, rects);
    assert c.walls[0] in WallHits(t, rects);
  }
}

/** Worked instances of the decision table. */
module CollisionExamples {
  import opened Options
  import opened Geometry
  import opened Classifier
  import opened Resolver

  /** Standing on a floor between two left walls whose left faces are at
      x = 100 and x = 140: the box's right edge goes to the larger face, 140,
      and its bottom to the floor's top. */
  lemma LedgeExample(r: Box)
    requires Resolved(Box(95.0, 0.0, 50.0, 50.0),
                      Classify(Box(95.0, 0.0, 50.0, 50.0),
                               [Rectangle(Box(0.0, 40.0, 300.0, 20.0), Floor),
                                Rectangle(Box(100.0, -100.0, 10.0, 130.0), LeftWall),
                                Rectangle(Box(140.0, -100.0, 10.0, 130.0), LeftWall)]),
                      r)
    ensures r.Right() == 140.0 && r.Bottom() == 40.0
  {
    var t := Box(95.0, 0.0, 50.0, 50.0);
    var f := Rectangle(Box(0.0, 40.0, 300.0, 20.0), Floor);
    var a := Rectangle(Box(100.0, -100.0, 10.0, 130.0), LeftWall);
    var b := Rectangle(Box(140.0, -100.0, 10.0, 130.0), LeftWall);
    assert [f, a, b][..2] == [f, a] && [f, a][..1] == [f] && [f][..0] == [];
    assert Overlaps(t, f.box) && Overlaps(t, a.box) && Overlaps(t, b.box);
    assert Classify(t, [f]) == Observe(t, NoContacts, f) == Contacts(Some(f), None, []);
    assert Classify(t, [f, a]) == Observe(t, Contacts(Some(f), None, []), a) == Contacts(Some(f), None, [a]);
    assert Classify(t, [f, a, b]) == Contacts(Some(f), None, [a, b]);
  }

  /** A corner where the floor's top is at 500 and a left wall's left face at
      300, reached with bottom 510 and right 305: the floor depth 10 exceeds
      the wall depth 5, so only the wall snap applies and the bottom stays at 510. */
  lemma CornerExample(r: Box)
    requires Resolved(Box(255.0, 460.0, 50.0, 50.0),
                      Classify(Box(255.0, 460.0, 50.0, 50.0),
                               [Rectangle(Box(0.0, 500.0, 1000.0, 100.0), Floor),
                                Rectangle(Box(300.0, 0.0, 10.0, 505.0), LeftWall)]),
                      r)
    ensures r.Right() == 300.0 && r.Bottom() == 510.0
  {
    var t := Box(255.0, 460.0, 50.0, 50.0);
    var f := Rectangle(Box(0.0, 500.0, 1000.0, 100.0), Floor);
    var w := Rectangle(Box(300.0, 0.0, 10.0, 505.0), LeftWall);
    CornerContacts(t, f, w);
    var c := Contacts(Some(f), None, [w]);
    assert !EdgeCase(t, c);
    assert FloorDepth(t, f) == 10.0 && WallDepth(t, w) == 5.0;
  }

  /** The contact set of the corner example: the floor and the one wall. */
  lemma CornerContacts(t: Box, f: Rectangle, w: Rectangle)
    requires t == Box(255.0, 460.0, 50.0, 50.0)
    requires f == Rectangle(Box(0.0, 500.0, 1000.0, 100.0), Floor)
    requires w == Rectangle(Box(300.0, 0.0, 10.0, 505.0), LeftWall)
    ensures Classify(t, [f, w]) == Contacts(Some(f), None, [w])
  {
    assert [f, w][..1] == [f] && [f][..0] == [];
    assert Overlaps(t, f.box) && Overlaps(t, w.box);
    assert Classify(t, [f]) == Observe(t, NoContacts, f) == Contacts(Some(f), None, []);
  }
}
