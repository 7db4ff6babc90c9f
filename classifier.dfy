/** The classifier half of the collision step: which static rectangles the
    actor's tentative box touches, reduced to one floor, one ceiling and the
    list of walls. The loop that computes it lives in Collision.CheckCollisions;
    this module gives its meaning as a left fold over the rectangle list and
    proves what that fold selects. */
module Classifier {
  import opened Options
  import opened Geometry

  /** The contact set of one step. The source's three flags
      [floor, ceiling, wall] are floor.Some?, ceiling.Some? and walls != []:
      each flag is set exactly when its contact is first recorded. */
  datatype Contacts = Contacts(floor: Option<Rectangle>, ceiling: Option<Rectangle>, walls: seq<Rectangle>)
  {
    /** How many of the three surface kinds are touched (the source's sum of the flags). */
    function Kinds(): (k: nat)
      ensures k <= 3
      ensures k == 0 <==> floor.None? && ceiling.None? && walls == []
    {
      (if floor.Some? then 1 else 0) + (if ceiling.Some? then 1 else 0) + (if walls != [] then 1 else 0)
    }
  }

  const NoContacts: Contacts := Contacts(None, None, [])

  predicate IsWall(s: Surface)
  {
    s == LeftWall || s == RightWall
  }

  /** The tentative box `t` overlaps `r` and `r` has surface type `k`. */
  predicate Hits(t: Box, r: Rectangle, k: Surface)
  {
    Overlaps(t, r.box) && r.surface == k
  }

  /** The tentative box `t` overlaps the wall `r`. */
  predicate HitsWall(t: Box, r: Rectangle)
  {
    Overlaps(t, r.box) && IsWall(r.surface)
  }

  /** One iteration of the classifier loop: a ceiling replaces the selected
      one when its y is smaller, a floor when its y is larger; every wall is
      appended; anything else, or anything not overlapping, is ignored. */
  function Observe(t: Box, c: Contacts, r: Rectangle): (next: Contacts)
    ensures next.floor == c.floor || (next.floor == Some(r) && Hits(t, r, Floor))
    ensures next.ceiling == c.ceiling || (next.ceiling == Some(r) && Hits(t, r, Ceiling))
    ensures next.walls == c.walls || (next.walls == c.walls + [r] && HitsWall(t, r))
    ensures c.floor.Some? ==> next.floor.Some?
    ensures c.ceiling.Some? ==> next.ceiling.Some?
  {
    if !Overlaps(t, r.box) then c
    else match r.surface
      case Ceiling =>
        if c.ceiling.None? || c.ceiling.value.box.y > r.box.y then c.(ceiling := Some(r)) else c
      case Floor =>
        if c.floor.None? || c.floor.value.box.y < r.box.y then c.(floor := Some(r)) else c
      case LeftWall => c.(walls := c.walls + [r])
      case RightWall => c.(walls := c.walls + [r])
      case Other => c
  }

  /** The contact set after scanning `rects` in order. */
  function Classify(t: Box, rects: seq<Rectangle>): (c: Contacts)
    ensures c.floor.Some? ==> Hits(t, c.floor.value, Floor)
    ensures c.ceiling.Some? ==> Hits(t, c.ceiling.value, Ceiling)
    ensures |c.walls| <= |rects|
    decreases |rects|
  {
    if rects == [] then NoContacts
    else Observe(t, Classify(t, rects[..|rects| - 1]), rects[|rects| - 1])
  }

  /** The selected floor or ceiling of a contact set. */
  function Selected(c: Contacts, k: Surface): Option<Rectangle>
    requires k == Floor || k == Ceiling
  {
    if k == Floor then c.floor else c.ceiling
  }

  /** `a` is strictly preferred to `b` as the selected `k`: a floor with a
      larger y, a ceiling with a smaller y. */
  predicate Beats(k: Surface, a: Rectangle, b: Rectangle)
  {
    if k == Floor then a.box.y > b.box.y else a.box.y < b.box.y
  }

  /** The walls of `rects` that `t` overlaps, in input order (a filter, defined
      from the front of the list, independently of the classifier fold). */
  function WallHits(t: Box, rects: seq<Rectangle>): (ws: seq<Rectangle>)
    ensures |ws| <= |rects|
    ensures forall w :: w in ws ==> HitsWall(t, w)
  {
    if rects == [] then []
    else (if HitsWall(t, rects[0]) then [rects[0]] else []) + WallHits(t, rects[1..])
  }

  /** Nothing of kind `k` is selected exactly when no rectangle of kind `k` is overlapped. */
  lemma {:induction false} NothingSelectedIff(t: Box, rects: seq<Rectangle>, k: Surface)
    requires k == Floor || k == Ceiling
    ensures Selected(Classify(t, rects), k).None? <==>
            forall j :: 0 <= j < |rects| ==> !Hits(t, rects[j], k)
  {
    if rects != [] {
      var n := |rects|;
      var prefix := rects[..n - 1];
      NothingSelectedIff(t, prefix, k);
      assert forall j :: 0 <= j < n - 1 ==> prefix[j] == rects[j];
    }
  }

  /** The selected floor (ceiling) is an overlapped floor (ceiling) that no
      other overlapped one beats, and every earlier overlapped one is strictly
      beaten by it: among equals the first in input order wins. */
  lemma {:induction false} SelectedIsFirstBest(t: Box, rects: seq<Rectangle>, k: Surface) returns (i: nat)
    requires k == Floor || k == Ceiling
    requires Selected(Classify(t, rects), k).Some?
    ensures i < |rects| && Selected(Classify(t, rects), k) == Some(rects[i])
    ensures Hits(t, rects[i], k)
    ensures forall j :: 0 <= j < |rects| && Hits(t, rects[j], k) ==> !Beats(k, rects[j], rects[i])
    ensures forall j :: 0 <= j < i && Hits(t, rects[j], k) ==> Beats(k, rects[i], rects[j])
  {
    var n := |rects|;
    var prefix := rects[..n - 1];
    var last := rects[n - 1];
    assert forall j :: 0 <= j < n - 1 ==> prefix[j] == rects[j];
    if Selected(Classify(t, prefix), k).None? {
      NothingSelectedIff(t, prefix, k);
      i := n - 1;
    } else {
      var p := SelectedIsFirstBest(t, prefix, k);
      if Hits(t, last, k) && Beats(k, last, rects[p]) {
        i := n - 1;
      } else {
        i := p;
      }
    }
  }

  lemma {:induction false} WallHitsAppend(t: Box, rects: seq<Rectangle>, r: Rectangle)
    ensures WallHits(t, rects + [r]) == WallHits(t, rects) + (if HitsWall(t, r) then [r] else [])
  {
    if rects == [] {
      assert rects + [r] == [r];
    } else {
      assert (rects + [r])[1..] == rects[1..] + [r];
      WallHitsAppend(t, rects[1..], r);
    }
  }

  /** The wall list is exactly the overlapped walls, in input order, with no deduplication. */
  lemma {:induction false} WallsAreWallHits(t: Box, rects: seq<Rectangle>)
    ensures Classify(t, rects).walls == WallHits(t, rects)
  {
    if rects != [] {
      var n := |rects|;
      WallsAreWallHits(t, rects[..n - 1]);
      assert rects == rects[..n - 1] + [rects[n - 1]];
      WallHitsAppend(t, rects[..n - 1], rects[n - 1]);
    }
  }

  /** The wall list is empty exactly when no wall is overlapped. */
  lemma {:induction false} NoWallsIff(t: Box, rects: seq<Rectangle>)
    ensures Classify(t, rects).walls == [] <==> forall j :: 0 <= j < |rects| ==> !HitsWall(t, rects[j])
  {
    if rects != [] {
      var n := |rects|;
      var prefix := rects[..n - 1];
      NoWallsIff(t, prefix);
      assert forall j :: 0 <= j < n - 1 ==> prefix[j] == rects[j];
    }
  }
}
