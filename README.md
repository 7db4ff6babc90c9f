# Platformer collision step, modelled in Dafny

This project models the collision core of a small Jump-King-style
platformer. Each frame, the actor is a 50×50 box. The collision step moves
it tentatively by its velocity. It then scans the static map rectangles,
each tagged as floor (`"f"`), ceiling (`"c"`), left wall (`"l"`) or right
wall (`"r"`). It keeps one floor, one ceiling and the list of touched walls,
and zeroes the velocity components that hit something. Finally an ordered
decision list corrects the box: single-surface snaps, two-wall ledges,
walls beside the edge of a floor or ceiling, and floor/ceiling corners.
Slope segments are modelled as data: their end points, their slope and the
reordering of their end points.

Files and modules:

- `options.dfy`, module `Options`: the `Option` type used for "no floor / no ceiling yet".
- `geometry.dfy`, module `Geometry`:
  - `Box`, with its edges and edge assignments.
  - `Surface`, the closed set of surface types.
  - `Rectangle`, a map rectangle.
  - `Overlaps`, the overlap test.
- `classifier.dfy`, module `Classifier`:
  - the contact set;
  - the classifier as a left fold, `Classify`;
  - the selection lemmas.
- `resolver.dfy`, module `Resolver`:
  - the decision table as a relation, `Resolved`;
  - `BasicCollision` and `Resolve`, the step-by-step edge assignments of the source.
- `collision.dfy`, module `Collision`: `CheckCollisions`, the whole step, with the velocity as a two-element array updated in place. It also holds the lemmas about a whole step.
- `collision.dfy`, module `CollisionExamples`: two worked instances.
- `slope.dfy`, module `Slopes`: points, the slope of a segment, and the `Slope` class with `CorrectPoints`.

Modelling choices:

- Coordinates are `real`. The y axis points down, so a box's bottom is `y + height`.
- Assigning an edge moves the box and keeps its size. Setting the right edge to `v` sets `x` to `v - width`. Setting the bottom edge to `v` sets `y` to `v - height`.
- Overlap follows the documented behaviour of the rectangle library that the source calls. A box of zero width or zero height overlaps nothing. Otherwise two boxes overlap when the open intervals intersect on both axes, so boxes that only share an edge do not overlap.
- A tag other than `"f"`, `"c"`, `"l"` or `"r"` becomes `Surface.Other`, which the collision step ignores.
- The source keeps three flags `[floor, ceiling, wall]`. In the model these are `floor.Some?`, `ceiling.Some?` and `walls != []`. Each flag is set exactly when its contact is first recorded.
- Floor and ceiling selection follow the code:
  - a floor replaces the selected one only when its `y` is strictly larger, so the lowest floor on screen wins;
  - a ceiling replaces the selected one only when its `y` is strictly smaller, so the highest ceiling wins;
  - on ties the earlier one in input order is kept.

  Reading "nearest" as the floor closest to the actor would give the opposite choice. The model does what the code does.
- On a two-left-wall ledge the box's right edge goes to the LARGER of the two left faces (`LedgeExample`: faces at 100 and 140 give 140).
- In a corner, the code snaps along the axis of the SMALLER penetration depth. `FloorCornerMovesLeast` and `CeilingCornerMovesLeast` prove this: the box moves by exactly `min(vertical, horizontal)`.

## Model

| member | source | states |
|---|---|---|
| `Geometry.SurfaceOf` | main.py:96-106 | the tag `"f"`, `"c"`, `"l"` or `"r"` maps to Floor, Ceiling, LeftWall or RightWall respectively, in both directions; every other tag maps to Other |
| `Geometry.MakeRectangle` | main.py:36-43 | a map rectangle's left and top edges are its origin, its right and bottom edges are origin plus size, and its surface is read from its tag |
| `Geometry.Overlaps` | main.py:95 | the library's overlap test: both boxes have non-zero width and height and their open intervals intersect on both axes (edge contact is not overlap) |
| `Geometry.ZeroSizeOverlapsNothing` | main.py:95 | a box of zero width or zero height overlaps nothing, in either argument position |
| `Geometry.OverlapsSymmetric` | main.py:95 | the overlap test is symmetric |
| `Geometry.EdgeContactIsNotOverlap` | main.py:95 | boxes that only touch along an edge, or are apart, do not overlap |
| `Geometry.Box.WithRight` | main.py:78 | assigning the right edge makes it that value, keeps y and keeps the size |
| `Geometry.Box.WithLeft` | main.py:80 | assigning the left edge makes it that value, keeps y and keeps the size |
| `Geometry.Box.WithTop` | main.py:74 | assigning the top edge makes it that value, keeps x and keeps the size |
| `Geometry.Box.WithBottom` | main.py:72 | assigning the bottom edge makes it that value, keeps x and keeps the size |
| `Geometry.ActorBox` | main.py:92-93 | the actor's box has its top-left corner at the given position and is 50 by 50 |
| `Collision.Tentative` | main.py:92-93 | the tentative box sits at player + velocity and is 50 by 50 |
| `Classifier.Contacts.Kinds` | main.py:113 | the sum of the three flags is at most 3, and it is 0 exactly when no floor, no ceiling and no wall was recorded |
| `Classifier.Observe` | main.py:95-109 | one pass of the loop body: the floor stays or becomes the current rectangle, and only if that rectangle is an overlapped floor. The same holds for the ceiling, and the wall list stays or grows by the current rectangle only if it is an overlapped wall. A recorded floor or ceiling is never dropped |
| `Classifier.Classify` | main.py:94-109 | the whole scan: a selected floor (ceiling) is a floor (ceiling) the tentative box overlaps, and the wall list is no longer than the input. Which one is selected is stated by `SelectedIsFirstBest`; the wall list's contents by `WallsAreWallHits` |
| `Classifier.WallHits` | main.py:106-109 | the reference filter of overlapped walls: no longer than the input, and every element is an overlapped left or right wall |
| `Classifier.NothingSelectedIff` | main.py:94-105 | no floor (ceiling) is selected exactly when no floor (ceiling) rectangle overlaps the tentative box |
| `Classifier.SelectedIsFirstBest` | main.py:94-105 | the selected floor (ceiling) is an overlapped floor (ceiling) in the input. No overlapped floor has a larger y (no overlapped ceiling a smaller y). Every earlier overlapped one has a strictly smaller (larger) y, so the first of equals wins |
| `Classifier.WallsAreWallHits` | main.py:106-109 | the wall list is exactly the overlapped left and right walls, in input order, without deduplication |
| `Classifier.NoWallsIff` | main.py:106-109 | the wall list is empty exactly when no wall overlaps the tentative box |
| `Resolver.EdgeCase` | main.py:157-172 | the centre-x tests: a floor (or ceiling) is touched, walls are touched, and the actor's centre is right of its centre with a left first wall, or left of its centre with a right first wall |
| `Resolver.Resolved` | main.py:113-204 | the decision table, case by case on which surfaces are touched (listed below the table) |
| `Resolver.SnapToWall` | main.py:76-80 | snapping puts the right edge on a left wall's left face, or the left edge on any other wall's right face; y and size are kept |
| `Resolver.BasicCollision` | main.py:69-82 | size is kept. With a ceiling, the top is on the ceiling's bottom; with only a floor, the bottom is on the floor's top; with neither, y is kept. With walls, the box rests against the LAST wall; without walls, x is kept |
| `Resolver.Resolve` | main.py:113-204 | the result satisfies the whole decision table `Resolved` (listed case by case below the table) |
| `Resolver.ResolvedIsFunctional` | main.py:113-204 | the decision table leaves exactly one possible corrected box, so the step is deterministic |
| `Collision.CheckCollisions` | main.py:85-206 | the returned position is the box that the decision table gives for the contact set of the tentative box. `velocity[0]` becomes 0 iff some wall overlaps, else it is unchanged. `velocity[1]` becomes 0 iff some floor or ceiling overlaps, else it is unchanged. With no typed rectangle overlapped, the position is player + velocity |
| `Collision.StopsIff` | main.py:94-109 | a floor or ceiling is selected iff one overlaps; the wall list is non-empty iff a wall overlaps (the conditions under which the velocity components are zeroed) |
| `Collision.PassThrough` | main.py:92-93 | with no typed rectangle overlapped, the corrected box equals the tentative box |
| `Collision.FloorAndCeilingWithoutWall` | main.py:113-204 | with a floor and a ceiling overlapped and no wall, no rule fires and the box is not corrected |
| `Collision.SingleFloor` | main.py:71-72 | with only floors overlapped, x is kept and the bottom is on the top of the overlapped floor with the largest y. The box no longer overlaps that floor and has moved up |
| `Collision.SingleCeiling` | main.py:73-74 | with only ceilings overlapped, x is kept and the top is on the bottom of the overlapped ceiling with the smallest y. The box no longer overlaps that ceiling and has moved down |
| `Collision.WallsOnly` | main.py:75-80 | with only walls overlapped, y is kept and the box rests against the last overlapped wall in input order, which it no longer overlaps |
| `Collision.FloorCornerMovesLeast` | main.py:174-188 | in the floor corner case both penetration depths are positive. The box moves by exactly the smaller one: the wall snap when the floor depth is larger, the floor snap otherwise |
| `Collision.CeilingCornerMovesLeast` | main.py:190-204 | the same for the ceiling corner, where the vertical depth is measured from the ceiling's bottom to the box's top |
| `CollisionExamples.LedgeExample` | main.py:117-136 | on a floor between two left walls with faces at 100 and 140, the right edge goes to 140 and the bottom to the floor's top |
| `CollisionExamples.CornerExample` | main.py:174-188 | with a floor top at 500, a left wall face at 300, bottom 510 and right 305: the wall snap wins, so the right edge is 300 and the bottom stays 510 |
| `Slopes.Point.PosOffset` | main.py:17-18 | the shifted position keeps x and differs from the position in y by exactly the offset |
| `Slopes.OffsetKeepsSlope` | main.py:17-18 | a segment drawn with both end points shifted by the same offset has the same slope as the segment |
| `Slopes.SlopeBetween` | main.py:26-27 | the slope is undefined exactly when the segment is vertical. Otherwise slope × (end.x − start.x) = start.y − end.y, i.e. −(rise / run) |
| `Slopes.SlopeBetweenSwapped` | main.py:26-33 | exchanging the end points does not change the slope |
| `Slopes.SlopeExample` | main.py:26-27 | the segment (0, 10) to (10, 0) has slope 1 |
| `Slopes.Ordered` | main.py:29-33 | the reordered pair has first.y ≥ second.y. It is the input pair or its swap, and an already ordered pair is kept |
| `Slopes.OrderedIdempotent` | main.py:29-33 | reordering twice equals reordering once |
| `Slopes.Slope.constructor` | main.py:20-24 | a new segment stores its end points and tag, and its stored slope is the slope between them |
| `Slopes.Slope.CorrectPoints` | main.py:29-33 | the end points become their ordered pair, so start.y ≥ end.y. The tag and the stored slope are kept, and the stored slope stays consistent with the end points |

The decision table `Resolved` (resolver.dfy) states, for a tentative box
`t` and contact set `c`:

- The size is always kept.
- Nothing touched, or a floor and a ceiling with no wall: the box is not moved.
- Only a floor: the bottom goes to the floor's top and x is kept.
- Only a ceiling: the top goes to the ceiling's bottom and x is kept.
- Only walls: the box goes against the last wall and y is kept.
- A floor and two or more walls: the bottom goes to the floor's top. When the first two walls have the same type, x is also snapped:
  - for left walls, the right edge goes to the larger left face;
  - for right walls, the left edge goes to the smaller right face.

  Otherwise x is kept.
- No floor, a ceiling and two or more walls: the same, with the top going to the ceiling's bottom.
- One wall beside the edge of a floor or ceiling (the centre-x test): every snap applies. The box goes against the wall, and its top goes to the ceiling's bottom if there is a ceiling, else its bottom goes to the floor's top.
- Floor corner otherwise: if the floor depth exceeds the wall depth, only the wall snap applies; otherwise only the floor snap.
- Ceiling corner otherwise (no floor): the same with the ceiling depth.

## Left out

- Map loading (`load_env`, main.py:46-66): it reads a tile-editor file through a parsing library. The model takes the rectangle list as a parameter.
- The game loop (`run`, main.py:209-297): display, keyboard and mouse input, drawing, the frame clock and level scrolling. This includes the loop adding the velocity to the position a second time after the collision step.
- `Point.__repr__` (main.py:14-15): it returns a tuple instead of a string and nothing uses it.
- Collision against slope segments: the source does not implement it.
- Floating-point rounding: coordinates are exact reals.
- Rectangles of negative width or height: the library's overlap test first normalises them, and the model does not. Map objects are drawn with non-negative sizes.
- The unused `velocity` parameter of `basic_collision` is dropped.
- `check_collisions` also returns the velocity list it was given. The model updates the array in place and returns only the position.
- Slopes.Slope.constructor: it requires a non-vertical segment. The source divides by zero and raises for a vertical one; `SlopeBetween` returns `Vertical` for that case.
