/**
 * What a click can hit: the per-frame rebuild of `intersectableObjects`, the
 * climb from the mesh the ray hit to the named group it belongs to, and the
 * drag detection that keeps the end of a camera drag from counting as a
 * click. The ray cast itself (screen to ray, nearest intersection) is not
 * modelled: the hit chain is an input.
 */
module Picking {
  import opened Wrappers

  /** A mesh must be more than this opaque to be clickable. */
  const ClickThreshold: real := 0.1

  /** Pointer travel, in pixels, beyond which a press turns into a drag. */
  const DragRadius: real := 5.0

  datatype Kind = StarMeshKind | PlanetKind | StellarKind

  /** An entry of `intersectableObjects`: which list it came from, and its index there. */
  datatype Pickable = Pickable(kind: Kind, index: nat)

  /** The meshes of one list that pass their opacity test, in list order. */
  function Picks(kind: Kind, passes: seq<bool>): (r: seq<Pickable>)
    ensures forall p :: p in r <==> p.kind == kind && p.index < |passes| && passes[p.index]
    ensures forall i, j :: 0 <= i < j < |r| ==> r[i].index < r[j].index
  {
    if |passes| == 0 then []
    else
      var n := |passes| - 1;
      var rest := Picks(kind, passes[..n]);
      assert forall p :: p in rest ==> p.index < n;
      rest + (if passes[n] then [Pickable(kind, n)] else [])
  }

  /** Star meshes and stellar objects are tested on their own material's opacity. */
  function OpacityPasses(opacities: seq<real>): (r: seq<bool>)
    ensures |r| == |opacities|
    ensures forall i :: 0 <= i < |r| ==> (r[i] <==> opacities[i] > ClickThreshold)
  {
    seq(|opacities|, i requires 0 <= i < |opacities| => opacities[i] > ClickThreshold)
  }

  /** A planet is tested on its surface mesh, the group's first child, which may be missing. */
  function SurfacePasses(surfaces: seq<Option<real>>): (r: seq<bool>)
    ensures |r| == |surfaces|
    ensures forall i :: 0 <= i < |r| ==> (r[i] <==> surfaces[i].Some? && surfaces[i].value > ClickThreshold)
  {
    seq(|surfaces|, i requires 0 <= i < |surfaces| => surfaces[i].Some? && surfaces[i].value > ClickThreshold)
  }

  /** Extending the tested list by one mesh adds that mesh when it passes. */
  lemma PicksStep(kind: Kind, passes: seq<bool>, i: nat)
    requires i < |passes|
    ensures Picks(kind, passes[..i + 1]) == Picks(kind, passes[..i]) + (if passes[i] then [Pickable(kind, i)] else [])
  {
    assert passes[..i + 1][..i] == passes[..i];
  }

  /** One `forEach`: the meshes of a list that pass their test, pushed in list order. */
  method Collect(kind: Kind, passes: seq<bool>) returns (r: seq<Pickable>)
    ensures r == Picks(kind, passes)
  {
    r := [];
    for i := 0 to |passes|
      invariant r == Picks(kind, passes[..i])
    {
      PicksStep(kind, passes, i);
      if passes[i] {
        r := r + [Pickable(kind, i)];
      }
    }
    assert passes[..|passes|] == passes;
  }

  /**
   * The three `forEach` loops at the top of `animate`: star meshes, then
   * planet groups, then stellar objects, each pushed when opaque enough.
   */
  method Clickables(stars: seq<real>, planets: seq<Option<real>>, stellar: seq<real>) returns (r: seq<Pickable>)
    ensures r == Picks(StarMeshKind, OpacityPasses(stars)) + Picks(PlanetKind, SurfacePasses(planets))
                 + Picks(StellarKind, OpacityPasses(stellar))
    ensures forall p :: p in r <==>
      || (p.kind == StarMeshKind && p.index < |stars| && stars[p.index] > ClickThreshold)
      || (p.kind == PlanetKind && p.index < |planets| && planets[p.index].Some? && planets[p.index].value > ClickThreshold)
      || (p.kind == StellarKind && p.index < |stellar| && stellar[p.index] > ClickThreshold)
  {
    var fromStars := Collect(StarMeshKind, OpacityPasses(stars));
    var fromPlanets := Collect(PlanetKind, SurfacePasses(planets));
    var fromStellar := Collect(StellarKind, OpacityPasses(stellar));
    r := fromStars + fromPlanets + fromStellar;
  }

  /**
   * The named group a hit belongs to. `chain` is the hit mesh followed by its
   * ancestors up to the scene root; an unnamed object has the name "".
   */
  function NamedAncestor(chain: seq<string>): (i: nat)
    requires |chain| > 0
    ensures i < |chain|
    ensures chain[i] != "" || i == |chain| - 1
    ensures forall j :: 0 <= j < i ==> chain[j] == ""
  {
    if chain[0] != "" || |chain| == 1 then 0 else 1 + NamedAncestor(chain[1..])
  }

  /** The `while (clickedObject.parent && !clickedObject.name)` climb of `onMouseClick`. */
  method Climb(chain: seq<string>) returns (i: nat)
    requires |chain| > 0
    ensures i == NamedAncestor(chain)
  {
    i := 0;
    while i < |chain| - 1 && chain[i] == ""
      invariant i < |chain|
      invariant NamedAncestor(chain) == i + NamedAncestor(chain[i..])
    {
      assert chain[i..][1..] == chain[i + 1..];
      i := i + 1;
    }
    assert chain[i..][0] == chain[i];
  }

  /** `distanceTo(...) > 5`, compared on squares. */
  predicate Far(fromX: real, fromY: real, x: real, y: real) {
    (x - fromX) * (x - fromX) + (y - fromY) * (y - fromY) > DragRadius * DragRadius
  }

  /** A pointer that stays within 3 pixels on each axis never travels past the drag radius. */
  lemma SmallMovesAreNotFar(fromX: real, fromY: real, x: real, y: real)
    requires -3.0 <= x - fromX <= 3.0 && -3.0 <= y - fromY <= 3.0
    ensures !Far(fromX, fromY, x, y)
  {
    var dx, dy := x - fromX, y - fromY;
    assert dx * dx <= 9.0 by {
      if dx >= 0.0 { assert dx * dx <= 3.0 * dx; } else { assert dx * dx <= -3.0 * dx; }
    }
    assert dy * dy <= 9.0 by {
      if dy >= 0.0 { assert dy * dy <= 3.0 * dy; } else { assert dy * dy <= -3.0 * dy; }
    }
  }

  datatype Point = Point(x: real, y: real)

  /** `isDragging` and `mouseDownPos`, driven by the window's mouse listeners. */
  class DragTracker {
    var dragging: bool
    var downX: real
    var downY: real

    constructor ()
      ensures !dragging && downX == 0.0 && downY == 0.0
    {
      dragging, downX, downY := false, 0.0, 0.0;
    }

    /** `mousedown`: a new press is not a drag yet. */
    method MouseDown(x: real, y: real)
      modifies this
      ensures !dragging && downX == x && downY == y
    {
      dragging, downX, downY := false, x, y;
    }

    /** `mousemove`: once the pointer has travelled too far the press stays a drag. */
    method MouseMove(x: real, y: real)
      modifies this`dragging
      ensures dragging == (old(dragging) || Far(downX, downY, x, y))
    {
      if Far(downX, downY, x, y) {
        dragging := true;
      }
    }

    /** A run of `mousemove` events: the press is a drag exactly when one of them left the radius. */
    method Moves(points: seq<Point>)
      modifies this`dragging
      ensures dragging == (old(dragging) || exists i :: 0 <= i < |points| && Far(downX, downY, points[i].x, points[i].y))
    {
      for i := 0 to |points|
        invariant dragging == (old(dragging) || exists j :: 0 <= j < i && Far(downX, downY, points[j].x, points[j].y))
      {
        MouseMove(points[i].x, points[i].y);
      }
    }
  }

  /** A press, a wobble of a few pixels and a release still counts as a click; a sweep across the screen does not. */
  method PressWobbleAndSweep() returns (afterWobble: bool, afterSweep: bool)
    ensures !afterWobble && afterSweep
  {
    var t := new DragTracker();
    t.MouseDown(400.0, 300.0);
    SmallMovesAreNotFar(400.0, 300.0, 402.0, 299.0);
    SmallMovesAreNotFar(400.0, 300.0, 403.0, 302.0);
    t.Moves([Point(402.0, 299.0), Point(403.0, 302.0)]);
    afterWobble := t.dragging;
    t.MouseDown(400.0, 300.0);
    var sweep := [Point(420.0, 300.0), Point(401.0, 300.0)];
    t.Moves(sweep);
    assert Far(t.downX, t.downY, sweep[0].x, sweep[0].y);
    afterSweep := t.dragging;
  }
}
