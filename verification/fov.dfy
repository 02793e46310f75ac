/** The field-of-view pass: every viewer whose visibility is stale gets its
    visible set recomputed from its position, radius and the map; every
    other viewer is left alone.

    The visibility sweep itself (bracket-lib's `field_of_view_set`) is not
    part of this model; it is passed in as the function `sight`.

    The field-of-view component here is deliberately kept apart from
    `Components.FieldOfView`: spawning records only the radius an entity is
    given, while this pass works on the full component (visible tiles,
    radius, dirty flag). The constructor `FieldOfView::new` that links the
    two lives in a components file that is not part of this model, so the
    initial visible set and dirty flag of a spawned entity are not stated. */
module Fov {
  import opened Prelude

  /** A viewer's field-of-view component. */
  datatype FieldOfView = FieldOfView(visibleTiles: set<Point>, radius: Int32, isDirty: bool)

  /** An entity that has both a position and a field of view. */
  datatype Viewer = Viewer(position: Point, fov: FieldOfView)

  type Sight = (Point, Int32, GameMap) -> set<Point>

  /** One viewer's step of the pass. */
  function Refresh(v: Viewer, dungeon: GameMap, sight: Sight): Viewer {
    if v.fov.isDirty
    then v.(fov := v.fov.(visibleTiles := sight(v.position, v.fov.radius, dungeon), isDirty := false))
    else v
  }

  /** The postcondition of the pass for one viewer, stated without `Refresh`. */
  ghost predicate Refreshed(before: Viewer, after: Viewer, dungeon: GameMap, sight: Sight) {
    && after.position == before.position
    && after.fov.radius == before.fov.radius
    && !after.fov.isDirty
    && (!before.fov.isDirty ==> after == before)
    && (before.fov.isDirty ==> after.fov.visibleTiles == sight(before.position, before.fov.radius, dungeon))
  }

  /** The `fov` system over all viewers, in query order. */
  method FovPass(viewers: seq<Viewer>, dungeon: GameMap, sight: Sight) returns (out: seq<Viewer>)
    ensures |out| == |viewers|
    ensures forall i :: 0 <= i < |viewers| ==> Refreshed(viewers[i], out[i], dungeon, sight)
  {
    out := [];
    var i := 0;
    while i < |viewers|
      invariant 0 <= i <= |viewers|
      invariant |out| == i
      invariant forall j :: 0 <= j < i ==> out[j] == Refresh(viewers[j], dungeon, sight)
    {
      out := out + [Refresh(viewers[i], dungeon, sight)];
      i := i + 1;
    }
  }

  /** The pass as a function over the whole viewer list. */
  function Pass(viewers: seq<Viewer>, dungeon: GameMap, sight: Sight): (r: seq<Viewer>)
    ensures |r| == |viewers|
    ensures forall i :: 0 <= i < |viewers| ==> r[i] == Refresh(viewers[i], dungeon, sight)
    decreases |viewers|
  {
    if viewers == [] then [] else [Refresh(viewers[0], dungeon, sight)] + Pass(viewers[1..], dungeon, sight)
  }

  /** A second pass right after the first changes nothing: no viewer is dirty any more. */
  lemma PassIdempotent(viewers: seq<Viewer>, dungeon: GameMap, sight: Sight)
    ensures Pass(Pass(viewers, dungeon, sight), dungeon, sight) == Pass(viewers, dungeon, sight)
  {
  }

  /** The method and the function describe the same pass. */
  lemma PassMatchesMethodContract(viewers: seq<Viewer>, dungeon: GameMap, sight: Sight, out: seq<Viewer>)
    requires |out| == |viewers|
    requires forall i :: 0 <= i < |viewers| ==> Refreshed(viewers[i], out[i], dungeon, sight)
    ensures out == Pass(viewers, dungeon, sight)
  {
  }
}
