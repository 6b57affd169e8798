/** The composed snapshot `{entity, meta, canvas}` and one dispatch step over
    the three reducers. The root reducer that does this in the application is
    not part of this model; `Step` assumes it hands the entity reducer the
    canvas state from BEFORE the step, which is the only snapshot in which
    LINK_TO's source (`connecting.from`) is still set. */
module Diagram {
  import opened Types
  import EntityReducer
  import EntityProperties
  import MetaEntityReducer
  import CanvasReducer

  datatype Snapshot = Snapshot(entities: seq<Entity>, meta: seq<MetaEntity>, canvas: CanvasState)

  /** The entity records and the meta records list the same ids in the same order. */
  predicate InSync(s: Snapshot) {
    Ids(s.entities) == MetaIds(s.meta)
  }

  /** Whatever the action, the entity and meta reducers keep equal id
      sequences equal. */
  lemma ReducersKeepIdsInSync(entities: seq<Entity>, meta: seq<MetaEntity>, action: Action,
                              canvas: CanvasState, route: PointsCalc)
    requires Ids(entities) == MetaIds(meta)
    ensures Ids(EntityReducer.Reduce(entities, action, canvas, route)) == MetaIds(MetaEntityReducer.Reduce(meta, action))
  {
    match action
    case Remove(id) =>
      EntityProperties.RemoveIds(entities, id);
    case _ =>
  }

  /** One dispatch: every reducer sees the action; the entity reducer reads the
      pre-step canvas. */
  function Step(s: Snapshot, action: Action, route: PointsCalc): (r: Snapshot)
    ensures InSync(s) ==> InSync(r)
  {
    var next := Snapshot(
      EntityReducer.Reduce(s.entities, action, s.canvas, route),
      MetaEntityReducer.Reduce(s.meta, action),
      CanvasReducer.Reduce(s.canvas, action));
    if InSync(s) then ReducersKeepIdsInSync(s.entities, s.meta, action, s.canvas, route); next else next
  }

  /** A log of actions applied in order. */
  function Replay(s: Snapshot, actions: seq<Action>, route: PointsCalc): Snapshot
    decreases |actions|
  {
    if |actions| == 0 then s else Replay(Step(s, actions[0], route), actions[1..], route)
  }

  /** Any replayed action log keeps the entity and meta ids in sync. */
  lemma {:induction false} ReplayKeepsSync(s: Snapshot, actions: seq<Action>, route: PointsCalc)
    requires InSync(s)
    ensures InSync(Replay(s, actions, route))
    decreases |actions|
  {
    if |actions| > 0 {
      ReplayKeepsSync(Step(s, actions[0], route), actions[1..], route);
    }
  }

  /** The initial snapshot, empty entity and meta states with any canvas, is in
      sync, so every action log replayed from it stays in sync. */
  lemma InitialInSync(canvas: CanvasState, actions: seq<Action>, route: PointsCalc)
    ensures InSync(Snapshot(EntityReducer.Initial, MetaEntityReducer.Initial, canvas))
    ensures InSync(Replay(Snapshot(EntityReducer.Initial, MetaEntityReducer.Initial, canvas), actions, route))
  {
    ReplayKeepsSync(Snapshot(EntityReducer.Initial, MetaEntityReducer.Initial, canvas), actions, route);
  }

  /** Completing a link: in one step the source recorded in the canvas gains
      the link and the gesture is cleared. */
  lemma LinkToStep(s: Snapshot, t: EntityId, route: PointsCalc)
    ensures var r := Step(s, LinkTo(t), route);
      && r.entities == EntityReducer.LinkEntityTo(s.entities, t, s.canvas.connecting.from, route)
      && r.meta == s.meta
      && r.canvas.connecting == Connecting(false, "")
      && r.canvas.offset == s.canvas.offset && r.canvas.cursor == s.canvas.cursor
  {
  }

  /** SET replaces the entities with the snapshot and resets the metadata to
      one unselected, unanchored record per entity, whatever came before. */
  lemma SetRoundTrip(s: Snapshot, entities: seq<Entity>, route: PointsCalc)
    ensures var r := Step(s, SetEntities(entities), route);
      && r.entities == entities
      && InSync(r)
      && (forall i :: 0 <= i < |r.meta| ==> !r.meta[i].isAnchored && !r.meta[i].isSelected)
      && r.canvas == s.canvas
  {
  }
}
