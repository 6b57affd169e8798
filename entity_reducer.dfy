/** `entityReducer` of src/entity/reducer.js: the ordered entity records and
    their outgoing links, rebuilt by every action. Each case of the reducer is a
    function of its own whose contract states what the case does to the records;
    properties that relate several calls are in module EntityProperties. */
module EntityReducer {
  import opened Types
  import opened Seqs

  /** `state.find(ent => ent.id === id)`: the first record with that id, if any. */
  function Find(state: seq<Entity>, id: EntityId): (r: Option<Entity>)
    ensures r.None? <==> forall i :: 0 <= i < |state| ==> state[i].id != id
    ensures r.Some? ==>
      && r.value.id == id
      && exists k :: 0 <= k < |state| && state[k] == r.value && forall j :: 0 <= j < k ==> state[j].id != id
  {
    var k := IndexOf(Ids(state), id);
    if k < |state| then Some(state[k]) else None
  }

  /** A fresh record built from a payload's scalar fields; `linksTo` and
      `custom` are left undefined whatever the payload carries. */
  function Fresh(e: Entity): Entity {
    Entity(e.id, e.entityType, e.width, e.height, e.x, e.y, e.name, None, None)
  }

  /** 'rd/config/SET': every entity whose type has an entry in the table takes
      that entry's width and height. */
  function ApplyConfig(state: seq<Entity>, config: Config): (r: seq<Entity>)
    ensures Ids(r) == Ids(state)
    ensures forall i :: 0 <= i < |state| ==> r[i].(width := state[i].width, height := state[i].height) == state[i]
    ensures forall i :: 0 <= i < |state| && state[i].entityType in config.entityTypes ==>
      Size(r[i].width, r[i].height) == config.entityTypes[state[i].entityType]
    ensures forall i :: 0 <= i < |state| && state[i].entityType !in config.entityTypes ==> r[i] == state[i]
  {
    Map(state, (e: Entity) =>
      if e.entityType in config.entityTypes
      then e.(width := config.entityTypes[e.entityType].width, height := config.entityTypes[e.entityType].height)
      else e)
  }

  /** 'rd/entity/ADD': one record appended, without links or custom payload. */
  function AddEntity(state: seq<Entity>, item: NewEntity): (r: seq<Entity>)
    ensures |r| == |state| + 1 && r[..|state|] == state
    ensures Ids(r) == Ids(state) + [item.entity.id]
    ensures r[|state|] == item.entity.(linksTo := None, custom := None)
  {
    state + [Fresh(item.entity)]
  }

  /** The link LINK_TO appends, with points computed from the source record
      and the first record whose id is the target. */
  function NewLink(state: seq<Entity>, source: Entity, target: EntityId, route: PointsCalc): Link {
    Link(target, route(source, Find(state, target)), None, None)
  }

  /** 'rd/entity/LINK_TO' with `from` being `canvas.connecting.from`: every
      record with id `from` keeps its links and gains a trailing link to
      `target` unless one of its links already targets it; its `linksTo` is
      defined afterwards in every case. Other records are untouched. */
  function LinkEntityTo(state: seq<Entity>, target: EntityId, from: EntityId, route: PointsCalc): (r: seq<Entity>)
    ensures Ids(r) == Ids(state)
    ensures forall i :: 0 <= i < |state| && state[i].id != from ==> r[i] == state[i]
    ensures forall i :: 0 <= i < |state| && state[i].id == from ==>
      && r[i].(linksTo := state[i].linksTo) == state[i]
      && r[i].linksTo.Some?
      && (HasLinkTo(LinksOf(state[i]), target) ==> r[i].linksTo.value == LinksOf(state[i]))
      && (!HasLinkTo(LinksOf(state[i]), target) ==>
            r[i].linksTo.value == LinksOf(state[i]) + [NewLink(state, state[i], target, route)])
  {
    Map(state, (e: Entity) =>
      if e.id == from
      then e.(linksTo := Some(LinksOf(e) +
        (if e.linksTo.Some? && HasLinkTo(e.linksTo.value, target) then [] else [NewLink(state, e, target, route)])))
      else e)
  }

  /** 'rd/entity/ADD_LINKED': every record with id `id` gains a trailing link,
      without points, to the new entity, which is appended whether or not any
      record has id `id`. */
  function AddLinkedEntity(state: seq<Entity>, item: NewEntity, id: EntityId): (r: seq<Entity>)
    ensures |r| == |state| + 1
    ensures Ids(r) == Ids(state) + [item.entity.id]
    ensures r[|state|] == item.entity.(linksTo := None, custom := None)
    ensures forall i :: 0 <= i < |state| && state[i].id != id ==> r[i] == state[i]
    ensures forall i :: 0 <= i < |state| && state[i].id == id ==>
      r[i] == state[i].(linksTo := Some(LinksOf(state[i]) + [Link(item.entity.id, None, None, None)]))
  {
    Map(state, (e: Entity) =>
      if e.id == id then e.(linksTo := Some(LinksOf(e) + [Link(item.entity.id, None, None, None)])) else e)
    + [Fresh(item.entity)]
  }

  /** The test REMOVE keeps entity records by. */
  function NotId(id: EntityId): Entity -> bool {
    (e: Entity) => e.id != id
  }

  /** The test REMOVE keeps links by. */
  function NotTargeting(id: EntityId): Link -> bool {
    (l: Link) => l.target != id
  }

  /** Dropping the links to `id` leaves as many links as do not target it. */
  lemma {:induction false} KeptLinksCount(links: seq<Link>, id: EntityId)
    ensures |Filter(links, NotTargeting(id))| + CountLinksTo(links, id) == |links|
    decreases |links|
  {
    if |links| > 0 {
      KeptLinksCount(links[..|links| - 1], id);
    }
  }

  /** A surviving record of REMOVE: its links to `id` are dropped, the others
      kept in their order (a kept link lands at its rank among the kept ones),
      an undefined `linksTo` stays undefined, and nothing else changes. */
  function DropLinksTo(e: Entity, id: EntityId): (r: Entity)
    ensures r.(linksTo := e.linksTo) == e
    ensures r.linksTo.Some? == e.linksTo.Some?
    ensures !HasLinkTo(LinksOf(r), id)
    ensures |LinksOf(r)| == |LinksOf(e)| - CountLinksTo(LinksOf(e), id)
    ensures forall k :: 0 <= k < |LinksOf(e)| && LinksOf(e)[k].target != id ==>
      var p := |Filter(LinksOf(e)[..k], NotTargeting(id))|;
      p < |LinksOf(r)| && LinksOf(r)[p] == LinksOf(e)[k]
    ensures forall k :: 0 <= k < |LinksOf(r)| ==> LinksOf(r)[k] in LinksOf(e)
  {
    if e.linksTo.Some? then
      var links := e.linksTo.value;
      KeptLinksCount(links, id);
      FilterRanks(links, NotTargeting(id));
      e.(linksTo := Some(Filter(links, NotTargeting(id))))
    else e
  }

  /** The state before the first action (the reducer's default `state = []`). */
  const Initial: seq<Entity> := []

  /** 'rd/entity/REMOVE': no record with id `id` remains and no surviving
      link targets `id`; order and the survivors' other data are in
      EntityProperties. */
  function RemoveEntity(state: seq<Entity>, id: EntityId): (r: seq<Entity>)
    ensures |r| <= |state|
    ensures forall i :: 0 <= i < |r| ==> r[i].id != id
    ensures forall i :: 0 <= i < |r| ==> !HasLinkTo(LinksOf(r[i]), id)
  {
    Map(Filter(state, NotId(id)), (e: Entity) => DropLinksTo(e, id))
  }

  /** Links equal but for their `points`: same length, targets, labels and colours. */
  predicate SameButPoints(a: seq<Link>, b: seq<Link>) {
    |a| == |b| && forall k :: 0 <= k < |a| ==> b[k].(points := a[k].points) == a[k]
  }

  /** One record under MOVE, branch for branch as the source writes it. All
      points are computed from records of the input state `state`: `e` itself
      is the record before the move. */
  function MoveOne(state: seq<Entity>, e: Entity, id: EntityId, x: int, y: int, route: PointsCalc): Entity {
    if e.linksTo.Some? && e.id == id then
      e.(x := x, y := y, linksTo := Some(Map(e.linksTo.value, (l: Link) => l.(points := route(e, Find(state, l.target))))))
    else if e.id == id then
      e.(x := x, y := y)
    else if e.linksTo.Some? && HasLinkTo(e.linksTo.value, id) then
      e.(linksTo := Some(Map(e.linksTo.value, (l: Link) => if l.target == id then l.(points := route(e, Find(state, id))) else l)))
    else
      e
  }

  /** 'rd/entity/MOVE': only the moved record's position changes, and only the
      points of links leaving it or pointing at it; every recomputed points
      value is `route` (calcLinkPoints) applied to the owning record and the target's first
      record, both as they were before the move. */
  function MoveEntity(state: seq<Entity>, id: EntityId, x: int, y: int, route: PointsCalc): (r: seq<Entity>)
    ensures Ids(r) == Ids(state)
    ensures forall i :: 0 <= i < |state| ==>
      && r[i].(x := state[i].x, y := state[i].y, linksTo := state[i].linksTo) == state[i]
      && (r[i].x, r[i].y) == (if state[i].id == id then (x, y) else (state[i].x, state[i].y))
      && r[i].linksTo.Some? == state[i].linksTo.Some?
      && SameButPoints(LinksOf(state[i]), LinksOf(r[i]))
      && forall k :: 0 <= k < |LinksOf(r[i])| ==>
           LinksOf(r[i])[k].points ==
             if state[i].id == id then route(state[i], Find(state, LinksOf(state[i])[k].target))
             else if LinksOf(state[i])[k].target == id then route(state[i], Find(state, id))
             else LinksOf(state[i])[k].points
  {
    Map(state, (e: Entity) => MoveOne(state, e, id, x, y, route))
  }

  /** 'rd/entity/SET_NAME': records with id `id` take the new name; nothing else changes. */
  function SetEntityName(state: seq<Entity>, id: EntityId, name: string): (r: seq<Entity>)
    ensures Ids(r) == Ids(state)
    ensures forall i :: 0 <= i < |state| ==> r[i].(name := state[i].name) == state[i]
    ensures forall i :: 0 <= i < |state| && state[i].id == id ==> r[i].name == name
    ensures forall i :: 0 <= i < |state| && state[i].id != id ==> r[i] == state[i]
  {
    Map(state, (e: Entity) => if e.id == id then e.(name := name) else e)
  }

  /** 'rd/entity/LINK_POINTS': on records with id `from`, links to `to` take
      `points`; a record whose `linksTo` is undefined gets the single link
      `[{target: to, points}]`, while one whose links exist but miss `to` gets
      no new link. */
  function SetLinkPoints(state: seq<Entity>, from: EntityId, to: EntityId, points: seq<Point>): (r: seq<Entity>)
    ensures Ids(r) == Ids(state)
    ensures forall i :: 0 <= i < |state| && state[i].id != from ==> r[i] == state[i]
    ensures forall i :: 0 <= i < |state| && state[i].id == from ==>
      && r[i].(linksTo := state[i].linksTo) == state[i]
      && r[i].linksTo.Some?
      && (state[i].linksTo.None? ==> r[i].linksTo.value == [Link(to, Some(points), None, None)])
      && (state[i].linksTo.Some? ==>
            && SameButPoints(state[i].linksTo.value, r[i].linksTo.value)
            && forall k :: 0 <= k < |r[i].linksTo.value| ==>
                 r[i].linksTo.value[k].points ==
                   if state[i].linksTo.value[k].target == to then Some(points) else state[i].linksTo.value[k].points)
  {
    Map(state, (e: Entity) =>
      if e.id == from
      then e.(linksTo :=
        if e.linksTo.Some?
        then Some(Map(e.linksTo.value, (l: Link) => if l.target == to then l.(points := Some(points)) else l))
        else Some([Link(to, Some(points), None, None)]))
      else e)
  }

  /** 'rd/entity/SET_CUSTOM': records with id `id` take the new custom payload;
      nothing else changes. */
  function SetEntityCustom(state: seq<Entity>, id: EntityId, custom: Custom): (r: seq<Entity>)
    ensures Ids(r) == Ids(state)
    ensures forall i :: 0 <= i < |state| ==> r[i].(custom := state[i].custom) == state[i]
    ensures forall i :: 0 <= i < |state| && state[i].id == id ==> r[i].custom == Some(custom)
    ensures forall i :: 0 <= i < |state| && state[i].id != id ==> r[i] == state[i]
  {
    Map(state, (e: Entity) => if e.id == id then e.(custom := Some(custom)) else e)
  }

  /** `entityReducer(state, action, canvas)`. The six editing actions other
      than ADD, ADD_LINKED and REMOVE keep the exact id sequence; actions the
      reducer does not handle return the state unchanged. */
  function Reduce(state: seq<Entity>, action: Action, canvas: CanvasState, route: PointsCalc): (r: seq<Entity>)
    ensures (|| action.ConfigSet? || action.LinkTo? || action.Move? || action.SetName?
             || action.LinkPoints? || action.SetCustom?) ==> Ids(r) == Ids(state)
    ensures action.Select? || action.SetOffset? || action.Track? || action.Connect? || action.Other? ==>
            r == state
  {
    match action
    case SetEntities(entities) => entities
    case ConfigSet(config) => ApplyConfig(state, config)
    case Add(item) => AddEntity(state, item)
    case LinkTo(target) => LinkEntityTo(state, target, canvas.connecting.from, route)
    case AddLinked(item, id) => AddLinkedEntity(state, item, id)
    case Remove(id) => RemoveEntity(state, id)
    case Move(id, x, y) => MoveEntity(state, id, x, y, route)
    case SetName(id, name) => SetEntityName(state, id, name)
    case LinkPoints(from, to, points) => SetLinkPoints(state, from, to, points)
    case SetCustom(id, custom) => SetEntityCustom(state, id, custom)
    case _ => state
  }
}
