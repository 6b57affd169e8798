/** The records of the diagram state and the action union that drives it.
    JavaScript's optional properties (`linksTo?`, `points?`, `custom?`) become
    `Option`. For `linksTo` the difference between undefined and an empty
    array is observable: LINK_POINTS creates a link only when it is undefined,
    and MOVE and REMOVE keep an undefined `linksTo` undefined. For `points` and
    `custom` the reducers only store or overwrite the value. */
module Types {
  import opened Seqs

  datatype Option<+T> = None | Some(value: T)

  type EntityId = string
  type EntityType = string

  /** The custom payload owned by external renderers; the core only stores it. */
  type Custom(==)

  datatype Point = Point(x: int, y: int)

  /** A directed edge: `target` is the id of the entity it points at; `caption`
      is the source's `label` (a reserved word in Dafny). */
  datatype Link = Link(target: EntityId, points: Option<seq<Point>>, caption: Option<string>, color: Option<string>)

  datatype Entity = Entity(
    id: EntityId,
    entityType: EntityType,
    width: int,
    height: int,
    x: int,
    y: int,
    name: string,
    linksTo: Option<seq<Link>>,
    custom: Option<Custom>)

  datatype MetaEntity = MetaEntity(id: EntityId, isAnchored: bool, isSelected: bool)

  /** The payload of ADD and ADD_LINKED: an entity record together with its
      meta flags (the source's `EntityModel & MetaEntityModel`). */
  datatype NewEntity = NewEntity(entity: Entity, isAnchored: bool, isSelected: bool)

  /** One entry of the configuration's `entityTypes` table. */
  datatype Size = Size(width: int, height: int)

  datatype Config = Config(entityTypes: map<EntityType, Size>)

  datatype Connecting = Connecting(currently: bool, from: EntityId)

  datatype CanvasState = CanvasState(offset: Point, cursor: Point, connecting: Connecting)

  /** `calcLinkPoints(source, target)`: the routing points of a link, given its
      source record and the result of looking its target up, which may be
      undefined. Its definition is not part of this model, so every operation
      that uses it takes it as a parameter. */
  type PointsCalc = (Entity, Option<Entity>) -> Option<seq<Point>>

  /** One constructor per action type string the reducers switch on, and
      `Other` for every type string none of them recognises (no reducer reads
      such an action's payload, so `Other` carries none). */
  datatype Action =
    | SetEntities(entities: seq<Entity>)          // 'rd/entity/SET'
    | ConfigSet(config: Config)                    // 'rd/config/SET'
    | Add(item: NewEntity)                         // 'rd/entity/ADD'
    | LinkTo(target: EntityId)                     // 'rd/entity/LINK_TO'
    | AddLinked(item: NewEntity, id: EntityId)     // 'rd/entity/ADD_LINKED'
    | Remove(id: EntityId)                         // 'rd/entity/REMOVE'
    | Move(id: EntityId, x: int, y: int)           // 'rd/entity/MOVE'
    | SetName(id: EntityId, name: string)          // 'rd/entity/SET_NAME'
    | LinkPoints(from: EntityId, to: EntityId, points: seq<Point>) // 'rd/entity/LINK_POINTS'
    | SetCustom(id: EntityId, custom: Custom)      // 'rd/entity/SET_CUSTOM'
    | Select(id: EntityId, isSelected: bool)       // 'rd/entity/SELECT'
    | SetOffset(offset: Point)                     // 'rd/canvas/SET_OFFSET'
    | Track(position: Point)                       // 'rd/canvas/TRACK'
    | Connect(connecting: Connecting)              // 'rd/canvas/CONNECT'
    | Other

  function IdOf(e: Entity): EntityId { e.id }

  function MetaIdOf(m: MetaEntity): EntityId { m.id }

  /** The ids of an entity sequence, in order. */
  function Ids(s: seq<Entity>): seq<EntityId> {
    Map(s, IdOf)
  }

  /** The ids of a meta sequence, in order. */
  function MetaIds(s: seq<MetaEntity>): seq<EntityId> {
    Map(s, MetaIdOf)
  }

  /** The test REMOVE keeps ids by, on id sequences. */
  function IdNot(id: EntityId): EntityId -> bool {
    (x: EntityId) => x != id
  }

  /** The links of an entity, `[]` when `linksTo` is undefined
      (the source's `entity.linksTo ? entity.linksTo : []`). */
  function LinksOf(e: Entity): seq<Link> {
    if e.linksTo.Some? then e.linksTo.value else []
  }

  /** Some link of `links` targets `t` (the source's `links.some(link => link.target === t)`). */
  predicate HasLinkTo(links: seq<Link>, t: EntityId) {
    exists k :: 0 <= k < |links| && links[k].target == t
  }

  /** The number of links in `links` that target `t`. */
  function CountLinksTo(links: seq<Link>, t: EntityId): nat {
    if |links| == 0 then 0
    else CountLinksTo(links[..|links| - 1], t) + (if links[|links| - 1].target == t then 1 else 0)
  }
}
