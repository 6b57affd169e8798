/** `metaEntityReducer` of src/entity/reducer.js: per-entity selection and
    anchoring flags, kept in a sequence parallel to the entity records. */
module MetaEntityReducer {
  import opened Types
  import opened Seqs

  /** 'rd/entity/SET': one record per entity of the new snapshot, in its order,
      neither anchored nor selected, whatever the previous state was. */
  function ResetMeta(entities: seq<Entity>): (r: seq<MetaEntity>)
    ensures MetaIds(r) == Ids(entities)
    ensures forall i :: 0 <= i < |r| ==> !r[i].isAnchored && !r[i].isSelected
  {
    Map(entities, (e: Entity) => MetaEntity(e.id, false, false))
  }

  /** 'rd/entity/ADD' and 'rd/entity/ADD_LINKED': a record for the new entity
      is appended with the flags the payload carries. */
  function AppendMeta(state: seq<MetaEntity>, item: NewEntity): (r: seq<MetaEntity>)
    ensures |r| == |state| + 1 && r[..|state|] == state
    ensures MetaIds(r) == MetaIds(state) + [item.entity.id]
    ensures r[|state|].isAnchored == item.isAnchored && r[|state|].isSelected == item.isSelected
  {
    state + [MetaEntity(item.entity.id, item.isAnchored, item.isSelected)]
  }

  /** 'rd/entity/SELECT': a record is selected afterwards exactly when its id
      is `id` and `isSelected` is true; ids and anchoring are untouched. With
      an id no record has, every selection is cleared. */
  function SelectMeta(state: seq<MetaEntity>, id: EntityId, isSelected: bool): (r: seq<MetaEntity>)
    ensures MetaIds(r) == MetaIds(state)
    ensures forall i :: 0 <= i < |state| ==> r[i].isAnchored == state[i].isAnchored
    ensures forall i :: 0 <= i < |state| ==> (r[i].isSelected <==> state[i].id == id && isSelected)
  {
    Map(state, (m: MetaEntity) => if m.id == id then m.(isSelected := isSelected) else m.(isSelected := false))
  }

  /** The test REMOVE keeps meta records by. */
  function MetaNotId(id: EntityId): MetaEntity -> bool {
    (m: MetaEntity) => m.id != id
  }

  /** 'rd/entity/REMOVE': the records with id `id` are dropped, the others kept
      with their flags, in their order: a kept record lands at its rank among
      the kept ones. */
  function RemoveMeta(state: seq<MetaEntity>, id: EntityId): (r: seq<MetaEntity>)
    ensures MetaIds(r) == Filter(MetaIds(state), IdNot(id))
    ensures forall i :: 0 <= i < |r| ==> r[i].id != id && r[i] in state
    ensures forall i :: 0 <= i < |state| && state[i].id != id ==>
      var p := |Filter(state[..i], MetaNotId(id))|;
      p < |r| && r[p] == state[i]
  {
    var kept := Filter(state, MetaNotId(id));
    FilterMapCommute(state, MetaIdOf, MetaNotId(id), IdNot(id));
    FilterRanks(state, MetaNotId(id));
    kept
  }

  /** The state before the first action (the reducer's default `state = []`). */
  const Initial: seq<MetaEntity> := []

  /** `metaEntityReducer(state, action)`: only SET, ADD, ADD_LINKED, SELECT and
      REMOVE change the state, and SELECT keeps its ids. */
  function Reduce(state: seq<MetaEntity>, action: Action): (r: seq<MetaEntity>)
    ensures !(action.SetEntities? || action.Add? || action.AddLinked? || action.Select? || action.Remove?) ==>
            r == state
    ensures action.Select? ==> MetaIds(r) == MetaIds(state)
  {
    match action
    case SetEntities(entities) => ResetMeta(entities)
    case Add(item) => AppendMeta(state, item)
    case AddLinked(item, _) => AppendMeta(state, item)
    case Select(id, isSelected) => SelectMeta(state, id, isSelected)
    case Remove(id) => RemoveMeta(state, id)
    case _ => state
  }

  /** No id occurs twice. */
  predicate DistinctIds(ids: seq<EntityId>) {
    forall i, j :: 0 <= i < j < |ids| ==> ids[i] != ids[j]
  }

  predicate AtMostOneSelected(state: seq<MetaEntity>) {
    forall i, j :: 0 <= i < |state| && 0 <= j < |state| && state[i].isSelected && state[j].isSelected ==> i == j
  }

  /** With distinct ids, SELECT leaves at most one record selected. */
  lemma SelectSingle(state: seq<MetaEntity>, id: EntityId, isSelected: bool)
    requires DistinctIds(MetaIds(state))
    ensures AtMostOneSelected(SelectMeta(state, id, isSelected))
  {
  }

  /** Only the last of two SELECTs matters: the earlier one is forgotten. */
  lemma SelectForgetsEarlier(state: seq<MetaEntity>, id1: EntityId, sel1: bool, id2: EntityId, sel2: bool)
    ensures SelectMeta(SelectMeta(state, id1, sel1), id2, sel2) == SelectMeta(state, id2, sel2)
  {
  }
}
