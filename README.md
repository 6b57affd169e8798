# Diagram state reducers (react-uml)

A Dafny model of the state-transition engine of a diagram editor: the Redux
reducers that keep the diagram's entity records, their per-entity selection
metadata and the canvas interaction state. Every reducer is a total, pure
function from the old state and an action to the new state, and is modelled as
a Dafny function over sequences and records.

- `types.dfy` (module `Types`): the records — `Entity` with its optional
  `linksTo` and `custom`, `Link` with optional `points`, `MetaEntity`,
  `CanvasState` — and the `Action` union, one constructor per action type
  string plus `Other` for every string no reducer recognises. Optional
  properties are `Option`s because undefined and `[]` behave differently:
  LINK_POINTS creates a link only when `entity.linksTo` is undefined, and MOVE
  and REMOVE keep an undefined `linksTo` undefined.
- `seqs.dfy` (module `Seqs`): `map`, `filter` and the first-index search
  behind `find`, with the facts about filtering the REMOVE proofs use.
- `entity_reducer.dfy` (module `EntityReducer`): `entityReducer`, one function
  per case. `calcLinkPoints` is not part of this model: every operation that
  computes points takes it as the parameter `route`, a function from the
  source record and the target lookup result (possibly undefined) to optional
  points, about which nothing is assumed.
- `entity_properties.dfy` (module `EntityProperties`): properties relating
  several records or several calls — link deduplication, idempotence, the
  order REMOVE keeps, lookups after an edit.
- `meta_reducer.dfy` (module `MetaEntityReducer`): `metaEntityReducer` and the
  single-selection property of SELECT.
- `canvas_reducer.dfy` (module `CanvasReducer`): `canvasReducer` and its
  per-action properties.
- `diagram.dfy` (module `Diagram`): one dispatch step over the three reducers
  and the id synchronisation between entity and meta records. The root
  reducer that composes them in the application is not part of this model;
  `Diagram.Step` assumes it passes the entity reducer the canvas state from
  before the step.

Some behaviour of the code is easy to mistake for a bug; the model follows
the code as written:

- MOVE computes new points from the records as they were before the move: the
  moved entity's own links use its old record (src/entity/reducer.js:193-195),
  and links pointing at it look it up in the old state (:216-218).
- LINK_POINTS creates a link only when the entity's `linksTo` is undefined; an
  entity whose links exist but miss the target gets no new link
  (src/entity/reducer.js:250-260).
- ADD_LINKED appends the new entity even when no record has the given id
  (src/entity/reducer.js:145-167).
- SELECT with an id no record has clears every selection
  (src/entity/reducer.js:316-321).

## Model

| member | source | states |
|---|---|---|
| `EntityReducer.Find` | src/entity/reducer.js:133 | the result is undefined exactly when no record has the id; otherwise it is the first record with that id |
| `EntityReducer.ApplyConfig` | src/entity/reducer.js:88-100 | ids kept in order; only width and height change, to the table's entry for the record's type; records whose type has no entry are unchanged |
| `EntityReducer.AddEntity` | src/entity/reducer.js:102-114 | earlier records untouched; one record appended with the payload's id, type, size, position and name, without `linksTo` and `custom` |
| `EntityReducer.LinkEntityTo` | src/entity/reducer.js:116-141 | ids kept; records with another id than `connecting.from` unchanged; a source record keeps its links, gains a trailing link to the target with `calcLinkPoints(record, find(target))` only if none of its links targets it, and has `linksTo` defined afterwards |
| `EntityReducer.AddLinkedEntity` | src/entity/reducer.js:143-168 | ids become the old ids plus the new id; each record with the given id gains one trailing point-less link to the new entity, others unchanged; the new record has no links and no custom payload |
| `EntityReducer.DropLinksTo` | src/entity/reducer.js:172-180 | a surviving record loses exactly its links to the removed id: the other links are kept in their order, each at its rank among the kept ones, and their number is the old number minus the links to the id; undefined `linksTo` stays undefined; nothing else changes |
| `EntityReducer.RemoveEntity` | src/entity/reducer.js:170-181 | no record with the id remains and no remaining link targets it |
| `EntityReducer.MoveEntity` | src/entity/reducer.js:183-228 | ids kept; only the moved record's x and y change; link targets, order, labels and colours kept; the moved record's link points become `calcLinkPoints(old record, find(target))`, other records' links to the moved id `calcLinkPoints(record, find(id))` in the input state, all other points unchanged |
| `EntityReducer.SetEntityName` | src/entity/reducer.js:230-241 | ids kept; records with the id take the name; nothing else changes |
| `EntityReducer.SetLinkPoints` | src/entity/reducer.js:243-264 | ids kept; only records with id `from` change; links `from→to` take the points, other links unchanged; the single link `[{target: to, points}]` is created only when `linksTo` was undefined |
| `EntityReducer.SetEntityCustom` | src/entity/reducer.js:266-277 | ids kept; records with the id take the custom payload; nothing else changes |
| `EntityReducer.Reduce` | src/entity/reducer.js:79-281 | config/SET, LINK_TO, MOVE, SET_NAME, LINK_POINTS and SET_CUSTOM keep the exact id sequence; actions the reducer does not handle return the state unchanged |
| `EntityProperties.CountLinksToZero` | src/entity/reducer.js:125-126 | a record has no link to a target exactly when `links.some(link => link.target === t)` is false |
| `EntityProperties.LinkToDedup` | src/entity/reducer.js:123-136 | after LINK_TO a source record has exactly one link to the target if it had none, and as many as before otherwise |
| `EntityProperties.LinkToLinks` | src/entity/reducer.js:118-140 | after LINK_TO every source record has defined links including one to the target |
| `EntityProperties.LinkToIdempotent` | src/entity/reducer.js:116-141 | LINK_TO applied twice with the same canvas equals LINK_TO applied once |
| `EntityProperties.ApplyConfigIdempotent` | src/entity/reducer.js:88-100 | applying the same configuration twice equals applying it once |
| `EntityProperties.AddLinkedUnknownId` | src/entity/reducer.js:143-168 | ADD_LINKED with an id no record has is exactly ADD: the new record is still appended |
| `EntityProperties.RemovePosition` | src/entity/reducer.js:170-181 | a record with another id survives REMOVE, with its links to the id dropped, at its rank among the survivors |
| `EntityProperties.RemoveKeepsOrder` | src/entity/reducer.js:170-181 | two survivors of REMOVE keep their relative order |
| `EntityProperties.RemoveOnlyDrops` | src/entity/reducer.js:170-181 | every record REMOVE returns is an input record with another id, its links to the id dropped |
| `EntityProperties.RemoveIdempotent` | src/entity/reducer.js:170-181 | REMOVE applied twice equals REMOVE applied once |
| `EntityProperties.RemoveIds` | src/entity/reducer.js:171 | the id sequence after REMOVE is the old one with every occurrence of the id filtered out |
| `EntityProperties.MoveLeavesUnrelated` | src/entity/reducer.js:205-226 | MOVE leaves a record unchanged when it is not the moved one and none of its links targets it |
| `EntityProperties.MoveThenFind` | src/entity/reducer.js:183-204 | after MOVE, looking the id up finds a record exactly when it did before, and that record is at the new position |
| `EntityProperties.SetNameThenFind` | src/entity/reducer.js:230-241 | after SET_NAME, looking the id up finds the record found before, with the new name |
| `EntityProperties.SetCustomThenFind` | src/entity/reducer.js:266-277 | after SET_CUSTOM, looking the id up finds the record found before, with the new payload |
| `EntityProperties.SetLinkPointsAddsNoLink` | src/entity/reducer.js:250-259 | when `linksTo` is defined, LINK_POINTS keeps the number of links, and the record links to `to` afterwards exactly when it did before |
| `EntityProperties.SetLinkPointsIdempotent` | src/entity/reducer.js:243-264 | LINK_POINTS applied twice equals LINK_POINTS applied once |
| `MetaEntityReducer.ResetMeta` | src/entity/reducer.js:288-293 | SET gives one meta record per entity, same ids in the same order, none anchored or selected |
| `MetaEntityReducer.AppendMeta` | src/entity/reducer.js:295-312 | ADD and ADD_LINKED append one record with the new entity's id and the payload's flags, earlier records untouched |
| `MetaEntityReducer.SelectMeta` | src/entity/reducer.js:314-322 | ids and anchoring kept; a record is selected afterwards exactly when its id matches and the flag is true |
| `MetaEntityReducer.RemoveMeta` | src/entity/reducer.js:324-325 | the meta id sequence loses every occurrence of the id; every other record survives with its own flags, in its order, at its rank among the survivors; remaining records are input records |
| `MetaEntityReducer.Reduce` | src/entity/reducer.js:283-330 | only SET, ADD, ADD_LINKED, SELECT and REMOVE change the state; SELECT keeps the ids |
| `MetaEntityReducer.SelectSingle` | src/entity/reducer.js:314-322 | with distinct ids, at most one record is selected after SELECT |
| `MetaEntityReducer.SelectForgetsEarlier` | src/entity/reducer.js:314-322 | two SELECTs in a row equal the second one alone: the most recent SELECT decides the selection |
| `CanvasReducer.Reduce` | src/canvas/reducer.js:31-76 | the offset changes only under SET_OFFSET, the cursor only under TRACK, the connecting gesture only under CONNECT and LINK_TO |
| `CanvasReducer.SetOffsetReplaces` | src/canvas/reducer.js:33-37 | SET_OFFSET sets the offset, cursor and connecting unchanged |
| `CanvasReducer.TrackRelative` | src/canvas/reducer.js:50-56 | TRACK stores the position minus the current offset, offset and connecting unchanged |
| `CanvasReducer.OffsetThenTrack` | src/canvas/reducer.js:33-56 | SET_OFFSET(o) then TRACK(p) leaves the cursor at p - o |
| `CanvasReducer.OffsetThenTrackExample` | src/canvas/reducer.js:33-56 | offset (10, 10) then the mouse at (15, 15) gives cursor (5, 5) |
| `CanvasReducer.TrackIdempotent` | src/canvas/reducer.js:50-56 | TRACK applied twice equals TRACK applied once |
| `CanvasReducer.ConnectReplaces` | src/canvas/reducer.js:58-62 | CONNECT replaces the connecting state wholesale, offset and cursor unchanged |
| `CanvasReducer.LinkToClears` | src/canvas/reducer.js:64-71 | LINK_TO sets connecting to `{currently: false, from: ""}`, changes nothing else, and is idempotent |
| `CanvasReducer.IgnoresOtherActions` | src/canvas/reducer.js:73-74 | any other action returns the canvas unchanged |
| `Diagram.ReducersKeepIdsInSync` | src/entity/reducer.js:85-330 | if the entity and meta id sequences are equal before an action, they are equal after it, for every action |
| `Diagram.Step` | src/entity/reducer.js:79-83 | one dispatch over the three reducers keeps entity and meta ids in sync |
| `Diagram.ReplayKeepsSync` | src/entity/reducer.js:283-330 | any log of actions replayed from a synchronised snapshot ends synchronised |
| `Diagram.InitialInSync` | src/entity/reducer.js:80 | the empty initial entity and meta states are in sync, whatever the canvas; with `ReplayKeepsSync`, every replay from them stays in sync |
| `Diagram.LinkToStep` | src/canvas/reducer.js:64-71 | completing a link adds it from the pre-step `connecting.from` and clears the gesture in the same step |
| `Diagram.SetRoundTrip` | src/entity/reducer.js:288-293 | SET yields exactly the given entities and fresh, unselected, unanchored metadata with the same ids, whatever the previous state |

## Left out

- The body of `calcLinkPoints` (src/links/calcLinkPoints is not part of this model): it is the parameter `route`; the model proves only which records it is applied to. Its purity holds by construction, since a Dafny function value is deterministic.
- The root reducer (src/diagram/reducer is not part of this model): `Diagram.Step` assumes the entity reducer receives the canvas state from before the step; the application may pass a different snapshot.
- src/canvas/component.js and src/diagram/component.js: React rendering, styling and the global store with its devtools hook.
- Undo and history, mentioned only in comments of src/canvas/reducer.js: not implemented by the source.
- JavaScript numbers are floating point; coordinates and sizes are modelled as `int`, so rounding in TRACK's subtraction is not modelled.
- Object identity, copy-on-write and reference sharing: value semantics replace them.
- Payloads the callers are expected not to send (an undefined `custom` in SET_CUSTOM, undefined `points` in LINK_POINTS, an undefined `entityTypes` in config/SET) are not representable in the model; the action union of src/diagram/reducer, which would type them, is not part of this model.
- EntityReducer.ApplyConfig: `entityTypes` is modelled as a Dafny map, so a type name that is an inherited property of a JavaScript object (`constructor`, `toString`, `__proto__`, …) is simply absent from it; the source's lookup `configs.entityTypes[entity.type]` (src/entity/reducer.js:91) finds such an inherited value and sets width and height to undefined, which the model does not capture.
- The action creators (src/entity/reducer.js:332-376, src/canvas/reducer.js:78-91) are the constructors of `Action`; `selectEntity`'s default `isSelected = true` is the caller's choice of the `Select` argument.
- The reducers' default `state = []` (src/entity/reducer.js:80, :284) is what Redux starts from; the model's reducers take the state explicitly, and the initial states are the constants `EntityReducer.Initial` and `MetaEntityReducer.Initial`, both empty, which `Diagram.InitialInSync` shows are in sync. The canvas reducer has no default state (src/canvas/reducer.js:31), so the initial canvas is a parameter.
- A link's `label` field is called `caption`, because `label` is a Dafny keyword.
- MetaEntityReducer.SelectSingle: the single-selection property is proved for SELECT only; ADD and ADD_LINKED append whatever `isSelected` the payload carries, so the code does not keep it as an invariant.
