/** Properties of `entityReducer` that relate several calls or several records:
    idempotence of LINK_TO, REMOVE, LINK_POINTS and config/SET, link
    deduplication, the order REMOVE keeps, and what looking an entity up
    after an edit returns. */
module EntityProperties {
  import opened Types
  import opened Seqs
  import opened EntityReducer

  lemma {:induction false} CountLinksToZero(links: seq<Link>, t: EntityId)
    ensures CountLinksTo(links, t) == 0 <==> !HasLinkTo(links, t)
  {
    if |links| > 0 {
      var init := links[..|links| - 1];
      CountLinksToZero(init, t);
      if HasLinkTo(init, t) {
        var k :| 0 <= k < |init| && init[k].target == t;
        assert links[k].target == t;
      }
      if HasLinkTo(links, t) && links[|links| - 1].target != t {
        var k :| 0 <= k < |links| && links[k].target == t;
        assert init[k].target == t;
      }
    }
  }

  /** LINK_TO leaves exactly one link to the target on a source record that had
      none, and keeps the count of one that had some. */
  lemma LinkToDedup(state: seq<Entity>, target: EntityId, from: EntityId, route: PointsCalc, i: int)
    requires 0 <= i < |state| && state[i].id == from
    ensures var r := LinkEntityTo(state, target, from, route);
      CountLinksTo(LinksOf(r[i]), target) ==
        if CountLinksTo(LinksOf(state[i]), target) == 0 then 1 else CountLinksTo(LinksOf(state[i]), target)
  {
    var r := LinkEntityTo(state, target, from, route);
    var before := LinksOf(state[i]);
    CountLinksToZero(before, target);
    if !HasLinkTo(before, target) {
      var after := before + [NewLink(state, state[i], target, route)];
      assert LinksOf(r[i]) == after;
      assert after[..|after| - 1] == before;
    }
  }

  /** After LINK_TO every record with the source id has a link to the target. */
  lemma LinkToLinks(state: seq<Entity>, target: EntityId, from: EntityId, route: PointsCalc, i: int)
    requires 0 <= i < |state| && state[i].id == from
    ensures var r := LinkEntityTo(state, target, from, route);
      r[i].linksTo.Some? && HasLinkTo(r[i].linksTo.value, target)
  {
    var r := LinkEntityTo(state, target, from, route);
    var before := LinksOf(state[i]);
    if !HasLinkTo(before, target) {
      assert r[i].linksTo.value[|before|].target == target;
    }
  }

  /** Applying the same LINK_TO twice with the same canvas equals applying it once. */
  lemma LinkToIdempotent(state: seq<Entity>, target: EntityId, from: EntityId, route: PointsCalc)
    ensures var r := LinkEntityTo(state, target, from, route);
      LinkEntityTo(r, target, from, route) == r
  {
    var r := LinkEntityTo(state, target, from, route);
    var r2 := LinkEntityTo(r, target, from, route);
    forall i | 0 <= i < |r| ensures r2[i] == r[i] {
      if r[i].id == from {
        LinkToLinks(state, target, from, route, i);
      }
    }
  }

  /** Applying the same configuration twice equals applying it once. */
  lemma ApplyConfigIdempotent(state: seq<Entity>, config: Config)
    ensures ApplyConfig(ApplyConfig(state, config), config) == ApplyConfig(state, config)
  {
  }

  /** ADD_LINKED with an id no record has only appends the new record. */
  lemma AddLinkedUnknownId(state: seq<Entity>, item: NewEntity, id: EntityId)
    requires forall i :: 0 <= i < |state| ==> state[i].id != id
    ensures AddLinkedEntity(state, item, id) == AddEntity(state, item)
  {
  }

  /** Where a survivor of REMOVE lands: at its rank among the survivors. */
  lemma RemovePosition(state: seq<Entity>, id: EntityId, i: int)
    requires 0 <= i < |state| && state[i].id != id
    ensures var r := RemoveEntity(state, id);
      var p := |Filter(state[..i], NotId(id))|;
      p < |r| && r[p] == DropLinksTo(state[i], id)
  {
    FilterPosition(state, NotId(id), i);
  }

  /** REMOVE keeps every other record, with its relative order. */
  lemma RemoveKeepsOrder(state: seq<Entity>, id: EntityId, i: int, j: int)
    requires 0 <= i < j < |state| && state[i].id != id && state[j].id != id
    ensures var r := RemoveEntity(state, id);
      exists p, q :: 0 <= p < q < |r| && r[p] == DropLinksTo(state[i], id) && r[q] == DropLinksTo(state[j], id)
  {
    var r := RemoveEntity(state, id);
    RemovePosition(state, id, i);
    RemovePosition(state, id, j);
    FilterRankMonotone(state, NotId(id), i, j);
    var p, q := |Filter(state[..i], NotId(id))|, |Filter(state[..j], NotId(id))|;
    assert r[p] == DropLinksTo(state[i], id) && r[q] == DropLinksTo(state[j], id);
  }

  /** Every record REMOVE returns is a record of the input with another id,
      with its links to the removed id dropped. */
  lemma RemoveOnlyDrops(state: seq<Entity>, id: EntityId, p: int)
    requires 0 <= p < |RemoveEntity(state, id)|
    ensures exists i :: 0 <= i < |state| && state[i].id != id && RemoveEntity(state, id)[p] == DropLinksTo(state[i], id)
  {
    var kept := Filter(state, NotId(id));
    assert kept[p] in state;
    var i :| 0 <= i < |state| && state[i] == kept[p];
    assert state[i].id != id;
  }

  /** Applying the same REMOVE twice equals applying it once. */
  lemma RemoveIdempotent(state: seq<Entity>, id: EntityId)
    ensures RemoveEntity(RemoveEntity(state, id), id) == RemoveEntity(state, id)
  {
    var r := RemoveEntity(state, id);
    FilterKeepsAll(r, NotId(id));
    forall p | 0 <= p < |r| ensures DropLinksTo(r[p], id) == r[p] {
      if r[p].linksTo.Some? {
        var links := r[p].linksTo.value;
        forall k | 0 <= k < |links| ensures NotTargeting(id)(links[k]) {
          assert links[k].target != id;
        }
        FilterKeepsAll(links, NotTargeting(id));
      }
    }
  }

  /** REMOVE's id sequence is the input's with every occurrence of `id` dropped. */
  lemma RemoveIds(state: seq<Entity>, id: EntityId)
    ensures Ids(RemoveEntity(state, id)) == Filter(Ids(state), IdNot(id))
  {
    var kept := Filter(state, NotId(id));
    FilterMapCommute(state, IdOf, NotId(id), IdNot(id));
    assert Ids(RemoveEntity(state, id)) == Ids(kept);
  }

  /** MOVE leaves a record untouched when it is not the moved one and none of
      its links targets the moved one. */
  lemma MoveLeavesUnrelated(state: seq<Entity>, id: EntityId, x: int, y: int, route: PointsCalc, i: int)
    requires 0 <= i < |state| && state[i].id != id && !HasLinkTo(LinksOf(state[i]), id)
    ensures MoveEntity(state, id, x, y, route)[i] == state[i]
  {
  }

  /** After MOVE, looking the moved id up finds a record at the new position,
      and finds one exactly when one was found before. */
  lemma MoveThenFind(state: seq<Entity>, id: EntityId, x: int, y: int, route: PointsCalc)
    ensures var found := Find(MoveEntity(state, id, x, y, route), id);
      found.Some? == Find(state, id).Some? &&
      (found.Some? ==> found.value.x == x && found.value.y == y)
  {
  }

  /** After SET_NAME, looking the id up finds the record it found before, renamed. */
  lemma SetNameThenFind(state: seq<Entity>, id: EntityId, name: string)
    ensures var found := Find(SetEntityName(state, id, name), id);
      found == if Find(state, id).Some? then Some(Find(state, id).value.(name := name)) else None
  {
  }

  /** After SET_CUSTOM, looking the id up finds the record it found before,
      carrying the new payload. */
  lemma SetCustomThenFind(state: seq<Entity>, id: EntityId, custom: Custom)
    ensures var found := Find(SetEntityCustom(state, id, custom), id);
      found == if Find(state, id).Some? then Some(Find(state, id).value.(custom := Some(custom))) else None
  {
  }

  /** LINK_POINTS on a record whose links are defined never adds or removes a
      link: the record links to `to` afterwards exactly when it did before. */
  lemma SetLinkPointsAddsNoLink(state: seq<Entity>, from: EntityId, to: EntityId, points: seq<Point>, i: int)
    requires 0 <= i < |state| && state[i].linksTo.Some?
    ensures var r := SetLinkPoints(state, from, to, points);
      |LinksOf(r[i])| == |LinksOf(state[i])| &&
      (HasLinkTo(LinksOf(r[i]), to) <==> HasLinkTo(LinksOf(state[i]), to))
  {
  }

  /** Applying the same LINK_POINTS twice equals applying it once. */
  lemma SetLinkPointsIdempotent(state: seq<Entity>, from: EntityId, to: EntityId, points: seq<Point>)
    ensures var r := SetLinkPoints(state, from, to, points);
      SetLinkPoints(r, from, to, points) == r
  {
    var r := SetLinkPoints(state, from, to, points);
    var r2 := SetLinkPoints(r, from, to, points);
    forall i | 0 <= i < |r| ensures r2[i] == r[i] {
      if r[i].id == from {
        var mid, last := r[i].linksTo.value, r2[i].linksTo.value;
        forall k | 0 <= k < |last| ensures last[k] == mid[k] {
          if state[i].linksTo.None? {
            assert mid[k].target == to;
          }
        }
        assert last == mid;
      }
    }
  }
}
