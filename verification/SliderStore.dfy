/** The slider operations on a table they update in place, one transaction at a time. */
module SliderStore {
  import opened Base
  import opened SliderSpec

  ghost predicate SelectedRows(rows: map<int, Slider>, ids: seq<int>) {
    && |ids| <= MAX_LISTED + 1 && Distinct(ids) && Ascending(rows, ids) && SameElements(Active(rows), ids)
    && (forall k :: 0 <= k < |ids| ==> k <= rows[ids[k]].order)
  }

  lemma {:induction false} RestOrders(rows: map<int, Slider>, ids: seq<int>, id: int, k: nat)
    requires Lists(rows, ids) && k < |ids| && ids[k] == id && rows[id].revision < I64_MAX
    ensures var after, rest := Archived(rows, id), Without(ids, id);
      forall i :: 0 <= i < |rest| ==> rest[i] in after && i <= after[rest[i]].order
  {
    ListWithout(rows, ids, id, k);
    var rest := Without(ids, id);
    forall i | 0 <= i < |rest| ensures rest[i] == ids[if i < k then i else i + 1] {}
  }

  /** What the query after the archiving update returns. */
  lemma {:induction false} Selects(rows: map<int, Slider>, ids: seq<int>, id: int)
    requires Lists(rows, ids) && |ids| <= MAX_LISTED + 1 && id in rows && rows[id].active && rows[id].revision < I64_MAX
    ensures var base := Archived(rows, id);
      id in ids && InOrder(base, Active(base)) == Without(ids, id) && SelectedRows(base, Without(ids, id))
  {
    assert id in Active(rows);
    var k :| 0 <= k < |ids| && ids[k] == id;
    var base := Archived(rows, id);
    ListWithout(rows, ids, id, k);
    QueryReturnsList(base, Without(ids, id), Active(base));
    RestOrders(rows, ids, id, k);
    WithoutIsNoLonger(ids, id);
  }

  /** The renumbering loop, one update at a time; each of them passes the unique index. */
  method Renumber(selected: map<int, Slider>, rest: seq<int>) returns (rows: map<int, Slider>, collided: bool)
    requires SelectedRows(selected, rest)
    ensures !collided && rows == Renumbered(selected, rest, |rest|)
    ensures Lists(rows, rest)
  {
    rows := selected;
    var index := 0;
    while index < |rest|
      invariant 0 <= index <= |rest|
      invariant rows == Renumbered(selected, rest, index)
    {
      LoopNeverCollides(selected, rest, index);
      var order := Wrap32(index);
      if Collides(rows, rest[index], order) { return rows, true; }
      rows := rows[rest[index] := rows[rest[index]].(order := order)];
      index := index + 1;
    }
    RenumberedList(selected, rest);
    collided := false;
  }

  /** Apart from one row, rows may only move to another place. */
  ghost predicate OthersKeepAllButPlace(before: map<int, Slider>, after: map<int, Slider>, id: int) {
    && before.Keys == after.Keys
    && forall x :: x in before && x != id ==> after[x] == before[x].(order := after[x].order)
  }

  lemma {:induction false} RenumberingMovesOthers(rows: map<int, Slider>, rest: seq<int>, id: int)
    requires id in rows && rows[id].revision < I64_MAX && |rest| <= MAX_LISTED + 1 && Distinct(rest) && id !in rest
    requires forall x :: x in rest ==> x in Archived(rows, id)
    ensures var r := Renumbered(Archived(rows, id), rest, |rest|);
      OthersKeepAllButPlace(rows, r, id) && r[id] == Archived(rows, id)[id]
  {
    RenumberedPlaces(Archived(rows, id), rest, |rest|);
    assert rest[..|rest|] == rest;
    var r := Renumbered(Archived(rows, id), rest, |rest|);
    forall x | x in rows && x != id ensures r[x] == rows[x].(order := r[x].order) {
      if x in rest { var i :| 0 <= i < |rest| && rest[i] == x; }
    }
  }

  lemma {:induction false} ArchivingMovesOthers(rows: map<int, Slider>, ids: seq<int>, id: int)
    requires Lists(rows, ids) && |ids| <= MAX_LISTED + 1 && id in ids && id in rows && rows[id].revision < I64_MAX
    ensures var after, rest := Archived(rows, id), Without(ids, id);
      && (forall x :: x in rest ==> x in after) && OthersKeepAllButPlace(rows, Renumbered(after, rest, |rest|), id)
      && Renumbered(after, rest, |rest|)[id] == after[id]
  {
    var k :| 0 <= k < |ids| && ids[k] == id;
    ListWithout(rows, ids, id, k);
    WithoutIsNoLonger(ids, id);
    assert forall x :: x in Without(ids, id) ==> x in ids && x in Archived(rows, id);
    RenumberingMovesOthers(rows, Without(ids, id), id);
  }

  class Store {
    var rows: map<int, Slider>
    var nextId: int

    /** The list that the active rows spell out. */
    ghost var list: seq<int>

    ghost predicate Valid()
      reads this
    {
      Follows(Table(rows, nextId), list) && |list| <= MAX_LISTED + 1
    }

    constructor ()
      ensures Valid() && list == [] && rows == map[]
    {
      rows, nextId, list := map[], 1, [];
    }

    /** At a full list the place wraps, and the rows no longer number anything. */
    method CreateSlider(publish: bool, schemaReady: bool) returns (reply: Reply)
      requires Valid()
      modifies this
      ensures Result(Table(rows, nextId), reply) == Create(old(Table(rows, nextId)), publish, schemaReady)
      ensures list == (if schemaReady then old(list) + [old(nextId)] else old(list))
      ensures schemaReady ==>
        reply == Place(old(nextId), if |old(list)| <= MAX_LISTED then |old(list)| else -0x8000_0000)
      ensures schemaReady ==>
        && rows == old(rows)[old(nextId) := Slider(reply.order, publish, true, 1)]
        && nextId == old(nextId) + 1
      ensures !schemaReady ==> reply.Nothing? && rows == old(rows) && nextId == old(nextId)
      ensures Valid() <==> !schemaReady || |old(list)| <= MAX_LISTED
    {
      if !schemaReady { return Nothing; }
      if |list| <= MAX_LISTED { CreateAppends(Table(rows, nextId), list, publish); }
      else { CreateWrapsWhenFull(Table(rows, nextId), list, publish); }
      var order := Wrap32(|Active(rows)|);
      if Collides(rows, nextId, order) { return Unavailable; }
      rows := rows[nextId := Slider(order, publish, true, 1)];
      list := list + [nextId];
      nextId := nextId + 1;
      reply := Place(nextId - 1, order);
    }

    method ArchiveSlider(id: int, expected: int) returns (reply: Reply)
      requires Valid()
      modifies this
      ensures Valid() && Result(Table(rows, nextId), reply) == Archive(old(Table(rows, nextId)), id, expected)
      ensures reply.Places? <==> old(id in list && rows[id].revision == expected) && expected < I64_MAX
      ensures reply.Places? ==>
        && list == Without(old(list), id) && reply.ids == list && OthersKeepAllButPlace(old(rows), rows, id)
        && rows[id] == old(rows[id]).(active := false, status := false, revision := expected + 1)
      ensures !reply.Places? ==> rows == old(rows) && list == old(list)
    {
      assert id in rows && rows[id].active ==> id in Active(rows);
      if id !in rows { return Nothing; }
      if rows[id].revision != expected || !rows[id].active { return Nothing; }
      if rows[id].revision == I64_MAX { return Unavailable; }
      ghost var before := Table(rows, nextId);
      Selects(before.rows, list, id);
      ArchiveRemoves(before, list, id, expected);
      ArchiveKeepsIds(before, id, expected);
      ArchivingMovesOthers(before.rows, list, id);
      WithoutIsNoLonger(list, id);
      var tx := Archived(rows, id);
      var rest := InOrder(tx, Active(tx));
      var collided;
      tx, collided := Renumber(tx, rest);
      if collided { return Unavailable; }
      rows := tx;
      list := Without(list, id);
      reply := Places(rest);
    }

    method RestoreSlider(id: int, expected: int) returns (reply: Reply)
      requires Valid()
      modifies this
      ensures Result(Table(rows, nextId), reply) == Restore(old(Table(rows, nextId)), id, expected)
      ensures reply.Place? <==> old(id !in list && id in rows && rows[id].revision == expected && expected < I64_MAX)
      ensures reply.Place? ==>
        && list == old(list) + [id]
        && reply == Place(id, if |old(list)| <= MAX_LISTED then |old(list)| else -0x8000_0000)
        && rows == old(rows)[id := Slider(reply.order, false, true, expected + 1)]
      ensures !reply.Place? ==> rows == old(rows) && list == old(list)
      ensures Valid() <==> !reply.Place? || |old(list)| <= MAX_LISTED
    {
      assert id in rows && rows[id].active <==> id in Active(rows);
      assert id in list ==> id in rows && rows[id].active;
      if id !in rows { return Nothing; }
      if rows[id].revision != expected || rows[id].active { return Nothing; }
      var order := Wrap32(|Active(rows)|);
      if rows[id].revision == I64_MAX { return Unavailable; }
      if |list| <= MAX_LISTED { RestoreAppends(Table(rows, nextId), list, id, expected); }
      else { RestoreWrapsWhenFull(Table(rows, nextId), list, id, expected); }
      if Collides(rows, id, order) { return Unavailable; }
      rows := rows[id := rows[id].(active := true, status := false, order := order, revision := rows[id].revision + 1)];
      list := list + [id];
      reply := Place(id, order);
    }
  }
}
