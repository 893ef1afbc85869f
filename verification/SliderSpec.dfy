/**
 * Sliders and their places. The table keeps a `sort_order` per row; what it stands for is the list
 * of the active sliders, and every operation is an operation on that list.
 */
module SliderSpec {
  import opened Base

  datatype Slider = Slider(order: int, status: bool, active: bool, revision: I64)

  /** `nextId` is the sequence behind the primary key. */
  datatype Table = Table(rows: map<int, Slider>, nextId: int)

  datatype Reply = Nothing | Place(id: int, order: int) | Places(ids: seq<int>) | Unavailable

  datatype Result = Result(table: Table, reply: Reply)

  function Active(rows: map<int, Slider>): set<int> {
    set x | x in rows && rows[x].active
  }

  /** `count as i32` */
  function Wrap32(n: int): int {
    (n + 0x8000_0000) % 0x1_0000_0000 - 0x8000_0000
  }

  /** `ORDER BY sort_order, id` */
  predicate Precedes(rows: map<int, Slider>, a: int, b: int)
    requires a in rows && b in rows
  {
    rows[a].order < rows[b].order || (rows[a].order == rows[b].order && a <= b)
  }

  predicate FirstOf(rows: map<int, Slider>, ids: set<int>, m: int)
    requires ids <= rows.Keys
  {
    m in ids && forall x :: x in ids ==> Precedes(rows, m, x)
  }

  ghost function Pick<T>(s: set<T>): (x: T)
    requires s != {}
    ensures x in s
  {
    var x :| x in s;
    x
  }

  lemma {:induction false} FirstExists(rows: map<int, Slider>, ids: set<int>)
    requires ids <= rows.Keys && ids != {}
    ensures exists m :: FirstOf(rows, ids, m)
  {
    var x := Pick(ids);
    if ids == {x} {
      assert FirstOf(rows, ids, x);
    } else {
      FirstExists(rows, ids - {x});
      var m :| FirstOf(rows, ids - {x}, m);
      forall y | y in ids ensures Precedes(rows, if Precedes(rows, m, x) then m else x, y) {
        assert y == x || y in ids - {x};
      }
      if Precedes(rows, m, x) { assert FirstOf(rows, ids, m); } else { assert FirstOf(rows, ids, x); }
    }
  }

  function First(rows: map<int, Slider>, ids: set<int>): (m: int)
    requires ids <= rows.Keys && ids != {}
    ensures FirstOf(rows, ids, m)
  {
    FirstExists(rows, ids);
    var m :| m in ids && FirstOf(rows, ids, m);
    m
  }

  /** The selected rows in the order that the query returns them. */
  function InOrder(rows: map<int, Slider>, ids: set<int>): (s: seq<int>)
    requires ids <= rows.Keys
    ensures forall x :: x in s ==> x in ids
    decreases |ids|
  {
    if ids == {} then [] else
      var m := First(rows, ids);
      [m] + InOrder(rows, ids - {m})
  }

  /** The unique index on the order of the active rows would refuse `order` for row `id`. */
  predicate Collides(rows: map<int, Slider>, id: int, order: int) {
    exists x :: x in rows && x != id && rows[x].active && rows[x].order == order
  }

  function Create(t: Table, publish: bool, schemaReady: bool): Result {
    if !schemaReady then Result(t, Nothing)
    else
      var order := Wrap32(|Active(t.rows)|);
      if Collides(t.rows, t.nextId, order) then Result(t, Unavailable)
      else Result(Table(t.rows[t.nextId := Slider(order, publish, true, 1)], t.nextId + 1), Place(t.nextId, order))
  }

  /** The loop's writes to the first `n` of `ids`. */
  function Renumbered(rows: map<int, Slider>, ids: seq<int>, n: nat): (r: map<int, Slider>)
    requires n <= |ids| && (forall x :: x in ids ==> x in rows)
    ensures r.Keys == rows.Keys
  {
    if n == 0 then rows
    else
      var r := Renumbered(rows, ids, n - 1);
      r[ids[n - 1] := r[ids[n - 1]].(order := Wrap32(n - 1))]
  }

  function Archived(rows: map<int, Slider>, id: int): map<int, Slider>
    requires id in rows && rows[id].revision < I64_MAX
  {
    rows[id := rows[id].(active := false, status := false, revision := rows[id].revision + 1)]
  }

  function Archive(t: Table, id: int, expected: int): Result {
    if id !in t.rows || t.rows[id].revision != expected || !t.rows[id].active then Result(t, Nothing)
    else if t.rows[id].revision == I64_MAX then Result(t, Unavailable)
    else
      var rows := Archived(t.rows, id);
      var rest := InOrder(rows, Active(rows));
      Result(t.(rows := Renumbered(rows, rest, |rest|)), Places(rest))
  }

  function Restore(t: Table, id: int, expected: int): Result {
    if id !in t.rows || t.rows[id].revision != expected || t.rows[id].active then Result(t, Nothing)
    else
      var order := Wrap32(|Active(t.rows)|);
      if t.rows[id].revision == I64_MAX || Collides(t.rows, id, order) then Result(t, Unavailable)
      else
        var row := t.rows[id].(active := true, status := false, order := order, revision := t.rows[id].revision + 1);
        Result(t.(rows := t.rows[id := row]), Place(id, order))
  }

  // ----- the list behind the table -----

  predicate Distinct(ids: seq<int>) {
    forall i, j :: 0 <= i < j < |ids| ==> ids[i] != ids[j]
  }

  /** The active rows are exactly `ids`, and each carries its position as its order. */
  predicate Lists(rows: map<int, Slider>, ids: seq<int>) {
    && Distinct(ids)
    && (forall x :: x in Active(rows) ==> x in ids)
    && (forall k :: 0 <= k < |ids| ==> ids[k] in rows && rows[ids[k]].active && rows[ids[k]].order == k)
  }

  function Without(ids: seq<int>, id: int): (r: seq<int>)
    ensures forall x :: x in r <==> x in ids && x != id
  {
    if ids == [] then []
    else if ids[0] == id then Without(ids[1..], id)
    else [ids[0]] + Without(ids[1..], id)
  }

  predicate SameElements(some: set<int>, ids: seq<int>) {
    (forall x :: x in some ==> x in ids) && (forall x :: x in ids ==> x in some)
  }

  lemma NothingIn(some: set<int>, ids: seq<int>)
    requires SameElements(some, ids) && ids == []
    ensures some == {}
  {
    if some != {} {
      var x: int := Pick(some);
      assert false;
    }
  }

  /** Taking the head away from both. */
  lemma TailElements(some: set<int>, ids: seq<int>)
    requires SameElements(some, ids) && Distinct(ids) && ids != []
    ensures ids[0] in some && SameElements(some - {ids[0]}, ids[1..]) && Distinct(ids[1..])
  {
    assert ids[0] in ids;
    forall x | x in ids[1..] ensures x in some - {ids[0]} {
      var i :| 0 <= i < |ids[1..]| && ids[1..][i] == x;
      assert ids[i + 1] == x;
    }
    forall x | x in some - {ids[0]} ensures x in ids[1..] {
      var i :| 0 <= i < |ids| && ids[i] == x;
      assert ids[1..][i - 1] == x;
    }
  }

  lemma {:induction false} CountOfList(ids: seq<int>, some: set<int>)
    requires Distinct(ids) && SameElements(some, ids)
    ensures |some| == |ids|
  {
    if ids == [] {
      NothingIn(some, ids);
    } else {
      TailElements(some, ids);
      CountOfList(ids[1..], some - {ids[0]});
    }
  }

  predicate Ascending(rows: map<int, Slider>, ids: seq<int>) {
    && (forall k :: 0 <= k < |ids| ==> ids[k] in rows)
    && (forall i, j :: 0 <= i < j < |ids| ==> rows[ids[i]].order < rows[ids[j]].order)
  }

  lemma HeadIsFirst(rows: map<int, Slider>, ids: seq<int>, some: set<int>)
    requires some <= rows.Keys && Ascending(rows, ids) && SameElements(some, ids) && ids != []
    ensures ids[0] in some && First(rows, some) == ids[0]
  {
    var head := ids[0];
    assert head in ids && head in some;
    var m := First(rows, some);
    var k :| 0 <= k < |ids| && ids[k] == m;
    assert Precedes(rows, m, ids[0]);
  }

  lemma TailAscends(rows: map<int, Slider>, ids: seq<int>)
    requires Ascending(rows, ids) && ids != []
    ensures Ascending(rows, ids[1..])
  {
  }

  /** A query for the elements of an ascending list returns the list. */
  lemma {:induction false} QueryReturnsList(rows: map<int, Slider>, ids: seq<int>, some: set<int>)
    requires some <= rows.Keys && Ascending(rows, ids) && Distinct(ids) && SameElements(some, ids)
    ensures InOrder(rows, some) == ids
    decreases |ids|
  {
    if ids == [] {
      NothingIn(some, ids);
    } else {
      TailElements(some, ids);
      HeadIsFirst(rows, ids, some);
      TailAscends(rows, ids);
      QueryReturnsList(rows, ids[1..], some - {ids[0]});
      assert ids == [ids[0]] + ids[1..];
    }
  }

  /** Leaving one element out cuts the list where it was. */
  lemma {:induction false} WithoutCuts(ids: seq<int>, id: int, k: nat)
    requires Distinct(ids) && k < |ids| && ids[k] == id
    ensures Without(ids, id) == ids[..k] + ids[k + 1..]
    decreases |ids|
  {
    if k == 0 {
      WithoutNone(ids[1..], id);
    } else {
      WithoutCuts(ids[1..], id, k - 1);
    }
  }

  lemma {:induction false} WithoutNone(ids: seq<int>, id: int)
    requires id !in ids
    ensures Without(ids, id) == ids
  {
    if ids != [] { WithoutNone(ids[1..], id); }
  }

  /** After the loop, the rows of a list without repeats carry their positions; no other row changed. */
  lemma {:induction false} RenumberedPlaces(rows: map<int, Slider>, ids: seq<int>, n: nat)
    requires n <= |ids| <= 0x8000_0000 && Distinct(ids) && (forall x :: x in ids ==> x in rows)
    ensures var r := Renumbered(rows, ids, n);
      && (forall x :: x in rows && x !in ids[..n] ==> r[x] == rows[x])
      && (forall k :: 0 <= k < n ==> r[ids[k]] == rows[ids[k]].(order := k))
  {
    if n > 0 {
      RenumberedPlaces(rows, ids, n - 1);
      var last, before, r := ids[n - 1], Renumbered(rows, ids, n - 1), Renumbered(rows, ids, n);
      assert r == before[last := before[last].(order := n - 1)];
      assert forall k :: 0 <= k < n - 1 ==> ids[k] != last;
      forall x | x in rows && x !in ids[..n] ensures r[x] == rows[x] {
        assert x != last && x !in ids[..n - 1];
      }
      assert before[last] == rows[last];
    }
  }

  // ----- each operation on the list -----

  const MAX_LISTED := 0x7FFF_FFFF

  lemma ListedCount(rows: map<int, Slider>, ids: seq<int>)
    requires Lists(rows, ids)
    ensures |Active(rows)| == |ids| && SameElements(Active(rows), ids)
  {
    CountOfList(ids, Active(rows));
  }

  lemma NewPlaceIsFree(rows: map<int, Slider>, ids: seq<int>, id: int)
    requires Lists(rows, ids)
    ensures !Collides(rows, id, |ids|)
  {
    forall x | x in rows && rows[x].active ensures rows[x].order < |ids| {
      assert x in Active(rows);
      var k :| 0 <= k < |ids| && ids[k] == x;
    }
  }

  /** A new slider goes to the end of the list. */
  lemma CreateAppends(t: Table, ids: seq<int>, publish: bool)
    requires Lists(t.rows, ids) && t.nextId !in t.rows && |ids| <= MAX_LISTED
    ensures var r := Create(t, publish, true);
      Lists(r.table.rows, ids + [t.nextId]) && r.reply == Place(t.nextId, |ids|)
  {
    ListedCount(t.rows, ids);
    NewPlaceIsFree(t.rows, ids, t.nextId);
  }

  /** Beyond 2^31 active sliders the place no longer fits the column's width, and the list is lost. */
  lemma CreateWrapsWhenFull(t: Table, ids: seq<int>, publish: bool)
    requires Lists(t.rows, ids) && t.nextId !in t.rows && |ids| == MAX_LISTED + 1
    ensures var r := Create(t, publish, true);
      r.reply == Place(t.nextId, -0x8000_0000) && !Lists(r.table.rows, ids + [t.nextId])
  {
    ListedCount(t.rows, ids);
    forall x | x in t.rows && t.rows[x].active ensures 0 <= t.rows[x].order {
      assert x in Active(t.rows);
      var k :| 0 <= k < |ids| && ids[k] == x;
    }
    var rows := Create(t, publish, true).table.rows;
    assert (ids + [t.nextId])[|ids|] == t.nextId && rows[t.nextId].order != |ids|;
  }

  /** A restored slider goes to the end of the list; a stale revision or an active row changes nothing. */
  lemma RestoreAppends(t: Table, ids: seq<int>, id: int, expected: int)
    requires Lists(t.rows, ids) && |ids| <= MAX_LISTED
    ensures var r := Restore(t, id, expected);
      if id in t.rows && t.rows[id].revision == expected && id !in ids && expected < I64_MAX
      then Lists(r.table.rows, ids + [id]) && r.reply == Place(id, |ids|) && r.table.rows[id].revision == expected + 1
      else r.table == t
  {
    ListedCount(t.rows, ids);
    NewPlaceIsFree(t.rows, ids, id);
  }

  /** So does a slider restored to a list of 2^31. */
  lemma RestoreWrapsWhenFull(t: Table, ids: seq<int>, id: int, expected: int)
    requires Lists(t.rows, ids) && |ids| == MAX_LISTED + 1
    requires id in t.rows && t.rows[id].revision == expected && id !in ids && expected < I64_MAX
    ensures var r := Restore(t, id, expected); r.reply == Place(id, -0x8000_0000) && !Lists(r.table.rows, ids + [id])
  {
    ListedCount(t.rows, ids);
    forall x | x in t.rows && t.rows[x].active ensures 0 <= t.rows[x].order {
      assert x in Active(t.rows);
      var k :| 0 <= k < |ids| && ids[k] == x;
    }
    var rows := Restore(t, id, expected).table.rows;
    assert (ids + [id])[|ids|] == id && rows[id].order != |ids|;
  }

  lemma {:induction false} ListWithout(rows: map<int, Slider>, ids: seq<int>, id: int, k: nat)
    requires Lists(rows, ids) && k < |ids| && ids[k] == id && rows[id].revision < I64_MAX
    ensures var after, rest := Archived(rows, id), Without(ids, id);
      && rest == ids[..k] + ids[k + 1..] && Distinct(rest) && Ascending(after, rest)
      && SameElements(Active(after), rest)
  {
    WithoutCuts(ids, id, k);
    var after, rest := Archived(rows, id), Without(ids, id);
    forall i | 0 <= i < |rest| ensures rest[i] == ids[if i < k then i else i + 1] {}
    forall x | x in Active(after) ensures x in rest {
      assert x in Active(rows);
    }
  }

  /** Archiving a listed row renumbers the rest of the list. */
  lemma {:induction false} ArchiveLists(t: Table, ids: seq<int>, id: int)
    requires Lists(t.rows, ids) && |ids| <= MAX_LISTED + 1 && id in ids && id in t.rows && t.rows[id].revision < I64_MAX
    ensures var after, rest := Archived(t.rows, id), Without(ids, id);
      && InOrder(after, Active(after)) == rest && (forall x :: x in rest ==> x in after)
      && Lists(Renumbered(after, rest, |rest|), rest) && Renumbered(after, rest, |rest|)[id] == after[id]
  {
    var k :| 0 <= k < |ids| && ids[k] == id;
    ListWithout(t.rows, ids, id, k);
    var after, rest := Archived(t.rows, id), Without(ids, id);
    QueryReturnsList(after, rest, Active(after));
    RenumberedList(after, rest);
    RenumberedPlaces(after, rest, |rest|);
    assert rest[..|rest|] == rest;
  }

  /** The survivors move up, in the order they had. */
  lemma {:induction false} ArchiveRemoves(t: Table, ids: seq<int>, id: int, expected: int)
    requires Lists(t.rows, ids) && |ids| <= MAX_LISTED + 1
    ensures var r := Archive(t, id, expected);
      if id in ids && t.rows[id].revision == expected && expected < I64_MAX
      then Lists(r.table.rows, Without(ids, id)) && r.reply == Places(Without(ids, id))
        && id in r.table.rows && r.table.rows[id].revision == expected + 1
      else r.table == t
  {
    assert id in t.rows && t.rows[id].active ==> id in Active(t.rows);
    if id in ids && t.rows[id].revision == expected && expected < I64_MAX { ArchiveLists(t, ids, id); }
  }

  lemma {:induction false} RenumberedList(rows: map<int, Slider>, ids: seq<int>)
    requires |ids| <= MAX_LISTED + 1 && Distinct(ids) && Ascending(rows, ids) && SameElements(Active(rows), ids)
    ensures Lists(Renumbered(rows, ids, |ids|), ids)
  {
    RenumberedPlaces(rows, ids, |ids|);
    assert ids[..|ids|] == ids;
    var r := Renumbered(rows, ids, |ids|);
    forall x | x in Active(r) ensures x in ids {
      assert x in ids || x in Active(rows);
    }
  }

  /** While the loop runs, no two active rows ever share a place: the unique index never objects. */
  lemma {:induction false} LoopNeverCollides(rows: map<int, Slider>, ids: seq<int>, n: nat)
    requires |ids| <= MAX_LISTED + 1 && Distinct(ids) && Ascending(rows, ids) && SameElements(Active(rows), ids)
    requires n < |ids| && (forall k :: 0 <= k < |ids| ==> k <= rows[ids[k]].order)
    ensures !Collides(Renumbered(rows, ids, n), ids[n], n)
  {
    RenumberedPlaces(rows, ids, n);
    var r := Renumbered(rows, ids, n);
    forall x | x in r && x != ids[n] && r[x].active ensures r[x].order != n {
      if x in ids[..n] {
        var k :| 0 <= k < n && ids[k] == x;
      } else {
        assert r[x] == rows[x] && x in Active(rows);
        var k :| 0 <= k < |ids| && ids[k] == x;
        assert ids[k] !in ids[..n];
        assert k > n;
      }
    }
  }

  // ----- runs -----

  datatype Op = New(publish: bool, schemaReady: bool) | Hide(id: int, expected: int) | Show(id: int, expected: int)

  function Do(t: Table, op: Op): Result {
    match op
    case New(publish, schemaReady) => Create(t, publish, schemaReady)
    case Hide(id, expected) => Archive(t, id, expected)
    case Show(id, expected) => Restore(t, id, expected)
  }

  function After(t: Table, ops: seq<Op>): Table
    decreases |ops|
  {
    if |ops| == 0 then t else After(Do(t, ops[0]).table, ops[1..])
  }

  /** The same operations on the list: append, remove, or nothing. */
  function ListDo(t: Table, ids: seq<int>, op: Op): seq<int> {
    match op
    case New(_, schemaReady) => if schemaReady then ids + [t.nextId] else ids
    case Hide(id, expected) =>
      if id in ids && id in t.rows && t.rows[id].revision == expected && expected < I64_MAX then Without(ids, id)
        else ids
    case Show(id, expected) =>
      if id !in ids && id in t.rows && t.rows[id].revision == expected && expected < I64_MAX then ids + [id] else ids
  }

  function ListAfter(t: Table, ids: seq<int>, ops: seq<Op>): seq<int>
    decreases |ops|
  {
    if |ops| == 0 then ids else ListAfter(Do(t, ops[0]).table, ListDo(t, ids, ops[0]), ops[1..])
  }

  predicate Numbered(t: Table) {
    forall x :: x in t.rows ==> x < t.nextId
  }

  lemma ArchiveKeepsIds(t: Table, id: int, expected: int)
    ensures Archive(t, id, expected).table.rows.Keys == t.rows.Keys && Archive(t, id, expected).table.nextId == t.nextId
  {
  }

  /** The operation puts a slider at the end of the list. */
  predicate Appends(t: Table, ids: seq<int>, op: Op) {
    match op
    case New(_, schemaReady) => schemaReady
    case Hide(_, _) => false
    case Show(id, expected) => id !in ids && id in t.rows && t.rows[id].revision == expected && expected < I64_MAX
  }

  /** The place that an append needs is within the column. */
  predicate Fits(t: Table, ids: seq<int>, op: Op) {
    Appends(t, ids, op) ==> |ids| <= MAX_LISTED
  }

  /** The rows number the list, and new ids are free. */
  predicate Follows(t: Table, ids: seq<int>) {
    Lists(t.rows, ids) && Numbered(t)
  }

  /** An operation does to the list what it says exactly when the place it gives fits the column. */
  lemma StepFollowsExactly(t: Table, ids: seq<int>, op: Op)
    requires Follows(t, ids) && |ids| <= MAX_LISTED + 1
    ensures Follows(Do(t, op).table, ListDo(t, ids, op)) <==> Fits(t, ids, op)
    ensures Fits(t, ids, op) ==> |ListDo(t, ids, op)| <= MAX_LISTED + 1
  {
    match op
    case New(publish, schemaReady) =>
      if schemaReady {
        if |ids| <= MAX_LISTED { CreateAppends(t, ids, publish); } else { CreateWrapsWhenFull(t, ids, publish); }
      }
    case Hide(id, expected) =>
      ArchiveRemoves(t, ids, id, expected);
      ArchiveKeepsIds(t, id, expected);
      WithoutIsNoLonger(ids, id);
    case Show(id, expected) =>
      if |ids| <= MAX_LISTED { RestoreAppends(t, ids, id, expected); }
      else if Appends(t, ids, op) { RestoreWrapsWhenFull(t, ids, id, expected); }
      else { StaleRestore(t, ids, id, expected); }
  }

  lemma StaleRestore(t: Table, ids: seq<int>, id: int, expected: int)
    requires Lists(t.rows, ids) && !Appends(t, ids, Show(id, expected))
    ensures Restore(t, id, expected).table == t
  {
    assert id in t.rows && t.rows[id].active <==> id in Active(t.rows);
  }

  lemma {:induction false} WithoutIsNoLonger(ids: seq<int>, id: int)
    ensures |Without(ids, id)| <= |ids|
  {
    if ids != [] { WithoutIsNoLonger(ids[1..], id); }
  }

  predicate FollowsThroughout(t: Table, ids: seq<int>, ops: seq<Op>)
    decreases |ops|
  {
    Follows(t, ids) && (|ops| == 0 || FollowsThroughout(Do(t, ops[0]).table, ListDo(t, ids, ops[0]), ops[1..]))
  }

  predicate FitsThroughout(t: Table, ids: seq<int>, ops: seq<Op>)
    decreases |ops|
  {
    |ops| == 0 || (Fits(t, ids, ops[0]) && FitsThroughout(Do(t, ops[0]).table, ListDo(t, ids, ops[0]), ops[1..]))
  }

  /**
   * From any table that numbers a list, and over any run, the active sliders stay at the places 0, 1,
   * ..., n - 1 of the list that the same operations build: creations and restorations at the end,
   * archived ones taken out, everybody else in the same relative order. They do exactly when no append
   * meets a list of 2^31.
   */
  lemma {:induction false} RunFollowsExactly(t: Table, ids: seq<int>, ops: seq<Op>)
    requires Follows(t, ids) && |ids| <= MAX_LISTED + 1
    ensures FollowsThroughout(t, ids, ops) <==> FitsThroughout(t, ids, ops)
    ensures FitsThroughout(t, ids, ops) ==> Follows(After(t, ops), ListAfter(t, ids, ops))
    decreases |ops|
  {
    if |ops| != 0 {
      StepFollowsExactly(t, ids, ops[0]);
      if Fits(t, ids, ops[0]) { RunFollowsExactly(Do(t, ops[0]).table, ListDo(t, ids, ops[0]), ops[1..]); }
    }
  }

  /** An empty table numbers the empty list. */
  lemma {:induction false} PlacesFollowTheList(nextId: int, ops: seq<Op>)
    requires FitsThroughout(Table(map[], nextId), [], ops)
    ensures Lists(After(Table(map[], nextId), ops).rows, ListAfter(Table(map[], nextId), [], ops))
  {
    assert Active(map[]) == {};
    RunFollowsExactly(Table(map[], nextId), [], ops);
  }
}
