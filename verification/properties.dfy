/**
 Properties that relate several calls of the record service, and the
 scenarios the service's test suite walks through, stated on the model.
 */
module Properties {
  import opened Records
  import opened Storage
  import opened Service

  /** Create on a fresh id, then get: the record comes back, stamped with
      `now` only if the caller left `created_at` unset. */
  lemma CreateThenGet(store: Store, box: Box, now: int)
    requires Valid(store)
    requires box.id !in store
    ensures CreateBox(store, box, now).status == OK
    ensures GetBox(CreateBox(store, box, now).store, box.id) == GetBoxResponse(Some(Stamp(box, now)), OK)
  {
  }

  /** Create on a taken id fails and leaves the stored record as it was. */
  lemma DuplicateCreateKeepsRecord(store: Store, box: Box, now: int)
    requires Valid(store)
    requires box.id in store
    ensures CreateBox(store, box, now).status == ERROR
    ensures GetBox(CreateBox(store, box, now).store, box.id) == GetBox(store, box.id)
  {
  }

  /** Get on an id never stored fails with no record. */
  lemma GetAbsent(store: Store, id: int)
    requires Valid(store)
    requires id !in store
    ensures GetBox(store, id) == GetBoxResponse(None, ERROR)
  {
  }

  /** Delete is idempotent in effect but not in status: the second delete of
      the same id fails and changes nothing. */
  lemma DeleteTwice(store: Store, id: int)
    requires Valid(store)
    requires id in store
    ensures DeleteBox(store, id).status == OK
    ensures DeleteBox(DeleteBox(store, id).store, id) == Written(ERROR, DeleteBox(store, id).store)
    ensures GetBox(DeleteBox(store, id).store, id).status == ERROR
  {
  }

  /** A successful update is what a later get returns, `created_at`
      included: the update replaces it too. */
  lemma UpdateThenGet(store: Store, box: Box)
    requires Valid(store)
    requires box.id in store && Boxes(store)[box.id] != box
    ensures UpdateBox(store, box).status == OK
    ensures GetBox(UpdateBox(store, box).store, box.id) == GetBoxResponse(Some(box), OK)
  {
  }

  /** Update of an id never stored fails and changes nothing. */
  lemma UpdateAbsent(store: Store, box: Box)
    requires Valid(store)
    requires box.id !in store
    ensures UpdateBox(store, box) == Written(ERROR, store)
  {
  }

  /** Writing back the record already stored is not a modification, so the
      update reports `ERROR` although the record exists. */
  lemma NoOpUpdateFails(store: Store, id: int)
    requires Valid(store)
    requires id in store
    ensures UpdateBox(store, Boxes(store)[id]) == Written(ERROR, store)
  {
  }

  /** Creating, updating or deleting one id leaves every other id's record
      as it was. */
  lemma CreateIsLocal(store: Store, box: Box, now: int, other: int)
    requires Valid(store)
    requires other != box.id
    ensures GetBox(CreateBox(store, box, now).store, other) == GetBox(store, other)
  {
  }

  lemma UpdateIsLocal(store: Store, box: Box, other: int)
    requires Valid(store)
    requires other != box.id
    ensures GetBox(UpdateBox(store, box).store, other) == GetBox(store, other)
  {
  }

  lemma DeleteIsLocal(store: Store, id: int, other: int)
    requires Valid(store)
    requires other != id
    ensures GetBox(DeleteBox(store, id).store, other) == GetBox(store, other)
  {
  }

  /** A box built with only a name and an id, once created, is among the
      records the empty category finds. */
  method DefaultCategoryFound(store: Store, name: string, id: int, now: int) returns (r: GetBoxesResponse)
    requires Valid(store)
    requires id !in store
    ensures r.status == OK
    ensures Stamp(NewBox(name, id), now) in r.boxes
  {
    var w := CreateBox(store, NewBox(name, id), now);
    r := GetBoxesInCategory(w.store, "");
    assert Stored(w.store, Stamp(NewBox(name, id), now));
  }

  /** `create_box` on an empty collection: it then holds just the stamped
      box. */
  method CreateFirst(b: Box, now: int) returns (s: Store)
    ensures Valid(s) && s.Keys == {b.id}
    ensures Boxes(s) == map[b.id := Stamp(b, now)]
  {
    var w := CreateBox(EmptyStore(), b, now);
    s := w.store;
  }

  /** The update test, for any box with id 1 created at `now`: the caller's
      object carries the stamp afterwards, so renaming it and sending it back
      succeeds, the collection still holds one record, and get returns the
      renamed box; sending it under an id never stored fails and changes
      nothing. */
  method UpdateScenario(b1: Box, newName: string, absent: int, now: int) returns (renamed: Written, missing: Written)
    requires b1.id == 1 && newName != b1.name && absent != 1
    ensures renamed.status == OK
    ensures Valid(renamed.store) && renamed.store.Keys == {1}
    ensures GetBox(renamed.store, 1) == GetBoxResponse(Some(Stamp(b1, now).(name := newName)), OK)
    ensures missing == Written(ERROR, renamed.store)
  {
    var stamped := Stamp(b1, now);
    StampKeeps(b1, now);
    var s := CreateFirst(b1, now);
    var next := stamped.(name := newName);
    UpdateThenGet(s, next);
    renamed := UpdateBox(s, next);
    assert renamed.store.Keys == Boxes(renamed.store).Keys == {1};
    UpdateAbsent(renamed.store, next.(id := absent));
    missing := UpdateBox(renamed.store, next.(id := absent));
  }

  /** The delete test, for any box with id 1: after creating it, deleting an
      id never stored fails, and deleting the box succeeds and removes it. */
  method DeleteScenario(b1: Box, absent: int, now: int) returns (missing: Status, present: Status, after: Store)
    requires b1.id == 1 && absent != 1
    ensures missing == ERROR && present == OK
    ensures Valid(after) && after.Keys == {}
  {
    var w := CreateBox(EmptyStore(), b1, now);
    var d1 := DeleteBox(w.store, absent);
    missing := d1.status;
    var d2 := DeleteBox(d1.store, b1.id);
    present := d2.status;
    after := d2.store;
  }

  /** The collection before any create. */
  function EmptyStore(): (s: Store)
    ensures Valid(s) && s.Keys == {}
  {
    map[]
  }

  /** A list with distinct ids whose members are exactly two boxes with
      different ids has length two. */
  lemma {:induction false} ExactlyTwo(r: seq<Box>, x: Box, y: Box)
    requires x.id != y.id
    requires DistinctIds(r)
    requires forall b :: b in r <==> b == x || b == y
    ensures |r| == 2 && Ids(r) == {x.id, y.id}
  {
    assert x in r && y in r;
    var i :| 0 <= i < |r| && r[i] == x;
    var j :| 0 <= j < |r| && r[j] == y;
    forall k | 0 <= k < |r| ensures r[k].id in {x.id, y.id} {
      assert r[k] in r;
    }
    assert Ids(r) == {x.id, y.id};
    IdsCard(r);
  }

  /** A list with distinct ids whose only member is `x` is `[x]`. */
  lemma {:induction false} ExactlyOne(r: seq<Box>, x: Box)
    requires DistinctIds(r)
    requires forall b :: b in r <==> b == x
    ensures r == [x]
  {
    assert x in r;
    var i :| 0 <= i < |r| && r[i] == x;
    forall k | 0 <= k < |r| ensures r[k] == x {
      assert r[k] in r;
    }
    assert Ids(r) == {x.id};
    IdsCard(r);
  }

  /** A map holding four given records under their four distinct ids holds
      those records and no others. */
  lemma FourHeld(m: map<int, Box>, a: Box, b: Box, c: Box, d: Box)
    requires a.id != b.id && a.id != c.id && a.id != d.id
    requires b.id != c.id && b.id != d.id && c.id != d.id
    requires m == map[a.id := a, b.id := b, c.id := c, d.id := d]
    ensures forall x: Box :: x.id in m && m[x.id] == x <==> x == a || x == b || x == c || x == d
  {
  }

  /** `create_box` keeps the caller's id and category. */
  lemma StampKeeps(b: Box, now: int)
    ensures Stamp(b, now).id == b.id && Stamp(b, now).category == b.category
  {
  }

  /** Four ids, pairwise different. */
  predicate Distinct4(a: Box, b: Box, c: Box, d: Box) {
    a.id != b.id && a.id != c.id && a.id != d.id && b.id != c.id && b.id != d.id && c.id != d.id
  }

  /** Two `create_box` calls on ids not yet stored, the first reading the
      clock as `ta`, the second as `tb`: both boxes are added, stamped, and
      nothing else changes. */
  method AddPair(store: Store, a: Box, b: Box, ta: int, tb: int) returns (s: Store)
    requires Valid(store)
    requires a.id != b.id && a.id !in store && b.id !in store
    ensures Valid(s)
    ensures Boxes(s) == Boxes(store)[a.id := Stamp(a, ta)][b.id := Stamp(b, tb)]
  {
    var w1 := CreateBox(store, a, ta);
    var w2 := CreateBox(w1.store, b, tb);
    s := w2.store;
  }

  /** The collection of the query tests: `a`, `b`, `c` and `d` created in
      that order on an empty collection, at clock readings `t1` to `t4`. */
  method QueryStore(a: Box, b: Box, c: Box, d: Box, t1: int, t2: int, t3: int, t4: int) returns (s: Store)
    requires Distinct4(a, b, c, d)
    ensures Valid(s)
    ensures Boxes(s) == map[a.id := Stamp(a, t1), b.id := Stamp(b, t2), c.id := Stamp(c, t3), d.id := Stamp(d, t4)]
  {
    var s1 := AddPair(EmptyStore(), a, b, t1, t2);
    assert Boxes(s1) == map[a.id := Stamp(a, t1), b.id := Stamp(b, t2)];
    assert s1.Keys == {a.id, b.id};
    s := AddPair(s1, c, d, t3, t4);
  }

  /** A valid collection whose records are four boxes with distinct ids
      stores exactly those four. */
  lemma {:induction false} FourStored(s: Store, a: Box, b: Box, c: Box, d: Box)
    requires Distinct4(a, b, c, d)
    requires Valid(s)
    requires Boxes(s) == map[a.id := a, b.id := b, c.id := c, d.id := d]
    ensures forall x :: Stored(s, x) <==> x == a || x == b || x == c || x == d
  {
    FourHeld(Boxes(s), a, b, c, d);
  }

  /** A valid collection whose records are two boxes with distinct ids
      stores exactly those two. */
  lemma {:induction false} TwoStored(s: Store, a: Box, b: Box)
    requires a.id != b.id
    requires Valid(s)
    requires Boxes(s) == map[a.id := a, b.id := b]
    ensures forall x :: Stored(s, x) <==> x == a || x == b
  {
    var m := Boxes(s);
    forall x | Stored(s, x) ensures x == a || x == b {
      assert x.id in m && m[x.id] == x;
    }
  }

  /** A query over a collection of exactly four records, with distinct ids,
      whose filter admits `a` and `b` only, returns those two. */
  lemma {:induction false} PickTwo(s: Store, r: seq<Box>, f: Filter, a: Box, b: Box, c: Box, d: Box)
    requires Valid(s) && Distinct4(a, b, c, d)
    requires forall x :: Stored(s, x) <==> x == a || x == b || x == c || x == d
    requires forall x :: x in r <==> Stored(s, x) && Admits(f, x)
    requires DistinctIds(r)
    requires Admits(f, a) && Admits(f, b) && !Admits(f, c) && !Admits(f, d)
    ensures |r| == 2 && Ids(r) == {a.id, b.id}
  {
    ExactlyTwo(r, a, b);
  }

  /** A query over a collection of exactly four records, with distinct ids,
      whose filter admits `a` only, returns just `a`. */
  lemma {:induction false} PickOne(s: Store, r: seq<Box>, f: Filter, a: Box, b: Box, c: Box, d: Box)
    requires Valid(s) && Distinct4(a, b, c, d)
    requires forall x :: Stored(s, x) <==> x == a || x == b || x == c || x == d
    requires forall x :: x in r <==> Stored(s, x) && Admits(f, x)
    requires DistinctIds(r)
    requires Admits(f, a) && !Admits(f, b) && !Admits(f, c) && !Admits(f, d)
    ensures r == [a]
  {
    ExactlyOne(r, a);
  }

  /** The service query a filter stands for: `get_boxes`,
      `get_boxes_in_category` or `get_boxes_in_time_range`. */
  method Query(s: Store, f: Filter) returns (r: seq<Box>)
    requires Valid(s)
    ensures forall x :: x in r <==> Stored(s, x) && Admits(f, x)
    ensures DistinctIds(r)
  {
    match f
    case Everything =>
      var w := GetBoxes(s);
      r := w.boxes;
    case CategoryIs(c) =>
      var w := GetBoxesInCategory(s, c);
      r := w.boxes;
    case CreatedBetween(lo, hi) =>
      var w := GetBoxesInTimeRange(s, lo, hi);
      r := w.boxes;
  }

  /** The query on a collection of exactly four records whose filter admits
      `a` and `b` only. */
  method SelectTwo(s: Store, f: Filter, a: Box, b: Box, c: Box, d: Box) returns (r: seq<Box>)
    requires Valid(s) && Distinct4(a, b, c, d)
    requires forall x :: Stored(s, x) <==> x == a || x == b || x == c || x == d
    requires Admits(f, a) && Admits(f, b) && !Admits(f, c) && !Admits(f, d)
    ensures |r| == 2 && Ids(r) == {a.id, b.id}
  {
    r := Query(s, f);
    PickTwo(s, r, f, a, b, c, d);
  }

  /** The query on a collection of exactly four records whose filter admits
      `a` only. */
  method SelectOne(s: Store, f: Filter, a: Box, b: Box, c: Box, d: Box) returns (r: seq<Box>)
    requires Valid(s) && Distinct4(a, b, c, d)
    requires forall x :: Stored(s, x) <==> x == a || x == b || x == c || x == d
    requires Admits(f, a) && !Admits(f, b) && !Admits(f, c) && !Admits(f, d)
    ensures r == [a]
  {
    r := Query(s, f);
    PickOne(s, r, f, a, b, c, d);
  }

  /** The category test, for any four boxes with ids 1 to 4, the first two in
      category `c1`, the third in `c2`, the fourth created without a
      category: on an empty collection the query finds nothing; after the
      creates, `c1` finds exactly boxes 1 and 2, `c2` exactly box 3, and the
      empty category exactly box 4. */
  method CategoryScenario(b1: Box, b2: Box, b3: Box, b4: Box, c1: string, c2: string, n1: int, n2: int, n3: int, n4: int)
    returns (none: seq<Box>, first: seq<Box>, second: seq<Box>, default: seq<Box>)
    requires b1.id == 1 && b2.id == 2 && b3.id == 3 && b4.id == 4
    requires b1.category == c1 && b2.category == c1 && b3.category == c2 && b4.category == ""
    requires c1 != c2 && c1 != "" && c2 != ""
    ensures none == []
    ensures |first| == 2 && Ids(first) == {1, 2}
    ensures |second| == 1 && second[0].id == 3
    ensures |default| == 1 && default[0].id == 4
  {
    var e := GetBoxesInCategory(EmptyStore(), c1);
    none := e.boxes;
    var s := QueryStore(b1, b2, b3, b4, n1, n2, n3, n4);
    var x1, x2, x3, x4 := Stamp(b1, n1), Stamp(b2, n2), Stamp(b3, n3), Stamp(b4, n4);
    StampKeeps(b1, n1);
    StampKeeps(b2, n2);
    StampKeeps(b3, n3);
    StampKeeps(b4, n4);
    FourStored(s, x1, x2, x3, x4);
    assert Admits(CategoryIs(c1), x1) && Admits(CategoryIs(c1), x2);
    assert !Admits(CategoryIs(c1), x3) && !Admits(CategoryIs(c1), x4);
    first := SelectTwo(s, CategoryIs(c1), x1, x2, x3, x4);
    assert Admits(CategoryIs(c2), x3) && !Admits(CategoryIs(c2), x1);
    assert !Admits(CategoryIs(c2), x2) && !Admits(CategoryIs(c2), x4);
    second := SelectOne(s, CategoryIs(c2), x3, x1, x2, x4);
    assert Admits(CategoryIs(""), x4) && !Admits(CategoryIs(""), x1);
    assert !Admits(CategoryIs(""), x2) && !Admits(CategoryIs(""), x3);
    default := SelectOne(s, CategoryIs(""), x4, x1, x2, x3);
  }

  /** The time-range test, for four boxes with ids 1 to 4 created without a
      timestamp, each create reading the clock once: boxes 1 and 2 at `t1`
      and `t2`, before `end1` is read; boxes 3 and 4 at `t3` and `t4`, at
      least three time units after `end1`, with `end2` read at most two
      units after `t3`. On an empty collection the query finds nothing; after
      the creates, the range `[start, end1]` finds exactly boxes 1 and 2, and
      the range `[end2 - 2, end2]` exactly boxes 3 and 4. */
  method TimeRangeScenario(b1: Box, b2: Box, b3: Box, b4: Box, start: int, t1: int, t2: int, end1: int, t3: int, t4: int, end2: int)
    returns (none: seq<Box>, early: seq<Box>, late: seq<Box>)
    requires b1.id == 1 && b2.id == 2 && b3.id == 3 && b4.id == 4
    requires b1.createdAt.None? && b2.createdAt.None? && b3.createdAt.None? && b4.createdAt.None?
    requires start <= t1 <= t2 <= end1 && end1 + 3 <= t3 <= t4 <= end2 <= t3 + 2
    ensures none == []
    ensures |early| == 2 && Ids(early) == {1, 2}
    ensures |late| == 2 && Ids(late) == {3, 4}
  {
    var e := GetBoxesInTimeRange(EmptyStore(), start, end1);
    none := e.boxes;
    var s := QueryStore(b1, b2, b3, b4, t1, t2, t3, t4);
    var x1, x2, x3, x4 := Stamp(b1, t1), Stamp(b2, t2), Stamp(b3, t3), Stamp(b4, t4);
    StampKeeps(b1, t1);
    StampKeeps(b2, t2);
    StampKeeps(b3, t3);
    StampKeeps(b4, t4);
    FourStored(s, x1, x2, x3, x4);
    early := SelectTwo(s, CreatedBetween(start, end1), x1, x2, x3, x4);
    late := SelectTwo(s, CreatedBetween(end2 - 2, end2), x3, x4, x1, x2);
  }

  /** The `get_boxes` test, for two boxes with ids 1 and 2: an empty
      collection lists nothing; after creating both, the listing holds
      exactly the two. */
  method ListScenario(b1: Box, b2: Box, n1: int, n2: int) returns (none: seq<Box>, all: seq<Box>)
    requires b1.id == 1 && b2.id == 2
    ensures none == []
    ensures |all| == 2 && Ids(all) == {1, 2}
  {
    var e := GetBoxes(EmptyStore());
    none := e.boxes;
    var s := AddPair(EmptyStore(), b1, b2, n1, n2);
    var x1, x2 := Stamp(b1, n1), Stamp(b2, n2);
    StampKeeps(b1, n1);
    StampKeeps(b2, n2);
    TwoStored(s, x1, x2);
    var r := GetBoxes(s);
    all := r.boxes;
    ExactlyTwo(all, x1, x2);
  }
}
