/**
 The box collection of the document store, reduced to what the record service
 relies on: documents keyed by their `_id`, single-document insert, `$set`
 update and delete reporting how many documents they touched, and `find` with
 an equality filter on `category` or an inclusive range filter on
 `created_at`. Indexes only speed queries up and are not modelled.
 */
module Storage {
  import opened Records

  /** The collection: each document under the integer value of its `_id`. */
  type Store = map<int, Doc>

  /** The document under key `k` has the written shape and `_id` `k`. */
  predicate Holds(k: int, d: Doc) {
    IsBoxDoc(d) && d[StorageId] == Int(k)
  }

  /** Every document in the collection was written by the service. */
  predicate Valid(store: Store) {
    forall k :: k in store ==> Holds(k, store[k])
  }

  /** The collection as callers see it: every document read back with
      `dict_to_box`. */
  function Boxes(store: Store): (m: map<int, Box>)
    requires Valid(store)
    ensures m.Keys == store.Keys
    ensures forall k :: k in m ==> m[k].id == k
  {
    map k | k in store :: ReadDoc(store[k])
  }

  /** The record under key `k` is written as the document stored there. */
  lemma {:induction false} StoredDoc(store: Store, k: int)
    requires Valid(store)
    requires k in store
    ensures BoxToDoc(Boxes(store)[k]) == store[k]
  {
    ReadDocWrites(store[k]);
  }

  /** `b` is exactly the record stored under its id. */
  predicate Stored(store: Store, b: Box)
    requires Valid(store)
  {
    b.id in store && Boxes(store)[b.id] == b
  }

  /** Two valid collections holding the same document under `j` hold the
      same record there. */
  lemma SameDocSameBox(s: Store, t: Store, j: int)
    requires Valid(s) && Valid(t)
    requires j in s && j in t && s[j] == t[j]
    ensures Boxes(s)[j] == Boxes(t)[j]
  {
  }

  /** Storing a well-shaped document under its own `_id` keeps the
      collection valid and changes the abstract view at that key only. */
  lemma {:induction false} PutDoc(store: Store, k: int, d: Doc)
    requires Valid(store)
    requires Holds(k, d)
    ensures Valid(store[k := d])
    ensures Boxes(store[k := d]) == Boxes(store)[k := ReadDoc(d)]
  {
    var s := store[k := d];
    assert Valid(s);
    var m := Boxes(s);
    var m' := Boxes(store)[k := ReadDoc(d)];
    assert m.Keys == m'.Keys;
    forall j | j in m ensures m[j] == m'[j] {
      if j != k {
        SameDocSameBox(s, store, j);
      }
    }
  }

  /** Writing a box under its id keeps the collection valid and makes the
      box the record stored there, leaving every other record alone. */
  lemma {:induction false} PutBox(store: Store, b: Box)
    requires Valid(store)
    ensures Valid(store[b.id := BoxToDoc(b)])
    ensures Boxes(store[b.id := BoxToDoc(b)]) == Boxes(store)[b.id := b]
  {
    ReadBack(b);
    PutDoc(store, b.id, BoxToDoc(b));
  }

  /** Removing a document keeps the collection valid and removes that key
      from the abstract view. */
  lemma {:induction false} RemoveBox(store: Store, id: int)
    requires Valid(store)
    ensures Valid(store - {id})
    ensures Boxes(store - {id}) == Boxes(store) - {id}
  {
    var m := Boxes(store - {id});
    var m' := Boxes(store) - {id};
    assert m.Keys == m'.Keys;
  }

  datatype InsertResult = Inserted(store: Store) | DuplicateKey

  /** `insert_one`: adds the document under its `_id`, or fails with a
      duplicate-key error when that `_id` is already taken. */
  function InsertOne(store: Store, doc: Doc): (r: InsertResult)
    requires StorageId in doc && doc[StorageId].Int?
    ensures r.DuplicateKey? <==> doc[StorageId].i in store
    ensures r.Inserted? ==> doc[StorageId].i in r.store && r.store[doc[StorageId].i] == doc
    ensures r.Inserted? ==> r.store - {doc[StorageId].i} == store
  {
    var key := doc[StorageId].i;
    if key in store then DuplicateKey else Inserted(store[key := doc])
  }

  /** Whether applying `changes` with `$set` alters document `d`. */
  predicate Alters(d: Doc, changes: Doc) {
    exists k :: k in changes && (k !in d || d[k] != changes[k])
  }

  datatype UpdateResult = UpdateResult(modified: nat, store: Store)

  /** `update_one({"_id": id}, {"$set": changes})`: sets every field named in
      `changes` on the document with that `_id`, and counts it as modified
      only when some field actually took a new value. The `_id` itself may be
      set only to the value it already has. */
  function UpdateOne(store: Store, id: int, changes: Doc): (r: UpdateResult)
    requires StorageId in changes ==> changes[StorageId] == Int(id)
    ensures r.modified <= 1
    ensures r.modified == 1 <==> id in store && Alters(store[id], changes)
    ensures r.modified == 0 ==> r.store == store
    ensures r.modified == 1 ==> r.store.Keys == store.Keys
    ensures r.modified == 1 ==> r.store[id].Keys == store[id].Keys + changes.Keys
    ensures r.modified == 1 ==> forall k :: k in changes ==> k in r.store[id] && r.store[id][k] == changes[k]
    ensures r.modified == 1 ==> forall k :: k in store[id] && k !in changes ==> k in r.store[id] && r.store[id][k] == store[id][k]
    ensures r.modified == 1 ==> forall j :: j in store && j != id ==> r.store[j] == store[j]
  {
    if id !in store then
      UpdateResult(0, store)
    else
      var merged := store[id] + changes;
      if merged == store[id] then
        assert !Alters(store[id], changes) by {
          forall k | k in changes ensures k in store[id] && store[id][k] == changes[k] {
            assert merged[k] == changes[k];
          }
        }
        UpdateResult(0, store)
      else
        UpdateResult(1, store[id := merged])
  }

  /** `$set` of a document with the same fields as the stored one: counted as
      modified exactly when it differs, and the stored document becomes it. */
  lemma {:induction false} SetSameFields(store: Store, id: int, d: Doc)
    requires id in store && store[id].Keys == d.Keys
    requires StorageId in d ==> d[StorageId] == Int(id)
    ensures UpdateOne(store, id, d).modified == 1 <==> store[id] != d
    ensures UpdateOne(store, id, d).store == store[id := d]
  {
    var r := UpdateOne(store, id, d);
    if Alters(store[id], d) {
      assert store[id] != d;
      assert r.store[id] == d;
      assert r.store == store[id := d];
    } else {
      assert forall k :: k in d ==> store[id][k] == d[k];
      assert store[id] == d;
    }
  }

  datatype DeleteResult = DeleteResult(deleted: nat, store: Store)

  /** `delete_one({"_id": id})`. */
  function DeleteOne(store: Store, id: int): (r: DeleteResult)
    ensures r.deleted == 1 <==> id in store
    ensures r.deleted <= 1
    ensures r.store == store - {id}
    ensures id !in r.store
  {
    if id in store then DeleteResult(1, store - {id}) else DeleteResult(0, store)
  }

  /** The query filters the service issues. */
  datatype Filter =
    | Everything                          // find()
    | CategoryIs(category: string)        // find({"category": c})
    | CreatedBetween(start: int, end: int) // find({"created_at": {"$gte": s, "$lte": e}})

  /** Whether a document satisfies a filter. A range comparison only matches
      timestamps: a null `created_at` never falls in a range. */
  predicate Matches(d: Doc, f: Filter)
    ensures f.Everything? ==> Matches(d, f)
    ensures Matches(d, f) && f.CreatedBetween? ==> "created_at" in d && !d["created_at"].Null?
    ensures Matches(d, f) && f.CategoryIs? ==> "category" in d && d["category"].Str?
  {
    match f
    case Everything => true
    case CategoryIs(c) => "category" in d && d["category"] == Str(c)
    case CreatedBetween(s, e) =>
      "created_at" in d && d["created_at"].Time? && s <= d["created_at"].t <= e
  }

  /** The keys of the documents a filter selects. */
  function Selected(store: Store, f: Filter): set<int> {
    set k | k in store && Matches(store[k], f)
  }

  /** What a filter means for a box record, stated on Box fields. */
  predicate Admits(f: Filter, b: Box) {
    match f
    case Everything => true
    case CategoryIs(c) => b.category == c
    case CreatedBetween(s, e) => b.createdAt.Some? && s <= b.createdAt.value <= e
  }

  /** A filter selects a box document exactly when it admits the box. */
  lemma DocMatches(b: Box, f: Filter)
    ensures Matches(BoxToDoc(b), f) <==> Admits(f, b)
  {
  }

  /** Filtering stored documents is filtering the records they hold. */
  lemma {:induction false} MatchesAdmits(store: Store, f: Filter, k: int)
    requires Valid(store)
    requires k in store
    ensures Matches(store[k], f) <==> Admits(f, Boxes(store)[k])
  {
    StoredDoc(store, k);
    DocMatches(Boxes(store)[k], f);
  }

  /** The ids of a list of boxes. */
  function Ids(r: seq<Box>): set<int> {
    set i | 0 <= i < |r| :: r[i].id
  }

  lemma IdsAppend(r: seq<Box>, b: Box)
    ensures Ids(r + [b]) == Ids(r) + {b.id}
  {
    assert forall i :: 0 <= i < |r| ==> (r + [b])[i] == r[i];
    assert (r + [b])[|r|] == b;
  }

  predicate DistinctIds(r: seq<Box>) {
    forall i, j :: 0 <= i < j < |r| ==> r[i].id != r[j].id
  }

  /** A list with distinct ids has as many ids as entries. */
  lemma {:induction false} IdsCard(r: seq<Box>)
    requires DistinctIds(r)
    ensures |Ids(r)| == |r|
  {
    if r != [] {
      var p := r[..|r| - 1];
      assert r == p + [r[|r| - 1]];
      IdsCard(p);
      IdsAppend(p, r[|r| - 1]);
      assert r[|r| - 1].id !in Ids(p);
    }
  }

  /** A non-empty set has an element. */
  lemma NonEmpty(s: set<int>)
    ensures s != {} ==> exists k :: k in s
  {
    if forall k :: k !in s {
      assert s == {};
    }
  }

  /** Lists the records under `keys`, each once, in an unspecified order:
      the cursor `find` returns, read back one document at a time. */
  method Collect(all: map<int, Box>, keys: set<int>) returns (r: seq<Box>)
    requires keys <= all.Keys
    requires forall k :: k in all ==> all[k].id == k
    ensures Ids(r) == keys
    ensures DistinctIds(r)
    ensures forall i :: 0 <= i < |r| ==> r[i].id in keys && r[i] == all[r[i].id]
  {
    var todo := keys;
    r := [];
    while todo != {}
      invariant todo <= keys
      invariant Ids(r) == keys - todo
      invariant DistinctIds(r)
      invariant forall i :: 0 <= i < |r| ==> r[i].id in keys && r[i].id !in todo && r[i] == all[r[i].id]
      decreases todo
    {
      NonEmpty(todo);
      var k :| k in todo;
      IdsAppend(r, all[k]);
      r := r + [all[k]];
      todo := todo - {k};
    }
  }

  /** `find(filter)` followed by `dict_to_box` on every document: each
      stored record the filter admits, exactly once, in an unspecified
      order. */
  method Find(store: Store, f: Filter) returns (r: seq<Box>)
    requires Valid(store)
    ensures forall b :: b in r <==> Stored(store, b) && Admits(f, b)
    ensures DistinctIds(r)
    ensures Ids(r) == Selected(store, f)
    ensures |r| == |Selected(store, f)|
  {
    var all := Boxes(store);
    r := Collect(all, Selected(store, f));
    IdsCard(r);
    forall b | b in r ensures Stored(store, b) && Admits(f, b) {
      MatchesAdmits(store, f, b.id);
    }
    forall b | Stored(store, b) && Admits(f, b) ensures b in r {
      MatchesAdmits(store, f, b.id);
      assert b.id in Ids(r);
      var i :| 0 <= i < |r| && r[i].id == b.id;
      assert r[i] == b;
    }
  }
}
