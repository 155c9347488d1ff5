/**
 The record service: seven operations over the box collection. The three
 writes are pure functions from the collection and their arguments to a
 status and the collection afterwards; `GetBox` is a pure function to a status
 and an optional record; the three listings are methods returning a status
 and a list in an unspecified order, leaving the collection as it was. Every
 business-level failure is an `ERROR` status, never an exception. The current
 time is a parameter of the one operation that reads the clock.
 */
module Service {
  import opened Records
  import opened Storage

  datatype Status = OK | ERROR

  datatype GetBoxResponse = GetBoxResponse(box: Option<Box>, status: Status)

  datatype GetBoxesResponse = GetBoxesResponse(boxes: seq<Box>, status: Status)

  /** The status of a create, update or delete, with the collection after it. */
  datatype Written = Written(status: Status, store: Store)

  /** `get_box`: the stored record with `OK`, or no record with `ERROR`. */
  function GetBox(store: Store, id: int): (r: GetBoxResponse)
    requires Valid(store)
    ensures r.status == OK <==> id in store
    ensures r.status == OK ==> r.box == Some(Boxes(store)[id])
    ensures r.status == ERROR ==> r.box == None
  {
    if id in store && store[id] != map[] then
      ReadDocIsDictToBox(store[id]);
      GetBoxResponse(DictToBox(store[id]), OK)
    else
      GetBoxResponse(None, ERROR)
  }

  /** `get_boxes`: every stored record, always `OK`. */
  method GetBoxes(store: Store) returns (r: GetBoxesResponse)
    requires Valid(store)
    ensures r.status == OK
    ensures forall b :: b in r.boxes <==> Stored(store, b)
    ensures |r.boxes| == |store|
    ensures DistinctIds(r.boxes)
  {
    var boxes := Find(store, Everything);
    forall k | k in store ensures k in Selected(store, Everything) {
      assert Matches(store[k], Everything);
    }
    assert Selected(store, Everything) == store.Keys;
    assert |store.Keys| == |store|;
    r := GetBoxesResponse(boxes, OK);
  }

  /** The box `create_box` writes: the caller's `created_at`, or `now` when the
      caller left it unset. */
  function Stamp(box: Box, now: int): (r: Box)
    ensures box.createdAt.Some? ==> r == box
    ensures box.createdAt.None? ==> r.createdAt == Some(now)
    ensures r.(createdAt := box.createdAt) == box
  {
    if box.createdAt.None? then box.(createdAt := Some(now)) else box
  }

  /** `create_box`: inserts the stamped box under a fresh id with `OK`; a taken
      id is a duplicate-key failure, `ERROR`, and nothing changes. */
  function CreateBox(store: Store, box: Box, now: int): (w: Written)
    requires Valid(store)
    ensures Valid(w.store)
    ensures w.status == OK <==> box.id !in store
    ensures w.status == OK ==> Boxes(w.store) == Boxes(store)[box.id := Stamp(box, now)]
    ensures w.status == ERROR ==> w.store == store
  {
    var data := BoxToDoc(Stamp(box, now));
    match InsertOne(store, data)
    case DuplicateKey => Written(ERROR, store)
    case Inserted(s) =>
      assert s == store[box.id := data];
      PutBox(store, Stamp(box, now));
      Written(OK, s)
  }

  /** `$set` of a box's whole document on the document with its id is `OK`
      exactly when that id is stored with a different record, and then the
      stored document becomes the box's. */
  lemma {:induction false} SetWholeDoc(store: Store, box: Box)
    requires Valid(store)
    ensures UpdateOne(store, box.id, BoxToDoc(box)).modified == 1
      <==> box.id in store && Boxes(store)[box.id] != box
    ensures UpdateOne(store, box.id, BoxToDoc(box)).modified == 1
      ==> UpdateOne(store, box.id, BoxToDoc(box)).store == store[box.id := BoxToDoc(box)]
  {
    if box.id in store {
      StoredDoc(store, box.id);
      BoxToDocInjective(Boxes(store)[box.id], box);
      SetSameFields(store, box.id, BoxToDoc(box));
    }
  }

  /** `update_box`: replaces every field of the record with the box's id,
      `created_at` included. `OK` only when some stored value changed; a
      missing id or an identical record is `ERROR` and nothing changes. */
  function UpdateBox(store: Store, box: Box): (w: Written)
    requires Valid(store)
    ensures Valid(w.store)
    ensures w.status == OK <==> box.id in store && Boxes(store)[box.id] != box
    ensures w.status == OK ==> Boxes(w.store) == Boxes(store)[box.id := box]
    ensures w.status == ERROR ==> w.store == store
  {
    var newBoxDict := BoxToDoc(box);
    var res := UpdateOne(store, box.id, newBoxDict);
    SetWholeDoc(store, box);
    PutBox(store, box);
    if res.modified > 0 then Written(OK, res.store) else Written(ERROR, res.store)
  }

  /** `delete_box`: removes the record with that id, `OK` only if there was
      one. */
  function DeleteBox(store: Store, id: int): (w: Written)
    requires Valid(store)
    ensures Valid(w.store)
    ensures w.status == OK <==> id in store
    ensures Boxes(w.store) == Boxes(store) - {id}
    ensures w.status == ERROR ==> w.store == store
  {
    var res := DeleteOne(store, id);
    RemoveBox(store, id);
    if res.deleted > 0 then Written(OK, res.store) else Written(ERROR, res.store)
  }

  /** `get_boxes_in_category`: exactly the records whose category equals
      `category`, always `OK`. */
  method GetBoxesInCategory(store: Store, category: string) returns (r: GetBoxesResponse)
    requires Valid(store)
    ensures r.status == OK
    ensures forall b :: b in r.boxes <==> Stored(store, b) && b.category == category
    ensures DistinctIds(r.boxes)
    ensures store == map[] ==> r.boxes == []
  {
    var boxes := Find(store, CategoryIs(category));
    r := GetBoxesResponse(boxes, OK);
  }

  /** `get_boxes_in_time_range`: exactly the records created within
      `[startTime, endTime]`, both ends included, always `OK`. */
  method GetBoxesInTimeRange(store: Store, startTime: int, endTime: int) returns (r: GetBoxesResponse)
    requires Valid(store)
    ensures r.status == OK
    ensures forall b :: b in r.boxes <==>
      Stored(store, b) && b.createdAt.Some? && startTime <= b.createdAt.value <= endTime
    ensures DistinctIds(r.boxes)
    ensures store == map[] ==> r.boxes == []
  {
    var boxes := Find(store, CreatedBetween(startTime, endTime));
    r := GetBoxesResponse(boxes, OK);
  }
}
