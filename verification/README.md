# Box record service — a Dafny model

This project models the record service of the `boxes` application: the
`DatabaseService` class in `server/server.py` and its two identifier
translation helpers, `box_to_dict` and `dict_to_box`. The service keeps
"box" records in a document collection. It answers get-one, get-all, create,
update, delete, query-by-category and query-by-time-range calls with an
`OK`/`ERROR` status.

The model has four modules, one per file:

- `records.dfy` (`Records`): the `Box` record and its storage document.
  - A box is written with its `id` renamed to the document store's primary
    key `_id`, and read back with the rename undone and `Box(**data)`.
  - The rename is an explicit named mapping (`Rename`, `ToStorage`,
    `ToWire`).
  - The source's position-based `box_to_dict` is modelled as written
    (`PositionalBoxToDict`) and proved equal to the named mapping for the Box
    field layout.
- `storage.dfy` (`Storage`): the document collection as the service uses it.
  - The collection is a `map<int, Doc>` keyed by `_id`. `Valid` says every
    stored document has the shape the service writes.
  - `Boxes` is the view callers see: every document read back as a `Box`.
  - The store primitives are `insert_one` with its duplicate-key failure,
    `update_one` with `$set` and its modified count, and `delete_one` with
    its deleted count.
  - `find` takes the three filters the service issues. It is modelled as a
    method that lists each selected record once, in an unspecified order.
- `service.dfy` (`Service`): the seven operations.
  - The three writes (`CreateBox`, `UpdateBox`, `DeleteBox`) are pure
    functions from the collection and the arguments to a status and the
    collection afterwards.
  - `GetBox` is a pure function from the collection to a status and an
    optional record.
  - The three listings (`GetBoxes`, `GetBoxesInCategory`,
    `GetBoxesInTimeRange`) are methods. They return a status and a list
    whose order they leave unspecified, and the collection is unchanged.
  - The current time, read by `create_box`, is the parameter `now`.
- `properties.dfy` (`Properties`):
  - properties that relate several calls (create then get, delete twice,
    writes are local, and so on);
  - the scenarios of `server/tests/test_services.py`, restated for any boxes
    with the ids and categories those tests use.

Where the written behaviour and the documented intent differ, the model
follows the code:

- `update_box` `$set`s every field of the box, `created_at` included. A
  successful update therefore replaces the stored timestamp with the
  caller's; it is not "set once at creation" (`Service.UpdateBox`,
  `Properties.UpdateThenGet`).
- `get_boxes_in_category("")` matches every record whose category equals the
  empty string. That includes a record created with `category=""` given
  explicitly, not only records that left it at its default.
- Update reports `ERROR` when the record exists but nothing changes, because
  the status comes from the modified count (`Properties.NoOpUpdateFails`).

## Model

| member | source | states |
|---|---|---|
| Records.NewBox | server/tests/test_services.py:42-43 | `Box(name=…, id=…)` is the box `Box(**data)` builds from a dict holding only those two fields, so every other field takes its default |
| Records.AsDict | server/server.py:66 | `asdict` of a box has exactly the seven Box field names, each holding that field's value of the box |
| Records.FieldPairs | server/server.py:66 | the pairs `asdict` hands its dict factory: seven, `id` at index 1, and with plain `dict` they build exactly `asdict` of the box |
| Records.DictOf | server/server.py:36 | `dict(pairs)` holds a key for every pair, and the last pair's value under its key |
| Records.DictOfKeys | server/server.py:36 | every key of `dict(pairs)` is the name of some pair |
| Records.DictOfAbsent | server/server.py:36 | a name no pair carries is not a key of `dict(pairs)` |
| Records.DictOfValue | server/server.py:36 | a pair's value is the one stored under its name whenever no later pair reuses that name |
| Records.PositionalBoxToDict | server/server.py:31-36 | `box_to_dict` as written, for any pair list: the result has `_id`, and every name except the one at index 1 |
| Records.PositionalMeaning | server/server.py:33-36 | for any pair list, `_id` holds the value at index 1 unless a later pair is named `_id`, and the name at index 1 is gone unless another pair carries it |
| Records.Rename | server/server.py:40-41 | moving a field: the result has the old key removed, the new key holding its value, and every other key keeping its value; a dict without the old key is unchanged |
| Records.ToWireToStorage | server/server.py:31-42 | renaming `id` to `_id` and back restores every dict that had no `_id` |
| Records.ToStorageToWire | server/server.py:31-42 | renaming `_id` to `id` and back restores every dict that had no `id` |
| Records.BoxToDoc | server/server.py:31-36 | the stored document has exactly the storage field names, `_id` equal to the box id, no `id` key, and every other field carrying the box's value |
| Records.PositionalAgreesWithNamed | server/server.py:31-36 | replacing the pair at position 1 by `_id` and building the dict gives the same document as the named rename, for every box |
| Records.FromDict | server/server.py:42 | `Box(**data)` succeeds exactly on dicts of the Box shape, and the box carries the dict's `id` and `name` |
| Records.DictToBox | server/server.py:39-42 | a decoded box's id is the document's `_id` when present, else its `id` |
| Records.DecodeEncode | server/server.py:42 | building a box from its own dict yields the box |
| Records.EncodeDecode | server/server.py:42 | a complete dict that builds a box is that box's dict |
| Records.BoxRoundTrip | server/server.py:31-42 | `dict_to_box(box_to_dict(b)) == b` for every box |
| Records.DocRoundTrip | server/server.py:31-42 | a complete storage document that decodes to `b` is exactly `box_to_dict(b)` |
| Records.BoxToDocInjective | server/server.py:31-36 | two boxes give the same document if and only if they are equal |
| Records.ReadDoc | server/server.py:39-42 | reading a document of the written shape: the box's id is the document's `_id`, and its name and category are the document's |
| Records.ReadDocIsDictToBox | server/server.py:39-42 | on every document of the written shape `dict_to_box` succeeds, and it reads each field directly |
| Records.ReadBack | server/server.py:31-42 | writing a box gives a document of the written shape that reads back as the box |
| Records.ReadDocWrites | server/server.py:31-42 | a document of the written shape is exactly the document its record is written as |
| Storage.Boxes | server/server.py:51 | the caller's view has one record per stored key, each with that key as its id |
| Storage.StoredDoc | server/server.py:51-54 | the record under a key is written as exactly the document stored there |
| Storage.PutBox | server/server.py:69 | writing a box under its id keeps the collection well formed and changes the view at that id only |
| Storage.RemoveBox | server/server.py:89 | removing a document keeps the collection well formed and removes that id from the view only |
| Storage.InsertOne | server/server.py:68-74 | insert fails with a duplicate key exactly when the `_id` is taken; otherwise the document is added under its `_id` and nothing else changes |
| Storage.UpdateOne | server/server.py:79-82 | `$set` on the document with that `_id`: modified count is 1 exactly when the id is stored and some field takes a new value; then named fields take the new values, the others and the other documents stay; with count 0 nothing changes |
| Storage.SetSameFields | server/server.py:79-82 | `$set` of a document with the same field names counts as modified exactly when it differs, and the stored document becomes it |
| Storage.DeleteOne | server/server.py:89-90 | the deleted count is 1 exactly when the id is stored, and the document with that id is gone |
| Storage.Matches | server/server.py:96-106 | the three `find` filters on a document: the empty filter matches everything; a category match needs a string `category`; a range match needs a non-null `created_at` |
| Storage.DocMatches | server/server.py:96-106 | a filter selects a box's document exactly when the box's category equals the filter's, or its `created_at` lies in the range with both ends included |
| Storage.MatchesAdmits | server/server.py:96-106 | filtering stored documents is filtering the records they hold |
| Storage.Collect | server/server.py:60 | reading the cursor lists each selected record exactly once, with distinct ids |
| Storage.Find | server/server.py:59-60 | `find` followed by `dict_to_box` returns exactly the stored records the filter admits, each once, as many as it selects |
| Service.GetBox | server/server.py:50-56 | `OK` with the stored record exactly when the id is stored; otherwise `ERROR` with no record |
| Service.GetBoxes | server/server.py:58-61 | always `OK`; exactly the stored records, each once, as many as are stored (none for an empty collection) |
| Service.Stamp | server/server.py:64-65 | a caller-supplied `created_at` is kept; an unset one becomes `now`; no other field changes |
| Service.CreateBox | server/server.py:63-75 | `OK` exactly when the id is fresh, and the collection then gains just the stamped box; `ERROR` on a taken id with the collection unchanged |
| Service.SetWholeDoc | server/server.py:78-82 | `$set` of a box's whole document is a modification exactly when that id holds a different record |
| Service.UpdateBox | server/server.py:77-86 | `OK` exactly when the id is stored with a different record, which then becomes the box, `created_at` included, with other ids untouched; otherwise `ERROR` and nothing changes |
| Service.DeleteBox | server/server.py:88-94 | `OK` exactly when the id is stored; that record is removed and nothing else; `ERROR` leaves the collection unchanged |
| Service.GetBoxesInCategory | server/server.py:96-99 | always `OK`; exactly the stored records whose category equals the argument, each once; none on an empty collection |
| Service.GetBoxesInTimeRange | server/server.py:101-108 | always `OK`; exactly the stored records with a `created_at` in `[start, end]`, both ends included, each once; none on an empty collection |
| Properties.CreateThenGet | server/tests/test_services.py:62-72 | after a create on a fresh id, get returns the stamped box with `OK` |
| Properties.GetAbsent | server/tests/test_services.py:74-78 | get on an id never stored returns no record with `ERROR` |
| Properties.DuplicateCreateKeepsRecord | server/tests/test_services.py:86-94 | a second create with the same id fails, and get still returns the first record |
| Properties.UpdateThenGet | server/tests/test_services.py:102-110 | updating a stored id with a different record succeeds, and get then returns exactly the new box |
| Properties.UpdateAbsent | server/tests/test_services.py:112-115 | update of an id never stored fails and changes nothing |
| Properties.NoOpUpdateFails | server/server.py:82-85 | writing back the stored record is not a modification: `ERROR`, collection unchanged |
| Properties.DeleteTwice | server/server.py:88-94 | the first delete of a stored id succeeds; a second one fails and changes nothing; get then fails |
| Properties.CreateIsLocal | server/server.py:69 | create leaves what get returns for every other id unchanged |
| Properties.UpdateIsLocal | server/server.py:79-81 | update leaves what get returns for every other id unchanged |
| Properties.DeleteIsLocal | server/server.py:89 | delete leaves what get returns for every other id unchanged |
| Properties.DefaultCategoryFound | server/tests/test_services.py:149-173 | a box built with only a name and an id, once created on a fresh id, is among the records `get_boxes_in_category("")` returns |
| Properties.UpdateScenario | server/tests/test_services.py:102-115 | the update test: box 1 created, then its stamped object renamed and sent back succeeds, the collection still holds one record, and get returns the renamed box; the same object under an id never stored fails and changes nothing |
| Properties.DeleteScenario | server/tests/test_services.py:124-134 | the delete test: after creating box 1, deleting any other id fails, then deleting box 1 succeeds and leaves the collection empty |
| Properties.ListScenario | server/tests/test_services.py:34-52 | an empty collection lists nothing; after two creates the listing holds exactly two records, with ids 1 and 2 |
| Properties.CategoryScenario | server/tests/test_services.py:138-173 | the category test: empty at first; then category 1 finds exactly ids 1 and 2, category 2 exactly id 3, and `""` exactly id 4 |
| Properties.TimeRangeScenario | server/tests/test_services.py:187-233 | the time-range test, each of the four creates reading the clock itself: empty at first; then the range up to the clock read after the first two creates finds exactly ids 1 and 2, and the last two-unit range exactly ids 3 and 4 |

## Left out

- The MongoDB driver, the connection-string selection and the index creation in `server/db_manager.py` and `db_manager.py`: these are I/O. Indexes change speed, not results.
- The gRPC host (`main`, `Server`, `graceful_exit`), the `async` machinery and the log line on a duplicate key: these are transport, concurrency and logging.
- The root-level `server.py`: a superseded variant with different semantics, not part of this model.
- The Flask front end and the client scripts (`client/app.py`, `client.py`, `client/client_2.py`): callers only.
- The `Box` class is generated in a `db` module that is not part of this model. Its fields are inferred from their use in the service and its tests.
- FromDict: decoding checks each field's type (an `int` for `price`, a string for `name`, …). The generated class may accept values of another type that the service never writes. Documents are always written by the service, so reads are unaffected.
- Result order: `find` returns documents in an order the store chooses. Query results are stated as membership, distinct ids and counts, never as a sequence order.
- Timestamps are integers, and `datetime.utcnow()` is the parameter `now`. Time zones and sub-second precision are not modelled.
- Service.GetBox: the source's `if data:` is modelled as "present and non-empty". Every stored document has the seven fields, so the contract states the answer in terms of presence alone.
- Storage.UpdateOne: requires that `$set` never changes `_id`, which the store would reject. The service always sets `_id` to the id it filters on, so the case does not arise.
- Storage.Valid: every operation assumes the collection holds only documents the service wrote. Documents inserted by other programs, of another shape, are not modelled.
- Properties.TimeRangeScenario: the test's wall-clock timing is stated as preconditions. Each create reads the clock once (`t1` to `t4`, in order). The three-second sleep is `end1 + 3 <= t3`. The assumption that the last clock read falls within two seconds of the third create is `end2 <= t3 + 2`.
- Service.Stamp: `create_box` writes the timestamp into the caller's `Box` object, before the insert, so it stays even when the insert fails with a duplicate key. The model returns a new box and leaves the argument untouched. Over RPC the handler receives a fresh copy, so only in-process callers (the test suite, which re-sends the stamped object in its update test) can observe the difference.
- Integer width: `id`, `price` and `quantity` are unbounded integers. BSON stores integers in at most 64 bits, and the driver raises `OverflowError` when it encodes a larger one, in a filter or a document alike (server/server.py:51, 69, 79-81, 89). With such an id, `get_box` and `delete_box` raise instead of returning `ERROR`, and `create_box` and `update_box` raise instead of returning a status. With a `price` or `quantity` over 64 bits, `create_box` and `update_box` raise whatever the id. The model does not bound these fields. The generated wire type is not part of this model, so whether its field types already exclude such values cannot be told from here. A value received over RPC is at most 64 bits wide in any protobuf integer type; an unsigned 64-bit value above 2^63 - 1 still overflows.
