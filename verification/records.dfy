/**
 The box record and its two shapes: the wire-model `Box` the service hands to
 and receives from callers, and the storage document kept in the collection,
 whose primary key lives under the reserved field `_id` instead of `id`.

 The translation between the two is an explicit named renaming of one field
 (`id` <-> `_id`); the positional variant the service uses is modelled too and
 shown to coincide with it for the Box field layout.
 */
module Records {

  datatype Option<+T> = None | Some(value: T)

  /** A box as callers see it. Optional fields are `None` when the caller left
      them unset; `category` defaults to the empty string. Timestamps are
      integers (seconds, say). */
  datatype Box = Box(
    name: string,
    id: int,
    price: Option<int>,
    description: Option<string>,
    category: string,
    quantity: Option<int>,
    createdAt: Option<int>)

  /** `Box(name=..., id=...)`: every other field at its default, the same
      box `Box(**data)` builds from a dict holding only those two fields. */
  function NewBox(name: string, id: int): (b: Box)
    ensures FromDict(map["name" := Str(name), "id" := Int(id)]) == Some(b)
  {
    Box(name, id, None, None, "", None, None)
  }

  /** A field value inside a document: `Null` is the document store's null. */
  datatype Value = Null | Int(i: int) | Str(s: string) | Time(t: int)

  /** A document (or a plain dict of field name to value). */
  type Doc = map<string, Value>

  const WireId: string := "id"
  const StorageId: string := "_id"

  const WireKeys: set<string> :=
    {"name", "id", "price", "description", "category", "quantity", "created_at"}

  const StorageKeys: set<string> :=
    {"name", "_id", "price", "description", "category", "quantity", "created_at"}

  function OptInt(o: Option<int>): Value {
    match o
    case None => Null
    case Some(v) => Int(v)
  }

  function OptStr(o: Option<string>): Value {
    match o
    case None => Null
    case Some(v) => Str(v)
  }

  function OptTime(o: Option<int>): Value {
    match o
    case None => Null
    case Some(v) => Time(v)
  }

  /** The (field, value) pairs `dataclasses.asdict` hands to its dict factory,
      in declaration order: `id` sits at index 1, and with the plain `dict`
      factory they build the box's own dict. */
  function FieldPairs(b: Box): (ps: seq<(string, Value)>)
    ensures |ps| == 7 && ps[1] == (WireId, Int(b.id))
    ensures DictOf(ps) == AsDict(b)
  {
    var ps := [ ("name", Str(b.name)),
      ("id", Int(b.id)),
      ("price", OptInt(b.price)),
      ("description", OptStr(b.description)),
      ("category", Str(b.category)),
      ("quantity", OptInt(b.quantity)),
      ("created_at", OptTime(b.createdAt)) ];
    DictOfSeven(ps);
    ps
  }

  /** The wire-model dict of a box, keyed by its own field names. */
  function AsDict(b: Box): (d: Doc)
    ensures d.Keys == WireKeys
    ensures d["id"] == Int(b.id) && d["name"] == Str(b.name) && d["category"] == Str(b.category)
    ensures d["price"] == OptInt(b.price) && d["quantity"] == OptInt(b.quantity)
    ensures d["description"] == OptStr(b.description) && d["created_at"] == OptTime(b.createdAt)
  {
    map["name" := Str(b.name),
        "id" := Int(b.id),
        "price" := OptInt(b.price),
        "description" := OptStr(b.description),
        "category" := Str(b.category),
        "quantity" := OptInt(b.quantity),
        "created_at" := OptTime(b.createdAt)]
  }

  /** Moves the value under `from` to `to`, when `from` is present. */
  function Rename(d: Doc, from: string, to: string): (r: Doc)
    requires from != to
    ensures from in d ==> r.Keys == d.Keys - {from} + {to} && r[to] == d[from]
    ensures from in d ==> forall k :: k in d && k != from && k != to ==> r[k] == d[k]
    ensures from !in d ==> r == d
  {
    if from in d then (d - {from})[to := d[from]] else d
  }

  /** Wire-to-storage field naming: `id` becomes `_id`. */
  function ToStorage(d: Doc): Doc {
    Rename(d, WireId, StorageId)
  }

  /** Storage-to-wire field naming: `_id` becomes `id`. */
  function ToWire(d: Doc): Doc {
    Rename(d, StorageId, WireId)
  }

  /** The two renamings undo each other on dicts of the matching shape. */
  lemma {:induction false} ToWireToStorage(d: Doc)
    requires StorageId !in d
    ensures ToWire(ToStorage(d)) == d
  {
    if WireId in d {
      var s := ToStorage(d);
      var w := ToWire(s);
      assert w.Keys == d.Keys;
      forall k | k in d ensures w[k] == d[k] {
        if k == WireId {
          assert w[k] == s[StorageId] == d[WireId];
        }
      }
    }
  }

  lemma {:induction false} ToStorageToWire(d: Doc)
    requires WireId !in d
    ensures ToStorage(ToWire(d)) == d
  {
    if StorageId in d {
      var w := ToWire(d);
      var s := ToStorage(w);
      assert s.Keys == d.Keys;
      forall k | k in d ensures s[k] == d[k] {
        if k == StorageId {
          assert s[k] == w[WireId] == d[StorageId];
        }
      }
    }
  }

  /** The storage document a box is written as. */
  function BoxToDoc(b: Box): (d: Doc)
    ensures d.Keys == StorageKeys
    ensures d[StorageId] == Int(b.id) && WireId !in d
    ensures d["name"] == Str(b.name) && d["category"] == Str(b.category)
    ensures d["price"] == OptInt(b.price) && d["quantity"] == OptInt(b.quantity)
    ensures d["description"] == OptStr(b.description) && d["created_at"] == OptTime(b.createdAt)
  {
    ToStorage(AsDict(b))
  }

  /** Builds a dict from pairs; a later pair overrides an earlier one, as
      Python's `dict(pairs)` does. */
  function DictOf(ps: seq<(string, Value)>): (r: Doc)
    ensures forall i :: 0 <= i < |ps| ==> ps[i].0 in r
    ensures ps != [] ==> r[ps[|ps| - 1].0] == ps[|ps| - 1].1
  {
    if ps == [] then map[]
    else
      var p := ps[..|ps| - 1];
      assert forall i :: 0 <= i < |p| ==> p[i] == ps[i];
      DictOf(p)[ps[|ps| - 1].0 := ps[|ps| - 1].1]
  }

  /** `dict(pairs)` has no key beyond the pairs' names. */
  lemma {:induction false} DictOfKeys(ps: seq<(string, Value)>, k: string)
    requires k in DictOf(ps)
    ensures exists i :: 0 <= i < |ps| && ps[i].0 == k
  {
    var n := |ps| - 1;
    if ps[n].0 != k {
      var p := ps[..n];
      DictOfKeys(p, k);
      var i :| 0 <= i < |p| && p[i].0 == k;
      assert ps[i] == p[i];
    }
  }

  /** A name no pair carries is not a key of `dict(pairs)`. */
  lemma {:induction false} DictOfAbsent(ps: seq<(string, Value)>, k: string)
    requires forall i :: 0 <= i < |ps| ==> ps[i].0 != k
    ensures k !in DictOf(ps)
  {
    if ps != [] {
      var p := ps[..|ps| - 1];
      assert forall i :: 0 <= i < |p| ==> p[i] == ps[i];
      DictOfAbsent(p, k);
    }
  }

  /** A pair's value survives in `dict(pairs)` when no later pair reuses its
      name. */
  lemma {:induction false} DictOfValue(ps: seq<(string, Value)>, i: nat)
    requires i < |ps|
    requires forall j :: i < j < |ps| ==> ps[j].0 != ps[i].0
    ensures DictOf(ps)[ps[i].0] == ps[i].1
  {
    var n := |ps| - 1;
    if i < n {
      var p := ps[..n];
      assert p[i] == ps[i];
      assert forall j :: i < j < |p| ==> p[j] == ps[j];
      DictOfValue(p, i);
    }
  }

  /** The source's `box_to_dict` as written: the pair at position 1 is renamed
      to `_id`, whatever its name was. */
  function PositionalBoxToDict(fields: seq<(string, Value)>): (d: Doc)
    requires |fields| >= 2
    ensures StorageId in d
    ensures forall i :: 0 <= i < |fields| && i != 1 ==> fields[i].0 in d
  {
    var f := fields[1 := (StorageId, fields[1].1)];
    assert f[1].0 == StorageId;
    assert forall i :: 0 <= i < |fields| && i != 1 ==> f[i] == fields[i];
    DictOf(f)
  }

  /** What the positional rewrite does to any pair list: `_id` takes the
      value at index 1 unless a later pair is itself named `_id`, and the
      name at index 1 is gone unless another pair carries it too. */
  lemma {:induction false} PositionalMeaning(fields: seq<(string, Value)>)
    requires |fields| >= 2
    ensures (forall i :: 1 < i < |fields| ==> fields[i].0 != StorageId)
      ==> PositionalBoxToDict(fields)[StorageId] == fields[1].1
    ensures (forall i :: 0 <= i < |fields| && i != 1 ==> fields[i].0 != fields[1].0) && fields[1].0 != StorageId
      ==> fields[1].0 !in PositionalBoxToDict(fields)
  {
    var f := fields[1 := (StorageId, fields[1].1)];
    assert forall i :: 0 <= i < |fields| && i != 1 ==> f[i] == fields[i];
    if forall i :: 1 < i < |fields| ==> fields[i].0 != StorageId {
      DictOfValue(f, 1);
    }
    if (forall i :: 0 <= i < |fields| && i != 1 ==> fields[i].0 != fields[1].0) && fields[1].0 != StorageId {
      DictOfAbsent(f, fields[1].0);
    }
  }

  /** Positional renaming agrees with the named mapping, because `id` is the
      second field of Box. */
  lemma PositionalAgreesWithNamed(b: Box)
    ensures PositionalBoxToDict(FieldPairs(b)) == BoxToDoc(b)
  {
    var ps := FieldPairs(b)[1 := (StorageId, Int(b.id))];
    assert ps == [ ("name", Str(b.name)), ("_id", Int(b.id)), ("price", OptInt(b.price)),
                   ("description", OptStr(b.description)), ("category", Str(b.category)),
                   ("quantity", OptInt(b.quantity)), ("created_at", OptTime(b.createdAt)) ];
    DictOfSeven(ps);
    var d := BoxToDoc(b);
    assert DictOf(ps) == d;
  }

  /** `dict` of seven pairs is the map display that lists them in order. */
  lemma DictOfSeven(ps: seq<(string, Value)>)
    requires |ps| == 7
    ensures DictOf(ps) == map[ps[0].0 := ps[0].1, ps[1].0 := ps[1].1, ps[2].0 := ps[2].1,
      ps[3].0 := ps[3].1, ps[4].0 := ps[4].1, ps[5].0 := ps[5].1, ps[6].0 := ps[6].1]
  {
    assert ps[..0] == [];
    DictOfSnoc(ps, 0);
    DictOfSnoc(ps, 1);
    DictOfSnoc(ps, 2);
    DictOfSnoc(ps, 3);
    DictOfSnoc(ps, 4);
    DictOfSnoc(ps, 5);
    DictOfSnoc(ps, 6);
    assert ps[..7] == ps;
  }

  lemma DictOfSnoc(ps: seq<(string, Value)>, i: nat)
    requires i < |ps|
    ensures DictOf(ps[..i + 1]) == DictOf(ps[..i])[ps[i].0 := ps[i].1]
  {
    assert ps[..i + 1][..i] == ps[..i];
  }

  predicate OptIntOk(data: Doc, k: string) {
    k !in data || data[k].Null? || data[k].Int?
  }

  predicate OptStrOk(data: Doc, k: string) {
    k !in data || data[k].Null? || data[k].Str?
  }

  predicate OptTimeOk(data: Doc, k: string) {
    k !in data || data[k].Null? || data[k].Time?
  }

  function GetInt(data: Doc, k: string): Option<int> {
    if k in data && data[k].Int? then Some(data[k].i) else None
  }

  function GetStr(data: Doc, k: string): Option<string> {
    if k in data && data[k].Str? then Some(data[k].s) else None
  }

  function GetTime(data: Doc, k: string): Option<int> {
    if k in data && data[k].Time? then Some(data[k].t) else None
  }

  /** Whether `Box(**data)` accepts the dict: no unknown field, `name` and `id`
      present, every value of its field's type. */
  predicate IsBoxDict(data: Doc) {
    && data.Keys <= WireKeys
    && "name" in data && data["name"].Str?
    && "id" in data && data["id"].Int?
    && OptIntOk(data, "price")
    && OptStrOk(data, "description")
    && ("category" !in data || data["category"].Str?)
    && OptIntOk(data, "quantity")
    && OptTimeOk(data, "created_at")
  }

  /** `Box(**data)`: a missing optional field takes its default. */
  function FromDict(data: Doc): (r: Option<Box>)
    ensures r.Some? <==> IsBoxDict(data)
    ensures r.Some? ==> data["id"] == Int(r.value.id) && data["name"] == Str(r.value.name)
  {
    if IsBoxDict(data) then
      Some(Box(
        data["name"].s,
        data["id"].i,
        GetInt(data, "price"),
        GetStr(data, "description"),
        if "category" in data then data["category"].s else "",
        GetInt(data, "quantity"),
        GetTime(data, "created_at")))
    else
      None
  }

  /** The source's `dict_to_box`: rename `_id` back to `id`, then build. */
  function DictToBox(d: Doc): (r: Option<Box>)
    ensures r.Some? && StorageId in d ==> d[StorageId] == Int(r.value.id)
    ensures r.Some? && StorageId !in d ==> WireId in d && d[WireId] == Int(r.value.id)
  {
    FromDict(ToWire(d))
  }

  /** Building a box from its own dict gives it back. */
  lemma DecodeEncode(b: Box)
    ensures FromDict(AsDict(b)) == Some(b)
  {
  }

  /** A complete dict that builds a box is that box's dict. */
  lemma {:induction false} EncodeDecode(data: Doc, b: Box)
    requires data.Keys == WireKeys
    requires FromDict(data) == Some(b)
    ensures AsDict(b) == data
  {
    var e := AsDict(b);
    forall k | k in data ensures e[k] == data[k] {
      if k == "price" || k == "quantity" {
        assert OptIntOk(data, k);
      } else if k == "description" {
        assert OptStrOk(data, k);
      } else if k == "created_at" {
        assert OptTimeOk(data, k);
      }
    }
  }

  /** Writing a box as a storage document and reading it back yields the box. */
  lemma {:induction false} BoxRoundTrip(b: Box)
    ensures DictToBox(BoxToDoc(b)) == Some(b)
  {
    ToWireToStorage(AsDict(b));
    DecodeEncode(b);
  }

  /** A complete storage document that reads back as a box is exactly what
      that box is written as. */
  lemma {:induction false} DocRoundTrip(d: Doc, b: Box)
    requires d.Keys == StorageKeys
    requires DictToBox(d) == Some(b)
    ensures BoxToDoc(b) == d
  {
    var w := ToWire(d);
    assert w.Keys == WireKeys;
    EncodeDecode(w, b);
    ToStorageToWire(d);
  }

  /** The shape of every document the service writes: exactly the storage
      field names, each holding a value of its field's type. */
  predicate IsBoxDoc(d: Doc) {
    && d.Keys == StorageKeys
    && d[StorageId].Int?
    && d["name"].Str?
    && d["category"].Str?
    && OptIntOk(d, "price")
    && OptStrOk(d, "description")
    && OptIntOk(d, "quantity")
    && OptTimeOk(d, "created_at")
  }

  lemma BoxToDocIsBoxDoc(b: Box)
    ensures IsBoxDoc(BoxToDoc(b))
  {
  }

  /** `dict_to_box` on a document of the written shape, read field by
      field; it agrees with `DictToBox` (see `ReadDocIsDictToBox`). */
  function ReadDoc(d: Doc): (b: Box)
    requires IsBoxDoc(d)
    ensures d[StorageId] == Int(b.id)
    ensures d["name"] == Str(b.name) && d["category"] == Str(b.category)
  {
    Box(
      d["name"].s,
      d[StorageId].i,
      GetInt(d, "price"),
      GetStr(d, "description"),
      d["category"].s,
      GetInt(d, "quantity"),
      GetTime(d, "created_at"))
  }

  /** On a document of the written shape `dict_to_box` always succeeds, and
      yields what `ReadDoc` reads. */
  lemma ReadDocIsDictToBox(d: Doc)
    requires IsBoxDoc(d)
    ensures DictToBox(d) == Some(ReadDoc(d))
  {
    var w := ToWire(d);
    assert w.Keys == WireKeys;
    assert IsBoxDict(w);
  }

  /** The box read from a document is written back as that same document. */
  lemma {:induction false} ReadDocWrites(d: Doc)
    requires IsBoxDoc(d)
    ensures BoxToDoc(ReadDoc(d)) == d
  {
    ReadDocIsDictToBox(d);
    DocRoundTrip(d, ReadDoc(d));
  }

  /** Reading the document a box is written as gives the box back. */
  lemma {:induction false} ReadBack(b: Box)
    ensures IsBoxDoc(BoxToDoc(b)) && ReadDoc(BoxToDoc(b)) == b
  {
    BoxToDocIsBoxDoc(b);
    ReadDocIsDictToBox(BoxToDoc(b));
    BoxRoundTrip(b);
  }

  /** Distinct boxes are written as distinct documents. */
  lemma {:induction false} BoxToDocInjective(b1: Box, b2: Box)
    ensures BoxToDoc(b1) == BoxToDoc(b2) <==> b1 == b2
  {
    BoxRoundTrip(b1);
    BoxRoundTrip(b2);
  }
}
