/** The document store under one collection, in natural (insertion) order.

    Mongo's `find`, `findOne`, `insertOne`, `findOneAndUpdate` and
    `findOneAndDelete` are what the shop's model layer calls.  The queries are
    functions of the stored rows; the three writes are methods of the
    `Collection` class that owns them.
 */
module DocStore {
  import opened Docs

  /** No two stored records share an identifier. */
  ghost predicate DistinctIds(rows: seq<Row>) {
    forall i, j | 0 <= i < j < |rows| :: rows[i].id != rows[j].id
  }

  /** Every stored identifier was handed out before `bound`. */
  ghost predicate IdsBelow(rows: seq<Row>, bound: Id) {
    forall i | 0 <= i < |rows| :: rows[i].id < bound
  }

  /** The invariant of a stored collection: distinct identifiers, all handed
      out before the next one. */
  ghost predicate ValidState(rows: seq<Row>, nextId: Id) {
    DistinctIds(rows) && IdsBelow(rows, nextId)
  }

  /** `find(filter).toArray()`: the matching records, in natural order. */
  function Select(rows: seq<Row>, filter: Filter): (r: seq<Row>)
    ensures |r| <= |rows|
    ensures forall x :: x in r <==> x in rows && Matches(x, filter)
  {
    if rows == [] then []
    else if Matches(rows[0], filter) then [rows[0]] + Select(rows[1..], filter)
    else Select(rows[1..], filter)
  }

  /** `findOne(filter)`: the first matching record in natural order, if any. */
  function First(rows: seq<Row>, filter: Filter): (r: Option<Row>)
    ensures r.None? <==> forall i | 0 <= i < |rows| :: !Matches(rows[i], filter)
    ensures r.Some? ==> exists i | 0 <= i < |rows| :: rows[i] == r.value && Matches(rows[i], filter)
                          && forall j | 0 <= j < i :: !Matches(rows[j], filter)
  {
    if rows == [] then None
    else if Matches(rows[0], filter) then Some(rows[0])
    else
      var r := First(rows[1..], filter);
      assert r.Some? ==> exists i | 0 <= i < |rows[1..]| :: rows[1..][i] == r.value && Matches(rows[1..][i], filter)
                            && forall j | 0 <= j < i :: !Matches(rows[1..][j], filter);
      r
  }

  /** The filter `{_id: id}`. */
  function IdFilter(id: Id): (f: Filter)
    ensures forall r: Row :: Matches(r, f) <==> r.id == id
  {
    var f := map["_id" := Eq(Ref(id))];
    assert forall r: Row :: Lookup(r, "_id") == Ref(r.id);
    f
  }

  /** `findOne({_id: id})`: the record with this identifier, or none. */
  function FindRow(rows: seq<Row>, id: Id): (r: Option<Row>)
    ensures r.None? <==> forall i | 0 <= i < |rows| :: rows[i].id != id
    ensures r.Some? ==> r.value in rows && r.value.id == id
  {
    First(rows, IdFilter(id))
  }

  /** `findOneAndUpdate({_id: id}, {$set: fields})` on the rows: the first
      record with this identifier gets the fields merged in. */
  function SetFields(rows: seq<Row>, id: Id, fields: Doc): (r: seq<Row>)
    ensures |r| == |rows|
    ensures forall i | 0 <= i < |rows| :: r[i].id == rows[i].id
    ensures forall i | 0 <= i < |rows| && rows[i].id != id :: r[i] == rows[i]
    ensures FindRow(rows, id).None? ==> r == rows
    ensures FindRow(rows, id).Some? ==>
              FindRow(r, id) == Some(Row(id, Merge(FindRow(rows, id).value.doc, fields)))
  {
    if rows == [] then []
    else if rows[0].id == id then [Row(id, Merge(rows[0].doc, fields))] + rows[1..]
    else [rows[0]] + SetFields(rows[1..], id, fields)
  }

  /** `findOneAndDelete({_id: id})` on the rows: the first record with this
      identifier is removed. */
  function Without(rows: seq<Row>, id: Id): (r: seq<Row>)
    ensures FindRow(rows, id).None? ==> r == rows
    ensures FindRow(rows, id).Some? ==> |r| == |rows| - 1
    ensures forall x :: x in r ==> x in rows
    ensures forall x :: x in rows && x.id != id ==> x in r
  {
    if rows == [] then []
    else if rows[0].id == id then rows[1..]
    else [rows[0]] + Without(rows[1..], id)
  }

  /** With distinct identifiers, `$set` by id changes exactly the one record
      with that id. */
  lemma {:induction false} SetFieldsOfDistinct(rows: seq<Row>, id: Id, fields: Doc)
    requires DistinctIds(rows)
    ensures forall i | 0 <= i < |rows| ::
              SetFields(rows, id, fields)[i] == if rows[i].id == id then Row(id, Merge(rows[i].doc, fields)) else rows[i]
  {
    if rows != [] && rows[0].id != id {
      assert DistinctIds(rows[1..]) by {
        assert forall i | 0 <= i < |rows[1..]| :: rows[1..][i] == rows[i + 1];
      }
      SetFieldsOfDistinct(rows[1..], id, fields);
      assert forall i | 1 <= i < |rows| :: SetFields(rows, id, fields)[i] == SetFields(rows[1..], id, fields)[i - 1];
    }
  }

  /** With no conditions, `find()` returns the whole collection. */
  lemma {:induction false} SelectEverything(rows: seq<Row>)
    ensures Select(rows, map[]) == rows
  {
    if rows != [] {
      SelectEverything(rows[1..]);
      assert rows == [rows[0]] + rows[1..];
    }
  }

  /** `find` keeps natural order: a record appended at the end comes last in
      the result, when it matches, after the earlier matches in their order. */
  lemma {:induction false} SelectAppend(rows: seq<Row>, x: Row, filter: Filter)
    ensures Select(rows + [x], filter) == Select(rows, filter) + if Matches(x, filter) then [x] else []
  {
    if rows != [] {
      assert (rows + [x])[1..] == rows[1..] + [x];
      SelectAppend(rows[1..], x, filter);
    }
  }

  /** `find(filter)[0]` is `findOne(filter)`. */
  lemma {:induction false} SelectHeadIsFirst(rows: seq<Row>, filter: Filter)
    ensures Select(rows, filter) == [] <==> First(rows, filter).None?
    ensures Select(rows, filter) != [] ==> First(rows, filter) == Some(Select(rows, filter)[0])
  {
    if rows != [] && !Matches(rows[0], filter) {
      SelectHeadIsFirst(rows[1..], filter);
    }
  }

  /** A record appended at the end is found only when nothing before matches. */
  lemma {:induction false} FirstAppend(rows: seq<Row>, x: Row, filter: Filter)
    ensures First(rows + [x], filter) ==
              if First(rows, filter).Some? then First(rows, filter)
              else if Matches(x, filter) then Some(x) else None
  {
    if rows != [] {
      assert (rows + [x])[1..] == rows[1..] + [x];
      FirstAppend(rows[1..], x, filter);
    }
  }

  /** Inserting a record under a fresh identifier makes `findById` return it. */
  lemma FindAfterInsert(rows: seq<Row>, x: Row)
    requires FindRow(rows, x.id).None?
    ensures FindRow(rows + [x], x.id) == Some(x)
  {
    FirstAppend(rows, x, IdFilter(x.id));
  }

  /** A `$set` on fields the filter does not mention changes no record's match
      status, so `findOne(filter)` finds the same record, updated when it is
      the one the `$set` addressed. */
  lemma {:induction false} FirstAfterSetFields(rows: seq<Row>, id: Id, fields: Doc, filter: Filter)
    requires DistinctIds(rows)
    requires forall f :: f in filter ==> f !in fields
    ensures First(SetFields(rows, id, fields), filter) ==
              match First(rows, filter)
              case None => None
              case Some(c) => Some(if c.id == id then Row(id, Merge(c.doc, fields)) else c)
  {
    if rows != [] {
      MergeKeepsMatch(rows[0], fields, filter);
      if rows[0].id == id {
        assert SetFields(rows, id, fields)[1..] == rows[1..];
      } else {
        assert SetFields(rows, id, fields)[1..] == SetFields(rows[1..], id, fields);
        assert DistinctIds(rows[1..]);
        FirstAfterSetFields(rows[1..], id, fields, filter);
      }
    }
  }

  /** Removing by identifier keeps the identifiers distinct. */
  lemma {:induction false} WithoutKeepsDistinct(rows: seq<Row>, id: Id)
    requires DistinctIds(rows)
    ensures DistinctIds(Without(rows, id))
  {
    if rows != [] && rows[0].id != id {
      var t := rows[1..];
      assert DistinctIds(t);
      WithoutKeepsDistinct(t, id);
      var w := Without(t, id);
      forall j | 0 <= j < |w| ensures w[j].id != rows[0].id {
        assert w[j] in t;
      }
    }
  }

  /** After `delete`, no record has that identifier: `findById` is null and
      `find({_id: id})` is empty. */
  lemma {:induction false} DeleteRemovesId(rows: seq<Row>, id: Id)
    requires DistinctIds(rows)
    ensures FindRow(Without(rows, id), id).None?
    ensures Select(Without(rows, id), IdFilter(id)) == []
  {
    if rows != [] {
      if rows[0].id == id {
        assert forall i | 0 <= i < |rows[1..]| :: rows[1..][i].id != id by {
          forall i | 0 <= i < |rows[1..]| ensures rows[1..][i].id != id {
            assert rows[1..][i] == rows[i + 1];
          }
        }
      } else {
        assert DistinctIds(rows[1..]);
        DeleteRemovesId(rows[1..], id);
      }
    }
    SelectHeadIsFirst(Without(rows, id), IdFilter(id));
  }

  /** One collection of the store. */
  class Collection {
    var rows: seq<Row>
    /** The identifier the next insert receives (ObjectId generation). */
    var nextId: Id

    ghost predicate Valid()
      reads this
    {
      ValidState(rows, nextId)
    }

    constructor ()
      ensures Valid() && rows == []
    {
      rows := [];
      nextId := 0;
    }

    /** `insertOne(doc)`: appends the document under a fresh identifier and
        returns the inserted record (`result.ops[0]`). */
    method InsertOne(doc: Doc) returns (row: Row)
      requires Valid()
      modifies this
      ensures Valid()
      ensures row == Row(old(nextId), doc) && nextId == old(nextId) + 1
      ensures FindRow(old(rows), row.id).None?
      ensures rows == old(rows) + [row]
    {
      row := Row(nextId, doc);
      rows := rows + [row];
      nextId := nextId + 1;
    }

    /** `findOneAndUpdate({_id: id}, {$set: fields})`: returns the record as
        it was before the update, or none when no record has this id. */
    method FindOneAndUpdate(id: Id, fields: Doc) returns (before: Option<Row>)
      requires Valid()
      modifies this
      ensures Valid() && nextId == old(nextId)
      ensures before == FindRow(old(rows), id)
      ensures rows == SetFields(old(rows), id, fields)
    {
      before := FindRow(rows, id);
      rows := SetFields(rows, id, fields);
    }

    /** `findOneAndDelete({_id: id})`: returns the removed record, if any. */
    method FindOneAndDelete(id: Id) returns (removed: Option<Row>)
      requires Valid()
      modifies this
      ensures Valid() && nextId == old(nextId)
      ensures removed == FindRow(old(rows), id)
      ensures rows == Without(old(rows), id)
    {
      removed := FindRow(rows, id);
      WithoutKeepsDistinct(rows, id);
      rows := Without(rows, id);
    }
  }
}
