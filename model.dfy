/** The generic model base (src/models/Model.ts).

    A model class is bound to one collection and to that collection's entry
    of the rules table.  Reads go straight to the store; `create` and `update`
    validate first and write only when validation passes; `delete` removes
    the record with the entity's id.  Hydration (`getModel`) turns a stored
    record into an entity; for the generic model the entity is the record
    itself.
 */
module ModelBase {
  import opened Docs
  import opened DocStore
  import opened Validation

  /** The state of a collection after an operation, with what it returned. */
  datatype Step<T> = Step(rows: seq<Row>, nextId: Id, outcome: Result<T>)

  /** What `create(data)` does to a collection in state (rows, nextId). */
  function CreateStep(rules: Option<Rules>, rows: seq<Row>, nextId: Id, data: Doc): (s: Step<Row>)
    ensures s.outcome.Err? <==> Check(rules, data, None, rows).Fail?
    ensures s.outcome.Err? ==> s.rows == rows && s.nextId == nextId
    ensures s.outcome.Ok? ==> s.outcome.value.doc == data && s.rows == rows + [s.outcome.value]
    ensures ValidState(rows, nextId) ==> ValidState(s.rows, s.nextId)
    ensures ValidState(rows, nextId) && s.outcome.Ok? ==> FindRow(rows, s.outcome.value.id).None?
  {
    match Check(rules, data, None, rows)
    case Fail(e) => Step(rows, nextId, Err(e))
    case Pass => Step(rows + [Row(nextId, data)], nextId + 1, Ok(Row(nextId, data)))
  }

    /** A create that passes validation keeps each unique field unique: the
      new record's truthy value was found nowhere in the store. */
  lemma CreateKeepsUniqueColumn(rules: Option<Rules>, rows: seq<Row>, nextId: Id, data: Doc, property: string)
    requires ValidState(rows, nextId) && UniqueColumn(rows, property)
    requires rules.Some? && property in rules.value.unique
    ensures UniqueColumn(CreateStep(rules, rows, nextId, data).rows, property)
  {
    var s := CreateStep(rules, rows, nextId, data);
    if s.outcome.Ok? {
      var x := s.outcome.value;
      var r := s.rows;
      PassTakesNothing(rules.value, data, None, rows, property);
      TakenIff(data, property, None, rows);
      assert forall k | 0 <= k < |rows| && FieldTruthy(data, property) :: Lookup(rows[k], property) != Get(data, property);
      forall i, j | 0 <= i < |r| && 0 <= j < |r| && i != j && Truthy(Lookup(r[i], property))
        ensures Lookup(r[i], property) != Lookup(r[j], property)
      {
        if i < |rows| && j < |rows| {
          assert r[i] == rows[i] && r[j] == rows[j];
        } else if property == "_id" {
          assert r[i].id != r[j].id;
        } else {
          assert Lookup(x, property) == Get(data, property);
          var k := if i < |rows| then i else j;
          assert r[k] == rows[k];
        }
      }
    }
  }

  /** What a `$set` by id does to one field's column when ids are distinct:
      the updated record shows the supplied value when one is supplied (an
      `_id` is never overwritten), and every other entry stays. */
  lemma ColumnAfterSetFields(rows: seq<Row>, id: Id, data: Doc, property: string)
    requires DistinctIds(rows)
    ensures forall i | 0 <= i < |rows| ::
              Lookup(SetFields(rows, id, data)[i], property) ==
                if rows[i].id == id && property != "_id" && property in data then data[property]
                else Lookup(rows[i], property)
  {
    SetFieldsOfDistinct(rows, id, data);
  }

  /** An update that passes validation keeps each unique field unique: a
      truthy value it sets is held by no other record. */
  lemma UpdateKeepsUniqueColumn(rules: Option<Rules>, rows: seq<Row>, nextId: Id, id: Id, data: Doc, property: string)
    requires ValidState(rows, nextId) && UniqueColumn(rows, property)
    requires rules.Some? && property in rules.value.unique
    ensures UniqueColumn(UpdateStep(rules, rows, nextId, id, data).rows, property)
  {
    var s := UpdateStep(rules, rows, nextId, id, data);
    if s.outcome.Ok? {
      var r := s.rows;
      assert r == SetFields(rows, id, data);
      PassTakesNothing(rules.value, data, Some(id), rows, property);
      TakenIff(data, property, Some(id), rows);
      var changed := property != "_id" && property in data;
      assert forall k | 0 <= k < |rows| && FieldTruthy(data, property) && Lookup(rows[k], property) == Get(data, property) ::
               rows[k].id == id;
      ColumnAfterSetFields(rows, id, data, property);
      forall i, j | 0 <= i < |r| && 0 <= j < |r| && i != j && Truthy(Lookup(r[i], property))
        ensures Lookup(r[i], property) != Lookup(r[j], property)
      {
        assert rows[i].id != rows[j].id;
        if rows[i].id == id && changed {
          assert Get(data, property) == data[property];
          assert Lookup(r[j], property) == Lookup(rows[j], property);
        } else if rows[j].id == id && changed {
          assert Get(data, property) == data[property];
          assert Lookup(r[i], property) == Lookup(rows[i], property);
        } else {
          assert Lookup(r[i], property) == Lookup(rows[i], property);
          assert Lookup(r[j], property) == Lookup(rows[j], property);
        }
      }
    }
  }

  /** What `update(data)` on the entity with id `id` does to a collection in
      state (rows, nextId). */
  function UpdateStep(rules: Option<Rules>, rows: seq<Row>, nextId: Id, id: Id, data: Doc): (s: Step<Option<Row>>)
    ensures s.outcome.Err? <==> Check(rules, data, Some(id), rows).Fail?
    ensures s.nextId == nextId
    ensures s.outcome.Err? ==> s.rows == rows
    ensures s.outcome.Ok? ==> s.outcome.value == FindRow(rows, id) && s.rows == SetFields(rows, id, data)
    ensures ValidState(rows, nextId) ==> ValidState(s.rows, s.nextId)
  {
    match Check(rules, data, Some(id), rows)
    case Fail(e) => Step(rows, nextId, Err(e))
    case Pass => Step(SetFields(rows, id, data), nextId, Ok(FindRow(rows, id)))
  }

  class Model {
    const store: Collection
    const rules: Option<Rules>

    constructor (store: Collection, rules: Option<Rules>)
      ensures this.store == store && this.rules == rules
    {
      this.store := store;
      this.rules := rules;
    }

    /** `findAll(query?)`: exactly the records matching the filter, in
        natural order; with no conditions, every record. */
    method FindAll(filter: Filter) returns (entities: seq<Row>)
      ensures entities == Select(store.rows, filter)
      ensures forall e :: e in entities <==> e in store.rows && Matches(e, filter)
      ensures filter == map[] ==> entities == store.rows
    {
      entities := Select(store.rows, filter);
      if filter == map[] {
        SelectEverything(store.rows);
      }
    }

    /** `findById(id)`: the record with this id, or null when there is none. */
    method FindById(id: Id) returns (entity: Option<Row>)
      ensures entity.None? <==> forall i | 0 <= i < |store.rows| :: store.rows[i].id != id
      ensures entity.Some? ==> entity.value in store.rows && entity.value.id == id
      ensures entity == FindRow(store.rows, id)
    {
      entity := FindRow(store.rows, id);
    }

    /** `create(data)`: validates as a create, then inserts.  A violation
        leaves the store as it was; success returns the inserted record,
        whose document is the data given. */
    method Create(data: Doc) returns (result: Result<Row>)
      requires store.Valid()
      modifies store
      ensures store.Valid()
      ensures result.Err? <==> Check(rules, data, None, old(store.rows)).Fail?
      ensures result.Err? ==> result.error == Check(rules, data, None, old(store.rows)).error
      ensures result.Err? ==> store.rows == old(store.rows) && store.nextId == old(store.nextId)
      ensures result.Ok? ==> result.value.doc == data && FindRow(old(store.rows), result.value.id).None?
      ensures result.Ok? ==> store.rows == old(store.rows) + [result.value]
      ensures Step(store.rows, store.nextId, result) == CreateStep(rules, old(store.rows), old(store.nextId), data)
    {
      var validator := new Validator(rules);
      var outcome := validator.Validate(data, None, store);
      if outcome.Fail? {
        return Err(outcome.error);
      }
      var row := store.InsertOne(data);
      return Ok(row);
    }

    /** `update(data)` on the entity with id `id`: validates as an update of
        that entity, then `$set`s the given fields on it.  A violation leaves
        the store as it was; success returns the record as it was before. */
    method Update(id: Id, data: Doc) returns (result: Result<Option<Row>>)
      requires store.Valid()
      modifies store
      ensures store.Valid() && store.nextId == old(store.nextId)
      ensures result.Err? <==> Check(rules, data, Some(id), old(store.rows)).Fail?
      ensures result.Err? ==> result.error == Check(rules, data, Some(id), old(store.rows)).error
      ensures result.Err? ==> store.rows == old(store.rows)
      ensures result.Ok? ==> result.value == FindRow(old(store.rows), id)
      ensures result.Ok? ==> store.rows == SetFields(old(store.rows), id, data)
      ensures Step(store.rows, store.nextId, result) == UpdateStep(rules, old(store.rows), old(store.nextId), id, data)
    {
      var validator := new Validator(rules);
      var outcome := validator.Validate(data, Some(id), store);
      if outcome.Fail? {
        return Err(outcome.error);
      }
      var before := store.FindOneAndUpdate(id, data);
      return Ok(before);
    }

    /** `delete()` on the entity with id `id`: returns the removed record. */
    method Delete(id: Id) returns (removed: Option<Row>)
      requires store.Valid()
      modifies store
      ensures store.Valid() && store.nextId == old(store.nextId)
      ensures removed == FindRow(old(store.rows), id)
      ensures store.rows == Without(old(store.rows), id)
    {
      removed := store.FindOneAndDelete(id);
    }
  }

  // ---------------------------------------------------------------------
  // What the CRUD operations promise about later reads

  /** After a successful `create`, `findById` of the new id returns exactly
      the record created (which holds the data given). */
  lemma CreatedIsFound(rows: seq<Row>, created: Row)
    requires FindRow(rows, created.id).None?
    ensures FindRow(rows + [created], created.id) == Some(created)
    ensures created in Select(rows + [created], map[])
  {
    FindAfterInsert(rows, created);
  }

  /** A successful `update` sets exactly the supplied fields on the record
      with this id: supplied fields take the new values, the record's other
      fields keep theirs, and every other record is unchanged. */
  lemma {:induction false} UpdateSetsExactlySuppliedFields(rows: seq<Row>, id: Id, data: Doc, other: Id)
    requires DistinctIds(rows)
    requires FindRow(rows, id).Some?
    ensures var updated := FindRow(SetFields(rows, id, data), id).value.doc;
            var before := FindRow(rows, id).value.doc;
            && updated.Keys == before.Keys + data.Keys
            && (forall f :: f in data ==> updated[f] == data[f])
            && (forall f :: f in before && f !in data ==> updated[f] == before[f])
    ensures other != id ==> FindRow(SetFields(rows, id, data), other) == FindRow(rows, other)
  {
    if other != id {
      FindOtherAfterSetFields(rows, id, data, other);
    }
  }

  lemma {:induction false} FindOtherAfterSetFields(rows: seq<Row>, id: Id, data: Doc, other: Id)
    requires other != id
    ensures FindRow(SetFields(rows, id, data), other) == FindRow(rows, other)
  {
    if rows != [] {
      var r := SetFields(rows, id, data);
      if rows[0].id != id {
        assert r[1..] == SetFields(rows[1..], id, data);
        FindOtherAfterSetFields(rows[1..], id, data, other);
      } else {
        assert r[1..] == rows[1..];
      }
    }
  }

  /** After `delete`, the record is gone (`findById` is null and
      `findAll({_id})` is empty) while every other record can still be found. */
  lemma {:induction false} DeleteRemovesOnlyThatRecord(rows: seq<Row>, id: Id, other: Id)
    requires DistinctIds(rows)
    ensures FindRow(Without(rows, id), id).None?
    ensures Select(Without(rows, id), IdFilter(id)) == []
    ensures other != id ==> FindRow(Without(rows, id), other) == FindRow(rows, other)
  {
    DeleteRemovesId(rows, id);
    if other != id {
      FindOtherAfterWithout(rows, id, other);
    }
  }

  lemma {:induction false} FindOtherAfterWithout(rows: seq<Row>, id: Id, other: Id)
    requires other != id
    ensures FindRow(Without(rows, id), other) == FindRow(rows, other)
  {
    if rows != [] && rows[0].id != id {
      FindOtherAfterWithout(rows[1..], id, other);
    }
  }
}
