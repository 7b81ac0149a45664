/** The rule-driven validator (src/Validator.ts).

    A collection's rules name the fields that are required and the fields that
    must be unique.  A validation run appends one message per violation to the
    validator's `errors` list (required fields first, then unique fields, each
    in rule order) and fails with all of them joined by single spaces.
 */
module Validation {
  import opened Docs
  import opened DocStore

  /** One entry of the rules table; an absent list behaves as an empty one. */
  datatype Rules = Rules(required: seq<string>, unique: seq<string>)

  datatype Outcome = Pass | Fail(error: Error)

  const IS_REQUIRED := "is required."
  const ALREADY_TAKEN := "has already been taken."

  /** The characters at which the regular expression `.` does not match. */
  predicate IsLineTerminator(c: char) {
    c == '\n' || c == '\r' || c == '\U{2028}' || c == '\U{2029}'
  }

  /** `toUpperCase` on one character (ASCII letters only). */
  function Upper(c: char): (u: char)
    ensures 'a' <= c <= 'z' ==> 'A' <= u <= 'Z' && u as int == c as int - 32
    ensures !('a' <= c <= 'z') ==> u == c
  {
    if 'a' <= c <= 'z' then (c as int - 32) as char else c
  }

  /** Position `i` is where `/./` first matches in `s`. */
  ghost predicate FirstMatchAt(s: string, i: int)
    requires 0 <= i < |s|
  {
    !IsLineTerminator(s[i]) && forall j | 0 <= j < i :: IsLineTerminator(s[j])
  }

  /** `s.replace(/./, x => x.toUpperCase())`: the first character that is
      not a line terminator is upper-cased; nothing else changes. */
  function CapitalizeFirst(s: string): (r: string)
    ensures |r| == |s|
    ensures forall i | 0 <= i < |s| :: r[i] == if FirstMatchAt(s, i) then Upper(s[i]) else s[i]
  {
    if s == [] then []
    else if IsLineTerminator(s[0]) then
      var rest := CapitalizeFirst(s[1..]);
      assert forall i | 1 <= i < |s| :: FirstMatchAt(s, i) == FirstMatchAt(s[1..], i - 1);
      [s[0]] + rest
    else
      assert forall i | 1 <= i < |s| :: !FirstMatchAt(s, i);
      [Upper(s[0])] + s[1..]
  }

  /** From a character `/./` matches and `toUpperCase` leaves alone, nothing
      is changed. */
  lemma CapitalizeFirstKeepsFrom(s: string, k: nat)
    requires k < |s| && !IsLineTerminator(s[k]) && Upper(s[k]) == s[k]
    ensures CapitalizeFirst(s)[k..] == s[k..]
  {
    var r := CapitalizeFirst(s);
    forall j | 0 <= j < |s| - k
      ensures r[k..][j] == s[k..][j]
    {
      if j > 0 {
        assert IsLineTerminator(s[k]) || !FirstMatchAt(s, k + j);
      }
    }
  }

  /** `formatError(property, description)`: `"<property> <description>"`
      with only its first character capitalised. */
  function FormatError(property: string, description: string): (r: string)
    ensures |r| == |property| + 1 + |description|
    ensures r[|property|..] == " " + description
    ensures property != [] && !IsLineTerminator(property[0]) ==>
              r == [Upper(property[0])] + property[1..] + " " + description
  {
    var s := property + " " + description;
    assert s[|property|] == ' ' && s[|property|..] == " " + description;
    CapitalizeFirstKeepsFrom(s, |property|);
    if property != [] && !IsLineTerminator(property[0]) then
      assert s[1..] == property[1..] + " " + description;
      CapitalizeFirst(s)
    else
      CapitalizeFirst(s)
  }

  /** `Array.prototype.join(' ')`. */
  function JoinSpaces(messages: seq<string>): string {
    if |messages| == 0 then ""
    else if |messages| == 1 then messages[0]
    else JoinSpaces(messages[..|messages| - 1]) + " " + messages[|messages| - 1]
  }

  /** The condition of `validateRequired` for one property: the value is
      falsy, and either the property is present or this is a create. */
  predicate Missing(data: Doc, property: string, isUpdate: bool) {
    !FieldTruthy(data, property) && (property in data || !isUpdate)
  }

  /** The filter `{[property]: data[property]}` of `validateUnique`. */
  function ValueFilter(data: Doc, property: string): (f: Filter)
    ensures forall r: Row :: Matches(r, f) <==> Lookup(r, property) == Get(data, property)
  {
    map[property := Eq(Get(data, property))]
  }

  /** The condition of `validateUnique` for one property: the value is truthy,
      `findOne` finds a stored document with it, and this is a create or the
      document found is not the one being updated. */
  predicate Taken(data: Doc, property: string, id: Option<Id>, rows: seq<Row>) {
    FieldTruthy(data, property) &&
    var found := First(rows, ValueFilter(data, property));
    found.Some? && (id.None? || found.value.id != id.value)
  }

  /** The messages `validateRequired` pushes, in rule order. */
  function RequiredErrors(required: seq<string>, data: Doc, isUpdate: bool): seq<string> {
    if required == [] then []
    else
      var last := required[|required| - 1];
      RequiredErrors(required[..|required| - 1], data, isUpdate)
        + if Missing(data, last, isUpdate) then [FormatError(last, IS_REQUIRED)] else []
  }

  /** The messages `validateUnique` pushes, in rule order. */
  function UniqueErrors(unique: seq<string>, data: Doc, id: Option<Id>, rows: seq<Row>): seq<string> {
    if unique == [] then []
    else
      var last := unique[|unique| - 1];
      UniqueErrors(unique[..|unique| - 1], data, id, rows)
        + if Taken(data, last, id, rows) then [FormatError(last, ALREADY_TAKEN)] else []
  }

  /** Every message one run of `validate` collects: required, then unique. */
  function Errors(rules: Rules, data: Doc, id: Option<Id>, rows: seq<Row>): seq<string> {
    RequiredErrors(rules.required, data, id.Some?) + UniqueErrors(rules.unique, data, id, rows)
  }

  /** What `validate` on a fresh validator does: a TypeError when the
      collection has no rules entry, a ValidationError carrying every message
      when some rule is violated, and nothing otherwise. */
  function Check(rules: Option<Rules>, data: Doc, id: Option<Id>, rows: seq<Row>): Outcome {
    if rules.None? then Fail(Fault)
    else
      var errors := Errors(rules.value, data, id, rows);
      if errors == [] then Pass else Fail(Invalid(JoinSpaces(errors)))
  }

  /** One more unique rule: its message, if any, comes after the earlier ones. */
  lemma UniqueErrorsStep(unique: seq<string>, i: nat, data: Doc, id: Option<Id>, rows: seq<Row>)
    requires i < |unique|
    ensures UniqueErrors(unique[..i + 1], data, id, rows) ==
              UniqueErrors(unique[..i], data, id, rows)
                + if Taken(data, unique[i], id, rows) then [FormatError(unique[i], ALREADY_TAKEN)] else []
  {
    assert unique[..i + 1][..i] == unique[..i];
  }

  class Validator {
    /** `validation[collection]`; None when the table has no entry. */
    const rules: Option<Rules>
    var errors: seq<string>

    constructor (rules: Option<Rules>)
      ensures this.rules == rules && errors == []
    {
      this.rules := rules;
      errors := [];
    }

    /** `validate(data, _id?)`: an `_id` marks an update.  Only `errors`
        changes; the store is only read. */
    method Validate(data: Doc, id: Option<Id>, store: Collection) returns (outcome: Outcome)
      modifies this
      ensures rules.None? ==> outcome == Fail(Fault) && errors == old(errors)
      ensures rules.Some? ==> errors == old(errors) + Errors(rules.value, data, id, store.rows)
      ensures rules.Some? ==> outcome == if errors == [] then Pass else Fail(Invalid(JoinSpaces(errors)))
      ensures old(errors) == [] ==> outcome == Check(rules, data, id, store.rows)
    {
      if rules.None? {
        // `this.rules.required` on an undefined entry throws
        return Fail(Fault);
      }
      var required := RequiredErrors(rules.value.required, data, id.Some?);
      var unique := UniqueErrors(rules.value.unique, data, id, store.rows);
      ValidateRequired(data, id.Some?);
      ValidateUnique(data, id, store);
      assert errors == old(errors) + required + unique;
      assert old(errors) + required + unique == old(errors) + (required + unique);
      assert old(errors) == [] ==> errors == Errors(rules.value, data, id, store.rows);
      if |errors| > 0 {
        return Fail(Invalid(JoinSpaces(errors)));
      }
      return Pass;
    }

    /** `validateRequired(data, isUpdate)` */
    method ValidateRequired(data: Doc, isUpdate: bool)
      requires rules.Some?
      modifies this
      ensures errors == old(errors) + RequiredErrors(rules.value.required, data, isUpdate)
    {
      var required := rules.value.required;
      for i := 0 to |required|
        invariant errors == old(errors) + RequiredErrors(required[..i], data, isUpdate)
      {
        var property := required[i];
        assert required[..i + 1][..i] == required[..i];
        if !FieldTruthy(data, property) && (property in data || !isUpdate) {
          errors := errors + [FormatError(property, IS_REQUIRED)];
        }
      }
      assert required[..|required|] == required;
    }

    /** `validateUnique(data, _id?)`: one `findOne` per truthy unique field. */
    method ValidateUnique(data: Doc, id: Option<Id>, store: Collection)
      requires rules.Some?
      modifies this
      ensures errors == old(errors) + UniqueErrors(rules.value.unique, data, id, store.rows)
    {
      var unique := rules.value.unique;
      var rows := store.rows;
      for i := 0 to |unique|
        invariant errors == old(errors) + UniqueErrors(unique[..i], data, id, rows)
      {
        var property := unique[i];
        UniqueErrorsStep(unique, i, data, id, rows);
        var value := Get(data, property);
        if Truthy(value) {
          var filter := map[property := Eq(value)];
          var result := First(rows, filter);
          if result.Some? && (id.None? || result.value.id != id.value) {
            errors := errors + [FormatError(property, ALREADY_TAKEN)];
          }
        }
      }
      assert unique[..|unique|] == unique;
    }
  }

  // ---------------------------------------------------------------------
  // Properties of the rules

  /** A required field that fails its check is reported, on create and on update. */
  lemma {:induction false} MissingIsReported(required: seq<string>, data: Doc, isUpdate: bool, property: string)
    requires property in required && Missing(data, property, isUpdate)
    ensures FormatError(property, IS_REQUIRED) in RequiredErrors(required, data, isUpdate)
  {
    var n := |required| - 1;
    if required[n] != property {
      assert property in required[..n] by {
        var k :| 0 <= k < |required| && required[k] == property;
        assert required[..n][k] == property;
      }
      MissingIsReported(required[..n], data, isUpdate, property);
    }
  }

  /** No required-field message at all exactly when every required field passes. */
  lemma {:induction false} NoRequiredErrorsIff(required: seq<string>, data: Doc, isUpdate: bool)
    ensures RequiredErrors(required, data, isUpdate) == [] <==>
              forall i | 0 <= i < |required| :: !Missing(data, required[i], isUpdate)
  {
    if required != [] {
      var n := |required| - 1;
      NoRequiredErrorsIff(required[..n], data, isUpdate);
      assert forall i | 0 <= i < n :: required[..n][i] == required[i];
    }
  }

  /** Nothing else is reported: at most one message per required rule, and
      each message is that of a required field failing its check. */
  lemma {:induction false} RequiredErrorsOnlyMissing(required: seq<string>, data: Doc, isUpdate: bool)
    ensures |RequiredErrors(required, data, isUpdate)| <= |required|
    ensures forall m | m in RequiredErrors(required, data, isUpdate) ::
              exists i | 0 <= i < |required| :: Missing(data, required[i], isUpdate) && m == FormatError(required[i], IS_REQUIRED)
  {
    if required != [] {
      var n := |required| - 1;
      RequiredErrorsOnlyMissing(required[..n], data, isUpdate);
      assert forall i | 0 <= i < n :: required[..n][i] == required[i];
    }
  }

  /** On create every required field must be present and truthy. */
  lemma CreateRequiresEveryField(required: seq<string>, data: Doc)
    ensures RequiredErrors(required, data, false) == [] <==>
              forall i | 0 <= i < |required| :: FieldTruthy(data, required[i])
  {
    NoRequiredErrorsIff(required, data, false);
  }

  /** The required fields the update payload carries. */
  function Present(required: seq<string>, data: Doc): (r: seq<string>)
    ensures forall f :: f in r <==> f in required && f in data
  {
    if required == [] then []
    else
      var n := |required| - 1;
      Present(required[..n], data) + if required[n] in data then [required[n]] else []
  }

  /** An update checks exactly the required fields present in its payload,
      and checks them as a create would: an absent field is never an error,
      a present falsy one always is. */
  lemma {:induction false} UpdateChecksPresentFields(required: seq<string>, data: Doc)
    ensures RequiredErrors(required, data, true) == RequiredErrors(Present(required, data), data, false)
  {
    if required != [] {
      var n := |required| - 1;
      UpdateChecksPresentFields(required[..n], data);
      var p := Present(required[..n], data);
      if required[n] in data {
        assert (p + [required[n]])[..|p|] == p;
      } else {
        assert p + [] == p;
      }
    }
  }

  /** A taken unique value is reported. */
  lemma {:induction false} TakenIsReported(unique: seq<string>, data: Doc, id: Option<Id>, rows: seq<Row>, property: string)
    requires property in unique && Taken(data, property, id, rows)
    ensures FormatError(property, ALREADY_TAKEN) in UniqueErrors(unique, data, id, rows)
  {
    var n := |unique| - 1;
    if unique[n] != property {
      assert property in unique[..n] by {
        var k :| 0 <= k < |unique| && unique[k] == property;
        assert unique[..n][k] == property;
      }
      TakenIsReported(unique[..n], data, id, rows, property);
    }
  }

  /** No unique-field message at all exactly when no unique value is taken. */
  lemma {:induction false} NoUniqueErrorsIff(unique: seq<string>, data: Doc, id: Option<Id>, rows: seq<Row>)
    ensures UniqueErrors(unique, data, id, rows) == [] <==>
              forall i | 0 <= i < |unique| :: !Taken(data, unique[i], id, rows)
  {
    if unique != [] {
      var n := |unique| - 1;
      NoUniqueErrorsIff(unique[..n], data, id, rows);
      assert forall i | 0 <= i < n :: unique[..n][i] == unique[i];
    }
  }

  /** Nothing else is reported: at most one message per unique rule, and
      each message is that of a unique field whose value is taken. */
  lemma {:induction false} UniqueErrorsOnlyTaken(unique: seq<string>, data: Doc, id: Option<Id>, rows: seq<Row>)
    ensures |UniqueErrors(unique, data, id, rows)| <= |unique|
    ensures forall m | m in UniqueErrors(unique, data, id, rows) ::
              exists i | 0 <= i < |unique| :: Taken(data, unique[i], id, rows) && m == FormatError(unique[i], ALREADY_TAKEN)
  {
    if unique != [] {
      var n := |unique| - 1;
      UniqueErrorsOnlyTaken(unique[..n], data, id, rows);
      assert forall i | 0 <= i < n :: unique[..n][i] == unique[i];
    }
  }

  /** The store keeps `property` unique: no truthy value of it is held by two
      records.  Falsy values are never checked, so any number of records may
      lack the field. */
  ghost predicate UniqueColumn(rows: seq<Row>, property: string) {
    forall i, j | 0 <= i < |rows| && 0 <= j < |rows| && i != j && Truthy(Lookup(rows[i], property)) ::
      Lookup(rows[i], property) != Lookup(rows[j], property)
  }

  lemma SameValueSameIndex(rows: seq<Row>, property: string, i: nat, k: nat)
    requires UniqueColumn(rows, property)
    requires i < |rows| && k < |rows| && Lookup(rows[i], property) == Lookup(rows[k], property)
    requires Truthy(Lookup(rows[i], property))
    ensures i == k
  {
  }

  /** Where the stored values are unique, a truthy value is taken exactly when
      some stored record holds it and this is a create or that record is not
      the one being updated. */
  lemma TakenIff(data: Doc, property: string, id: Option<Id>, rows: seq<Row>)
    requires UniqueColumn(rows, property)
    ensures Taken(data, property, id, rows) <==>
              FieldTruthy(data, property) &&
              exists i | 0 <= i < |rows| :: Lookup(rows[i], property) == Get(data, property)
                                            && (id.None? || rows[i].id != id.value)
  {
    var f := ValueFilter(data, property);
    var found := First(rows, f);
    if found.Some? && FieldTruthy(data, property) {
      var i :| 0 <= i < |rows| && rows[i] == found.value && Matches(rows[i], f);
      forall k | 0 <= k < |rows| && Lookup(rows[k], property) == Get(data, property) ensures k == i {
        SameValueSameIndex(rows, property, k, i);
      }
    }
  }

  /** Updating a unique field to the record's own stored value is accepted. */
  lemma OwnValueIsNotTaken(data: Doc, property: string, id: Id, rows: seq<Row>, k: nat)
    requires UniqueColumn(rows, property)
    requires k < |rows| && rows[k].id == id && Lookup(rows[k], property) == Get(data, property)
    ensures !Taken(data, property, Some(id), rows)
  {
    TakenIff(data, property, Some(id), rows);
    if FieldTruthy(data, property) {
      forall i | 0 <= i < |rows| && Lookup(rows[i], property) == Get(data, property) ensures rows[i].id == id {
        SameValueSameIndex(rows, property, i, k);
      }
    }
  }

  /** A write that passes validation takes no value of a unique field. */
  lemma PassTakesNothing(rules: Rules, data: Doc, id: Option<Id>, rows: seq<Row>, property: string)
    requires Check(Some(rules), data, id, rows) == Pass && property in rules.unique
    ensures !Taken(data, property, id, rows)
  {
    CheckFailsIff(rules, data, id, rows);
    var k :| 0 <= k < |rules.unique| && rules.unique[k] == property;
  }

  /** `validate` fails with a ValidationError exactly when some rule is
      violated, and then its message is the first error when there is only one. */
  lemma CheckFailsIff(rules: Rules, data: Doc, id: Option<Id>, rows: seq<Row>)
    ensures Check(Some(rules), data, id, rows).Fail? <==>
              (exists i | 0 <= i < |rules.required| :: Missing(data, rules.required[i], id.Some?))
              || (exists i | 0 <= i < |rules.unique| :: Taken(data, rules.unique[i], id, rows))
    ensures |Errors(rules, data, id, rows)| == 1 ==>
              Check(Some(rules), data, id, rows) == Fail(Invalid(Errors(rules, data, id, rows)[0]))
  {
    NoRequiredErrorsIff(rules.required, data, id.Some?);
    NoUniqueErrorsIff(rules.unique, data, id, rows);
  }
}
