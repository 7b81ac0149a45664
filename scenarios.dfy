/** The user-validation behaviour the repository's tests describe
    (src/tests/models/UserValidation.test.ts): users have `email` both
    required and unique.  The two update scenarios about taken emails assume
    the store already holds each truthy email once (`UniqueColumn`), which
    every validated create and update keeps (`CreateKeepsUniqueColumn`,
    `UpdateKeepsUniqueColumn`); the others hold for any store. */
module Scenarios {
  import opened Docs
  import opened DocStore
  import opened Validation
  import opened ModelBase

  /** The rules entry the tests imply for users. */
  const USER_RULES := Some(Rules(["email"], ["email"]))

  /** The messages the tests expect. */
  lemma EmailRequiredMessage()
    ensures FormatError("email", IS_REQUIRED) == "Email is required."
  {
    var p := "email";
    assert p[0] == 'e' && !IsLineTerminator(p[0]);
    assert Upper(p[0]) == 'E';
    assert p[1..] == "mail";
    assert [Upper(p[0])] + p[1..] + " " + IS_REQUIRED == "Email is required.";
  }

  lemma EmailTakenMessage()
    ensures FormatError("email", ALREADY_TAKEN) == "Email has already been taken."
  {
    var p := "email";
    assert p[0] == 'e' && !IsLineTerminator(p[0]);
    assert Upper(p[0]) == 'E';
    assert p[1..] == "mail";
    assert [Upper(p[0])] + p[1..] + " " == "Email ";
    assert "Email " + "has already" == "Email has already";
    assert "Email has already" + " been taken." == "Email has already been taken.";
  }

  /** Creating a user with an empty email: "Email is required." */
  lemma EmailRequiredOnCreate(data: Doc, rows: seq<Row>)
    requires !FieldTruthy(data, "email")
    ensures Check(USER_RULES, data, None, rows) == Fail(Invalid("Email is required."))
  {
    EmailRequiredMessage();
    assert RequiredErrors(["email"], data, false) == [FormatError("email", IS_REQUIRED)];
    assert UniqueErrors(["email"], data, None, rows) == [];
  }

  /** Creating a user with an email some stored user has: "Email has
      already been taken." */
  lemma EmailUniqueOnCreate(data: Doc, rows: seq<Row>, k: nat)
    requires FieldTruthy(data, "email")
    requires k < |rows| && Lookup(rows[k], "email") == Get(data, "email")
    ensures Check(USER_RULES, data, None, rows) == Fail(Invalid("Email has already been taken."))
  {
    EmailTakenMessage();
    assert Matches(rows[k], ValueFilter(data, "email"));
    assert RequiredErrors(["email"], data, false) == [];
    assert UniqueErrors(["email"], data, None, rows) == [FormatError("email", ALREADY_TAKEN)];
  }

  /** An update that does not mention the email passes, and the stored email
      is kept. */
  lemma EmailNotRequiredOnUpdate(data: Doc, id: Id, rows: seq<Row>, nextId: Id)
    requires "email" !in data
    requires DistinctIds(rows) && FindRow(rows, id).Some? && "email" in FindRow(rows, id).value.doc
    ensures Check(USER_RULES, data, Some(id), rows) == Pass
    ensures var after := UpdateStep(USER_RULES, rows, nextId, id, data).rows;
            FindRow(after, id).Some? && FindRow(after, id).value.doc["email"] == FindRow(rows, id).value.doc["email"]
  {
    assert RequiredErrors(["email"], data, true) == [];
    assert UniqueErrors(["email"], data, Some(id), rows) == [];
    UpdateSetsExactlySuppliedFields(rows, id, data, id);
  }

  /** An update that empties the email fails with "Email is required." and
      leaves the store as it was. */
  lemma EmailCantBeEmptyOnUpdate(data: Doc, id: Id, rows: seq<Row>, nextId: Id)
    requires "email" in data && !FieldTruthy(data, "email")
    ensures Check(USER_RULES, data, Some(id), rows) == Fail(Invalid("Email is required."))
    ensures UpdateStep(USER_RULES, rows, nextId, id, data) == Step(rows, nextId, Err(Invalid("Email is required.")))
  {
    EmailRequiredMessage();
    assert RequiredErrors(["email"], data, true) == [FormatError("email", IS_REQUIRED)];
    assert UniqueErrors(["email"], data, Some(id), rows) == [];
  }

  /** Updating a user's email to another user's fails. */
  lemma EmailUniqueOnUpdate(data: Doc, id: Id, rows: seq<Row>, k: nat)
    requires UniqueColumn(rows, "email") && FieldTruthy(data, "email")
    requires k < |rows| && rows[k].id != id && Lookup(rows[k], "email") == Get(data, "email")
    ensures Check(USER_RULES, data, Some(id), rows) == Fail(Invalid("Email has already been taken."))
  {
    EmailTakenMessage();
    TakenIff(data, "email", Some(id), rows);
    assert RequiredErrors(["email"], data, true) == [];
    assert UniqueErrors(["email"], data, Some(id), rows) == [FormatError("email", ALREADY_TAKEN)];
  }

  /** Updating a user's email to its current value passes. */
  lemma EmailCanUpdateToCurrentValue(data: Doc, id: Id, rows: seq<Row>, k: nat)
    requires UniqueColumn(rows, "email") && FieldTruthy(data, "email")
    requires k < |rows| && rows[k].id == id && Lookup(rows[k], "email") == Get(data, "email")
    ensures Check(USER_RULES, data, Some(id), rows) == Pass
  {
    OwnValueIsNotTaken(data, "email", id, rows, k);
    assert RequiredErrors(["email"], data, true) == [];
    assert UniqueErrors(["email"], data, Some(id), rows) == [];
  }

  /** With two required fields, both missing on create, one message holds
      both complaints, in rule order, separated by one space. */
  lemma MessagesJoinInRuleOrder(data: Doc, rows: seq<Row>)
    requires !FieldTruthy(data, "name") && !FieldTruthy(data, "email")
    ensures Check(Some(Rules(["name", "email"], ["email"])), data, None, rows) ==
              Fail(Invalid(FormatError("name", IS_REQUIRED) + " " + FormatError("email", IS_REQUIRED)))
  {
    var required := ["name", "email"];
    var errors := [FormatError("name", IS_REQUIRED), FormatError("email", IS_REQUIRED)];
    assert required[..1] == ["name"] && required[..1][..0] == [];
    assert Missing(data, "name", false) && Missing(data, "email", false);
    assert RequiredErrors(["name"], data, false) == [errors[0]];
    assert RequiredErrors(required, data, false) == errors;
    assert UniqueErrors(["email"], data, None, rows) == [];
    assert Errors(Rules(required, ["email"]), data, None, rows) == errors;
    assert JoinSpaces(errors) == JoinSpaces(errors[..1]) + " " + errors[1];
    assert errors[..1] == [errors[0]];
  }
}
