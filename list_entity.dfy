/** One record of the `list` table and the validator that builds a record from the
    raw field values a screen collects. */
module Entities {
  import opened Wrappers
  import opened Text

  const NAME := "name"
  const DESCRIPTION := "description"
  const CATEGORY := "category"
  const STATUS := "status"

  /** A row of the list table. The four text columns are nullable at the storage
      level, so each is an Option; a freshly constructed entity has id 0 and null
      text fields. */
  datatype ListEntity = ListEntity(
    id: Long,
    name: Option<string>,
    description: Option<string>,
    category: Option<string>,
    status: Option<string>)

  const DEFAULT_ENTITY := ListEntity(0, None, None, None, None)

  /** A nullable HashMap<String, String> whose values may themselves be null. */
  type Values = Option<map<string, Option<string>>>

  /** The three outcomes of verifyValues: a RuntimeException "verifyValues error
      <code>", a null result, or a new entity. */
  datatype Verdict = HardFailure(code: nat) | Rejected | Accepted(entity: ListEntity)

  /** The content rule for the name: something is left after trimming. */
  predicate NameAcceptable(name: string) {
    HasVisible(name)
  }

  /** The content rule for the description: the empty string, or something that is
      not whitespace only. */
  predicate DescriptionAcceptable(description: string) {
    description == [] || HasVisible(description)
  }

  /** The content rule for a category or a status: something is left after
      trimming, and it is not the list's "no filter" placeholder, list[0]. */
  predicate ChoiceAcceptable(choice: string, list: seq<string>)
    requires |list| > 0
  {
    HasVisible(choice) && !EqualsIgnoreCase(Trim(choice), list[0])
  }

  /** ListEntity.verifyValues. The two error codes for context and resources (2 and
      3) cannot arise because the category and status lists are passed in. */
  function VerifyValues(values: Values, categories: seq<string>, statuses: seq<string>): (v: Verdict)
    requires |categories| > 0 && |statuses| > 0
    ensures v == HardFailure(1) <==> values.None?
    ensures v.HardFailure? ==> v.code in {1, 4, 5, 6, 7, 8, 9, 10, 11}
    ensures v.Accepted? ==> && values.Some?
                            && {NAME, DESCRIPTION, CATEGORY, STATUS} <= values.value.Keys
                            && v.entity == ListEntity(0, values.value[NAME], values.value[DESCRIPTION],
                                                      values.value[CATEGORY], values.value[STATUS])
                            && v.entity.name.Some? && v.entity.description.Some?
                            && v.entity.category.Some? && v.entity.status.Some?
  {
    if values.None? then HardFailure(1)
    else
      var m := values.value;
      if NAME !in m then HardFailure(5)
      else if m[NAME].None? then HardFailure(4)
      else
        var nameOk := Trim(m[NAME].value) != [];
        if DESCRIPTION !in m then HardFailure(7)
        else if m[DESCRIPTION].None? then HardFailure(6)
        else
          var description := m[DESCRIPTION].value;
          var descriptionOk := !(|description| != 0 && Trim(description) == []);
          if CATEGORY !in m then HardFailure(9)
          else if m[CATEGORY].None? then HardFailure(8)
          else
            var category := Trim(m[CATEGORY].value);
            var categoryOk := category != [] && !EqualsIgnoreCase(category, categories[0]);
            if STATUS !in m then HardFailure(11)
            else if m[STATUS].None? then HardFailure(10)
            else
              var status := Trim(m[STATUS].value);
              var statusOk := status != [] && !EqualsIgnoreCase(status, statuses[0]);
              if nameOk && descriptionOk && categoryOk && statusOk then
                Accepted(ListEntity(0, m[NAME], m[DESCRIPTION], m[CATEGORY], m[STATUS]))
              else
                Rejected
  }

  // ---------------------------------------------------------------------------------
  // Reference definition of the hard failures: the required keys in the order they
  // are checked, each with the code for "mapped to null" and for "missing".

  datatype RequiredKey = RequiredKey(key: string, nullCode: nat, missingCode: nat)

  const REQUIRED_KEYS := [
    RequiredKey(NAME, 4, 5),
    RequiredKey(DESCRIPTION, 6, 7),
    RequiredKey(CATEGORY, 8, 9),
    RequiredKey(STATUS, 10, 11)]

  /** The error code of the first required key that is missing or mapped to null. */
  function FirstKeyError(m: map<string, Option<string>>, keys: seq<RequiredKey>): Option<nat> {
    if keys == [] then None
    else if keys[0].key !in m then Some(keys[0].missingCode)
    else if m[keys[0].key].None? then Some(keys[0].nullCode)
    else FirstKeyError(m, keys[1..])
  }

  /** For a non-null map, verifyValues fails hard exactly when a required key is
      missing or null, with the code of the first such key in the order name,
      description, category, status. What the values contain never changes that:
      a soft rejection of an earlier field does not stop a later key check. */
  lemma VerifyHardFailureIsFirstKeyError(m: map<string, Option<string>>, categories: seq<string>,
                                         statuses: seq<string>)
    requires |categories| > 0 && |statuses| > 0
    ensures var v := VerifyValues(Some(m), categories, statuses);
            (v.HardFailure? <==> FirstKeyError(m, REQUIRED_KEYS).Some?)
            && (v.HardFailure? ==> FirstKeyError(m, REQUIRED_KEYS) == Some(v.code))
  {
    var k1 := [RequiredKey(DESCRIPTION, 6, 7), RequiredKey(CATEGORY, 8, 9), RequiredKey(STATUS, 10, 11)];
    var k2 := [RequiredKey(CATEGORY, 8, 9), RequiredKey(STATUS, 10, 11)];
    var k3 := [RequiredKey(STATUS, 10, 11)];
    assert REQUIRED_KEYS[1..] == k1 && k1[1..] == k2 && k2[1..] == k3 && k3[1..] == [];
    assert FirstKeyError(m, REQUIRED_KEYS) == if NAME !in m then Some(5) else if m[NAME].None? then Some(4)
                                              else FirstKeyError(m, k1);
    assert FirstKeyError(m, k1) == if DESCRIPTION !in m then Some(7) else if m[DESCRIPTION].None? then Some(6)
                                   else FirstKeyError(m, k2);
    assert FirstKeyError(m, k2) == if CATEGORY !in m then Some(9) else if m[CATEGORY].None? then Some(8)
                                   else FirstKeyError(m, k3);
    assert FirstKeyError(m, k3) == if STATUS !in m then Some(11) else if m[STATUS].None? then Some(10)
                                   else None;
  }

  /** When every required key holds a non-null value, the record is accepted exactly
      when all four content rules hold, and soft-rejected (null) otherwise. */
  lemma VerifyAcceptedIffContentRules(m: map<string, Option<string>>, categories: seq<string>,
                                      statuses: seq<string>)
    requires |categories| > 0 && |statuses| > 0
    requires forall k :: k in {NAME, DESCRIPTION, CATEGORY, STATUS} ==> k in m && m[k].Some?
    ensures var v := VerifyValues(Some(m), categories, statuses);
            && !v.HardFailure?
            && (v.Accepted? <==> && NameAcceptable(m[NAME].value)
                                 && DescriptionAcceptable(m[DESCRIPTION].value)
                                 && ChoiceAcceptable(m[CATEGORY].value, categories)
                                 && ChoiceAcceptable(m[STATUS].value, statuses))
  {
    assert NAME in m && DESCRIPTION in m && CATEGORY in m && STATUS in m;
    TrimEmptyIffBlank(m[NAME].value);
    TrimEmptyIffBlank(m[DESCRIPTION].value);
    TrimEmptyIffBlank(m[CATEGORY].value);
    TrimEmptyIffBlank(m[STATUS].value);
  }

  /** An accepted record carries a name with a visible character, and a category and
      a status that are not their list's placeholder; its values are stored as given,
      untrimmed. */
  lemma AcceptedRecordSatisfiesRules(values: Values, categories: seq<string>, statuses: seq<string>)
    requires |categories| > 0 && |statuses| > 0
    requires VerifyValues(values, categories, statuses).Accepted?
    ensures var e := VerifyValues(values, categories, statuses).entity;
            && e.id == 0
            && NameAcceptable(e.name.value)
            && DescriptionAcceptable(e.description.value)
            && ChoiceAcceptable(e.category.value, categories)
            && ChoiceAcceptable(e.status.value, statuses)
  {
    VerifyAcceptedIffContentRules(values.value, categories, statuses);
  }

  /** The map of the four fields, none of them null: what a screen collects and what
      the validator's tests build. */
  function Record(name: string, description: string, category: string, status: string): (v: Values)
    ensures v.Some? && v.value.Keys == {NAME, DESCRIPTION, CATEGORY, STATUS}
    ensures v.Some? ==> forall k :: k in v.value ==> v.value[k].Some?
  {
    Some(map[NAME := Some(name), DESCRIPTION := Some(description), CATEGORY := Some(category),
             STATUS := Some(status)])
  }

  /** The validator's verdicts on the records of its test suite, for category and
      status lists whose placeholders differ from "To Do" and "Current". */
  lemma VerifyValuesOnTestRecords(categories: seq<string>, statuses: seq<string>)
    requires |categories| > 0 && |statuses| > 0
    requires !EqualsIgnoreCase("To Do", categories[0]) && !EqualsIgnoreCase("Current", statuses[0])
    ensures VerifyValues(None, categories, statuses) == HardFailure(1)
    ensures VerifyValues(Some(map[]), categories, statuses) == HardFailure(5)
    ensures VerifyValues(Record("Name 1", "Description 1", "To Do", "Current"), categories, statuses)
            == Accepted(ListEntity(0, Some("Name 1"), Some("Description 1"), Some("To Do"), Some("Current")))
    ensures VerifyValues(Record("Name 1", "", "To Do", "Current"), categories, statuses).Accepted?
    ensures VerifyValues(Record("", "Description 1", "To Do", "Current"), categories, statuses) == Rejected
    ensures VerifyValues(Record(" ", "Description 1", "To Do", "Current"), categories, statuses) == Rejected
    ensures VerifyValues(Record("Name 1", " ", "To Do", "Current"), categories, statuses) == Rejected
    ensures VerifyValues(Record("Name 1", "Description 1", "", "Current"), categories, statuses) == Rejected
    ensures VerifyValues(Record("Name 1", "Description 1", "To Do", " "), categories, statuses) == Rejected
  {
    assert !IsBlank("Name 1"[0]) && !IsBlank("Description 1"[0]);
    assert !IsBlank("To Do"[0]) && !IsBlank("Current"[0]);
    assert !HasVisible(" ") && !HasVisible("");
    var good := Record("Name 1", "Description 1", "To Do", "Current");
    VerifyAcceptedIffContentRules(good.value, categories, statuses);
    VerifyAcceptedIffContentRules(Record("Name 1", "", "To Do", "Current").value, categories, statuses);
    TrimEmptyIffBlank(" ");
    TrimEmptyIffBlank("");
    TrimRemovesNothing("To Do");
    TrimRemovesNothing("Current");
  }
}
