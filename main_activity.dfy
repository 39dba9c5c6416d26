/** The query-building and selection logic of the main screen: the ORDER BY chain,
    the SELECT statement and its bound arguments built from the current filter
    inputs, the "select mode" caption, the field values handed to the repository,
    the text shared with other apps, and what a click on a list row does. */
module Screen {
  import opened Wrappers
  import opened Text
  import opened Entities
  import opened Store
  import opened Repository

  /** RecyclerView.NO_ID: no row is activated. */
  const NO_ID: Long := -1
  const ID := "_id"
  const TABLE_NAME := "list"
  /** The columns the screen selects, in display order. */
  const PROJECTION := [ID, NAME, DESCRIPTION, CATEGORY, STATUS]
  const SELECT_HEAD := "SELECT " + Join(", ", PROJECTION) + " FROM " + TABLE_NAME

  // ---------------------------------------------------------------------------------
  // getOrderBy

  /** The ORDER BY list for the order spinner's choice; None is the RuntimeException
      thrown for any other choice. */
  function OrderBy(choice: string): (r: Option<string>)
    ensures r.Some? <==> ToLower(choice) in {NAME, DESCRIPTION, CATEGORY, STATUS}
  {
    var key := ToLower(choice);
    if key == NAME then Some(NAME + ", " + CATEGORY + ", " + STATUS + ", " + DESCRIPTION)
    else if key == DESCRIPTION then Some(DESCRIPTION + ", " + CATEGORY + ", " + STATUS + ", " + NAME)
    else if key == CATEGORY then Some(CATEGORY + ", " + STATUS + ", " + NAME + ", " + DESCRIPTION)
    else if key == STATUS then Some(STATUS + ", " + CATEGORY + ", " + NAME + ", " + DESCRIPTION)
    else None
  }

  /** The columns of each ORDER BY list, in order. */
  function OrderColumns(key: string): seq<string> {
    if key == NAME then [NAME, CATEGORY, STATUS, DESCRIPTION]
    else if key == DESCRIPTION then [DESCRIPTION, CATEGORY, STATUS, NAME]
    else if key == CATEGORY then [CATEGORY, STATUS, NAME, DESCRIPTION]
    else [STATUS, CATEGORY, NAME, DESCRIPTION]
  }

  /** Every ORDER BY list joins the four text columns, each once, led by the
      chosen one. */
  lemma OrderByIsColumnChain(choice: string)
    requires OrderBy(choice).Some?
    ensures var cols := OrderColumns(ToLower(choice));
            && OrderBy(choice).value == Join(", ", cols)
            && |cols| == 4 && cols[0] == ToLower(choice)
            && (forall c :: c in cols <==> c in {NAME, DESCRIPTION, CATEGORY, STATUS})
  {
    JoinFour(", ", OrderColumns(ToLower(choice)));
    OrderColumnsCover(ToLower(choice));
  }

  lemma OrderColumnsCover(key: string)
    ensures |OrderColumns(key)| == 4
    ensures forall c :: c in OrderColumns(key) <==> c in {NAME, DESCRIPTION, CATEGORY, STATUS}
  {
  }

  /** No ORDER BY list contains a placeholder. */
  lemma OrderByHasNoPlaceholder(choice: string)
    requires OrderBy(choice).Some?
    ensures '?' !in OrderBy(choice).value
  {
    var cols := OrderColumns(ToLower(choice));
    OrderByIsColumnChain(choice);
    TextColumnsHaveNoPlaceholder(cols);
    JoinAbsent(", ", cols, '?');
  }

  lemma TextColumnsHaveNoPlaceholder(cols: seq<string>)
    requires forall c :: c in cols ==> c in {NAME, DESCRIPTION, CATEGORY, STATUS}
    ensures forall i :: 0 <= i < |cols| ==> '?' !in cols[i]
  {
    forall i | 0 <= i < |cols| ensures '?' !in cols[i] {
      assert cols[i] in cols;
    }
  }

  lemma JoinFour(sep: string, cols: seq<string>)
    requires |cols| == 4
    ensures Join(sep, cols) == cols[0] + sep + cols[1] + sep + cols[2] + sep + cols[3]
  {
    assert cols[1..][1..] == cols[2..] && cols[2..][1..] == cols[3..];
    assert Join(sep, cols[3..]) == cols[3];
    assert Join(sep, cols[2..]) == cols[2] + sep + cols[3];
    assert Join(sep, cols[1..]) == cols[1] + sep + (cols[2] + sep + cols[3]);
  }

  lemma SelectHeadHasNoPlaceholder()
    ensures '?' !in SELECT_HEAD
  {
    JoinAbsent(", ", PROJECTION, '?');
  }

  // ---------------------------------------------------------------------------------
  // doSelect: the statement and its arguments.

  /** mActivatedID and mCurrentSelectInput1..5: the row and the filter the screen
      currently shows. */
  datatype SelectInputs = SelectInputs(
    activatedId: Long,
    name: string,
    description: string,
    category: string,
    status: string,
    order: string)

  /** One `<column> LIKE ?` condition and the argument bound to its placeholder. */
  datatype Clause = Clause(column: string, arg: string)

  /** The statement handed to selectItems; args is null when there is no LIKE
      condition. */
  datatype RawSelect = RawSelect(query: string, args: Option<seq<string>>)

  /** The argument for a filter input: the trimmed input itself (the empty string,
      matching only blank columns) when it is whitespace only, otherwise the
      trimmed input between `%` wildcards. */
  function FilterArg(input: string): (r: string)
    ensures |r| <= |input| + 2
    ensures r == [] || (r[0] == '%' && r[|r| - 1] == '%')
  {
    var t := Trim(input);
    if |t| == 0 then t else "%" + t + "%"
  }

  lemma FilterArgRules(input: string)
    ensures FilterArg(input) == [] <==> !HasVisible(input)
    ensures HasVisible(input) ==>
              && FilterArg(input) == "%" + Trim(input) + "%"
              && !IsBlank(Trim(input)[0]) && !IsBlank(Trim(input)[|Trim(input)| - 1])
  {
    TrimEmptyIffBlank(input);
    TrimIsInnerSlice(input);
  }

  /** The conditions doSelect adds, in the order it adds them: a text filter when
      its input is not empty, a spinner filter when its choice is not the list's
      "no filter" entry. */
  function Clauses(inp: SelectInputs, categories: seq<string>, statuses: seq<string>): (r: seq<Clause>)
    requires |categories| > 0 && |statuses| > 0
    ensures |r| <= 4
    ensures r == [] <==> && inp.name == [] && inp.description == []
                         && EqualsIgnoreCase(inp.category, categories[0])
                         && EqualsIgnoreCase(inp.status, statuses[0])
  {
    Filter(inp.name != [], NAME, inp.name)
    + Filter(inp.description != [], DESCRIPTION, inp.description)
    + Filter(!EqualsIgnoreCase(inp.category, categories[0]), CATEGORY, inp.category)
    + Filter(!EqualsIgnoreCase(inp.status, statuses[0]), STATUS, inp.status)
  }

  /** The condition one filter step adds, when it is switched on. */
  function Filter(on: bool, column: string, input: string): (r: seq<Clause>)
    ensures on ==> r == [Clause(column, FilterArg(input))]
    ensures !on ==> r == []
  {
    if on then [Clause(column, FilterArg(input))] else []
  }

  function Like(c: Clause): string {
    c.column + " LIKE ?"
  }

  /** The conditions joined by " AND ". */
  function WhereText(cs: seq<Clause>): string {
    if cs == [] then []
    else if |cs| == 1 then Like(cs[0])
    else WhereText(cs[..|cs| - 1]) + " AND " + Like(cs[|cs| - 1])
  }

  function ArgsOf(cs: seq<Clause>): (args: seq<string>)
    ensures |args| == |cs|
    ensures forall i :: 0 <= i < |cs| ==> args[i] == cs[i].arg
  {
    seq(|cs|, i requires 0 <= i < |cs| => cs[i].arg)
  }

  function IdCondition(id: Long): string {
    ID + " = " + LongToString(id)
  }

  /** What follows the FROM: the LIKE conditions joined by " AND " and then the
      activated id, under one WHERE; nothing when there is neither. */
  function Condition(cs: seq<Clause>, activatedId: Long): string {
    if cs == [] then (if activatedId != NO_ID then " WHERE " + IdCondition(activatedId) else "")
    else " WHERE " + WhereText(cs) + (if activatedId != NO_ID then " AND " + IdCondition(activatedId) else "")
  }

  /** The statement doSelect hands to selectItems, or None when getOrderBy throws
      and nothing is selected. */
  function Query(inp: SelectInputs, categories: seq<string>, statuses: seq<string>): (r: Option<RawSelect>)
    requires |categories| > 0 && |statuses| > 0
    ensures r.Some? <==> OrderBy(inp.order).Some?
    ensures r.Some? ==> (r.value.args.None? <==> Clauses(inp, categories, statuses) == [])
  {
    var cs := Clauses(inp, categories, statuses);
    match OrderBy(inp.order)
    case None => None
    case Some(o) =>
      Some(RawSelect(SELECT_HEAD + Condition(cs, inp.activatedId) + " ORDER BY " + o,
                     if cs == [] then None else Some(ArgsOf(cs))))
  }

  /** doSelect's construction of the statement: the head, the conditions, the
      activated id and the ORDER BY list, appended in that order. */
  method BuildSelect(inp: SelectInputs, categories: seq<string>, statuses: seq<string>)
    returns (r: Option<RawSelect>)
    requires |categories| > 0 && |statuses| > 0
    ensures r == Query(inp, categories, statuses)
  {
    var builder := "SELECT " + Join(", ", PROJECTION) + " FROM " + TABLE_NAME;
    var where, whereArgs, cs := CollectConditions(inp, categories, statuses);

    var whereArgsArray: Option<seq<string>> := None;
    var whereClause: Option<string> := None;
    WhereTextEmptyIffNoClause(cs);
    if |where| != 0 {
      whereClause := Some(where);
      whereArgsArray := Some(whereArgs);
    }
    builder := AppendWhere(builder, whereClause, cs, inp.activatedId);

    var orderBy := OrderBy(inp.order);
    if orderBy.None? {
      return None;
    }
    builder := builder + " ORDER BY " + orderBy.value;
    r := Some(RawSelect(builder, whereArgsArray));
  }

  /** The four filter steps of doSelect, in the order name, description, category,
      status. */
  method CollectConditions(inp: SelectInputs, categories: seq<string>, statuses: seq<string>)
    returns (where: string, whereArgs: seq<string>, ghost cs: seq<Clause>)
    requires |categories| > 0 && |statuses| > 0
    ensures cs == Clauses(inp, categories, statuses)
    ensures where == WhereText(Clauses(inp, categories, statuses))
    ensures whereArgs == ArgsOf(Clauses(inp, categories, statuses))
  {
    var n := inp.name != [];
    var d := inp.description != [];
    var c := !EqualsIgnoreCase(inp.category, categories[0]);
    var s := !EqualsIgnoreCase(inp.status, statuses[0]);
    where, whereArgs, cs := "", [], [];
    where, whereArgs, cs := AddFilter(n, where, whereArgs, cs, NAME, inp.name);
    assert cs == Filter(n, NAME, inp.name);
    where, whereArgs, cs := AddFilter(d, where, whereArgs, cs, DESCRIPTION, inp.description);
    where, whereArgs, cs := AddFilter(c, where, whereArgs, cs, CATEGORY, inp.category);
    where, whereArgs, cs := AddFilter(s, where, whereArgs, cs, STATUS, inp.status);
  }

  /** One `if` of doSelect: the filter step runs only when it is switched on. */
  method AddFilter(on: bool, where: string, whereArgs: seq<string>, ghost cs: seq<Clause>, column: string,
                   input: string)
    returns (where': string, whereArgs': seq<string>, ghost cs': seq<Clause>)
    requires column != []
    requires where == WhereText(cs) && whereArgs == ArgsOf(cs)
    ensures cs' == cs + Filter(on, column, input)
    ensures where' == WhereText(cs') && whereArgs' == ArgsOf(cs')
  {
    if on {
      where', whereArgs', cs' := AddCondition(where, whereArgs, cs, column, input);
    } else {
      where', whereArgs', cs' := where, whereArgs, cs;
      assert cs + [] == cs;
    }
  }

  /** The WHERE part of doSelect: the conditions when there are any (null
      otherwise), then the activated id. */
  method AppendWhere(builder: string, whereClause: Option<string>, ghost cs: seq<Clause>, activatedId: Long)
    returns (builder': string)
    requires whereClause.None? <==> cs == []
    requires whereClause.Some? ==> whereClause.value == WhereText(cs)
    ensures builder' == builder + Condition(cs, activatedId)
  {
    var addId := activatedId != NO_ID;
    var suffix := "";
    if whereClause.None? {
      if addId {
        suffix := " WHERE " + (ID + " = " + LongToString(activatedId));
      }
    } else {
      suffix := " WHERE " + whereClause.value;
      if addId {
        suffix := suffix + (" AND " + (ID + " = " + LongToString(activatedId)));
      } else {
        assert suffix == suffix + "";
      }
    }
    builder' := builder + suffix;
  }

  /** One filter step of doSelect: " AND " when a condition is already there, then
      `<column> LIKE ?`, and the filter's argument. */
  method AddCondition(where: string, whereArgs: seq<string>, ghost cs: seq<Clause>, column: string, input: string)
    returns (where': string, whereArgs': seq<string>, ghost cs': seq<Clause>)
    requires column != []
    requires where == WhereText(cs) && whereArgs == ArgsOf(cs)
    ensures cs' == cs + [Clause(column, FilterArg(input))]
    ensures where' == WhereText(cs') && whereArgs' == ArgsOf(cs')
  {
    cs' := cs + [Clause(column, FilterArg(input))];
    assert cs'[..|cs'| - 1] == cs;
    WhereTextEmptyIffNoClause(cs);
    where' := where;
    if |where'| != 0 {
      where' := where' + " AND ";
    }
    where' := where' + column + " LIKE ?";
    var t := Trim(input);
    if |t| == 0 {
      whereArgs' := whereArgs + [t];
    } else {
      whereArgs' := whereArgs + ["%" + t + "%"];
    }
  }

  lemma WhereTextEmptyIffNoClause(cs: seq<Clause>)
    ensures WhereText(cs) == [] <==> cs == []
  {
  }

  // ---------------------------------------------------------------------------------
  // Properties of the statement.

  lemma {:induction false} WherePlaceholders(cs: seq<Clause>)
    requires forall i :: 0 <= i < |cs| ==> '?' !in cs[i].column
    ensures CountChar(WhereText(cs), '?') == |cs|
  {
    if cs != [] {
      var last := cs[|cs| - 1];
      LikePlaceholder(last);
      if |cs| > 1 {
        var init := cs[..|cs| - 1];
        assert forall i :: 0 <= i < |init| ==> init[i] == cs[i];
        WherePlaceholders(init);
        var w := WhereText(init);
        assert WhereText(cs) == w + " AND " + Like(last);
        CountCharAbsent(" AND ", '?');
        CountCharAppend(w, " AND ", '?');
        CountCharAppend(w + " AND ", Like(last), '?');
      }
    }
  }

  /** A condition holds exactly one placeholder. */
  lemma LikePlaceholder(c: Clause)
    requires '?' !in c.column
    ensures CountChar(Like(c), '?') == 1
  {
    assert Like(c) == (c.column + " LIKE ") + "?";
    CountCharAbsent(c.column + " LIKE ", '?');
    CountCharAppend(c.column + " LIKE ", "?", '?');
    assert "?"[1..] == [];
  }

  lemma IdConditionHasNoPlaceholder(id: Long)
    ensures '?' !in IdCondition(id)
  {
  }

  lemma ConditionPlaceholders(cs: seq<Clause>, activatedId: Long)
    requires forall i :: 0 <= i < |cs| ==> '?' !in cs[i].column
    ensures CountChar(Condition(cs, activatedId), '?') == |cs|
  {
    IdConditionHasNoPlaceholder(activatedId);
    var idPart := if activatedId != NO_ID then " AND " + IdCondition(activatedId) else "";
    if cs == [] {
      CountCharAbsent(Condition(cs, activatedId), '?');
    } else {
      WherePlaceholders(cs);
      CountCharAbsent(" WHERE ", '?');
      CountCharAbsent(idPart, '?');
      CountCharAppend(" WHERE ", WhereText(cs), '?');
      CountCharAppend(" WHERE " + WhereText(cs), idPart, '?');
    }
  }

  lemma ColumnsHaveNoPlaceholder(cs: seq<Clause>)
    requires forall c :: c in cs ==> c.column in {NAME, DESCRIPTION, CATEGORY, STATUS}
    ensures forall i :: 0 <= i < |cs| ==> '?' !in cs[i].column
  {
    forall i | 0 <= i < |cs| ensures '?' !in cs[i].column {
      assert cs[i] in cs;
    }
  }

  lemma StatementPlaceholders(cs: seq<Clause>, activatedId: Long, o: string)
    requires forall i :: 0 <= i < |cs| ==> '?' !in cs[i].column
    requires '?' !in o
    ensures CountChar(SELECT_HEAD + Condition(cs, activatedId) + " ORDER BY " + o, '?') == |cs|
  {
    var condition := Condition(cs, activatedId);
    ConditionPlaceholders(cs, activatedId);
    SelectHeadHasNoPlaceholder();
    CountCharAbsent(SELECT_HEAD, '?');
    CountCharAbsent(" ORDER BY ", '?');
    CountCharAbsent(o, '?');
    CountCharAppend(SELECT_HEAD, condition, '?');
    CountCharAppend(SELECT_HEAD + condition, " ORDER BY ", '?');
    CountCharAppend(SELECT_HEAD + condition + " ORDER BY ", o, '?');
  }

  /** The statement has exactly one `?` per bound argument, and none when the
      arguments are null. */
  lemma PlaceholdersMatchArgs(inp: SelectInputs, categories: seq<string>, statuses: seq<string>)
    requires |categories| > 0 && |statuses| > 0
    requires Query(inp, categories, statuses).Some?
    ensures var q := Query(inp, categories, statuses).value;
            CountChar(q.query, '?') == if q.args.None? then 0 else |q.args.value|
  {
    var cs := Clauses(inp, categories, statuses);
    ClausesColumns(inp, categories, statuses);
    ColumnsHaveNoPlaceholder(cs);
    OrderByHasNoPlaceholder(inp.order);
    StatementPlaceholders(cs, inp.activatedId, OrderBy(inp.order).value);
  }

  /** The position of a column in the order doSelect considers the filters. */
  function Rank(column: string): nat {
    if column == NAME then 0 else if column == DESCRIPTION then 1 else if column == CATEGORY then 2 else 3
  }

  /** The filter input belonging to a column. */
  function InputFor(inp: SelectInputs, column: string): string {
    if column == NAME then inp.name
    else if column == DESCRIPTION then inp.description
    else if column == CATEGORY then inp.category
    else inp.status
  }

  predicate RankAscending(cs: seq<Clause>) {
    forall i, j :: 0 <= i < j < |cs| ==> Rank(cs[i].column) < Rank(cs[j].column)
  }

  lemma AscendingAppend(a: seq<Clause>, b: seq<Clause>)
    requires RankAscending(a) && RankAscending(b)
    requires forall x, y :: x in a && y in b ==> Rank(x.column) < Rank(y.column)
    ensures RankAscending(a + b)
  {
    var c := a + b;
    forall i, j | 0 <= i < j < |c| ensures Rank(c[i].column) < Rank(c[j].column) {
      if j < |a| {
        assert c[i] == a[i] && c[j] == a[j];
      } else if i >= |a| {
        assert c[i] == b[i - |a|] && c[j] == b[j - |a|];
      } else {
        assert c[i] == a[i] && c[j] == b[j - |a|];
        assert a[i] in a && b[j - |a|] in b;
      }
    }
  }

  /** Each condition is on one of the four text columns and carries the argument of
      that column's own input. */
  lemma ClausesColumns(inp: SelectInputs, categories: seq<string>, statuses: seq<string>)
    requires |categories| > 0 && |statuses| > 0
    ensures forall c :: c in Clauses(inp, categories, statuses) ==>
              && c.column in {NAME, DESCRIPTION, CATEGORY, STATUS}
              && c.arg == FilterArg(InputFor(inp, c.column))
  {
  }

  /** A text filter is present exactly when its input is not empty, a spinner filter
      exactly when its choice differs, ignoring case, from the list's first entry. */
  lemma ClausesPresence(inp: SelectInputs, categories: seq<string>, statuses: seq<string>)
    requires |categories| > 0 && |statuses| > 0
    ensures var cs := Clauses(inp, categories, statuses);
            && (Clause(NAME, FilterArg(inp.name)) in cs <==> inp.name != [])
            && (Clause(DESCRIPTION, FilterArg(inp.description)) in cs <==> inp.description != [])
            && (Clause(CATEGORY, FilterArg(inp.category)) in cs <==>
                  !EqualsIgnoreCase(inp.category, categories[0]))
            && (Clause(STATUS, FilterArg(inp.status)) in cs <==> !EqualsIgnoreCase(inp.status, statuses[0]))
  {
    var n := Filter(inp.name != [], NAME, inp.name);
    var d := Filter(inp.description != [], DESCRIPTION, inp.description);
    var c := Filter(!EqualsIgnoreCase(inp.category, categories[0]), CATEGORY, inp.category);
    var s := Filter(!EqualsIgnoreCase(inp.status, statuses[0]), STATUS, inp.status);
    assert Clauses(inp, categories, statuses) == n + d + c + s;
  }

  /** The conditions appear in the order name, description, category, status, each
      column at most once. */
  lemma ClausesInColumnOrder(inp: SelectInputs, categories: seq<string>, statuses: seq<string>)
    requires |categories| > 0 && |statuses| > 0
    ensures RankAscending(Clauses(inp, categories, statuses))
  {
    var n := Filter(inp.name != [], NAME, inp.name);
    var d := Filter(inp.description != [], DESCRIPTION, inp.description);
    var c := Filter(!EqualsIgnoreCase(inp.category, categories[0]), CATEGORY, inp.category);
    var s := Filter(!EqualsIgnoreCase(inp.status, statuses[0]), STATUS, inp.status);
    assert Clauses(inp, categories, statuses) == n + d + c + s;
    FourPartsAscending(n, d, c, s);
  }

  lemma FourPartsAscending(n: seq<Clause>, d: seq<Clause>, c: seq<Clause>, s: seq<Clause>)
    requires |n| <= 1 && |d| <= 1 && |c| <= 1 && |s| <= 1
    requires forall x :: x in n ==> x.column == NAME
    requires forall x :: x in d ==> x.column == DESCRIPTION
    requires forall x :: x in c ==> x.column == CATEGORY
    requires forall x :: x in s ==> x.column == STATUS
    ensures RankAscending(n + d + c + s)
  {
    AscendingAppend(n, d);
    AscendingAppend(n + d, c);
    AscendingAppend(n + d + c, s);
  }

  // ---------------------------------------------------------------------------------
  // setCurrentSelectDetails

  /** The caption after "Select mode: ". */
  datatype SelectMode = RowMode | SelectAllMode | ContainingMode

  function CurrentSelectDetails(inp: SelectInputs, categories: seq<string>, statuses: seq<string>): (r: SelectMode)
    requires |categories| > 0 && |statuses| > 0
    ensures r == RowMode <==> inp.activatedId != NO_ID
    ensures r == SelectAllMode <==> inp.activatedId == NO_ID && Clauses(inp, categories, statuses) == []
  {
    if inp.activatedId != NO_ID then RowMode
    else if && inp.name == []
            && inp.description == []
            && EqualsIgnoreCase(inp.category, categories[0])
            && EqualsIgnoreCase(inp.status, statuses[0])
    then SelectAllMode
    else ContainingMode
  }

  /** The caption tells the truth about the statement: "row" exactly when an id
      is appended, "select all" exactly when the statement has no condition at all,
      "containing" exactly when it has LIKE conditions and no id. */
  lemma SelectModeMatchesQuery(inp: SelectInputs, categories: seq<string>, statuses: seq<string>)
    requires |categories| > 0 && |statuses| > 0
    requires Query(inp, categories, statuses).Some?
    ensures var q := Query(inp, categories, statuses).value;
            var mode := CurrentSelectDetails(inp, categories, statuses);
            && (mode == RowMode <==> inp.activatedId != NO_ID)
            && (mode == SelectAllMode <==> inp.activatedId == NO_ID && q.args.None?)
            && (mode == ContainingMode <==> inp.activatedId == NO_ID && q.args.Some?)
  {
  }

  // ---------------------------------------------------------------------------------
  // getValues

  /** The screen's values never make verifyValues throw: they are accepted exactly
      when the four content rules hold, and soft-rejected otherwise. */
  lemma ScreenValuesNeverFailHard(name: string, description: string, category: string, status: string,
                                  categories: seq<string>, statuses: seq<string>)
    requires |categories| > 0 && |statuses| > 0
    ensures var v := VerifyValues(Record(name, description, category, status), categories, statuses);
            && !v.HardFailure?
            && (v.Accepted? <==> && NameAcceptable(name) && DescriptionAcceptable(description)
                                 && ChoiceAcceptable(category, categories)
                                 && ChoiceAcceptable(status, statuses))
  {
    var m := Record(name, description, category, status).value;
    VerifyAcceptedIffContentRules(m, categories, statuses);
  }

  // ---------------------------------------------------------------------------------
  // The text shared with other apps.

  /** StringBuilder.append of a nullable String: "null" for null. */
  function Shown(s: Option<string>): string {
    if s.None? then "null" else s.value
  }

  /** One row of the send text: the four fields separated by ", ", ended by a line break. */
  function SendLine(e: ListEntity): (r: string)
    ensures |r| >= 7 && r[|r| - 1] == '\n'
  {
    Shown(e.name) + ", " + Shown(e.description) + ", " + Shown(e.category) + ", " + Shown(e.status) + "\n"
  }

  /** One line per row, in list order. */
  function SendText(list: seq<ListEntity>): (r: string)
    ensures list != [] ==> |r| > 0 && r[|r| - 1] == '\n'
  {
    if list == [] then [] else SendText(list[..|list| - 1]) + SendLine(list[|list| - 1])
  }

  lemma {:induction false} SendTextAppend(a: seq<ListEntity>, b: seq<ListEntity>)
    ensures SendText(a + b) == SendText(a) + SendText(b)
  {
    if b != [] {
      var c := a + b;
      var init := b[..|b| - 1];
      assert c[..|c| - 1] == a + init;
      assert c[|c| - 1] == b[|b| - 1];
      SendTextAppend(a, init);
      var x, y, z := SendText(a), SendText(init), SendLine(b[|b| - 1]);
      assert SendText(c) == (x + y) + z;
      assert SendText(b) == y + z;
      assert (x + y) + z == x + (y + z);
    } else {
      assert a + b == a;
    }
  }

  predicate NoNewline(s: Option<string>) {
    s.Some? ==> '\n' !in s.value
  }

  predicate NoLineBreaks(e: ListEntity) {
    NoNewline(e.name) && NoNewline(e.description) && NoNewline(e.category) && NoNewline(e.status)
  }

  lemma SendLineCount(e: ListEntity)
    requires NoLineBreaks(e)
    ensures CountChar(SendLine(e), '\n') == 1
  {
    var body := Shown(e.name) + ", " + Shown(e.description) + ", " + Shown(e.category) + ", " + Shown(e.status);
    assert SendLine(e) == body + "\n";
    CountCharAbsent(body, '\n');
    CountCharAppend(body, "\n", '\n');
  }

  /** When no field holds a line break, the text has exactly one line per row. */
  lemma {:induction false} SendTextLineCount(list: seq<ListEntity>)
    requires forall i :: 0 <= i < |list| ==> NoLineBreaks(list[i])
    ensures CountChar(SendText(list), '\n') == |list|
  {
    if list != [] {
      var init := list[..|list| - 1];
      assert forall i :: 0 <= i < |init| ==> init[i] == list[i];
      SendTextLineCount(init);
      SendLineCount(list[|list| - 1]);
      CountCharAppend(SendText(init), SendLine(list[|list| - 1]), '\n');
    }
  }

  /** The observer's send-text loop over the published rows. */
  method BuildSendText(list: seq<ListEntity>) returns (text: string)
    ensures text == SendText(list)
  {
    text := "";
    var count := |list|;
    if count > 0 {
      var i := 0;
      while i < count
        invariant 0 <= i <= count
        invariant text == SendText(list[..i])
      {
        var e := list[i];
        assert list[..i + 1][..i] == list[..i];
        var line := Shown(e.name) + ", " + Shown(e.description) + ", " + Shown(e.category) + ", "
                    + Shown(e.status) + "\n";
        text := text + line;
        i := i + 1;
      }
    }
    assert list[..|list|] == list;
  }

  // ---------------------------------------------------------------------------------
  // setSpinnerValue

  /** The first entry of the spinner that equals the text ignoring case. */
  method FindChoice(text: string, items: seq<string>) returns (index: Option<nat>)
    ensures index.Some? ==> && index.value < |items| && EqualsIgnoreCase(text, items[index.value])
                            && forall k :: 0 <= k < index.value ==> !EqualsIgnoreCase(text, items[k])
    ensures index.None? ==> forall k :: 0 <= k < |items| ==> !EqualsIgnoreCase(text, items[k])
  {
    var i := 0;
    while i < |items|
      invariant 0 <= i <= |items|
      invariant forall k :: 0 <= k < i ==> !EqualsIgnoreCase(text, items[k])
    {
      if EqualsIgnoreCase(text, items[i]) {
        return Some(i);
      }
      i := i + 1;
    }
    index := None;
  }

  /** What setSpinnerValue leaves: a spinner at `position` is at `position'`, the
      first entry matching the text ignoring case when there is one, and still at
      `position` when no entry matches. */
  predicate SpinnerSetTo(text: string, items: seq<string>, position: nat, position': nat) {
    && position' < |items|
    && ((exists k :: 0 <= k < |items| && EqualsIgnoreCase(text, items[k])) ==>
          && EqualsIgnoreCase(text, items[position'])
          && forall k :: 0 <= k < position' ==> !EqualsIgnoreCase(text, items[k]))
    && ((forall k :: 0 <= k < |items| ==> !EqualsIgnoreCase(text, items[k])) ==> position' == position)
  }

  /** SpinnerSetTo leaves no choice: given the text, the entries and the old
      position, exactly one new position satisfies it. */
  lemma SpinnerSetToIsDetermined(text: string, items: seq<string>, position: nat, p: nat, q: nat)
    requires SpinnerSetTo(text, items, position, p) && SpinnerSetTo(text, items, position, q)
    ensures p == q
  {
  }

  /** setSpinnerValue: the spinner moves to the first entry matching the text, and
      stays where it was when none does. */
  method SetSpinnerValue(text: string, items: seq<string>, position: nat) returns (position': nat)
    requires position < |items|
    ensures SpinnerSetTo(text, items, position, position')
  {
    var found := FindChoice(text, items);
    position' := if found.Some? then found.value else position;
  }

  // ---------------------------------------------------------------------------------
  // The screen's selection state.

  class MainActivity {
    const repository: DataRepository
    /** category_list, status_list and the order list: the spinners' entries. */
    const categories: seq<string>
    const statuses: seq<string>
    const orders: seq<string>

    /** mActivatedID */
    var activatedId: Long
    /** mCurrentSelectInput1..5 */
    var selectName: string
    var selectDescription: string
    var selectCategory: string
    var selectStatus: string
    var selectOrder: string
    /** The two edit texts and the three spinners' positions. */
    var nameEdit: string
    var descriptionEdit: string
    var categorySpinner: nat
    var statusSpinner: nat
    var orderSpinner: nat
    /** The caption of the current-select text view. */
    var shownMode: SelectMode
    /** mSendText */
    var sendText: string

    ghost predicate Valid()
      reads this, repository, repository.dao
    {
      && repository.Valid()
      && categorySpinner < |categories| && statusSpinner < |statuses| && orderSpinner < |orders|
    }

    /** The outcome of doSelect over the current inputs: the caption describes them;
        when getOrderBy succeeds (ok) their statement is the repository's only
        source and its result is posted once the database is created; otherwise the
        source and the observable list are still `source` and `published`. */
    ghost predicate SelectedFrom(ok: bool, source: Source, published: Option<seq<ListEntity>>)
      requires |categories| > 0 && |statuses| > 0
      reads this, repository, repository.dao
    {
      var q := Query(Inputs(), categories, statuses);
      && shownMode == CurrentSelectDetails(Inputs(), categories, statuses)
      && ok == q.Some?
      && (ok ==> && repository.source == RawQuery(q.value.query, q.value.args)
                 && repository.published == if repository.databaseCreated
                                            then Some(Evaluate(repository.source, repository.dao.rows,
                                                               repository.dao.engine))
                                            else None)
      && (!ok ==> repository.source == source && repository.published == published)
    }

    function Inputs(): SelectInputs
      reads this
    {
      SelectInputs(activatedId, selectName, selectDescription, selectCategory, selectStatus, selectOrder)
    }

    /** getValues */
    function GetValues(): (v: Values)
      reads this
      requires categorySpinner < |categories| && statusSpinner < |statuses|
      ensures v.Some? && v.value.Keys == {NAME, DESCRIPTION, CATEGORY, STATUS}
      ensures v.Some? ==> && v.value[NAME] == Some(nameEdit) && v.value[DESCRIPTION] == Some(descriptionEdit)
                          && v.value[CATEGORY] == Some(categories[categorySpinner])
                          && v.value[STATUS] == Some(statuses[statusSpinner])
    {
      Record(nameEdit, descriptionEdit, categories[categorySpinner], statuses[statusSpinner])
    }

    constructor (repository: DataRepository, categories: seq<string>, statuses: seq<string>, orders: seq<string>)
      requires repository.Valid() && |categories| > 0 && |statuses| > 0 && |orders| > 0
      ensures Valid()
      ensures this.repository == repository && this.categories == categories
      ensures this.statuses == statuses && this.orders == orders
      ensures Inputs() == SelectInputs(NO_ID, "", "", categories[0], statuses[0], orders[0])
      ensures nameEdit == "" && descriptionEdit == ""
      ensures categorySpinner == 0 && statusSpinner == 0 && orderSpinner == 0
      ensures shownMode == CurrentSelectDetails(Inputs(), categories, statuses) && sendText == ""
    {
      this.repository := repository;
      this.categories := categories;
      this.statuses := statuses;
      this.orders := orders;
      activatedId := NO_ID;
      selectName, selectDescription := "", "";
      selectCategory, selectStatus, selectOrder := categories[0], statuses[0], orders[0];
      nameEdit, descriptionEdit := "", "";
      categorySpinner, statusSpinner, orderSpinner := 0, 0, 0;
      shownMode := SelectAllMode;
      sendText := "";
    }

    /** doSelect: shows the select mode, then hands the statement to the repository;
        when getOrderBy throws (ok false) nothing is selected. */
    method DoSelect() returns (ok: bool)
      requires Valid() && |categories| > 0 && |statuses| > 0
      modifies this, repository
      ensures Valid()
      ensures Inputs() == old(Inputs()) && nameEdit == old(nameEdit) && descriptionEdit == old(descriptionEdit)
      ensures categorySpinner == old(categorySpinner) && statusSpinner == old(statusSpinner)
      ensures orderSpinner == old(orderSpinner) && sendText == old(sendText)
      ensures repository.databaseCreated == old(repository.databaseCreated)
      ensures SelectedFrom(ok, old(repository.source), old(repository.published))
    {
      shownMode := CurrentSelectDetails(Inputs(), categories, statuses);
      var q := BuildSelect(Inputs(), categories, statuses);
      if q.None? {
        return false;
      }
      repository.SelectItems(q.value.query, q.value.args);
      ok := true;
    }

    /** select: forgets the activated row, copies the widgets into the current
        inputs, and selects. */
    method Select() returns (ok: bool)
      requires Valid() && |categories| > 0 && |statuses| > 0
      modifies this, repository
      ensures Valid()
      ensures Inputs() == SelectInputs(NO_ID, old(nameEdit), old(descriptionEdit), categories[categorySpinner],
                                       statuses[statusSpinner], orders[orderSpinner])
      ensures nameEdit == old(nameEdit) && descriptionEdit == old(descriptionEdit)
      ensures categorySpinner == old(categorySpinner) && statusSpinner == old(statusSpinner)
      ensures orderSpinner == old(orderSpinner) && sendText == old(sendText)
      ensures repository.databaseCreated == old(repository.databaseCreated)
      ensures SelectedFrom(ok, old(repository.source), old(repository.published))
    {
      ghost var source, published := repository.source, repository.published;
      activatedId := NO_ID;
      selectName := nameEdit;
      selectDescription := descriptionEdit;
      selectCategory := categories[categorySpinner];
      selectStatus := statuses[statusSpinner];
      selectOrder := orders[orderSpinner];
      ghost var inputs := Inputs();
      assert inputs == SelectInputs(NO_ID, nameEdit, descriptionEdit, categories[categorySpinner],
                                    statuses[statusSpinner], orders[orderSpinner]);
      assert repository.source == source && repository.published == published;
      ok := DoSelect();
      assert Inputs() == inputs;
    }

    /** clearDetails: empties both edit texts (the spinners stay) and selects. */
    method ClearDetails() returns (ok: bool)
      requires Valid() && |categories| > 0 && |statuses| > 0
      modifies this, repository
      ensures Valid()
      ensures nameEdit == "" && descriptionEdit == ""
      ensures Inputs() == SelectInputs(NO_ID, "", "", categories[categorySpinner],
                                       statuses[statusSpinner], orders[orderSpinner])
      ensures categorySpinner == old(categorySpinner) && statusSpinner == old(statusSpinner)
      ensures orderSpinner == old(orderSpinner) && sendText == old(sendText)
      ensures repository.databaseCreated == old(repository.databaseCreated)
      ensures SelectedFrom(ok, old(repository.source), old(repository.published))
    {
      nameEdit := "";
      descriptionEdit := "";
      ok := Select();
    }

    /** ViewHolder.onClick for a row showing the given texts. Clicking the activated
        row deselects it; any other row becomes the activated one and its values
        the current filter, a blank description becoming " " so that only rows
        with a blank description match. ok is false when the id text does not
        parse or getOrderBy throws. */
    method OnClick(idText: string, name: string, description: string, category: string, status: string)
      returns (ok: bool)
      requires Valid() && |categories| > 0 && |statuses| > 0
      modifies this, repository
      ensures Valid()
      ensures orderSpinner == old(orderSpinner) && sendText == old(sendText)
      ensures repository.databaseCreated == old(repository.databaseCreated)
      ensures ParseLong(idText).None? ==>
                && !ok && Inputs() == old(Inputs()) && shownMode == old(shownMode)
                && nameEdit == old(nameEdit) && descriptionEdit == old(descriptionEdit)
                && categorySpinner == old(categorySpinner) && statusSpinner == old(statusSpinner)
                && repository.source == old(repository.source) && repository.published == old(repository.published)
      ensures ParseLong(idText).Some? ==> SelectedFrom(ok, old(repository.source), old(repository.published))
      ensures ParseLong(idText).Some? && ParseLong(idText).value == old(activatedId) ==>
                && nameEdit == "" && descriptionEdit == ""
                && categorySpinner == old(categorySpinner) && statusSpinner == old(statusSpinner)
                && Inputs() == SelectInputs(NO_ID, "", "", categories[categorySpinner],
                                            statuses[statusSpinner], orders[orderSpinner])
      ensures ParseLong(idText).Some? && ParseLong(idText).value != old(activatedId) ==>
                && Inputs() == SelectInputs(ParseLong(idText).value, name,
                                            if Trim(description) != [] then description else " ",
                                            category, status, old(selectOrder))
                && nameEdit == name
                && descriptionEdit == (if Trim(description) != [] then description else "")
                && SpinnerSetTo(category, categories, old(categorySpinner), categorySpinner)
                && SpinnerSetTo(status, statuses, old(statusSpinner), statusSpinner)
    {
      var parsed := ParseLong(idText);
      if parsed.None? {
        return false;
      }
      var id := parsed.value;
      if activatedId == id {
        ok := ClearDetails();
      } else {
        var categoryPosition := SetSpinnerValue(category, categories, categorySpinner);
        var statusPosition := SetSpinnerValue(status, statuses, statusSpinner);
        ActivateRow(id, name, description, category, status, categoryPosition, statusPosition);
        ok := DoSelect();
      }
    }

    /** The else branch of onClick, up to its doSelect: the row with `id` becomes the
        activated one, its values fill the widgets and become the current filter. */
    method ActivateRow(id: Long, name: string, description: string, category: string, status: string,
                       categoryPosition: nat, statusPosition: nat)
      modifies this
      ensures categorySpinner == categoryPosition && statusSpinner == statusPosition
      ensures orderSpinner == old(orderSpinner)
      ensures activatedId == id && selectName == name && selectCategory == category && selectStatus == status
      ensures selectDescription == (if Trim(description) != [] then description else " ")
      ensures selectOrder == old(selectOrder)
      ensures nameEdit == name
      ensures descriptionEdit == (if Trim(description) != [] then description else "")
      ensures sendText == old(sendText) && shownMode == old(shownMode)
    {
      var shownDescription, filterDescription := description, description;
      if Trim(description) == [] {
        shownDescription, filterDescription := "", " ";
      }
      activatedId, nameEdit, selectName := id, name, name;
      descriptionEdit, selectDescription := shownDescription, filterDescription;
      categorySpinner, selectCategory := categoryPosition, category;
      statusSpinner, selectStatus := statusPosition, status;
    }

    /** The observer's onChanged for a non-null list: rebuilds the send text. */
    method OnItemsChanged(list: seq<ListEntity>)
      requires Valid()
      modifies this
      ensures Valid()
      ensures sendText == SendText(list)
      ensures Inputs() == old(Inputs()) && shownMode == old(shownMode)
      ensures nameEdit == old(nameEdit) && descriptionEdit == old(descriptionEdit)
      ensures categorySpinner == old(categorySpinner) && statusSpinner == old(statusSpinner)
      ensures orderSpinner == old(orderSpinner)
    {
      sendText := BuildSendText(list);
    }
  }

  /** A row clicked with a blank description filters on the exact-blank argument. */
  lemma BlankDescriptionMatchesBlank(inp: SelectInputs, categories: seq<string>, statuses: seq<string>)
    requires |categories| > 0 && |statuses| > 0
    requires inp.description == " "
    ensures Clause(DESCRIPTION, "") in Clauses(inp, categories, statuses)
  {
    assert Trim(" ") == [];
  }
}
