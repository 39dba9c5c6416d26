# A-List: a Dafny model of the data path

A-List is an Android application that keeps a single table of to-do style items.
Each item has a name, a description, a category and a status. This project models
the application's data path:

- **The validator.** `ListEntity.verifyValues` turns the four field values a
  screen collects into a record, soft-rejects it (returns null) or throws
  "verifyValues error n".
- **The store.** `ListDao` and the generated `ListDao_Impl` hold the SQLite table
  `list`, which has an AUTOINCREMENT `_id`, four nullable text columns and a
  unique index on `name`. The store serves `SELECT * FROM List`, raw SELECTs,
  insert (`nullif(?, 0)` id binding), update by id and delete by id.
- **The repository.** `DataRepository` validates before writing, turns store
  exceptions into -1, and keeps one observable list fed from exactly one query
  source at a time. It posts only once the database reports that it has been
  created.
- **The main screen's selection logic.** This covers the ORDER BY chain of
  `getOrderBy`, the SELECT statement and bound arguments built by `doSelect`,
  the "select mode" caption of `setCurrentSelectDetails`, the map `getValues`
  hands to the repository, the send-text loop of the list observer,
  `setSpinnerValue`, and what `ViewHolder.onClick` does with a clicked row.

The modules follow the program's structure:

| file | module | models |
|---|---|---|
| `wrappers.dfy` | `Wrappers` | Option and Result |
| `text.dfy` | `Text` | `String.trim`, `compareToIgnoreCase`, `toLowerCase`, `TextUtils.join`, `Long.toString` / `Long.parseLong` |
| `list_entity.dfy` | `Entities` | the `ListEntity` record and `verifyValues` |
| `list_dao.dfy` | `Store` | the table, the `ListDao` class, the cursor converter |
| `data_repository.dfy` | `Repository` | the `DataRepository` class |
| `main_activity.dfy` | `Screen` | the `MainActivity` selection state and its pure helpers |

Objects whose fields the source updates in place are classes:
`Store.ListDao`, `Repository.DataRepository` and `Screen.MainActivity`. The table
is a `seq` of rows in rowid order, plus the table's `sqlite_sequence` counter
(`lastId`). Each state-changing method states its whole new state, saying what
stays as it was, in terms of specification functions (`InsertById`,
`ReplaceById`, `Without`, `Query`, `CurrentSelectDetails`, `SendText`); the
methods of the main screen that select share one statement of what a selection
leaves (`SelectedFrom`). Lemmas then prove what those functions mean: the table
invariants are kept, the placeholders match the arguments, the caption matches
the statement, and the round trips hold.

SQLite's evaluation of a raw SELECT, including `LIKE`, is a parameter of the
store (`QueryEngine`). The model states what is handed to it and how its cursor
is converted, not what it returns. LiveData delivery is modelled as synchronous:
an observer runs when its source's table changes, and a write that changes
nothing does not post.

Points decided by the code:

- `deleteItems` has no exception handler, so it never returns -1; only
  `insertItem` and `updateItem` turn store exceptions into -1.
- The ORDER BY lists are fixed ascending chains; nothing sorts descending.
- The stored values are the untrimmed ones; trim is used only to judge them.
- `verifyValues` checks every key before it gives up, so a soft-rejected name
  does not stop a later missing key from throwing (`VerifyHardFailureIsFirstKeyError`).
- `doSelect` decides whether a text filter is present by `TextUtils.isEmpty` on
  the untrimmed input. A single space therefore selects rows whose column is
  blank (`FilterArgRules`, `BlankDescriptionMatchesBlank`).

## Model

Source paths are relative to the repository root.

| member | source | states |
|---|---|---|
| Text.LeadingBlanks | AList/app/src/main/java/com/myapp/alist/db/ListEntity.java:133 | the count of leading characters at most U+0020: all of them are blank and the next one is not |
| Text.TrailingStart | AList/app/src/main/java/com/myapp/alist/db/ListEntity.java:133 | the end of the string once trailing blanks are dropped, never below the given start: every dropped character is blank and the last kept one is not |
| Text.Trim | AList/app/src/main/java/com/myapp/alist/db/ListEntity.java:133 | String.trim never lengthens, and what it keeps neither starts nor ends with a character at most U+0020 |
| Text.TrimIsInnerSlice | AList/app/src/main/java/com/myapp/alist/db/ListEntity.java:133 | trim removes exactly a blank prefix and a blank suffix, and a non-empty result neither starts nor ends with a blank |
| Text.TrimEmptyIffBlank | AList/app/src/main/java/com/myapp/alist/db/ListEntity.java:133-136 | `TextUtils.isEmpty(s.trim())` holds exactly when s has no character above U+0020 |
| Text.TrimRemovesNothing | AList/app/src/main/java/com/myapp/alist/db/ListEntity.java:161-168 | a non-empty string that neither starts nor ends with a blank is its own trim |
| Text.TrimIdempotent | AList/app/src/main/java/com/myapp/alist/ui/MainActivity.java:897-900 | trimming twice gives the same string as trimming once |
| Text.FoldCase | AList/app/src/main/java/com/myapp/alist/ui/MainActivity.java:766 | the folded character is never an upper-case ASCII letter |
| Text.ToLower | AList/app/src/main/java/com/myapp/alist/ui/MainActivity.java:766 | the lower-cased string has the same length and folds each character in place |
| Text.EqualsIgnoreCase | AList/app/src/main/java/com/myapp/alist/ui/MainActivity.java:1163 | `compareToIgnoreCase` finds every string equal to itself |
| Text.EqualsIgnoreCaseIffSameLower | AList/app/src/main/java/com/myapp/alist/ui/MainActivity.java:918-919 | `compareToIgnoreCase(a, b) == 0` holds exactly when `a.toLowerCase()` equals `b.toLowerCase()` |
| Text.Join | AList/app/src/main/java/com/myapp/alist/ui/MainActivity.java:884 | `TextUtils.join` of a non-empty list starts with its first part |
| Text.JoinAbsent | AList/app/src/main/java/com/myapp/alist/ui/MainActivity.java:884 | a character in neither the separator nor any part is absent from `TextUtils.join` |
| Text.CountCharAppend | AList/app/src/main/java/com/myapp/alist/ui/MainActivity.java:894 | occurrences of a character in a concatenation add up |
| Text.CountCharAbsent | AList/app/src/main/java/com/myapp/alist/ui/MainActivity.java:894 | a character that is not in a string occurs zero times |
| Text.Digits | AList/app/src/main/java/com/myapp/alist/ui/MainActivity.java:1298 | the decimal text of a natural number is non-empty and all digits |
| Text.LongToString | AList/app/src/main/java/com/myapp/alist/ui/MainActivity.java:1298 | `Long.toString` is non-empty and made of digits and a sign |
| Text.ParseLong | AList/app/src/main/java/com/myapp/alist/ui/MainActivity.java:1219 | a text that parses is non-empty; a negative value comes only from a leading '-', and a text without one gives a value of at least 0 |
| Text.DigitsRoundTrip | AList/app/src/main/java/com/myapp/alist/ui/MainActivity.java:1298 | the digits of n read back as n |
| Text.LongRoundTrip | AList/app/src/main/java/com/myapp/alist/ui/MainActivity.java:1219 | `Long.parseLong(Long.toString(n)) == n` for every long, so a click on a displayed row never throws NumberFormatException |
| Entities.VerifyValues | AList/app/src/main/java/com/myapp/alist/db/ListEntity.java:108-204 | error 1 exactly for a null map; every other hard failure carries one of the codes 4 to 11; an accepted record has all four keys, holds them unchanged and untrimmed, has id 0 and no null field |
| Entities.VerifyHardFailureIsFirstKeyError | AList/app/src/main/java/com/myapp/alist/db/ListEntity.java:128-192 | for a non-null map, verifyValues throws exactly when some required key is missing or null, with the code of the first such key in the order name, description, category, status, whatever the values contain |
| Entities.VerifyAcceptedIffContentRules | AList/app/src/main/java/com/myapp/alist/db/ListEntity.java:128-203 | when all keys hold non-null values the result is never a throw, and it is a record exactly when the name has a visible character, the description is "" or has one, and category and status have one and are not their list's first entry |
| Entities.AcceptedRecordSatisfiesRules | AList/app/src/main/java/com/myapp/alist/db/ListEntity.java:194-201 | every accepted record has id 0 and satisfies all four content rules |
| Entities.Record | AList/app/src/main/java/com/myapp/alist/ui/MainActivity.java:1142-1150 | the four-field map has exactly the keys name, description, category and status, none of them null |
| Entities.VerifyValuesOnTestRecords | AList/app/src/androidTest/java/com/myapp/alist/db/ListEntityVerifyValuesTest.java:28-352 | the verdicts the test suite expects: error 1 for null, error 5 for an empty map, acceptance of the full record and of an empty description, and rejection of empty or blank names, a blank description, an empty category and a blank status |
| Store.IdsAscending | AList/app/build/generated/ap_generated_sources/debug/out/com/myapp/alist/db/AListDatabase_Impl.java:36 | the `_id` primary key: the rows ascend by id, so no two rows share one |
| Store.NamesUnique | AList/app/build/generated/ap_generated_sources/debug/out/com/myapp/alist/db/AListDatabase_Impl.java:37 | the unique index on `name`: no two rows share a non-null name, and rows whose names are all NULL never conflict |
| Store.Without | AList/app/build/generated/ap_generated_sources/debug/out/com/myapp/alist/db/ListDao_Impl.java:69 | a row survives the delete exactly when it was in the table and its id is not listed |
| Store.ReplaceById | AList/app/build/generated/ap_generated_sources/debug/out/com/myapp/alist/db/ListDao_Impl.java:80 | each row whose id is the item's becomes the item; every other row is unchanged, at its position |
| Store.InsertById | AList/app/build/generated/ap_generated_sources/debug/out/com/myapp/alist/db/ListDao_Impl.java:38 | storing a row with a fresh id keeps the ids ascending, adds one row, and the rows afterwards are the old rows plus the new one |
| Store.WithoutNothing | AList/app/build/generated/ap_generated_sources/debug/out/com/myapp/alist/db/ListDao_Impl.java:69 | a DELETE for an id no row holds leaves the table as it was |
| Store.WithoutEmpty | AList/app/build/generated/ap_generated_sources/debug/out/com/myapp/alist/db/ListDao_Impl.java:124-136 | deleting an empty list of entities leaves the table as it was |
| Store.WithoutKeepingCount | AList/app/build/generated/ap_generated_sources/debug/out/com/myapp/alist/db/ListDao_Impl.java:124-136 | a delete that removes no row leaves the table unchanged |
| Store.WithoutUnion | AList/app/build/generated/ap_generated_sources/debug/out/com/myapp/alist/db/ListDao_Impl.java:130 | deleting one set of ids and then another is deleting their union, which is why one DELETE per entity gives the set semantics |
| Store.RemoveAtIsWithout | AList/app/build/generated/ap_generated_sources/debug/out/com/myapp/alist/db/ListDao_Impl.java:69 | in an id-ordered table, removing the row at an index is deleting that row's id |
| Store.RemoveAtKeepsInvariant | AList/app/build/generated/ap_generated_sources/debug/out/com/myapp/alist/db/AListDatabase_Impl.java:36-37 | removing a row keeps the ids ascending and the names unique |
| Store.ReplaceRewritesOneRow | AList/app/build/generated/ap_generated_sources/debug/out/com/myapp/alist/db/ListDao_Impl.java:80 | after an update of an existing id the item is in the table, it is the only row with that id, every other row is still present, and every position keeps its id |
| Store.ReplaceKeepsInvariant | AList/app/build/generated/ap_generated_sources/debug/out/com/myapp/alist/db/AListDatabase_Impl.java:36-37 | an update whose name no other row holds keeps the ids ascending and the name index unique |
| Store.InsertKeepsNames | AList/app/build/generated/ap_generated_sources/debug/out/com/myapp/alist/db/AListDatabase_Impl.java:37 | inserting a row whose name no row holds keeps the name index unique |
| Store.FromCursor | AList/app/build/generated/ap_generated_sources/debug/out/com/myapp/alist/db/ListDao_Impl.java:242-292 | a column the cursor does not have leaves its field at the default: id 0, text null |
| Store.ConvertCursor | AList/app/build/generated/ap_generated_sources/debug/out/com/myapp/alist/db/ListDao_Impl.java:224-230 | one entity per cursor row, in cursor order, each converted from its own row |
| Store.FullRows | AList/app/build/generated/ap_generated_sources/debug/out/com/myapp/alist/db/ListDao_Impl.java:159-166 | one five-column cursor row per table row, in order |
| Store.FullRowRoundTrip | AList/app/build/generated/ap_generated_sources/debug/out/com/myapp/alist/db/ListDao_Impl.java:242-292 | converting the full cursor row of an entity gives back that entity |
| Store.FullRowsRoundTrip | AList/app/build/generated/ap_generated_sources/debug/out/com/myapp/alist/db/ListDao_Impl.java:152-214 | a raw query selecting all five columns of every row yields exactly what selectAllQuery yields |
| Store.ListDao.constructor | AList/app/build/generated/ap_generated_sources/debug/out/com/myapp/alist/db/AListDatabase_Impl.java:36-38 | a new table is empty, its AUTOINCREMENT counter is 0, and the invariants hold |
| Store.ListDao.SelectAllQuery | AList/app/build/generated/ap_generated_sources/debug/out/com/myapp/alist/db/ListDao_Impl.java:152-214 | returns every row of the table, in rowid order, field for field |
| Store.ListDao.DoRawQuery | AList/app/build/generated/ap_generated_sources/debug/out/com/myapp/alist/db/ListDao_Impl.java:216-236 | returns the conversion of the engine's cursor for the statement over the current rows; the table is not changed |
| Store.ListDao.Insert | AList/app/build/generated/ap_generated_sources/debug/out/com/myapp/alist/db/ListDao_Impl.java:38-64 | id 0 means "assign one past the largest id ever stored". Each error holds exactly when: DatabaseFull for an auto id with the counter at the largest long; PrimaryKey for an explicit id already present; UniqueName for a taken non-null name, checked last. A failure leaves the table unchanged. A success stores the record under the returned id at its rowid position and raises the counter. An auto id is above every id ever used |
| Store.ListDao.Update | AList/app/build/generated/ap_generated_sources/debug/out/com/myapp/alist/db/ListDao_Impl.java:80-150 | the result is 0, 1 or a UniqueName error: 0 exactly when no row has the id; the error exactly when another row holds the name; 1 exactly otherwise, when the row is rewritten; the counter never moves |
| Store.IndexOfId | AList/app/build/generated/ap_generated_sources/debug/out/com/myapp/alist/db/ListDao_Impl.java:69 | the position found holds the id and no earlier row does; the end of the table means no row has it |
| Store.ListDao.DeleteOne | AList/app/build/generated/ap_generated_sources/debug/out/com/myapp/alist/db/ListDao_Impl.java:66-76 | one DELETE removes the row with the id, if any, and returns 1 exactly when there was one |
| Store.ListDao.Delete | AList/app/build/generated/ap_generated_sources/debug/out/com/myapp/alist/db/ListDao_Impl.java:124-136 | the table loses exactly the rows whose ids are listed; the total is the number of rows removed; a total of 0 means the table is unchanged |
| Store.InsertIntoNewTable | AList/app/src/androidTest/java/com/myapp/alist/db/ListDaoInsertTest.java:57-145 | on a new table two id-less inserts get ids 1 and 2, unless the second repeats the first's non-null name, which raises the unique-name error |
| Repository.Evaluate | AList/app/src/main/java/com/myapp/alist/datarepository/DataRepository.java:97-103 | a source's result over a table: selectAllQuery yields the table itself, a raw query one entity per row of the engine's cursor |
| Repository.RemoveSource | AList/app/src/main/java/com/myapp/alist/datarepository/DataRepository.java:99 | the sources that remain are exactly the others |
| Repository.DataRepository.Items | AList/app/src/main/java/com/myapp/alist/datarepository/DataRepository.java:85-87 | a posted list exists only once the database is created, and it is the current source's result over the current table |
| Repository.DataRepository.constructor | AList/app/src/main/java/com/myapp/alist/datarepository/DataRepository.java:54-64 | starts from selectAllQuery as the only source; the whole table is posted when the database is already created, otherwise nothing |
| Repository.DataRepository.SetDatabaseCreated | AList/app/src/main/java/com/myapp/alist/datarepository/DataRepository.java:180 | raising the created flag posts nothing by itself |
| Repository.DataRepository.AddSourceToObservableList | AList/app/src/main/java/com/myapp/alist/datarepository/DataRepository.java:174-187 | attaching the source posts its current result exactly when the database is created |
| Repository.DataRepository.OnChanged | AList/app/src/main/java/com/myapp/alist/datarepository/DataRepository.java:179-185 | a delivered result is posted only when the created flag holds a value |
| Repository.DataRepository.SelectItems | AList/app/src/main/java/com/myapp/alist/datarepository/DataRepository.java:97-103 | the raw query replaces the old source, the only source afterwards, and its result is posted when the database is created |
| Repository.DataRepository.InsertItem | AList/app/src/main/java/com/myapp/alist/datarepository/DataRepository.java:111-129 | a validator throw propagates with its code; a rejected record or any store exception gives -1 and leaves the table alone; otherwise the returned id is one past the counter and the record is stored under it; only a successful insert reposts the list, and every other outcome leaves the posted list as it was |
| Repository.DataRepository.UpdateItem | AList/app/src/main/java/com/myapp/alist/datarepository/DataRepository.java:138-157 | a throw propagates; rejection or a name clash gives -1; an absent id gives 0; otherwise 1, and the record, given the id, replaces that row; a result of 1 reposts the list, and every other outcome leaves the posted list as it was |
| Repository.DataRepository.DeleteItems | AList/app/src/main/java/com/myapp/alist/datarepository/DataRepository.java:166-168 | the listed ids are removed and their count returned; a count of 0 posts nothing new |
| Screen.OrderBy | AList/app/src/main/java/com/myapp/alist/ui/MainActivity.java:763-797 | there is an ORDER BY list exactly when the lower-cased choice is one of the four column names; anything else throws |
| Screen.OrderByIsColumnChain | AList/app/src/main/java/com/myapp/alist/ui/MainActivity.java:766-790 | every ORDER BY list joins all four text columns once each with ", ", led by the chosen column |
| Screen.OrderColumnsCover | AList/app/src/main/java/com/myapp/alist/ui/MainActivity.java:766-790 | each column chain has four entries, exactly the four text columns |
| Screen.OrderByHasNoPlaceholder | AList/app/src/main/java/com/myapp/alist/ui/MainActivity.java:970 | no ORDER BY list contains `?` |
| Screen.JoinFour | AList/app/src/main/java/com/myapp/alist/ui/MainActivity.java:884 | joining four parts places the separator between consecutive parts |
| Screen.SelectHeadHasNoPlaceholder | AList/app/src/main/java/com/myapp/alist/ui/MainActivity.java:883-886 | `SELECT _id, name, description, category, status FROM list` contains no `?` |
| Screen.FilterArg | AList/app/src/main/java/com/myapp/alist/ui/MainActivity.java:897-901 | the LIKE argument is at most two characters longer than the input, and is either empty or wrapped in `%` |
| Screen.FilterArgRules | AList/app/src/main/java/com/myapp/alist/ui/MainActivity.java:897-901 | the argument is "" exactly for a blank input, and otherwise is the trimmed input, which has no blank at either end, between `%` wildcards |
| Screen.ArgsOf | AList/app/src/main/java/com/myapp/alist/ui/MainActivity.java:952 | one argument per condition, in condition order |
| Screen.Query | AList/app/src/main/java/com/myapp/alist/ui/MainActivity.java:875-977 | a statement exists exactly when getOrderBy does not throw; its argument array is null exactly when no LIKE condition was added |
| Screen.BuildSelect | AList/app/src/main/java/com/myapp/alist/ui/MainActivity.java:882-970 | the step-by-step StringBuilder construction yields exactly the statement and arguments of `Query` |
| Screen.CollectConditions | AList/app/src/main/java/com/myapp/alist/ui/MainActivity.java:893-946 | the four filter steps leave the conditions joined by " AND " and one argument per condition |
| Screen.AppendWhere | AList/app/src/main/java/com/myapp/alist/ui/MainActivity.java:948-968 | the WHERE part is the conditions and then the activated id under one WHERE, or the id alone, or nothing |
| Screen.AddFilter | AList/app/src/main/java/com/myapp/alist/ui/MainActivity.java:904-916 | a filter step that is switched off leaves the conditions alone; one that is on appends its condition |
| Screen.AddCondition | AList/app/src/main/java/com/myapp/alist/ui/MainActivity.java:904-916 | one filter step appends exactly one condition and its argument, inserting " AND " only after an earlier condition |
| Screen.WhereTextEmptyIffNoClause | AList/app/src/main/java/com/myapp/alist/ui/MainActivity.java:948 | the where text is empty exactly when no condition was added |
| Screen.WherePlaceholders | AList/app/src/main/java/com/myapp/alist/ui/MainActivity.java:893-946 | the where text holds one `?` per condition |
| Screen.LikePlaceholder | AList/app/src/main/java/com/myapp/alist/ui/MainActivity.java:894 | `<column> LIKE ?` has exactly one `?` |
| Screen.IdConditionHasNoPlaceholder | AList/app/src/main/java/com/myapp/alist/ui/MainActivity.java:959-966 | the `_id = n` condition holds no `?` |
| Screen.ConditionPlaceholders | AList/app/src/main/java/com/myapp/alist/ui/MainActivity.java:955-968 | the whole WHERE part holds one `?` per condition, whether or not an id is added |
| Screen.ColumnsHaveNoPlaceholder | AList/app/src/main/java/com/myapp/alist/ui/MainActivity.java:894 | a condition on one of the four columns has no `?` in its column name |
| Screen.StatementPlaceholders | AList/app/src/main/java/com/myapp/alist/ui/MainActivity.java:970 | the complete statement holds one `?` per condition |
| Screen.PlaceholdersMatchArgs | AList/app/src/main/java/com/myapp/alist/ui/MainActivity.java:948-976 | the statement handed to selectItems has exactly as many `?` as bound arguments, and none when the arguments are null |
| Screen.AscendingAppend | AList/app/src/main/java/com/myapp/alist/ui/MainActivity.java:893-946 | two column-ordered condition lists, the first wholly before the second, concatenate to a column-ordered list |
| Screen.Clauses | AList/app/src/main/java/com/myapp/alist/ui/MainActivity.java:893-946 | at most four conditions, and none exactly when both texts are empty and both spinner choices equal their list's first entry ignoring case |
| Screen.ClausesColumns | AList/app/src/main/java/com/myapp/alist/ui/MainActivity.java:893-946 | every condition is on a text column and carries the argument built from that column's own input |
| Screen.ClausesPresence | AList/app/src/main/java/com/myapp/alist/ui/MainActivity.java:893-946 | a text filter is present exactly when its input is non-empty, a spinner filter exactly when its choice differs, ignoring case, from the list's first entry |
| Screen.ClausesInColumnOrder | AList/app/src/main/java/com/myapp/alist/ui/MainActivity.java:893-946 | conditions come in the order name, description, category, status, each column at most once |
| Screen.FourPartsAscending | AList/app/src/main/java/com/myapp/alist/ui/MainActivity.java:893-946 | four at-most-one-condition parts for the four columns in turn form a column-ordered list |
| Screen.CurrentSelectDetails | AList/app/src/main/java/com/myapp/alist/ui/MainActivity.java:725-744 | the caption is "row" exactly when a row is activated, and "select all" exactly when no row is activated and doSelect adds no condition |
| Screen.SelectModeMatchesQuery | AList/app/src/main/java/com/myapp/alist/ui/MainActivity.java:725-744 | the caption says "row" exactly when the id is appended, "select all" exactly when the statement has no condition, and "containing" exactly when it has LIKE conditions and no id |
| Screen.ScreenValuesNeverFailHard | AList/app/src/main/java/com/myapp/alist/ui/MainActivity.java:1142-1150 | the screen's map never makes verifyValues throw; it is accepted exactly when the four content rules hold |
| Screen.SendLine | AList/app/src/main/java/com/myapp/alist/ui/MainActivity.java:308-316 | one row's line is at least the seven characters of its separators and ends with a line break |
| Screen.SendText | AList/app/src/main/java/com/myapp/alist/ui/MainActivity.java:304-318 | the text of a non-empty list ends with a line break |
| Screen.SendTextAppend | AList/app/src/main/java/com/myapp/alist/ui/MainActivity.java:304-318 | the send text of two lists, one after the other, is the concatenation of their send texts |
| Screen.SendLineCount | AList/app/src/main/java/com/myapp/alist/ui/MainActivity.java:308-316 | a row whose fields hold no line break contributes exactly one line |
| Screen.SendTextLineCount | AList/app/src/main/java/com/myapp/alist/ui/MainActivity.java:304-318 | when no field holds a line break the text has exactly one line per row |
| Screen.BuildSendText | AList/app/src/main/java/com/myapp/alist/ui/MainActivity.java:304-318 | the loop yields one "name, description, category, status" line per row in list order, with "null" for a null field |
| Screen.FindChoice | AList/app/src/main/java/com/myapp/alist/ui/MainActivity.java:1162-1167 | finds the first entry equal to the text ignoring case, or reports that no entry is |
| Screen.SetSpinnerValue | AList/app/src/main/java/com/myapp/alist/ui/MainActivity.java:1158-1168 | the spinner moves to the first entry equal to the text ignoring case, and keeps its position when no entry is |
| Screen.SpinnerSetToIsDetermined | AList/app/src/main/java/com/myapp/alist/ui/MainActivity.java:1158-1168 | that description of setSpinnerValue fixes the new position: exactly one position satisfies it |
| Screen.MainActivity.GetValues | AList/app/src/main/java/com/myapp/alist/ui/MainActivity.java:1142-1150 | the map holds the two edit texts and the two spinners' selected entries under their column names |
| Screen.MainActivity.constructor | AList/app/src/main/java/com/myapp/alist/ui/MainActivity.java:93-113 | the field initializers followed by onCreate's cold start at lines 264-268: no row is activated, the text inputs are "", the spinner inputs are the spinners' first entries, and the caption describes these inputs |
| Screen.MainActivity.DoSelect | AList/app/src/main/java/com/myapp/alist/ui/MainActivity.java:875-977 | the caption describes the inputs; then either the repository's only source becomes the statement of `Query` and its result is posted once the database is created, or getOrderBy throws and the source and observable list stay as they were; the inputs and widgets do not change |
| Screen.MainActivity.Select | AList/app/src/main/java/com/myapp/alist/ui/MainActivity.java:861-869 | the activated row is forgotten and the widgets' values become the current inputs; the caption then describes them, and the repository selects their statement, or keeps its source and list when getOrderBy throws; the widgets and the send text do not change |
| Screen.MainActivity.ClearDetails | AList/app/src/main/java/com/myapp/alist/ui/MainActivity.java:749-756 | both edit texts become empty and the spinners stay; the caption then describes the new inputs, and the repository selects their statement, or keeps its source and list when getOrderBy throws |
| Screen.MainActivity.OnClick | AList/app/src/main/java/com/myapp/alist/ui/MainActivity.java:1218-1254 | an id text that does not parse changes nothing and gives ok false; clicking the activated row deselects it and clears the details; any other row becomes the activated one, its values become the filter (a blank description becoming " "), each spinner moves to the first entry matching the row's value ignoring case or stays when none does; in both parsed cases the caption describes the new inputs and the repository selects their statement, or keeps its source and list when getOrderBy throws; the order spinner and the send text never change |
| Screen.MainActivity.ActivateRow | AList/app/src/main/java/com/myapp/alist/ui/MainActivity.java:1227-1251 | the id and the row's values become the current inputs and the widgets' contents; a blank description is shown as "" and filtered as " "; the spinners take the positions setSpinnerValue chose; the order, the caption and the send text stay |
| Screen.MainActivity.OnItemsChanged | AList/app/src/main/java/com/myapp/alist/ui/MainActivity.java:285-319 | the send text becomes the text of the delivered list; the inputs, the edit texts, the spinners and the caption stay as they were |
| Screen.BlankDescriptionMatchesBlank | AList/app/src/main/java/com/myapp/alist/ui/MainActivity.java:1237-1241 | after a click on a row with a blank description, the description filter is `LIKE ''` |

## Left out

- User interface and lifecycle are not modelled: views, focus, menus, dialogs, toasts, intents, saved state and the "n rows selected" message. Only the values these code paths read and write are modelled.
- Threading is not modelled. This covers the executors and WeakReference tasks of the insert, update and delete buttons, the `volatile` activated id, and the repository and database singletons.
- LiveData and MediatorLiveData asynchrony is not modelled. Delivery and `postValue` are synchronous, and the observable list keeps only its last posted value.
- SQL parsing and execution, including `LIKE` matching and `ORDER BY` sorting, belong to SQLite. A raw SELECT is handed to an abstract `QueryEngine`.
- Unicode case folding and locale-dependent `toLowerCase` are not modelled. Case handling is restricted to ASCII letters.
- Non-ASCII digits accepted by `Long.parseLong` are not modelled.
- Entities.VerifyValues: errors 2 and 3 are not modelled. They need a null application context or null resources, and here the category and status lists are parameters instead of a resource lookup.
- Entities.VerifyValues: the non-empty category and status lists are a precondition, because the resource arrays are never empty.
- `ListEntity`'s getters and setters are not separate members: records are values and a setter is a field update.
- The `ListViewModel` forwarder is not modelled: it passes calls through to the repository unchanged.
- The text views showing a null field as "" are not modelled. `OnClick` takes the shown texts as parameters.
- The localized caption strings are not modelled. The caption is its three-valued mode.
- Negative explicit ids are not modelled against `sqlite_sequence`: Store.ListDao.Insert never lowers the counter.
- Store.ListDao.SelectAllQuery assumes SQLite returns rows in rowid order, which a plain `SELECT *` does in practice but does not promise.
- The screen's insert, update and delete handlers are not modelled. Only the repository calls they reach are.
- A RuntimeException is modelled as a value. It is `ok == false` in `Screen.MainActivity` (from parseLong or getOrderBy), `Thrown` in `Repository`, and `None` in `Text.ParseLong` and `Screen.OrderBy`. Stack unwinding beyond that point is not modelled.
- The database-created flag is raised by a separate method rather than by the database's creation callback. How the database is opened and created is not part of this model.
