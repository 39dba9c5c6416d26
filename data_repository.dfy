/** DataRepository: the single gateway between the screens and the store. It
    validates raw field values before writing, turns store exceptions into -1, and
    keeps one observable list that mirrors the result of the query currently
    selected, fed from exactly one source at a time and only once the database
    reports that it has been created. */
module Repository {
  import opened Wrappers
  import opened Text
  import opened Entities
  import opened Store

  /** What the observable list is fed from: selectAllQuery, or a raw SELECT with its
      bound arguments. */
  datatype Source = SelectAll | RawQuery(sql: string, args: Option<seq<string>>)

  /** The result of insertItem or updateItem: a long, or the RuntimeException that
      verifyValues throws, with its error code. */
  datatype Outcome = Returned(value: int) | Thrown(code: nat)

  /** The list a source yields over the given table: the table itself for
      selectAllQuery, one entity per cursor row for a raw query. */
  function Evaluate(source: Source, rows: seq<ListEntity>, engine: QueryEngine): (r: seq<ListEntity>)
    ensures source.SelectAll? ==> r == rows
    ensures source.RawQuery? ==> |r| == |engine(source.sql, source.args, rows)|
  {
    match source
    case SelectAll => rows
    case RawQuery(sql, args) => ConvertCursor(engine(sql, args, rows))
  }

  /** MediatorLiveData.removeSource: the sources other than `s`. */
  function RemoveSource(sources: seq<Source>, s: Source): (r: seq<Source>)
    ensures forall x :: x in r <==> x in sources && x != s
  {
    if sources == [] then []
    else (if sources[0] == s then [] else [sources[0]]) + RemoveSource(sources[1..], s)
  }

  class DataRepository {
    const dao: ListDao
    /** Whether AListDatabase's "database created" LiveData holds a value. */
    var databaseCreated: bool
    /** The query behind mListEntityLiveData. */
    var source: Source
    /** The sources mObservableList is attached to. */
    var sources: seq<Source>
    /** The last list posted to mObservableList; None before the first post. */
    var published: Option<seq<ListEntity>>

    ghost predicate Valid()
      reads this, dao
    {
      && dao.Valid()
      && sources == [source]
      && (published.Some? ==> databaseCreated && published.value == Evaluate(source, dao.rows, dao.engine))
    }

    /** The observable list for the current source's latest result, if any. */
    function Items(): (r: Option<seq<ListEntity>>)
      requires Valid()
      reads this, dao
      ensures r.Some? ==> databaseCreated && r.value == Evaluate(source, dao.rows, dao.engine)
    {
      published
    }

    /** The constructor: attaches selectAllQuery as the one source. */
    constructor (dao: ListDao, databaseCreated: bool)
      requires dao.Valid()
      ensures Valid() && this.dao == dao
      ensures this.databaseCreated == databaseCreated && source == SelectAll
      ensures published == if databaseCreated then Some(dao.rows) else None
    {
      this.dao := dao;
      this.databaseCreated := databaseCreated;
      source := SelectAll;
      published := None;
      new;
      sources := [];
      AddSourceToObservableList();
    }

    /** The database reports that it has been created; nothing is posted until the
        source next delivers a result. */
    method SetDatabaseCreated()
      requires Valid()
      modifies this
      ensures Valid()
      ensures databaseCreated && source == old(source) && published == old(published)
      ensures sources == old(sources)
    {
      databaseCreated := true;
    }

    /** addSourceToObservableList: attaches the current source, whose observer posts
        each result only when the database-created flag holds a value. */
    method AddSourceToObservableList()
      requires dao.Valid() && sources == []
      requires published.Some? ==> databaseCreated
      modifies this
      ensures Valid()
      ensures databaseCreated == old(databaseCreated) && source == old(source)
      ensures published == if databaseCreated then Some(Evaluate(source, dao.rows, dao.engine)) else old(published)
    {
      sources := sources + [source];
      OnChanged();
    }

    /** The observer's onChanged: the source has delivered its current result. */
    method OnChanged()
      requires dao.Valid() && sources == [source]
      requires published.Some? ==> databaseCreated
      modifies this
      ensures Valid()
      ensures databaseCreated == old(databaseCreated) && source == old(source) && sources == old(sources)
      ensures published == if databaseCreated then Some(Evaluate(source, dao.rows, dao.engine)) else old(published)
    {
      if databaseCreated {
        var list: seq<ListEntity>;
        match source {
          case SelectAll =>
            list := dao.SelectAllQuery();
          case RawQuery(sql, args) =>
            list := dao.DoRawQuery(sql, args);
        }
        published := Some(list);
      }
    }

    /** selectItems: detaches the current source and attaches the raw query instead. */
    method SelectItems(query: string, whereArgs: Option<seq<string>>)
      requires Valid()
      modifies this
      ensures Valid()
      ensures source == RawQuery(query, whereArgs) && sources == [source]
      ensures databaseCreated == old(databaseCreated)
      ensures published == if databaseCreated then Some(Evaluate(source, dao.rows, dao.engine)) else None
    {
      assert RemoveSource(sources[1..], source) == [];
      sources := RemoveSource(sources, source);
      source := RawQuery(query, whereArgs);
      published := None;
      AddSourceToObservableList();
    }

    /** insertItem: verifyValues, then an insert whose exceptions become -1. An
        accepted record has id 0, so the table assigns the id. */
    method InsertItem(values: Values, categories: seq<string>, statuses: seq<string>) returns (r: Outcome)
      requires Valid() && |categories| > 0 && |statuses| > 0
      modifies this, dao
      ensures Valid()
      ensures databaseCreated == old(databaseCreated) && source == old(source)
      ensures var v := VerifyValues(values, categories, statuses);
              && (v.HardFailure? ==> r == Thrown(v.code) && dao.rows == old(dao.rows))
              && (v.Rejected? ==> r == Returned(-1) && dao.rows == old(dao.rows))
              && (v.Accepted? ==>
                    if old(dao.lastId) == MAX_LONG || NameTaken(old(dao.rows), v.entity.name) then
                      r == Returned(-1) && dao.rows == old(dao.rows)
                    else
                      && r == Returned(old(dao.lastId) + 1)
                      && dao.rows == InsertById(old(dao.rows), v.entity.(id := old(dao.lastId) + 1)))
      ensures r.Returned? && r.value > 0 && databaseCreated ==>
                published == Some(Evaluate(source, dao.rows, dao.engine))
      ensures !(r.Returned? && r.value > 0) ==> published == old(published)
    {
      var v := VerifyValues(values, categories, statuses);
      if v.HardFailure? {
        return Thrown(v.code);
      }
      if v.Rejected? {
        return Returned(-1);
      }
      var inserted := dao.Insert(v.entity);
      assert published == old(published);
      if inserted.Failure? {
        return Returned(-1);
      }
      OnChanged();
      r := Returned(inserted.value);
    }

    /** updateItem: verifyValues, then the record is given `id` and written over the
        row with that id; exceptions become -1. */
    method UpdateItem(id: Long, values: Values, categories: seq<string>, statuses: seq<string>)
      returns (r: Outcome)
      requires Valid() && |categories| > 0 && |statuses| > 0
      modifies this, dao
      ensures Valid()
      ensures databaseCreated == old(databaseCreated) && source == old(source)
      ensures dao.lastId == old(dao.lastId)
      ensures var v := VerifyValues(values, categories, statuses);
              && (v.HardFailure? ==> r == Thrown(v.code) && dao.rows == old(dao.rows))
              && (v.Rejected? ==> r == Returned(-1) && dao.rows == old(dao.rows))
              && (v.Accepted? ==>
                    var e := v.entity.(id := id);
                    if !HasId(old(dao.rows), id) then
                      r == Returned(0) && dao.rows == old(dao.rows)
                    else if NameTakenExcept(old(dao.rows), e.name, id) then
                      r == Returned(-1) && dao.rows == old(dao.rows)
                    else
                      r == Returned(1) && dao.rows == ReplaceById(old(dao.rows), e))
      ensures r == Returned(1) && databaseCreated ==>
                published == Some(Evaluate(source, dao.rows, dao.engine))
      ensures r != Returned(1) ==> published == old(published)
    {
      var v := VerifyValues(values, categories, statuses);
      if v.HardFailure? {
        return Thrown(v.code);
      }
      if v.Rejected? {
        return Returned(-1);
      }
      var e := v.entity.(id := id);
      var updated := dao.Update(e);
      if updated.Failure? {
        return Returned(-1);
      }
      if updated.value > 0 {
        OnChanged();
      }
      r := Returned(updated.value);
    }

    /** deleteItems: the number of rows the store removed. */
    method DeleteItems(items: seq<ListEntity>) returns (r: int)
      requires Valid()
      modifies this, dao
      ensures Valid()
      ensures databaseCreated == old(databaseCreated) && source == old(source)
      ensures dao.rows == Without(old(dao.rows), IdsOf(items))
      ensures r == |old(dao.rows)| - |dao.rows|
      ensures r == 0 ==> published == old(published)
      ensures r > 0 && databaseCreated ==> published == Some(Evaluate(source, dao.rows, dao.engine))
    {
      r := dao.Delete(items);
      if r > 0 {
        OnChanged();
      }
    }
  }
}
