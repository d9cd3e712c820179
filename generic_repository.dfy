/** `GenericRepository<T>`: CRUD, paging and projected reads over one table.
    The database context is the field `rows`; AutoMapper's conversions are
    function parameters (`toEntity`, `project`, `merge`). */
module GenericRepo {
  import opened Outcomes
  import opened Store
  import opened Models

  function Min(a: int, b: int): int { if a < b then a else b }
  function Max(a: int, b: int): int { if a < b then b else a }

  class GenericRepository<T> {
    /** `typeof(T).Name`: the subject of every not-found error. */
    const typeName: string
    /** The table, in store order. */
    var rows: seq<Entity<T>>

    /** The primary-key constraint the store maintains. */
    ghost predicate Valid()
      reads this
    {
      UniqueIds(rows)
    }

    constructor (typeName: string, rows: seq<Entity<T>>)
      requires UniqueIds(rows)
      ensures Valid()
      ensures this.typeName == typeName && this.rows == rows
    {
      this.typeName := typeName;
      this.rows := rows;
    }

    /** `GetAsync(int? id)`: a null id short-circuits to null; otherwise the
        row with that key, or null. Never fails. */
    function Get(id: Option<int>): (r: Option<Entity<T>>)
      reads this
      ensures id.None? ==> r.None?
      ensures id.Some? ==> (r.Some? <==> id.value in Ids(rows))
      ensures r.Some? ==> r.value in rows && Some(r.value.id) == id
      ensures Valid() && id.Some? ==> forall e :: e in rows && e.id == id.value ==> r == Some(e)
    {
      if id.None? then None else Find(rows, id.value)
    }

    /** `Exists(id)`: whether the lookup finds a row. Never fails. */
    function Exists(id: int): (b: bool)
      reads this
      ensures b <==> id in Ids(rows)
    {
      Get(Some(id)).Some?
    }

    /** `GetAsync<TResult>(int? id)`: the projected row, or a not-found error
        naming the entity type and the key ("No Key Provided" for null).
        `FindAsync` with a null key finds nothing. */
    function GetProjected<R>(id: Option<int>, project: Entity<T> -> R): (r: Result<R>)
      reads this
      requires Valid()
      ensures id.None? ==> r == Err(NotFound(typeName, NoKeyProvided))
      ensures id.Some? && !Exists(id.value) ==> r == Err(NotFound(typeName, IntKey(id.value)))
      ensures forall e :: e in rows && Some(e.id) == id ==> r == Ok(project(e))
    {
      var found := if id.None? then None else Find(rows, id.value);
      if found.None? then
        Err(NotFound(typeName, if id.Some? then IntKey(id.value) else NoKeyProvided))
      else
        Ok(project(found.value))
    }

    /** `GetAllAsync()`: every row, in store order. The listing is as long as
        the table, each listed row is what the key lookup returns for its key,
        and every key that exists is listed; with unique keys each row is
        therefore listed exactly once. */
    function GetAll(): (all: seq<Entity<T>>)
      reads this
      requires Valid()
      ensures |all| == |rows|
      ensures forall i :: 0 <= i < |all| ==> Get(Some(all[i].id)) == Some(all[i])
      ensures forall k :: Exists(k) ==> exists i :: 0 <= i < |all| && all[i].id == k
    {
      rows
    }

    /** `GetAllAsync<TResult>()`: all rows projected, same length and order. */
    function GetAllProjected<R>(project: Entity<T> -> R): (r: seq<R>)
      reads this
      requires Valid()
      ensures |r| == |GetAll()|
      ensures forall i :: 0 <= i < |r| ==> r[i] == project(GetAll()[i])
    {
      MapSeq(project, rows)
    }

    /** `GetAllAsync<TResult>(QueryParameters)`: a count of all rows, then a
        skip/take slice projected, wrapped with the echoed page number and
        page size. */
    function GetPage<R>(q: QueryParameters, project: Entity<T> -> R): (page: PagedResult<R>)
      reads this, q
      requires q.startIndex >= 0 && q.pageSize >= 0
      ensures page.totalCount == |rows|
      ensures |page.items| == Max(0, Min(q.pageSize as int, |rows| - q.startIndex as int))
      ensures forall i :: 0 <= i < |page.items| ==>
        q.startIndex as int + i < |rows| && page.items[i] == project(rows[q.startIndex as int + i])
      ensures page.pageNumber == q.pageNumber as int
      ensures page.recordNumber == q.pageSize as int
      ensures |page.items| <= page.recordNumber
    {
      var totalSize := |rows|;
      var items := MapSeq(project, Take(Skip(rows, q.startIndex as nat), q.pageSize as nat));
      PagedResult(items, q.pageNumber as int, q.pageSize as int, totalSize)
    }

    /** `AddAsync(T entity)`: inserts the entity under a key the store picks
        and returns it as stored. */
    method Add(data: T) returns (stored: Entity<T>)
      requires Valid()
      modifies this
      ensures Valid()
      ensures stored.data == data && stored.id !in Ids(old(rows))
      ensures rows == old(rows) + [stored]
      ensures Get(Some(stored.id)) == Some(stored)
    {
      stored := Entity(FreshKey(rows), data);
      AppendKeepsUnique(rows, stored);
      rows := rows + [stored];
    }

    /** `AddAsync<TSource, TResult>(source)`: maps the source to an entity,
        inserts it, and projects the entity as stored (key included). */
    method AddMapped<S, R>(source: S, toEntity: S -> T, project: Entity<T> -> R) returns (result: R)
      requires Valid()
      modifies this
      ensures Valid()
      ensures |rows| == |old(rows)| + 1 && rows[..|old(rows)|] == old(rows)
      ensures rows[|old(rows)|].data == toEntity(source)
      ensures rows[|old(rows)|].id !in Ids(old(rows))
      ensures result == project(rows[|old(rows)|])
      ensures GetProjected(Some(rows[|old(rows)|].id), project) == Ok(result)
    {
      var entity := toEntity(source);
      var stored := Add(entity);
      result := project(stored);
    }

    /** `DeleteAsync(id)`: looks the row up, fails with not-found if it is
        absent, otherwise removes exactly that row. */
    method Delete(id: int) returns (outcome: Outcome)
      requires Valid()
      modifies this
      ensures Valid()
      ensures outcome.Fail? <==> id !in Ids(old(rows))
      ensures outcome.Fail? ==> outcome.error == NotFound(typeName, IntKey(id)) && rows == old(rows)
      ensures outcome.Done? ==> rows == Others(old(rows), id) && |rows| == |old(rows)| - 1
      ensures forall e :: e in rows <==> e in old(rows) && e.id != id
      ensures !Exists(id)
    {
      var entity := Get(Some(id));
      if entity.None? {
        outcome := Fail(NotFound(typeName, IntKey(id)));
        return;
      }
      WithoutKeepsOthers(rows, entity.value.id);
      WithoutProperties(rows, entity.value.id);
      rows := Without(rows, entity.value.id);
      outcome := Done;
    }

    /** `UpdateAsync(T entity)`: overwrites the row with the entity's key.
        When no row has that key the store's save touches nothing and fails. */
    method Update(entity: Entity<T>) returns (outcome: Outcome)
      requires Valid()
      modifies this
      ensures Valid()
      ensures outcome.Fail? <==> entity.id !in Ids(old(rows))
      ensures outcome.Fail? ==> outcome.error == ConcurrencyConflict(typeName, entity.id) && rows == old(rows)
      ensures |rows| == |old(rows)|
      ensures forall j :: 0 <= j < |rows| ==>
        rows[j] == if old(rows)[j].id == entity.id then entity else old(rows)[j]
    {
      if entity.id !in Ids(rows) {
        outcome := Fail(ConcurrencyConflict(typeName, entity.id));
        return;
      }
      ReplaceKeepsIds(rows, entity.id, entity.data);
      rows := Replace(rows, entity.id, entity.data);
      outcome := Done;
    }

    /** `UpdateAsync<TSource>(id, source)`: looks the row up, fails with
        not-found if it is absent, otherwise merges the source onto it. */
    method UpdateMapped<S>(id: int, source: S, merge: (S, T) -> T) returns (outcome: Outcome)
      requires Valid()
      modifies this
      ensures Valid()
      ensures outcome.Fail? <==> id !in Ids(old(rows))
      ensures outcome.Fail? ==> outcome.error == NotFound(typeName, IntKey(id)) && rows == old(rows)
      ensures |rows| == |old(rows)|
      ensures forall j :: 0 <= j < |rows| ==>
        rows[j] == if old(rows)[j].id == id then Entity(id, merge(source, old(rows)[j].data)) else old(rows)[j]
    {
      var entity := Get(Some(id));
      if entity.None? {
        outcome := Fail(NotFound(typeName, IntKey(id)));
        return;
      }
      var merged := merge(source, entity.value.data);
      ReplaceKeepsIds(rows, id, merged);
      rows := Replace(rows, id, merged);
      outcome := Done;
    }
  }
}
