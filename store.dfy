/** An in-memory stand-in for one table of the relational store (an EF Core
    `DbSet<T>`): rows in store order, looked up by primary key. The
    repository's operations are written on top of these functions. */
module Store {
  import opened Outcomes

  /** A stored row: the key the store assigned and the entity's other fields. */
  datatype Entity<T> = Entity(id: int, data: T)

  /** The keys present in a table. */
  function Ids<T>(rows: seq<Entity<T>>): (ks: set<int>)
    ensures forall i :: 0 <= i < |rows| ==> rows[i].id in ks
    ensures forall k :: k in ks ==> exists i :: 0 <= i < |rows| && rows[i].id == k
  {
    if rows == [] then {} else {rows[0].id} + Ids(rows[1..])
  }

  /** The primary-key constraint: no two rows share a key. */
  ghost predicate UniqueIds<T>(rows: seq<Entity<T>>) {
    forall i, j :: 0 <= i < j < |rows| ==> rows[i].id != rows[j].id
  }

  /** Position of the first row with key `id`, if there is one. */
  function IndexOf<T>(rows: seq<Entity<T>>, id: int): (r: Option<nat>)
    ensures r.None? <==> id !in Ids(rows)
    ensures r.Some? ==> r.value < |rows| && rows[r.value].id == id
    ensures r.Some? ==> forall j :: 0 <= j < r.value ==> rows[j].id != id
  {
    if rows == [] then None
    else if rows[0].id == id then Some(0)
    else match IndexOf(rows[1..], id)
      case None => None
      case Some(i) => Some(i + 1)
  }

  /** `FindAsync(id)`: the row with primary key `id`, or null. */
  function Find<T>(rows: seq<Entity<T>>, id: int): (r: Option<Entity<T>>)
    ensures r.Some? <==> id in Ids(rows)
    ensures r.Some? ==> r.value in rows && r.value.id == id
    ensures UniqueIds(rows) ==> forall i :: 0 <= i < |rows| && rows[i].id == id ==> r == Some(rows[i])
  {
    match IndexOf(rows, id)
    case None => None
    case Some(i) => Some(rows[i])
  }

  /** `Remove(entity)`: the table without the row keyed `id`. */
  function Without<T>(rows: seq<Entity<T>>, id: int): (r: seq<Entity<T>>)
    ensures id !in Ids(rows) ==> r == rows
    ensures id in Ids(rows) ==> |r| == |rows| - 1
    ensures forall e :: e in r ==> e in rows
  {
    match IndexOf(rows, id)
    case None => rows
    case Some(i) => rows[..i] + rows[i + 1..]
  }

  /** Reference definition of what removal keeps: every row whose key is not
      `id`, in store order. */
  function Others<T>(rows: seq<Entity<T>>, id: int): (r: seq<Entity<T>>)
  {
    if rows == [] then []
    else (if rows[0].id == id then [] else [rows[0]]) + Others(rows[1..], id)
  }

  lemma {:induction false} OthersMembers<T>(rows: seq<Entity<T>>, id: int, e: Entity<T>)
    ensures e in Others(rows, id) <==> e in rows && e.id != id
  {
    if rows != [] {
      OthersMembers(rows[1..], id, e);
      assert rows == [rows[0]] + rows[1..];
    }
  }

  lemma {:induction false} OthersOfAbsent<T>(rows: seq<Entity<T>>, id: int)
    requires forall i :: 0 <= i < |rows| ==> rows[i].id != id
    ensures Others(rows, id) == rows
  {
    if rows != [] {
      OthersOfAbsent(rows[1..], id);
      assert rows == [rows[0]] + rows[1..];
    }
  }

  /** On a table with unique keys, removal by key keeps exactly the other
      rows, in their order. */
  lemma {:induction false} WithoutKeepsOthers<T>(rows: seq<Entity<T>>, id: int)
    requires UniqueIds(rows)
    ensures Without(rows, id) == Others(rows, id)
  {
    if rows == [] {
    } else if rows[0].id == id {
      assert forall i :: 0 <= i < |rows[1..]| ==> rows[1..][i].id != id by {
        forall i | 0 <= i < |rows[1..]| ensures rows[1..][i].id != id {
          assert rows[1..][i] == rows[i + 1];
        }
      }
      OthersOfAbsent(rows[1..], id);
    } else {
      TailKeepsUnique(rows);
      WithoutKeepsOthers(rows[1..], id);
      match IndexOf(rows[1..], id)
      case None =>
      case Some(i) =>
        assert rows[..i + 1] + rows[i + 2..] == [rows[0]] + (rows[1..][..i] + rows[1..][i + 1..]);
    }
  }

  /** After removal from a table with unique keys, the keys stay unique, the
      removed key is gone, and a row is kept exactly when its key differs. */
  lemma WithoutProperties<T>(rows: seq<Entity<T>>, id: int)
    requires UniqueIds(rows)
    ensures UniqueIds(Without(rows, id))
    ensures forall e :: e in Without(rows, id) <==> e in rows && e.id != id
    ensures id !in Ids(Without(rows, id))
  {
  }

  /** Dropping the first row keeps the keys unique. */
  lemma TailKeepsUnique<T>(rows: seq<Entity<T>>)
    requires rows != [] && UniqueIds(rows)
    ensures UniqueIds(rows[1..])
  {
  }

  /** `Update(entity)` on a tracked row: the row keyed `id` gets `data`. */
  function Replace<T>(rows: seq<Entity<T>>, id: int, data: T): (r: seq<Entity<T>>)
    ensures |r| == |rows|
    ensures id !in Ids(rows) ==> r == rows
    ensures forall j :: 0 <= j < |rows| ==> r[j].id == rows[j].id
    ensures UniqueIds(rows) ==>
      forall j :: 0 <= j < |rows| ==> r[j] == if rows[j].id == id then Entity(id, data) else rows[j]
  {
    match IndexOf(rows, id)
    case None => rows
    case Some(i) => rows[i := Entity(id, data)]
  }

  /** Replacement changes no key, so the set of keys and their uniqueness
      are preserved. */
  lemma ReplaceKeepsIds<T>(rows: seq<Entity<T>>, id: int, data: T)
    ensures Ids(Replace(rows, id, data)) == Ids(rows)
    ensures UniqueIds(rows) ==> UniqueIds(Replace(rows, id, data))
  {
  }

  lemma AppendKeepsUnique<T>(rows: seq<Entity<T>>, e: Entity<T>)
    requires UniqueIds(rows) && e.id !in Ids(rows)
    ensures UniqueIds(rows + [e])
    ensures Ids(rows + [e]) == Ids(rows) + {e.id}
  {
    var r := rows + [e];
    forall k | k in Ids(r) ensures k in Ids(rows) + {e.id} {
      var i :| 0 <= i < |r| && r[i].id == k;
      if i < |rows| { assert rows[i].id == k; }
    }
    forall k | k in Ids(rows) + {e.id} ensures k in Ids(r) {
      if k in Ids(rows) {
        var i :| 0 <= i < |rows| && rows[i].id == k;
        assert r[i].id == k;
      } else {
        assert r[|rows|].id == k;
      }
    }
  }

  /** A key larger than every key in the table, as an identity column hands
      out. */
  function FreshKey<T>(rows: seq<Entity<T>>): (k: int)
    ensures forall i :: 0 <= i < |rows| ==> rows[i].id < k
    ensures k !in Ids(rows)
  {
    if rows == [] then 1
    else
      var rest := FreshKey(rows[1..]);
      if rows[0].id < rest then rest else rows[0].id + 1
  }

  /** `Skip(n)`: drops the first `n` elements, or all of them. */
  function Skip<X>(s: seq<X>, n: nat): (r: seq<X>)
    ensures |r| == if n <= |s| then |s| - n else 0
    ensures forall i :: 0 <= i < |r| ==> r[i] == s[n + i]
  {
    if n <= |s| then s[n..] else []
  }

  /** `Take(n)`: keeps the first `n` elements, or all of them. */
  function Take<X>(s: seq<X>, n: nat): (r: seq<X>)
    ensures |r| == if n <= |s| then n else |s|
    ensures forall i :: 0 <= i < |r| ==> r[i] == s[i]
  {
    if n <= |s| then s[..n] else s
  }

  /** A projection applied to every element, in order (the `Select` that
      `ProjectTo` builds). */
  function MapSeq<X, Y>(f: X -> Y, s: seq<X>): (r: seq<Y>)
    ensures |r| == |s|
    ensures forall i :: 0 <= i < |s| ==> r[i] == f(s[i])
  {
    if s == [] then [] else [f(s[0])] + MapSeq(f, s[1..])
  }
}
