/**
 * The generic EF repository (Calorizer.DAL/Repositories/Repository.cs) over an in-memory
 * table. The table maps each primary key to its row; `nextId` is the identity counter the
 * database draws fresh keys from, so a key is never handed out twice. Every write commits
 * at once, as each repository method calls SaveChanges itself.
 */
module Store {
  import opened Wrappers

  /** A stored row together with its primary key. */
  datatype Row<T> = Row(id: int, entity: T)

  /**
   * The rows of `table` with keys in [1, n) satisfying `p`, in ascending key order: the
   * order a scan of the clustered primary key yields them.
   */
  function Scan<T>(table: map<int, T>, p: T -> bool, n: int): seq<Row<T>>
    decreases n
  {
    if n <= 1 then []
    else Scan(table, p, n - 1) + (if n - 1 in table && p(table[n - 1]) then [Row(n - 1, table[n - 1])] else [])
  }

  /** A scan holds exactly the matching rows below `n`, each once, keys strictly ascending. */
  lemma {:induction false} ScanContents<T>(table: map<int, T>, p: T -> bool, n: int)
    ensures forall r :: r in Scan(table, p, n) ==> (1 <= r.id < n && r.id in table && table[r.id] == r.entity && p(r.entity))
    ensures forall r: Row<T> :: (1 <= r.id < n && r.id in table && table[r.id] == r.entity && p(r.entity)) ==> r in Scan(table, p, n)
    ensures forall i, j | 0 <= i < j < |Scan(table, p, n)| :: Scan(table, p, n)[i].id < Scan(table, p, n)[j].id
    decreases n
  {
    if n > 1 {
      ScanContents(table, p, n - 1);
      var prefix := Scan(table, p, n - 1);
      assert forall i | 0 <= i < |prefix| :: prefix[i].id < n - 1;
    }
  }

  /** The keys of `table` below `n`. */
  ghost function KeysBelow<T>(table: map<int, T>, n: int): set<int>
  {
    set id | id in table && id < n
  }

  /** An unfiltered scan has one row per key. */
  lemma {:induction false} ScanAllCount<T>(table: map<int, T>, n: int)
    requires forall id | id in table :: 1 <= id
    ensures |Scan(table, _ => true, n)| == |KeysBelow(table, n)|
    decreases n
  {
    if n <= 1 {
      assert KeysBelow(table, n) == {};
    } else {
      ScanAllCount(table, n - 1);
      if n - 1 in table {
        assert KeysBelow(table, n) == KeysBelow(table, n - 1) + {n - 1};
      } else {
        assert KeysBelow(table, n) == KeysBelow(table, n - 1);
      }
    }
  }

  /** The entities keyed consecutively from `start`, in order. */
  function Keyed<T>(start: int, entities: seq<T>): (m: map<int, T>)
    ensures forall id :: id in m <==> start <= id < start + |entities|
    ensures forall k | 0 <= k < |entities| :: m[start + k] == entities[k]
    decreases |entities|
  {
    if entities == [] then map[]
    else Keyed(start, entities[..|entities| - 1])[start + |entities| - 1 := entities[|entities| - 1]]
  }

  class Repository<T(!new)> {
    /** The table: primary key to row. */
    var rows: map<int, T>
    /** The next key the identity column hands out. */
    var nextId: int

    /** Every stored key was handed out by the identity counter, which starts at 1. */
    ghost predicate Valid()
      reads this
    {
      nextId >= 1 && forall id | id in rows :: 1 <= id < nextId
    }

    constructor ()
      ensures Valid() && rows == map[] && nextId == 1
    {
      rows := map[];
      nextId := 1;
    }

    /** `GetByIdAsync(id)`: the row stored under `id`, or null. */
    function GetById(id: int): (r: Option<T>)
      reads this
      ensures r.Some? <==> id in rows
      ensures r.Some? ==> r.value == rows[id]
    {
      if id in rows then Some(rows[id]) else None
    }

    /** `FindAsync(p)`: exactly the stored rows that satisfy `p`, in ascending key order. */
    function Find(p: T -> bool): (r: seq<Row<T>>)
      requires Valid()
      reads this
      ensures forall x :: x in r <==> (x.id in rows && rows[x.id] == x.entity && p(x.entity))
      ensures forall i, j | 0 <= i < j < |r| :: r[i].id < r[j].id
    {
      ScanContents(rows, p, nextId);
      Scan(rows, p, nextId)
    }

    /** `GetAllAsync()`: every stored row, in ascending key order. */
    function GetAll(): (r: seq<Row<T>>)
      requires Valid()
      reads this
      ensures forall x :: x in r <==> (x.id in rows && rows[x.id] == x.entity)
      ensures forall i, j | 0 <= i < j < |r| :: r[i].id < r[j].id
    {
      Find(_ => true)
    }

    /** `ExistsAsync(id)`: whether a row is stored under `id`. */
    function Exists(id: int): (b: bool)
      reads this
      ensures b <==> id in rows
    {
      GetById(id).Some?
    }

    /** `CountAsync()`: the number of stored rows, which is the length of `GetAll()`. */
    function Count(): (n: nat)
      requires Valid()
      reads this
      ensures n == |GetAll()|
    {
      ScanAllCount(rows, nextId);
      assert KeysBelow(rows, nextId) == rows.Keys;
      |rows|
    }

    /** `AddAsync(entity)`: stores `entity` under a fresh key and returns that key. */
    method Add(entity: T) returns (id: int)
      requires Valid()
      modifies this
      ensures Valid()
      ensures id == old(nextId) && id !in old(rows)
      ensures rows == old(rows)[id := entity] && nextId == old(nextId) + 1
    {
      id := nextId;
      rows := rows[id := entity];
      nextId := nextId + 1;
    }

    /** `AddRangeAsync(entities)`: stores the entities under consecutive fresh keys, in order. */
    method AddRange(entities: seq<T>) returns (ids: seq<int>)
      requires Valid()
      modifies this
      ensures Valid()
      ensures |ids| == |entities|
      ensures forall k | 0 <= k < |ids| :: ids[k] == old(nextId) + k && ids[k] !in old(rows)
      ensures rows == old(rows) + Keyed(old(nextId), entities)
      ensures nextId == old(nextId) + |entities|
    {
      var start := nextId;
      ids := seq(|entities|, k requires 0 <= k < |entities| => start + k);
      rows := rows + Keyed(start, entities);
      nextId := start + |entities|;
    }

    /**
     * `UpdateAsync(entity)`: replaces the row stored under `id`. SaveChanges throws when no
     * row has that key; that is reported as `ok == false` with the table untouched.
     */
    method Update(id: int, entity: T) returns (ok: bool)
      requires Valid()
      modifies this
      ensures Valid()
      ensures ok <==> id in old(rows)
      ensures rows == (if ok then old(rows)[id := entity] else old(rows))
      ensures nextId == old(nextId)
    {
      ok := id in rows;
      if ok {
        rows := rows[id := entity];
      }
    }

    /** `DeleteAsync(id)`: removes the row stored under `id`, if there is one. */
    method Delete(id: int)
      requires Valid()
      modifies this
      ensures Valid()
      ensures rows == old(rows) - {id} && nextId == old(nextId)
      ensures id !in old(rows) ==> rows == old(rows)
    {
      if id in rows {
        rows := rows - {id};
      }
    }
  }

  /** A row just added under the next key is in every scan of the grown table that its entity satisfies. */
  lemma AddedRowIsFound<T>(table: map<int, T>, n: int, id: int, entity: T, p: T -> bool)
    requires forall k | k in table :: 1 <= k < n
    requires id == n && n >= 1 && p(entity)
    ensures Row(id, entity) in Scan(table[id := entity], p, n + 1)
  {
    ScanContents(table[id := entity], p, n + 1);
  }

  /** `rows.Select(toDto)`. */
  function Project<T, D>(rows: seq<Row<T>>, toDto: Row<T> -> D): (r: seq<D>)
    ensures |r| == |rows| && forall i | 0 <= i < |rows| :: r[i] == toDto(rows[i])
  {
    seq(|rows|, i requires 0 <= i < |rows| => toDto(rows[i]))
  }

  /**
   * `Find(p).Select(toDto)`, for a conversion that keeps the key as `idOf`: exactly the
   * matching rows, each converted, ids strictly ascending.
   */
  lemma ProjectedFind<T(!new), D>(repo: Repository<T>, p: T -> bool, toDto: Row<T> -> D, idOf: D -> int)
    requires repo.Valid()
    requires forall x :: idOf(toDto(x)) == x.id
    ensures var r := Project(repo.Find(p), toDto);
      && (forall d | d in r :: idOf(d) in repo.rows && p(repo.rows[idOf(d)]) && d == toDto(Row(idOf(d), repo.rows[idOf(d)])))
      && (forall id | id in repo.rows && p(repo.rows[id]) :: toDto(Row(id, repo.rows[id])) in r)
      && (forall i, j | 0 <= i < j < |r| :: idOf(r[i]) < idOf(r[j]))
  {
    var found := repo.Find(p);
    var r := Project(found, toDto);
    forall d | d in r
      ensures idOf(d) in repo.rows && p(repo.rows[idOf(d)]) && d == toDto(Row(idOf(d), repo.rows[idOf(d)]))
    {
      var i :| 0 <= i < |r| && r[i] == d;
      assert found[i] in found;
    }
    forall id | id in repo.rows && p(repo.rows[id])
      ensures toDto(Row(id, repo.rows[id])) in r
    {
      var i :| 0 <= i < |found| && found[i] == Row(id, repo.rows[id]);
      assert r[i] == toDto(found[i]);
    }
  }
}
