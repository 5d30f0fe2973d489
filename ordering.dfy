/**
 * `OrderByDescending(x => x.CreatedOn)`, the order in which the services list a client's
 * records. LINQ's OrderByDescending is a stable sort: records with the same CreatedOn keep
 * the order the query returned them in.
 */
module Ordering {
  import opened Dates

  /** No record is older than a record listed after it. */
  predicate NewestFirst<T>(s: seq<T>, key: T -> DateTime)
  {
    forall i, j | 0 <= i < j < |s| :: !Before(key(s[i]), key(s[j]))
  }

  /** Inserts `x` before the first record that is not newer than it. */
  function Insert<T>(x: T, s: seq<T>, key: T -> DateTime): (r: seq<T>)
    ensures multiset(r) == multiset(s) + multiset{x}
    ensures |r| == |s| + 1
    decreases |s|
  {
    if s == [] then [x]
    else if !Before(key(x), key(s[0])) then [x] + s
    else
      assert s == [s[0]] + s[1..];
      [s[0]] + Insert(x, s[1..], key)
  }

  /** A stable insertion sort on the key, newest first. */
  function SortNewestFirst<T>(s: seq<T>, key: T -> DateTime): (r: seq<T>)
    ensures multiset(r) == multiset(s)
    ensures |r| == |s|
    decreases |s|
  {
    if s == [] then []
    else
      assert s == [s[0]] + s[1..];
      Insert(s[0], SortNewestFirst(s[1..], key), key)
  }

  lemma {:induction false} InsertKeepsOrder<T>(x: T, s: seq<T>, key: T -> DateTime)
    requires NewestFirst(s, key)
    ensures NewestFirst(Insert(x, s, key), key)
    decreases |s|
  {
    if s != [] && Before(key(x), key(s[0])) {
      InsertKeepsOrder(x, s[1..], key);
      var r := Insert(x, s[1..], key);
      forall k | 0 <= k < |r|
        ensures !Before(key(s[0]), key(r[k]))
      {
        assert r[k] in multiset(r);
        assert r[k] == x || r[k] in multiset(s[1..]);
        if r[k] != x {
          var m :| 0 <= m < |s[1..]| && s[1..][m] == r[k];
          assert s[m + 1] == r[k];
        }
        BeforeIsStrictTotalOrder(key(s[0]), key(r[k]), key(x));
      }
    }
  }

  /** The sort lists the records newest first. */
  lemma {:induction false} SortIsNewestFirst<T>(s: seq<T>, key: T -> DateTime)
    ensures NewestFirst(SortNewestFirst(s, key), key)
    decreases |s|
  {
    if s != [] {
      SortIsNewestFirst(s[1..], key);
      InsertKeepsOrder(s[0], SortNewestFirst(s[1..], key), key);
    }
  }

  /** Records with equal keys appear with ascending ids. */
  predicate TiesById<T>(s: seq<T>, key: T -> DateTime, id: T -> int)
  {
    forall i, j | 0 <= i < j < |s| && key(s[i]) == key(s[j]) :: id(s[i]) < id(s[j])
  }

  /** Ids strictly ascending along the list. */
  predicate AscendingIds<T>(s: seq<T>, id: T -> int)
  {
    forall i, j | 0 <= i < j < |s| :: id(s[i]) < id(s[j])
  }

  lemma {:induction false} InsertKeepsTies<T>(x: T, s: seq<T>, key: T -> DateTime, id: T -> int)
    requires TiesById(s, key, id)
    requires forall k | 0 <= k < |s| :: id(x) < id(s[k])
    ensures TiesById(Insert(x, s, key), key, id)
    decreases |s|
  {
    if s != [] && Before(key(x), key(s[0])) {
      InsertKeepsTies(x, s[1..], key, id);
      var r := Insert(x, s[1..], key);
      forall k | 0 <= k < |r| && key(s[0]) == key(r[k])
        ensures id(s[0]) < id(r[k])
      {
        assert r[k] in multiset(r);
        if r[k] == x {
          BeforeIsStrictTotalOrder(key(x), key(s[0]), key(x));
        } else {
          assert r[k] in multiset(s[1..]);
          var m :| 0 <= m < |s[1..]| && s[1..][m] == r[k];
          assert s[m + 1] == r[k];
        }
      }
    }
  }

  /**
   * Stability: when the records arrive with ascending ids (the order the repository scan
   * yields them), records with the same CreatedOn stay in ascending id order.
   */
  lemma {:induction false} SortIsStable<T>(s: seq<T>, key: T -> DateTime, id: T -> int)
    requires AscendingIds(s, id)
    ensures TiesById(SortNewestFirst(s, key), key, id)
    decreases |s|
  {
    if s != [] {
      var rest := SortNewestFirst(s[1..], key);
      SortIsStable(s[1..], key, id);
      forall k | 0 <= k < |rest|
        ensures id(s[0]) < id(rest[k])
      {
        assert rest[k] in multiset(s[1..]);
        var m :| 0 <= m < |s[1..]| && s[1..][m] == rest[k];
        assert s[m + 1] == rest[k];
      }
      InsertKeepsTies(s[0], rest, key, id);
    }
  }
}
