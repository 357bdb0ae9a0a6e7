/** The three query shapes the store calls use: an equality filter, an
    `order(column, { ascending: false })` and a `limit(n)`. The order is a stable
    descending insertion sort on an integer column: rows with equal keys keep
    their table order (the backend leaves that order unspecified). */
module Seqs {
  import opened Types

  /** Keeps the rows that satisfy `p`, in table order. */
  function Filter<T(!new)>(s: seq<T>, p: T -> bool): (r: seq<T>)
    ensures |r| <= |s|
    ensures forall x :: x in r <==> x in s && p(x)
    ensures forall i :: 0 <= i < |r| ==> p(r[i])
  {
    if s == [] then []
    else if p(s[0]) then [s[0]] + Filter(s[1..], p)
    else Filter(s[1..], p)
  }

  /** Filtering a concatenation filters each part. */
  lemma {:induction false} FilterAppend<T(!new)>(s: seq<T>, t: seq<T>, p: T -> bool)
    ensures Filter(s + t, p) == Filter(s, p) + Filter(t, p)
  {
    if s == [] {
      assert s + t == t;
    } else {
      assert (s + t)[0] == s[0] && (s + t)[1..] == s[1..] + t;
      FilterAppend(s[1..], t, p);
    }
  }

  /** Every key is at least as large as every key after it (newest first). */
  predicate SortedDesc<T>(s: seq<T>, key: T -> int) {
    forall i, j :: 0 <= i < j < |s| ==> key(s[i]) >= key(s[j])
  }

  /** An element at least as large as the head of a sorted sequence can go in
      front of it. */
  lemma ConsSorted<T>(x: T, s: seq<T>, key: T -> int)
    requires SortedDesc(s, key)
    requires s != [] ==> key(x) >= key(s[0])
    ensures SortedDesc([x] + s, key)
  {
    var r := [x] + s;
    forall i, j | 0 <= i < j < |r| ensures key(r[i]) >= key(r[j]) {
      assert r[j] == s[j - 1];
      if i > 0 {
        assert r[i] == s[i - 1];
      } else if j > 1 {
        assert key(s[0]) >= key(s[j - 1]);
      }
    }
  }

  /** The elements of a non-empty sequence are its head and its tail's. */
  lemma MultisetCons<T>(s: seq<T>)
    requires s != []
    ensures multiset(s) == multiset(s[1..]) + multiset{s[0]}
  {
    assert s == [s[0]] + s[1..];
  }

  /** One step of the insertion sort: `x` goes in front of the first element
      whose key it is at least as large as. */
  function InsertDesc<T(!new)>(x: T, s: seq<T>, key: T -> int): (r: seq<T>)
    ensures |r| == |s| + 1
    ensures multiset(r) == multiset(s) + multiset{x}
  {
    if s == [] || key(x) >= key(s[0]) then [x] + s
    else
      MultisetCons(s);
      [s[0]] + InsertDesc(x, s[1..], key)
  }

  /** Inserting into a descending sequence keeps it descending; the head is
      then either `x` or the old head. */
  lemma {:induction false} InsertDescSorted<T(!new)>(x: T, s: seq<T>, key: T -> int)
    requires SortedDesc(s, key)
    ensures SortedDesc(InsertDesc(x, s, key), key)
    ensures InsertDesc(x, s, key)[0] == x || (s != [] && InsertDesc(x, s, key)[0] == s[0])
  {
    if s == [] || key(x) >= key(s[0]) {
      ConsSorted(x, s, key);
    } else {
      var tail := s[1..];
      assert SortedDesc(tail, key) by {
        forall i, j | 0 <= i < j < |tail| ensures key(tail[i]) >= key(tail[j]) {
          assert tail[i] == s[i + 1] && tail[j] == s[j + 1];
        }
      }
      InsertDescSorted(x, tail, key);
      var rest := InsertDesc(x, tail, key);
      assert tail != [] ==> tail[0] == s[1];
      ConsSorted(s[0], rest, key);
    }
  }

  /** The rows ordered by `key`, largest first; a permutation of the input. */
  function SortDesc<T(!new)>(s: seq<T>, key: T -> int): (r: seq<T>)
    ensures |r| == |s|
    ensures SortedDesc(r, key)
    ensures multiset(r) == multiset(s)
  {
    if s == [] then []
    else
      var tail := s[1..];
      var rest := SortDesc(tail, key);
      InsertDescSorted(s[0], rest, key);
      MultisetCons(s);
      InsertDesc(s[0], rest, key)
  }

  /** An element that every other element's key falls below heads a
      descending sequence. */
  lemma StrictMaxHeads<T>(s: seq<T>, key: T -> int, x: T)
    requires SortedDesc(s, key) && x in s
    requires forall y :: y in s && key(y) >= key(x) ==> y == x
    ensures s[0] == x
  {
    var j :| 0 <= j < |s| && s[j] == x;
    assert key(s[0]) >= key(s[j]);
    assert s[0] in s;
  }

  /** `limit(n)`: at most the first `n` rows. */
  function Take<T>(s: seq<T>, n: nat): (r: seq<T>)
    ensures |r| == if |s| <= n then |s| else n
    ensures r <= s
    ensures multiset(r) <= multiset(s)
  {
    if |s| <= n then s
    else
      assert s == s[..n] + s[n..];
      s[..n]
  }

  /** In a descending sequence, a row that comes earlier never has a smaller key;
      so an element with a strictly larger key is placed before one with a
      smaller key. */
  lemma {:induction false} LargerKeyComesFirst<T>(s: seq<T>, key: T -> int, i: int, j: int)
    requires SortedDesc(s, key)
    requires 0 <= i < |s| && 0 <= j < |s|
    requires key(s[i]) > key(s[j])
    ensures i < j
  {
  }

  /** Sorting does not add, drop or duplicate rows: membership is preserved. */
  lemma {:induction false} SortDescMembers<T(!new)>(s: seq<T>, key: T -> int, x: T)
    ensures x in SortDesc(s, key) <==> x in s
  {
    var r := SortDesc(s, key);
    assert multiset(r) == multiset(s);
    assert x in r <==> x in multiset(r);
    assert x in s <==> x in multiset(s);
  }

  /** In a descending sequence, every row left out of the first `n` has a key no
      larger than any row kept: `limit(n)` after a descending order keeps the `n`
      largest keys. */
  lemma {:induction false} TakeKeepsLargest<T>(s: seq<T>, key: T -> int, n: nat, x: T, y: T)
    requires SortedDesc(s, key)
    requires x in s && x !in Take(s, n)
    requires y in Take(s, n)
    ensures key(y) >= key(x)
  {
    var t := Take(s, n);
    var k :| 0 <= k < |s| && s[k] == x;
    var i :| 0 <= i < |t| && t[i] == y;
    assert s[i] == y;
    assert k >= |t|;
  }

  /** A prefix of a descending sequence is descending and holds only its
      elements. */
  lemma TakeOfSorted<T>(s: seq<T>, key: T -> int, n: nat)
    requires SortedDesc(s, key)
    ensures SortedDesc(Take(s, n), key)
    ensures forall a :: a in Take(s, n) ==> a in s
  {
    var t := Take(s, n);
    forall a | a in t ensures a in s {
      var i :| 0 <= i < |t| && t[i] == a;
      assert s[i] == a;
    }
  }

  /** No two rows satisfy `p`, as when `p` compares a unique column. */
  predicate AtMostOne<T>(rows: seq<T>, p: T -> bool) {
    forall i, j :: 0 <= i < j < |rows| && p(rows[i]) ==> !p(rows[j])
  }

  lemma {:induction false} FilterNone<T(!new)>(rows: seq<T>, p: T -> bool)
    requires forall x :: x in rows ==> !p(x)
    ensures Filter(rows, p) == []
  {
    if rows != [] {
      assert rows[0] in rows;
      FilterNone(rows[1..], p);
    }
  }

  lemma {:induction false} FilterAtMostOne<T(!new)>(rows: seq<T>, p: T -> bool)
    requires AtMostOne(rows, p)
    ensures |Filter(rows, p)| <= 1
  {
    if rows != [] {
      var tail := rows[1..];
      assert AtMostOne(tail, p) by {
        forall i, j | 0 <= i < j < |tail| && p(tail[i]) ensures !p(tail[j]) {
          assert tail[i] == rows[i + 1] && tail[j] == rows[j + 1];
        }
      }
      FilterAtMostOne(tail, p);
      if p(rows[0]) {
        assert forall x :: x in tail ==> !p(x) by {
          forall x | x in tail ensures !p(x) {
            var k :| 0 <= k < |tail| && tail[k] == x;
            assert rows[k + 1] == x;
          }
        }
        FilterNone(tail, p);
      }
    }
  }

  lemma {:induction false} FilterAtLeastTwo<T(!new)>(rows: seq<T>, p: T -> bool, i: nat, j: nat)
    requires i < j < |rows| && p(rows[i]) && p(rows[j])
    ensures |Filter(rows, p)| >= 2
  {
    var tail := rows[1..];
    if i == 0 {
      assert rows[j] == tail[j - 1];
      assert rows[j] in Filter(tail, p);
    } else {
      assert rows[i] == tail[i - 1] && rows[j] == tail[j - 1];
      FilterAtLeastTwo(tail, p, i - 1, j - 1);
    }
  }

  lemma FilterCountBounds<T(!new)>(rows: seq<T>, p: T -> bool)
    ensures AtMostOne(rows, p) ==> |Filter(rows, p)| <= 1
    ensures (exists i, j :: 0 <= i < j < |rows| && p(rows[i]) && p(rows[j])) ==> |Filter(rows, p)| >= 2
  {
    if AtMostOne(rows, p) {
      FilterAtMostOne(rows, p);
    }
    if exists i, j :: 0 <= i < j < |rows| && p(rows[i]) && p(rows[j]) {
      var i, j :| 0 <= i < j < |rows| && p(rows[i]) && p(rows[j]);
      FilterAtLeastTwo(rows, p, i, j);
    }
  }

  /** `.maybeSingle()`: the one row satisfying `p`. No row, more than one
      row, and a backend error all give `None` (the call reports the latter two
      as errors, the first as `null` data). */
  function MaybeSingle<T(!new)>(rows: seq<T>, p: T -> bool, fail: bool): (r: Option<T>)
    ensures fail ==> r.None?
    ensures r.Some? ==> r.value in rows && p(r.value)
    ensures r.Some? ==> forall x :: x in rows && p(x) ==> x == r.value
    ensures (forall x :: x in rows ==> !p(x)) ==> r.None?
    ensures (exists i, j :: 0 <= i < j < |rows| && p(rows[i]) && p(rows[j])) ==> r.None?
    ensures !fail && AtMostOne(rows, p) ==> (r.Some? <==> exists x :: x in rows && p(x))
  {
    FilterCountBounds(rows, p);
    var m := Filter(rows, p);
    assert m != [] ==> m[0] in m;
    if fail || |m| != 1 then None
    else
      assert forall x :: x in m ==> x == m[0];
      Some(m[0])
  }
}
