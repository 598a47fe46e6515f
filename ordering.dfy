/** `ORDER BY key DESC LIMIT cap` over a sequence of rows, with no tie-break: the order
    among rows with equal keys is left open, as SQLite leaves it. */
module Ordering {

  function Min(a: int, b: int): int {
    if a <= b then a else b
  }

  /** Keys never increase along `rows`. */
  ghost predicate NonIncreasingBy<T>(rows: seq<T>, key: T -> int) {
    forall i, j :: 0 <= i < j < |rows| ==> key(rows[i]) >= key(rows[j])
  }

  /** `s` without its element at `m`. */
  function RemoveAt<T>(s: seq<T>, m: nat): (r: seq<T>)
    requires m < |s|
    ensures |r| == |s| - 1
    ensures forall k :: 0 <= k < |r| ==> r[k] == if k < m then s[k] else s[k + 1]
    ensures multiset(r) + multiset{s[m]} == multiset(s)
  {
    assert s == s[..m] + [s[m]] + s[m + 1..];
    s[..m] + s[m + 1..]
  }

  /** An index of a row with the largest key. */
  method ArgMax<T>(rows: seq<T>, key: T -> int) returns (m: nat)
    requires rows != []
    ensures m < |rows|
    ensures forall k :: 0 <= k < |rows| ==> key(rows[k]) <= key(rows[m])
  {
    m := 0;
    for i := 1 to |rows|
      invariant m < i
      invariant forall k :: 0 <= k < i ==> key(rows[k]) <= key(rows[m])
    {
      if key(rows[m]) < key(rows[i]) {
        m := i;
      }
    }
  }

  /** Appending a row no larger than the last keeps the order non-increasing. */
  lemma AppendKeepsOrder<T>(rows: seq<T>, x: T, key: T -> int)
    requires NonIncreasingBy(rows, key)
    requires rows != [] ==> key(x) <= key(rows[|rows| - 1])
    ensures NonIncreasingBy(rows + [x], key)
  {
    var r := rows + [x];
    forall i, j | 0 <= i < j < |r|
      ensures key(r[i]) >= key(r[j])
    {
      if j == |rows| && i < |rows| - 1 {
        assert key(rows[i]) >= key(rows[|rows| - 1]);
      }
    }
  }

  /** `rows` is an admissible answer to `ORDER BY key DESC LIMIT cap` over `pool`: as many
      rows as the limit and the pool allow, drawn from the pool, largest key first, and every
      row left out has a key no larger than any row returned. */
  ghost predicate IsTop<T>(pool: seq<T>, key: T -> int, cap: nat, rows: seq<T>) {
    |rows| == Min(cap, |pool|) &&
    multiset(rows) <= multiset(pool) &&
    (cap >= |pool| ==> multiset(rows) == multiset(pool)) &&
    NonIncreasingBy(rows, key) &&
    (forall x, i | x in multiset(pool) - multiset(rows) && 0 <= i < |rows| :: key(x) <= key(rows[i]))
  }

  /** Selects the rows by repeatedly taking a largest remaining one. */
  method TopByKey<T(==)>(pool: seq<T>, key: T -> int, cap: nat) returns (rows: seq<T>)
    ensures IsTop(pool, key, cap, rows)
  {
    rows := [];
    var rest := pool;
    while |rows| < cap && rest != []
      invariant multiset(rows) + multiset(rest) == multiset(pool)
      invariant |rows| + |rest| == |pool|
      invariant |rows| <= cap
      invariant NonIncreasingBy(rows, key)
      invariant |rows| > 0 ==> forall k :: 0 <= k < |rest| ==> key(rest[k]) <= key(rows[|rows| - 1])
      decreases |rest|
    {
      var m := ArgMax(rest, key);
      var picked := rest[m];
      AppendKeepsOrder(rows, picked, key);
      rows := rows + [picked];
      rest := RemoveAt(rest, m);
    }
    LeftOutBounded(pool, rows, rest, key);
  }

  /** Once `pool` is split into `rows` and `rest` and every row of `rest` is no larger
      than the last of the ordered `rows`, each row left out is no larger than any chosen. */
  lemma LeftOutBounded<T>(pool: seq<T>, rows: seq<T>, rest: seq<T>, key: T -> int)
    requires multiset(rows) + multiset(rest) == multiset(pool)
    requires NonIncreasingBy(rows, key)
    requires |rows| > 0 ==> forall k :: 0 <= k < |rest| ==> key(rest[k]) <= key(rows[|rows| - 1])
    ensures forall x, i | x in multiset(pool) - multiset(rows) && 0 <= i < |rows| :: key(x) <= key(rows[i])
  {
    assert multiset(pool) - multiset(rows) == multiset(rest);
    forall x, i | x in multiset(rest) && 0 <= i < |rows|
      ensures key(x) <= key(rows[i])
    {
      var k :| 0 <= k < |rest| && rest[k] == x;
      assert key(rows[i]) >= key(rows[|rows| - 1]);
    }
  }

  /** No two rows share an identity. */
  predicate DistinctBy<T, K(==)>(rows: seq<T>, id: T -> K) {
    forall i, j :: 0 <= i < j < |rows| ==> id(rows[i]) != id(rows[j])
  }

  /** The identities the rows carry. */
  function IdsOf<T, K(==)>(rows: seq<T>, id: T -> K): set<K> {
    set i | 0 <= i < |rows| :: id(rows[i])
  }

  /** Rows with distinct identities are exactly as many as the identities. */
  lemma {:induction false} DistinctCount<T, K>(rows: seq<T>, id: T -> K)
    requires DistinctBy(rows, id)
    ensures |IdsOf(rows, id)| == |rows|
  {
    if rows != [] {
      var n := |rows| - 1;
      var init := rows[..n];
      assert DistinctBy(init, id);
      DistinctCount(init, id);
      assert IdsOf(rows, id) == IdsOf(init, id) + {id(rows[n])} by {
        forall k | k in IdsOf(rows, id)
          ensures k in IdsOf(init, id) + {id(rows[n])}
        {
          var i :| 0 <= i < |rows| && id(rows[i]) == k;
          if i < n {
            assert init[i] == rows[i];
          }
        }
        forall k | k in IdsOf(init, id)
          ensures k in IdsOf(rows, id)
        {
          var i :| 0 <= i < |init| && id(init[i]) == k;
          assert rows[i] == init[i];
        }
      }
      assert id(rows[n]) !in IdsOf(init, id) by {
        forall i | 0 <= i < |init|
          ensures id(init[i]) != id(rows[n])
        {
          assert init[i] == rows[i];
        }
      }
    }
  }

  /** Reordering rows keeps their identities distinct. */
  lemma PermutationKeepsDistinct<T, K>(a: seq<T>, b: seq<T>, id: T -> K)
    requires multiset(a) == multiset(b)
    requires DistinctBy(a, id)
    ensures DistinctBy(b, id)
  {
    forall i, j | 0 <= i < j < |b|
      ensures id(b[i]) != id(b[j])
    {
      assert b[i] in multiset(a);
      var p :| 0 <= p < |a| && a[p] == b[i];
      var q := OtherIndexOf(a, b, p, j, i);
    }
  }

  /** Where `b[j]` sits in `a` once index `p` of `a`, holding `b[i]`, is taken. */
  lemma OtherIndexOf<T>(a: seq<T>, b: seq<T>, p: nat, j: nat, i: nat) returns (q: nat)
    requires multiset(a) == multiset(b)
    requires i < j < |b| && p < |a| && a[p] == b[i]
    ensures q < |a| && q != p && a[q] == b[j]
  {
    var x := b[j];
    assert b == b[..j] + b[j..];
    assert b[i] in b[..j] && x in b[j..];
    if b[i] == x {
      assert multiset(b)[x] == multiset(b[..j])[x] + multiset(b[j..])[x];
      assert multiset(a)[x] >= 2;
      var rest := RemoveAt(a, p);
      assert multiset(rest)[x] >= 1;
      var k :| 0 <= k < |rest| && rest[k] == x;
      q := if k < p then k else k + 1;
    } else {
      assert x in multiset(a);
      q :| 0 <= q < |a| && a[q] == x;
    }
  }
}
