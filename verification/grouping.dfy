/**
 A table grouped on one key column and summed over one value column, as a
 data-frame `groupby(key)[column].sum()` produces it: one entry per distinct
 key present in the table, entries in ascending key order, each entry holding
 the sum of the column over the rows with that key.

 Rows and keys are generic; the key and value columns are passed as function
 values, the key order as a strict total order `lt`.
 */
module Grouping {

  /** One entry of a grouped column: a key and the sum over its rows. */
  datatype Group<K> = Group(key: K, total: int)

  function GroupTotal<K>(g: Group<K>): int
  {
    g.total
  }

  ghost predicate StrictTotalOrder<K(!new)>(lt: (K, K) -> bool)
  {
    && (forall a :: !lt(a, a))
    && (forall a, b, c :: lt(a, b) && lt(b, c) ==> lt(a, c))
    && (forall a, b :: a != b ==> lt(a, b) || lt(b, a))
  }

  ghost predicate Ascending<K>(ks: seq<K>, lt: (K, K) -> bool)
  {
    forall i, j :: 0 <= i < j < |ks| ==> lt(ks[i], ks[j])
  }

  ghost predicate Distinct<K>(ks: seq<K>)
  {
    forall i, j :: 0 <= i < j < |ks| ==> ks[i] != ks[j]
  }

  /** The key `k` occurs in the key column of `rows`. */
  ghost predicate Present<R, K>(rows: seq<R>, key: R -> K, k: K)
  {
    exists i :: 0 <= i < |rows| && key(rows[i]) == k
  }

  /** Sum of a column. */
  function Sum<T>(xs: seq<T>, f: T -> int): int
  {
    if |xs| == 0 then 0 else f(xs[0]) + Sum(xs[1..], f)
  }

  /** Sum of the column `val` over the rows whose key is `k`; 0 for a key no row holds. */
  function SumBy<R, K(==, !new)>(rows: seq<R>, key: R -> K, k: K, val: R -> int): (s: int)
    ensures !Present(rows, key, k) ==> s == 0
  {
    if |rows| == 0 then 0
    else
      assert !Present(rows, key, k) ==> !Present(rows[1..], key, k) by {
        if Present(rows[1..], key, k) {
          var i :| 0 <= i < |rows[1..]| && key(rows[1..][i]) == k;
          assert key(rows[i + 1]) == k;
        }
      }
      (if key(rows[0]) == k then val(rows[0]) else 0) + SumBy(rows[1..], key, k, val)
  }

  /** Puts `k` at its place in an ascending key list, unless it is there already. */
  function Insert<K(==, !new)>(ks: seq<K>, k: K, lt: (K, K) -> bool): (r: seq<K>)
    ensures forall x :: x in r <==> x == k || x in ks
  {
    if |ks| == 0 then [k]
    else if ks[0] == k then ks
    else if lt(k, ks[0]) then [k] + ks
    else [ks[0]] + Insert(ks[1..], k, lt)
  }

  /** The distinct keys of `rows`, in ascending order. */
  function Keys<R, K(==, !new)>(rows: seq<R>, key: R -> K, lt: (K, K) -> bool): (ks: seq<K>)
    ensures forall k :: k in ks <==> Present(rows, key, k)
  {
    if |rows| == 0 then []
    else
      var ks := Insert(Keys(rows[1..], key, lt), key(rows[0]), lt);
      assert forall k :: Present(rows, key, k) <==> k == key(rows[0]) || Present(rows[1..], key, k) by {
        forall k
          ensures Present(rows, key, k) <==> k == key(rows[0]) || Present(rows[1..], key, k)
        {
          if Present(rows, key, k) && k != key(rows[0]) {
            var i :| 0 <= i < |rows| && key(rows[i]) == k;
            assert key(rows[1..][i - 1]) == k;
          }
          if Present(rows[1..], key, k) {
            var i :| 0 <= i < |rows[1..]| && key(rows[1..][i]) == k;
            assert key(rows[i + 1]) == k;
          }
        }
      }
      ks
  }

  /** One entry per key of `ks`, in the order of `ks`. */
  function Tally<R, K(==, !new)>(ks: seq<K>, rows: seq<R>, key: R -> K, val: R -> int): (gs: seq<Group<K>>)
    ensures |gs| == |ks|
    ensures forall j :: 0 <= j < |gs| ==> gs[j].key == ks[j] && gs[j].total == SumBy(rows, key, ks[j], val)
  {
    if |ks| == 0 then []
    else [Group(ks[0], SumBy(rows, key, ks[0], val))] + Tally(ks[1..], rows, key, val)
  }


  /** The entries of `gs` whose key lies in `keep`, in their order. */
  function Select<K(!new)>(gs: seq<Group<K>>, keep: set<K>): (r: seq<Group<K>>)
    ensures forall g :: g in r <==> g in gs && g.key in keep
  {
    if |gs| == 0 then []
    else (if gs[0].key in keep then [gs[0]] else []) + Select(gs[1..], keep)
  }

  /** The keys of `ks` that lie in `keep`, in their order. */
  function Where<K(!new)>(ks: seq<K>, keep: set<K>): (r: seq<K>)
    ensures forall k :: k in r <==> k in ks && k in keep
  {
    if |ks| == 0 then []
    else (if ks[0] in keep then [ks[0]] else []) + Where(ks[1..], keep)
  }

  // ---------------------------------------------------------------------------
  // Ordering of the keys

  lemma {:induction false} InsertAscending<K(!new)>(ks: seq<K>, k: K, lt: (K, K) -> bool)
    requires StrictTotalOrder(lt) && Ascending(ks, lt)
    ensures Ascending(Insert(ks, k, lt), lt)
  {
    if |ks| == 0 || ks[0] == k {
    } else if lt(k, ks[0]) {
      var r := [k] + ks;
      forall i, j | 0 <= i < j < |r| ensures lt(r[i], r[j]) {
        if i == 0 && j > 1 {
          assert lt(ks[0], ks[j - 1]);
        }
      }
    } else {
      assert lt(ks[0], k);
      var rest := Insert(ks[1..], k, lt);
      InsertAscending(ks[1..], k, lt);
      var r := [ks[0]] + rest;
      forall i, j | 0 <= i < j < |r| ensures lt(r[i], r[j]) {
        if i == 0 {
          assert r[j] in rest;
          if r[j] != k {
            var m :| 0 <= m < |ks[1..]| && ks[1..][m] == r[j];
            assert lt(ks[0], ks[m + 1]);
          }
        }
      }
    }
  }

  lemma {:induction false} KeysAscending<R, K(!new)>(rows: seq<R>, key: R -> K, lt: (K, K) -> bool)
    requires StrictTotalOrder(lt)
    ensures Ascending(Keys(rows, key, lt), lt)
    ensures Distinct(Keys(rows, key, lt))
  {
    if |rows| > 0 {
      KeysAscending(rows[1..], key, lt);
      InsertAscending(Keys(rows[1..], key, lt), key(rows[0]), lt);
    }
  }

  // ---------------------------------------------------------------------------
  // Conservation of the column sum

  lemma {:induction false} TallyOfNoRows<R, K(!new)>(ks: seq<K>, key: R -> K, val: R -> int)
    ensures Sum(Tally(ks, [], key, val), GroupTotal) == 0
  {
    if |ks| > 0 {
      TallyOfNoRows(ks[1..], key, val);
    }
  }

  /** Adding one row in front adds its value to the entry of its key, if `ks` has one. */
  lemma {:induction false} TallyCons<R, K(!new)>(ks: seq<K>, r: R, rows: seq<R>, key: R -> K, val: R -> int)
    requires Distinct(ks)
    ensures Sum(Tally(ks, [r] + rows, key, val), GroupTotal)
         == Sum(Tally(ks, rows, key, val), GroupTotal) + (if key(r) in ks then val(r) else 0)
  {
    if |ks| > 0 {
      assert ([r] + rows)[1..] == rows;
      assert key(r) in ks <==> key(r) == ks[0] || key(r) in ks[1..];
      TallyCons(ks[1..], r, rows, key, val);
    }
  }

  /**
   Summing a column over a coarser key `coarse` equals summing the entries of
   the finer grouping whose keys make up the coarse class `s`.
   */
  lemma {:induction false} SumByCoarsen<R, K(!new), L(!new)>(
    rows: seq<R>, key: R -> K, ms: seq<K>, coarse: R -> L, s: L, val: R -> int)
    requires Distinct(ms)
    requires forall i :: 0 <= i < |rows| ==> (coarse(rows[i]) == s <==> key(rows[i]) in ms)
    ensures SumBy(rows, coarse, s, val) == Sum(Tally(ms, rows, key, val), GroupTotal)
  {
    if |rows| == 0 {
      TallyOfNoRows(ms, key, val);
    } else {
      assert rows == [rows[0]] + rows[1..];
      TallyCons(ms, rows[0], rows[1..], key, val);
      SumByCoarsen(rows[1..], key, ms, coarse, s, val);
    }
  }

  /** Grouping on keys that cover every row loses no part of the column sum. */
  lemma {:induction false} TallyConserves<R, K(!new)>(ks: seq<K>, rows: seq<R>, key: R -> K, val: R -> int)
    requires Distinct(ks)
    requires forall i :: 0 <= i < |rows| ==> key(rows[i]) in ks
    ensures Sum(Tally(ks, rows, key, val), GroupTotal) == Sum(rows, val)
  {
    if |rows| == 0 {
      TallyOfNoRows(ks, key, val);
    } else {
      assert rows == [rows[0]] + rows[1..];
      TallyCons(ks, rows[0], rows[1..], key, val);
      TallyConserves(ks, rows[1..], key, val);
    }
  }

  /**
   A table with one entry per grouping key, in the order of the keys, has an
   entry exactly for each key present, in strictly ascending key order.
   */
  lemma KeyedEntries<R, K(!new), T>(rows: seq<R>, key: R -> K, lt: (K, K) -> bool, xs: seq<T>, keyOf: T -> K)
    requires StrictTotalOrder(lt)
    requires |xs| == |Keys(rows, key, lt)|
    requires forall j :: 0 <= j < |xs| ==> keyOf(xs[j]) == Keys(rows, key, lt)[j]
    ensures forall k :: (exists j :: 0 <= j < |xs| && keyOf(xs[j]) == k) <==> Present(rows, key, k)
    ensures forall i, j :: 0 <= i < j < |xs| ==> lt(keyOf(xs[i]), keyOf(xs[j]))
  {
    var ks := Keys(rows, key, lt);
    KeysAscending(rows, key, lt);
    forall k ensures (exists j :: 0 <= j < |xs| && keyOf(xs[j]) == k) <==> Present(rows, key, k) {
      if Present(rows, key, k) {
        var j :| 0 <= j < |ks| && ks[j] == k;
        assert keyOf(xs[j]) == k;
      }
    }
  }

  /**
   Any table of one value per grouping key, each the column's sum over that
   key's rows, adds up to the sum of the whole column.
   */
  lemma KeyedSumConserves<R, K(!new), T>(rows: seq<R>, key: R -> K, lt: (K, K) -> bool, val: R -> int, xs: seq<T>, f: T -> int)
    requires StrictTotalOrder(lt)
    requires |xs| == |Keys(rows, key, lt)|
    requires forall j :: 0 <= j < |xs| ==> f(xs[j]) == SumBy(rows, key, Keys(rows, key, lt)[j], val)
    ensures Sum(xs, f) == Sum(rows, val)
  {
    var ks := Keys(rows, key, lt);
    KeysAscending(rows, key, lt);
    forall i | 0 <= i < |rows| ensures key(rows[i]) in ks {
      assert Present(rows, key, key(rows[i]));
    }
    SumPointwise(xs, f, Tally(ks, rows, key, val), GroupTotal);
    TallyConserves(ks, rows, key, val);
  }

  /**
   `groupby(key)[val].sum()`: an entry exactly for each key present in the
   table, each total the column's sum over the rows of its key; under a
   strict total order the keys are strictly ascending and the totals add up
   to the sum of the whole column.
   */
  function GroupBySum<R, K(==, !new)>(rows: seq<R>, key: R -> K, val: R -> int, lt: (K, K) -> bool): (gs: seq<Group<K>>)
    ensures forall k :: (exists j :: 0 <= j < |gs| && gs[j].key == k) <==> Present(rows, key, k)
    ensures forall j :: 0 <= j < |gs| ==> gs[j].total == SumBy(rows, key, gs[j].key, val)
    ensures StrictTotalOrder(lt) ==> forall i, j :: 0 <= i < j < |gs| ==> lt(gs[i].key, gs[j].key)
    ensures StrictTotalOrder(lt) ==> Sum(gs, GroupTotal) == Sum(rows, val)
  {
    var ks := Keys(rows, key, lt);
    var gs := Tally(ks, rows, key, val);
    assert forall k :: (exists j :: 0 <= j < |gs| && gs[j].key == k) <==> Present(rows, key, k) by {
      forall k ensures (exists j :: 0 <= j < |gs| && gs[j].key == k) <==> Present(rows, key, k) {
        if Present(rows, key, k) {
          var j :| 0 <= j < |ks| && ks[j] == k;
          assert gs[j].key == k;
        }
      }
    }
    assert StrictTotalOrder(lt) ==> Ascending(ks, lt) && Sum(gs, GroupTotal) == Sum(rows, val) by {
      if StrictTotalOrder(lt) {
        KeysAscending(rows, key, lt);
        KeyedSumConserves(rows, key, lt, val, gs, GroupTotal);
      }
    }
    gs
  }

  // ---------------------------------------------------------------------------
  // Selecting entries by key

  lemma {:induction false} SelectTally<R, K(!new)>(ks: seq<K>, rows: seq<R>, key: R -> K, val: R -> int, keep: set<K>)
    ensures Select(Tally(ks, rows, key, val), keep) == Tally(Where(ks, keep), rows, key, val)
  {
    if |ks| > 0 {
      var gs := Tally(ks, rows, key, val);
      assert gs[1..] == Tally(ks[1..], rows, key, val);
      SelectTally(ks[1..], rows, key, val, keep);
    }
  }

  lemma {:induction false} WhereDistinct<K(!new)>(ks: seq<K>, keep: set<K>)
    requires Distinct(ks)
    ensures Distinct(Where(ks, keep))
  {
    if |ks| > 0 {
      WhereDistinct(ks[1..], keep);
      var rest := Where(ks[1..], keep);
      assert ks[0] !in rest;
    }
  }

  // ---------------------------------------------------------------------------
  // Facts about column sums

  lemma {:induction false} SumPointwise<T, U>(xs: seq<T>, f: T -> int, ys: seq<U>, g: U -> int)
    requires |xs| == |ys|
    requires forall i :: 0 <= i < |xs| ==> f(xs[i]) == g(ys[i])
    ensures Sum(xs, f) == Sum(ys, g)
  {
    if |xs| > 0 {
      SumPointwise(xs[1..], f, ys[1..], g);
    }
  }

  lemma {:induction false} SumAdd<T>(xs: seq<T>, f: T -> int, g: T -> int, h: T -> int)
    requires forall x :: h(x) == f(x) + g(x)
    ensures Sum(xs, h) == Sum(xs, f) + Sum(xs, g)
  {
    if |xs| > 0 {
      SumAdd(xs[1..], f, g, h);
    }
  }

  /** A column of ones sums to the number of rows. */
  lemma {:induction false} SumOfOnes<T>(xs: seq<T>, f: T -> int)
    requires forall x :: f(x) == 1
    ensures Sum(xs, f) == |xs|
  {
    if |xs| > 0 {
      SumOfOnes(xs[1..], f);
    }
  }

  /** A column of positive values has a positive sum over every key present. */
  lemma {:induction false} SumByPositive<R, K(!new)>(rows: seq<R>, key: R -> K, k: K, val: R -> int)
    requires forall r :: val(r) > 0
    ensures Present(rows, key, k) <==> SumBy(rows, key, k, val) > 0
  {
    if |rows| > 0 {
      SumByPositive(rows[1..], key, k, val);
      if key(rows[0]) != k && Present(rows, key, k) {
        var i :| 0 <= i < |rows| && key(rows[i]) == k;
        assert key(rows[1..][i - 1]) == k;
      }
      if Present(rows[1..], key, k) {
        var i :| 0 <= i < |rows[1..]| && key(rows[1..][i]) == k;
        assert key(rows[i + 1]) == k;
      }
    }
  }
}
