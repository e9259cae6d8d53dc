/** The query vocabulary the views are built from, stated over the table's rows
    as a sequence: WHERE (Filter), SUM (Sum), GROUP BY with SUM (GroupSums),
    MAX (MaxAmount), ORDER BY (SortBy) and the first row of a descending order
    (FirstLargest). */
module Queries {
  import opened Dates
  import opened Records

  // ---------------------------------------------------------------- WHERE

  /** The elements of s that satisfy p, in the order of s. */
  function Filter<T>(s: seq<T>, p: T -> bool): seq<T> {
    if s == [] then [] else (if p(s[0]) then [s[0]] else []) + Filter(s[1..], p)
  }

  /** A WHERE clause keeps exactly the elements that satisfy it, each as often as before. */
  lemma {:induction false} FilterSpec<T>(s: seq<T>, p: T -> bool)
    ensures forall x :: multiset(Filter(s, p))[x] == if p(x) then multiset(s)[x] else 0
    ensures forall x :: x in Filter(s, p) <==> x in s && p(x)
  {
    if s != [] {
      FilterSpec(s[1..], p);
      assert s == [s[0]] + s[1..];
      assert multiset(s) == multiset{s[0]} + multiset(s[1..]);
      var head := if p(s[0]) then [s[0]] else [];
      assert multiset(Filter(s, p)) == multiset(head) + multiset(Filter(s[1..], p));
      forall x ensures x in Filter(s, p) <==> x in s && p(x) {
        assert x in Filter(s, p) <==> x in multiset(Filter(s, p));
        assert x in s <==> x in multiset(s);
      }
    }
  }

  lemma SumFilterStep(rows: seq<Transaction>, p: Transaction -> bool)
    requires rows != []
    ensures Sum(Filter(rows, p)) == (if p(rows[0]) then rows[0].amount else 0) + Sum(Filter(rows[1..], p))
  {
    SumConcat(if p(rows[0]) then [rows[0]] else [], Filter(rows[1..], p));
  }

  /** One step of a WHERE over a WHERE: the first row counts when it passes both. */
  lemma SumNestedStep(rows: seq<Transaction>, a: Transaction -> bool, b: Transaction -> bool)
    requires rows != []
    ensures Sum(Filter(Filter(rows, a), b)) ==
              (if a(rows[0]) && b(rows[0]) then rows[0].amount else 0) + Sum(Filter(Filter(rows[1..], a), b))
    ensures |Filter(Filter(rows, a), b)| ==
              (if a(rows[0]) && b(rows[0]) then 1 else 0) + |Filter(Filter(rows[1..], a), b)|
  {
    var rest := Filter(rows[1..], a);
    if a(rows[0]) {
      var f := [rows[0]] + rest;
      assert Filter(rows, a) == f;
      assert f[0] == rows[0] && f[1..] == rest;
      SumFilterStep(f, b);
    } else {
      assert Filter(rows, a) == rest;
    }
  }

  /** Taking one record r out of the table takes it out of every WHERE it passes and leaves
      every other WHERE as it was: the sum drops by r's amount and the count by one exactly
      when r passes. */
  lemma FilterRemove(before: seq<Transaction>, after: seq<Transaction>, r: Transaction, p: Transaction -> bool)
    requires multiset(before) == multiset(after) + multiset{r}
    ensures multiset(Filter(before, p)) == multiset(Filter(after, p)) + (if p(r) then multiset{r} else multiset{})
    ensures Sum(Filter(before, p)) == Sum(Filter(after, p)) + (if p(r) then r.amount else 0)
    ensures |Filter(before, p)| == |Filter(after, p)| + (if p(r) then 1 else 0)
  {
    var head := if p(r) then [r] else [];
    var kept := Filter(after, p) + head;
    FilterRemoveMultiset(before, after, r, p);
    assert multiset(kept) == multiset(Filter(after, p)) + multiset(head);
    SumPermutation(Filter(before, p), kept);
    SumConcat(Filter(after, p), head);
    assert |multiset(Filter(before, p))| == |multiset(kept)|;
  }

  lemma FilterRemoveMultiset(before: seq<Transaction>, after: seq<Transaction>, r: Transaction, p: Transaction -> bool)
    requires multiset(before) == multiset(after) + multiset{r}
    ensures multiset(Filter(before, p)) == multiset(Filter(after, p)) + (if p(r) then multiset{r} else multiset{})
  {
    var m := multiset(Filter(after, p)) + (if p(r) then multiset{r} else multiset{});
    forall x
      ensures multiset(Filter(before, p))[x] == m[x]
    {
      FilterCount(before, p, x);
      FilterCount(after, p, x);
      assert multiset(before)[x] == multiset(after)[x] + multiset{r}[x];
    }
    assert multiset(Filter(before, p)) == m;
  }

  lemma FilterCount<T>(s: seq<T>, p: T -> bool, x: T)
    ensures multiset(Filter(s, p))[x] == if p(x) then multiset(s)[x] else 0
  {
    FilterSpec(s, p);
  }

  /** Filtering a permutation of the table gives a permutation of the filtered rows, with
      the same sum. */
  lemma FilterSame(before: seq<Transaction>, after: seq<Transaction>, p: Transaction -> bool)
    requires multiset(before) == multiset(after)
    ensures multiset(Filter(before, p)) == multiset(Filter(after, p))
    ensures Sum(Filter(before, p)) == Sum(Filter(after, p))
    ensures |Filter(before, p)| == |Filter(after, p)|
  {
    forall x
      ensures multiset(Filter(before, p))[x] == multiset(Filter(after, p))[x]
    {
      FilterCount(before, p, x);
      FilterCount(after, p, x);
    }
    assert multiset(Filter(before, p)) == multiset(Filter(after, p));
    SumPermutation(Filter(before, p), Filter(after, p));
    assert |multiset(Filter(before, p))| == |multiset(Filter(after, p))|;
  }

  /** WHERE type == kind */
  function OfType(rows: seq<Transaction>, kind: string): seq<Transaction> {
    Filter(rows, (t: Transaction) => t.kind == kind)
  }

  /** The date range of `date BETWEEN from AND to`. The upper bound is always included; the
      lower bound is included when fromIncluded holds. (The report's queries compare the
      stored 'YYYY-MM-DD' text with bounds rendered as midnight timestamps, which leaves a
      record dated exactly from outside; see Report.SourceWindow.) */
  datatype Window = Window(from: Date, to: Date, fromIncluded: bool)

  /** Whether date d lies in the window w. */
  predicate InWindow(d: Date, w: Window) {
    (if w.fromIncluded then AtOrBefore(w.from, d) else Before(w.from, d)) && AtOrBefore(d, w.to)
  }

  /** WHERE date BETWEEN from AND to */
  function Between(rows: seq<Transaction>, w: Window): seq<Transaction> {
    Filter(rows, (t: Transaction) => InWindow(t.date, w))
  }

  /** WHERE date == d */
  function OnDate(rows: seq<Transaction>, d: Date): seq<Transaction> {
    Filter(rows, (t: Transaction) => t.date == d)
  }

  lemma OfTypeSpec(rows: seq<Transaction>, kind: string)
    ensures forall t :: multiset(OfType(rows, kind))[t] == if t.kind == kind then multiset(rows)[t] else 0
    ensures forall t :: t in OfType(rows, kind) <==> t in rows && t.kind == kind
  {
    FilterSpec(rows, (t: Transaction) => t.kind == kind);
  }

  lemma BetweenSpec(rows: seq<Transaction>, w: Window)
    ensures forall t :: multiset(Between(rows, w))[t] == if InWindow(t.date, w) then multiset(rows)[t] else 0
    ensures forall t :: t in Between(rows, w) <==> t in rows && InWindow(t.date, w)
  {
    FilterSpec(rows, (t: Transaction) => InWindow(t.date, w));
  }

  lemma SumOfTypeStep(rows: seq<Transaction>, kind: string)
    requires rows != []
    ensures Sum(OfType(rows, kind)) == (if rows[0].kind == kind then rows[0].amount else 0) + Sum(OfType(rows[1..], kind))
  {
    SumFilterStep(rows, (t: Transaction) => t.kind == kind);
  }

  lemma SumOnDateStep(rows: seq<Transaction>, d: Date)
    requires rows != []
    ensures Sum(OnDate(rows, d)) == (if rows[0].date == d then rows[0].amount else 0) + Sum(OnDate(rows[1..], d))
  {
    SumFilterStep(rows, (t: Transaction) => t.date == d);
  }

  // ---------------------------------------------------------------- SUM

  /** SUM(amount), with the `or 0` of the views: an empty sum is 0. */
  function Sum(rows: seq<Transaction>): int {
    if rows == [] then 0 else rows[0].amount + Sum(rows[1..])
  }

  lemma {:induction false} SumConcat(a: seq<Transaction>, b: seq<Transaction>)
    ensures Sum(a + b) == Sum(a) + Sum(b)
  {
    if a != [] {
      assert (a + b)[0] == a[0];
      assert (a + b)[1..] == a[1..] + b;
      SumConcat(a[1..], b);
    } else {
      assert a + b == b;
    }
  }

  lemma SumRemove(b: seq<Transaction>, i: int)
    requires 0 <= i < |b|
    ensures Sum(b) == b[i].amount + Sum(b[..i] + b[i + 1..])
  {
    var pre, post := b[..i], b[i + 1..];
    assert b == pre + ([b[i]] + post);
    SumConcat(pre, [b[i]] + post);
    assert ([b[i]] + post)[1..] == post;
    SumConcat(pre, post);
  }

  /** A sum does not depend on the order the rows are read in. */
  lemma {:induction false} SumPermutation(a: seq<Transaction>, b: seq<Transaction>)
    requires multiset(a) == multiset(b)
    ensures Sum(a) == Sum(b)
    decreases |a|
  {
    if a == [] {
      assert |b| == |multiset(b)| == 0;
    } else {
      assert a[0] in multiset(b);
      var i :| 0 <= i < |b| && b[i] == a[0];
      var rest := b[..i] + b[i + 1..];
      SumRemove(b, i);
      assert b == b[..i] + [b[i]] + b[i + 1..];
      assert multiset(rest) == multiset(b) - multiset{b[i]};
      assert a == [a[0]] + a[1..];
      assert multiset(a[1..]) == multiset(a) - multiset{a[0]};
      SumPermutation(a[1..], rest);
    }
  }

  /** No row has a negative amount (the forms do not enforce this). */
  predicate NonNegative(rows: seq<Transaction>) {
    forall t :: t in rows ==> t.amount >= 0
  }

  // ---------------------------------------------------------------- MAX

  /** MAX(amount) `or 0`: the largest amount of a row, 0 when there is no row. */
  function MaxAmount(rows: seq<Transaction>): int {
    if rows == [] then 0
    else if |rows| == 1 then rows[0].amount
    else
      var rest := MaxAmount(rows[1..]);
      if rows[0].amount >= rest then rows[0].amount else rest
  }

  /** MAX is 0 without rows, at least every amount, and the amount of some row. */
  lemma {:induction false} MaxAmountSpec(rows: seq<Transaction>)
    ensures rows == [] ==> MaxAmount(rows) == 0
    ensures forall t :: t in rows ==> t.amount <= MaxAmount(rows)
    ensures rows != [] ==> exists t :: t in rows && t.amount == MaxAmount(rows)
  {
    if |rows| == 1 {
      assert rows[0] in rows;
    } else if |rows| > 1 {
      MaxAmountSpec(rows[1..]);
      assert rows == [rows[0]] + rows[1..];
      assert rows[0] in rows;
      var t :| t in rows[1..] && t.amount == MaxAmount(rows[1..]);
      assert t in rows;
    }
  }

  // ---------------------------------------------------------------- GROUP BY

  predicate Distinct<K(==)>(ks: seq<K>) {
    forall i, j :: 0 <= i < j < |ks| ==> ks[i] != ks[j]
  }

  /** SUM(amount) over the rows of the group whose key is k. */
  function KeySum<K(==)>(rows: seq<Transaction>, key: Transaction -> K, k: K): int {
    if rows == [] then 0
    else (if key(rows[0]) == k then rows[0].amount else 0) + KeySum(rows[1..], key, k)
  }

  /** Some row of rows has key k. */
  ghost predicate Occurs<K>(rows: seq<Transaction>, key: Transaction -> K, k: K) {
    exists t :: t in rows && key(t) == k
  }

  /** Some pair of the grouped result g has key k. */
  ghost predicate Listed<K>(g: seq<(K, int)>, k: K) {
    exists i :: 0 <= i < |g| && g[i].0 == k
  }

  /** The keys that occur in rows, each once, in the order of first occurrence. */
  function DistinctKeys<K(==)>(rows: seq<Transaction>, key: Transaction -> K): seq<K> {
    if rows == [] then []
    else
      var ks := DistinctKeys(rows[..|rows| - 1], key);
      var k := key(rows[|rows| - 1]);
      if k in ks then ks else ks + [k]
  }

  /** The keys of DISTINCT key: no repeats, each the key of some row, every row's key listed. */
  lemma {:induction false} DistinctKeysSpec<K>(rows: seq<Transaction>, key: Transaction -> K)
    ensures Distinct(DistinctKeys(rows, key))
    ensures forall i :: 0 <= i < |DistinctKeys(rows, key)| ==> Occurs(rows, key, DistinctKeys(rows, key)[i])
    ensures forall t :: t in rows ==> key(t) in DistinctKeys(rows, key)
  {
    if rows != [] {
      var front := rows[..|rows| - 1];
      var last := rows[|rows| - 1];
      assert rows == front + [last];
      DistinctKeysSpec(front, key);
      var ks := DistinctKeys(front, key);
      var r := DistinctKeys(rows, key);
      forall i | 0 <= i < |r|
        ensures Occurs(rows, key, r[i])
      {
        if i < |ks| {
          assert Occurs(front, key, ks[i]);
          var t :| t in front && key(t) == ks[i];
          assert t in rows;
        } else {
          assert key(last) == r[i];
        }
      }
    }
  }

  /** The (key, sum) pair of each key of ks. */
  function Tally<K(==)>(rows: seq<Transaction>, key: Transaction -> K, ks: seq<K>): (g: seq<(K, int)>)
    ensures |g| == |ks|
    ensures forall i :: 0 <= i < |ks| ==> g[i] == (ks[i], KeySum(rows, key, ks[i]))
  {
    if ks == [] then [] else [(ks[0], KeySum(rows, key, ks[0]))] + Tally(rows, key, ks[1..])
  }

  /** SELECT key, SUM(amount) ... GROUP BY key: one (key, sum) pair per key that occurs. */
  function GroupSums<K(==)>(rows: seq<Transaction>, key: Transaction -> K): seq<(K, int)> {
    Tally(rows, key, DistinctKeys(rows, key))
  }

  /** The sum of the second components of a grouped result. */
  function Total<K>(g: seq<(K, int)>): int {
    if g == [] then 0 else g[0].1 + Total(g[1..])
  }

  lemma {:induction false} TallyStep<K>(t: Transaction, rest: seq<Transaction>, key: Transaction -> K, ks: seq<K>)
    requires Distinct(ks)
    ensures Total(Tally([t] + rest, key, ks)) == Total(Tally(rest, key, ks)) + (if key(t) in ks then t.amount else 0)
  {
    if ks != [] {
      assert ([t] + rest)[1..] == rest;
      assert Distinct(ks[1..]);
      TallyStep(t, rest, key, ks[1..]);
      assert key(t) == ks[0] ==> key(t) !in ks[1..];
      assert key(t) in ks <==> key(t) == ks[0] || key(t) in ks[1..];
    }
  }

  /** Summing the group sums of a distinct key list that covers every row gives the plain sum. */
  lemma {:induction false} TallyTotal<K>(rows: seq<Transaction>, key: Transaction -> K, ks: seq<K>)
    requires Distinct(ks)
    requires forall t :: t in rows ==> key(t) in ks
    ensures Total(Tally(rows, key, ks)) == Sum(rows)
  {
    if rows == [] {
      TallyEmpty(key, ks);
    } else {
      assert rows == [rows[0]] + rows[1..];
      TallyStep(rows[0], rows[1..], key, ks);
      TallyTotal(rows[1..], key, ks);
    }
  }

  lemma {:induction false} TallyEmpty<K>(key: Transaction -> K, ks: seq<K>)
    ensures Total(Tally([], key, ks)) == 0
  {
    if ks != [] {
      TallyEmpty(key, ks[1..]);
    }
  }

  /** g is a grouping of rows by key: each key at most once, exactly the keys that
      occur, each with the sum of its own rows, and the group sums add up to the sum
      of all rows (every row is counted in exactly one group). */
  ghost predicate Grouping<K>(g: seq<(K, int)>, rows: seq<Transaction>, key: Transaction -> K) {
    && (forall i, j :: 0 <= i < j < |g| ==> g[i].0 != g[j].0)
    && (forall i :: 0 <= i < |g| ==> Occurs(rows, key, g[i].0))
    && (forall t :: t in rows ==> Listed(g, key(t)))
    && (forall i :: 0 <= i < |g| ==> g[i].1 == KeySum(rows, key, g[i].0))
    && Total(g) == Sum(rows)
  }

  /** Tallying a distinct list of exactly the occurring keys is a grouping. */
  lemma TallyGrouping<K>(rows: seq<Transaction>, key: Transaction -> K, ks: seq<K>)
    requires Distinct(ks)
    requires forall t :: t in rows ==> key(t) in ks
    requires forall i :: 0 <= i < |ks| ==> Occurs(rows, key, ks[i])
    ensures Grouping(Tally(rows, key, ks), rows, key)
  {
    var g := Tally(rows, key, ks);
    forall t | t in rows
      ensures Listed(g, key(t))
    {
      var i :| 0 <= i < |ks| && ks[i] == key(t);
      assert g[i].0 == key(t);
    }
    TallyTotal(rows, key, ks);
  }

  /** What SELECT key, SUM(amount) ... GROUP BY key promises. */
  lemma GroupSumsSpec<K>(rows: seq<Transaction>, key: Transaction -> K)
    ensures Grouping(GroupSums(rows, key), rows, key)
  {
    DistinctKeysSpec(rows, key);
    TallyGrouping(rows, key, DistinctKeys(rows, key));
  }

  /** A sequence has no repeated element exactly when no element occurs twice in its multiset. */
  lemma {:induction false} DistinctCounts<K>(ks: seq<K>)
    ensures Distinct(ks) <==> forall x :: multiset(ks)[x] <= 1
  {
    if ks != [] {
      DistinctCounts(ks[1..]);
      assert ks == [ks[0]] + ks[1..];
      assert multiset(ks) == multiset{ks[0]} + multiset(ks[1..]);
      if Distinct(ks) {
        assert Distinct(ks[1..]);
        assert ks[0] !in ks[1..];
      } else {
        var i, j :| 0 <= i < j < |ks| && ks[i] == ks[j];
        if i == 0 {
          assert ks[j] in ks[1..];
          assert multiset(ks)[ks[0]] >= 2;
        } else {
          assert !Distinct(ks[1..]) by {
            assert ks[1..][i - 1] == ks[1..][j - 1];
          }
          var x :| multiset(ks[1..])[x] > 1;
          assert multiset(ks)[x] > 1;
        }
      }
    }
  }

  /** GROUP BY key ORDER BY key: the group sums with their keys in ascending rank. */
  function OrderedGroupSums<K(==)>(rows: seq<Transaction>, key: Transaction -> K, rank: K -> int): seq<(K, int)> {
    Tally(rows, key, SortBy(DistinctKeys(rows, key), rank))
  }

  /** Sorting a distinct list keeps it distinct and keeps its elements. */
  lemma SortedDistinct<K>(ks: seq<K>, rank: K -> int)
    requires Distinct(ks)
    ensures Distinct(SortBy(ks, rank))
    ensures forall x :: x in SortBy(ks, rank) <==> x in ks
  {
    var sorted := SortBy(ks, rank);
    DistinctCounts(ks);
    DistinctCounts(sorted);
    forall x
      ensures x in sorted <==> x in ks
    {
      assert x in sorted <==> x in multiset(sorted);
    }
  }

  /** The keys of a grouped result ascend by rank. */
  ghost predicate KeysAscend<K>(g: seq<(K, int)>, rank: K -> int) {
    forall i, j :: 0 <= i < j < |g| ==> rank(g[i].0) <= rank(g[j].0)
  }

  /** GROUP BY key ORDER BY key is a grouping whose keys ascend by rank. */
  lemma OrderedGroupSumsSpec<K>(rows: seq<Transaction>, key: Transaction -> K, rank: K -> int)
    ensures Grouping(OrderedGroupSums(rows, key, rank), rows, key)
    ensures KeysAscend(OrderedGroupSums(rows, key, rank), rank)
  {
    var ks := DistinctKeys(rows, key);
    var sorted := SortBy(ks, rank);
    DistinctKeysSpec(rows, key);
    SortedDistinct(ks, rank);
    forall i | 0 <= i < |sorted|
      ensures Occurs(rows, key, sorted[i])
    {
      assert sorted[i] in multiset(sorted);
      assert sorted[i] in multiset(ks);
      var j :| 0 <= j < |ks| && ks[j] == sorted[i];
    }
    TallyGrouping(rows, key, sorted);
  }

  lemma {:induction false} KeySumConcat<K>(a: seq<Transaction>, b: seq<Transaction>, key: Transaction -> K, k: K)
    ensures KeySum(a + b, key, k) == KeySum(a, key, k) + KeySum(b, key, k)
  {
    if a != [] {
      assert (a + b)[0] == a[0];
      assert (a + b)[1..] == a[1..] + b;
      KeySumConcat(a[1..], b, key, k);
    } else {
      assert a + b == b;
    }
  }

  lemma KeySumFilterStep<K>(rows: seq<Transaction>, p: Transaction -> bool, key: Transaction -> K, k: K)
    requires rows != []
    ensures KeySum(Filter(rows, p), key, k)
      == (if p(rows[0]) && key(rows[0]) == k then rows[0].amount else 0) + KeySum(Filter(rows[1..], p), key, k)
  {
    KeySumConcat(if p(rows[0]) then [rows[0]] else [], Filter(rows[1..], p), key, k);
  }

  /** A key with no row has group sum 0. */
  lemma {:induction false} KeySumAbsent<K>(rows: seq<Transaction>, key: Transaction -> K, k: K)
    requires forall t :: t in rows ==> key(t) != k
    ensures KeySum(rows, key, k) == 0
  {
    if rows != [] {
      assert forall t :: t in rows[1..] ==> t in rows;
      KeySumAbsent(rows[1..], key, k);
    }
  }

  /** With no negative amount, a group sum lies between 0 and the sum of all rows. */
  lemma {:induction false} KeySumBounds<K>(rows: seq<Transaction>, key: Transaction -> K, k: K)
    requires NonNegative(rows)
    ensures 0 <= KeySum(rows, key, k) <= Sum(rows)
  {
    if rows != [] {
      assert forall t :: t in rows[1..] ==> t in rows;
      KeySumBounds(rows[1..], key, k);
    }
  }

  /** The pair with the largest sum, the first such pair when several tie
      (ORDER BY SUM(amount) DESC, first row); None for an empty result. */
  function FirstLargest<K(==)>(g: seq<(K, int)>): (r: Option<(K, int)>)
    ensures r.None? <==> g == []
    ensures r.Some? ==> r.value in g && forall i :: 0 <= i < |g| ==> g[i].1 <= r.value.1
  {
    if g == [] then None
    else
      var rest := FirstLargest(g[1..]);
      assert g == [g[0]] + g[1..];
      if rest.None? || g[0].1 >= rest.value.1 then Some(g[0]) else rest
  }

  // ---------------------------------------------------------------- ORDER BY

  /** s is ordered by ascending rank (descending orders use a negated rank). */
  predicate SortedBy<T>(s: seq<T>, rank: T -> int) {
    forall i, j :: 0 <= i < j < |s| ==> rank(s[i]) <= rank(s[j])
  }

  function InsertBy<T>(x: T, s: seq<T>, rank: T -> int): (r: seq<T>)
    ensures |r| == |s| + 1
    ensures multiset(r) == multiset(s) + multiset{x}
  {
    if s == [] || rank(x) <= rank(s[0]) then [x] + s
    else
      assert s == [s[0]] + s[1..];
      [s[0]] + InsertBy(x, s[1..], rank)
  }

  lemma {:induction false} InsertBySorted<T>(x: T, s: seq<T>, rank: T -> int)
    requires SortedBy(s, rank)
    ensures SortedBy(InsertBy(x, s, rank), rank)
    ensures forall k :: 0 <= k < |InsertBy(x, s, rank)| ==> rank(InsertBy(x, s, rank)[k]) == rank(x) || exists j :: 0 <= j < |s| && rank(InsertBy(x, s, rank)[k]) == rank(s[j])
  {
    if s != [] && rank(x) > rank(s[0]) {
      InsertBySorted(x, s[1..], rank);
    }
  }

  /** ORDER BY rank: a permutation of s in ascending rank (insertion sort). */
  function SortBy<T>(s: seq<T>, rank: T -> int): (r: seq<T>)
    ensures |r| == |s|
    ensures multiset(r) == multiset(s)
    ensures SortedBy(r, rank)
  {
    if s == [] then []
    else
      assert s == [s[0]] + s[1..];
      InsertBySorted(s[0], SortBy(s[1..], rank), rank);
      InsertBy(s[0], SortBy(s[1..], rank), rank)
  }
}
