/**
 * The sums and groupings the services compute over expense and income
 * lists: plain totals, `groupingBy(key, summingDouble(amount))`, the
 * month buckets of the chart data and the month window of the limit scan.
 */
module Aggregates {
  import opened Domain
  import opened JavaText

  // ---------------------------------------------------------------------
  // Totals

  function ExpenseTotal(es: seq<Expense>): int
  {
    if es == [] then 0 else ExpenseTotal(es[..|es| - 1]) + es[|es| - 1].amount
  }

  function IncomeTotal(xs: seq<Income>): int
  {
    if xs == [] then 0 else IncomeTotal(xs[..|xs| - 1]) + xs[|xs| - 1].amount
  }

  /** The total of a list is the sum of the totals of any two parts it is cut into. */
  lemma {:induction false} ExpenseTotalAppend(a: seq<Expense>, b: seq<Expense>)
    ensures ExpenseTotal(a + b) == ExpenseTotal(a) + ExpenseTotal(b)
  {
    if b == [] {
      assert a + b == a;
    } else {
      var b0 := b[..|b| - 1];
      assert (a + b)[..|a + b| - 1] == a + b0;
      ExpenseTotalAppend(a, b0);
    }
  }

  /** The same for incomes. */
  lemma {:induction false} IncomeTotalAppend(a: seq<Income>, b: seq<Income>)
    ensures IncomeTotal(a + b) == IncomeTotal(a) + IncomeTotal(b)
  {
    if b == [] {
      assert a + b == a;
    } else {
      var b0 := b[..|b| - 1];
      assert (a + b)[..|a + b| - 1] == a + b0;
      IncomeTotalAppend(a, b0);
    }
  }

  // ---------------------------------------------------------------------
  // Grouping a list of (key, amount) pairs into a map of sums

  /**
   * Folds the pairs in order into a map: each pair adds its amount to the
   * entry of its key, starting from 0 for a key not yet present.
   */
  function GroupSum<K(==)>(ps: seq<(K, int)>): map<K, int>
  {
    if ps == [] then map[]
    else
      var m := GroupSum(ps[..|ps| - 1]);
      var p := ps[|ps| - 1];
      m[p.0 := (if p.0 in m then m[p.0] else 0) + p.1]
  }

  /** The sum of the amounts paired with `k`. */
  function KeySum<K(==)>(ps: seq<(K, int)>, k: K): int
  {
    if ps == [] then 0
    else (if ps[0].0 == k then ps[0].1 else 0) + KeySum(ps[1..], k)
  }

  function PairTotal<K(==)>(ps: seq<(K, int)>): int
  {
    if ps == [] then 0 else ps[0].1 + PairTotal(ps[1..])
  }

  lemma {:induction false} KeySumSnoc<K>(ps: seq<(K, int)>, p: (K, int), k: K)
    ensures KeySum(ps + [p], k) == KeySum(ps, k) + (if p.0 == k then p.1 else 0)
  {
    if ps != [] {
      assert (ps + [p])[1..] == ps[1..] + [p];
      KeySumSnoc(ps[1..], p, k);
    }
  }

  lemma {:induction false} PairTotalSnoc<K>(ps: seq<(K, int)>, p: (K, int))
    ensures PairTotal(ps + [p]) == PairTotal(ps) + p.1
  {
    if ps != [] {
      assert (ps + [p])[1..] == ps[1..] + [p];
      PairTotalSnoc(ps[1..], p);
    }
  }

  /** The grouped map has an entry for exactly the keys that occur in the pairs. */
  lemma {:induction false} GroupSumKeys<K>(ps: seq<(K, int)>, k: K)
    ensures k in GroupSum(ps) <==> exists p :: p in ps && p.0 == k
  {
    if ps != [] {
      var init, p := ps[..|ps| - 1], ps[|ps| - 1];
      assert ps == init + [p];
      GroupSumKeys(init, k);
      assert forall q :: q in ps <==> q in init || q == p;
    }
  }

  /** Every entry of the grouped map is the sum of the amounts paired with its key. */
  lemma {:induction false} GroupSumValue<K>(ps: seq<(K, int)>, k: K)
    ensures k in GroupSum(ps) ==> GroupSum(ps)[k] == KeySum(ps, k)
    ensures k !in GroupSum(ps) ==> KeySum(ps, k) == 0
  {
    if ps != [] {
      var init, p := ps[..|ps| - 1], ps[|ps| - 1];
      assert ps == init + [p];
      GroupSumValue(init, k);
      KeySumSnoc(init, p, k);
    }
  }

  predicate Distinct<K(==)>(ks: seq<K>)
  {
    forall i, j :: 0 <= i < j < |ks| ==> ks[i] != ks[j]
  }

  function SumKeySums<K(==)>(ps: seq<(K, int)>, ks: seq<K>): int
  {
    if ks == [] then 0 else KeySum(ps, ks[0]) + SumKeySums(ps, ks[1..])
  }

  function Indicator<K(==)>(ks: seq<K>, k0: K, a: int): int
  {
    if ks == [] then 0 else (if ks[0] == k0 then a else 0) + Indicator(ks[1..], k0, a)
  }

  lemma {:induction false} IndicatorOnce<K>(ks: seq<K>, k0: K, a: int)
    requires Distinct(ks)
    ensures Indicator(ks, k0, a) == if k0 in ks then a else 0
  {
    if ks != [] {
      IndicatorOnce(ks[1..], k0, a);
      if ks[0] == k0 {
        assert k0 !in ks[1..] by {
          forall j | 0 <= j < |ks[1..]| ensures ks[1..][j] != k0 {
            assert ks[0] != ks[j + 1];
          }
        }
      }
    }
  }

  lemma {:induction false} SumKeySumsSnoc<K>(ps: seq<(K, int)>, p: (K, int), ks: seq<K>)
    ensures SumKeySums(ps + [p], ks) == SumKeySums(ps, ks) + Indicator(ks, p.0, p.1)
  {
    if ks != [] {
      KeySumSnoc(ps, p, ks[0]);
      SumKeySumsSnoc(ps, p, ks[1..]);
    }
  }

  /**
   * Summing the per-key sums over any duplicate-free list of keys that
   * covers every key gives the total of all amounts.
   */
  lemma {:induction false} SumKeySumsIsTotal<K>(ps: seq<(K, int)>, ks: seq<K>)
    requires Distinct(ks)
    requires forall p :: p in ps ==> p.0 in ks
    ensures SumKeySums(ps, ks) == PairTotal(ps)
  {
    if ps == [] {
      assert SumKeySums(ps, ks) == 0 by { SumKeySumsEmpty(ks); }
    } else {
      var init, p := ps[..|ps| - 1], ps[|ps| - 1];
      assert ps == init + [p];
      SumKeySumsIsTotal(init, ks);
      SumKeySumsSnoc(init, p, ks);
      IndicatorOnce(ks, p.0, p.1);
      PairTotalSnoc(init, p);
    }
  }

  lemma {:induction false} SumKeySumsEmpty<K>(ks: seq<K>)
    ensures SumKeySums([], ks) == 0
  {
    if ks != [] {
      SumKeySumsEmpty(ks[1..]);
    }
  }

  /** The sum of the map's entries at the listed keys. */
  function SumAt<K(==)>(m: map<K, int>, ks: seq<K>): int
    requires forall k :: k in ks ==> k in m
  {
    if ks == [] then 0 else m[ks[0]] + SumAt(m, ks[1..])
  }

  /** The entries of a grouped map add up to the total of all amounts. */
  lemma {:induction false} GroupSumTotal<K>(ps: seq<(K, int)>, ks: seq<K>)
    requires Distinct(ks) && (set k | k in ks) == GroupSum(ps).Keys
    ensures SumAt(GroupSum(ps), ks) == PairTotal(ps)
  {
    SumAtIsSumKeySums(ps, ks);
    forall p | p in ps ensures p.0 in ks {
      GroupSumKeys(ps, p.0);
      assert p.0 in GroupSum(ps).Keys;
    }
    SumKeySumsIsTotal(ps, ks);
  }

  lemma {:induction false} SumAtIsSumKeySums<K>(ps: seq<(K, int)>, ks: seq<K>)
    requires forall k :: k in ks ==> k in GroupSum(ps)
    ensures SumAt(GroupSum(ps), ks) == SumKeySums(ps, ks)
  {
    if ks != [] {
      GroupSumValue(ps, ks[0]);
      SumAtIsSumKeySums(ps, ks[1..]);
    }
  }

  // ---------------------------------------------------------------------
  // Category summary: groupingBy(Expense::getCategory, summingDouble(Expense::getAmount))

  function CategoryPairs(es: seq<Expense>): (ps: seq<(string, int)>)
    ensures |ps| == |es|
    ensures forall i :: 0 <= i < |es| ==> ps[i] == (es[i].category, es[i].amount)
  {
    if es == [] then [] else CategoryPairs(es[..|es| - 1]) + [(es[|es| - 1].category, es[|es| - 1].amount)]
  }

  function CategoryTotals(es: seq<Expense>): map<string, int>
  {
    GroupSum(CategoryPairs(es))
  }

  /** The sum of the amounts of the expenses in category `c`. */
  function CategorySum(es: seq<Expense>, c: string): int
  {
    if es == [] then 0
    else CategorySum(es[..|es| - 1], c) + (if es[|es| - 1].category == c then es[|es| - 1].amount else 0)
  }

  lemma {:induction false} CategoryKeySum(es: seq<Expense>, c: string)
    ensures KeySum(CategoryPairs(es), c) == CategorySum(es, c)
  {
    if es != [] {
      var init := es[..|es| - 1];
      CategoryKeySum(init, c);
      KeySumSnoc(CategoryPairs(init), (es[|es| - 1].category, es[|es| - 1].amount), c);
    }
  }

  lemma {:induction false} CategoryPairTotal(es: seq<Expense>)
    ensures PairTotal(CategoryPairs(es)) == ExpenseTotal(es)
  {
    if es != [] {
      var init := es[..|es| - 1];
      CategoryPairTotal(init);
      PairTotalSnoc(CategoryPairs(init), (es[|es| - 1].category, es[|es| - 1].amount));
    }
  }

  /**
   * The category summary has exactly the categories present, each mapped to
   * the sum of its amounts.
   */
  lemma CategoryTotalsSpec(es: seq<Expense>, c: string)
    ensures c in CategoryTotals(es) <==> exists e :: e in es && e.category == c
    ensures c in CategoryTotals(es) ==> CategoryTotals(es)[c] == CategorySum(es, c)
  {
    var ps := CategoryPairs(es);
    GroupSumKeys(ps, c);
    if c in CategoryTotals(es) {
      var p :| p in ps && p.0 == c;
      var i :| 0 <= i < |ps| && ps[i] == p;
      assert es[i] in es;
    }
    if e :| e in es && e.category == c {
      var i :| 0 <= i < |es| && es[i] == e;
      assert ps[i] in ps;
    }
    GroupSumValue(ps, c);
    CategoryKeySum(es, c);
  }

  /** `CategoryTotalsSpec` for every category at once. */
  lemma CategoryTotalsAll(es: seq<Expense>)
    ensures forall c :: c in CategoryTotals(es) <==> exists e :: e in es && e.category == c
    ensures forall c :: c in CategoryTotals(es) ==> CategoryTotals(es)[c] == CategorySum(es, c)
  {
    forall c ensures (c in CategoryTotals(es) <==> exists e :: e in es && e.category == c)
                  && (c in CategoryTotals(es) ==> CategoryTotals(es)[c] == CategorySum(es, c)) {
      CategoryTotalsSpec(es, c);
    }
  }

  /** The category summary's entries add up to the total expense. */
  lemma CategoryTotalsSumToTotal(es: seq<Expense>, cats: seq<string>)
    requires Distinct(cats) && (set c | c in cats) == CategoryTotals(es).Keys
    ensures SumAt(CategoryTotals(es), cats) == ExpenseTotal(es)
  {
    GroupSumTotal(CategoryPairs(es), cats);
    CategoryPairTotal(es);
  }

  // ---------------------------------------------------------------------
  // Monthly chart: dated expenses bucketed by "YYYY-MM"

  /** The (month key, amount) pairs of the dated expenses, in order. */
  function MonthPairs(es: seq<Expense>): seq<(string, int)>
  {
    if es == [] then []
    else
      var e := es[|es| - 1];
      MonthPairs(es[..|es| - 1]) + (if e.date.Some? then [(MonthKey(e.date.value), e.amount)] else [])
  }

  function MonthlyTotals(es: seq<Expense>): map<string, int>
  {
    GroupSum(MonthPairs(es))
  }

  /** One more expense adds its amount to its month's bucket, creating the bucket if needed. */
  lemma MonthlyTotalsStep(es: seq<Expense>, i: nat, m: map<string, int>)
    requires i < |es| && m == MonthlyTotals(es[..i])
    ensures MonthlyTotals(es[..i + 1]) == if es[i].date.Some? then
        m[MonthKey(es[i].date.value) := (if MonthKey(es[i].date.value) in m then m[MonthKey(es[i].date.value)] else 0) + es[i].amount]
      else m
  {
    var pre := es[..i + 1];
    assert pre[..i] == es[..i];
    assert pre[i] == es[i];
    var ps := MonthPairs(pre);
    var head := MonthPairs(es[..i]);
    if es[i].date.Some? {
      var p := (MonthKey(es[i].date.value), es[i].amount);
      assert ps == head + [p];
      assert ps[..|ps| - 1] == head && ps[|ps| - 1] == p;
      assert GroupSum(ps) == m[p.0 := (if p.0 in m then m[p.0] else 0) + p.1];
    } else {
      assert ps == head;
    }
  }

  /** Reference definition: the total of the expenses dated in month `m` of year `y`. */
  function MonthSum(es: seq<Expense>, y: int, m: int): int
  {
    if es == [] then 0
    else
      var e := es[|es| - 1];
      MonthSum(es[..|es| - 1], y, m)
      + (if e.date.Some? && e.date.value.year == y && e.date.value.month == m then e.amount else 0)
  }

  lemma {:induction false} MonthKeySum(es: seq<Expense>, d: Date)
    ensures KeySum(MonthPairs(es), MonthKey(d)) == MonthSum(es, d.year, d.month)
  {
    if es != [] {
      var init, e := es[..|es| - 1], es[|es| - 1];
      MonthKeySum(init, d);
      if e.date.Some? {
        KeySumSnoc(MonthPairs(init), (MonthKey(e.date.value), e.amount), MonthKey(d));
        MonthKeyInjective(e.date.value, d);
      } else {
        assert MonthPairs(es) == MonthPairs(init);
      }
    }
  }

  lemma {:induction false} MonthPairsKeys(es: seq<Expense>, k: string)
    ensures (exists p :: p in MonthPairs(es) && p.0 == k)
        <==> (exists e :: e in es && e.date.Some? && MonthKey(e.date.value) == k)
  {
    if es != [] {
      var init, e := es[..|es| - 1], es[|es| - 1];
      MonthPairsKeys(init, k);
      assert forall x :: x in es <==> x in init || x == e;
      assert forall p :: p in MonthPairs(es) <==>
        p in MonthPairs(init) || (e.date.Some? && p == (MonthKey(e.date.value), e.amount));
    }
  }

  /**
   * The chart has a bucket for a month exactly when some expense is dated in
   * it, the bucket's key is the year, '-', and the two-digit month, and it
   * holds the total of that month's expenses. Undated expenses are skipped.
   */
  lemma MonthlyTotalsSpec(es: seq<Expense>, d: Date)
    ensures MonthKey(d) in MonthlyTotals(es)
        <==> exists e :: e in es && e.date.Some? && e.date.value.year == d.year && e.date.value.month == d.month
    ensures MonthKey(d) in MonthlyTotals(es) ==> MonthlyTotals(es)[MonthKey(d)] == MonthSum(es, d.year, d.month)
  {
    var k := MonthKey(d);
    GroupSumKeys(MonthPairs(es), k);
    MonthPairsKeys(es, k);
    forall e | e in es && e.date.Some? ensures MonthKey(e.date.value) == k <==> (e.date.value.year == d.year && e.date.value.month == d.month) {
      MonthKeyInjective(e.date.value, d);
    }
    GroupSumValue(MonthPairs(es), k);
    MonthKeySum(es, d);
  }

  /** `MonthlyTotalsSpec` for every date at once. */
  lemma MonthlyTotalsAll(es: seq<Expense>)
    ensures forall d: Date :: (MonthKey(d) in MonthlyTotals(es)
              <==> exists e :: e in es && e.date.Some? && e.date.value.year == d.year && e.date.value.month == d.month)
    ensures forall d: Date :: MonthKey(d) in MonthlyTotals(es) ==> MonthlyTotals(es)[MonthKey(d)] == MonthSum(es, d.year, d.month)
    ensures forall k :: k in MonthlyTotals(es) ==> ParseMonthKey(k).Some?
  {
    forall d: Date ensures (MonthKey(d) in MonthlyTotals(es)
        <==> exists e :: e in es && e.date.Some? && e.date.value.year == d.year && e.date.value.month == d.month)
      && (MonthKey(d) in MonthlyTotals(es) ==> MonthlyTotals(es)[MonthKey(d)] == MonthSum(es, d.year, d.month)) {
      MonthlyTotalsSpec(es, d);
    }
    forall k | k in MonthlyTotals(es) ensures ParseMonthKey(k).Some? {
      MonthlyTotalsKeysParse(es, k);
    }
  }

  /** Every key of the chart is a well-formed month key. */
  lemma MonthlyTotalsKeysParse(es: seq<Expense>, k: string)
    requires k in MonthlyTotals(es)
    ensures ParseMonthKey(k).Some?
  {
    GroupSumKeys(MonthPairs(es), k);
    MonthPairsKeys(es, k);
    var e :| e in es && e.date.Some? && MonthKey(e.date.value) == k;
    MonthKeyRoundTrip(e.date.value);
  }

  // ---------------------------------------------------------------------
  // findByUserAndDateBetween(user, first, last): the inclusive month window

  predicate InWindow(e: Expense, first: Date, last: Date)
  {
    e.date.Some? && OnOrBefore(first, e.date.value) && OnOrBefore(e.date.value, last)
  }

  /** `findByUserAndDateBetween(user, first, last)`: the owner's expenses dated in the window, in table order. */
  function ExpensesInWindow(es: seq<Expense>, owner: nat, first: Date, last: Date): (r: seq<Expense>)
    ensures forall e :: e in r <==> e in es && e.ownerId == owner && InWindow(e, first, last)
  {
    if es == [] then []
    else
      var e := es[|es| - 1];
      ExpensesInWindow(es[..|es| - 1], owner, first, last) + (if e.ownerId == owner && InWindow(e, first, last) then [e] else [])
  }

  /** The total of `owner`'s expenses dated within `first..last`, both inclusive. */
  function WindowSpend(es: seq<Expense>, owner: nat, first: Date, last: Date): (t: int)
    ensures t == ExpenseTotal(ExpensesInWindow(es, owner, first, last))
  {
    if es == [] then 0
    else
      var e := es[|es| - 1];
      var w := ExpensesInWindow(es[..|es| - 1], owner, first, last);
      assert (w + [e])[..|w|] == w && w + [] == w;
      assert ExpenseTotal(w + [e]) == ExpenseTotal(w) + e.amount;
      WindowSpend(es[..|es| - 1], owner, first, last)
      + (if e.ownerId == owner && InWindow(e, first, last) then e.amount else 0)
  }
}
