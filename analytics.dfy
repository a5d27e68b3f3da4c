/** `getAnalyticsData` of src/utils/analytics.js: the first twelve periods
    are grouped two by two into month buckets of income, expenses and
    difference, and every base and one-off record of those periods is added
    to its category's total. */
module Analytics {
  import opened Values
  import Totals

  datatype Trend = Trend(income: real, expenses: real, difference: real)

  /** Bucket `m` stands for the key "Month m". */
  datatype AnalyticsData = AnalyticsData(categoryTotals: map<string, real>, monthlyTrends: map<nat, Trend>)

  const WindowSize: nat := 12

  /** How many periods are looked at: `slice(0, 12)`. */
  function Window(ps: seq<Period>): (n: nat)
    ensures n <= WindowSize && n <= |ps|
    ensures n == WindowSize || n == |ps|
  {
    if |ps| < WindowSize then |ps| else WindowSize
  }

  /** Bucket of the period at `index`. */
  function MonthKey(index: nat): (m: nat)
    ensures m >= 1 && 2 * m - 2 <= index <= 2 * m - 1
  {
    index / 2 + 1
  }

  /** Totals of the period at `j` if it is among the first `n`, else zero. */
  function TrendAt(ps: seq<Period>, j: int, n: nat): Trend
    requires n <= |ps|
  {
    if 0 <= j < n then
      var t := Totals.PeriodTotals(ps[j]);
      Trend(t.totalIncome, t.totalExpenses, t.difference)
    else Trend(0.0, 0.0, 0.0)
  }

  function Plus(a: Trend, b: Trend): Trend {
    Trend(a.income + b.income, a.expenses + b.expenses, a.difference + b.difference)
  }

  /** Bucket `m` over the first `n` periods: periods 2m-2 and 2m-1. */
  function BucketTrend(ps: seq<Period>, m: nat, n: nat): Trend
    requires n <= |ps|
  {
    Plus(TrendAt(ps, 2 * m - 2, n), TrendAt(ps, 2 * m - 1, n))
  }

  /** Each bucket's difference is its income minus its expenses. */
  lemma BucketDifference(ps: seq<Period>, m: nat, n: nat)
    requires n <= |ps|
    ensures BucketTrend(ps, m, n).difference == BucketTrend(ps, m, n).income - BucketTrend(ps, m, n).expenses
  {
  }

  /** Every record of the first `n` periods, base records before one-offs. */
  function AllRecords(ps: seq<Period>, n: nat): (r: seq<Expense>)
    requires n <= |ps|
  {
    if n == 0 then [] else AllRecords(ps, n - 1) + ps[n - 1].expenses + ps[n - 1].oneOffExpenses
  }

  function Share(e: Expense, c: string): real {
    if e.category == c then e.amount else 0.0
  }

  /** The total amount of the records in category `c`. */
  function CategoryIn(es: seq<Expense>, c: string): real {
    if |es| == 0 then 0.0 else CategoryIn(es[..|es| - 1], c) + Share(es[|es| - 1], c)
  }

  /** `categoryTotals[c] || 0` */
  function Get(m: map<string, real>, c: string): real {
    if c in m then m[c] else 0.0
  }

  /** The inner `forEach`: every record adds its amount to its category. */
  method AddCategories(ct: map<string, real>, es: seq<Expense>) returns (r: map<string, real>)
    ensures forall c :: c in r <==> c in ct || exists e :: e in es && e.category == c
    ensures forall c :: Get(r, c) == Get(ct, c) + CategoryIn(es, c)
  {
    r := ct;
    for j := 0 to |es|
      invariant forall c :: c in r <==> c in ct || exists e :: e in es[..j] && e.category == c
      invariant forall c :: Get(r, c) == Get(ct, c) + CategoryIn(es[..j], c)
    {
      var e := es[j];
      assert es[..j + 1][..j] == es[..j];
      assert es[..j + 1] == es[..j] + [e];
      r := r[e.category := Get(r, e.category) + e.amount];
    }
    assert es[..|es|] == es;
  }

  lemma {:induction false} CategoryInAppend(a: seq<Expense>, b: seq<Expense>, c: string)
    ensures CategoryIn(a + b, c) == CategoryIn(a, c) + CategoryIn(b, c)
    decreases |b|
  {
    if |b| == 0 {
      assert a + b == a;
    } else {
      assert (a + b)[..|a + b| - 1] == a + b[..|b| - 1];
      CategoryInAppend(a, b[..|b| - 1], c);
    }
  }

  /** `getAnalyticsData` */
  method GetAnalyticsData(ps: seq<Period>) returns (r: AnalyticsData)
    ensures forall m :: m in r.monthlyTrends <==> 1 <= m <= (Window(ps) + 1) / 2
    ensures forall m :: m in r.monthlyTrends ==> r.monthlyTrends[m] == BucketTrend(ps, m, Window(ps))
    ensures forall c :: c in r.categoryTotals <==> exists e :: e in AllRecords(ps, Window(ps)) && e.category == c
    ensures forall c :: Get(r.categoryTotals, c) == CategoryIn(AllRecords(ps, Window(ps)), c)
  {
    var categoryTotals: map<string, real> := map[];
    var monthlyTrends: map<nat, Trend> := map[];
    var n := Window(ps);
    for index := 0 to n
      invariant Bucketed(ps, monthlyTrends, index)
      invariant Categorized(ps, categoryTotals, index)
    {
      monthlyTrends := AddPeriodTrend(ps, index, monthlyTrends);
      var period := ps[index];
      var records := period.expenses + period.oneOffExpenses;
      var before := categoryTotals;
      categoryTotals := AddCategories(categoryTotals, records);
      CategoryStep(ps, index, before, categoryTotals);
    }
    r := AnalyticsData(categoryTotals, monthlyTrends);
  }

  /** The trend half of one loop step: the period's totals are added to its
      month bucket, which starts at zero when first seen. */
  method AddPeriodTrend(ps: seq<Period>, index: nat, trends: map<nat, Trend>)
    returns (monthlyTrends: map<nat, Trend>)
    requires index < |ps| && Bucketed(ps, trends, index)
    ensures Bucketed(ps, monthlyTrends, index + 1)
  {
    monthlyTrends := trends;
    var monthKey := MonthKey(index);
    var totals := Totals.PeriodTotals(ps[index]);
    if monthKey !in monthlyTrends {
      monthlyTrends := monthlyTrends[monthKey := Trend(0.0, 0.0, 0.0)];
    }
    var t := monthlyTrends[monthKey];
    monthlyTrends := monthlyTrends[monthKey := Trend(t.income + totals.totalIncome,
                                                     t.expenses + totals.totalExpenses,
                                                     t.difference + totals.difference)];
    assert Trend(t.income + totals.totalIncome, t.expenses + totals.totalExpenses,
                 t.difference + totals.difference) == Plus(t, TrendAt(ps, index, index + 1));
    TrendsStep(ps, index, trends, monthlyTrends);
  }

  /** The month buckets after the first `index` periods. */
  ghost predicate Bucketed(ps: seq<Period>, trends: map<nat, Trend>, index: nat)
    requires index <= |ps|
  {
    && (forall m :: m in trends <==> 1 <= m <= (index + 1) / 2)
    && (forall m :: m in trends ==> trends[m] == BucketTrend(ps, m, index))
  }

  lemma TrendsStep(ps: seq<Period>, index: nat, before: map<nat, Trend>, after: map<nat, Trend>)
    requires index < |ps| && Bucketed(ps, before, index)
    requires var k := MonthKey(index);
      var t := if k in before then before[k] else Trend(0.0, 0.0, 0.0);
      after == before[k := Plus(t, TrendAt(ps, index, index + 1))]
    ensures Bucketed(ps, after, index + 1)
  {
    BucketStep(ps, index);
  }

  /** Adding period `index` changes only its own bucket. */
  lemma BucketStep(ps: seq<Period>, index: nat)
    requires index < |ps|
    ensures forall m :: m != MonthKey(index) ==> BucketTrend(ps, m, index + 1) == BucketTrend(ps, m, index)
    ensures index % 2 == 0 ==>
      BucketTrend(ps, MonthKey(index), index + 1) == Plus(Trend(0.0, 0.0, 0.0), TrendAt(ps, index, index + 1))
    ensures index % 2 == 1 ==>
      BucketTrend(ps, MonthKey(index), index + 1) == Plus(BucketTrend(ps, MonthKey(index), index), TrendAt(ps, index, index + 1))
  {
  }

  /** The category totals after the first `index` periods. */
  ghost predicate Categorized(ps: seq<Period>, totals: map<string, real>, index: nat)
    requires index <= |ps|
  {
    && (forall c :: c in totals <==> exists e :: e in AllRecords(ps, index) && e.category == c)
    && (forall c :: Get(totals, c) == CategoryIn(AllRecords(ps, index), c))
  }

  lemma CategoryStep(ps: seq<Period>, index: nat, before: map<string, real>, after: map<string, real>)
    requires index < |ps| && Categorized(ps, before, index)
    requires var records := ps[index].expenses + ps[index].oneOffExpenses;
      && (forall c :: c in after <==> c in before || exists e :: e in records && e.category == c)
      && (forall c :: Get(after, c) == Get(before, c) + CategoryIn(records, c))
    ensures Categorized(ps, after, index + 1)
  {
    var records := ps[index].expenses + ps[index].oneOffExpenses;
    assert AllRecords(ps, index + 1) == AllRecords(ps, index) + records;
    forall c ensures Get(after, c) == CategoryIn(AllRecords(ps, index + 1), c) {
      CategoryInAppend(AllRecords(ps, index), records, c);
    }
  }
}
