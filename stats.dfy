/** The derived figures of the tracker: the income and expense totals shown in
    the summary, the report of `getStatistics` (totals, averages, counts and
    per-category expense figures) and the per-category expense sums drawn in
    the chart. */
module Statistics {
  import opened Seqs
  import opened Ledger

  predicate IsIncome(t: Transaction)
  {
    t.kind == Income
  }

  predicate IsExpense(t: Transaction)
  {
    t.kind == Expense
  }

  /** `ts.map(t => t.amount)` */
  function Amounts(ts: seq<Transaction>): (r: seq<real>)
    ensures |r| == |ts|
    ensures forall i :: 0 <= i < |ts| ==> r[i] == ts[i].amount
  {
    seq(|ts|, i requires 0 <= i < |ts| => ts[i].amount)
  }

  /** `ts.map(t => Math.abs(t.amount))` */
  function AbsAmounts(ts: seq<Transaction>): (r: seq<real>)
    ensures |r| == |ts|
    ensures forall i :: 0 <= i < |ts| ==> r[i] == Abs(ts[i].amount)
  {
    seq(|ts|, i requires 0 <= i < |ts| => Abs(ts[i].amount))
  }

  /** The income total: the sum of the amounts of the income records. */
  function TotalIncome(ts: seq<Transaction>): real
  {
    Sum(Amounts(Keep(ts, IsIncome)))
  }

  /** The expense total: the magnitude of the sum of the expense amounts. */
  function TotalExpenses(ts: seq<Transaction>): real
  {
    Abs(Sum(Amounts(Keep(ts, IsExpense))))
  }

  /** `count > 0 ? total / count : 0` */
  function Average(total: real, count: nat): real
  {
    if count > 0 then total / count as real else 0.0
  }

  // ---------------------------------------------------------------------------
  // getStatistics

  /** One entry of `categoryStats`; the sequence keeps the insertion order of
      the object's keys. */
  datatype CategoryStat = CategoryStat(category: string, total: real, count: nat, avg: real)

  datatype Stats = Stats(
    totalIncome: real,
    totalExpenses: real,
    balance: real,
    avgIncome: real,
    avgExpense: real,
    transactionCount: nat,
    incomeCount: nat,
    expenseCount: nat,
    categoryStats: seq<CategoryStat>)

  /** The position of category c in stats, or |stats| when it has no entry. */
  function IndexOfCategory(stats: seq<CategoryStat>, c: string): (k: nat)
    ensures k <= |stats|
    ensures k < |stats| ==> stats[k].category == c
    ensures forall j :: 0 <= j < k ==> stats[j].category != c
  {
    if stats == [] then 0
    else if stats[0].category == c then 0
    else 1 + IndexOfCategory(stats[1..], c)
  }

  /** One call of the `forEach` callback: create the category's entry if it is
      missing, then add the magnitude, count one more and recompute the average. */
  function Tally(stats: seq<CategoryStat>, e: Transaction): seq<CategoryStat>
  {
    var k := IndexOfCategory(stats, e.category);
    var entry := if k < |stats| then stats[k] else CategoryStat(e.category, 0.0, 0, 0.0);
    var total := entry.total + Abs(e.amount);
    var count := entry.count + 1;
    var updated := CategoryStat(e.category, total, count, total / count as real);
    if k < |stats| then stats[k := updated] else stats + [updated]
  }

  /** `categoryStats` after the `forEach` over `expenses`. */
  function CategoryStatsOf(expenses: seq<Transaction>): seq<CategoryStat>
  {
    if expenses == [] then []
    else Tally(CategoryStatsOf(expenses[..|expenses| - 1]), expenses[|expenses| - 1])
  }

  /** The report `getStatistics` returns; `None` is its `null`. */
  function StatisticsOf(ts: seq<Transaction>): Option<Stats>
  {
    if ts == [] then None
    else
      var income := Keep(ts, IsIncome);
      var expenses := Keep(ts, IsExpense);
      var totalIncome := TotalIncome(ts);
      var totalExpenses := TotalExpenses(ts);
      Some(Stats(totalIncome, totalExpenses, totalIncome - totalExpenses,
                 Average(totalIncome, |income|), Average(totalExpenses, |expenses|),
                 |ts|, |income|, |expenses|, CategoryStatsOf(expenses)))
  }

  // ---------------------------------------------------------------------------
  // Reference definitions for the per-category figures

  /** How many records of xs have category c. */
  function CountIn(xs: seq<Transaction>, c: string): nat
  {
    if xs == [] then 0
    else CountIn(xs[..|xs| - 1], c) + (if xs[|xs| - 1].category == c then 1 else 0)
  }

  /** The sum of the magnitudes of the records of xs with category c. */
  function AbsTotalIn(xs: seq<Transaction>, c: string): real
  {
    if xs == [] then 0.0
    else AbsTotalIn(xs[..|xs| - 1], c) + (if xs[|xs| - 1].category == c then Abs(xs[|xs| - 1].amount) else 0.0)
  }

  predicate DistinctCategories(stats: seq<CategoryStat>)
  {
    forall i, j :: 0 <= i < j < |stats| ==> stats[i].category != stats[j].category
  }

  /** Each entry holds the count and magnitude total of its category, and the
      average of the two. */
  predicate EntriesAgree(stats: seq<CategoryStat>, xs: seq<Transaction>)
  {
    forall k :: 0 <= k < |stats| ==>
      && stats[k].count == CountIn(xs, stats[k].category)
      && stats[k].count >= 1
      && stats[k].total == AbsTotalIn(xs, stats[k].category)
      && stats[k].avg == stats[k].total / stats[k].count as real
  }

  /** Every category of xs has an entry. */
  predicate CoversCategories(stats: seq<CategoryStat>, xs: seq<Transaction>)
  {
    forall i :: 0 <= i < |xs| ==> IndexOfCategory(stats, xs[i].category) < |stats|
  }

  /** `categoryStats` has one entry per category of the records it is built
      from, and each entry holds that category's count, magnitude total and
      their average. */
  lemma {:induction false} CategoryStatsCharacterised(xs: seq<Transaction>)
    ensures DistinctCategories(CategoryStatsOf(xs))
    ensures EntriesAgree(CategoryStatsOf(xs), xs)
    ensures CoversCategories(CategoryStatsOf(xs), xs)
  {
    if xs != [] {
      var init, e := xs[..|xs| - 1], xs[|xs| - 1];
      CategoryStatsCharacterised(init);
      assert xs == init + [e];
      TallyDistinct(CategoryStatsOf(init), e);
      TallyAgrees(CategoryStatsOf(init), init, e);
      TallyCovers(CategoryStatsOf(init), init, e);
    }
  }

  /** One more record keeps the entries' categories distinct. */
  lemma TallyDistinct(s: seq<CategoryStat>, e: Transaction)
    requires DistinctCategories(s)
    ensures DistinctCategories(Tally(s, e))
  {
    var k := IndexOfCategory(s, e.category);
    var r := Tally(s, e);
    assert forall i :: 0 <= i < |s| ==> r[i].category == s[i].category;
  }

  /** One more record: its category's entry gains one and its magnitude, and
      every other entry keeps agreeing with the longer list. */
  lemma TallyAgrees(s: seq<CategoryStat>, init: seq<Transaction>, e: Transaction)
    requires DistinctCategories(s) && EntriesAgree(s, init) && CoversCategories(s, init)
    ensures EntriesAgree(Tally(s, e), init + [e])
  {
    var xs := init + [e];
    assert xs[..|xs| - 1] == init;
    var k := IndexOfCategory(s, e.category);
    if k == |s| {
      CountAbsent(s, init, e.category);
    }
    var r := Tally(s, e);
    forall j | 0 <= j < |r|
      ensures && r[j].count == CountIn(xs, r[j].category)
              && r[j].count >= 1
              && r[j].total == AbsTotalIn(xs, r[j].category)
              && r[j].avg == r[j].total / r[j].count as real
    {
      if j != k {
        assert r[j] == s[j];
        assert s[j].category != e.category;
      }
    }
  }

  /** One more record: every category of the longer list has an entry. */
  lemma TallyCovers(s: seq<CategoryStat>, init: seq<Transaction>, e: Transaction)
    requires CoversCategories(s, init)
    ensures CoversCategories(Tally(s, e), init + [e])
  {
    var xs := init + [e];
    var k := IndexOfCategory(s, e.category);
    var r := Tally(s, e);
    forall i | 0 <= i < |xs| ensures IndexOfCategory(r, xs[i].category) < |r| {
      if i < |xs| - 1 {
        assert init[i] == xs[i];
        var j := IndexOfCategory(s, xs[i].category);
        assert r[j].category == s[j].category;
        IndexBound(r, xs[i].category, j);
      } else {
        var j := if k < |s| then k else |s|;
        assert r[j].category == e.category;
        IndexBound(r, e.category, j);
      }
    }
  }

  lemma IndexBound(stats: seq<CategoryStat>, c: string, j: nat)
    requires j < |stats| && stats[j].category == c
    ensures IndexOfCategory(stats, c) <= j
  {
  }

  /** A category with no entry does not occur among the records. */
  lemma {:induction false} CountAbsent(stats: seq<CategoryStat>, xs: seq<Transaction>, c: string)
    requires CoversCategories(stats, xs)
    requires IndexOfCategory(stats, c) == |stats|
    ensures CountIn(xs, c) == 0 && AbsTotalIn(xs, c) == 0.0
  {
    if xs != [] {
      var init := xs[..|xs| - 1];
      assert forall i :: 0 <= i < |init| ==> init[i] == xs[i];
      CountAbsent(stats, init, c);
      assert IndexOfCategory(stats, xs[|xs| - 1].category) < |stats|;
    }
  }

  // Sums over the entries

  function SumCounts(stats: seq<CategoryStat>): nat
  {
    if stats == [] then 0 else SumCounts(stats[..|stats| - 1]) + stats[|stats| - 1].count
  }

  function SumTotals(stats: seq<CategoryStat>): real
  {
    if stats == [] then 0.0 else SumTotals(stats[..|stats| - 1]) + stats[|stats| - 1].total
  }

  lemma {:induction false} SumsUpdate(stats: seq<CategoryStat>, k: nat, v: CategoryStat)
    requires k < |stats|
    ensures SumCounts(stats[k := v]) == SumCounts(stats) - stats[k].count + v.count
    ensures SumTotals(stats[k := v]) == SumTotals(stats) - stats[k].total + v.total
  {
    var n := |stats|;
    var u := stats[k := v];
    assert u[..n - 1] == if k < n - 1 then stats[..n - 1][k := v] else stats[..n - 1];
    if k < n - 1 {
      SumsUpdate(stats[..n - 1], k, v);
    }
  }

  /** Each expense is counted once: the entry counts add up to the number of
      expenses, and the entry totals to the sum of their magnitudes. */
  lemma {:induction false} CategorySums(xs: seq<Transaction>)
    ensures SumCounts(CategoryStatsOf(xs)) == |xs|
    ensures SumTotals(CategoryStatsOf(xs)) == Sum(AbsAmounts(xs))
  {
    if xs != [] {
      var init, e := xs[..|xs| - 1], xs[|xs| - 1];
      CategorySums(init);
      TallySums(CategoryStatsOf(init), e);
      assert AbsAmounts(xs)[..|xs| - 1] == AbsAmounts(init);
    }
  }

  /** One expense adds one to the counts and its magnitude to the totals. */
  lemma TallySums(s: seq<CategoryStat>, e: Transaction)
    ensures SumCounts(Tally(s, e)) == SumCounts(s) + 1
    ensures SumTotals(Tally(s, e)) == SumTotals(s) + Abs(e.amount)
  {
    var k := IndexOfCategory(s, e.category);
    if k < |s| {
      var entry := s[k];
      var total := entry.total + Abs(e.amount);
      SumsUpdate(s, k, CategoryStat(e.category, total, entry.count + 1, total / (entry.count + 1) as real));
    } else {
      var r := Tally(s, e);
      assert r[..|s|] == s;
    }
  }

  // ---------------------------------------------------------------------------
  // Totals

  lemma {:induction false} IncomeAndExpenseCounts(ts: seq<Transaction>)
    ensures |Keep(ts, IsIncome)| + |Keep(ts, IsExpense)| <= |ts|
  {
    if ts != [] {
      IncomeAndExpenseCounts(ts[..|ts| - 1]);
    }
  }

  /** The amounts of the income and expense records add up to the amounts of
      all records when every record is one or the other. */
  lemma {:induction false} SumSplitsByKind(ts: seq<Transaction>)
    requires forall i :: 0 <= i < |ts| ==> IsIncome(ts[i]) || IsExpense(ts[i])
    ensures Sum(Amounts(ts)) == Sum(Amounts(Keep(ts, IsIncome))) + Sum(Amounts(Keep(ts, IsExpense)))
  {
    if ts != [] {
      var init, t := ts[..|ts| - 1], ts[|ts| - 1];
      SumSplitsByKind(init);
      var inc, exp := Keep(init, IsIncome), Keep(init, IsExpense);
      assert Sum(Amounts(ts)) == Sum(Amounts(init)) + t.amount by {
        assert Amounts(ts)[..|ts| - 1] == Amounts(init);
      }
      if IsIncome(t) {
        assert Keep(ts, IsIncome) == inc + [t];
        assert Keep(ts, IsExpense) == exp;
        AmountsSnoc(inc, t);
      } else {
        assert Keep(ts, IsIncome) == inc;
        assert Keep(ts, IsExpense) == exp + [t];
        AmountsSnoc(exp, t);
      }
    }
  }

  lemma AmountsSnoc(xs: seq<Transaction>, t: Transaction)
    ensures Sum(Amounts(xs + [t])) == Sum(Amounts(xs)) + t.amount
  {
    assert Amounts(xs + [t])[..|xs|] == Amounts(xs);
  }

  predicate ExpensesNonPositive(ts: seq<Transaction>)
  {
    forall i :: 0 <= i < |ts| ==> IsExpense(ts[i]) ==> ts[i].amount <= 0.0
  }

  /** With non-positive amounts, the sum of the amounts is minus the sum of the magnitudes. */
  lemma {:induction false} SumOfNonPositive(ts: seq<Transaction>)
    requires forall i :: 0 <= i < |ts| ==> ts[i].amount <= 0.0
    ensures Sum(Amounts(ts)) == -Sum(AbsAmounts(ts))
  {
    if ts != [] {
      var init := ts[..|ts| - 1];
      SumOfNonPositive(init);
      assert Amounts(ts)[..|ts| - 1] == Amounts(init);
      assert AbsAmounts(ts)[..|ts| - 1] == AbsAmounts(init);
    }
  }

  lemma SumOfMagnitudes(ts: seq<Transaction>)
    ensures Sum(AbsAmounts(ts)) >= 0.0
  {
    if ts != [] {
      SumOfMagnitudes(ts[..|ts| - 1]);
      assert AbsAmounts(ts)[..|ts| - 1] == AbsAmounts(ts[..|ts| - 1]);
    }
  }

  lemma ExpensesOfExpenses(ts: seq<Transaction>)
    requires ExpensesNonPositive(ts)
    ensures forall i :: 0 <= i < |Keep(ts, IsExpense)| ==> Keep(ts, IsExpense)[i].amount <= 0.0
  {
    var es := Keep(ts, IsExpense);
    forall i | 0 <= i < |es| ensures es[i].amount <= 0.0 {
      KeepMembers(ts, IsExpense, es[i]);
      assert es[i] in es;
    }
  }

  lemma AverageTimesCount(total: real, count: nat)
    ensures count == 0 ==> Average(total, count) == 0.0
    ensures count > 0 ==> Average(total, count) * count as real == total
  {
  }

  /** A report's averages: 0 when their count is 0, and otherwise the value
      that times the count gives the total. */
  predicate AveragesAgree(s: Stats)
  {
    && (s.incomeCount == 0 ==> s.avgIncome == 0.0)
    && (s.incomeCount > 0 ==> s.avgIncome * s.incomeCount as real == s.totalIncome)
    && (s.expenseCount == 0 ==> s.avgExpense == 0.0)
    && (s.expenseCount > 0 ==> s.avgExpense * s.expenseCount as real == s.totalExpenses)
  }

  lemma ReportAverages(s: Stats)
    requires s.avgIncome == Average(s.totalIncome, s.incomeCount)
    requires s.avgExpense == Average(s.totalExpenses, s.expenseCount)
    ensures AveragesAgree(s)
  {
    AverageTimesCount(s.totalIncome, s.incomeCount);
    AverageTimesCount(s.totalExpenses, s.expenseCount);
  }

  /** The report is `null` exactly for an empty list; otherwise balance is
      income minus expenses, an average is 0 when its count is 0 and the total
      over the count otherwise, and income and expense records are at most all
      records. */
  lemma StatisticsProperties(ts: seq<Transaction>)
    ensures StatisticsOf(ts).None? <==> ts == []
    ensures StatisticsOf(ts).Some? ==>
      var s := StatisticsOf(ts).value;
      && s.balance == s.totalIncome - s.totalExpenses
      && s.totalExpenses >= 0.0
      && AveragesAgree(s)
      && s.transactionCount == |ts|
      && s.incomeCount + s.expenseCount <= s.transactionCount
  {
    if ts != [] {
      var s := StatisticsOf(ts).value;
      IncomeAndExpenseCounts(ts);
      ReportAverages(s);
    }
  }

  /** The per-category figures of the report cover the expenses only: one
      entry per expense category, each holding its count, magnitude total and
      average; the counts add up to the expense count and the totals to the
      sum of the expense magnitudes, which is the expense total itself when
      no expense is stored with a positive amount. */
  lemma CategoryStatsProperties(ts: seq<Transaction>)
    requires ts != []
    ensures
      var s := StatisticsOf(ts).value;
      && SumCounts(s.categoryStats) == s.expenseCount
      && SumTotals(s.categoryStats) == Sum(AbsAmounts(Keep(ts, IsExpense)))
      && DistinctCategories(s.categoryStats)
      && EntriesAgree(s.categoryStats, Keep(ts, IsExpense))
      && CoversCategories(s.categoryStats, Keep(ts, IsExpense))
      && (ExpensesNonPositive(ts) ==> s.totalExpenses == SumTotals(s.categoryStats))
  {
    var es := Keep(ts, IsExpense);
    CategorySums(es);
    CategoryStatsCharacterised(es);
    if ExpensesNonPositive(ts) {
      ExpensesOfExpenses(ts);
      SumOfNonPositive(es);
      SumOfMagnitudes(es);
    }
  }

  /** Over records that are all income or expense, with expenses stored as
      non-positive amounts (as the form stores them), the balance is the sum
      of all amounts: for an all-income list the income sum, for an
      all-expense list minus the sum of the magnitudes. */
  lemma BalanceIsSumOfAmounts(ts: seq<Transaction>)
    requires ts != []
    requires forall i :: 0 <= i < |ts| ==> IsIncome(ts[i]) || IsExpense(ts[i])
    requires ExpensesNonPositive(ts)
    ensures StatisticsOf(ts).value.balance == Sum(Amounts(ts))
  {
    SumSplitsByKind(ts);
    var es := Keep(ts, IsExpense);
    ExpensesOfExpenses(ts);
    SumOfNonPositive(es);
    SumOfMagnitudes(es);
  }

  // ---------------------------------------------------------------------------
  // updateSummary

  datatype Summary = Summary(totalIncome: real, totalExpense: real, balance: real)

  /** The three figures `updateSummary` writes into the page. */
  function SummaryOf(ts: seq<Transaction>): (r: Summary)
    ensures r.balance == r.totalIncome - r.totalExpense
    ensures r.totalExpense >= 0.0
    ensures ts == [] ==> r == Summary(0.0, 0.0, 0.0)
    ensures ts != [] ==>
      r.totalIncome == StatisticsOf(ts).value.totalIncome && r.totalExpense == StatisticsOf(ts).value.totalExpenses
  {
    Summary(TotalIncome(ts), TotalExpenses(ts), TotalIncome(ts) - TotalExpenses(ts))
  }

  // ---------------------------------------------------------------------------
  // updateChart: per-category expense sums over the filtered list

  /** One key of `categoryData` with its value. */
  datatype Slice = Slice(category: string, total: real)

  function IndexOfSlice(data: seq<Slice>, c: string): (k: nat)
    ensures k <= |data|
  {
    if data == [] then 0
    else if data[0].category == c then 0
    else 1 + IndexOfSlice(data[1..], c)
  }

  /** `categoryData[c] = (categoryData[c] || 0) + Math.abs(expense.amount)` */
  function ChartTally(data: seq<Slice>, e: Transaction): seq<Slice>
  {
    var k := IndexOfSlice(data, e.category);
    var before := if k < |data| then data[k].total else 0.0;
    var updated := Slice(e.category, before + Abs(e.amount));
    if k < |data| then data[k := updated] else data + [updated]
  }

  function ChartFold(expenses: seq<Transaction>): seq<Slice>
  {
    if expenses == [] then []
    else ChartTally(ChartFold(expenses[..|expenses| - 1]), expenses[|expenses| - 1])
  }

  /** The chart's `categoryData` for the currently filtered records. */
  function ChartDataOf(filtered: seq<Transaction>): seq<Slice>
  {
    ChartFold(Keep(filtered, IsExpense))
  }

  /** The category and total of each `categoryStats` entry. */
  function Project(stats: seq<CategoryStat>): (r: seq<Slice>)
    ensures |r| == |stats|
    ensures forall k :: 0 <= k < |stats| ==> r[k] == Slice(stats[k].category, stats[k].total)
  {
    seq(|stats|, k requires 0 <= k < |stats| => Slice(stats[k].category, stats[k].total))
  }

  lemma {:induction false} IndexOfProjection(stats: seq<CategoryStat>, c: string)
    ensures IndexOfSlice(Project(stats), c) == IndexOfCategory(stats, c)
  {
    if stats != [] {
      IndexOfProjection(stats[1..], c);
      assert Project(stats)[1..] == Project(stats[1..]);
    }
  }

  lemma ChartTallyProject(stats: seq<CategoryStat>, e: Transaction)
    ensures ChartTally(Project(stats), e) == Project(Tally(stats, e))
  {
    IndexOfProjection(stats, e.category);
    var k := IndexOfCategory(stats, e.category);
    var p := Project(stats);
    if k < |stats| {
      assert p[k].total == stats[k].total;
    }
  }

  /** The chart shows, per category and in the same order, the totals that
      `getStatistics` reports for the expenses of the list it is drawn from. */
  lemma {:induction false} ChartMatchesCategoryStats(expenses: seq<Transaction>)
    ensures ChartFold(expenses) == Project(CategoryStatsOf(expenses))
  {
    if expenses != [] {
      var init, e := expenses[..|expenses| - 1], expenses[|expenses| - 1];
      ChartMatchesCategoryStats(init);
      ChartTallyProject(CategoryStatsOf(init), e);
    }
  }

  /** The chart data over the filtered list: one slice per expense category,
      holding the sum of that category's magnitudes. */
  lemma ChartDataProperties(filtered: seq<Transaction>)
    ensures |ChartDataOf(filtered)| == |CategoryStatsOf(Keep(filtered, IsExpense))|
    ensures forall k :: 0 <= k < |ChartDataOf(filtered)| ==>
      ChartDataOf(filtered)[k].total == AbsTotalIn(Keep(filtered, IsExpense), ChartDataOf(filtered)[k].category)
    ensures SumSlices(ChartDataOf(filtered)) == Sum(AbsAmounts(Keep(filtered, IsExpense)))
  {
    var es := Keep(filtered, IsExpense);
    ChartMatchesCategoryStats(es);
    CategoryStatsCharacterised(es);
    CategorySums(es);
    SumSlicesProject(CategoryStatsOf(es));
  }

  function SumSlices(data: seq<Slice>): real
  {
    if data == [] then 0.0 else SumSlices(data[..|data| - 1]) + data[|data| - 1].total
  }

  lemma {:induction false} SumSlicesProject(stats: seq<CategoryStat>)
    ensures SumSlices(Project(stats)) == SumTotals(stats)
  {
    if stats != [] {
      SumSlicesProject(stats[..|stats| - 1]);
      assert Project(stats)[..|stats| - 1] == Project(stats[..|stats| - 1]);
    }
  }
}
