/** The `PersonalFinanceTracker` object: the list of transactions and the
    filtered view the page shows, and the operations that update them in
    place. Each mutating method ends the way the source does, by recomputing
    the view (`updateDisplay`) or by filtering it (`applyFilters`); saving to
    storage and redrawing the page are not modelled. */
module Tracker {
  import opened Seqs
  import opened Text
  import opened Csv
  import opened Ledger
  import opened Statistics
  import opened CsvFile
  import opened Snapshot

  class PersonalFinanceTracker {
    var transactions: seq<Transaction>
    var filteredTransactions: seq<Transaction>

    /** The view only ever holds transactions of the list, in list order. */
    predicate Valid()
      reads this
    {
      IsSubsequence(filteredTransactions, transactions)
    }

    /** Loading the saved copy, then `updateDisplay`. */
    constructor(saved: Saved)
      ensures transactions == Load(saved)
      ensures filteredTransactions == transactions
      ensures Valid()
    {
      transactions := Load(saved);
      filteredTransactions := Load(saved);
      SubsequenceOfSelf(Load(saved));
    }

    /** `updateDisplay`: the view shows the whole list again. */
    method UpdateDisplay()
      modifies this
      ensures transactions == old(transactions)
      ensures filteredTransactions == transactions
      ensures Valid()
    {
      filteredTransactions := transactions;
      SubsequenceOfSelf(transactions);
    }

    /** `handleFormSubmit`: the form's fields are checked and, when accepted,
        one transaction is appended. `id` and `now` stand for `Date.now()` and
        the current time as an ISO string. */
    method HandleFormSubmit(descriptionField: string, amount: Option<real>, category: string, kind: string,
                            id: real, now: string) returns (added: Option<Transaction>)
      requires Valid()
      modifies this
      ensures added == SubmitForm(descriptionField, amount, category, kind, id, now)
      ensures added.None? ==>
        transactions == old(transactions) && filteredTransactions == old(filteredTransactions)
      ensures added.Some? ==>
        transactions == old(transactions) + [added.value] && filteredTransactions == transactions
      ensures Valid()
    {
      added := SubmitForm(descriptionField, amount, category, kind, id, now);
      if added.None? {
        return;
      }
      transactions := transactions + [added.value];
      UpdateDisplay();
    }

    /** `clearAllTransactions`: nothing happens on an empty list or when the
        confirmation is refused; otherwise both the list and the view empty. */
    method ClearAllTransactions(confirmed: bool)
      requires Valid()
      modifies this
      ensures old(transactions) == [] || !confirmed ==>
        transactions == old(transactions) && filteredTransactions == old(filteredTransactions)
      ensures old(transactions) != [] && confirmed ==> transactions == [] && filteredTransactions == []
      ensures Valid()
    {
      if |transactions| == 0 {
        return;
      }
      if confirmed {
        transactions := [];
        filteredTransactions := [];
        UpdateDisplay();
      }
    }

    /** `deleteTransaction`: when a transaction has the id and the deletion
        is confirmed, every transaction with that id goes; otherwise nothing
        happens. */
    method DeleteTransaction(id: real, confirmed: bool)
      requires Valid()
      modifies this
      ensures !HasId(old(transactions), id) || !confirmed ==>
        transactions == old(transactions) && filteredTransactions == old(filteredTransactions)
      ensures HasId(old(transactions), id) && confirmed ==>
        transactions == WithoutId(old(transactions), id) && filteredTransactions == transactions
      ensures Valid()
    {
      if !HasId(transactions, id) {
        return;
      }
      if confirmed {
        transactions := WithoutId(transactions, id);
        UpdateDisplay();
      }
    }

    /** `applyFilters`: the view becomes the transactions matching the search
        box and the two selections; the list is untouched. */
    method ApplyFilters(searchValue: string, typeValue: string, categoryValue: string)
      modifies this
      ensures transactions == old(transactions)
      ensures filteredTransactions == FilterView(transactions, searchValue, typeValue, categoryValue)
      ensures Valid()
    {
      filteredTransactions := FilterView(transactions, searchValue, typeValue, categoryValue);
      FilterViewProperties(transactions, searchValue, typeValue, categoryValue);
    }

    /** `getStatistics`, building the per-category entries with the source's
        `forEach` loop. */
    method GetStatistics() returns (stats: Option<Stats>)
      ensures stats == StatisticsOf(transactions)
      ensures stats.None? <==> transactions == []
      ensures stats.Some? ==> stats.value.balance == stats.value.totalIncome - stats.value.totalExpenses
      ensures stats.Some? ==> stats.value.categoryStats == CategoryStatsOf(Keep(transactions, IsExpense))
    {
      if |transactions| == 0 {
        return None;
      }
      var income := Keep(transactions, IsIncome);
      var expenses := Keep(transactions, IsExpense);
      var totalIncome := TotalIncome(transactions);
      var totalExpenses := TotalExpenses(transactions);
      var avgIncome := if |income| > 0 then totalIncome / |income| as real else 0.0;
      var avgExpense := if |expenses| > 0 then totalExpenses / |expenses| as real else 0.0;
      var categoryStats := TallyCategories(expenses);
      stats := Some(Stats(totalIncome, totalExpenses, totalIncome - totalExpenses, avgIncome, avgExpense,
                          |transactions|, |income|, |expenses|, categoryStats));
    }

    /** The three figures `updateSummary` shows. */
    method UpdateSummary() returns (summary: Summary)
      ensures summary == SummaryOf(transactions)
      ensures summary.balance == summary.totalIncome - summary.totalExpense
      ensures summary.totalExpense >= 0.0
    {
      var totalIncome := Sum(Amounts(Keep(transactions, IsIncome)));
      var totalExpense := Abs(Sum(Amounts(Keep(transactions, IsExpense))));
      summary := Summary(totalIncome, totalExpense, totalIncome - totalExpense);
    }

    /** The per-category expense totals `updateChart` draws, over the view,
        accumulated with the source's `forEach` loop. */
    method ChartData() returns (data: seq<Slice>)
      ensures data == ChartDataOf(filteredTransactions)
      ensures data == Project(CategoryStatsOf(Keep(filteredTransactions, IsExpense)))
    {
      var expenses := Keep(filteredTransactions, IsExpense);
      data := [];
      for i := 0 to |expenses|
        invariant data == ChartFold(expenses[..i])
      {
        var expense := expenses[i];
        var k := IndexOfSlice(data, expense.category);
        var before := if k < |data| then data[k].total else 0.0;
        if k < |data| {
          data := data[k := Slice(expense.category, before + Abs(expense.amount))];
        } else {
          data := data + [Slice(expense.category, before + Abs(expense.amount))];
        }
        assert expenses[..i + 1][..i] == expenses[..i];
      }
      assert expenses[..|expenses|] == expenses;
      ChartMatchesCategoryStats(expenses);
    }

    /** `importFromCSV`: split the text into lines and the first line into
        header cells, run the loop over the other lines, and append the
        collected records only after it, so a line that throws leaves the list
        as it was; `imported` is the count the notification
        reports, or `None` for the error notification. */
    method ImportFromCsv(csvContent: string, idAt: nat -> real,
                         toIso: string -> Option<string>, parseAmount: string -> Option<real>)
      returns (imported: Option<nat>)
      requires Valid()
      modifies this
      ensures ImportCsv(csvContent, idAt, toIso, parseAmount).None? ==>
        imported.None? && transactions == old(transactions) && filteredTransactions == old(filteredTransactions)
      ensures ImportCsv(csvContent, idAt, toIso, parseAmount).Some? ==>
        var rows := ImportCsv(csvContent, idAt, toIso, parseAmount).value;
        imported == Some(|rows|) && transactions == old(transactions) + rows && filteredTransactions == transactions
      ensures Valid()
    {
      var lines := Split(csvContent, '\n');
      var headers := Split(lines[0], ',');
      var rows := ImportLines(lines, |headers|, idAt, toIso, parseAmount);
      if rows.None? {
        return None;
      }
      transactions := transactions + rows.value;
      UpdateDisplay();
      imported := Some(|rows.value|);
    }
  }

  /** The loop of `importFromCSV` over the lines after the header: each line
      is read in turn, accepted records are collected, and the first line that
      throws ends the import with `None`. */
  method ImportLines(lines: seq<string>, headerCount: nat, idAt: nat -> real,
                     toIso: string -> Option<string>, parseAmount: string -> Option<real>)
    returns (rows: Option<seq<Transaction>>)
    requires |lines| >= 1
    ensures rows == Collect(Outcomes(lines, headerCount, idAt, toIso, parseAmount))
  {
    ghost var outcomes := Outcomes(lines, headerCount, idAt, toIso, parseAmount);
    var accepted: seq<Transaction> := [];
    var i := 1;
    while i < |lines|
      invariant 1 <= i <= |lines|
      invariant Collect(outcomes[..i - 1]) == Some(accepted)
    {
      var outcome := ReadImportLine(lines[i], headerCount, idAt(i), toIso, parseAmount);
      OutcomeAt(lines, headerCount, idAt, toIso, parseAmount, i - 1);
      assert outcome == outcomes[i - 1];
      CollectNext(outcomes, i - 1);
      match outcome {
        case Thrown =>
          CollectFailsIff(outcomes);
          return None;
        case Skipped =>
        case Accepted(t) =>
          accepted := accepted + [t];
      }
      assert Collect(outcomes[..i]) == Some(accepted);
      i := i + 1;
    }
    assert outcomes[..i - 1] == outcomes;
    rows := Some(accepted);
  }

  /** The `forEach` over the expenses in `getStatistics`: each expense creates
      its category's entry when missing, then adds its magnitude, counts one
      more and recomputes the average. */
  method TallyCategories(expenses: seq<Transaction>) returns (categoryStats: seq<CategoryStat>)
    ensures categoryStats == CategoryStatsOf(expenses)
  {
    categoryStats := [];
    for i := 0 to |expenses|
      invariant categoryStats == CategoryStatsOf(expenses[..i])
    {
      var expense := expenses[i];
      ghost var before := categoryStats;
      var k := IndexOfCategory(categoryStats, expense.category);
      if k == |categoryStats| {
        categoryStats := categoryStats + [CategoryStat(expense.category, 0.0, 0, 0.0)];
      }
      var total := categoryStats[k].total + Abs(expense.amount);
      var count := categoryStats[k].count + 1;
      categoryStats := categoryStats[k := CategoryStat(expense.category, total, count, total / count as real)];
      assert categoryStats == Tally(before, expense);
      assert expenses[..i + 1][..i] == expenses[..i];
    }
    assert expenses[..|expenses|] == expenses;
  }

  /** The body of the import loop for one line: trim, skip a blank line,
      split with `parseCSVLine`, skip a line whose cell count differs from the
      header's, then build the record (which throws on an invalid date or a
      missing description cell) and accept it when its fields pass the check. */
  method ReadImportLine(rawLine: string, headerCount: nat, id: real,
                        toIso: string -> Option<string>, parseAmount: string -> Option<real>)
    returns (outcome: RowOutcome)
    ensures outcome == ImportRow(rawLine, headerCount, id, toIso, parseAmount)
    ensures outcome.Accepted? ==> outcome.t.id == id && outcome.t.description != [] && '"' !in outcome.t.description
  {
    var line := Trim(rawLine);
    if line == [] {
      return Skipped;
    }
    var values := ParseCsvLine(line);
    if |values| != headerCount {
      return Skipped;
    }
    var date := toIso(values[0]);
    if date.None? || |values| < 2 {
      return Thrown;
    }
    var description := StripOuterQuotes(values[1]);
    var category := Cell(values, 2);
    var kind := Cell(values, 3);
    var amount := if |values| > 4 then parseAmount(values[4]) else None;
    if description != [] && amount.Some? && Filled(category) && Filled(kind) {
      outcome := Accepted(Transaction(id, description, amount.value, category.value, kind.value, date.value));
    } else {
      outcome := Skipped;
    }
    ImportRowCases(rawLine, headerCount, id, toIso, parseAmount);
  }

  lemma {:induction false} SubsequenceOfSelf<T>(xs: seq<T>)
    ensures IsSubsequence(xs, xs)
  {
    if xs != [] {
      SubsequenceOfSelf(xs[..|xs| - 1]);
    }
  }

  /** The income submission of the example is accepted as entered. */
  lemma SalaryAccepted(id: real, now: string)
    ensures SubmitForm("March pay", Some(1000.0), "Salary", "income", id, now)
      == Some(Transaction(id, "March pay", 1000.0, "Salary", "income", now))
  {
    var pay := "March pay";
    assert pay[0] == 'M' && pay[|pay| - 1] == 'y';
    SubmitFilledForm(pay, 1000.0, "Salary", Income, id, now);
  }

  /** The expense submission of the example is accepted with its sign
      turned negative. */
  lemma BillAccepted(id: real, now: string)
    ensures SubmitForm("Electricity", Some(250.0), "Bills", "expense", id, now)
      == Some(Transaction(id, "Electricity", -250.0, "Bills", "expense", now))
  {
    var electricity := "Electricity";
    assert electricity[0] == 'E' && electricity[|electricity| - 1] == 'y';
    SubmitFilledForm(electricity, 250.0, "Bills", Expense, id, now);
  }

  /** Income 1000 and an expense of 250 give income 1000, expenses 250,
      balance 750, one of each, and one "Bills" entry of total 250 over one
      expense. */
  lemma SalaryAndBillStatistics(salary: Transaction, bill: Transaction)
    requires salary.amount == 1000.0 && salary.kind == Income
    requires bill.amount == -250.0 && bill.kind == Expense && bill.category == "Bills"
    ensures StatisticsOf([salary, bill])
      == Some(Stats(1000.0, 250.0, 750.0, 1000.0, 250.0, 2, 1, 1, [CategoryStat("Bills", 250.0, 1, 250.0)]))
  {
    SalaryAndBillKept(salary, bill);
    assert TotalIncome([salary, bill]) == 1000.0 by {
      assert Amounts([salary]) == [1000.0] && [1000.0][..0] == [];
    }
    assert TotalExpenses([salary, bill]) == 250.0 by {
      assert Amounts([bill]) == [-250.0] && [-250.0][..0] == [];
    }
    BillCategory(bill);
  }

  lemma SalaryAndBillKept(salary: Transaction, bill: Transaction)
    requires salary.kind == Income && bill.kind == Expense
    ensures Keep([salary, bill], IsIncome) == [salary]
    ensures Keep([salary, bill], IsExpense) == [bill]
  {
    var ts := [salary, bill];
    assert ts[..1] == [salary] && [salary][..0] == [];
    assert Keep([salary], IsIncome) == [salary];
    assert Keep([salary], IsExpense) == [];
  }

  lemma BillCategory(bill: Transaction)
    requires bill.amount == -250.0 && bill.category == "Bills"
    ensures CategoryStatsOf([bill]) == [CategoryStat("Bills", 250.0, 1, 250.0)]
  {
    assert [bill][..0] == [];
    assert CategoryStatsOf([bill]) == Tally([], bill);
  }
}
