/** The transaction record of the finance tracker and the pure rules the
    tracker applies to its list: validation and sign normalisation on add,
    removal by id, the search/type/category filter, and the newest-first
    ordering of the transaction list view. */
module Ledger {
  import opened Seqs
  import opened Text

  /** One element of `transactions`. `kind` is the record's `type` field;
      `date` is the ISO text the record stores; amounts are exact reals. */
  datatype Transaction = Transaction(
    id: real,
    description: string,
    amount: real,
    category: string,
    kind: string,
    date: string)

  const Income: string := "income"
  const Expense: string := "expense"
  const All: string := "all"

  // ---------------------------------------------------------------------------
  // Adding a transaction from the form

  /** The form guard `!description || !amount || !category || !type`, where an
      amount of `None` is the NaN that `parseFloat` gives for unreadable text. */
  predicate FormRejected(description: string, amount: Option<real>, category: string, kind: string)
  {
    description == [] || amount == None || amount.value == 0.0 || category == [] || kind == []
  }

  /** The stored amount: the magnitude, negated for expenses. */
  function SignedAmount(amount: real, kind: string): (r: real)
    ensures Abs(r) == Abs(amount)
    ensures kind == Expense ==> r <= 0.0
    ensures kind != Expense ==> r >= 0.0
    ensures amount != 0.0 ==> r != 0.0
  {
    if kind == Expense then -Abs(amount) else Abs(amount)
  }

  /** What submitting the form produces: nothing when the guard rejects it,
      otherwise the record to push, with the trimmed description and the
      normalised amount; `id` and `now` stand for `Date.now()` and the ISO
      text of `new Date()`. */
  function SubmitForm(descriptionField: string, amount: Option<real>, category: string,
                      kind: string, id: real, now: string): (r: Option<Transaction>)
    ensures r.None? <==> FormRejected(Trim(descriptionField), amount, category, kind)
    ensures r.Some? ==>
      && r.value.description == Trim(descriptionField) && r.value.description != []
      && !IsJsWhitespace(r.value.description[0])
      && r.value.category == category && category != []
      && r.value.kind == kind && kind != []
      && Abs(r.value.amount) == Abs(amount.value) && r.value.amount != 0.0
      && (kind == Expense ==> r.value.amount < 0.0)
      && (kind != Expense ==> r.value.amount > 0.0)
      && r.value.id == id && r.value.date == now
  {
    var description := Trim(descriptionField);
    if FormRejected(description, amount, category, kind) then None
    else Some(Transaction(id, description, SignedAmount(amount.value, kind), category, kind, now))
  }

  /** A form filled in without surrounding white space, with a non-zero
      amount and a category and type, is accepted as entered, the amount's
      sign set by the type. */
  lemma SubmitFilledForm(description: string, amount: real, category: string, kind: string, id: real, now: string)
    requires description != [] && !IsJsWhitespace(description[0]) && !IsJsWhitespace(description[|description| - 1])
    requires amount != 0.0 && category != [] && kind != []
    ensures SubmitForm(description, Some(amount), category, kind, id, now)
      == Some(Transaction(id, description, SignedAmount(amount, kind), category, kind, now))
  {
    TrimFramed(description);
  }

  // ---------------------------------------------------------------------------
  // Deleting by id

  predicate HasId(ts: seq<Transaction>, id: real)
  {
    exists i :: 0 <= i < |ts| && ts[i].id == id
  }

  function IdIsNot(id: real): Transaction -> bool
  {
    (t: Transaction) => t.id != id
  }

  /** `transactions.filter(t => t.id !== id)`. */
  function WithoutId(ts: seq<Transaction>, id: real): seq<Transaction>
  {
    Keep(ts, IdIsNot(id))
  }

  /** Deleting keeps every record without the id as many times as the list
      holds it, and no record with the id. */
  lemma WithoutIdCounts(ts: seq<Transaction>, id: real)
    ensures forall t :: multiset(WithoutId(ts, id))[t] == if t.id == id then 0 else multiset(ts)[t]
  {
    KeepCounts(ts, IdIsNot(id));
  }

  /** A record is left after deleting exactly when it was in the list with
      another id, so no record with the id remains. */
  lemma WithoutIdMembers(ts: seq<Transaction>, id: real)
    ensures forall t :: t in WithoutId(ts, id) <==> t in ts && t.id != id
    ensures !HasId(WithoutId(ts, id), id)
  {
    var r := WithoutId(ts, id);
    forall t ensures t in r <==> t in ts && t.id != id {
      KeepMembers(ts, IdIsNot(id), t);
    }
    forall i | 0 <= i < |r| ensures r[i].id != id {
      assert r[i] in r;
    }
  }

  /** Deleting keeps the remaining records in their order. */
  lemma WithoutIdInOrder(ts: seq<Transaction>, id: real)
    ensures IsSubsequence(WithoutId(ts, id), ts)
  {
    KeepIsSubsequence(ts, IdIsNot(id));
  }

  /** Deleting an id no record carries changes nothing. */
  lemma WithoutIdAbsent(ts: seq<Transaction>, id: real)
    requires !HasId(ts, id)
    ensures WithoutId(ts, id) == ts
  {
    KeepAll(ts, IdIsNot(id));
  }

  /** Deleting an id some record carries shortens the list. */
  lemma WithoutIdShrinks(ts: seq<Transaction>, id: real)
    requires HasId(ts, id)
    ensures |WithoutId(ts, id)| < |ts|
  {
    var i :| 0 <= i < |ts| && ts[i].id == id;
    KeepDropsFailing(ts, IdIsNot(id), i);
  }

  /** Deleting the same id again changes nothing. */
  lemma WithoutIdTwice(ts: seq<Transaction>, id: real)
    ensures WithoutId(WithoutId(ts, id), id) == WithoutId(ts, id)
  {
    KeepTwice(ts, IdIsNot(id));
  }

  /** A filter that rejects some element returns a shorter sequence. */
  lemma {:induction false} KeepDropsFailing<T>(xs: seq<T>, p: T -> bool, i: nat)
    requires i < |xs| && !p(xs[i])
    ensures |Keep(xs, p)| < |xs|
  {
    var n := |xs|;
    if i < n - 1 {
      KeepDropsFailing(xs[..n - 1], p, i);
    } else {
      assert |Keep(xs[..n - 1], p)| <= n - 1;
    }
  }

  // ---------------------------------------------------------------------------
  // The search / type / category filter

  /** The test applied to each record: the (lower-cased) search term occurs in
      the lower-cased description or category, and the type and category
      selections are "all" or equal to the record's. */
  predicate Matches(t: Transaction, term: string, typeFilter: string, categoryFilter: string)
  {
    && (Contains(Lower(t.description), term) || Contains(Lower(t.category), term))
    && (typeFilter == All || t.kind == typeFilter)
    && (categoryFilter == All || t.category == categoryFilter)
  }

  function Matcher(term: string, typeFilter: string, categoryFilter: string): Transaction -> bool
  {
    (t: Transaction) => Matches(t, term, typeFilter, categoryFilter)
  }

  /** A selection whose value is empty counts as "all" (`value || 'all'`). */
  function OrAll(selection: string): (r: string)
    ensures r != []
  {
    if selection == [] then All else selection
  }

  /** The list `applyFilters` stores in `filteredTransactions`, from the raw
      values of the search box and the two selections. */
  function FilterView(ts: seq<Transaction>, searchValue: string, typeValue: string,
                      categoryValue: string): seq<Transaction>
  {
    Keep(ts, Matcher(Lower(searchValue), OrAll(typeValue), OrAll(categoryValue)))
  }

  /** The filtered list keeps exactly the matching records, each as often as
      the list holds it, in their order; an empty search with both selections
      "all" keeps everything. */
  lemma FilterViewProperties(ts: seq<Transaction>, searchValue: string, typeValue: string,
                             categoryValue: string)
    ensures IsSubsequence(FilterView(ts, searchValue, typeValue, categoryValue), ts)
    ensures forall i :: 0 <= i < |FilterView(ts, searchValue, typeValue, categoryValue)| ==>
      Matches(FilterView(ts, searchValue, typeValue, categoryValue)[i],
              Lower(searchValue), OrAll(typeValue), OrAll(categoryValue))
    ensures forall t :: t in ts && Matches(t, Lower(searchValue), OrAll(typeValue), OrAll(categoryValue)) ==>
      t in FilterView(ts, searchValue, typeValue, categoryValue)
    ensures forall t :: multiset(FilterView(ts, searchValue, typeValue, categoryValue))[t] ==
                        if Matches(t, Lower(searchValue), OrAll(typeValue), OrAll(categoryValue))
                        then multiset(ts)[t] else 0
    ensures searchValue == [] && OrAll(typeValue) == All && OrAll(categoryValue) == All ==>
      FilterView(ts, searchValue, typeValue, categoryValue) == ts
  {
    var p := Matcher(Lower(searchValue), OrAll(typeValue), OrAll(categoryValue));
    var r := Keep(ts, p);
    KeepIsSubsequence(ts, p);
    KeepCounts(ts, p);
    forall t ensures t in r <==> t in ts && p(t) {
      KeepMembers(ts, p, t);
    }
    forall i | 0 <= i < |r| ensures p(r[i]) {
      assert r[i] in r;
    }
    if searchValue == [] && OrAll(typeValue) == All && OrAll(categoryValue) == All {
      forall i | 0 <= i < |ts| ensures p(ts[i]) {
        assert [] <= Lower(ts[i].description);
      }
      KeepAll(ts, p);
    }
  }

  // ---------------------------------------------------------------------------
  // The order of the transaction list view

  /** How many records the list view shows (`slice(0, 20)`). */
  const DisplayLimit: nat := 20

  /** Puts t before the first record that is strictly older; t precedes every
      record of `sorted` in the original list, so ties keep their order, as
      the stable `Array.prototype.sort` does. */
  function InsertNewestFirst(t: Transaction, sorted: seq<Transaction>, timeOf: string -> int): seq<Transaction>
  {
    if sorted == [] || timeOf(t.date) >= timeOf(sorted[0].date) then [t] + sorted
    else [sorted[0]] + InsertNewestFirst(t, sorted[1..], timeOf)
  }

  /** `sort((a, b) => new Date(b.date) - new Date(a.date))`, with `timeOf`
      giving the time value of a date text. */
  function SortNewestFirst(ts: seq<Transaction>, timeOf: string -> int): seq<Transaction>
  {
    if ts == [] then [] else InsertNewestFirst(ts[0], SortNewestFirst(ts[1..], timeOf), timeOf)
  }

  predicate NewestFirst(ts: seq<Transaction>, timeOf: string -> int)
  {
    forall i, j :: 0 <= i < j < |ts| ==> timeOf(ts[i].date) >= timeOf(ts[j].date)
  }

  /** The records the list view shows: the first twenty of the filtered list
      sorted newest first. */
  function Displayed(filtered: seq<Transaction>, timeOf: string -> int): seq<Transaction>
  {
    var sorted := SortNewestFirst(filtered, timeOf);
    if |sorted| <= DisplayLimit then sorted else sorted[..DisplayLimit]
  }

  lemma {:induction false} InsertNewestFirstCount(t: Transaction, sorted: seq<Transaction>, timeOf: string -> int)
    ensures multiset(InsertNewestFirst(t, sorted, timeOf)) == multiset(sorted) + multiset{t}
    ensures InsertNewestFirst(t, sorted, timeOf)[0] == t
         || (sorted != [] && InsertNewestFirst(t, sorted, timeOf)[0] == sorted[0])
  {
    if sorted != [] && timeOf(t.date) < timeOf(sorted[0].date) {
      InsertNewestFirstCount(t, sorted[1..], timeOf);
      assert sorted == [sorted[0]] + sorted[1..];
    }
  }

  lemma {:induction false} InsertNewestFirstSorted(t: Transaction, sorted: seq<Transaction>, timeOf: string -> int)
    requires NewestFirst(sorted, timeOf)
    ensures NewestFirst(InsertNewestFirst(t, sorted, timeOf), timeOf)
  {
    if sorted != [] && timeOf(t.date) < timeOf(sorted[0].date) {
      var tail := sorted[1..];
      var rest := InsertNewestFirst(t, tail, timeOf);
      InsertNewestFirstSorted(t, tail, timeOf);
      InsertNewestFirstCount(t, tail, timeOf);
      var top := timeOf(sorted[0].date);
      assert top >= timeOf(rest[0].date);
      var r := [sorted[0]] + rest;
      assert r == InsertNewestFirst(t, sorted, timeOf);
      forall i, j | 0 <= i < j < |r| ensures timeOf(r[i].date) >= timeOf(r[j].date) {
        if i == 0 {
          assert r[j] == rest[j - 1];
          assert timeOf(rest[0].date) >= timeOf(rest[j - 1].date);
        } else {
          assert r[i] == rest[i - 1] && r[j] == rest[j - 1];
        }
      }
    }
  }

  /** The sorted list is a rearrangement of the filtered list, newest first. */
  lemma {:induction false} SortNewestFirstProperties(ts: seq<Transaction>, timeOf: string -> int)
    ensures NewestFirst(SortNewestFirst(ts, timeOf), timeOf)
    ensures multiset(SortNewestFirst(ts, timeOf)) == multiset(ts)
  {
    if ts != [] {
      SortNewestFirstProperties(ts[1..], timeOf);
      InsertNewestFirstCount(ts[0], SortNewestFirst(ts[1..], timeOf), timeOf);
      InsertNewestFirstSorted(ts[0], SortNewestFirst(ts[1..], timeOf), timeOf);
      assert ts == [ts[0]] + ts[1..];
    }
  }

  /** The list view shows min(20, n) of the filtered records, newest first,
      each at most as often as it occurs in the filtered list. */
  lemma DisplayedProperties(filtered: seq<Transaction>, timeOf: string -> int)
    ensures |Displayed(filtered, timeOf)| == if |filtered| <= DisplayLimit then |filtered| else DisplayLimit
    ensures NewestFirst(Displayed(filtered, timeOf), timeOf)
    ensures multiset(Displayed(filtered, timeOf)) <= multiset(filtered)
  {
    var sorted := SortNewestFirst(filtered, timeOf);
    SortNewestFirstProperties(filtered, timeOf);
    assert |sorted| == |filtered| by {
      assert |multiset(sorted)| == |multiset(filtered)|;
    }
    var shown := Displayed(filtered, timeOf);
    if |sorted| > DisplayLimit {
      assert sorted == shown + sorted[DisplayLimit..];
      assert multiset(sorted) == multiset(shown) + multiset(sorted[DisplayLimit..]);
    }
  }

  /** A filtered record left out of the view is no newer than any shown one. */
  lemma DisplayedAreNewest(filtered: seq<Transaction>, timeOf: string -> int)
    ensures forall t, i :: t in filtered && t !in Displayed(filtered, timeOf) && 0 <= i < |Displayed(filtered, timeOf)| ==>
      timeOf(t.date) <= timeOf(Displayed(filtered, timeOf)[i].date)
  {
    var sorted := SortNewestFirst(filtered, timeOf);
    SortNewestFirstProperties(filtered, timeOf);
    var shown := Displayed(filtered, timeOf);
    forall t, i | t in filtered && t !in shown && 0 <= i < |shown|
      ensures timeOf(t.date) <= timeOf(shown[i].date)
    {
      assert t in multiset(sorted);
      var j :| 0 <= j < |sorted| && sorted[j] == t;
      assert j >= |shown|;
    }
  }
}
