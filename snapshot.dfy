/** The saved copy of the list and the validity filter `loadFromLocalStorage`
    applies to it. The stored text and `JSON.parse` are not modelled; what the
    parse produced is the input: nothing stored, text that does not parse, a
    value that is not an array, or an array of items. */
module Snapshot {
  import opened Seqs
  import opened Ledger

  /** A JSON value as far as the filter looks at it: its truthiness and
      whether it is a number. Objects and arrays are always truthy. */
  datatype JsValue = JsNull | JsBool(b: bool) | JsNumber(n: real) | JsString(s: string) | JsComposite

  /** A parsed object's six fields; `None` is a missing field (`undefined`). */
  datatype Record = Record(id: Option<JsValue>, description: Option<JsValue>, amount: Option<JsValue>,
                           category: Option<JsValue>, kind: Option<JsValue>, date: Option<JsValue>)

  /** An array element: an object, `null` (reading a field of it throws), or
      any other value (all of its fields read as `undefined`). */
  datatype Item = ObjectItem(record: Record) | NullItem | OtherItem

  datatype Saved = NothingSaved | Unparseable | NotAnArray | SavedArray(items: seq<Item>)

  /** JavaScript truthiness; `undefined` is falsy. */
  predicate Truthy(v: Option<JsValue>)
  {
    match v
    case None => false
    case Some(JsNull) => false
    case Some(JsBool(b)) => b
    case Some(JsNumber(n)) => n != 0.0
    case Some(JsString(s)) => s != []
    case Some(JsComposite) => true
  }

  /** The load filter's test: id, description, category, type and date truthy,
      amount a number. */
  predicate IsValid(r: Record)
  {
    Truthy(r.id) && Truthy(r.description) && r.amount.Some? && r.amount.value.JsNumber?
    && Truthy(r.category) && Truthy(r.kind) && Truthy(r.date)
  }

  /** The array's filter: the valid objects in order, or `None` when it throws
      on a `null` element. */
  function KeepValid(items: seq<Item>): (r: Option<seq<Record>>)
    ensures r.Some? ==> |r.value| <= |items|
  {
    if items == [] then Some([])
    else
      match KeepValid(items[..|items| - 1])
      case None => None
      case Some(kept) =>
        match items[|items| - 1]
        case NullItem => None
        case OtherItem => Some(kept)
        case ObjectItem(r) => if IsValid(r) then Some(kept + [r]) else Some(kept)
  }

  lemma KeepValidSnoc(items: seq<Item>, item: Item)
    ensures KeepValid(items + [item]) ==
      match KeepValid(items)
      case None => None
      case Some(kept) =>
        match item
        case NullItem => None
        case OtherItem => Some(kept)
        case ObjectItem(r) => if IsValid(r) then Some(kept + [r]) else Some(kept)
  {
    assert (items + [item])[..|items|] == items;
  }

  /** The records the list holds after loading: nothing when nothing is stored,
      and an empty list when parsing or filtering throws. */
  function LoadRecords(saved: Saved): seq<Record>
  {
    match saved
    case NothingSaved => []
    case Unparseable => []
    case NotAnArray => []
    case SavedArray(items) => match KeepValid(items)
      case None => []
      case Some(kept) => kept
  }

  /** The filter throws exactly when the array holds a `null`; otherwise it
      keeps exactly the valid objects, in their order. */
  lemma {:induction false} KeepValidProperties(items: seq<Item>)
    ensures KeepValid(items).None? <==> NullItem in items
    ensures KeepValid(items).Some? ==>
      && (forall r :: r in KeepValid(items).value <==> ObjectItem(r) in items && IsValid(r))
      && IsSubsequence(KeepValid(items).value, ObjectsOf(items))
  {
    if items != [] {
      var init, last := items[..|items| - 1], items[|items| - 1];
      KeepValidProperties(init);
      assert items == init + [last];
      if KeepValid(init).Some? && last != NullItem {
        var kept := KeepValid(init).value;
        assert ObjectsOf(items) == ObjectsOf(init) + (if last.ObjectItem? then [last.record] else []);
        if last.ObjectItem? && IsValid(last.record) {
          assert (kept + [last.record])[..|kept|] == kept;
          assert (ObjectsOf(init) + [last.record])[..|ObjectsOf(init)|] == ObjectsOf(init);
        } else if last.ObjectItem? {
          SubsequenceOfLonger(kept, ObjectsOf(init), last.record);
        } else {
          assert ObjectsOf(items) == ObjectsOf(init);
        }
      }
    }
  }

  /** When the filter does not throw, it keeps each valid object as often as
      the array holds it and drops every invalid one. */
  lemma {:induction false} KeepValidCounts(items: seq<Item>, r: Record)
    requires KeepValid(items).Some?
    ensures multiset(KeepValid(items).value)[r] == if IsValid(r) then multiset(items)[ObjectItem(r)] else 0
  {
    if items != [] {
      var init, last := items[..|items| - 1], items[|items| - 1];
      KeepValidCounts(init, r);
      assert items == init + [last];
      if last.ObjectItem? && IsValid(last.record) {
        assert KeepValid(items).value == KeepValid(init).value + [last.record];
      } else {
        assert KeepValid(items).value == KeepValid(init).value;
      }
    }
  }

  /** The objects of the array, in order. */
  function ObjectsOf(items: seq<Item>): seq<Record>
  {
    if items == [] then []
    else ObjectsOf(items[..|items| - 1]) + (if items[|items| - 1].ObjectItem? then [items[|items| - 1].record] else [])
  }

  // ---------------------------------------------------------------------------
  // The typed view of the loaded records

  /** The record `saveToLocalStorage` writes for a transaction. */
  function Saveable(t: Transaction): Record
  {
    Record(Some(JsNumber(t.id)), Some(JsString(t.description)), Some(JsNumber(t.amount)),
           Some(JsString(t.category)), Some(JsString(t.kind)), Some(JsString(t.date)))
  }

  function Save(ts: seq<Transaction>): (r: Saved)
    ensures r.SavedArray? && |r.items| == |ts|
  {
    SavedArray(seq(|ts|, i requires 0 <= i < |ts| => ObjectItem(Saveable(ts[i]))))
  }

  /** A loaded record as a transaction, when its fields have the types the
      tracker writes. */
  function AsTransaction(r: Record): Option<Transaction>
  {
    match (r.id, r.description, r.amount, r.category, r.kind, r.date)
    case (Some(JsNumber(id)), Some(JsString(d)), Some(JsNumber(a)), Some(JsString(c)), Some(JsString(k)), Some(JsString(t))) =>
      Some(Transaction(id, d, a, c, k, t))
    case _ => None
  }

  function Typed(rs: seq<Record>): seq<Transaction>
  {
    if rs == [] then []
    else
      var last := AsTransaction(rs[|rs| - 1]);
      Typed(rs[..|rs| - 1]) + (if last.Some? then [last.value] else [])
  }

  /** The transactions the tracker starts with. */
  function Load(saved: Saved): seq<Transaction>
  {
    Typed(LoadRecords(saved))
  }

  /** A transaction that survives the load filter. */
  predicate Loadable(t: Transaction)
  {
    t.id != 0.0 && t.description != [] && t.category != [] && t.kind != [] && t.date != []
  }

  lemma SaveableValid(t: Transaction)
    ensures IsValid(Saveable(t)) <==> Loadable(t)
    ensures AsTransaction(Saveable(t)) == Some(t)
  {
  }

  /** Saving and loading again keeps exactly the transactions that pass the
      filter, in order. */
  lemma {:induction false} SaveThenLoad(ts: seq<Transaction>)
    ensures Load(Save(ts)) == Keep(ts, Loadable)
  {
    if ts != [] {
      var init, last := ts[..|ts| - 1], ts[|ts| - 1];
      SaveThenLoad(init);
      LoadSaveSnoc(init, last);
      assert ts == init + [last];
    }
  }

  /** Saving one more transaction loads it back after the others when it
      passes the filter. */
  lemma LoadSaveSnoc(init: seq<Transaction>, last: Transaction)
    ensures Load(Save(init + [last])) == Load(Save(init)) + (if Loadable(last) then [last] else [])
  {
    var ts := init + [last];
    assert Save(ts).items == Save(init).items + [ObjectItem(Saveable(last))];
    SaveableValid(last);
    NoNullInSave(init);
    KeepValidSnoc(Save(init).items, ObjectItem(Saveable(last)));
    var kept := KeepValid(Save(init).items).value;
    if Loadable(last) {
      assert (kept + [Saveable(last)])[..|kept|] == kept;
    }
  }

  lemma NoNullInSave(ts: seq<Transaction>)
    ensures KeepValid(Save(ts).items).Some?
  {
    KeepValidProperties(Save(ts).items);
  }

  /** Every transaction the tracker keeps is saved and loaded back unchanged. */
  lemma SaveThenLoadKeepsLoadable(ts: seq<Transaction>)
    requires forall i :: 0 <= i < |ts| ==> Loadable(ts[i])
    ensures Load(Save(ts)) == ts
  {
    SaveThenLoad(ts);
    KeepAll(ts, Loadable);
  }

  /** One well-formed record and one without a category load as exactly the
      well-formed one, without failing. */
  lemma MissingCategoryDropped(good: Transaction, bad: Record)
    requires Loadable(good)
    requires bad.category.None?
    ensures Load(SavedArray([ObjectItem(Saveable(good)), ObjectItem(bad)])) == [good]
  {
    var rec := Saveable(good);
    SaveableValid(good);
    KeepValidSnoc([], ObjectItem(rec));
    assert [] + [ObjectItem(rec)] == [ObjectItem(rec)];
    KeepValidSnoc([ObjectItem(rec)], ObjectItem(bad));
    assert [ObjectItem(rec)] + [ObjectItem(bad)] == [ObjectItem(rec), ObjectItem(bad)];
    assert [rec][..0] == [];
    assert Typed([rec]) == [good];
  }
}
