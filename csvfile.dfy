/** The CSV file of the tracker: the text `exportToCSV` builds from the list,
    and what `importFromCSV` reads back from a file's text. Date and amount
    formatting and parsing are parameters: `formatDate` stands for
    `toLocaleDateString` of the stored date, `formatAmount` for `toFixed(2)`,
    `toIso` for `new Date(text).toISOString()` (`None` where it throws on an
    invalid date) and `parseAmount` for `parseFloat` (`None` for NaN). */
module CsvFile {
  import opened Seqs
  import opened Text
  import opened Csv
  import opened Ledger

  const Headers: seq<string> := ["Date", "Description", "Category", "Type", "Amount"]

  /** `headers.join(',')`: `Date,Description,Category,Type,Amount`. */
  function HeaderLine(): string
  {
    Join(Headers, ',')
  }

  /** Reading the header back, as `importFromCSV` does with `split(',')`,
      gives the five column names. */
  lemma HeaderLineCells()
    ensures Split(HeaderLine(), ',') == Headers
    ensures |Split(HeaderLine(), ',')| == 5
    ensures '\n' !in HeaderLine()
  {
    SplitJoin(Headers, ',');
    JoinAvoidsChar(Headers, ',', '\n');
  }

  // ---------------------------------------------------------------------------
  // Export

  /** A cell wrapped in quotes with each inner quote doubled, as the export
      writes the description. */
  function QuoteCell(cell: string): string
  {
    "\"" + EscapeQuotes(cell) + "\""
  }

  /** The five cells of one exported row. */
  function ExportFields(t: Transaction, formatDate: string -> string, formatAmount: real -> string): seq<string>
  {
    [formatDate(t.date), QuoteCell(t.description), t.category, t.kind, formatAmount(t.amount)]
  }

  function ExportRow(t: Transaction, formatDate: string -> string, formatAmount: real -> string): string
  {
    Join(ExportFields(t, formatDate, formatAmount), ',')
  }

  function ExportRows(ts: seq<Transaction>, formatDate: string -> string, formatAmount: real -> string): (r: seq<string>)
    ensures |r| == |ts|
    ensures forall i :: 0 <= i < |ts| ==> r[i] == ExportRow(ts[i], formatDate, formatAmount)
  {
    seq(|ts|, i requires 0 <= i < |ts| => ExportRow(ts[i], formatDate, formatAmount))
  }

  /** The text `exportToCSV` downloads; `None` when the list is empty and
      nothing is exported. */
  function ExportCsv(ts: seq<Transaction>, formatDate: string -> string, formatAmount: real -> string): Option<string>
  {
    if ts == [] then None
    else Some(Join([HeaderLine()] + ExportRows(ts, formatDate, formatAmount), '\n'))
  }

  /** No cell of the record's row holds a line break. */
  predicate SingleLine(t: Transaction, formatDate: string -> string, formatAmount: real -> string)
  {
    && '\n' !in formatDate(t.date) && '\n' !in t.description && '\n' !in t.category
    && '\n' !in t.kind && '\n' !in formatAmount(t.amount)
  }

  lemma {:induction false} EscapeQuotesKeepsOtherChars(s: string, c: char)
    requires c != '"' && c !in s
    ensures c !in EscapeQuotes(s)
  {
    if s != [] {
      assert c !in s[..|s| - 1] by {
        assert forall i :: 0 <= i < |s| - 1 ==> s[..|s| - 1][i] == s[i];
      }
      EscapeQuotesKeepsOtherChars(s[..|s| - 1], c);
    }
  }

  lemma {:induction false} JoinAvoidsChar(parts: seq<string>, sep: char, c: char)
    requires c != sep
    requires forall k :: 0 <= k < |parts| ==> c !in parts[k]
    ensures c !in Join(parts, sep)
  {
    if |parts| > 1 {
      JoinAvoidsChar(parts[..|parts| - 1], sep, c);
    }
  }

  /** Export yields nothing for an empty list; otherwise, splitting the text at
      line breaks gives the header followed by exactly one row per record, in
      list order (when no cell holds a line break). */
  lemma ExportCsvLines(ts: seq<Transaction>, formatDate: string -> string, formatAmount: real -> string)
    requires forall i :: 0 <= i < |ts| ==> SingleLine(ts[i], formatDate, formatAmount)
    ensures ExportCsv(ts, formatDate, formatAmount).None? <==> ts == []
    ensures ts != [] ==>
      Split(ExportCsv(ts, formatDate, formatAmount).value, '\n')
        == [HeaderLine()] + ExportRows(ts, formatDate, formatAmount)
    ensures ts != [] ==> |Split(ExportCsv(ts, formatDate, formatAmount).value, '\n')| == |ts| + 1
  {
    if ts != [] {
      var lines := [HeaderLine()] + ExportRows(ts, formatDate, formatAmount);
      forall k | 0 <= k < |lines| ensures '\n' !in lines[k] {
        if k == 0 {
          HeaderLineCells();
        } else {
          var t := ts[k - 1];
          EscapeQuotesKeepsOtherChars(t.description, '\n');
          var fields := ExportFields(t, formatDate, formatAmount);
          assert '\n' !in fields[1];
          JoinAvoidsChar(fields, ',', '\n');
        }
      }
      SplitJoin(lines, '\n');
    }
  }

  // ---------------------------------------------------------------------------
  // Import

  /** What reading one line does: skip it, accept a record, or throw (an
      invalid date makes `toISOString` throw; a row of one cell makes
      `values[1].replace` throw). */
  datatype RowOutcome = Skipped | Accepted(t: Transaction) | Thrown

  /** `values[k]`, or `undefined` past the end. */
  function Cell(values: seq<string>, k: nat): Option<string>
  {
    if k < |values| then Some(values[k]) else None
  }

  /** A cell that is neither `undefined` nor empty. */
  predicate Filled(cell: Option<string>)
  {
    cell.Some? && cell.value != []
  }

  /** One iteration of the import loop, for line `rawLine` under a header of
      `headerCount` cells; `id` stands for `Date.now() + Math.random()`. */
  function ImportRow(rawLine: string, headerCount: nat, id: real,
                     toIso: string -> Option<string>, parseAmount: string -> Option<real>): RowOutcome
  {
    var line := Trim(rawLine);
    if line == [] then Skipped
    else
      var values := ParseFields(line);
      if |values| != headerCount then Skipped
      else match toIso(values[0])
        case None => Thrown
        case Some(date) =>
          if |values| < 2 then Thrown
          else
            var description := StripOuterQuotes(values[1]);
            var category := Cell(values, 2);
            var kind := Cell(values, 3);
            var amount := if |values| > 4 then parseAmount(values[4]) else None;
            if description != [] && amount.Some? && Filled(category) && Filled(kind) then
              Accepted(Transaction(id, description, amount.value, category.value, kind.value, date))
            else Skipped
  }

  /** The outcomes of lines 1 .. |lines|-1, in file order; line i gets id `idAt(i)`. */
  function Outcomes(lines: seq<string>, headerCount: nat, idAt: nat -> real,
                    toIso: string -> Option<string>, parseAmount: string -> Option<real>): (r: seq<RowOutcome>)
    requires |lines| >= 1
    ensures |r| == |lines| - 1
    decreases |lines|
  {
    if |lines| == 1 then []
    else
      var n := |lines| - 1;
      Outcomes(lines[..n], headerCount, idAt, toIso, parseAmount) + [ImportRow(lines[n], headerCount, idAt(n), toIso, parseAmount)]
  }

  /** Outcome k is that of line k + 1. */
  lemma {:induction false} OutcomeAt(lines: seq<string>, headerCount: nat, idAt: nat -> real,
                                     toIso: string -> Option<string>, parseAmount: string -> Option<real>, k: nat)
    requires k + 1 < |lines|
    ensures Outcomes(lines, headerCount, idAt, toIso, parseAmount)[k]
      == ImportRow(lines[k + 1], headerCount, idAt(k + 1), toIso, parseAmount)
    decreases |lines|
  {
    var n := |lines| - 1;
    if k + 1 < n {
      OutcomeAt(lines[..n], headerCount, idAt, toIso, parseAmount, k);
    }
  }

  /** What the loop has collected in `imported` after the given outcomes;
      `None` once a line has thrown. */
  function Collect(outcomes: seq<RowOutcome>): Option<seq<Transaction>>
  {
    if outcomes == [] then Some([])
    else match Collect(outcomes[..|outcomes| - 1])
      case None => None
      case Some(acc) =>
        match outcomes[|outcomes| - 1]
        case Thrown => None
        case Skipped => Some(acc)
        case Accepted(t) => Some(acc + [t])
  }

  /** The records `importFromCSV` appends for `csvContent`, or `None` when it
      throws and appends nothing. The header's cell count comes from
      `split(',')` of the first line. */
  function ImportCsv(csvContent: string, idAt: nat -> real,
                     toIso: string -> Option<string>, parseAmount: string -> Option<real>): Option<seq<Transaction>>
  {
    var lines := Split(csvContent, '\n');
    Collect(Outcomes(lines, |Split(lines[0], ',')|, idAt, toIso, parseAmount))
  }

  /** One more outcome: the import fails if it throws, and otherwise keeps
      what it had, plus the record when the line is accepted. */
  lemma CollectNext(outcomes: seq<RowOutcome>, k: nat)
    requires k < |outcomes|
    ensures var before, after := Collect(outcomes[..k]), Collect(outcomes[..k + 1]);
      && (before.None? || outcomes[k].Thrown? ==> after.None?)
      && (before.Some? && outcomes[k].Skipped? ==> after == before)
      && (before.Some? && outcomes[k].Accepted? ==> after == Some(before.value + [outcomes[k].t]))
  {
    assert outcomes[..k + 1][..k] == outcomes[..k];
  }

  /** The import fails exactly when some line throws. */
  lemma {:induction false} CollectFailsIff(outcomes: seq<RowOutcome>)
    ensures Collect(outcomes).None? <==> Thrown in outcomes
  {
    if outcomes != [] {
      var init := outcomes[..|outcomes| - 1];
      CollectFailsIff(init);
      assert outcomes == init + [outcomes[|outcomes| - 1]];
    }
  }

  /** The collected records are exactly the accepted ones, at most one per line. */
  lemma {:induction false} CollectAccepted(outcomes: seq<RowOutcome>)
    requires Collect(outcomes).Some?
    ensures |Collect(outcomes).value| <= |outcomes|
    ensures forall t :: t in Collect(outcomes).value <==> Accepted(t) in outcomes
  {
    if outcomes != [] {
      var init := outcomes[..|outcomes| - 1];
      CollectAccepted(init);
      assert outcomes == init + [outcomes[|outcomes| - 1]];
    }
  }

  /** Each record is collected once for every line accepted with it. */
  lemma {:induction false} CollectCounts(outcomes: seq<RowOutcome>, t: Transaction)
    requires Collect(outcomes).Some?
    ensures multiset(Collect(outcomes).value)[t] == multiset(outcomes)[Accepted(t)]
  {
    if outcomes != [] {
      var init, last := outcomes[..|outcomes| - 1], outcomes[|outcomes| - 1];
      CollectCounts(init, t);
      assert outcomes == init + [last];
      if last.Accepted? {
        assert Collect(outcomes).value == Collect(init).value + [last.t];
      } else {
        assert Collect(outcomes).value == Collect(init).value;
      }
    }
  }

  /** How one line is handled: blank lines and lines whose cell count differs
      from the header's are skipped; a counted line throws when its date is
      invalid or it has a single cell; a counted line with a readable date,
      non-empty description, category and type cells and a readable amount is
      accepted, and an accepted record carries exactly those cells, none
      holding a quote. */
  lemma ImportRowCases(rawLine: string, headerCount: nat, id: real,
                       toIso: string -> Option<string>, parseAmount: string -> Option<real>)
    ensures IsBlank(rawLine) ==> ImportRow(rawLine, headerCount, id, toIso, parseAmount) == Skipped
    ensures !IsBlank(rawLine) && |ParseFields(Trim(rawLine))| != headerCount ==>
      ImportRow(rawLine, headerCount, id, toIso, parseAmount) == Skipped
    ensures ImportRow(rawLine, headerCount, id, toIso, parseAmount) == Thrown <==>
      !IsBlank(rawLine) && |ParseFields(Trim(rawLine))| == headerCount
      && (toIso(ParseFields(Trim(rawLine))[0]).None? || headerCount < 2)
    ensures ImportRow(rawLine, headerCount, id, toIso, parseAmount).Accepted? ==>
      var values := ParseFields(Trim(rawLine));
      var t := ImportRow(rawLine, headerCount, id, toIso, parseAmount).t;
      && !IsBlank(rawLine) && |values| == headerCount && headerCount >= 5
      && Some(t.date) == toIso(values[0])
      && t.description == values[1] && t.description != [] && '"' !in t.description
      && t.category == values[2] && t.category != [] && '"' !in t.category
      && t.kind == values[3] && t.kind != [] && '"' !in t.kind
      && Some(t.amount) == parseAmount(values[4])
      && t.id == id
    ensures var values := ParseFields(Trim(rawLine));
      !IsBlank(rawLine) && |values| == headerCount && headerCount >= 5
      && toIso(values[0]).Some? && values[1] != [] && values[2] != [] && values[3] != []
      && parseAmount(values[4]).Some? ==>
        ImportRow(rawLine, headerCount, id, toIso, parseAmount)
          == Accepted(Transaction(id, values[1], parseAmount(values[4]).value, values[2], values[3],
                                  toIso(values[0]).value))
  {
    TrimEmptyIffBlank(rawLine);
    var line := Trim(rawLine);
    if line != [] {
      ParseFieldsProperties(line);
    }
  }

  /** Some outcome is `Thrown` exactly when some line after the header throws. */
  lemma OutcomesThrown(lines: seq<string>, hc: nat, idAt: nat -> real,
                       toIso: string -> Option<string>, parseAmount: string -> Option<real>)
    requires |lines| >= 1
    ensures Thrown in Outcomes(lines, hc, idAt, toIso, parseAmount) <==>
      exists i :: 1 <= i < |lines| && ImportRow(lines[i], hc, idAt(i), toIso, parseAmount) == Thrown
  {
    var outcomes := Outcomes(lines, hc, idAt, toIso, parseAmount);
    if Thrown in outcomes {
      var k :| 0 <= k < |outcomes| && outcomes[k] == Thrown;
      OutcomeAt(lines, hc, idAt, toIso, parseAmount, k);
      assert 1 <= k + 1 < |lines| && ImportRow(lines[k + 1], hc, idAt(k + 1), toIso, parseAmount) == Thrown;
    } else {
      forall i | 1 <= i < |lines| ensures ImportRow(lines[i], hc, idAt(i), toIso, parseAmount) != Thrown {
        OutcomeAt(lines, hc, idAt, toIso, parseAmount, i - 1);
        assert outcomes[i - 1] != Thrown;
      }
    }
  }

  /** A line that throws leaves the list unchanged, whatever the other lines hold. */
  lemma ImportFailsIff(csvContent: string, idAt: nat -> real,
                       toIso: string -> Option<string>, parseAmount: string -> Option<real>)
    ensures var lines := Split(csvContent, '\n');
      ImportCsv(csvContent, idAt, toIso, parseAmount).None? <==>
        exists i :: 1 <= i < |lines| &&
          ImportRow(lines[i], |Split(lines[0], ',')|, idAt(i), toIso, parseAmount) == Thrown
  {
    var lines := Split(csvContent, '\n');
    var hc := |Split(lines[0], ',')|;
    CollectFailsIff(Outcomes(lines, hc, idAt, toIso, parseAmount));
    OutcomesThrown(lines, hc, idAt, toIso, parseAmount);
  }

  /** Every record the import appends comes from a line of the file that was
      accepted, so it has a non-empty description, category and type without
      quotes; there are at most as many as lines after the header. */
  lemma ImportedRecordsValid(csvContent: string, idAt: nat -> real,
                             toIso: string -> Option<string>, parseAmount: string -> Option<real>)
    requires ImportCsv(csvContent, idAt, toIso, parseAmount).Some?
    ensures var rows := ImportCsv(csvContent, idAt, toIso, parseAmount).value;
      && |rows| < |Split(csvContent, '\n')|
      && forall k :: 0 <= k < |rows| ==>
        && rows[k].description != [] && '"' !in rows[k].description
        && rows[k].category != [] && '"' !in rows[k].category
        && rows[k].kind != [] && '"' !in rows[k].kind
  {
    var lines := Split(csvContent, '\n');
    var hc := |Split(lines[0], ',')|;
    var outcomes := Outcomes(lines, hc, idAt, toIso, parseAmount);
    var rows := Collect(outcomes).value;
    CollectAccepted(outcomes);
    forall k | 0 <= k < |rows|
      ensures && rows[k].description != [] && '"' !in rows[k].description
              && rows[k].category != [] && '"' !in rows[k].category
              && rows[k].kind != [] && '"' !in rows[k].kind
    {
      assert rows[k] in rows;
      var j :| 0 <= j < |outcomes| && outcomes[j] == Accepted(rows[k]);
      OutcomeAt(lines, hc, idAt, toIso, parseAmount, j);
      ImportRowCases(lines[j + 1], hc, idAt(j + 1), toIso, parseAmount);
    }
  }

  /** When every line after the header is skipped, the import succeeds and adds nothing. */
  lemma {:induction false} CollectAllSkipped(outcomes: seq<RowOutcome>)
    requires forall i :: 0 <= i < |outcomes| ==> outcomes[i] == Skipped
    ensures Collect(outcomes) == Some([])
  {
    if outcomes != [] {
      CollectAllSkipped(outcomes[..|outcomes| - 1]);
    }
  }

  /** A single line after the header with an unreadable date, among rows
      whose cell count matches the header, leaves the list unchanged. */
  lemma UnreadableDateAbortsImport(csvContent: string, i: nat, idAt: nat -> real,
                                   toIso: string -> Option<string>, parseAmount: string -> Option<real>)
    requires 1 <= i < |Split(csvContent, '\n')|
    requires var line := Trim(Split(csvContent, '\n')[i]);
      && line != []
      && |ParseFields(line)| == |Split(Split(csvContent, '\n')[0], ',')|
      && toIso(ParseFields(line)[0]).None?
    ensures ImportCsv(csvContent, idAt, toIso, parseAmount).None?
  {
    var lines := Split(csvContent, '\n');
    var hc := |Split(lines[0], ',')|;
    TrimEmptyIffBlank(lines[i]);
    ImportRowCases(lines[i], hc, idAt(i), toIso, parseAmount);
    ImportFailsIff(csvContent, idAt, toIso, parseAmount);
  }
}
