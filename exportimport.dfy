/** What happens when a file written by `exportToCSV` is read back by
    `importFromCSV`, as both are written. Two things go wrong:
    the en-US date cell ("Jan 5, 2024") holds an unquoted comma, so every
    exported row splits into six cells against the header's five and is
    skipped; and `parseCSVLine` drops every double quote, so the `""` escape
    the export writes for a quote in a description never comes back. */
module ExportImport {
  import opened Seqs
  import opened Text
  import opened Csv
  import opened Ledger
  import opened CsvFile

  predicate EvenQuotes(s: string)
  {
    CountChar(s, '"') % 2 == 0
  }

  /** After an even number of quotes the scanner is outside quotes again, so
      the commas of what follows split fields as they would on their own. */
  lemma {:induction false} UnquotedCommasAppend(a: string, b: string)
    requires EvenQuotes(a)
    ensures UnquotedCommas(a + b) == UnquotedCommas(a) + UnquotedCommas(b)
    decreases |b|
  {
    if b == [] {
      assert a + b == a;
    } else {
      var init := b[..|b| - 1];
      assert (a + b)[..|a + b| - 1] == a + init;
      assert (a + b)[|a + b| - 1] == b[|b| - 1];
      UnquotedCommasAppend(a, init);
      CountCharAppend(a, init, '"');
      ParityOfSum(CountChar(a, '"'), CountChar(init, '"'));
    }
  }

  lemma {:induction false} CharIsCounted(s: string, c: char)
    requires c in s
    ensures CountChar(s, c) >= 1
  {
    if s[|s| - 1] != c {
      var init := s[..|s| - 1];
      assert s == init + [s[|s| - 1]];
      CharIsCounted(init, c);
    }
  }

  lemma {:induction false} UnquotedCommasAtMost(s: string)
    ensures UnquotedCommas(s) <= CountChar(s, ',')
  {
    if s != [] {
      UnquotedCommasAtMost(s[..|s| - 1]);
    }
  }

  /** Joining cells whose quotes pair up with commas keeps the quotes paired. */
  lemma {:induction false} JoinEvenQuotes(parts: seq<string>)
    requires forall k :: 0 <= k < |parts| ==> EvenQuotes(parts[k])
    ensures EvenQuotes(Join(parts, ','))
  {
    var n := |parts|;
    if n > 1 {
      var init, last := parts[..n - 1], parts[n - 1];
      JoinEvenQuotes(init);
      var j := Join(init, ',');
      assert Join(parts, ',') == j + [','] + last;
      assert CountChar([','], '"') == 0 by {
        assert [','][..0] == [];
      }
      CountCharAppend(j, [','], '"');
      CountCharAppend(j + [','], last, '"');
      ParityOfSum(CountChar(j, '"'), CountChar(last, '"'));
    }
  }

  /** Joining cells whose quotes pair up: every separator splits, plus the
      splitting commas of the first cell. */
  lemma {:induction false} JoinUnquotedCommas(parts: seq<string>)
    requires |parts| >= 1
    requires forall k :: 0 <= k < |parts| ==> EvenQuotes(parts[k])
    ensures UnquotedCommas(Join(parts, ',')) >= |parts| - 1 + UnquotedCommas(parts[0])
  {
    var n := |parts|;
    if n > 1 {
      var init, last := parts[..n - 1], parts[n - 1];
      JoinUnquotedCommas(init);
      JoinEvenQuotes(init);
      var j := Join(init, ',');
      assert Join(parts, ',') == j + [','] + last;
      assert CountChar([','], '"') == 0 && UnquotedCommas([',']) == 1 by {
        assert [','][..0] == [];
      }
      CountCharAppend(j, [','], '"');
      UnquotedCommasAppend(j, [',']);
      UnquotedCommasAppend(j + [','], last);
      assert init[0] == parts[0];
    }
  }

  lemma QuoteCellEven(description: string)
    ensures EvenQuotes(QuoteCell(description))
  {
    var e := EscapeQuotes(description);
    EscapeQuotesProperties(description);
    CountCharAppend("\"", e, '"');
    CountCharAppend("\"" + e, "\"", '"');
    assert "\""[..0] == [];
  }

  /** The exported row, cell by cell. */
  lemma ExportRowText(t: Transaction, formatDate: string -> string, formatAmount: real -> string)
    ensures ExportRow(t, formatDate, formatAmount)
      == formatDate(t.date) + "," + QuoteCell(t.description) + "," + t.category + ","
         + t.kind + "," + formatAmount(t.amount)
  {
    var f := ExportFields(t, formatDate, formatAmount);
    assert f[..4][..3] == f[..3] && f[..3][..2] == f[..2] && f[..2][..1] == f[..1];
    assert Join(f[..1], ',') == f[0];
    assert Join(f[..2], ',') == f[0] + [','] + f[1];
    assert Join(f[..3], ',') == Join(f[..2], ',') + [','] + f[2];
    assert Join(f[..4], ',') == Join(f[..3], ',') + [','] + f[3];
    assert f == f[..5];
    assert Join(f, ',') == Join(f[..4], ',') + [','] + f[4];
  }

  /** A record whose date cell is shaped like the en-US "Jan 5, 2024": a
      comma, no quote, and no white space at the row's two ends. */
  predicate DateHasComma(t: Transaction, formatDate: string -> string, formatAmount: real -> string)
  {
    var d, a := formatDate(t.date), formatAmount(t.amount);
    && ',' in d && '"' !in d && !IsJsWhitespace(d[0])
    && '"' !in t.category && '"' !in t.kind
    && a != [] && '"' !in a && !IsJsWhitespace(a[|a| - 1])
  }

  /** Such a row reads back as at least six cells. */
  lemma ExportedRowSplitsDate(t: Transaction, formatDate: string -> string, formatAmount: real -> string)
    requires DateHasComma(t, formatDate, formatAmount)
    ensures Trim(ExportRow(t, formatDate, formatAmount)) == ExportRow(t, formatDate, formatAmount)
    ensures |ParseFields(ExportRow(t, formatDate, formatAmount))| >= 6
  {
    var f := ExportFields(t, formatDate, formatAmount);
    var row := ExportRow(t, formatDate, formatAmount);
    ExportRowText(t, formatDate, formatAmount);
    TrimFramed(row);
    NoCharNoCount(f[0], '"');
    QuoteCellEven(t.description);
    NoCharNoCount(f[2], '"');
    NoCharNoCount(f[3], '"');
    NoCharNoCount(f[4], '"');
    JoinUnquotedCommas(f);
    CommasOutsideQuotes(f[0]);
    CharIsCounted(f[0], ',');
    ParseFieldsProperties(row);
  }

  /** As written, importing an exported file adds nothing: its header has
      five cells and every row six or more. */
  lemma ExportThenImportAddsNothing(ts: seq<Transaction>, formatDate: string -> string, formatAmount: real -> string,
                                    idAt: nat -> real, toIso: string -> Option<string>, parseAmount: string -> Option<real>)
    requires ts != []
    requires forall i :: 0 <= i < |ts| ==> SingleLine(ts[i], formatDate, formatAmount)
    requires forall i :: 0 <= i < |ts| ==> DateHasComma(ts[i], formatDate, formatAmount)
    ensures ImportCsv(ExportCsv(ts, formatDate, formatAmount).value, idAt, toIso, parseAmount) == Some([])
  {
    var text := ExportCsv(ts, formatDate, formatAmount).value;
    ExportCsvLines(ts, formatDate, formatAmount);
    HeaderLineCells();
    var lines := Split(text, '\n');
    assert lines[0] == HeaderLine();
    var outcomes := Outcomes(lines, 5, idAt, toIso, parseAmount);
    forall k | 0 <= k < |outcomes| ensures outcomes[k] == Skipped {
      ExportedLineSkipped(ts, k, formatDate, formatAmount, idAt, toIso, parseAmount);
    }
    CollectAllSkipped(outcomes);
  }

  /** The line of the exported file that holds record k, when its date has
      a comma, is skipped. */
  lemma ExportedLineSkipped(ts: seq<Transaction>, k: nat, formatDate: string -> string, formatAmount: real -> string,
                            idAt: nat -> real, toIso: string -> Option<string>, parseAmount: string -> Option<real>)
    requires k < |ts| && DateHasComma(ts[k], formatDate, formatAmount)
    ensures Outcomes([HeaderLine()] + ExportRows(ts, formatDate, formatAmount), 5, idAt, toIso, parseAmount)[k] == Skipped
  {
    var lines := [HeaderLine()] + ExportRows(ts, formatDate, formatAmount);
    assert lines[k + 1] == ExportRow(ts[k], formatDate, formatAmount);
    OutcomeAt(lines, 5, idAt, toIso, parseAmount, k);
    ExportedRowSplitsDate(ts[k], formatDate, formatAmount);
  }

  /** The concrete case: one lunch on 5 January 2024, formatted the en-US
      way, exports to a file whose import adds nothing. */
  lemma LunchIsLost(formatDate: string -> string, formatAmount: real -> string,
                    idAt: nat -> real, toIso: string -> Option<string>, parseAmount: string -> Option<real>)
    requires formatDate("2024-01-05T12:00:00.000Z") == "Jan 5, 2024"
    requires formatAmount(-12.5) == "-12.50"
    ensures var lunch := Transaction(1.0, "Lunch", -12.5, "Food", "expense", "2024-01-05T12:00:00.000Z");
      ImportCsv(ExportCsv([lunch], formatDate, formatAmount).value, idAt, toIso, parseAmount) == Some([])
  {
    var lunch := Transaction(1.0, "Lunch", -12.5, "Food", "expense", "2024-01-05T12:00:00.000Z");
    LunchCells(lunch, formatDate, formatAmount);
    ExportThenImportAddsNothing([lunch], formatDate, formatAmount, idAt, toIso, parseAmount);
  }

  lemma LunchCells(lunch: Transaction, formatDate: string -> string, formatAmount: real -> string)
    requires lunch == Transaction(1.0, "Lunch", -12.5, "Food", "expense", "2024-01-05T12:00:00.000Z")
    requires formatDate(lunch.date) == "Jan 5, 2024"
    requires formatAmount(lunch.amount) == "-12.50"
    ensures SingleLine(lunch, formatDate, formatAmount)
    ensures DateHasComma(lunch, formatDate, formatAmount)
  {
    assert "Jan 5, 2024"[5] == ',';
  }

  /** The quote escape is lost: a quoted description cell without commas
      reads back as one cell with every quote removed, so a description that
      held a quote is never read back as it was. */
  lemma DescriptionQuotesLost(description: string)
    requires ',' !in description
    ensures ParseFields(QuoteCell(description)) == [RemoveQuotes(description)]
    ensures '"' in description ==> RemoveQuotes(description) != description
  {
    var e := EscapeQuotes(description);
    var q := QuoteCell(description);
    EscapeQuotesKeepsOtherChars(description, ',');
    assert ',' !in q;
    NoCharNoCount(q, ',');
    UnquotedCommasAtMost(q);
    ParseFieldsProperties(q);
    EscapeQuotesProperties(description);
    RemoveQuotesAppend("\"", e);
    RemoveQuotesAppend("\"" + e, "\"");
    assert RemoveQuotes("\"") == [] by {
      assert "\""[..0] == [];
    }
    calc {
      RemoveQuotes(q);
      RemoveQuotes("\"" + e) + RemoveQuotes("\"");
      RemoveQuotes("\"") + RemoveQuotes(e);
      RemoveQuotes(description);
    }
    var p := ParseFields(q);
    assert |p| == 1;
    assert p == [p[0]];
    assert Join(p, ',') == p[0];
    if '"' in description {
      KeepMembers(description, NotQuote, '"');
    }
  }

  /** The concrete case: `He said "hi"` comes back as `He said hi`. */
  lemma HeSaidHi()
    ensures ParseFields(QuoteCell("He said \"hi\"")) != ["He said \"hi\""]
  {
    DescriptionQuotesLost("He said \"hi\"");
    assert "He said \"hi\""[8] == '"';
  }
}
