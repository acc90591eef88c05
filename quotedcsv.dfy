/** The CSV file as evidently intended: every cell is written quoted with its
    inner quotes doubled (section 2, rules 5 to 7, of RFC 4180), and the reader
    turns a doubled quote inside a quoted cell back into one quote. With this
    pair, importing an exported file gives back every record, in order, with
    its description, category and type; its date and amount come back as the
    import reads their exported text (a calendar date without time of day,
    an amount to two decimals), and the ids are fresh. */
module QuotedCsv {
  import opened Seqs
  import opened Text
  import opened Ledger
  import opened CsvFile

  /** Where the reader stands: outside quotes, inside a quoted cell, or just
      after a quote inside one (which either closes the cell or, followed by
      a second quote, stands for a literal quote). */
  datatype Mode = Unquoted | Quoted | QuoteSeen

  datatype Cursor = Cursor(fields: seq<string>, current: string, mode: Mode)

  const Begin := Cursor([], [], Unquoted)

  function Advance(st: Cursor, c: char): Cursor
  {
    match st.mode
    case Unquoted =>
      if c == '"' then st.(mode := Quoted)
      else if c == ',' then Cursor(st.fields + [st.current], [], Unquoted)
      else st.(current := st.current + [c])
    case Quoted =>
      if c == '"' then st.(mode := QuoteSeen) else st.(current := st.current + [c])
    case QuoteSeen =>
      if c == '"' then Cursor(st.fields, st.current + ['"'], Quoted)
      else if c == ',' then Cursor(st.fields + [st.current], [], Unquoted)
      else Cursor(st.fields, st.current + [c], Unquoted)
  }

  function Read(st: Cursor, s: string): Cursor
    decreases |s|
  {
    if s == [] then st else Read(Advance(st, s[0]), s[1..])
  }

  /** The cells of one line. */
  function ParseRow(line: string): seq<string>
  {
    var st := Read(Begin, line);
    st.fields + [st.current]
  }

  function EncodeRow(cells: seq<string>): string
  {
    Join(seq(|cells|, i requires 0 <= i < |cells| => QuoteCell(cells[i])), ',')
  }

  lemma {:induction false} ReadAppend(st: Cursor, a: string, b: string)
    ensures Read(st, a + b) == Read(Read(st, a), b)
    decreases |a|
  {
    if a == [] {
      assert a + b == b;
    } else {
      assert (a + b)[0] == a[0] && (a + b)[1..] == a[1..] + b;
      ReadAppend(Advance(st, a[0]), a[1..], b);
    }
  }

  /** Inside a quoted cell, the escaped text reads back as the text itself. */
  lemma {:induction false} ReadEscaped(fields: seq<string>, current: string, cell: string)
    ensures Read(Cursor(fields, current, Quoted), EscapeQuotes(cell)) == Cursor(fields, current + cell, Quoted)
  {
    if cell == [] {
      assert current + cell == current;
    } else {
      var init, c := cell[..|cell| - 1], cell[|cell| - 1];
      var piece: string := if c == '"' then "\"\"" else [c];
      ReadAppend(Cursor(fields, current, Quoted), EscapeQuotes(init), piece);
      ReadEscaped(fields, current, init);
      assert current + cell == current + init + [c];
      var mid := Cursor(fields, current + init, Quoted);
      if c == '"' {
        assert piece[0] == '"' && piece[1..] == "\"" && "\""[1..] == [];
        assert Read(mid, piece) == Read(Cursor(fields, current + init, QuoteSeen), "\"");
        assert Read(mid, piece) == Cursor(fields, current + init + ['"'], Quoted);
      } else {
        assert piece[1..] == [];
        assert Read(mid, piece) == Cursor(fields, current + init + [c], Quoted);
      }
    }
  }

  /** Starting a cell, a quoted cell reads back as its text, waiting after the closing quote. */
  lemma ReadQuotedCell(fields: seq<string>, cell: string)
    ensures Read(Cursor(fields, [], Unquoted), QuoteCell(cell)) == Cursor(fields, cell, QuoteSeen)
  {
    var e := EscapeQuotes(cell);
    ReadAppend(Cursor(fields, [], Unquoted), "\"", e);
    ReadAppend(Cursor(fields, [], Unquoted), "\"" + e, "\"");
    assert "\""[1..] == [];
    ReadEscaped(fields, [], cell);
    assert [] + cell == cell;
  }

  lemma {:induction false} ReadRow(cells: seq<string>)
    requires |cells| >= 1
    ensures Read(Begin, EncodeRow(cells)) == Cursor(cells[..|cells| - 1], cells[|cells| - 1], QuoteSeen)
  {
    var n := |cells|;
    var quoted := seq(n, i requires 0 <= i < n => QuoteCell(cells[i]));
    if n == 1 {
      ReadQuotedCell([], cells[0]);
      assert cells[..0] == [];
    } else {
      var init := cells[..n - 1];
      assert quoted[..n - 1] == seq(n - 1, i requires 0 <= i < n - 1 => QuoteCell(init[i]));
      ReadRow(init);
      var front := EncodeRow(init);
      assert EncodeRow(cells) == front + [','] + QuoteCell(cells[n - 1]);
      ReadAppend(Begin, front + [','], QuoteCell(cells[n - 1]));
      ReadAppend(Begin, front, [',']);
      assert [','][1..] == [];
      assert init[..n - 2] + [init[n - 2]] == cells[..n - 1];
      ReadQuotedCell(cells[..n - 1], cells[n - 1]);
    }
  }

  /** Reading a written row gives back its cells, whatever they hold. */
  lemma RowRoundTrip(cells: seq<string>)
    requires |cells| >= 1
    ensures ParseRow(EncodeRow(cells)) == cells
  {
    ReadRow(cells);
    assert cells[..|cells| - 1] + [cells[|cells| - 1]] == cells;
  }

  /** A written row starts and ends with a quote, and holds a line break only
      where a cell does. */
  lemma EncodeRowShape(cells: seq<string>)
    requires |cells| >= 1
    requires forall k :: 0 <= k < |cells| ==> '\n' !in cells[k]
    ensures var row := EncodeRow(cells);
      row != [] && row[0] == '"' && row[|row| - 1] == '"' && '\n' !in row
  {
    var n := |cells|;
    var quoted := seq(n, i requires 0 <= i < n => QuoteCell(cells[i]));
    forall k | 0 <= k < n ensures '\n' !in quoted[k] {
      EscapeQuotesKeepsOtherChars(cells[k], '\n');
    }
    JoinAvoidsChar(quoted, ',', '\n');
    JoinEnds(quoted);
  }

  lemma {:induction false} JoinEnds(parts: seq<string>)
    requires |parts| >= 1
    requires forall k :: 0 <= k < |parts| ==> parts[k] != [] && parts[k][0] == '"' && parts[k][|parts[k]| - 1] == '"'
    ensures var j := Join(parts, ',');
      j != [] && j[0] == '"' && j[|j| - 1] == '"'
  {
    if |parts| > 1 {
      JoinEnds(parts[..|parts| - 1]);
    }
  }

  // ---------------------------------------------------------------------------
  // Export and import with quoted cells

  /** The five cells of a record, before quoting. */
  function Cells(t: Transaction, formatDate: string -> string, formatAmount: real -> string): seq<string>
  {
    [formatDate(t.date), t.description, t.category, t.kind, formatAmount(t.amount)]
  }

  /** The data lines of the corrected export, one per record. */
  function QuotedRows(ts: seq<Transaction>, formatDate: string -> string, formatAmount: real -> string): (r: seq<string>)
    ensures |r| == |ts|
    ensures forall i :: 0 <= i < |ts| ==> r[i] == EncodeRow(Cells(ts[i], formatDate, formatAmount))
  {
    seq(|ts|, i requires 0 <= i < |ts| => EncodeRow(Cells(ts[i], formatDate, formatAmount)))
  }

  function ExportQuoted(ts: seq<Transaction>, formatDate: string -> string, formatAmount: real -> string): Option<string>
  {
    if ts == [] then None
    else Some(Join([HeaderLine()] + QuotedRows(ts, formatDate, formatAmount), '\n'))
  }

  /** The corrected export reads back as its header line and one line per
      record, when no cell holds a line break. */
  lemma ExportQuotedLines(ts: seq<Transaction>, formatDate: string -> string, formatAmount: real -> string)
    requires ts != []
    requires forall i :: 0 <= i < |ts| ==> SingleLine(ts[i], formatDate, formatAmount)
    ensures Split(ExportQuoted(ts, formatDate, formatAmount).value, '\n')
      == [HeaderLine()] + QuotedRows(ts, formatDate, formatAmount)
  {
    var lines := [HeaderLine()] + QuotedRows(ts, formatDate, formatAmount);
    HeaderLineCells();
    QuotedRowsSingleLine(ts, formatDate, formatAmount);
    assert forall k :: 0 <= k < |lines| ==> '\n' !in lines[k];
    SplitJoin(lines, '\n');
  }

  /** No written row holds a line break when no cell does. */
  lemma QuotedRowsSingleLine(ts: seq<Transaction>, formatDate: string -> string, formatAmount: real -> string)
    requires forall i :: 0 <= i < |ts| ==> SingleLine(ts[i], formatDate, formatAmount)
    ensures forall i :: 0 <= i < |ts| ==> '\n' !in QuotedRows(ts, formatDate, formatAmount)[i]
  {
    forall i | 0 <= i < |ts| ensures '\n' !in QuotedRows(ts, formatDate, formatAmount)[i] {
      EncodeRowShape(Cells(ts[i], formatDate, formatAmount));
    }
  }

  /** One line of the import with the quote-aware reader; the reader has
      already removed the enclosing quotes, so the description is taken as read. */
  function ImportRowQuoted(rawLine: string, headerCount: nat, id: real,
                           toIso: string -> Option<string>, parseAmount: string -> Option<real>): RowOutcome
  {
    var line := Trim(rawLine);
    if line == [] then Skipped
    else
      var values := ParseRow(line);
      if |values| != headerCount then Skipped
      else match toIso(values[0])
        case None => Thrown
        case Some(date) =>
          if |values| < 2 then Thrown
          else
            var category := Cell(values, 2);
            var kind := Cell(values, 3);
            var amount := if |values| > 4 then parseAmount(values[4]) else None;
            if values[1] != [] && amount.Some? && Filled(category) && Filled(kind) then
              Accepted(Transaction(id, values[1], amount.value, category.value, kind.value, date))
            else Skipped
  }

  function OutcomesQuoted(lines: seq<string>, headerCount: nat, idAt: nat -> real,
                          toIso: string -> Option<string>, parseAmount: string -> Option<real>): (r: seq<RowOutcome>)
    requires |lines| >= 1
    ensures |r| == |lines| - 1
    decreases |lines|
  {
    if |lines| == 1 then []
    else
      var n := |lines| - 1;
      OutcomesQuoted(lines[..n], headerCount, idAt, toIso, parseAmount) + [ImportRowQuoted(lines[n], headerCount, idAt(n), toIso, parseAmount)]
  }

  lemma {:induction false} OutcomeQuotedAt(lines: seq<string>, headerCount: nat, idAt: nat -> real,
                                           toIso: string -> Option<string>, parseAmount: string -> Option<real>, k: nat)
    requires k + 1 < |lines|
    ensures OutcomesQuoted(lines, headerCount, idAt, toIso, parseAmount)[k]
      == ImportRowQuoted(lines[k + 1], headerCount, idAt(k + 1), toIso, parseAmount)
    decreases |lines|
  {
    var n := |lines| - 1;
    if k + 1 < n {
      OutcomeQuotedAt(lines[..n], headerCount, idAt, toIso, parseAmount, k);
    }
  }

  /** The import loop with the quote-aware reader. */
  function ImportQuoted(csvContent: string, idAt: nat -> real,
                        toIso: string -> Option<string>, parseAmount: string -> Option<real>): Option<seq<Transaction>>
  {
    var lines := Split(csvContent, '\n');
    Collect(OutcomesQuoted(lines, |Split(lines[0], ',')|, idAt, toIso, parseAmount))
  }

  /** A record the corrected pair carries over: cells on one line, the fields
      the import insists on present, and a date and an amount that the
      import's parsers can read back from their exported form. */
  predicate Portable(t: Transaction, formatDate: string -> string, formatAmount: real -> string,
                     toIso: string -> Option<string>, parseAmount: string -> Option<real>)
  {
    && SingleLine(t, formatDate, formatAmount)
    && t.description != [] && t.category != [] && t.kind != []
    && toIso(formatDate(t.date)).Some?
    && parseAmount(formatAmount(t.amount)).Some?
  }

  /** The record as the import reads it back under a new id: description,
      category and type as they were, the date as the ISO text of the
      exported calendar date, and the amount as read from its two-decimal
      text. */
  function ReadBack(t: Transaction, id: real, formatDate: string -> string, formatAmount: real -> string,
                    toIso: string -> Option<string>, parseAmount: string -> Option<real>): (r: Transaction)
    requires Portable(t, formatDate, formatAmount, toIso, parseAmount)
    ensures r.description == t.description && r.category == t.category && r.kind == t.kind
    ensures r.id == id
    ensures Some(r.date) == toIso(formatDate(t.date)) && Some(r.amount) == parseAmount(formatAmount(t.amount))
  {
    t.(id := id, date := toIso(formatDate(t.date)).value, amount := parseAmount(formatAmount(t.amount)).value)
  }

  /** Where the exported date and amount read back as they were stored, the
      record comes back unchanged but for its id. */
  lemma ReadBackExact(t: Transaction, id: real, formatDate: string -> string, formatAmount: real -> string,
                      toIso: string -> Option<string>, parseAmount: string -> Option<real>)
    requires Portable(t, formatDate, formatAmount, toIso, parseAmount)
    requires toIso(formatDate(t.date)) == Some(t.date) && parseAmount(formatAmount(t.amount)) == Some(t.amount)
    ensures ReadBack(t, id, formatDate, formatAmount, toIso, parseAmount) == t.(id := id)
  {
  }

  /** The list as re-imported: each record read back under the id of its line. */
  function Reimported(ts: seq<Transaction>, idAt: nat -> real, formatDate: string -> string, formatAmount: real -> string,
                      toIso: string -> Option<string>, parseAmount: string -> Option<real>): (r: seq<Transaction>)
    requires forall i :: 0 <= i < |ts| ==> Portable(ts[i], formatDate, formatAmount, toIso, parseAmount)
    ensures |r| == |ts|
    ensures forall i :: 0 <= i < |ts| ==> r[i] == ReadBack(ts[i], idAt(i + 1), formatDate, formatAmount, toIso, parseAmount)
  {
    seq(|ts|, i requires 0 <= i < |ts| => ReadBack(ts[i], idAt(i + 1), formatDate, formatAmount, toIso, parseAmount))
  }

  lemma QuotedRowAccepted(t: Transaction, id: real, formatDate: string -> string, formatAmount: real -> string,
                          toIso: string -> Option<string>, parseAmount: string -> Option<real>)
    requires Portable(t, formatDate, formatAmount, toIso, parseAmount)
    ensures ImportRowQuoted(EncodeRow(Cells(t, formatDate, formatAmount)), 5, id, toIso, parseAmount)
      == Accepted(ReadBack(t, id, formatDate, formatAmount, toIso, parseAmount))
  {
    var cells := Cells(t, formatDate, formatAmount);
    var row := EncodeRow(cells);
    EncodeRowShape(cells);
    TrimFramed(row);
    RowRoundTrip(cells);
  }

  /** The line of the corrected export that holds a portable record k is
      accepted, read back under id idAt(k + 1). */
  lemma QuotedLineAccepted(ts: seq<Transaction>, k: nat, formatDate: string -> string, formatAmount: real -> string,
                           idAt: nat -> real, toIso: string -> Option<string>, parseAmount: string -> Option<real>)
    requires k < |ts| && Portable(ts[k], formatDate, formatAmount, toIso, parseAmount)
    ensures OutcomesQuoted([HeaderLine()] + QuotedRows(ts, formatDate, formatAmount), 5, idAt, toIso, parseAmount)[k]
      == Accepted(ReadBack(ts[k], idAt(k + 1), formatDate, formatAmount, toIso, parseAmount))
  {
    var lines := [HeaderLine()] + QuotedRows(ts, formatDate, formatAmount);
    assert lines[k + 1] == EncodeRow(Cells(ts[k], formatDate, formatAmount));
    OutcomeQuotedAt(lines, 5, idAt, toIso, parseAmount, k);
    QuotedRowAccepted(ts[k], idAt(k + 1), formatDate, formatAmount, toIso, parseAmount);
  }

  /** When every outcome accepts, the import collects exactly the accepted records, in order. */
  lemma {:induction false} CollectAllAccepted(rs: seq<Transaction>, outcomes: seq<RowOutcome>)
    requires |outcomes| == |rs|
    requires forall k :: 0 <= k < |rs| ==> outcomes[k] == Accepted(rs[k])
    ensures Collect(outcomes) == Some(rs)
  {
    if rs != [] {
      var n := |rs|;
      CollectAllAccepted(rs[..n - 1], outcomes[..n - 1]);
      assert rs == rs[..n - 1] + [rs[n - 1]];
    }
  }

  /** Importing an exported file gives back the exported records in order,
      each under the id of its line, with its description, category and type
      unchanged and its date and amount as read back from their exported
      text (the calendar date without its time of day, the amount to two
      decimals). */
  lemma ExportImportRoundTrip(ts: seq<Transaction>, formatDate: string -> string, formatAmount: real -> string,
                              idAt: nat -> real, toIso: string -> Option<string>, parseAmount: string -> Option<real>)
    requires ts != []
    requires forall i :: 0 <= i < |ts| ==> Portable(ts[i], formatDate, formatAmount, toIso, parseAmount)
    ensures ImportQuoted(ExportQuoted(ts, formatDate, formatAmount).value, idAt, toIso, parseAmount)
      == Some(Reimported(ts, idAt, formatDate, formatAmount, toIso, parseAmount))
  {
    var rows := QuotedRows(ts, formatDate, formatAmount);
    var lines := [HeaderLine()] + rows;
    var rs := Reimported(ts, idAt, formatDate, formatAmount, toIso, parseAmount);
    forall i | 0 <= i < |ts| ensures SingleLine(ts[i], formatDate, formatAmount) {
    }
    ExportQuotedLines(ts, formatDate, formatAmount);
    HeaderLineCells();
    var outcomes := OutcomesQuoted(lines, 5, idAt, toIso, parseAmount);
    forall k | 0 <= k < |ts| ensures outcomes[k] == Accepted(rs[k]) {
      QuotedLineAccepted(ts, k, formatDate, formatAmount, idAt, toIso, parseAmount);
      assert rs[k] == ReadBack(ts[k], idAt(k + 1), formatDate, formatAmount, toIso, parseAmount);
    }
    CollectAllAccepted(rs, outcomes);
  }
}
