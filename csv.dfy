/** `parseCSVLine`: the tracker's quote-aware splitter for one CSV line. It is a
    two-state scanner: a double quote flips the "inside quotes" flag and is
    dropped, a comma outside quotes ends the current field, and every other
    character is appended to the current field. */
module Csv {
  import opened Seqs
  import opened Text

  /** The scanner's variables after some prefix of the line: the fields already
      pushed to `result`, the text of `current`, and `inQuotes`. */
  datatype ScanState = ScanState(fields: seq<string>, current: string, inQuotes: bool)

  const Start := ScanState([], [], false)

  /** One iteration of the scanning loop. */
  function Step(st: ScanState, c: char): ScanState
  {
    if c == '"' then st.(inQuotes := !st.inQuotes)
    else if c == ',' && !st.inQuotes then ScanState(st.fields + [st.current], [], st.inQuotes)
    else st.(current := st.current + [c])
  }

  /** The scanner's state after reading all of `line`, left to right. */
  function Scan(line: string): ScanState
  {
    if line == [] then Start else Step(Scan(line[..|line| - 1]), line[|line| - 1])
  }

  /** The fields `parseCSVLine` returns: the pushed fields and the final `current`. */
  function ParseFields(line: string): seq<string>
  {
    Scan(line).fields + [Scan(line).current]
  }

  /** A comma at position i splits fields when an even number of quotes precede it. */
  function UnquotedCommas(line: string): nat
  {
    if line == [] then 0
    else
      var init := line[..|line| - 1];
      UnquotedCommas(init) + (if line[|line| - 1] == ',' && CountChar(init, '"') % 2 == 0 then 1 else 0)
  }

  predicate QuoteFree(fields: seq<string>)
  {
    forall k :: 0 <= k < |fields| ==> '"' !in fields[k]
  }

  /** What the scanner keeps true about its variables after each prefix. */
  lemma ScanInvariant(line: string)
    ensures Join(Scan(line).fields + [Scan(line).current], ',') == RemoveQuotes(line)
    ensures QuoteFree(Scan(line).fields + [Scan(line).current])
    ensures Scan(line).inQuotes <==> CountChar(line, '"') % 2 == 1
    ensures |Scan(line).fields| == UnquotedCommas(line)
  {
    ScanText(line);
    ScanQuoteParity(line);
    ScanFieldCount(line);
  }

  /** The fields read so far, joined with commas, are the text read so far
      without its quotes. */
  lemma {:induction false} ScanText(line: string)
    ensures Join(Scan(line).fields + [Scan(line).current], ',') == RemoveQuotes(line)
    ensures QuoteFree(Scan(line).fields + [Scan(line).current])
  {
    if line != [] {
      var init, c := line[..|line| - 1], line[|line| - 1];
      ScanText(init);
      assert line == init + [c];
      RemoveQuotesAppend(init, [c]);
      ScanTextStep(Scan(init), c);
    }
  }

  /** One step of the scanner appends to the joined fields what removing
      quotes keeps of the character read. */
  lemma ScanTextStep(st: ScanState, c: char)
    requires QuoteFree(st.fields + [st.current])
    ensures var parts, after := st.fields + [st.current], Step(st, c);
      && Join(after.fields + [after.current], ',') == Join(parts, ',') + RemoveQuotes([c])
      && QuoteFree(after.fields + [after.current])
  {
    var parts := st.fields + [st.current];
    assert [c][..0] == [];
    if c == '"' {
      assert RemoveQuotes([c]) == [];
    } else if c == ',' && !st.inQuotes {
      assert RemoveQuotes([c]) == [c];
      assert (parts + [[]])[..|parts|] == parts;
    } else {
      assert RemoveQuotes([c]) == [c];
      JoinExtendLast(parts, ',', c);
      assert parts[..|parts| - 1] == st.fields;
    }
  }

  /** The scanner is inside quotes after an odd number of quotes. */
  lemma {:induction false} ScanQuoteParity(line: string)
    ensures Scan(line).inQuotes <==> CountChar(line, '"') % 2 == 1
  {
    if line != [] {
      var init, c := line[..|line| - 1], line[|line| - 1];
      ScanQuoteParity(init);
      ParityOfSum(CountChar(init, '"'), if c == '"' then 1 else 0);
    }
  }

  /** One field is pushed per comma read outside quotes. */
  lemma {:induction false} ScanFieldCount(line: string)
    ensures |Scan(line).fields| == UnquotedCommas(line)
  {
    if line != [] {
      var init := line[..|line| - 1];
      ScanFieldCount(init);
      ScanQuoteParity(init);
    }
  }

  /** `parseCSVLine` returns at least one field, no field holds a quote, and
      joining the fields with commas gives the line with its quotes removed;
      the number of fields is one more than the number of commas outside
      quotes. Where the splits fall is stated by UnquotedCommaSplits and
      QuotedCommaKeepsField. */
  lemma ParseFieldsProperties(line: string)
    ensures |ParseFields(line)| >= 1
    ensures QuoteFree(ParseFields(line))
    ensures Join(ParseFields(line), ',') == RemoveQuotes(line)
    ensures |ParseFields(line)| == UnquotedCommas(line) + 1
  {
    ScanInvariant(line);
  }

  /** Reading one more character is one step of the scanner. */
  lemma ScanSnoc(text: string, c: char)
    ensures Scan(text + [c]) == Step(Scan(text), c)
  {
    assert (text + [c])[..|text|] == text;
  }

  /** The fields pushed after a prefix of the line are the first fields pushed
      after the whole line: a pushed field is never changed again. */
  lemma {:induction false} ScanFieldsGrow(line: string, i: nat)
    requires i <= |line|
    ensures Scan(line[..i]).fields <= Scan(line).fields
    decreases |line| - i
  {
    if i == |line| {
      assert line[..i] == line;
    } else {
      ScanFieldsGrow(line, i + 1);
      assert line[..i + 1] == line[..i] + [line[i]];
      ScanSnoc(line[..i], line[i]);
    }
  }

  /** A comma preceded by an even number of quotes ends a field: the fields of
      the text before it are the first fields of the line, and more follow. */
  lemma UnquotedCommaSplits(line: string, i: nat)
    requires i < |line| && line[i] == ',' && CountChar(line[..i], '"') % 2 == 0
    ensures ParseFields(line[..i]) <= ParseFields(line)
    ensures |ParseFields(line[..i])| < |ParseFields(line)|
  {
    ScanQuoteParity(line[..i]);
    assert line[..i + 1] == line[..i] + [line[i]];
    ScanSnoc(line[..i], line[i]);
    ScanFieldsGrow(line, i + 1);
  }

  /** A comma preceded by an odd number of quotes does not split: it is
      appended to the field being read, and no field is pushed. */
  lemma QuotedCommaKeepsField(line: string, i: nat)
    requires i < |line| && line[i] == ',' && CountChar(line[..i], '"') % 2 == 1
    ensures var before := ParseFields(line[..i]);
      ParseFields(line[..i + 1]) == before[..|before| - 1] + [before[|before| - 1] + [',']]
  {
    ScanQuoteParity(line[..i]);
    assert line[..i + 1] == line[..i] + [line[i]];
    ScanSnoc(line[..i], line[i]);
    var before := ParseFields(line[..i]);
    assert before[..|before| - 1] == Scan(line[..i]).fields;
  }

  /** The line `a,"b,c"` reads as the two fields `a` and `b,c`. */
  lemma QuotedCommaExample()
    ensures ParseFields("a,\"b,c\"") == ["a", "b,c"]
  {
    var s1 := [] + ['a'];
    var s2 := s1 + [','];
    var s3 := s2 + ['"'];
    var s4 := s3 + ['b'];
    var s5 := s4 + [','];
    var s6 := s5 + ['c'];
    var s7 := s6 + ['"'];
    ScanSnoc([], 'a');
    ScanSnoc(s1, ',');
    ScanSnoc(s2, '"');
    ScanSnoc(s3, 'b');
    ScanSnoc(s4, ',');
    ScanSnoc(s5, 'c');
    ScanSnoc(s6, '"');
    assert Scan(s7) == ScanState(["a"], "b,c", false);
    assert s7 == "a,\"b,c\"";
  }

  /** A line without quotes is split at every comma, exactly as `split(',')` does. */
  lemma ParseFieldsWithoutQuotes(line: string)
    requires '"' !in line
    ensures ParseFields(line) == Split(line, ',')
  {
    ParseFieldsProperties(line);
    RemoveQuotesNoQuote(line);
    var fields := ParseFields(line);
    forall k | 0 <= k < |fields| ensures ',' !in fields[k] {
      if ',' in fields[k] {
        var j :| 0 <= j < |fields[k]| && fields[k][j] == ',';
        CommaInsidePartIsInJoin(fields, k, j);
        CommasOutsideQuotes(line);
        assert false;
      }
    }
    SplitJoin(fields, ',');
  }

  /** Without quotes, every comma of the line ends a field. */
  lemma {:induction false} CommasOutsideQuotes(line: string)
    requires '"' !in line
    ensures UnquotedCommas(line) == CountChar(line, ',')
  {
    if line != [] {
      var init := line[..|line| - 1];
      assert forall i :: 0 <= i < |init| ==> init[i] == line[i];
      CommasOutsideQuotes(init);
      NoCharNoCount(init, '"');
    }
  }

  lemma {:induction false} NoCharNoCount(s: string, c: char)
    requires c !in s
    ensures CountChar(s, c) == 0
  {
    if s != [] {
      assert forall i :: 0 <= i < |s| - 1 ==> s[..|s| - 1][i] == s[i];
      NoCharNoCount(s[..|s| - 1], c);
    }
  }

  lemma CommaInsidePartIsInJoin(fields: seq<string>, k: nat, j: nat)
    requires k < |fields| && j < |fields[k]| && fields[k][j] == ','
    ensures CountChar(Join(fields, ','), ',') > |fields| - 1
  {
    JoinCommaCount(fields);
    assert fields[k] == fields[k][..j] + [','] + fields[k][j + 1..];
    CountCharAppend(fields[k][..j] + [','], fields[k][j + 1..], ',');
    CountCharAppend(fields[k][..j], [','], ',');
    assert [','][..0] == [];
    PartCountsBound(fields, k);
  }

  /** Summing the commas of the parts. */
  function PartCommas(fields: seq<string>): nat
  {
    if fields == [] then 0 else PartCommas(fields[..|fields| - 1]) + CountChar(fields[|fields| - 1], ',')
  }

  lemma {:induction false} PartCountsBound(fields: seq<string>, k: nat)
    requires k < |fields|
    ensures PartCommas(fields) >= CountChar(fields[k], ',')
  {
    if k < |fields| - 1 {
      PartCountsBound(fields[..|fields| - 1], k);
    }
  }

  lemma {:induction false} JoinCommaCount(fields: seq<string>)
    requires |fields| >= 1
    ensures CountChar(Join(fields, ','), ',') == |fields| - 1 + PartCommas(fields)
  {
    var n := |fields|;
    if n == 1 {
      assert fields[..0] == [];
    } else {
      var init := fields[..n - 1];
      JoinCommaCount(init);
      CountCharAppend(Join(init, ',') + [','], fields[n - 1], ',');
      CountCharAppend(Join(init, ','), [','], ',');
      assert [','][..0] == [];
    }
  }

  /** `parseCSVLine(line)`, scanning the line with a loop as the source does. */
  method ParseCsvLine(line: string) returns (result: seq<string>)
    ensures result == ParseFields(line)
    ensures |result| >= 1 && QuoteFree(result)
    ensures Join(result, ',') == RemoveQuotes(line)
  {
    result := [];
    var current: string := [];
    var inQuotes := false;
    for i := 0 to |line|
      invariant Scan(line[..i]) == ScanState(result, current, inQuotes)
    {
      assert line[..i + 1][..i] == line[..i];
      var c := line[i];
      if c == '"' {
        inQuotes := !inQuotes;
      } else if c == ',' && !inQuotes {
        result := result + [current];
        current := [];
      } else {
        current := current + [c];
      }
    }
    assert line[..|line|] == line;
    result := result + [current];
    ParseFieldsProperties(line);
  }
}
