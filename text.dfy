/** The JavaScript string operations the tracker uses: `trim`, ASCII
    `toLowerCase`, `includes`, `split` on one character, `join` with one
    character, and the two regular expression replacements of the CSV code.
    Strings are `seq<char>`, one Unicode scalar value per element, where
    JavaScript counts UTF-16 code units. */
module Text {
  import opened Seqs

  /** The characters `String.prototype.trim` removes: the WhiteSpace and
      LineTerminator code points of ECMAScript. */
  predicate IsJsWhitespace(c: char)
  {
    c == '\t' || c == '\n' || c == '\U{B}' || c == '\U{C}' || c == '\r' || c == ' '
    || c == '\U{A0}' || c == '\U{1680}' || ('\U{2000}' <= c <= '\U{200A}')
    || c == '\U{2028}' || c == '\U{2029}' || c == '\U{202F}' || c == '\U{205F}'
    || c == '\U{3000}' || c == '\U{FEFF}'
  }

  predicate IsBlank(s: string)
  {
    forall i :: 0 <= i < |s| ==> IsJsWhitespace(s[i])
  }

  function TrimStart(s: string): (r: string)
    ensures |r| <= |s| && r == s[|s| - |r|..]
    ensures r == [] || !IsJsWhitespace(r[0])
    ensures forall i :: 0 <= i < |s| - |r| ==> IsJsWhitespace(s[i])
  {
    if s != [] && IsJsWhitespace(s[0]) then TrimStart(s[1..]) else s
  }

  function TrimEnd(s: string): (r: string)
    ensures |r| <= |s| && r == s[..|r|]
    ensures r == [] || !IsJsWhitespace(r[|r| - 1])
    ensures forall i :: |r| <= i < |s| ==> IsJsWhitespace(s[i])
  {
    if s != [] && IsJsWhitespace(s[|s| - 1]) then TrimEnd(s[..|s| - 1]) else s
  }

  /** `s.trim()`: a middle slice of s that neither starts nor ends with
      whitespace, everything cut off being whitespace. */
  function Trim(s: string): (r: string)
    ensures |r| <= |s|
    ensures r == [] || (!IsJsWhitespace(r[0]) && !IsJsWhitespace(r[|r| - 1]))
  {
    TrimEnd(TrimStart(s))
  }

  /** A text that neither starts nor ends with white space is left as it is. */
  lemma TrimFramed(s: string)
    requires s != [] && !IsJsWhitespace(s[0]) && !IsJsWhitespace(s[|s| - 1])
    ensures Trim(s) == s
  {
    assert TrimStart(s) == s;
  }

  /** A line trims to nothing exactly when every character of it is whitespace. */
  lemma TrimEmptyIffBlank(s: string)
    ensures Trim(s) == [] <==> IsBlank(s)
  {
    var t := TrimStart(s);
    if Trim(s) == [] {
      assert t == [];
    }
  }

  /** ASCII case folding; other code units are left as they are. */
  function LowerChar(c: char): char
  {
    if 'A' <= c <= 'Z' then (c as int + 32) as char else c
  }

  /** `s.toLowerCase()` restricted to ASCII letters. */
  function Lower(s: string): (r: string)
    ensures |r| == |s|
    ensures forall i :: 0 <= i < |s| ==> r[i] == LowerChar(s[i])
  {
    if s == [] then [] else [LowerChar(s[0])] + Lower(s[1..])
  }

  /** `s.includes(sub)`. */
  predicate Contains(s: string, sub: string)
  {
    sub <= s || (s != [] && Contains(s[1..], sub))
  }

  /** sub occurs in s starting at position i. */
  predicate OccursAt(s: string, sub: string, i: nat)
  {
    i + |sub| <= |s| && s[i..i + |sub|] == sub
  }

  /** `s.includes(sub)` holds exactly when sub occurs at some position of s. */
  lemma {:induction false} ContainsAt(s: string, sub: string)
    ensures Contains(s, sub) <==> exists i: nat :: OccursAt(s, sub, i)
  {
    if s != [] {
      ContainsAt(s[1..], sub);
      if sub <= s {
        assert s[0..|sub|] == sub;
        assert OccursAt(s, sub, 0);
      }
      if Contains(s[1..], sub) {
        var i: nat :| OccursAt(s[1..], sub, i);
        assert s[1..][i..i + |sub|] == s[i + 1..i + 1 + |sub|];
        assert OccursAt(s, sub, i + 1);
      }
      if exists i: nat :: OccursAt(s, sub, i) {
        var i: nat :| OccursAt(s, sub, i);
        if i > 0 {
          assert s[1..][i - 1..i - 1 + |sub|] == s[i..i + |sub|];
          assert OccursAt(s[1..], sub, i - 1);
        } else {
          assert s[..|sub|] == sub;
          assert sub <= s;
        }
      }
    } else if exists i: nat :: OccursAt(s, sub, i) {
      var i: nat :| OccursAt(s, sub, i);
      assert sub == [];
    } else {
      assert OccursAt(s, sub, 0) <== sub == [];
    }
  }

  function CountChar(s: string, c: char): nat
  {
    if s == [] then 0 else CountChar(s[..|s| - 1], c) + (if s[|s| - 1] == c then 1 else 0)
  }

  /** The parity of a sum: even exactly when both terms have the same parity. */
  lemma ParityOfSum(a: nat, b: nat)
    ensures (a + b) % 2 == 0 <==> (a % 2 == 0 <==> b % 2 == 0)
  {
  }

  /** `parts.join(sep)` with a one-character separator. */
  function Join(parts: seq<string>, sep: char): string
  {
    if |parts| == 0 then []
    else if |parts| == 1 then parts[0]
    else Join(parts[..|parts| - 1], sep) + [sep] + parts[|parts| - 1]
  }

  /** `s.split(sep)` with a one-character separator. */
  function Split(s: string, sep: char): (r: seq<string>)
    ensures |r| >= 1
  {
    if s == [] then [[]]
    else
      var r := Split(s[..|s| - 1], sep);
      var c := s[|s| - 1];
      if c == sep then r + [[]] else r[..|r| - 1] + [r[|r| - 1] + [c]]
  }

  /** Appending a character to the last part appends it to the joined text. */
  lemma JoinExtendLast(parts: seq<string>, sep: char, c: char)
    requires |parts| >= 1
    ensures Join(parts[..|parts| - 1] + [parts[|parts| - 1] + [c]], sep) == Join(parts, sep) + [c]
  {
    var n := |parts|;
    var ext := parts[..n - 1] + [parts[n - 1] + [c]];
    if n > 1 {
      assert ext[..n - 1] == parts[..n - 1];
    }
  }

  /** `split` followed by `join` gives back the text, and no part holds the separator. */
  lemma JoinSplit(s: string, sep: char)
    ensures Join(Split(s, sep), sep) == s
    ensures forall k :: 0 <= k < |Split(s, sep)| ==> sep !in Split(s, sep)[k]
  {
    JoinOfSplit(s, sep);
    SplitPartsAvoid(s, sep);
  }

  lemma {:induction false} JoinOfSplit(s: string, sep: char)
    ensures Join(Split(s, sep), sep) == s
  {
    if s != [] {
      var init := s[..|s| - 1];
      var c := s[|s| - 1];
      JoinOfSplit(init, sep);
      var r := Split(init, sep);
      assert s == init + [c];
      if c == sep {
        assert (r + [[]])[..|r|] == r;
      } else {
        JoinExtendLast(r, sep, c);
      }
    }
  }

  lemma {:induction false} SplitPartsAvoid(s: string, sep: char)
    ensures forall k :: 0 <= k < |Split(s, sep)| ==> sep !in Split(s, sep)[k]
  {
    if s != [] {
      var init := s[..|s| - 1];
      SplitPartsAvoid(init, sep);
      var r := Split(init, sep);
      if s[|s| - 1] != sep {
        var last := r[|r| - 1];
        assert sep !in last;
        assert sep !in last + [s[|s| - 1]];
      }
    }
  }

  lemma {:induction false} SplitPlain(w: string, sep: char)
    requires sep !in w
    ensures Split(w, sep) == [w]
  {
    if w != [] {
      SplitPlain(w[..|w| - 1], sep);
      assert w == w[..|w| - 1] + [w[|w| - 1]];
    }
  }

  lemma {:induction false} SplitAfterSeparator(x: string, sep: char, w: string)
    requires sep !in w
    ensures Split(x + [sep] + w, sep) == Split(x, sep) + [w]
    decreases |w|
  {
    if w == [] {
      assert x + [sep] + w == x + [sep];
      assert (x + [sep])[..|x|] == x;
    } else {
      var w' := w[..|w| - 1];
      SplitAfterSeparator(x, sep, w');
      assert (x + [sep] + w)[..|x + [sep] + w| - 1] == x + [sep] + w';
      assert w == w' + [w[|w| - 1]];
    }
  }

  /** `join` followed by `split` gives back the parts, when none holds the separator. */
  lemma {:induction false} SplitJoin(parts: seq<string>, sep: char)
    requires |parts| >= 1
    requires forall k :: 0 <= k < |parts| ==> sep !in parts[k]
    ensures Split(Join(parts, sep), sep) == parts
  {
    var n := |parts|;
    if n == 1 {
      SplitPlain(parts[0], sep);
    } else {
      SplitJoin(parts[..n - 1], sep);
      SplitAfterSeparator(Join(parts[..n - 1], sep), sep, parts[n - 1]);
      assert parts == parts[..n - 1] + [parts[n - 1]];
    }
  }

  /** The text with every double quote removed: what `parseCSVLine`
      (script.js:345-346) makes of quote characters, which only toggle the
      in-quotes flag and are never copied into a cell. */
  function RemoveQuotes(s: string): string
  {
    Keep(s, NotQuote)
  }

  predicate NotQuote(c: char)
  {
    c != '"'
  }

  /** Removing quotes from a text without quotes changes nothing. */
  lemma RemoveQuotesNoQuote(s: string)
    requires '"' !in s
    ensures RemoveQuotes(s) == s
  {
    KeepAll(s, NotQuote);
  }

  /** `s.replace(/"/g, '""')` — every double quote doubled. */
  function EscapeQuotes(s: string): (r: string)
    ensures |r| == |s| + CountChar(s, '"')
  {
    if s == [] then []
    else EscapeQuotes(s[..|s| - 1]) + (if s[|s| - 1] == '"' then "\"\"" else [s[|s| - 1]])
  }

  /** Escaping keeps the text once the quotes are removed, and doubles the quotes. */
  lemma {:induction false} EscapeQuotesProperties(s: string)
    ensures RemoveQuotes(EscapeQuotes(s)) == RemoveQuotes(s)
    ensures CountChar(EscapeQuotes(s), '"') == 2 * CountChar(s, '"')
  {
    if s != [] {
      var init, c := s[..|s| - 1], s[|s| - 1];
      EscapeQuotesProperties(init);
      var e := EscapeQuotes(init);
      var tail: string := if c == '"' then "\"\"" else [c];
      RemoveQuotesAppend(e, tail);
      RemoveQuotesAppend(init, [c]);
      CountCharAppend(e, tail, '"');
      CountCharAppend(init, [c], '"');
      assert s == init + [c];
      assert [c][..0] == [] && tail[..|tail| - 1] == (if c == '"' then "\"" else []);
      assert "\""[..0] == [];
    }
  }

  /** `s.replace(/^"|"$/g, '')` — one leading and one trailing quote removed. */
  function StripOuterQuotes(s: string): (r: string)
    ensures |r| <= |s|
    ensures '"' !in s ==> r == s
  {
    var a := if |s| > 0 && s[0] == '"' then s[1..] else s;
    if |a| > 0 && a[|a| - 1] == '"' then a[..|a| - 1] else a
  }

  lemma {:induction false} RemoveQuotesAppend(a: string, b: string)
    ensures RemoveQuotes(a + b) == RemoveQuotes(a) + RemoveQuotes(b)
    decreases |b|
  {
    if b != [] {
      var init := b[..|b| - 1];
      assert (a + b)[..|a + b| - 1] == a + init;
      RemoveQuotesAppend(a, init);
    } else {
      assert a + b == a;
    }
  }

  lemma {:induction false} CountCharAppend(a: string, b: string, c: char)
    ensures CountChar(a + b, c) == CountChar(a, c) + CountChar(b, c)
    decreases |b|
  {
    if b != [] {
      var init := b[..|b| - 1];
      assert (a + b)[..|a + b| - 1] == a + init;
      CountCharAppend(a, init, c);
    } else {
      assert a + b == a;
    }
  }
}
