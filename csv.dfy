/**
 The roster's CSV scanner. It reads the text one character at a time with a
 quoted-mode flag: a double quote toggles the flag, two double quotes inside
 quotes give one literal quote, a comma or a line feed outside quotes ends
 a field or a row, a carriage return is dropped, and every other character
 is appended to the current field. Malformed quoting is never an error.

 `Scan` is the scanner as a function over the rest of the input; the method
 `ParseCsv` is the loop itself and is proved to compute `Parse`.
 */
module Csv {

  /** The scanner's variables: finished rows, the row being built, the field being built, the flag. */
  datatype ScanState = ScanState(result: seq<seq<string>>, row: seq<string>, curr: string, inQuotes: bool)

  const Start := ScanState([], [], "", false)

  /** One character, other than the first quote of a `""` pair inside quotes. */
  function Step(st: ScanState, c: char): ScanState {
    if c == '"' then st.(inQuotes := !st.inQuotes)
    else if c == ',' && !st.inQuotes then st.(row := st.row + [st.curr], curr := "")
    else if c == '\n' && !st.inQuotes then st.(result := st.result + [st.row + [st.curr]], row := [], curr := "")
    else if c != '\r' then st.(curr := st.curr + [c])
    else st
  }

  /** The scan of the remaining input `s`, looking one character ahead for `""`. */
  function Scan(s: string, st: ScanState): ScanState
    decreases |s|
  {
    if s == [] then st
    else if s[0] == '"' && st.inQuotes && |s| > 1 && s[1] == '"' then Scan(s[2..], st.(curr := st.curr + ['"']))
    else Scan(s[1..], Step(st, s[0]))
  }

  /** End of input: a pending field or a partly built row is flushed as the last row. */
  function Finish(st: ScanState): seq<seq<string>> {
    if st.curr != "" || |st.row| > 0 then st.result + [st.row + [st.curr]] else st.result
  }

  function Parse(text: string): (rows: seq<seq<string>>)
    ensures text == "" ==> rows == []
  {
    Finish(Scan(text, Start))
  }

  /** `parseCSV`. */
  method ParseCsv(text: string) returns (result: seq<seq<string>>)
    ensures result == Parse(text)
  {
    result := [];
    var row: seq<string> := [];
    var curr := "";
    var inQuotes := false;
    var i := 0;
    while i < |text|
      invariant 0 <= i <= |text|
      invariant Scan(text[i..], ScanState(result, row, curr, inQuotes)) == Scan(text, Start)
    {
      var ch := text[i];
      assert text[i..][1..] == text[i + 1..];
      if ch == '"' && inQuotes && i + 1 < |text| && text[i + 1] == '"' {
        assert text[i..][2..] == text[i + 2..];
        curr := curr + ['"'];
        i := i + 1;
      } else if ch == '"' {
        inQuotes := !inQuotes;
      } else if ch == ',' && !inQuotes {
        row := row + [curr];
        curr := "";
      } else if ch == '\n' && !inQuotes {
        row := row + [curr];
        result := result + [row];
        row := [];
        curr := "";
      } else if ch != '\r' {
        curr := curr + [ch];
      }
      i := i + 1;
    }
    assert text[i..] == [];
    if curr != "" || |row| > 0 {
      row := row + [curr];
      result := result + [row];
    }
  }

  /**
   Scanning a concatenation is scanning the first part and then the second,
   unless the first part ends and the second begins with a quote (they could
   form a `""` pair across the seam).
   */
  lemma {:induction false} ScanConcat(p: string, q: string, st: ScanState)
    requires p == [] || q == [] || p[|p| - 1] != '"' || q[0] != '"'
    ensures Scan(p + q, st) == Scan(q, Scan(p, st))
    decreases |p|
  {
    if p == [] {
      assert p + q == q;
    } else if p[0] == '"' && st.inQuotes && |p| > 1 && p[1] == '"' {
      assert (p + q)[2..] == p[2..] + q;
      ScanConcat(p[2..], q, st.(curr := st.curr + ['"']));
    } else {
      assert (p + q)[1..] == p[1..] + q;
      ScanConcat(p[1..], q, Step(st, p[0]));
    }
  }

  /**
   Outside quotes a comma ends the current field and a line feed ends the
   current row; inside quotes both are field content.
   */
  lemma ScanSeparator(p: string, c: char)
    requires c == ',' || c == '\n'
    ensures var st := Scan(p, Start);
      Scan(p + [c], Start) ==
        if st.inQuotes then st.(curr := st.curr + [c])
        else if c == ',' then st.(row := st.row + [st.curr], curr := "")
        else ScanState(st.result + [st.row + [st.curr]], [], "", false)
  {
    ScanConcat(p, [c], Start);
  }

  /** Input that ends right after an unquoted line feed gives no trailing empty row. */
  lemma ParseNewlineTerminated(p: string)
    requires !Scan(p, Start).inQuotes
    ensures var st := Scan(p, Start);
      Parse(p + "\n") == st.result + [st.row + [st.curr]]
  {
    ScanSeparator(p, '\n');
  }

  predicate FieldsNoCR(fields: seq<string>) {
    forall j :: 0 <= j < |fields| ==> '\r' !in fields[j]
  }

  predicate RowsNoCR(rows: seq<seq<string>>) {
    forall i :: 0 <= i < |rows| ==> FieldsNoCR(rows[i])
  }

  predicate StateNoCR(st: ScanState) {
    RowsNoCR(st.result) && FieldsNoCR(st.row) && '\r' !in st.curr
  }

  lemma {:induction false} ScanKeepsNoCR(s: string, st: ScanState)
    requires StateNoCR(st)
    ensures StateNoCR(Scan(s, st))
    decreases |s|
  {
    if s == [] {
    } else if s[0] == '"' && st.inQuotes && |s| > 1 && s[1] == '"' {
      ScanKeepsNoCR(s[2..], st.(curr := st.curr + ['"']));
    } else {
      var next := Step(st, s[0]);
      assert StateNoCR(next) by {
        if s[0] == '\n' && !st.inQuotes {
          assert RowsNoCR(st.result + [st.row + [st.curr]]) by {
            assert FieldsNoCR(st.row + [st.curr]);
          }
        }
      }
      ScanKeepsNoCR(s[1..], next);
    }
  }

  /** No field of the parse ever holds a carriage return. */
  lemma ParseNoCR(text: string)
    ensures RowsNoCR(Parse(text))
  {
    ScanKeepsNoCR(text, Start);
    var st := Scan(text, Start);
    assert FieldsNoCR(st.row + [st.curr]);
  }

  /** `s` without its carriage returns. */
  function DropCR(s: string): string {
    if s == [] then [] else (if s[0] == '\r' then [] else [s[0]]) + DropCR(s[1..])
  }

  lemma {:induction false} ScanOpenQuote(s: string, st: ScanState)
    requires st.inQuotes && forall i :: 0 <= i < |s| ==> s[i] != '"'
    ensures Scan(s, st) == st.(curr := st.curr + DropCR(s))
    decreases |s|
  {
    if s == [] {
      assert st.curr + DropCR(s) == st.curr;
    } else {
      var c := s[0];
      var kept := if c == '\r' then [] else [c];
      var next := st.(curr := st.curr + kept);
      assert Step(st, c) == next;
      assert Scan(s, st) == Scan(s[1..], next);
      ScanOpenQuote(s[1..], next);
      assert DropCR(s) == kept + DropCR(s[1..]);
      assert next.curr + DropCR(s[1..]) == st.curr + DropCR(s);
    }
  }

  /**
   An unterminated quote absorbs the rest of the input, commas and line feeds
   included, into the last field.
   */
  lemma ParseUnterminatedQuote(p: string, s: string)
    requires p == [] || p[|p| - 1] != '"'
    requires !Scan(p, Start).inQuotes
    requires '"' !in s
    ensures var st := Scan(p, Start);
      Parse(p + ['"'] + s) == Finish(st.(curr := st.curr + DropCR(s)))
  {
    var st := Scan(p, Start);
    var q := ['"'] + s;
    assert p + ['"'] + s == p + q;
    ScanConcat(p, q, Start);
    ScanOpeningQuote(s, st);
  }

  /** An opening quote not followed by another one switches to quoted mode. */
  lemma ScanOpeningQuote(s: string, st: ScanState)
    requires !st.inQuotes && '"' !in s
    ensures Scan(['"'] + s, st) == st.(inQuotes := true, curr := st.curr + DropCR(s))
  {
    ScanHead('"', s, st);
    forall i | 0 <= i < |s| ensures s[i] != '"' {
      assert s[i] in s;
    }
    ScanOpenQuote(s, st.(inQuotes := true));
  }

  /** A writer's quoting of a field: the field in quotes, each inner quote doubled. */
  function Escape(f: string): string {
    if f == [] then [] else (if f[0] == '"' then "\"\"" else [f[0]]) + Escape(f[1..])
  }

  function Quote(f: string): string {
    "\"" + Escape(f) + "\""
  }

  function EncodeRow(fields: seq<string>): string
    requires |fields| > 0
  {
    if |fields| == 1 then Quote(fields[0]) else Quote(fields[0]) + "," + EncodeRow(fields[1..])
  }

  predicate NoEmptyRow(rows: seq<seq<string>>) {
    forall i :: 0 <= i < |rows| ==> |rows[i]| > 0
  }

  /** Every field quoted, fields separated by commas, every row ended by a line feed. */
  function EncodeTable(rows: seq<seq<string>>): string
    requires NoEmptyRow(rows)
  {
    if rows == [] then "" else EncodeRow(rows[0]) + "\n" + EncodeTable(rows[1..])
  }

  /** A character that does not open a `""` pair is consumed by `Step`. */
  lemma ScanHead(c: char, rest: string, st: ScanState)
    requires c != '"' || !st.inQuotes || rest == [] || rest[0] != '"'
    ensures Scan([c] + rest, st) == Scan(rest, Step(st, c))
  {
    assert ([c] + rest)[1..] == rest;
  }

  lemma {:induction false} ScanEscaped(f: string, rest: string, st: ScanState)
    requires st.inQuotes && '\r' !in f
    ensures Scan(Escape(f) + rest, st) == Scan(rest, st.(curr := st.curr + f))
    decreases |f|
  {
    if f == [] {
      assert Escape(f) + rest == rest;
      assert st.curr + f == st.curr;
    } else if f[0] == '"' {
      ScanEscapedQuote(f, rest, st);
    } else {
      var tail := Escape(f[1..]) + rest;
      assert Escape(f) == [f[0]] + Escape(f[1..]);
      assert Escape(f) + rest == [f[0]] + tail;
      ScanHead(f[0], tail, st);
      var next := Step(st, f[0]);
      assert next == st.(curr := st.curr + [f[0]]);
      ScanEscaped(f[1..], rest, next);
      assert next.curr + f[1..] == st.curr + f;
    }
  }

  /** Inside quotes, `""` gives one literal quote. */
  lemma ScanPair(rest: string, st: ScanState)
    requires st.inQuotes
    ensures Scan(['"', '"'] + rest, st) == Scan(rest, st.(curr := st.curr + ['"']))
  {
    var s := ['"', '"'] + rest;
    assert s[0] == '"' && s[1] == '"' && |s| > 1;
    assert s[2..] == rest;
  }

  lemma {:induction false} ScanEscapedQuote(f: string, rest: string, st: ScanState)
    requires st.inQuotes && '\r' !in f && f != [] && f[0] == '"'
    ensures Scan(Escape(f) + rest, st) == Scan(rest, st.(curr := st.curr + f))
    decreases |f|, 0
  {
    var tail := Escape(f[1..]) + rest;
    assert Escape(f) == ['"', '"'] + Escape(f[1..]);
    assert Escape(f) + rest == ['"', '"'] + tail;
    ScanPair(tail, st);
    var next := st.(curr := st.curr + ['"']);
    ScanEscaped(f[1..], rest, next);
    assert next.curr + f[1..] == st.curr + f;
  }

  /** A quoted field is read back as the field itself, whatever commas, line feeds or quotes it holds. */
  lemma ScanQuoted(f: string, rest: string, st: ScanState)
    requires !st.inQuotes && '\r' !in f
    requires rest == [] || rest[0] != '"'
    ensures Scan(Quote(f) + rest, st) == Scan(rest, st.(curr := st.curr + f))
  {
    var inner := st.(inQuotes := true);
    var tail := Escape(f) + ("\"" + rest);
    assert Quote(f) + rest == ['"'] + tail;
    ScanHead('"', tail, st);
    assert Step(st, '"') == inner;
    ScanEscaped(f, "\"" + rest, inner);
    var filled := inner.(curr := inner.curr + f);
    ScanHead('"', rest, filled);
    assert Step(filled, '"') == st.(curr := st.curr + f);
  }

  /** A quoted field followed by a separator closes the field (a comma) or the row (a line feed). */
  lemma ScanQuotedThen(f: string, c: char, rest: string, st: ScanState)
    requires !st.inQuotes && st.curr == "" && '\r' !in f
    requires c == ',' || c == '\n'
    ensures c == ',' ==>
      Scan(Quote(f) + ([c] + rest), st) == Scan(rest, st.(row := st.row + [f], curr := ""))
    ensures c == '\n' ==>
      Scan(Quote(f) + ([c] + rest), st) == Scan(rest, ScanState(st.result + [st.row + [f]], [], "", false))
  {
    ScanQuoted(f, [c] + rest, st);
    var filled := st.(curr := st.curr + f);
    assert st.curr + f == f;
    ScanHead(c, rest, filled);
  }

  /** How an encoded row followed by a line feed begins: its first field, then a separator. */
  lemma EncodedRowShape(fields: seq<string>, rest: string)
    requires |fields| > 0
    ensures |fields| == 1 ==> EncodeRow(fields) + "\n" + rest == Quote(fields[0]) + ("\n" + rest)
    ensures |fields| > 1 ==>
      EncodeRow(fields) + "\n" + rest == Quote(fields[0]) + ("," + (EncodeRow(fields[1..]) + "\n" + rest))
  {
    if |fields| > 1 {
      var first := Quote(fields[0]);
      var others := EncodeRow(fields[1..]);
      assert EncodeRow(fields) == first + "," + others;
      Reassociate(first, others, rest);
    }
  }

  lemma Reassociate(first: string, others: string, rest: string)
    ensures first + "," + others + "\n" + rest == first + ("," + (others + "\n" + rest))
  {
  }

  lemma {:induction false} ScanEncodedRow(fields: seq<string>, rest: string, st: ScanState)
    requires |fields| > 0 && FieldsNoCR(fields)
    requires !st.inQuotes && st.curr == ""
    ensures Scan(EncodeRow(fields) + "\n" + rest, st) == Scan(rest, ScanState(st.result + [st.row + fields], [], "", false))
    decreases |fields|
  {
    EncodedRowShape(fields, rest);
    if |fields| == 1 {
      ScanQuotedThen(fields[0], '\n', rest, st);
      assert [fields[0]] == fields;
    } else {
      var tail := EncodeRow(fields[1..]) + "\n" + rest;
      ScanQuotedThen(fields[0], ',', tail, st);
      var next := st.(row := st.row + [fields[0]], curr := "");
      ScanEncodedRow(fields[1..], rest, next);
      assert next.row + fields[1..] == st.row + fields;
    }
  }

  lemma {:induction false} ScanEncodedTable(rows: seq<seq<string>>, st: ScanState)
    requires NoEmptyRow(rows) && RowsNoCR(rows)
    requires !st.inQuotes && st.curr == "" && st.row == []
    ensures Scan(EncodeTable(rows), st) == ScanState(st.result + rows, [], "", false)
    decreases |rows|
  {
    if rows == [] {
      assert st.result + rows == st.result;
    } else {
      ScanEncodedRow(rows[0], EncodeTable(rows[1..]), st);
      assert st.row + rows[0] == rows[0];
      var next := ScanState(st.result + [rows[0]], [], "", false);
      ScanEncodedTable(rows[1..], next);
      assert next.result + rows[1..] == st.result + rows;
    }
  }

  /** Round trip: a table written with every field quoted parses back to itself. */
  lemma ParseEncodedTable(rows: seq<seq<string>>)
    requires NoEmptyRow(rows) && RowsNoCR(rows)
    ensures Parse(EncodeTable(rows)) == rows
  {
    ScanEncodedTable(rows, Start);
  }

  /**
   A lone quoted field parses back to one row holding it, except the empty
   field `""`, which leaves nothing to flush and gives no row at all.
   */
  lemma ParseQuotedField(f: string)
    requires '\r' !in f
    ensures Parse(Quote(f)) == if f == "" then [] else [[f]]
  {
    assert Quote(f) + "" == Quote(f);
    ScanQuoted(f, "", Start);
    assert Start.curr + f == f;
    var st := Start.(curr := f);
    assert Scan(Quote(f), Start) == st;
    assert Parse(Quote(f)) == Finish(st);
    if f != "" {
      assert st.row + [st.curr] == [f];
      assert Finish(st) == [[f]];
    }
  }
}
