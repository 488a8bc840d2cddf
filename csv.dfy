/**
  `exportToCSV` of src/lib/db.ts: the header line is the first row's keys joined
  by `,`; each row gives one line with its values in header order. A string value
  that contains `,` or `"` is enclosed in quotes with every `"` doubled (rules 6
  and 7 of section 2 of RFC 4180); every other value is written as JavaScript's
  `join` writes it. Lines are separated by `\n`, and line breaks inside values are
  not quoted.

  Beside the encoder the module has a reader for one record, in the manner of
  RFC 4180, and the lemmas that reading an encoded record gives back the text of
  each value.
*/
module Csv {
  import opened Strings

  /** The values the stored records hold: strings, numbers, and `undefined`. */
  datatype Value = Str(s: string) | Num(n: int) | Undefined

  /** A JavaScript object as an ordered list of (key, value) pairs, in the order
      `Object.keys` reports them. */
  type Row = seq<(string, Value)>

  datatype ExportResult =
    | NothingToExport                           // the "No data to export" alert
    | Download(filename: string, content: string)

  /** The keys of a row, in order. */
  // The ensures clauses below only expose the body to the proofs; the meaning is stated by `CellsOwnKeys` and `OwnKeysRoundTrip`.
  function Keys(row: Row): (r: seq<string>)
    ensures |r| == |row|
    ensures forall i | 0 <= i < |row| :: r[i] == row[i].0
  {
    seq(|row|, i requires 0 <= i < |row| => row[i].0)
  }

  /** `row[key]`: the value under the first pair with that key, else `undefined`. */
  function Lookup(row: Row, key: string): (v: Value)
    ensures (forall i | 0 <= i < |row| :: row[i].0 != key) ==> v == Undefined
    ensures forall i | 0 <= i < |row| && row[i].0 == key && (forall j | 0 <= j < i :: row[j].0 != key) :: v == row[i].1
  {
    if row == [] then Undefined
    else if row[0].0 == key then row[0].1
    else Lookup(row[1..], key)
  }

  /** The text `Array.prototype.join` writes for a value: `undefined` becomes the
      empty string, a number its decimal text. */
  function Text(v: Value): string {
    match v
    case Str(s) => s
    case Num(n) => IntToString(n)
    case Undefined => []
  }

  predicate NeedsQuotes(s: string) {
    ',' in s || '"' in s
  }

  /** `s.replace(/"/g, '""')`. */
  function DoubleQuotes(s: string): (r: string)
    ensures forall c :: c in r && c != '"' ==> c in s
  {
    if s == [] then []
    else (if s[0] == '"' then "\"\"" else [s[0]]) + DoubleQuotes(s[1..])
  }

  /** The field written for one value. */
  function EscapeField(v: Value): string {
    if v.Str? && NeedsQuotes(v.s) then "\"" + DoubleQuotes(v.s) + "\"" else Text(v)
  }

  function Fields(headers: seq<string>, row: Row): (r: seq<string>)
    ensures |r| == |headers|
  {
    seq(|headers|, i requires 0 <= i < |headers| => EscapeField(Lookup(row, headers[i])))
  }

  /** The line written for one row. */
  function EncodeRow(headers: seq<string>, row: Row): string {
    Join(",", Fields(headers, row))
  }

  function RowLines(headers: seq<string>, rows: seq<Row>): (r: seq<string>)
    ensures |r| == |rows|
  {
    seq(|rows|, i requires 0 <= i < |rows| => EncodeRow(headers, rows[i]))
  }

  /** The whole file: the header line, then one line per row, joined by `\n`. */
  function Document(rows: seq<Row>): string
    requires |rows| > 0
  {
    var headers := Keys(rows[0]);
    Join("\n", [Join(",", headers)] + RowLines(headers, rows))
  }

  /** `exportToCSV(data, filename)`, without the download mechanics: an empty
      list only alerts; otherwise the file content is offered under `filename`. */
  function ExportToCsv(data: seq<Row>, filename: string): (r: ExportResult)
    ensures r == NothingToExport <==> data == []
    ensures r.Download? ==> r.filename == filename && r.content == Document(data)
  {
    if |data| == 0 then NothingToExport else Download(filename, Document(data))
  }

  // ----- undoing the escape ----------------------------------------------------

  /** Every `""` back to `"`. */
  function Undouble(s: string): string {
    if |s| >= 2 && s[0] == '"' && s[1] == '"' then "\"" + Undouble(s[2..])
    else if s == [] then []
    else [s[0]] + Undouble(s[1..])
  }

  /** Strips the enclosing quotes of a quoted field and undoubles its quotes; any
      other field is returned as it is. */
  function Unquote(f: string): string {
    if |f| >= 2 && f[0] == '"' && f[|f| - 1] == '"' then Undouble(f[1..|f| - 1]) else f
  }

  lemma {:induction false} UndoubleDoubleQuotes(s: string)
    ensures Undouble(DoubleQuotes(s)) == s
  {
    if s != [] {
      UndoubleDoubleQuotes(s[1..]);
      if s[0] == '"' {
        assert ("\"\"" + DoubleQuotes(s[1..]))[2..] == DoubleQuotes(s[1..]);
      } else {
        assert ([s[0]] + DoubleQuotes(s[1..]))[1..] == DoubleQuotes(s[1..]);
      }
      assert [s[0]] + s[1..] == s;
    }
  }

  /** A field that is written without quotes has neither `,` nor `"` in it. */
  lemma PlainFieldIsText(v: Value)
    requires !(v.Str? && NeedsQuotes(v.s))
    ensures EscapeField(v) == Text(v)
    ensures ',' !in Text(v) && '"' !in Text(v)
  {
    if v.Num? {
      var t := IntToString(v.n);
      assert forall k | 0 <= k < |t| :: t[k] != ',' && t[k] != '"';
    }
  }

  /** Stripping the outer quotes and undoubling recovers what the value's text was;
      unquoted values come back unchanged. */
  lemma UnquoteEscapeField(v: Value)
    ensures Unquote(EscapeField(v)) == Text(v)
  {
    if v.Str? && NeedsQuotes(v.s) {
      var f := EscapeField(v);
      assert f[1..|f| - 1] == DoubleQuotes(v.s);
      UndoubleDoubleQuotes(v.s);
    } else {
      PlainFieldIsText(v);
      var t := Text(v);
      if |t| >= 2 { assert t[0] in t; }
    }
  }

  // ----- reading one record ---------------------------------------------------

  /** Reads a quoted field whose opening quote was already consumed: `""` stands
      for `"`, and a lone `"` ends the field. Returns the field and what follows. */
  function ParseQuoted(s: string): (r: (string, string))
    ensures |r.1| <= |s|
  {
    if s == [] then ([], [])
    else if s[0] == '"' then
      if |s| > 1 && s[1] == '"' then
        var t := ParseQuoted(s[2..]); ("\"" + t.0, t.1)
      else ([], s[1..])
    else
      var t := ParseQuoted(s[1..]); ([s[0]] + t.0, t.1)
  }

  /** Reads an unquoted field, up to the next `,`. */
  function ParseUnquoted(s: string): (r: (string, string))
    ensures r.0 + r.1 == s
  {
    if s == [] || s[0] == ',' then ([], s)
    else
      var t := ParseUnquoted(s[1..]);
      assert [s[0]] + t.0 + t.1 == [s[0]] + (t.0 + t.1) == s;
      ([s[0]] + t.0, t.1)
  }

  function ParseField(s: string): (r: (string, string))
    ensures |r.1| <= |s|
  {
    if s != [] && s[0] == '"' then ParseQuoted(s[1..]) else ParseUnquoted(s)
  }

  /** The fields of one record, separated by `,`. */
  function ParseRecord(s: string): (r: seq<string>)
    ensures |r| >= 1
    decreases |s|
  {
    var t := ParseField(s);
    if t.1 != [] && t.1[0] == ',' then [t.0] + ParseRecord(t.1[1..]) else [t.0]
  }

  lemma {:induction false} ParseQuotedDoubled(x: string, rest: string)
    requires rest == [] || rest[0] != '"'
    ensures ParseQuoted(DoubleQuotes(x) + "\"" + rest) == (x, rest)
  {
    var s := DoubleQuotes(x) + "\"" + rest;
    if x == [] {
      assert s == "\"" + rest;
    } else {
      var tail := DoubleQuotes(x[1..]) + "\"" + rest;
      ParseQuotedDoubled(x[1..], rest);
      var head := if x[0] == '"' then "\"\"" else [x[0]];
      assert s == head + tail;
      if x[0] == '"' {
        assert s[0] == '"' && s[1] == '"' && s[2..] == tail;
        assert ParseQuoted(s) == ("\"" + x[1..], rest);
      } else {
        assert s[0] == x[0] && s[1..] == tail;
        assert ParseQuoted(s) == ([x[0]] + x[1..], rest);
      }
      assert [x[0]] + x[1..] == x;
    }
  }

  lemma {:induction false} ParseUnquotedPlain(x: string, rest: string)
    requires ',' !in x
    requires rest == [] || rest[0] == ','
    ensures ParseUnquoted(x + rest) == (x, rest)
  {
    if x == [] {
      assert x + rest == rest;
    } else {
      assert (x + rest)[1..] == x[1..] + rest;
      ParseUnquotedPlain(x[1..], rest);
      assert [x[0]] + x[1..] == x;
    }
  }

  /** Reading the field written for `v`, followed by a separator or the end,
      gives back the text of `v` and leaves the rest. */
  lemma ParseEscapedField(v: Value, rest: string)
    requires rest == [] || rest[0] == ','
    ensures ParseField(EscapeField(v) + rest) == (Text(v), rest)
  {
    if v.Str? && NeedsQuotes(v.s) {
      ParseQuotedField(v.s, rest);
    } else {
      ParsePlainField(v, rest);
    }
  }

  lemma ParseQuotedField(s: string, rest: string)
    requires rest == [] || rest[0] == ','
    ensures ParseField("\"" + DoubleQuotes(s) + "\"" + rest) == (s, rest)
  {
    var q := DoubleQuotes(s);
    var w := "\"" + q + "\"" + rest;
    assert w == "\"" + (q + "\"" + rest);
    assert w[0] == '"' && w[1..] == q + "\"" + rest;
    ParseQuotedDoubled(s, rest);
    assert ParseField(w) == ParseQuoted(w[1..]);
  }

  lemma ParsePlainField(v: Value, rest: string)
    requires !(v.Str? && NeedsQuotes(v.s))
    requires rest == [] || rest[0] == ','
    ensures ParseField(EscapeField(v) + rest) == (Text(v), rest)
  {
    PlainFieldIsText(v);
    var t := Text(v);
    var s := EscapeField(v) + rest;
    assert s == t + rest;
    assert s != [] ==> s[0] != '"' by {
      if t != [] { assert t[0] in t; }
    }
    ParseUnquotedPlain(t, rest);
    assert ParseField(s) == ParseUnquoted(s);
  }

  function EscapedAll(vs: seq<Value>): (r: seq<string>)
    ensures |r| == |vs|
    ensures forall i | 0 <= i < |vs| :: r[i] == EscapeField(vs[i])
  {
    if vs == [] then [] else [EscapeField(vs[0])] + EscapedAll(vs[1..])
  }

  function TextAll(vs: seq<Value>): (r: seq<string>)
    ensures |r| == |vs|
    ensures forall i | 0 <= i < |vs| :: r[i] == Text(vs[i])
  {
    if vs == [] then [] else [Text(vs[0])] + TextAll(vs[1..])
  }

  /** Reading one encoded record gives back the text of each of its values, in
      order: quoting keeps commas and quotes inside their field. */
  lemma {:induction false} ParseJoinedFields(vs: seq<Value>)
    requires |vs| >= 1
    ensures ParseRecord(Join(",", EscapedAll(vs))) == TextAll(vs)
  {
    var es := EscapedAll(vs);
    if |vs| == 1 {
      assert es[0] + [] == es[0];
      ParseEscapedField(vs[0], []);
    } else {
      var tail := Join(",", es[1..]);
      ParseJoinedFields(vs[1..]);
      assert Join(",", es) == es[0] + "," + tail;
      ParseRecordCons(vs[0], tail, TextAll(vs[1..]));
    }
  }

  /** A field written for `v` in front of a separator and a record reads as
      the text of `v` in front of that record's fields. */
  lemma ParseRecordCons(v: Value, tail: string, fields: seq<string>)
    requires ParseRecord(tail) == fields
    ensures ParseRecord(EscapeField(v) + "," + tail) == [Text(v)] + fields
  {
    var r := "," + tail;
    var s := EscapeField(v) + "," + tail;
    assert s == EscapeField(v) + r;
    ParseEscapedField(v, r);
    var p := ParseField(s);
    assert p == (Text(v), r);
    assert r[0] == ',' && r[1..] == tail;
    assert ParseRecord(s) == [p.0] + ParseRecord(p.1[1..]);
  }

  function Cells(headers: seq<string>, row: Row): (r: seq<Value>)
    ensures |r| == |headers|
  {
    seq(|headers|, i requires 0 <= i < |headers| => Lookup(row, headers[i]))
  }

  /** Looking a row's own keys up in it gives back its values in order, when no
      key occurs twice. */
  lemma CellsOwnKeys(row: Row)
    requires forall i, j | 0 <= i < j < |row| :: row[i].0 != row[j].0
    ensures |Cells(Keys(row), row)| == |row|
    ensures forall i | 0 <= i < |row| :: Cells(Keys(row), row)[i] == row[i].1
  {
    forall i | 0 <= i < |row| ensures Cells(Keys(row), row)[i] == row[i].1 {
      assert Keys(row)[i] == row[i].0;
      assert forall j | 0 <= j < i :: row[j].0 != row[i].0;
    }
  }

  /** A row written under its own keys reads back as the text of its values. */
  lemma OwnKeysRoundTrip(row: Row, texts: seq<string>)
    requires |row| >= 1
    requires forall i, j | 0 <= i < j < |row| :: row[i].0 != row[j].0
    requires |texts| == |row| && forall i | 0 <= i < |row| :: texts[i] == Text(row[i].1)
    ensures ParseRecord(EncodeRow(Keys(row), row)) == texts
  {
    CellsOwnKeys(row);
    EncodeRowRoundTrip(Keys(row), row);
  }

  /** Reading the line written for a row gives, for each header in order, the
      text of the row's value under that key (empty when the key is missing). */
  lemma EncodeRowRoundTrip(headers: seq<string>, row: Row)
    requires |headers| >= 1
    ensures ParseRecord(EncodeRow(headers, row)) == TextAll(Cells(headers, row))
  {
    assert Fields(headers, row) == EscapedAll(Cells(headers, row));
    ParseJoinedFields(Cells(headers, row));
  }

  // ----- the line structure of the document -------------------------------------

  lemma {:induction false} DoubleQuotesKeeps(s: string, c: char)
    requires c != '"' && c !in s
    ensures c !in DoubleQuotes(s)
  {
    if s != [] {
      DoubleQuotesKeeps(s[1..], c);
    }
  }

  lemma NoBreakInField(v: Value)
    requires '\n' !in Text(v)
    ensures '\n' !in EscapeField(v)
  {
    if v.Str? && NeedsQuotes(v.s) {
      DoubleQuotesKeeps(v.s, '\n');
    }
  }

  /** No header and no value of any row has a line break in its text. */
  predicate NoLineBreaks(rows: seq<Row>)
    requires |rows| > 0
  {
    var headers := Keys(rows[0]);
    && (forall i | 0 <= i < |headers| :: '\n' !in headers[i])
    && (forall r, i | 0 <= r < |rows| && 0 <= i < |headers| :: '\n' !in Text(Lookup(rows[r], headers[i])))
  }

  lemma NoBreakInRow(headers: seq<string>, row: Row)
    requires forall i | 0 <= i < |headers| :: '\n' !in Text(Lookup(row, headers[i]))
    ensures '\n' !in EncodeRow(headers, row)
  {
    var fs := Fields(headers, row);
    forall i | 0 <= i < |fs| ensures '\n' !in fs[i] {
      NoBreakInField(Lookup(row, headers[i]));
    }
    JoinWithout(",", fs, '\n');
  }

  /** When no value holds a line break, the file splits into exactly the header
      line followed by one line per row, in input order. */
  lemma DocumentLines(rows: seq<Row>)
    requires |rows| > 0 && NoLineBreaks(rows)
    ensures var headers := Keys(rows[0]);
      Split(Document(rows), '\n') == [Join(",", headers)] + RowLines(headers, rows)
  {
    var headers := Keys(rows[0]);
    var lines := [Join(",", headers)] + RowLines(headers, rows);
    JoinWithout(",", headers, '\n');
    forall r | 0 <= r < |rows| ensures '\n' !in EncodeRow(headers, rows[r]) {
      NoBreakInRow(headers, rows[r]);
    }
    assert forall i | 0 <= i < |lines| :: '\n' !in lines[i] by {
      forall i | 0 <= i < |lines| ensures '\n' !in lines[i] {
        if i > 0 { assert lines[i] == EncodeRow(headers, rows[i - 1]); }
      }
    }
    SplitJoin(lines, '\n');
  }

  /** A line break inside a value is written as it is, so a one-row file whose
      only value is "a\nb" splits into three lines, not two. */
  lemma LineBreakSplitsRecord()
    ensures |Split(Document([[("comments", Str("a\nb"))]]), '\n')| == 3
  {
    var rows := [[("comments", Str("a\nb"))]];
    assert Keys(rows[0]) == ["comments"];
    assert Lookup(rows[0], "comments") == Str("a\nb");
    assert !NeedsQuotes("a\nb");
    assert EncodeRow(["comments"], rows[0]) == "a\nb";
    assert Join(",", ["comments"]) == "comments";
    assert RowLines(["comments"], rows) == ["a\nb"];
    assert Join("\n", ["comments", "a\nb"]) == "comments" + "\n" + "a\nb";
    assert Document(rows) == "comments\na\nb";
    SplitAt("comments", '\n', "a\nb");
    SplitAt("a", '\n', "b");
    SplitWithout("b", '\n');
  }
}
