/**
 * d3's delimiter-separated values: the writer, the tokenizer with its pending end-of-line flag, and
 * the exact set of tables that survive being written and read back.
 */
module Dsv {
  import opened Wrappers

  type Row = seq<string>

  const QUOTE := '\"'
  const CR := '\r'
  const LF := '\n'

  /**
   * The delimiters for which the pattern that decides on quoting means what it says.  A quote, CR or
   * LF cannot delimit; `]`, `\` and `-` change the meaning of the character class they are put into.
   */
  predicate PlainDelimiter(d: char) {
    d != QUOTE && d != CR && d != LF && d != ']' && d != '\\' && d != '-'
  }

  // ---------- the writer ----------

  predicate NeedsQuotes(field: string, d: char) {
    QUOTE in field || d in field || LF in field
  }

  /** Every quote doubled. */
  function Escape(s: string): string {
    if s == "" then "" else (if s[0] == QUOTE then [QUOTE, QUOTE] else [s[0]]) + Escape(s[1..])
  }

  function FormatValue(field: string, d: char): string {
    if NeedsQuotes(field, d) then [QUOTE] + Escape(field) + [QUOTE] else field
  }

  function FormatRow(row: Row, d: char): string {
    if row == [] then ""
    else if |row| == 1 then FormatValue(row[0], d)
    else FormatValue(row[0], d) + [d] + FormatRow(row[1..], d)
  }

  function FormatRows(rows: seq<Row>, d: char): string {
    if rows == [] then ""
    else if |rows| == 1 then FormatRow(rows[0], d)
    else FormatRow(rows[0], d) + [LF] + FormatRows(rows[1..], d)
  }

  // ---------- the reader, on the text still to be read ----------

  datatype Token = EndOfFile | EndOfLine | Field(field: string)

  /** What the tokenizer returns: the token, the text it leaves, and whether an end of line is pending. */
  datatype Step = Step(token: Token, rest: string, eol: bool)

  /** Every doubled quote, from the left, made single. */
  function Unescape(s: string): string {
    if s == "" then ""
    else if s[0] == QUOTE && |s| > 1 && s[1] == QUOTE then [QUOTE] + Unescape(s[2..])
    else [s[0]] + Unescape(s[1..])
  }

  /** The length of the quoted content at the start of `s`, the text after the opening quote. */
  function QuotedLength(s: string): (k: nat)
    ensures k <= |s|
    ensures k < |s| ==> s[k] == QUOTE
  {
    if s == "" then 0
    else if s[0] == QUOTE then (if |s| > 1 && s[1] == QUOTE then 2 + QuotedLength(s[2..]) else 0)
    else 1 + QuotedLength(s[1..])
  }

  predicate Separator(c: char, d: char) {
    c == LF || c == CR || c == d
  }

  function PlainLength(s: string, d: char): (k: nat)
    ensures k <= |s|
    ensures forall i :: 0 <= i < k ==> !Separator(s[i], d)
    ensures k < |s| ==> Separator(s[k], d)
  {
    if s == "" || Separator(s[0], d) then 0 else 1 + PlainLength(s[1..], d)
  }

  /** The text after the separator at the start of `s`; CR LF is one separator. */
  function AfterSeparator(s: string): string {
    if s == "" then "" else if s[0] == CR && |s| > 1 && s[1] == LF then s[2..] else s[1..]
  }

  predicate EndsLine(s: string) {
    s != "" && (s[0] == CR || s[0] == LF)
  }

  function NextToken(s: string, eol: bool, d: char): (r: Step)
    ensures r.token.Field? ==> |r.rest| < |s| && !eol
    ensures r.token.EndOfLine? ==> r.rest == s && eol && !r.eol
    ensures r.token.EndOfFile? <==> s == ""
    ensures r.token.EndOfFile? ==> r.rest == ""
  {
    if s == "" then Step(EndOfFile, s, eol)
    else if eol then Step(EndOfLine, s, false)
    else if s[0] == QUOTE then
      var k := QuotedLength(s[1..]);
      var after := if k < |s| - 1 then s[k + 2..] else "";
      Step(Field(Unescape(s[1..k + 1])), AfterSeparator(after), EndsLine(after))
    else
      var k := PlainLength(s, d);
      Step(Field(s[..k]), AfterSeparator(s[k..]), EndsLine(s[k..]))
  }

  /** The rows read from `s`; `row` is the row being filled, None between two rows. */
  function Rows(s: string, eol: bool, row: Option<Row>, d: char): seq<Row>
    decreases |s|, eol
  {
    var t := NextToken(s, eol, d);
    var sofar := if row.Some? then row.value else [];
    match t.token
    case EndOfFile => if row.Some? then [sofar] else []
    case EndOfLine => [sofar] + Rows(t.rest, t.eol, None, d)
    case Field(f) => Rows(t.rest, t.eol, Some(sofar + [f]), d)
  }

  function Parse(text: string, d: char): seq<Row> {
    Rows(text, false, None, d)
  }

  /** The characters by their codes. */
  lemma Codes()
    ensures QUOTE as int == 34 && LF as int == 10 && CR as int == 13
    ensures forall d: char :: PlainDelimiter(d) <==> d as int !in {10, 13, 34, 45, 92, 93}
  {
  }

  /** A table as it is written: a comma, a quote or a line feed makes a field quoted, and quotes are doubled. */
  lemma WrittenText()
    ensures FormatRows([["x,y", "a\"b", "z"], ["", "1\n2"]], ',') == "\"x,y\",\"a\"\"b\",z\n,\"1\n2\""
  {
    WrittenFields();
    hide FormatValue, FormatRow;
    var first, second := ["x,y", "a\"b", "z"], ["", "1\n2"];
    TwoFields("a\"b", "z");
    TwoFields("", "1\n2");
    FieldBefore("x,y", ["a\"b", "z"]);
    assert first == ["x,y"] + ["a\"b", "z"] && [first, second][1..] == [second];
    hide FormatRows;
    OneRow(second);
    RowBefore(first, second);
  }

  lemma FieldBefore(f: string, row: Row)
    requires row != []
    ensures FormatRow([f] + row, ',') == FormatValue(f, ',') + [','] + FormatRow(row, ',')
  {
    hide FormatValue;
    assert ([f] + row)[1..] == row;
  }

  lemma TwoFields(f: string, g: string)
    ensures FormatRow([f, g], ',') == FormatValue(f, ',') + [','] + FormatValue(g, ',')
  {
    hide FormatValue;
    assert [f, g] == [f] + [g];
    FieldBefore(f, [g]);
  }

  lemma OneRow(row: Row)
    ensures FormatRows([row], ',') == FormatRow(row, ',')
  {
  }

  lemma RowBefore(row: Row, next: Row)
    ensures FormatRows([row, next], ',') == FormatRow(row, ',') + [LF] + FormatRow(next, ',')
  {
    hide FormatRow;
    assert [row, next][1..] == [next];
    OneRow(next);
  }

  lemma WrittenFields()
    ensures FormatValue("x,y", ',') == "\"x,y\"" && FormatValue("a\"b", ',') == "\"a\"\"b\""
    ensures FormatValue("z", ',') == "z" && FormatValue("", ',') == "" && FormatValue("1\n2", ',') == "\"1\n2\""
  {
    hide *;
    Quoted("x,y", "x,y", 1);
    Quoted("1\n2", "1\n2", 1);
    Quoted("a\"b", "a\"\"b", 1);
    Unquoted("z");
    Unquoted("");
    assert QUOTE == '\"' by { Codes(); }
    EscapePlain("x,y");
    EscapePlain("1\n2");
    EscapedQuote();
  }

  lemma Quoted(f: string, e: string, i: nat)
    requires i < |f| && (f[i] == ',' || f[i] == '\"' || f[i] == '\n')
    ensures Escape(f) == e ==> FormatValue(f, ',') == "\"" + e + "\""
  {
    hide Escape;
  }

  lemma Unquoted(f: string)
    requires ',' !in f && '\"' !in f && '\n' !in f
    ensures FormatValue(f, ',') == f
  {
    hide Escape;
  }

  lemma EscapedQuote()
    ensures Escape("a\"b") == "a\"\"b"
  {
    EscapePlain("b");
    assert "a\"b"[1..] == "\"b" && "\"b"[1..] == "b";
    assert Escape("\"b") == [QUOTE, QUOTE] + "b";
    assert Escape("a\"b") == ['a'] + Escape("\"b");
  }

  lemma {:induction false} EscapePlain(s: string)
    requires QUOTE !in s
    ensures Escape(s) == s
  {
    if s != "" { EscapePlain(s[1..]); }
  }

  // ---------- what survives ----------

  /** A field the tokenizer reads back: a CR in it is protected by quotes that something else asked for. */
  predicate Safe(field: string, d: char) {
    CR in field ==> NeedsQuotes(field, d)
  }

  predicate SafeRow(row: Row, d: char) {
    row != [] && forall i :: 0 <= i < |row| ==> Safe(row[i], d)
  }

  /** Every row has a field, no unquoted field holds a CR, and the very last field is not empty. */
  predicate Readable(rows: seq<Row>, d: char) {
    && (forall i :: 0 <= i < |rows| ==> SafeRow(rows[i], d))
    && (rows != [] ==> rows[|rows| - 1] != [] && rows[|rows| - 1][|rows[|rows| - 1]| - 1] != "")
  }

  lemma {:induction false} UnescapeEscape(s: string)
    ensures Unescape(Escape(s)) == s
  {
    if s != "" {
      UnescapeEscape(s[1..]);
      var e := Escape(s);
      if s[0] == QUOTE {
        assert e[2..] == Escape(s[1..]);
      } else {
        assert e[1..] == Escape(s[1..]);
      }
    }
  }

  lemma {:induction false} QuotedLengthEscape(s: string, tail: string)
    requires tail == "" || tail[0] != QUOTE
    ensures QuotedLength(Escape(s) + [QUOTE] + tail) == |Escape(s)|
  {
    var t := Escape(s) + [QUOTE] + tail;
    if s != "" {
      QuotedLengthEscape(s[1..], tail);
      var rest := Escape(s[1..]) + [QUOTE] + tail;
      assert t[if s[0] == QUOTE then 2 else 1..] == rest;
    }
  }

  lemma {:induction false} PlainLengthOf(s: string, tail: string, d: char)
    requires forall i :: 0 <= i < |s| ==> !Separator(s[i], d)
    requires tail == "" || Separator(tail[0], d)
    ensures PlainLength(s + tail, d) == |s|
  {
    if s == "" {
      assert s + tail == tail;
    } else {
      PlainLengthOf(s[1..], tail, d);
      assert (s + tail)[1..] == s[1..] + tail;
    }
  }

  /** A safe field followed by the end of the text or a separator is read back whole. */
  lemma {:induction false} FieldReadBack(f: string, tail: string, d: char)
    requires PlainDelimiter(d) && Safe(f, d)
    requires tail == "" || Separator(tail[0], d)
    requires FormatValue(f, d) + tail != ""
    ensures NextToken(FormatValue(f, d) + tail, false, d) == Step(Field(f), AfterSeparator(tail), EndsLine(tail))
  {
    if NeedsQuotes(f, d) {
      QuotedReadBack(f, tail, d);
    } else {
      PlainReadBack(f, tail, d);
    }
  }

  lemma QuotedReadBack(f: string, tail: string, d: char)
    requires tail == "" || tail[0] != QUOTE
    ensures NextToken([QUOTE] + Escape(f) + [QUOTE] + tail, false, d) ==
      Step(Field(f), AfterSeparator(tail), EndsLine(tail))
  {
    hide Escape, Unescape, QuotedLength, PlainLength, AfterSeparator, EndsLine;
    var s := [QUOTE] + Escape(f) + [QUOTE] + tail;
    assert s[1..] == Escape(f) + [QUOTE] + tail;
    QuotedLengthEscape(f, tail);
    UnescapeEscape(f);
    var k := |Escape(f)|;
    assert s[1..k + 1] == Escape(f);
    assert s[k + 2..] == tail;
  }

  lemma PlainFirst(s: string, d: char)
    requires s != "" && s[0] != QUOTE
    ensures var k := PlainLength(s, d);
      NextToken(s, false, d) == Step(Field(s[..k]), AfterSeparator(s[k..]), EndsLine(s[k..]))
  {
    hide PlainLength, AfterSeparator, EndsLine, QuotedLength, Unescape;
  }

  lemma PlainReadBack(f: string, tail: string, d: char)
    requires f + tail != "" && (tail == "" || (Separator(tail[0], d) && tail[0] != QUOTE))
    requires forall i :: 0 <= i < |f| ==> f[i] != QUOTE && !Separator(f[i], d)
    ensures NextToken(f + tail, false, d) == Step(Field(f), AfterSeparator(tail), EndsLine(tail))
  {
    hide Unescape, QuotedLength, PlainLength, AfterSeparator, EndsLine;
    var s := f + tail;
    PlainLengthOf(f, tail, d);
    assert s[..|f|] == f && s[|f|..] == tail;
    assert if f != "" then s[0] == f[0] else s[0] == tail[0];
  }

  /** A field ends at the delimiter, and a line at LF, at CR, or at CR LF. */
  lemma FieldEnds(f: string, rest: string, d: char)
    requires PlainDelimiter(d)
    requires forall i :: 0 <= i < |f| ==> f[i] != '\"' && f[i] != '\r' && f[i] != '\n' && f[i] != d
    ensures NextToken(f + ([d] + rest), false, d) == Step(Field(f), rest, false)
    ensures NextToken(f + ("\n" + rest), false, d) == Step(Field(f), rest, true)
    ensures NextToken(f + ("\r\n" + rest), false, d) == Step(Field(f), rest, true)
    ensures (rest == "" || rest[0] != '\n') ==> NextToken(f + ("\r" + rest), false, d) == Step(Field(f), rest, true)
    ensures f != "" ==> NextToken(f, false, d) == Step(Field(f), "", false)
  {
    hide NextToken, PlainLength;
    assert ([d] + rest)[1..] == rest && ("\n" + rest)[1..] == rest && ("\r" + rest)[1..] == rest;
    assert ("\r\n" + rest)[2..] == rest && f + "" == f;
    PlainReadBack(f, [d] + rest, d);
    PlainReadBack(f, "\n" + rest, d);
    PlainReadBack(f, "\r\n" + rest, d);
    PlainReadBack(f, "\r" + rest, d);
    if f != "" { PlainReadBack(f, "", d); }
  }

  /**
   * After a closing quote one more character goes, whatever it is, and two if they are CR LF; a quote that is not
   * closed takes the rest of the text.
   */
  lemma QuotedEnds(f: string, c: char, rest: string, d: char)
    requires c != '\"'
    ensures var s := [QUOTE] + Escape(f) + [QUOTE] + ([c] + rest);
      NextToken(s, false, d) ==
      if c == '\r' && rest != "" && rest[0] == '\n' then Step(Field(f), rest[1..], true)
      else Step(Field(f), rest, c == '\r' || c == '\n')
    ensures NextToken([QUOTE] + Escape(f), false, d) == Step(Field(f), "", false)
  {
    hide NextToken, QuotedLength, Escape, Unescape;
    QuotedReadBack(f, [c] + rest, d);
    assert ([c] + rest)[1..] == rest && (rest != "" ==> ([c] + rest)[2..] == rest[1..]);
    NotClosed(f, d);
  }

  lemma NotClosed(f: string, d: char)
    ensures NextToken([QUOTE] + Escape(f), false, d) == Step(Field(f), "", false)
  {
    hide Escape, Unescape, QuotedLength, PlainLength;
    var s := [QUOTE] + Escape(f);
    assert s[1..] == Escape(f);
    QuotedLengthOpen(f);
    UnescapeEscape(f);
    assert s[1..|Escape(f)| + 1] == Escape(f);
  }

  lemma {:induction false} QuotedLengthOpen(s: string)
    ensures QuotedLength(Escape(s)) == |Escape(s)|
  {
    if s != "" {
      QuotedLengthOpen(s[1..]);
      assert Escape(s)[if s[0] == QUOTE then 2 else 1..] == Escape(s[1..]);
    }
  }

  /** An unquoted field with a CR is read back cut at the CR. */
  lemma {:induction false} UnsafeFieldCut(f: string, tail: string, d: char)
    requires PlainDelimiter(d) && !Safe(f, d)
    ensures var t := NextToken(FormatValue(f, d) + tail, false, d); t.token.Field? && t.token.field != f
  {
    var s := f + tail;
    var i :| 0 <= i < |f| && f[i] == CR;
    assert s[i] == CR;
    assert s[0] == f[0] && f[0] in f;
    var k := PlainLength(s, d);
    assert |s[..k]| < |f|;
  }

  /** The row being filled is the beginning of the first row returned. */
  lemma {:induction false} RowsExtend(s: string, eol: bool, row: Row, d: char)
    ensures var r := Rows(s, eol, Some(row), d); r != [] && row <= r[0]
    decreases |s|, eol
  {
    var t := NextToken(s, eol, d);
    if t.token.Field? {
      RowsExtend(t.rest, t.eol, row + [t.token.field], d);
    }
  }

  /** The reader never returns an empty row. */
  lemma {:induction false} RowsNotEmpty(s: string, eol: bool, row: Option<Row>, d: char)
    requires if row.Some? then row.value != [] else !eol
    ensures forall i :: 0 <= i < |Rows(s, eol, row, d)| ==> Rows(s, eol, row, d)[i] != []
    decreases |s|, eol
  {
    var t := NextToken(s, eol, d);
    var sofar := if row.Some? then row.value else [];
    match t.token
    case EndOfFile =>
    case EndOfLine => RowsNotEmpty(t.rest, t.eol, None, d);
    case Field(f) => RowsNotEmpty(t.rest, t.eol, Some(sofar + [f]), d);
  }

  /** The text of the rest of a row and of the rows after it. */
  function Remaining(fields: Row, rows: seq<Row>, d: char): string {
    FormatRow(fields, d) + (if rows == [] then "" else [LF] + FormatRows(rows, d))
  }

  predicate ReadableRest(fields: Row, rows: seq<Row>, d: char)
    requires fields != []
  {
    && SafeRow(fields, d) && Readable(rows, d)
    && (rows == [] ==> fields[|fields| - 1] != "")
  }

  /** What follows the first field in the text. */
  function Tail(fields: Row, rows: seq<Row>, d: char): string
    requires fields != []
  {
    if |fields| > 1 then [d] + Remaining(fields[1..], rows, d)
    else if rows == [] then "" else [LF] + FormatRows(rows, d)
  }

  lemma {:induction false} ReadableSplit(rows: seq<Row>, d: char)
    requires rows != [] && rows[0] != []
    ensures Readable(rows, d) <==> ReadableRest(rows[0], rows[1..], d)
  {
    assert forall i :: 0 < i < |rows| ==> rows[i] == rows[1..][i - 1];
  }

  lemma {:induction false} ReadableRestSplit(fields: Row, rows: seq<Row>, d: char)
    requires |fields| > 1 && Safe(fields[0], d)
    ensures ReadableRest(fields, rows, d) <==> ReadableRest(fields[1..], rows, d)
  {
    assert forall i :: 0 < i < |fields| ==> fields[i] == fields[1..][i - 1];
    hide Safe, Readable;
  }

  lemma {:induction false} RemainingIs(fields: Row, rows: seq<Row>, d: char)
    requires fields != []
    ensures Remaining(fields, rows, d) == FormatValue(fields[0], d) + Tail(fields, rows, d)
    ensures Remaining(fields, rows, d) == "" ==> fields == [""] && rows == []
  {
    hide FormatRows, FormatValue;
    var v, after := FormatValue(fields[0], d), if rows == [] then "" else [LF] + FormatRows(rows, d);
    if |fields| > 1 {
      Joined(v, [d], FormatRow(fields[1..], d), after);
    }
    if FormatRow(fields, d) == "" { RemainingEmpty(fields, d); }
  }

  lemma Joined(a: string, b: string, c: string, e: string)
    ensures a + b + c + e == a + (b + (c + e))
  {
  }

  lemma RemainingEmpty(fields: Row, d: char)
    requires fields != [] && FormatRow(fields, d) == ""
    ensures fields == [""]
  {
    hide Escape;
  }

  /** A field that is not safe spoils the table: the first row returned differs at that field. */
  lemma {:induction false} UnsafeSpoils(done: Row, fields: Row, rows: seq<Row>, d: char)
    requires PlainDelimiter(d) && fields != [] && !Safe(fields[0], d)
    ensures Rows(Remaining(fields, rows, d), false, if done == [] then None else Some(done), d) !=
      [done + fields] + rows
  {
    var f, s := fields[0], Remaining(fields, rows, d);
    RemainingIs(fields, rows, d);
    UnsafeFieldCut(f, Tail(fields, rows, d), d);
    var t := NextToken(s, false, d);
    hide Remaining, Tail, NextToken, Safe;
    var row := if done == [] then None else Some(done);
    assert (if row.Some? then row.value else []) == done;
    assert Rows(s, false, row, d) == Rows(t.rest, t.eol, Some(done + [t.token.field]), d);
    RowsExtend(t.rest, t.eol, done + [t.token.field], d);
    assert (done + [t.token.field])[|done|] != (done + fields)[|done|];
  }

  /** A safe field is read back, and reading goes on after its separator. */
  lemma {:induction false} SafeGoesOn(done: Row, fields: Row, rows: seq<Row>, d: char)
    requires PlainDelimiter(d) && fields != [] && Safe(fields[0], d) && Remaining(fields, rows, d) != ""
    ensures var tail := Tail(fields, rows, d);
      Rows(Remaining(fields, rows, d), false, if done == [] then None else Some(done), d)
      == Rows(AfterSeparator(tail), EndsLine(tail), Some(done + [fields[0]]), d)
  {
    RemainingIs(fields, rows, d);
    FieldReadBack(fields[0], Tail(fields, rows, d), d);
    hide Remaining, NextToken, Safe, FormatValue;
    var row := if done == [] then None else Some(done);
    assert (if row.Some? then row.value else []) == done;
  }

  lemma {:induction false} EmptyFieldLost(done: Row, d: char)
    ensures Rows("", false, if done == [] then None else Some(done), d) != [done + [""]]
  {
    assert |[done + [""]][0]| == |done| + 1;
  }

  /** Reading goes on to give back the rest of the table exactly when the rest is readable. */
  lemma {:induction false} ReadBackRest(done: Row, fields: Row, rows: seq<Row>, d: char)
    requires PlainDelimiter(d) && fields != []
    ensures ReadableRest(fields, rows, d) <==>
      Rows(Remaining(fields, rows, d), false, if done == [] then None else Some(done), d) == [done + fields] + rows
    decreases |rows|, |fields| + 1
  {
    hide Rows, FormatValue, FormatRow, FormatRows, Readable, AfterSeparator, EndsLine, Safe, Remaining, Tail;
    var f := fields[0];
    RemainingIs(fields, rows, d);
    if !Safe(f, d) {
      UnsafeSpoils(done, fields, rows, d);
    } else if Remaining(fields, rows, d) == "" {
      EmptyFieldLost(done, d);
      assert [done + fields] + rows == [done + [""]];
    } else {
      SafeGoesOn(done, fields, rows, d);
      if |fields| > 1 {
        ReadBackRest(done + [f], fields[1..], rows, d);
        assert (done + [f]) + fields[1..] == done + fields;
        TailWithinRow(fields, rows, d);
        ReadableRestSplit(fields, rows, d);
      } else {
        assert done + [f] == done + fields;
        TailAfterRow(fields, rows, d);
        if rows != [] {
          ReadBackRows(done + fields, rows, d);
        } else {
          LastField(done + [f], d);
          assert [done + fields] + rows == [done + [f]] + [];
        }
      }
    }
  }

  lemma {:induction false} TailWithinRow(fields: Row, rows: seq<Row>, d: char)
    requires |fields| > 1 && PlainDelimiter(d)
    ensures AfterSeparator(Tail(fields, rows, d)) == Remaining(fields[1..], rows, d) && !EndsLine(Tail(fields, rows, d))
  {
    hide Remaining;
  }

  lemma {:induction false} TailAfterRow(fields: Row, rows: seq<Row>, d: char)
    requires |fields| == 1
    ensures AfterSeparator(Tail(fields, rows, d)) == FormatRows(rows, d)
      && (EndsLine(Tail(fields, rows, d)) <==> rows != [])
    ensures rows == [] ==>
      Readable(rows, d) && FormatRows(rows, d) == "" && (Remaining(fields, rows, d) != "" ==> fields[0] != "")
  {
    RemainingIs(fields, rows, d);
  }

  lemma {:induction false} LastField(row: Row, d: char)
    ensures Rows("", false, Some(row), d) == [row] + []
  {
  }

  lemma {:induction false} NoText(rows: seq<Row>, d: char)
    requires rows != [] && FormatRows(rows, d) == ""
    ensures rows[0] == [] || rows == [[""]]
  {
    if rows[0] != [] {
      RowsRemaining(rows, d);
      RemainingIs(rows[0], rows[1..], d);
      assert rows == [rows[0]] + rows[1..];
    }
  }

  lemma {:induction false} RowsRemaining(rows: seq<Row>, d: char)
    requires rows != []
    ensures FormatRows(rows, d) == Remaining(rows[0], rows[1..], d)
    ensures [[] + rows[0]] + rows[1..] == rows
  {
    assert [] + rows[0] == rows[0];
  }

  /** From the start of a row to the end of the text. */
  lemma {:induction false} ReadBackWhole(rows: seq<Row>, d: char)
    requires PlainDelimiter(d) && rows != []
    ensures Rows(FormatRows(rows, d), false, None, d) == rows <==> Readable(rows, d)
    decreases |rows|, 0
  {
    var s := FormatRows(rows, d);
    if rows[0] == [] {
      RowsNotEmpty(s, false, None, d);
    } else {
      ReadBackRest([], rows[0], rows[1..], d);
      RowsRemaining(rows, d);
      ReadableSplit(rows, d);
    }
  }

  lemma {:induction false} ReadBackRows(first: Row, rows: seq<Row>, d: char)
    requires PlainDelimiter(d) && rows != [] && first != []
    ensures Rows(FormatRows(rows, d), true, Some(first), d) == [first] + rows <==> Readable(rows, d)
    decreases |rows|, 1
  {
    var s := FormatRows(rows, d);
    if s == "" {
      NoText(rows, d);
      assert Rows(s, true, Some(first), d) == [first];
      assert |[first] + rows| == 1 + |rows|;
    } else {
      hide FormatRows, Readable;
      ReadBackWhole(rows, d);
      var rest := Rows(s, false, None, d);
      assert Rows(s, true, Some(first), d) == [first] + rest;
      assert ([first] + rest)[1..] == rest && ([first] + rows)[1..] == rows;
    }
  }

  /** Reading what was written gives back the table exactly when the table is readable. */
  lemma {:induction false} RoundTrip(rows: seq<Row>, d: char)
    requires PlainDelimiter(d)
    ensures Parse(FormatRows(rows, d), d) == rows <==> Readable(rows, d)
  {
    if rows != [] { ReadBackWhole(rows, d); }
  }

  // ---------- the tokenizer as the program runs it ----------

  /** `text.charCodeAt(i) === c`; outside the text the code is not a number and equals nothing. */
  predicate CharAt(text: string, i: int, c: char) {
    0 <= i < |text| && text[i] == c
  }

  class Tokenizer {
    const text: string
    const delimiter: char
    var index: nat
    var eol: bool

    constructor (text: string, delimiter: char)
      ensures this.text == text && this.delimiter == delimiter && index == 0 && !eol
    {
      this.text, this.delimiter, index, eol := text, delimiter, 0, false;
    }

    /** The text still to be read; the index may have run past the end. */
    function Rest(): string
      reads this
    {
      if index <= |text| then text[index..] else ""
    }

    method Next() returns (t: Token)
      requires delimiter != CR && delimiter != LF
      modifies this
      ensures Step(t, Rest(), eol) == NextToken(old(Rest()), old(eol), delimiter)
    {
      if index >= |text| { return EndOfFile; }
      if eol {
        eol := false;
        return EndOfLine;
      }
      if text[index] == QUOTE { t := NextQuoted(); } else { t := NextPlain(); }
    }

    /** The index of the closing quote of the field at `j`, one past the end of the text if there is none. */
    method ClosingQuote(j: nat) returns (i: nat)
      requires j < |text|
      ensures QuotedEnd(j, i)
    {
      hide QuotedLength;
      i := j;
      ghost var s := text[j + 1..];
      while i < |text|
        invariant j <= i <= |text|
        invariant i < |text| ==> i - j + QuotedLength(text[i + 1..]) == QuotedLength(s)
        invariant i == |text| ==> QuotedLength(s) == |s|
      {
        QuotedAt(i + 1);
        i := i + 1;
        if CharAt(text, i, QUOTE) {
          if !CharAt(text, i + 1, QUOTE) { return; }
          i := i + 1;
        }
      }
      i := i + 1; // the test of `i++ < N` that fails still counts
    }

    lemma QuotedAt(i: nat)
      requires i <= |text|
      ensures QuotedLength(text[i..]) ==
                if i == |text| then 0
                else if text[i] != QUOTE then 1 + QuotedLength(text[i + 1..])
                else if i + 1 < |text| && text[i + 1] == QUOTE then 2 + QuotedLength(text[i + 2..])
                else 0
    {
      if i < |text| { assert text[i..][1..] == text[i + 1..]; }
      if i + 1 < |text| { assert text[i..][2..] == text[i + 2..]; }
    }

    ghost predicate QuotedEnd(j: nat, i: nat)
      requires j < |text|
    {
      if i < |text| then j < i && i - j - 1 == QuotedLength(text[j + 1..])
      else i == |text| + 1 && QuotedLength(text[j + 1..]) == |text| - j - 1
    }

    /** A field that starts with a quote: up to the closing quote, then past one separator. */
    method NextQuoted() returns (t: Token)
      requires index < |text| && text[index] == QUOTE && !eol
      modifies this
      ensures Step(t, Rest(), eol) == NextToken(old(Rest()), false, delimiter)
    {
      hide NextToken;
      var j := index;
      var i := ClosingQuote(j);
      QuotedStep(j, i);
      index := i + 2;
      if CharAt(text, i + 1, CR) {
        eol := true;
        if CharAt(text, i + 2, LF) { index := index + 1; }
      } else if CharAt(text, i + 1, LF) {
        eol := true;
      }
      t := Field(Unescape(text[j + 1..if i <= |text| then i else |text|]));
    }

    lemma QuotedStep(j: nat, i: nat)
      requires j < |text| && text[j] == QUOTE && QuotedEnd(j, i)
      ensures var after := if i + 1 <= |text| then text[i + 1..] else "";
        NextToken(text[j..], false, delimiter)
        == Step(Field(Unescape(text[j + 1..if i <= |text| then i else |text|])), AfterSeparator(after), EndsLine(after))
    {
      var s := text[j..];
      assert s[1..] == text[j + 1..];
      var k := QuotedLength(s[1..]);
      assert text[j + 1..if i <= |text| then i else |text|] == s[1..k + 1];
      if i < |text| { assert s[k + 2..] == text[i + 1..]; }
    }

    /** Any other field: up to the next separator, and past it. */
    method NextPlain() returns (t: Token)
      requires index < |text| && text[index] != QUOTE && !eol && delimiter != CR && delimiter != LF
      modifies this
      ensures Step(t, Rest(), eol) == NextToken(old(Rest()), false, delimiter)
    {
      hide NextToken, PlainLength, AfterSeparator, EndsLine;
      var j := index;
      while index < |text|
        invariant j <= index <= |text| && !eol
        invariant index - j + PlainLength(text[index..], delimiter) == PlainLength(text[j..], delimiter)
      {
        PlainAt(index);
        SeparatorAt(index);
        var c, k := text[index], 1;
        index := index + 1;
        if c == LF {
          eol := true;
        } else if c == CR {
          eol := true;
          if CharAt(text, index, LF) { index, k := index + 1, k + 1; }
        } else if c != delimiter {
          continue;
        }
        assert Rest() == AfterSeparator(text[index - k..]) && eol == EndsLine(text[index - k..]);
        PlainStep(j, index - k);
        return Field(text[j..index - k]);
      }
      PlainAt(index);
      SeparatorAt(index);
      PlainStep(j, |text|);
      return Field(text[j..]);
    }

    lemma PlainAt(i: nat)
      requires i <= |text|
      ensures PlainLength(text[i..], delimiter) ==
                if i == |text| || Separator(text[i], delimiter) then 0 else 1 + PlainLength(text[i + 1..], delimiter)
    {
      if i < |text| { assert text[i..][1..] == text[i + 1..]; }
    }

    lemma SeparatorAt(i: nat)
      requires i <= |text|
      ensures EndsLine(text[i..]) <==> i < |text| && (text[i] == CR || text[i] == LF)
      ensures AfterSeparator(text[i..]) ==
                if i == |text| then "" else if text[i] == CR && i + 1 < |text| && text[i + 1] == LF then text[i + 2..]
                  else text[i + 1..]
    {
    }

    lemma PlainStep(j: nat, e: nat)
      requires j <= e <= |text| && j < |text| && text[j] != QUOTE && e - j == PlainLength(text[j..], delimiter)
      ensures NextToken(text[j..], false, delimiter) ==
        Step(Field(text[j..e]), AfterSeparator(text[e..]), EndsLine(text[e..]))
    {
      hide *;
      PlainFirst(text[j..], delimiter);
      assert text[j..][e - j..] == text[e..];
      assert text[j..][..e - j] == text[j..e];
    }
  }

  /** The inner loop of `parseRows`: fields up to the end of the line or of the text. */
  method ReadRow(tokenizer: Tokenizer, first: Token, ghost start: string, ghost startPending: bool) returns (a: Row)
    requires tokenizer.delimiter != CR && tokenizer.delimiter != LF && first != EndOfFile
    requires Step(first, tokenizer.Rest(), tokenizer.eol) == NextToken(start, startPending, tokenizer.delimiter)
    modifies tokenizer
    ensures Rows(start, startPending, None, tokenizer.delimiter) ==
      [a] + Rows(tokenizer.Rest(), tokenizer.eol, None, tokenizer.delimiter)
    ensures |tokenizer.Rest()| < |start| || (|tokenizer.Rest()| == |start| && startPending && !tokenizer.eol)
  {
    hide NextToken;
    a := [];
    var t := first;
    ghost var before, pending := start, startPending;
    while t != EndOfLine && t != EndOfFile
      invariant Step(t, tokenizer.Rest(), tokenizer.eol) == NextToken(before, pending, tokenizer.delimiter)
      invariant a == [] ==> before == start && pending == startPending && t != EndOfFile
      invariant |before| < |start| || (before == start && pending == startPending)
      invariant Rows(start, startPending, None, tokenizer.delimiter)
             == Rows(before, pending, if a == [] then None else Some(a), tokenizer.delimiter)
      decreases |before|, pending
    {
      a := a + [t.field];
      before, pending := tokenizer.Rest(), tokenizer.eol;
      t := tokenizer.Next();
    }
  }

  lemma ParseIs(text: string, d: char)
    ensures Parse(text, d) == Rows(text, false, None, d)
  {
  }

  lemma RowsEnd(s: string, eol: bool, d: char)
    requires NextToken(s, eol, d).token == EndOfFile
    ensures Rows(s, eol, None, d) == []
  {
  }

  lemma OneMoreRow(rows: seq<Row>, a: Row, rest: seq<Row>)
    ensures rows + ([a] + rest) == rows + [a] + rest
  {
  }

  /** `parseRows` without a row function, for any text. */
  method ParseRows(text: string, delimiter: char) returns (rows: seq<Row>)
    requires delimiter != CR && delimiter != LF
    ensures rows == Parse(text, delimiter)
  {
    hide NextToken, Rows, Parse;
    ParseIs(text, delimiter);
    rows := [];
    var tokenizer := new Tokenizer(text, delimiter);
    ghost var before, pending := text, false;
    var t := tokenizer.Next();
    while t != EndOfFile
      invariant fresh(tokenizer) && tokenizer.delimiter == delimiter
      invariant Step(t, tokenizer.Rest(), tokenizer.eol) == NextToken(before, pending, delimiter)
      invariant rows + Rows(before, pending, None, delimiter) == Parse(text, delimiter)
      decreases |before|, pending
    {
      var a := ReadRow(tokenizer, t, before, pending);
      OneMoreRow(rows, a, Rows(tokenizer.Rest(), tokenizer.eol, None, delimiter));
      rows := rows + [a];
      before, pending := tokenizer.Rest(), tokenizer.eol;
      t := tokenizer.Next();
    }
    RowsEnd(before, pending, delimiter);
    assert rows + [] == rows;
  }
}
