/**
 * The CSV export shared by both scripts' `downloadCSV`: seven metadata and
 * separator rows followed by every stored row, each cell wrapped in double
 * quotes with inner quotes doubled (section 2, rule 7 of RFC 4180), cells
 * joined by "," and rows by "\n" (not the CRLF of rule 1). A reference decoder
 * shows that the encoding is unambiguous.
 */
module Csv {
  import opened Wrappers
  import opened Records

  predicate IsDigit(c: char) {
    '0' <= c <= '9'
  }

  predicate AllDigits(s: string) {
    forall i :: 0 <= i < |s| ==> IsDigit(s[i])
  }

  /** A decimal numeral as `toString` writes one: digits only, no leading zero except in "0". */
  predicate Numeral(s: string) {
    s != [] && AllDigits(s) && (|s| > 1 ==> s[0] != '0')
  }

  function DigitChar(d: nat): (c: char)
    requires d < 10
    ensures IsDigit(c) && c as int - '0' as int == d
  {
    ('0' as int + d) as char
  }

  /** Decimal digits of `n` without leading zeros. */
  function NatToString(n: nat): (r: string)
    ensures Numeral(r)
    ensures n > 0 ==> r[0] != '0'
    decreases n
  {
    if n < 10 then [DigitChar(n)] else NatToString(n / 10) + [DigitChar(n % 10)]
  }

  /** `Number.prototype.toString` on an integer: an optional minus sign, then a numeral. */
  function IntToString(i: int): (r: string)
    ensures i >= 0 ==> Numeral(r) && DecimalValue(r) == i
    ensures i < 0 ==> |r| > 1 && r[0] == '-' && Numeral(r[1..]) && DecimalValue(r[1..]) == -i
  {
    if i < 0 then
      DecimalRoundTrip(-i);
      assert ("-" + NatToString(-i))[1..] == NatToString(-i);
      "-" + NatToString(-i)
    else
      DecimalRoundTrip(i);
      NatToString(i)
  }

  /** The number a string of decimal digits denotes. */
  function DecimalValue(s: string): int
    requires AllDigits(s)
  {
    if s == [] then 0 else DecimalValue(s[..|s| - 1]) * 10 + (s[|s| - 1] as int - '0' as int)
  }

  /** The decimal rendering is read back as the same number. */
  lemma {:induction false} DecimalRoundTrip(n: nat)
    ensures DecimalValue(NatToString(n)) == n
    decreases n
  {
    if n >= 10 {
      DecimalRoundTrip(n / 10);
      var s := NatToString(n);
      assert s[..|s| - 1] == NatToString(n / 10);
    }
  }

  /** A numeral that does not start with '0' denotes a positive number. */
  lemma {:induction false} LeadingDigitPositive(s: string)
    requires s != [] && AllDigits(s) && s[0] != '0'
    ensures DecimalValue(s) > 0
    decreases |s|
  {
    if |s| > 1 {
      var p := s[..|s| - 1];
      assert p[0] == s[0];
      LeadingDigitPositive(p);
    }
  }

  /**
   * Numerals and natural numbers correspond one to one: the rendering of `n`
   * is the only numeral that denotes `n`.
   */
  lemma {:induction false} NumeralUnique(s: string, n: nat)
    requires Numeral(s) && DecimalValue(s) == n
    ensures s == NatToString(n)
    decreases |s|
  {
    if |s| > 1 {
      var p := s[..|s| - 1];
      var d := s[|s| - 1] as int - '0' as int;
      assert p[0] == s[0];
      LeadingDigitPositive(p);
      assert DecimalValue(s) == DecimalValue(p) * 10 + d && 0 <= d < 10;
      assert n / 10 == DecimalValue(p) && n % 10 == d;
      NumeralUnique(p, n / 10);
      assert s == p + [s[|s| - 1]];
    }
  }

  /** `(cell || '').toString()`: the empty string and the number 0 are falsy and give "". */
  function CellText(c: Cell): (r: string)
    ensures c == Str([]) || c == Num(0) ==> r == []
    ensures c.Str? ==> r == c.s
    ensures c.Num? && c.n > 0 ==> Numeral(r) && DecimalValue(r) == c.n
    ensures c.Num? && c.n < 0 ==> |r| > 1 && r[0] == '-' && Numeral(r[1..]) && DecimalValue(r[1..]) == -c.n
  {
    match c
    case Str(s) => s
    case Num(n) => if n == 0 then [] else IntToString(n)
  }

  function RowText(row: Row): (r: seq<string>)
    ensures |r| == |row| && forall i :: 0 <= i < |row| ==> r[i] == CellText(row[i])
  {
    if row == [] then [] else [CellText(row[0])] + RowText(row[1..])
  }

  function RowTexts(rows: seq<Row>): (r: seq<seq<string>>)
    ensures |r| == |rows| && forall i :: 0 <= i < |rows| ==> r[i] == RowText(rows[i])
  {
    if rows == [] then [] else [RowText(rows[0])] + RowTexts(rows[1..])
  }

  /** `Array.prototype.join`. */
  function Join(parts: seq<string>, sep: string): string {
    if parts == [] then []
    else if |parts| == 1 then parts[0]
    else parts[0] + sep + Join(parts[1..], sep)
  }

  /** `replace(/"/g, '""')`. */
  function Escape(s: string): string {
    if s == [] then [] else (if s[0] == '"' then "\"\"" else [s[0]]) + Escape(s[1..])
  }

  /** One encoded cell: the text in double quotes, inner quotes doubled. */
  function Quote(s: string): string {
    "\"" + Escape(s) + "\""
  }

  /** `row.map(quote).join(',')`. */
  function EncodeRow(cells: seq<string>): string {
    if cells == [] then []
    else if |cells| == 1 then Quote(cells[0])
    else Quote(cells[0]) + "," + EncodeRow(cells[1..])
  }

  /** `rows.map(encodeRow).join('\n')`. */
  function EncodeLines(rows: seq<seq<string>>): string {
    if rows == [] then []
    else if |rows| == 1 then EncodeRow(rows[0])
    else EncodeRow(rows[0]) + "\n" + EncodeLines(rows[1..])
  }

  // The reference decoder.

  /**
   * Reads the inside of a quoted cell, just after its opening quote: a doubled
   * quote stands for one quote and a single quote closes the cell. Gives the
   * cell's text and what follows the closing quote.
   */
  function ReadQuoted(s: string): (r: Option<(string, string)>)
    ensures r != None ==> |r.value.1| < |s|
    decreases |s|
  {
    if s == [] then None
    else if s[0] == '"' then
      if |s| > 1 && s[1] == '"' then
        match ReadQuoted(s[2..])
        case None => None
        case Some(p) => Some(("\"" + p.0, p.1))
      else Some(([], s[1..]))
    else
      match ReadQuoted(s[1..])
      case None => None
      case Some(p) => Some(([s[0]] + p.0, p.1))
  }

  /** Reads one or more quoted cells separated by commas. */
  function ReadCells(s: string): (r: Option<(seq<string>, string)>)
    ensures r != None ==> |r.value.1| < |s|
    decreases |s|
  {
    if s == [] || s[0] != '"' then None
    else
      match ReadQuoted(s[1..])
      case None => None
      case Some(p) =>
        if p.1 != [] && p.1[0] == ',' then
          match ReadCells(p.1[1..])
          case None => None
          case Some(q) => Some(([p.0] + q.0, q.1))
        else Some(([p.0], p.1))
  }

  /** Reads one line: no cells at all, or one or more quoted cells. */
  function ReadLine(s: string): (r: Option<(seq<string>, string)>)
    ensures r != None ==> |r.value.1| <= |s|
  {
    if s == [] || s[0] == '\n' then Some(([], s)) else ReadCells(s)
  }

  /** Decodes a whole document into its rows of cell texts. */
  function ParseCsv(s: string): Option<seq<seq<string>>>
    decreases |s|
  {
    match ReadLine(s)
    case None => None
    case Some(p) =>
      if p.1 == [] then Some([p.0])
      else if p.1[0] == '\n' then
        match ParseCsv(p.1[1..])
        case None => None
        case Some(more) => Some([p.0] + more)
      else None
  }

  /** Strips the outer quotes of one encoded cell and un-doubles the inner ones. */
  function Unquote(q: string): Option<string> {
    if q == [] || q[0] != '"' then None
    else
      match ReadQuoted(q[1..])
      case Some(p) => if p.1 == [] then Some(p.0) else None
      case None => None
  }

  lemma {:induction false} ReadQuotedEscape(t: string, rest: string)
    requires rest == [] || rest[0] != '"'
    ensures ReadQuoted(Escape(t) + "\"" + rest) == Some((t, rest))
  {
    var s := Escape(t) + "\"" + rest;
    if t == [] {
      assert s == "\"" + rest;
      assert s[1..] == rest;
    } else {
      ReadQuotedEscape(t[1..], rest);
      var tail := Escape(t[1..]) + "\"" + rest;
      if t[0] == '"' {
        assert s == "\"\"" + tail;
        assert s[2..] == tail;
        assert "\"" + t[1..] == t;
      } else {
        assert s == [t[0]] + tail;
        assert s[1..] == tail;
        assert [t[0]] + t[1..] == t;
      }
    }
  }

  /** Cell round trip: un-quoting an encoded cell gives back its text. */
  lemma UnquoteQuote(s: string)
    ensures Unquote(Quote(s)) == Some(s)
  {
    ReadQuotedEscape(s, []);
    assert Quote(s)[1..] == Escape(s) + "\"" + [];
  }

  lemma {:induction false} ReadCellsEncodeRow(cells: seq<string>, rest: string)
    requires cells != []
    requires rest == [] || rest[0] == '\n'
    ensures ReadCells(EncodeRow(cells) + rest) == Some((cells, rest))
    decreases |cells|, 1
  {
    if |cells| == 1 {
      ReadOneCell(cells, rest);
    } else {
      ReadManyCells(cells, rest);
    }
  }

  lemma ReadOneCell(cells: seq<string>, rest: string)
    requires |cells| == 1
    requires rest == [] || rest[0] == '\n'
    ensures ReadCells(EncodeRow(cells) + rest) == Some((cells, rest))
  {
    var s := EncodeRow(cells) + rest;
    EncodeOneCell(cells, rest);
    ReadQuotedEscape(cells[0], rest);
    ReadCellsLast(s, cells[0], rest);
    assert [cells[0]] == cells;
  }

  lemma {:induction false} ReadManyCells(cells: seq<string>, rest: string)
    requires |cells| > 1
    requires rest == [] || rest[0] == '\n'
    ensures ReadCells(EncodeRow(cells) + rest) == Some((cells, rest))
    decreases |cells|, 0
  {
    var tail := EncodeRow(cells[1..]) + rest;
    var after := "," + EncodeRow(cells[1..]) + rest;
    EncodeCells(cells, rest);
    assert after[0] == ',' && after[1..] == tail;
    ReadQuotedEscape(cells[0], after);
    ReadCellsEncodeRow(cells[1..], rest);
    ReadCellsCons(EncodeRow(cells) + rest, cells[0], after, cells[1..], rest);
    assert [cells[0]] + cells[1..] == cells;
  }

  /** A first cell not followed by a comma is the whole row. */
  lemma ReadCellsLast(s: string, t: string, after: string)
    requires s != [] && s[0] == '"' && ReadQuoted(s[1..]) == Some((t, after))
    requires after == [] || after[0] != ','
    ensures ReadCells(s) == Some(([t], after))
  {
  }

  /** A first cell followed by a comma and more cells heads the row. */
  lemma ReadCellsCons(s: string, t: string, after: string, more: seq<string>, rest: string)
    requires s != [] && s[0] == '"' && ReadQuoted(s[1..]) == Some((t, after))
    requires after != [] && after[0] == ',' && ReadCells(after[1..]) == Some((more, rest))
    ensures ReadCells(s) == Some(([t] + more, rest))
  {
  }

  lemma EncodeOneCell(cells: seq<string>, rest: string)
    requires |cells| == 1
    ensures var s := EncodeRow(cells) + rest;
      s != [] && s[0] == '"' && s[1..] == Escape(cells[0]) + "\"" + rest
  {
    var e := Escape(cells[0]);
    assert EncodeRow(cells) == "\"" + e + "\"" + [];
    Regroup(e, [], rest);
    assert EncodeRow(cells) + rest == "\"" + e + "\"" + [] + rest;
  }

  lemma EncodeCells(cells: seq<string>, rest: string)
    requires |cells| > 1
    ensures var s := EncodeRow(cells) + rest;
      s != [] && s[0] == '"' && s[1..] == Escape(cells[0]) + "\"" + ("," + EncodeRow(cells[1..]) + rest)
  {
    var tail := "," + EncodeRow(cells[1..]);
    var e := Escape(cells[0]);
    assert EncodeRow(cells) == "\"" + e + "\"" + tail;
    Regroup(e, tail, rest);
    assert EncodeRow(cells) + rest == "\"" + e + "\"" + tail + rest;
  }

  lemma Regroup(e: string, tail: string, rest: string)
    ensures var s := "\"" + e + "\"" + tail + rest;
      s[0] == '"' && s[1..] == e + "\"" + (tail + rest)
  {
    var s := "\"" + e + "\"" + tail + rest;
    assert s == "\"" + (e + "\"" + (tail + rest));
  }

  lemma ReadLineEncodeRow(cells: seq<string>, rest: string)
    requires rest == [] || rest[0] == '\n'
    ensures ReadLine(EncodeRow(cells) + rest) == Some((cells, rest))
  {
    if cells == [] {
      assert EncodeRow(cells) + rest == rest;
    } else {
      ReadCellsEncodeRow(cells, rest);
    }
  }

  /** Document round trip: decoding an encoded, non-empty list of rows gives the rows back. */
  lemma {:induction false} ParseEncodeLines(rows: seq<seq<string>>)
    requires rows != []
    ensures ParseCsv(EncodeLines(rows)) == Some(rows)
  {
    if |rows| == 1 {
      ParseOneLine(rows[0]);
      assert [rows[0]] == rows;
    } else {
      ParseEncodeLines(rows[1..]);
      ParseLineThen(rows[0], EncodeLines(rows[1..]), rows[1..]);
      assert [rows[0]] + rows[1..] == rows;
    }
  }

  lemma ParseOneLine(cells: seq<string>)
    ensures ParseCsv(EncodeRow(cells)) == Some([cells])
  {
    ReadLineEncodeRow(cells, []);
    assert EncodeRow(cells) + [] == EncodeRow(cells);
  }

  lemma ParseLineThen(cells: seq<string>, tail: string, more: seq<seq<string>>)
    requires ParseCsv(tail) == Some(more)
    ensures ParseCsv(EncodeRow(cells) + "\n" + tail) == Some([cells] + more)
  {
    var after := "\n" + tail;
    ReadLineEncodeRow(cells, after);
    assert EncodeRow(cells) + "\n" + tail == EncodeRow(cells) + after;
    assert after[1..] == tail;
  }
}
