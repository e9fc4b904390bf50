/**
 * The Google-Sheets import of training programs: a character-level CSV
 * parser (quotes, doubled quotes, CR LF) and the mapping of each data row to
 * a program session (header skip, quote clean-up, Month-Day dates, rest days).
 */
module Sheets {
  import opened Common

  // ------------------------------------------------------------ CSV parser

  /** The parser's variables between two characters. */
  datatype CsvState = CsvState(rows: seq<seq<string>>, row: seq<string>, cell: string, inQuotes: bool)

  const Start := CsvState([], [], "", false)

  /** A delimiter outside quotes: the cell joins the row and the row is emitted. */
  function EndRow(st: CsvState): CsvState
  {
    CsvState(st.rows + [st.row + [st.cell]], [], "", st.inQuotes)
  }

  /** After the last character: a pending cell or row is flushed only when non-empty. */
  function Finish(st: CsvState): seq<seq<string>>
  {
    if |st.cell| > 0 || |st.row| > 0 then st.rows + [st.row + [st.cell]] else st.rows
  }

  /** The rows produced by reading the rest `s` of the input from state `st`. */
  function Run(st: CsvState, s: string): seq<seq<string>>
    decreases |s|
  {
    if s == [] then Finish(st)
    else if s[0] == '"' && |s| > 1 && s[1] == '"' then Run(st.(cell := st.cell + ['"']), s[2..])
    else if s[0] == '"' then Run(st.(inQuotes := !st.inQuotes), s[1..])
    else if s[0] == ',' && !st.inQuotes then Run(st.(row := st.row + [st.cell], cell := ""), s[1..])
    else if s[0] == '\n' && !st.inQuotes then Run(EndRow(st), s[1..])
    else if s[0] == '\r' && |s| > 1 && s[1] == '\n' && !st.inQuotes then Run(EndRow(st), s[2..])
    else Run(st.(cell := st.cell + [s[0]]), s[1..])
  }

  /** `parseCSV`: one pass over the characters with explicit parser state. */
  method ParseCsv(csv: string) returns (rows: seq<seq<string>>)
    ensures rows == Run(Start, csv)
  {
    rows := [];
    var currentRow: seq<string> := [];
    var currentCell := "";
    var inQuotes := false;
    var i := 0;
    while i < |csv|
      invariant 0 <= i <= |csv|
      invariant Run(Start, csv) == Run(CsvState(rows, currentRow, currentCell, inQuotes), csv[i..])
      decreases |csv| - i
    {
      var c := csv[i];
      var next := if i < |csv| - 1 then csv[i + 1] else '\0';
      var hasNext := i < |csv| - 1;
      assert csv[i..][0] == c;
      assert hasNext ==> csv[i..][1] == next;
      if c == '"' && hasNext && next == '"' {
        assert csv[i..][2..] == csv[i + 2..];
        currentCell := currentCell + ['"'];
        i := i + 2;
      } else if c == '"' {
        assert csv[i..][1..] == csv[i + 1..];
        inQuotes := !inQuotes;
        i := i + 1;
      } else if c == ',' && !inQuotes {
        assert csv[i..][1..] == csv[i + 1..];
        currentRow := currentRow + [currentCell];
        currentCell := "";
        i := i + 1;
      } else if (c == '\n' || (c == '\r' && hasNext && next == '\n')) && !inQuotes {
        if c == '\r' {
          assert csv[i..][2..] == csv[i + 2..];
          i := i + 2;
        } else {
          assert csv[i..][1..] == csv[i + 1..];
          i := i + 1;
        }
        currentRow := currentRow + [currentCell];
        rows := rows + [currentRow];
        currentRow := [];
        currentCell := "";
      } else {
        assert csv[i..][1..] == csv[i + 1..];
        currentCell := currentCell + [c];
        i := i + 1;
      }
    }
    if |currentCell| > 0 || |currentRow| > 0 {
      currentRow := currentRow + [currentCell];
      rows := rows + [currentRow];
    }
  }

  // ------------------------------------------- what the parser accepts back

  /** A cell written without quotes: no quote, comma or newline, and no final CR. */
  predicate PlainCell(c: string)
  {
    (forall i :: 0 <= i < |c| ==> c[i] != '"' && c[i] != ',' && c[i] != '\n')
      && (c == [] || c[|c| - 1] != '\r')
  }

  /** A row of at least one cell, each written without quotes. */
  predicate PlainRow(r: seq<string>)
  {
    |r| >= 1 && forall c :: c in r ==> PlainCell(c)
  }

  /** `cells.join(sep)`. */
  function JoinCells(cells: seq<string>, sep: string): string
  {
    if cells == [] then "" else if |cells| == 1 then cells[0] else cells[0] + sep + JoinCells(cells[1..], sep)
  }

  /** Rows of unquoted cells, each line ended by `eol`. */
  function Serialize(rows: seq<seq<string>>, eol: string): string
  {
    if rows == [] then [] else JoinCells(rows[0], ",") + eol + Serialize(rows[1..], eol)
  }

  /** A cell between quotes, its own quotes doubled (how spreadsheet exports write cells). */
  function Escape(c: string): string
  {
    if c == [] then [] else (if c[0] == '"' then "\"\"" else [c[0]]) + Escape(c[1..])
  }

  function Quote(c: string): string
  {
    "\"" + Escape(c) + "\""
  }

  function QuoteCells(cells: seq<string>): (r: seq<string>)
    ensures |r| == |cells|
    ensures forall i :: 0 <= i < |cells| ==> r[i] == Quote(cells[i])
  {
    if cells == [] then [] else [Quote(cells[0])] + QuoteCells(cells[1..])
  }

  function QuoteRows(rows: seq<seq<string>>): (r: seq<seq<string>>)
    ensures |r| == |rows|
    ensures forall i :: 0 <= i < |rows| ==> r[i] == QuoteCells(rows[i])
  {
    if rows == [] then [] else [QuoteCells(rows[0])] + QuoteRows(rows[1..])
  }

  // One step of `Run` for each kind of character, so that the round-trip
  // lemmas below never unfold `Run` themselves.

  lemma StepChar(st: CsvState, c: char, rest: string)
    requires c != '"'
    requires st.inQuotes || (c != ',' && c != '\n' && (c != '\r' || rest == [] || rest[0] != '\n'))
    ensures Run(st, [c] + rest) == Run(st.(cell := st.cell + [c]), rest)
  {
    assert ([c] + rest)[1..] == rest;
  }

  lemma StepEscapedQuote(st: CsvState, rest: string)
    ensures Run(st, "\"\"" + rest) == Run(st.(cell := st.cell + ['"']), rest)
  {
    assert ("\"\"" + rest)[2..] == rest;
  }

  lemma StepQuote(st: CsvState, rest: string)
    requires rest == [] || rest[0] != '"'
    ensures Run(st, "\"" + rest) == Run(st.(inQuotes := !st.inQuotes), rest)
  {
    assert ("\"" + rest)[1..] == rest;
  }

  lemma StepComma(st: CsvState, rest: string)
    requires !st.inQuotes
    ensures Run(st, "," + rest) == Run(st.(row := st.row + [st.cell], cell := ""), rest)
  {
    assert ("," + rest)[1..] == rest;
  }

  lemma StepLineEnd(st: CsvState, eol: string, rest: string)
    requires !st.inQuotes
    requires eol == "\n" || eol == "\r\n"
    ensures Run(st, eol + rest) == Run(EndRow(st), rest)
  {
    if eol == "\n" {
      assert (eol + rest)[1..] == rest;
    } else {
      assert (eol + rest)[2..] == rest;
    }
  }

  lemma {:induction false} PlainCellRun(st: CsvState, c: string, rest: string)
    requires PlainCell(c) && !st.inQuotes
    ensures Run(st, c + rest) == Run(st.(cell := st.cell + c), rest)
    decreases |c|
  {
    if c == [] {
      assert c + rest == rest;
      assert st.cell + c == st.cell;
    } else {
      assert c + rest == [c[0]] + (c[1..] + rest);
      assert PlainCell(c[1..]) by {
        assert forall i :: 0 <= i < |c[1..]| ==> c[1..][i] == c[i + 1];
      }
      if c[0] == '\r' {
        assert |c| > 1 && (c[1..] + rest)[0] == c[1];
      }
      StepChar(st, c[0], c[1..] + rest);
      PlainCellRun(st.(cell := st.cell + [c[0]]), c[1..], rest);
      ShiftHead(st.cell, c);
    }
  }

  /** The last cell of a row and its line end. */
  lemma LastCellRun(st: CsvState, c: string, eol: string, rest: string)
    requires PlainCell(c) && st.cell == "" && !st.inQuotes
    requires eol == "\n" || eol == "\r\n"
    ensures Run(st, c + (eol + rest)) == Run(CsvState(st.rows + [st.row + [c]], [], "", false), rest)
  {
    PlainCellRun(st, c, eol + rest);
    var st1 := st.(cell := st.cell + c);
    assert st.cell + c == c;
    StepLineEnd(st1, eol, rest);
  }

  /** A cell of a row followed by its comma. */
  lemma InnerCellRun(st: CsvState, c: string, tail: string)
    requires PlainCell(c) && st.cell == "" && !st.inQuotes
    ensures Run(st, c + ("," + tail)) == Run(CsvState(st.rows, st.row + [c], "", false), tail)
  {
    PlainCellRun(st, c, "," + tail);
    var st1 := st.(cell := st.cell + c);
    assert st.cell + c == c;
    StepComma(st1, tail);
  }

  lemma {:induction false} RowRun(st: CsvState, cells: seq<string>, eol: string, rest: string)
    requires |cells| >= 1 && forall c :: c in cells ==> PlainCell(c)
    requires st.cell == "" && !st.inQuotes
    requires eol == "\n" || eol == "\r\n"
    ensures Run(st, JoinCells(cells, ",") + eol + rest)
            == Run(CsvState(st.rows + [st.row + cells], [], "", false), rest)
    decreases |cells|
  {
    var c := cells[0];
    assert c in cells;
    if |cells| == 1 {
      assert JoinCells(cells, ",") + eol + rest == c + (eol + rest);
      LastCellRun(st, c, eol, rest);
      assert [c] == cells;
    } else {
      var tail := JoinCells(cells[1..], ",") + eol + rest;
      assert JoinCells(cells, ",") + eol + rest == c + ("," + tail);
      InnerCellRun(st, c, tail);
      assert forall d :: d in cells[1..] ==> d in cells;
      RowRun(CsvState(st.rows, st.row + [c], "", false), cells[1..], eol, rest);
      ShiftHead(st.row, cells);
    }
  }

  /**
   * Unquoted rows (LF or CR LF line ends) parse back to exactly themselves:
   * commas end cells, either line end ends a row and is consumed whole, a
   * CR that is not followed by LF stays in the cell, and the final line end
   * does not produce an extra empty row.
   */
  lemma {:induction false} PlainRoundTrip(rows: seq<seq<string>>, eol: string)
    requires forall r :: r in rows ==> PlainRow(r)
    requires eol == "\n" || eol == "\r\n"
    ensures Run(Start, Serialize(rows, eol)) == rows
  {
    PlainRowsRun([], rows, eol);
  }

  lemma {:induction false} PlainRowsRun(done: seq<seq<string>>, rows: seq<seq<string>>, eol: string)
    requires forall r :: r in rows ==> PlainRow(r)
    requires eol == "\n" || eol == "\r\n"
    ensures Run(CsvState(done, [], "", false), Serialize(rows, eol)) == done + rows
    decreases |rows|
  {
    if rows == [] {
    } else {
      assert rows[0] in rows;
      assert forall r :: r in rows[1..] ==> r in rows;
      RowRun(CsvState(done, [], "", false), rows[0], eol, Serialize(rows[1..], eol));
      assert [] + rows[0] == rows[0];
      PlainRowsRun(done + [rows[0]], rows[1..], eol);
      ShiftHead(done, rows);
    }
  }

  lemma {:induction false} EscapeRun(st: CsvState, c: string, rest: string)
    requires st.inQuotes
    ensures Run(st, Escape(c) + rest) == Run(st.(cell := st.cell + c), rest)
    decreases |c|
  {
    if c == [] {
      assert Escape(c) + rest == rest;
      assert st.cell + c == st.cell;
    } else {
      var tail := Escape(c[1..]) + rest;
      if c[0] == '"' {
        assert Escape(c) + rest == "\"\"" + tail;
        StepEscapedQuote(st, tail);
      } else {
        assert Escape(c) + rest == [c[0]] + tail;
        StepChar(st, c[0], tail);
      }
      EscapeRun(st.(cell := st.cell + [c[0]]), c[1..], rest);
      ShiftHead(st.cell, c);
    }
  }

  /** A quoted cell whose text is non-empty and does not begin with a quote. */
  predicate QuotableCell(c: string)
  {
    c != [] && c[0] != '"'
  }

  /** A row of at least one cell, each quotable. */
  predicate QuotableRow(r: seq<string>)
  {
    |r| >= 1 && forall c :: c in r ==> QuotableCell(c)
  }

  lemma QuotedCellRun(st: CsvState, c: string, rest: string)
    requires QuotableCell(c) && st.cell == "" && !st.inQuotes
    requires rest == [] || rest[0] != '"'
    ensures Run(st, Quote(c) + rest) == Run(st.(cell := c), rest)
  {
    var e := Escape(c);
    var t := "\"" + rest;
    assert e == [c[0]] + Escape(c[1..]);
    assert Quote(c) + rest == "\"" + (e + t);
    StepQuote(st, e + t);
    var open := st.(inQuotes := true);
    EscapeRun(open, c, t);
    StepQuote(open.(cell := open.cell + c), rest);
    assert open.(cell := open.cell + c).(inQuotes := false) == st.(cell := c);
  }

  lemma JoinCellsSplit(cells: seq<string>, sep: string, eol: string, rest: string)
    requires |cells| >= 1
    ensures |cells| == 1 ==> JoinCells(cells, sep) + eol + rest == cells[0] + (eol + rest)
    ensures |cells| > 1 ==> JoinCells(cells, sep) + eol + rest
                            == cells[0] + (sep + (JoinCells(cells[1..], sep) + eol + rest))
  {
  }

  lemma {:induction false} QuotedRowRun(st: CsvState, cells: seq<string>, rest: string)
    requires |cells| >= 1 && forall c :: c in cells ==> QuotableCell(c)
    requires st.cell == "" && !st.inQuotes
    ensures Run(st, JoinCells(QuoteCells(cells), ",") + "\n" + rest)
            == Run(CsvState(st.rows + [st.row + cells], [], "", false), rest)
    decreases |cells|
  {
    var c := cells[0];
    assert c in cells;
    var q := QuoteCells(cells);
    JoinCellsSplit(q, ",", "\n", rest);
    if |cells| == 1 {
      QuotedLastCellRun(st, c, rest);
      assert [c] == cells;
    } else {
      assert q[1..] == QuoteCells(cells[1..]);
      var tail := JoinCells(q[1..], ",") + "\n" + rest;
      QuotedInnerCellRun(st, c, tail);
      assert forall d :: d in cells[1..] ==> d in cells;
      QuotedRowRun(CsvState(st.rows, st.row + [c], "", false), cells[1..], rest);
      ShiftHead(st.row, cells);
    }
  }

  lemma QuotedLastCellRun(st: CsvState, c: string, rest: string)
    requires QuotableCell(c) && st.cell == "" && !st.inQuotes
    ensures Run(st, Quote(c) + ("\n" + rest)) == Run(CsvState(st.rows + [st.row + [c]], [], "", false), rest)
  {
    QuotedCellRun(st, c, "\n" + rest);
    StepLineEnd(st.(cell := c), "\n", rest);
  }

  lemma QuotedInnerCellRun(st: CsvState, c: string, tail: string)
    requires QuotableCell(c) && st.cell == "" && !st.inQuotes
    ensures Run(st, Quote(c) + ("," + tail)) == Run(CsvState(st.rows, st.row + [c], "", false), tail)
  {
    QuotedCellRun(st, c, "," + tail);
    StepComma(st.(cell := c), tail);
  }

  lemma QuotedFirstRowRun(done: seq<seq<string>>, cells: seq<string>, later: string)
    requires |cells| >= 1 && forall c :: c in cells ==> QuotableCell(c)
    ensures Run(CsvState(done, [], "", false), JoinCells(QuoteCells(cells), ",") + "\n" + later)
            == Run(CsvState(done + [cells], [], "", false), later)
  {
    QuotedRowRun(CsvState(done, [], "", false), cells, later);
    assert [] + cells == cells;
  }

  lemma {:induction false} QuotedRowsRun(done: seq<seq<string>>, rows: seq<seq<string>>)
    requires forall r :: r in rows ==> QuotableRow(r)
    ensures Run(CsvState(done, [], "", false), Serialize(QuoteRows(rows), "\n")) == done + rows
    decreases |rows|
  {
    if rows != [] {
      var first := rows[0];
      var st0, st1 := CsvState(done, [], "", false), CsvState(done + [first], [], "", false);
      var later := Serialize(QuoteRows(rows[1..]), "\n");
      var joined := JoinCells(QuoteCells(first), ",") + "\n" + later;
      assert Serialize(QuoteRows(rows), "\n") == joined by {
        QuotedSerializeCons(rows);
      }
      assert Run(st0, joined) == Run(st1, later) by {
        assert first in rows;
        QuotedFirstRowRun(done, first, later);
      }
      assert Run(st1, later) == done + rows by {
        assert forall r :: r in rows[1..] ==> r in rows;
        QuotedRowsRun(done + [first], rows[1..]);
        ShiftHead(done, rows);
      }
    } else {
      assert QuoteRows(rows) == [];
      assert Serialize(QuoteRows(rows), "\n") == [];
    }
  }

  lemma QuotedSerializeCons(rows: seq<seq<string>>)
    requires rows != []
    ensures Serialize(QuoteRows(rows), "\n")
            == JoinCells(QuoteCells(rows[0]), ",") + "\n" + Serialize(QuoteRows(rows[1..]), "\n")
  {
    assert QuoteRows(rows)[1..] == QuoteRows(rows[1..]);
  }

  /**
   * Fully quoted rows parse back to their cells, whatever commas, quotes,
   * CRs or newlines the cells contain: a quote inside quotes is read from
   * its doubled form, and delimiters inside quotes are kept literally.
   */
  lemma QuotedRoundTrip(rows: seq<seq<string>>)
    requires forall r :: r in rows ==> QuotableRow(r)
    ensures Run(Start, Serialize(QuoteRows(rows), "\n")) == rows
  {
    QuotedRowsRun([], rows);
  }

  /**
   * An empty cell written as two quotes is read as the escape of one quote,
   * so it arrives as a one-quote cell; the row mapping's quote clean-up turns
   * it back into an empty string.
   */
  lemma EmptyQuotedCellReadsAsQuote(rest: string)
    ensures Run(Start, Quote("") + "\n" + rest) == Run(CsvState([["\""]], [], "", false), rest)
    ensures StripQuotes("\"") == ""
  {
    assert Quote("") + "\n" + rest == "\"\"" + ("\n" + rest);
    StepEscapedQuote(Start, "\n" + rest);
    var st1 := Start.(cell := "\"");
    assert Start.(cell := Start.cell + ['"']) == st1;
    StepLineEnd(st1, "\n", rest);
    assert Start.row + [st1.cell] == ["\""];
    assert Start.rows + [["\""]] == [["\""]];
  }

  // ------------------------------------------------------- row -> session

  datatype Session = Session(
    dayNumber: nat,
    date: string,
    columnA: string,
    preActivation1: string,
    preActivation2: string,
    shortDistanceWorkout: string,
    mediumDistanceWorkout: string,
    longDistanceWorkout: string,
    extraSession: string,
    isRestDay: bool,
    title: string,
    description: string)

  /** `row[i] || ''`. */
  function CellAt(row: seq<string>, i: nat): string
  {
    if i < |row| then row[i] else ""
  }

  /** `v.replace(/^"|"$/g, '')`: a leading quote, then a trailing quote after it. */
  function StripQuotes(v: string): (r: string)
    ensures |v| - 2 <= |r| <= |v|
    ensures (v == [] || (v[0] != '"' && v[|v| - 1] != '"')) ==> r == v
    ensures |v| >= 2 && v[0] == '"' && v[|v| - 1] == '"' ==> r == v[1..|v| - 1]
  {
    var t := if v != [] && v[0] == '"' then v[1..] else v;
    if t != [] && t[|t| - 1] == '"' then t[..|t| - 1] else t
  }

  /** Month abbreviations to two-digit month numbers. */
  function MonthNumber(m: string): Option<string>
  {
    if m == "Jan" then Some("01") else if m == "Feb" then Some("02")
    else if m == "Mar" then Some("03") else if m == "Apr" then Some("04")
    else if m == "May" then Some("05") else if m == "Jun" then Some("06")
    else if m == "Jul" then Some("07") else if m == "Aug" then Some("08")
    else if m == "Sep" then Some("09") else if m == "Oct" then Some("10")
    else if m == "Nov" then Some("11") else if m == "Dec" then Some("12")
    else None
  }

  /** Index of the first occurrence of `c` in `s`, or `|s|` when absent. */
  function IndexOf(s: string, c: char): (k: nat)
    ensures k <= |s|
    ensures forall i :: 0 <= i < k ==> s[i] != c
    ensures k < |s| ==> s[k] == c
  {
    if s == [] then 0 else if s[0] == c then 0 else 1 + IndexOf(s[1..], c)
  }

  /** The first two fields of `s.split(sep)` (the second empty when there is none). */
  function FirstTwoFields(s: string, sep: char): (string, string)
  {
    var k := IndexOf(s, sep);
    var rest := if k < |s| then s[k + 1..] else "";
    (s[..k], rest[..IndexOf(rest, sep)])
  }

  /** `day.padStart(2, '0')`. */
  function PadDay(d: string): (r: string)
    ensures |r| == if |d| < 2 then 2 else |d|
  {
    if |d| == 0 then "00" else if |d| == 1 then "0" + d else d
  }

  /** `monthMap[month] || month`. */
  function MonthField(month: string): string
  {
    match MonthNumber(month) case Some(n) => n case None => month
  }

  /** The date cell: 'Month-Day' becomes 'year-MM-DD'; anything else is kept. */
  function FormatDate(dateValue: string, year: nat): string
  {
    if dateValue != "" && IndexOf(dateValue, '-') < |dateValue| then
      var (month, day) := FirstTwoFields(dateValue, '-');
      if month != "" && day != "" then
        NatToString(year) + "-" + MonthField(month) + "-" + PadDay(day)
      else dateValue
    else dateValue
  }

  /** `sheets.ts` converts Month-Day cells using the month map and a padded day. */
  lemma FormatMonthDay(m: string, day: string, year: nat)
    requires m != "" && day != "" && '-' !in m && '-' !in day
    ensures FormatDate(m + "-" + day, year) == NatToString(year) + "-" + MonthField(m) + "-" + PadDay(day)
  {
    SplitAtDash(m, day);
  }

  lemma SplitAtDash(m: string, day: string)
    requires '-' !in m && '-' !in day
    ensures IndexOf(m + "-" + day, '-') == |m| < |m + "-" + day|
    ensures FirstTwoFields(m + "-" + day, '-') == (m, day)
  {
    var s := m + "-" + day;
    assert s == m + ("-" + day);
    IndexOfAbsent(m, '-');
    IndexOfAbsent(day, '-');
    IndexOfAfter(m, "-" + day, '-');
    var k := IndexOf(s, '-');
    assert k == |m|;
    assert s[..k] == m;
    var rest := s[k + 1..];
    assert rest == day;
    assert IndexOf(rest, '-') == |day|;
    assert rest[..IndexOf(rest, '-')] == day;
  }

  /** A known month with a one-digit day gives the ten-character ISO date for a four-digit year. */
  lemma FormatKnownMonth(m: string, day: string, year: nat)
    requires MonthNumber(m).Some? && |day| == 1 && day[0] != '-'
    requires 1000 <= year < 10000
    ensures |FormatDate(m + "-" + day, year)| == 10
  {
    assert '-' !in day;
    MonthNamesHaveNoDash(m);
    FormatMonthDay(m, day, year);
    YearDigits(year);
  }

  lemma MonthNamesHaveNoDash(m: string)
    requires MonthNumber(m).Some?
    ensures '-' !in m && |MonthField(m)| == 2
  {
  }

  lemma YearDigits(year: nat)
    requires 1000 <= year < 10000
    ensures |NatToString(year)| == 4
  {
    assert |NatToString(year / 10)| == 3 by {
      assert |NatToString(year / 100)| == 2;
    }
  }

  /** A cell without '-' is kept exactly. */
  lemma FormatWithoutDash(v: string, year: nat)
    requires '-' !in v
    ensures FormatDate(v, year) == v
  {
    IndexOfAbsent(v, '-');
  }

  lemma {:induction false} IndexOfAbsent(s: string, c: char)
    requires c !in s
    ensures IndexOf(s, c) == |s|
  {
    if s != [] {
      assert forall x :: x in s[1..] ==> x in s;
      IndexOfAbsent(s[1..], c);
    }
  }

  lemma {:induction false} IndexOfAfter(a: string, b: string, c: char)
    requires c !in a
    ensures IndexOf(a + b, c) == |a| + IndexOf(b, c)
  {
    if a != [] {
      assert (a + b)[0] == a[0];
      assert (a + b)[1..] == a[1..] + b;
      assert forall x :: x in a[1..] ==> x in a;
      IndexOfAfter(a[1..], b, c);
    } else {
      assert a + b == b;
    }
  }

  /** One spreadsheet row at position `index` of the data rows. */
  function MapRow(row: seq<string>, index: nat, year: nat): (s: Session)
    ensures s.dayNumber == index + 1
    ensures s.isRestDay <==> s.shortDistanceWorkout == "" && s.mediumDistanceWorkout == ""
                              && s.longDistanceWorkout == ""
    ensures s.description == (if s.isRestDay then "Rest and Recovery" else "Training Session")
    ensures s.columnA == CellAt(row, 0) && s.date == FormatDate(CellAt(row, 0), year)
    ensures s.preActivation1 == StripQuotes(CellAt(row, 1))
    ensures s.preActivation2 == StripQuotes(CellAt(row, 2))
    ensures s.shortDistanceWorkout == StripQuotes(CellAt(row, 3))
    ensures s.mediumDistanceWorkout == StripQuotes(CellAt(row, 4))
    ensures s.longDistanceWorkout == StripQuotes(CellAt(row, 5))
    ensures s.extraSession == (if |row| > 6 then StripQuotes(CellAt(row, 6)) else "")
    ensures s.title == "Day " + NatToString(index + 1) + " Training"
  {
    var pre1 := StripQuotes(CellAt(row, 1));
    var pre2 := StripQuotes(CellAt(row, 2));
    var short := StripQuotes(CellAt(row, 3));
    var medium := StripQuotes(CellAt(row, 4));
    var long := StripQuotes(CellAt(row, 5));
    var extra := StripQuotes(if |row| > 6 then CellAt(row, 6) else "");
    var rest := short == "" && medium == "" && long == "";
    Session(index + 1, FormatDate(CellAt(row, 0), year), CellAt(row, 0), pre1, pre2, short, medium, long,
            extra, rest, "Day " + NatToString(index + 1) + " Training",
            if rest then "Rest and Recovery" else "Training Session")
  }

  /** The header row is dropped only when there is more than one row. */
  function DataRows(rows: seq<seq<string>>): (d: seq<seq<string>>)
  {
    if |rows| > 1 then rows[1..] else rows
  }

  function MapRows(rows: seq<seq<string>>, year: nat): (sessions: seq<Session>)
    ensures |sessions| == |DataRows(rows)|
    ensures forall i :: 0 <= i < |sessions| ==> sessions[i] == MapRow(DataRows(rows)[i], i, year)
  {
    var d := DataRows(rows);
    seq(|d|, i requires 0 <= i < |d| => MapRow(d[i], i, year))
  }

  /** Sessions are numbered 1, 2, ... and session k comes from sheet row k (row 0 is the header). */
  lemma SessionNumbering(rows: seq<seq<string>>, year: nat, i: nat)
    requires |rows| > 1 && i < |rows| - 1
    ensures |MapRows(rows, year)| == |rows| - 1
    ensures MapRows(rows, year)[i].dayNumber == i + 1
    ensures MapRows(rows, year)[i].columnA == CellAt(rows[i + 1], 0)
  {
  }

  datatype Program = Program(title: string, totalSessions: nat, sessions: seq<Session>)

  /** The first position from `i` on where `pat` occurs in `s`, none when it occurs nowhere from there. */
  function FirstFrom(s: string, pat: string, i: nat): (r: Option<nat>)
    requires i <= |s|
    ensures r.Some? ==> i <= r.value && OccursAt(s, pat, r.value)
    ensures r.Some? ==> forall j :: i <= j < r.value ==> !OccursAt(s, pat, j)
    ensures r.None? ==> forall j :: i <= j ==> !OccursAt(s, pat, j)
    decreases |s| - i
  {
    if i + |pat| > |s| then None
    else if s[i..i + |pat|] == pat then Some(i)
    else if i == |s| then None
    else FirstFrom(s, pat, i + 1)
  }

  /**
   * `s.replace(pat, rep)` with a string pattern: the first occurrence is
   * replaced, and a text without one is returned as it is.
   */
  function ReplaceFirst(s: string, pat: string, rep: string): (r: string)
    ensures !Contains(s, pat) ==> r == s
    ensures forall k :: OccursAt(s, pat, k) && (forall j :: 0 <= j < k ==> !OccursAt(s, pat, j)) ==>
                          r == s[..k] + rep + s[k + |pat|..]
  {
    match FirstFrom(s, pat, 0)
    case None => s
    case Some(k) =>
      assert OccursAt(s, pat, k);
      s[..k] + rep + s[k + |pat|..]
  }

  const DefaultTitle := "My Training Program"
  const SheetsSuffix := " - Google Sheets"
  const DriveSuffix := " - Google Drive"

  /**
   * What the title lookup of `fetchSpreadsheetData` met.  `ApiAnswered`: the
   * sheet API answered, with `data.properties.title` if it had one.
   * `ApiRefused`: it did not answer ok, and the sheet's HTML page was read,
   * with the text of its first `<title>` element if the regular expression
   * matched one.  `LookupFailed`: one of the requests or the JSON parse threw.
   */
  datatype TitleLookup = ApiAnswered(apiTitle: Option<string>) | ApiRefused(titleTag: Option<string>) | LookupFailed

  /** The HTML title without the first ' - Google Sheets' and the first ' - Google Drive', trimmed. */
  function CleanTitle(tag: string): (t: string)
    ensures !Contains(tag, SheetsSuffix) && !Contains(tag, DriveSuffix) ==> t == Trim(tag)
  {
    Trim(ReplaceFirst(ReplaceFirst(tag, SheetsSuffix, ""), DriveSuffix, ""))
  }

  /**
   * `sheetTitle` after the lookup: the default unless the API gave a
   * non-empty title, or the page a non-empty `<title>`, which is cleaned.
   * Only the cleaned HTML title can be empty.
   */
  function SheetTitle(lookup: TitleLookup): (t: string)
    ensures lookup.LookupFailed? ==> t == DefaultTitle
    ensures lookup.ApiAnswered? && lookup.apiTitle.Some? && lookup.apiTitle.value != "" ==> t == lookup.apiTitle.value
    ensures lookup.ApiAnswered? && (lookup.apiTitle.None? || lookup.apiTitle.value == "") ==> t == DefaultTitle
    ensures lookup.ApiRefused? && lookup.titleTag.Some? && lookup.titleTag.value != "" ==> t == CleanTitle(lookup.titleTag.value)
    ensures lookup.ApiRefused? && (lookup.titleTag.None? || lookup.titleTag.value == "") ==> t == DefaultTitle
    ensures t == "" ==> lookup.ApiRefused?
  {
    match lookup
    case ApiAnswered(title) => if title.Some? && title.value != "" then title.value else DefaultTitle
    case ApiRefused(tag) => if tag.Some? && tag.value != "" then CleanTitle(tag.value) else DefaultTitle
    case LookupFailed => DefaultTitle
  }

  /** `sheetTitle || \`Training Program (Sheet ID: ${sheetId})\``: the program's title is never empty. */
  function ProgramTitle(sheetTitle: string, sheetId: string): (t: string)
    ensures t != ""
    ensures sheetTitle != "" ==> t == sheetTitle
    ensures sheetTitle == "" ==> t == "Training Program (Sheet ID: " + sheetId + ")"
  {
    if sheetTitle != "" then sheetTitle else "Training Program (Sheet ID: " + sheetId + ")"
  }

  /** A sheet page titled ' - Google Sheets' cleans to nothing, so the program is named after its sheet id. */
  lemma SheetIdTitleReached(sheetId: string)
    ensures SheetTitle(ApiRefused(Some(SheetsSuffix))) == ""
    ensures ProgramTitle(SheetTitle(ApiRefused(Some(SheetsSuffix))), sheetId) == "Training Program (Sheet ID: " + sheetId + ")"
  {
    assert OccursAt(SheetsSuffix, SheetsSuffix, 0);
    assert ReplaceFirst(SheetsSuffix, SheetsSuffix, "") == "";
    assert !Contains("", DriveSuffix);
    assert Trim("") == "";
  }

  datatype SheetError = EmptySpreadsheet

  /**
   * The public-sheet path of `fetchSpreadsheetData` after the download: an
   * input with no rows is an error, otherwise every data row becomes a
   * session.  `lookup` is what the title lookup met, and `year` the
   * current year.
   */
  method ProgramFromCsv(csv: string, lookup: TitleLookup, sheetId: string, year: nat) returns (r: Result<Program, SheetError>)
    ensures r.Err? <==> Run(Start, csv) == []
    ensures r.Ok? ==> r.value.sessions == MapRows(Run(Start, csv), year)
                      && r.value.totalSessions == |r.value.sessions|
                      && r.value.title == ProgramTitle(SheetTitle(lookup), sheetId)
  {
    var rows := ParseCsv(csv);
    if |rows| == 0 {
      return Err(EmptySpreadsheet);
    }
    var sessions := MapRows(rows, year);
    var title := ProgramTitle(SheetTitle(lookup), sheetId);
    return Ok(Program(title, |sessions|, sessions));
  }
}
