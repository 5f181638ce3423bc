/**
 * The delimited-text reader of src/utils/csvImport.ts (`parseCsv`): a
 * character-level state machine with an "inside quotes" flag, a one-character
 * lookahead for `""` and `\r\n`, and a final flush of the last row.
 */
module CsvParse {
  import opened Seqs

  /** The mutable locals of `parseCsv`: finished rows, the open row, the open cell and the quote flag. */
  datatype ScanState = ScanState(rows: seq<seq<string>>, row: seq<string>, current: string, inQuotes: bool)

  const Start := ScanState([], [], "", false)

  /** `row.push(current); rows.push(row); row = []; current = ""`. */
  function EndRow(st: ScanState): ScanState {
    ScanState(st.rows + [st.row + [st.current]], [], "", st.inQuotes)
  }

  /** One transition: how many characters it reads and the state it leaves. */
  datatype Move = Move(skip: nat, next: ScanState)

  /** The body of the source's loop for the character at the head of `s`. */
  function Step(s: string, st: ScanState): (m: Move)
    requires s != []
    ensures 1 <= m.skip <= |s|
    ensures m.skip == 2 ==> |s| > 1 && (s[0] == '"' || s[0] == '\r') && s[1] == (if st.inQuotes then '"' else '\n')
  {
    if st.inQuotes then
      if s[0] == '"' then
        if |s| > 1 && s[1] == '"' then Move(2, st.(current := st.current + "\""))
        else Move(1, st.(inQuotes := false))
      else Move(1, st.(current := st.current + [s[0]]))
    else if s[0] == '"' then Move(1, st.(inQuotes := true))
    else if s[0] == ',' then Move(1, st.(row := st.row + [st.current], current := ""))
    else if s[0] == '\n' then Move(1, EndRow(st))
    else if s[0] == '\r' then Move(if |s| > 1 && s[1] == '\n' then 2 else 1, EndRow(st))
    else Move(1, st.(current := st.current + [s[0]]))
  }

  /** Runs the state machine over `s`, the part of the input not yet read. */
  function Scan(s: string, st: ScanState): ScanState
    decreases |s|
  {
    if s == [] then st else Scan(s[Step(s, st).skip..], Step(s, st).next)
  }

  /** The end of input: the open row is emitted when it or its open cell is non-empty. */
  function Flush(st: ScanState): seq<seq<string>> {
    if |st.current| > 0 || |st.row| > 0 then st.rows + [st.row + [st.current]] else st.rows
  }

  /** The rows `parseCsv` returns for `text`. */
  function Rows(text: string): seq<seq<string>> {
    Flush(Scan(text, Start))
  }

  /** `parseCsv`: the loop of the source, with its two lookahead skips. */
  method ParseCsv(text: string) returns (rows: seq<seq<string>>)
    ensures rows == Rows(text)
    ensures text == [] ==> rows == []
  {
    rows := [];
    var row: seq<string> := [];
    var current := "";
    var inQuotes := false;
    var i := 0;
    while i < |text|
      invariant 0 <= i <= |text|
      invariant Scan(text[i..], ScanState(rows, row, current, inQuotes)) == Scan(text, Start)
      decreases |text| - i
    {
      var ch := text[i];
      assert text[i..][0] == ch && text[i..][1..] == text[i + 1..];
      if i + 1 < |text| {
        assert text[i..][1] == text[i + 1] && text[i..][2..] == text[i + 2..];
      }
      if inQuotes {
        if ch == '"' {
          if i + 1 < |text| && text[i + 1] == '"' {
            current := current + "\"";
            i := i + 1;
          } else {
            inQuotes := false;
          }
        } else {
          current := current + [ch];
        }
      } else if ch == '"' {
        inQuotes := true;
      } else if ch == ',' {
        row := row + [current];
        current := "";
      } else if ch == '\n' {
        rows := rows + [row + [current]];
        row := [];
        current := "";
      } else if ch == '\r' {
        if i + 1 < |text| && text[i + 1] == '\n' {
          i := i + 1;
        }
        rows := rows + [row + [current]];
        row := [];
        current := "";
      } else {
        current := current + [ch];
      }
      i := i + 1;
    }
    assert text[i..] == [];
    if |current| > 0 || |row| > 0 {
      rows := rows + [row + [current]];
    }
  }

  // ---------------------------------------------------------------------------
  // A minimal-quoting writer, the inverse the reader is proved against.

  /** A cell that needs no quotes: no quote, comma or line-break character. */
  predicate IsPlain(c: string) {
    forall i :: 0 <= i < |c| ==> c[i] != '"' && c[i] != ',' && c[i] != '\n' && c[i] != '\r'
  }

  /** Doubles every quote character. */
  function Escape(c: string): (r: string)
    ensures |r| >= |c|
  {
    if c == [] then []
    else if c[0] == '"' then "\"\"" + Escape(c[1..])
    else [c[0]] + Escape(c[1..])
  }

  function EncodeCell(c: string): string {
    if IsPlain(c) then c else "\"" + Escape(c) + "\""
  }

  /** The cells of a row, encoded and separated by commas. */
  function EncodeRow(r: seq<string>): string
    requires |r| >= 1
    decreases |r|
  {
    if |r| == 1 then EncodeCell(r[0]) else EncodeCell(r[0]) + "," + EncodeRow(r[1..])
  }

  /** The three line endings the reader accepts. */
  predicate IsEol(eol: string) {
    eol == "\n" || eol == "\r\n" || eol == "\r"
  }

  /** Every row encoded and terminated by `eol`. */
  function EncodeCsv(rows: seq<seq<string>>, eol: string): string
    requires forall k :: 0 <= k < |rows| ==> |rows[k]| >= 1
  {
    if rows == [] then [] else EncodeRow(rows[0]) + eol + EncodeCsv(rows[1..], eol)
  }

  // ---------------------------------------------------------------------------
  // How the state machine consumes each encoded piece.

  /** Outside quotes, plain text is appended to the open cell. */
  lemma {:induction false} ScanPlain(c: string, rest: string, st: ScanState)
    requires !st.inQuotes && IsPlain(c)
    ensures Scan(c + rest, st) == Scan(rest, st.(current := st.current + c))
  {
    if c == [] {
      assert c + rest == rest;
      assert st.current + c == st.current;
    } else {
      assert (c + rest)[0] == c[0] && (c + rest)[1..] == c[1..] + rest;
      assert IsPlain(c[1..]);
      ScanPlain(c[1..], rest, st.(current := st.current + [c[0]]));
      assert st.current + [c[0]] + c[1..] == st.current + c;
    }
  }

  /**
   * Inside quotes, an escaped body and its closing quote contribute exactly the
   * unescaped text, provided the character after the closing quote is not a quote.
   */
  lemma {:induction false} ScanQuotedBody(c: string, rest: string, st: ScanState)
    requires st.inQuotes
    requires rest == [] || rest[0] != '"'
    ensures Scan(Escape(c) + "\"" + rest, st) == Scan(rest, st.(current := st.current + c, inQuotes := false))
  {
    var s := Escape(c) + "\"" + rest;
    if c == [] {
      assert s == "\"" + rest;
      assert s[0] == '"' && s[1..] == rest;
      assert st.current + c == st.current;
    } else if c[0] == '"' {
      assert s == "\"\"" + (Escape(c[1..]) + "\"" + rest);
      assert s[0] == '"' && s[1] == '"' && s[2..] == Escape(c[1..]) + "\"" + rest;
      ScanQuotedBody(c[1..], rest, st.(current := st.current + "\""));
      assert st.current + "\"" + c[1..] == st.current + c;
    } else {
      assert s == [c[0]] + (Escape(c[1..]) + "\"" + rest);
      assert s[0] == c[0] && s[1..] == Escape(c[1..]) + "\"" + rest;
      ScanQuotedBody(c[1..], rest, st.(current := st.current + [c[0]]));
      assert st.current + [c[0]] + c[1..] == st.current + c;
    }
  }

  /** An encoded cell followed by anything but a quote is read back as the cell's text. */
  lemma ScanCell(c: string, rest: string, st: ScanState)
    requires !st.inQuotes
    requires rest == [] || rest[0] != '"'
    ensures Scan(EncodeCell(c) + rest, st) == Scan(rest, st.(current := st.current + c))
  {
    if IsPlain(c) {
      ScanPlain(c, rest, st);
    } else {
      var s := "\"" + Escape(c) + "\"" + rest;
      assert s[0] == '"' && s[1..] == Escape(c) + "\"" + rest;
      ScanQuotedBody(c, rest, st.(inQuotes := true));
    }
  }

  /** The first character of an encoded cell is never a line feed. */
  lemma EncodeCellStart(c: string)
    ensures EncodeCell(c) == [] || EncodeCell(c)[0] != '\n'
  {
    if IsPlain(c) && c != [] {
      assert c[0] != '\n';
    }
  }

  lemma {:induction false} EncodeRowStart(r: seq<string>)
    requires |r| >= 1
    ensures EncodeRow(r) == [] || EncodeRow(r)[0] != '\n'
    ensures |r| >= 2 ==> EncodeRow(r) != []
    decreases |r|
  {
    EncodeCellStart(r[0]);
    if |r| > 1 {
      var s := EncodeCell(r[0]) + "," + EncodeRow(r[1..]);
      if EncodeCell(r[0]) == [] { assert s[0] == ','; } else { assert s[0] == EncodeCell(r[0])[0]; }
    }
  }

  /** Outside quotes, a comma closes the open cell. */
  lemma ScanComma(rest: string, st: ScanState)
    requires !st.inQuotes
    ensures Scan("," + rest, st) == Scan(rest, st.(row := st.row + [st.current], current := ""))
  {
    assert ("," + rest)[0] == ',' && ("," + rest)[1..] == rest;
  }

  /**
   * An encoded row, followed by text that starts with a line ending (or nothing),
   * leaves its last cell open and all the others appended to the open row.
   */
  lemma {:induction false} ScanRow(r: seq<string>, rest: string, st: ScanState)
    requires |r| >= 1 && !st.inQuotes && st.current == ""
    requires rest == [] || rest[0] == '\n' || rest[0] == '\r'
    ensures Scan(EncodeRow(r) + rest, st) == Scan(rest, st.(row := st.row + r[..|r| - 1], current := r[|r| - 1]))
    decreases |r|
  {
    if |r| == 1 {
      ScanCellFrom(r[0], st);
      ScanCell(r[0], rest, st);
      AppendEmpty(st.row);
    } else {
      var more := EncodeRow(r[1..]) + rest;
      EncodeRowCons(r, rest);
      ScanCellComma(r[0], more, st);
      var st2 := st.(row := st.row + [r[0]], current := "");
      ScanRow(r[1..], rest, st2);
      RowAfterFirst(r, st);
    }
  }

  lemma EncodeRowCons(r: seq<string>, rest: string)
    requires |r| >= 2
    ensures EncodeRow(r) + rest == EncodeCell(r[0]) + ("," + (EncodeRow(r[1..]) + rest))
  {
    Assoc4(EncodeCell(r[0]), ",", EncodeRow(r[1..]), rest);
  }

  /** The open row after the first cell, then the rest of the row's cells but the last. */
  lemma RowAfterFirst(r: seq<string>, st: ScanState)
    requires |r| >= 2
    ensures st.(row := st.row + [r[0]], current := "").(row := st.row + [r[0]] + r[1..][..|r| - 2], current := r[1..][|r| - 2])
         == st.(row := st.row + r[..|r| - 1], current := r[|r| - 1])
  {
    InitCons(st.row, r);
  }

  /** A cell and the comma after it move the cell to the open row. */
  lemma ScanCellComma(c: string, more: string, st: ScanState)
    requires !st.inQuotes && st.current == ""
    ensures Scan(EncodeCell(c) + ("," + more), st) == Scan(more, st.(row := st.row + [c], current := ""))
  {
    ScanCellFrom(c, st);
    assert ("," + more)[0] == ',';
    ScanCell(c, "," + more, st);
    ScanComma(more, st.(current := c));
  }

  lemma ScanCellFrom(c: string, st: ScanState)
    requires st.current == ""
    ensures st.(current := st.current + c) == st.(current := c)
  {
    assert st.current + c == c;
  }

  /** A line ending closes the open row, when a lone `\r` is not followed by `\n`. */
  lemma ScanEol(eol: string, rest: string, st: ScanState)
    requires IsEol(eol) && !st.inQuotes
    requires eol == "\r" ==> rest == [] || rest[0] != '\n'
    ensures Scan(eol + rest, st) == Scan(rest, EndRow(st))
  {
    var s := eol + rest;
    assert s[0] == eol[0];
    if eol == "\r\n" {
      assert s[1] == '\n' && s[2..] == rest;
    } else {
      assert s[1..] == rest;
    }
  }

  lemma {:induction false} EncodeCsvStart(rows: seq<seq<string>>, eol: string)
    requires IsEol(eol) && forall k :: 0 <= k < |rows| ==> |rows[k]| >= 1
    ensures EncodeCsv(rows, eol) == [] || EncodeCsv(rows, eol)[0] != '\n' || eol == "\n"
  {
    if rows != [] {
      EncodeRowStart(rows[0]);
      var s := EncodeRow(rows[0]) + eol + EncodeCsv(rows[1..], eol);
      if EncodeRow(rows[0]) == [] { assert s[0] == eol[0]; } else { assert s[0] == EncodeRow(rows[0])[0]; }
    }
  }

  // ---------------------------------------------------------------------------
  // What the reader promises.

  /**
   * Reading back what the writer produced gives the rows again, for each of the
   * three line endings: quotes, commas and line breaks inside a quoted cell are
   * cell text, a doubled quote is one quote, and the final line ending adds no row.
   */
  lemma RowsRoundTrip(rows: seq<seq<string>>, eol: string)
    requires IsEol(eol) && forall k :: 0 <= k < |rows| ==> |rows[k]| >= 1
    ensures Rows(EncodeCsv(rows, eol)) == rows
  {
    ScanRowsPrefix(rows, eol, []);
    AppendEmpty(EncodeCsv(rows, eol));
  }

  /** A last line without a line ending is still emitted, unless it is a single empty cell. */
  lemma RowsUnterminatedLastLine(rows: seq<seq<string>>, eol: string, last: seq<string>)
    requires IsEol(eol) && forall k :: 0 <= k < |rows| ==> |rows[k]| >= 1
    requires |last| >= 2 || (|last| == 1 && last[0] != "")
    ensures Rows(EncodeCsv(rows, eol) + EncodeRow(last)) == rows + [last]
  {
    EncodeRowStart(last);
    ScanRowsPrefix(rows, eol, EncodeRow(last));
    var st := Start.(rows := rows);
    ScanRow(last, [], st);
    AppendEmpty(EncodeRow(last));
    AppendEmpty(last[..|last| - 1]);
    InitLast(last);
    var fin := st.(row := last[..|last| - 1], current := last[|last| - 1]);
    assert Scan(EncodeCsv(rows, eol) + EncodeRow(last), Start) == fin;
    assert |fin.row| > 0 || |fin.current| > 0;
  }

  /** An unterminated quote keeps everything after it as the text of the last cell. */
  lemma RowsUnterminatedQuote(rows: seq<seq<string>>, eol: string, c: string)
    requires IsEol(eol) && forall k :: 0 <= k < |rows| ==> |rows[k]| >= 1
    requires c != [] && forall i :: 0 <= i < |c| ==> c[i] != '"'
    ensures Rows(EncodeCsv(rows, eol) + "\"" + c) == rows + [[c]]
  {
    ScanRowsPrefix(rows, eol, "\"" + c);
    Assoc3(EncodeCsv(rows, eol), "\"", c);
    var st := Start.(rows := rows);
    assert ("\"" + c)[0] == '"' && ("\"" + c)[1..] == c;
    ScanInQuotes(c, st.(inQuotes := true));
    AppendEmpty(c);
    AppendEmpty([c]);
    assert Scan(EncodeCsv(rows, eol) + "\"" + c, Start) == ScanState(rows, [], c, true);
  }

  /** Inside quotes, text without a quote character is appended to the open cell unchanged. */
  lemma {:induction false} ScanInQuotes(c: string, st: ScanState)
    requires st.inQuotes && forall i :: 0 <= i < |c| ==> c[i] != '"'
    ensures Scan(c, st) == st.(current := st.current + c)
  {
    if c == [] {
      assert st.current + c == st.current;
    } else {
      ScanInQuotes(c[1..], st.(current := st.current + [c[0]]));
      assert st.current + [c[0]] + c[1..] == st.current + c;
    }
  }

  /** Encoded rows followed by any text that does not start with a line feed. */
  lemma ScanRowsPrefix(rows: seq<seq<string>>, eol: string, tail: string)
    requires IsEol(eol) && forall k :: 0 <= k < |rows| ==> |rows[k]| >= 1
    requires tail == [] || tail[0] != '\n'
    ensures Scan(EncodeCsv(rows, eol) + tail, Start) == Scan(tail, Start.(rows := rows))
  {
    ScanRowsAppend(rows, eol, tail, Start);
    AppendEmpty(rows);
  }

  /** Encoded rows, read from a state with nothing open, are appended to the finished rows. */
  lemma {:induction false} ScanRowsAppend(rows: seq<seq<string>>, eol: string, tail: string, st: ScanState)
    requires IsEol(eol) && forall k :: 0 <= k < |rows| ==> |rows[k]| >= 1
    requires tail == [] || tail[0] != '\n'
    requires !st.inQuotes && st.row == [] && st.current == ""
    ensures Scan(EncodeCsv(rows, eol) + tail, st) == Scan(tail, st.(rows := st.rows + rows))
  {
    if rows == [] {
      AppendEmpty(tail);
      AppendEmpty(st.rows);
    } else {
      var r := rows[0];
      var next := EncodeCsv(rows[1..], eol);
      var more := next + tail;
      assert EncodeCsv(rows, eol) == EncodeRow(r) + eol + next;
      Assoc4(EncodeRow(r), eol, next, tail);
      assert (eol + more)[0] == eol[0];
      ScanRow(r, eol + more, st);
      AppendEmpty(r[..|r| - 1]);
      var st1 := st.(row := r[..|r| - 1], current := r[|r| - 1]);
      EncodeCsvStart(rows[1..], eol);
      if next == [] { AppendEmpty(tail); } else { assert more[0] == next[0]; }
      ScanEol(eol, more, st1);
      InitLast(r);
      var st2 := EndRow(st1);
      assert st2 == st.(rows := st.rows + [r]);
      ScanRowsAppend(rows[1..], eol, tail, st2);
      AppendCons(st.rows, rows);
      assert st2.(rows := st2.rows + rows[1..]) == st.(rows := st.rows + rows);
    }
  }
}
