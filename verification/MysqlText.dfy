// The SQL text restore sends to MySQL, and the server's lexical rules by which
// it is read back (MySQL 8.0 manual, sections 9.1.1, 9.1.4 and 9.2, with
// backslash escapes on).
module MysqlText {
  import opened Wrappers
  import opened Codecs

  datatype Value = Text(text: string) | Binary(data: bytes) | Null
  type Row = seq<Value>

  // --------------------------------------------------------------- printing

  function EscapeChar(c: char): string {
    if c == '\0' then "\\0"
    else if c == '\'' then "\\'"
    else if c == '\"' then "\\\""
    else if c == '\U{08}' then "\\b"
    else if c == '\n' then "\\n"
    else if c == '\r' then "\\r"
    else if c == '\t' then "\\t"
    else if c == '\U{1A}' then "\\Z"
    else if c == '\\' then "\\\\"
    else [c]
  }

  function Escaped(s: string): string {
    if s == [] then [] else EscapeChar(s[0]) + Escaped(s[1..])
  }

  lemma {:induction false} EscapedAppend(a: string, b: string)
    ensures Escaped(a + b) == Escaped(a) + Escaped(b)
  {
    hide EscapeChar;
    if a == [] {
      assert a + b == b;
    } else {
      EscapedAppend(a[1..], b);
      assert (a + b)[1..] == a[1..] + b;
      Regroup(EscapeChar(a[0]), Escaped(a[1..]), Escaped(b));
    }
  }

  method EscapeMysqlString(s: string) returns (escaped: string)
    ensures escaped == PrintText(s)
  {
    escaped := "'";
    assert s[..0] == [] && "'" + Escaped([]) == "'";
    hide Escaped, EscapeChar;
    for n := 0 to |s|
      invariant escaped == "'" + Escaped(s[..n])
    {
      assert s[..n + 1] == s[..n] + [s[n]];
      EscapedAppend(s[..n], [s[n]]);
      OneEscaped(s[n]);
      Regroup("'", Escaped(s[..n]), EscapeChar(s[n]));
      escaped := escaped + EscapeChar(s[n]);
    }
    assert s[..|s|] == s;
    escaped := escaped + "'";
  }

  lemma OneEscaped(c: char)
    ensures Escaped([c]) == EscapeChar(c)
  {
  }

  function PrintText(s: string): string {
    "'" + Escaped(s) + "'"
  }

  // id.replace('`', "``")
  function Doubled(id: string): string {
    if id == [] then [] else (if id[0] == '`' then "``" else [id[0]]) + Doubled(id[1..])
  }

  function QuoteIdentifier(id: string): string {
    "`" + Doubled(id) + "`"
  }

  function HexChar(n: nat): char
    requires n < 16
  {
    if n < 10 then ('0' as int + n) as char else ('a' as int + n - 10) as char
  }

  function HexOf(b: byte): string {
    [HexChar(b as int / 16), HexChar(b as int % 16)]
  }

  function Hex(data: bytes): string {
    if data == [] then [] else HexOf(data[0]) + Hex(data[1..])
  }

  function PrintValue(v: Value): string {
    match v
    case Text(s) => PrintText(s)
    case Binary(b) => "X'" + Hex(b) + "'"
    case Null => "NULL"
  }

  function Join(parts: seq<string>): string {
    if parts == [] then "" else if |parts| == 1 then parts[0] else parts[0] + ", " + Join(parts[1..])
  }

  function Map<A, B>(f: A -> B, s: seq<A>): seq<B> {
    seq(|s|, i requires 0 <= i < |s| => f(s[i]))
  }

  function PrintRow(row: Row): string {
    "(" + Join(Map(PrintValue, row)) + ")"
  }

  function PrintRows(rows: seq<Row>): string {
    Join(Map(PrintRow, rows))
  }

  function InsertPrefix(table: string, columns: seq<string>): string {
    "INSERT INTO " + QuoteIdentifier(table)
    + (if columns == [] then "" else " (" + Join(Map(QuoteIdentifier, columns)) + ")")
    + " VALUES"
  }

  function InsertSql(table: string, columns: seq<string>, rows: seq<Row>): string {
    InsertPrefix(table, columns) + " " + PrintRows(rows) + ";"
  }

  // ---------------------------------------------------------------- reading

  type Rest<T> = Option<(T, string)>

  function Unescape(c: char): string {
    if c == '0' then "\0"
    else if c == 'b' then "\U{08}"
    else if c == 'n' then "\n"
    else if c == 'r' then "\r"
    else if c == 't' then "\t"
    else if c == 'Z' then "\U{1A}"
    else if c == '%' then "\\%"
    else if c == '_' then "\\_"
    else [c]
  }

  function Prepend<T>(front: seq<T>, r: Rest<seq<T>>): Rest<seq<T>> {
    if r.None? then None else Some((front + r.value.0, r.value.1))
  }

  // Reads from after the opening quote to after the closing one.
  function ReadText(input: string): (r: Rest<string>)
    ensures r.Some? ==> |r.value.1| < |input|
  {
    if input == [] then None
    else if input[0] == '\\' then
      if |input| == 1 then None else Prepend(Unescape(input[1]), ReadText(input[2..]))
    else if input[0] == '\'' then
      if |input| > 1 && input[1] == '\'' then Prepend("'", ReadText(input[2..])) else Some(("", input[1..]))
    else Prepend([input[0]], ReadText(input[1..]))
  }

  function ReadIdentifier(input: string): (r: Rest<string>)
    ensures r.Some? ==> |r.value.1| < |input|
  {
    if input == [] then None
    else if input[0] == '`' then
      if |input| > 1 && input[1] == '`' then Prepend("`", ReadIdentifier(input[2..])) else Some(("", input[1..]))
    else Prepend([input[0]], ReadIdentifier(input[1..]))
  }

  function HexDigit(c: char): Option<nat> {
    if '0' <= c <= '9' then Some(c as int - '0' as int)
    else if 'a' <= c <= 'f' then Some(c as int - 'a' as int + 10)
    else if 'A' <= c <= 'F' then Some(c as int - 'A' as int + 10)
    else None
  }

  function ReadHex(input: string): (r: Rest<bytes>)
    ensures r.Some? ==> |r.value.1| < |input|
  {
    if input == [] then None
    else if input[0] == '\'' then Some(([], input[1..]))
    else if |input| == 1 || HexDigit(input[0]).None? || HexDigit(input[1]).None? then None
    else Prepend([(16 * HexDigit(input[0]).value + HexDigit(input[1]).value) as byte], ReadHex(input[2..]))
  }

  function ReadValue(input: string): (r: Rest<Value>)
    ensures r.Some? ==> |r.value.1| < |input|
  {
    if "'" <= input then
      var t := ReadText(input[1..]);
      if t.None? then None else Some((Text(t.value.0), t.value.1))
    else if "X'" <= input then
      var b := ReadHex(input[2..]);
      if b.None? then None else Some((Binary(b.value.0), b.value.1))
    else if "NULL" <= input then Some((Null, input[4..]))
    else None
  }

  // The values of a row, to after its closing parenthesis.
  function ReadValues(input: string): (r: Rest<Row>)
    ensures r.Some? ==> |r.value.1| < |input|
    decreases |input|
  {
    var v := ReadValue(input);
    if v.None? then None
    else if ", " <= v.value.1 then Prepend([v.value.0], ReadValues(v.value.1[2..]))
    else if ")" <= v.value.1 then Some(([v.value.0], v.value.1[1..]))
    else None
  }

  function ReadRow(input: string): (r: Rest<Row>)
    ensures r.Some? ==> |r.value.1| < |input|
  {
    if "()" <= input then Some(([], input[2..]))
    else if "(" <= input then ReadValues(input[1..])
    else None
  }

  // The rows of an INSERT, which end the statement.
  function ReadRows(input: string): Option<seq<Row>>
    decreases |input|
  {
    var row := ReadRow(input);
    if row.None? then None
    else if ", " <= row.value.1 then
      var more := ReadRows(row.value.1[2..]);
      if more.None? then None else Some([row.value.0] + more.value)
    else if row.value.1 == ";" then Some([row.value.0])
    else None
  }

  // Column names, from after the opening parenthesis to after the closing one.
  function ReadColumns(input: string): (r: Rest<seq<string>>)
    ensures r.Some? ==> |r.value.1| < |input|
    decreases |input|
  {
    if !("`" <= input) then None
    else
      var c := ReadIdentifier(input[1..]);
      if c.None? then None
      else if ", " <= c.value.1 then Prepend([c.value.0], ReadColumns(c.value.1[2..]))
      else if ")" <= c.value.1 then Some(([c.value.0], c.value.1[1..]))
      else None
  }

  datatype Insert = Insert(table: string, columns: seq<string>, rows: seq<Row>)

  function ReadInsert(sql: string): Option<Insert> {
    if !("INSERT INTO `" <= sql) then None
    else
      var t := ReadIdentifier(sql[13..]);
      if t.None? then None
      else if " VALUES " <= t.value.1 then
        var rows := ReadRows(t.value.1[8..]);
        if rows.None? then None else Some(Insert(t.value.0, [], rows.value))
      else if " (" <= t.value.1 then
        var c := ReadColumns(t.value.1[2..]);
        if c.None? || !(" VALUES " <= c.value.1) then None
        else
          var rows := ReadRows(c.value.1[8..]);
          if rows.None? then None else Some(Insert(t.value.0, c.value.0, rows.value))
      else None
  }

  // ------------------------------------------------- reading what was printed

  predicate StartsWith(c: char, s: string) {
    s != [] && s[0] == c
  }

  lemma EscapeUndone(c: char)
    ensures |EscapeChar(c)| == 1 ==> EscapeChar(c)[0] == c && c != '\\' && c != '\''
    ensures |EscapeChar(c)| != 1 ==>
              |EscapeChar(c)| == 2 && EscapeChar(c)[0] == '\\' && Unescape(EscapeChar(c)[1]) == [c]
  {
  }

  lemma ReadEscaped(c: char, rest: string)
    ensures ReadText(EscapeChar(c) + rest) == Prepend([c], ReadText(rest))
  {
    hide EscapeChar, Unescape;
    EscapeUndone(c);
    var input := EscapeChar(c) + rest;
    if |EscapeChar(c)| == 1 {
      assert input[1..] == rest;
    } else {
      assert input[2..] == rest;
    }
  }

  // A literal ends at its own closing quote, whatever the text, if and only if
  // another quote does not follow at once.
  lemma {:induction false} TextEndsExactly(s: string, suffix: string)
    ensures ReadText(Escaped(s) + "'" + suffix) == Some((s, suffix)) <==> !StartsWith('\'', suffix)
    ensures var r := ReadText(Escaped(s) + "'" + suffix);
            StartsWith('\'', suffix) && r.Some? ==> |r.value.0| > |s|
  {
    var input := Escaped(s) + "'" + suffix;
    if s == [] {
      assert input == "'" + suffix;
      assert input[1..] == suffix;
    } else {
      var rest := Escaped(s[1..]) + "'" + suffix;
      TextEndsExactly(s[1..], suffix);
      assert input == EscapeChar(s[0]) + rest;
      ReadEscaped(s[0], rest);
      assert s == [s[0]] + s[1..];
    }
  }

  lemma ReadDoubled(c: char, rest: string)
    ensures ReadIdentifier((if c == '`' then "``" else [c]) + rest) == Prepend([c], ReadIdentifier(rest))
  {
  }

  lemma {:induction false} IdentifierEndsExactly(id: string, suffix: string)
    ensures ReadIdentifier(Doubled(id) + "`" + suffix) == Some((id, suffix)) <==> !StartsWith('`', suffix)
    ensures var r := ReadIdentifier(Doubled(id) + "`" + suffix);
            StartsWith('`', suffix) && r.Some? ==> |r.value.0| > |id|
  {
    var input := Doubled(id) + "`" + suffix;
    if id == [] {
      assert input == "`" + suffix;
      assert input[1..] == suffix;
    } else {
      var rest := Doubled(id[1..]) + "`" + suffix;
      IdentifierEndsExactly(id[1..], suffix);
      assert input == (if id[0] == '`' then "``" else [id[0]]) + rest;
      ReadDoubled(id[0], rest);
      assert id == [id[0]] + id[1..];
    }
  }

  lemma HexBack(b: byte)
    ensures |HexOf(b)| == 2
    ensures HexDigit(HexOf(b)[0]) == Some(b as int / 16) && HexDigit(HexOf(b)[1]) == Some(b as int % 16)
    ensures HexOf(b)[0] != '\''
  {
  }

  lemma {:induction false} ReadHexBack(data: bytes, suffix: string)
    ensures ReadHex(Hex(data) + "'" + suffix) == Some((data, suffix))
  {
    hide HexOf, HexDigit;
    var input := Hex(data) + "'" + suffix;
    if data == [] {
      assert input == "'" + suffix;
      assert input[1..] == suffix;
    } else {
      var rest := Hex(data[1..]) + "'" + suffix;
      ReadHexBack(data[1..], suffix);
      assert input == HexOf(data[0]) + rest;
      HexBack(data[0]);
      assert input[2..] == rest;
      assert data == [data[0]] + data[1..];
    }
  }

  lemma ReadValueBack(v: Value, suffix: string)
    requires !StartsWith('\'', suffix)
    ensures ReadValue(PrintValue(v) + suffix) == Some((v, suffix))
  {
    hide ReadText, ReadHex, Escaped, Hex;
    var input := PrintValue(v) + suffix;
    match v {
      case Text(s) =>
        assert input[0] == '\'' && input[1..] == Escaped(s) + "'" + suffix;
        TextEndsExactly(s, suffix);
      case Binary(b) =>
        assert input[0] == 'X' && input[1] == '\'';
        assert input[2..] == Hex(b) + "'" + suffix;
        ReadHexBack(b, suffix);
      case Null =>
        assert input[0] == 'N' && input[..4] == "NULL" && input[4..] == suffix;
    }
  }

  lemma JoinMap<A>(f: A -> string, s: seq<A>)
    requires s != []
    ensures Join(Map(f, s)) == if |s| == 1 then f(s[0]) else f(s[0]) + ", " + Join(Map(f, s[1..]))
  {
    assert Map(f, s)[1..] == Map(f, s[1..]);
  }

  lemma {:induction false} ReadValuesBack(row: Row, suffix: string)
    requires row != []
    ensures ReadValues(Join(Map(PrintValue, row)) + ")" + suffix) == Some((row, suffix))
  {
    hide ReadValue, PrintValue, Join;
    var input := Join(Map(PrintValue, row)) + ")" + suffix;
    JoinMap(PrintValue, row);
    if |row| == 1 {
      assert input == PrintValue(row[0]) + (")" + suffix);
      ReadValueBack(row[0], ")" + suffix);
      assert (")" + suffix)[1..] == suffix;
      assert row == [row[0]];
    } else {
      var rest := Join(Map(PrintValue, row[1..])) + ")" + suffix;
      assert input == PrintValue(row[0]) + (", " + rest);
      ReadValueBack(row[0], ", " + rest);
      assert (", " + rest)[2..] == rest && ", " <= ", " + rest;
      ReadValuesBack(row[1..], suffix);
      assert row == [row[0]] + row[1..];
    }
  }

  lemma PrintedValueFirst(row: Row)
    requires row != []
    ensures Join(Map(PrintValue, row)) != [] && Join(Map(PrintValue, row))[0] != ')'
  {
    JoinMap(PrintValue, row);
  }

  lemma ReadRowBack(row: Row, suffix: string)
    ensures ReadRow(PrintRow(row) + suffix) == Some((row, suffix))
  {
    var input := PrintRow(row) + suffix;
    if row == [] {
      assert input == "()" + suffix && input[2..] == suffix;
    } else {
      PrintedValueFirst(row);
      assert input[1..] == Join(Map(PrintValue, row)) + ")" + suffix;
      assert input[1] != ')';
      ReadValuesBack(row, suffix);
    }
  }

  lemma {:induction false} ReadRowsBack(rows: seq<Row>)
    requires rows != []
    ensures ReadRows(PrintRows(rows) + ";") == Some(rows)
  {
    hide ReadRow, PrintRow;
    var input := PrintRows(rows) + ";";
    JoinMap(PrintRow, rows);
    if |rows| == 1 {
      ReadRowBack(rows[0], ";");
      assert rows == [rows[0]];
    } else {
      var rest := PrintRows(rows[1..]) + ";";
      assert input == PrintRow(rows[0]) + (", " + rest);
      ReadRowBack(rows[0], ", " + rest);
      assert (", " + rest)[2..] == rest && ", " <= ", " + rest;
      ReadRowsBack(rows[1..]);
      assert rows == [rows[0]] + rows[1..];
    }
  }

  lemma ReadQuoted(id: string, suffix: string)
    requires !StartsWith('`', suffix)
    ensures "`" <= QuoteIdentifier(id) + suffix
    ensures ReadIdentifier((QuoteIdentifier(id) + suffix)[1..]) == Some((id, suffix))
  {
    hide ReadIdentifier, Doubled;
    assert (QuoteIdentifier(id) + suffix)[1..] == Doubled(id) + "`" + suffix;
    IdentifierEndsExactly(id, suffix);
  }

  lemma ReadLastColumn(id: string, suffix: string)
    ensures ReadColumns(QuoteIdentifier(id) + (")" + suffix)) == Some(([id], suffix))
  {
    hide ReadIdentifier, QuoteIdentifier;
    ReadQuoted(id, ")" + suffix);
    assert (")" + suffix)[0] == ')' && (")" + suffix)[1..] == suffix;
  }

  lemma ReadNextColumn(id: string, rest: string)
    ensures ReadColumns(QuoteIdentifier(id) + (", " + rest)) == Prepend([id], ReadColumns(rest))
  {
    hide ReadIdentifier, QuoteIdentifier;
    ReadQuoted(id, ", " + rest);
    assert (", " + rest)[2..] == rest && ", " <= ", " + rest;
  }

  lemma {:induction false} ReadColumnsBack(columns: seq<string>, suffix: string)
    requires columns != []
    ensures ReadColumns(Join(Map(QuoteIdentifier, columns)) + ")" + suffix) == Some((columns, suffix))
  {
    hide ReadColumns, QuoteIdentifier, Join;
    JoinMap(QuoteIdentifier, columns);
    if |columns| == 1 {
      ReadLastColumn(columns[0], suffix);
      Regroup(QuoteIdentifier(columns[0]), ")", suffix);
      assert columns == [columns[0]];
    } else {
      var names := Join(Map(QuoteIdentifier, columns[1..]));
      ReadColumnsBack(columns[1..], suffix);
      ReadNextColumn(columns[0], names + ")" + suffix);
      assert QuoteIdentifier(columns[0]) + ", " + names + ")" + suffix
          == QuoteIdentifier(columns[0]) + (", " + (names + ")" + suffix));
      assert columns == [columns[0]] + columns[1..];
    }
  }

  // Reading a printed INSERT gives back its table, columns and rows: no name
  // or value can change what the statement means.
  lemma InsertReadsBack(table: string, columns: seq<string>, rows: seq<Row>)
    requires rows != []
    ensures ReadInsert(InsertSql(table, columns, rows)) == Some(Insert(table, columns, rows))
  {
    hide InsertSql, ReadInsert, PrintRows, ReadRows;
    ReadRowsBack(rows);
    var values := " VALUES " + (PrintRows(rows) + ";");
    if columns == [] {
      ReadWithoutColumns(table, rows, values);
    } else {
      ReadWithColumns(table, columns, rows, values);
    }
  }

  lemma ReadTable(table: string, rest: string)
    requires !StartsWith('`', rest)
    ensures var sql := "INSERT INTO " + QuoteIdentifier(table) + rest;
            "INSERT INTO `" <= sql && ReadIdentifier(sql[13..]) == Some((table, rest))
  {
    hide ReadIdentifier, Doubled;
    assert ("INSERT INTO " + QuoteIdentifier(table) + rest)[13..] == Doubled(table) + "`" + rest;
    IdentifierEndsExactly(table, rest);
  }

  lemma ReadWithoutColumns(table: string, rows: seq<Row>, values: string)
    requires values == " VALUES " + (PrintRows(rows) + ";") && ReadRows(PrintRows(rows) + ";") == Some(rows)
    ensures ReadInsert(InsertSql(table, [], rows)) == Some(Insert(table, [], rows))
  {
    hide PrintRows, ReadRows, ReadIdentifier, QuoteIdentifier;
    assert InsertSql(table, [], rows) == "INSERT INTO " + QuoteIdentifier(table) + values;
    assert values[8..] == PrintRows(rows) + ";" && " VALUES " <= values;
    ReadTable(table, values);
  }

  lemma ReadWithColumns(table: string, columns: seq<string>, rows: seq<Row>, values: string)
    requires columns != []
    requires values == " VALUES " + (PrintRows(rows) + ";") && ReadRows(PrintRows(rows) + ";") == Some(rows)
    ensures ReadInsert(InsertSql(table, columns, rows)) == Some(Insert(table, columns, rows))
  {
    hide PrintRows, ReadRows, ReadColumns, ReadIdentifier, QuoteIdentifier, Join;
    var names := Join(Map(QuoteIdentifier, columns));
    var rest := " (" + (names + ")" + values);
    assert InsertSql(table, columns, rows) == "INSERT INTO " + QuoteIdentifier(table) + rest;
    assert rest[1] == '(' && rest[2..] == names + ")" + values && " (" <= rest;
    assert values[8..] == PrintRows(rows) + ";" && " VALUES " <= values;
    ReadTable(table, rest);
    ReadColumnsBack(columns, values);
  }

  // The characters that are escaped, and how.
  lemma EscapedCharacters(c: char)
    ensures EscapeChar('\0') == "\\0" && EscapeChar('\'') == "\\'" && EscapeChar('\"') == "\\\""
    ensures EscapeChar('\n') == "\\n" && EscapeChar('\r') == "\\r" && EscapeChar('\t') == "\\t"
    ensures EscapeChar('\U{08}') == "\\b" && EscapeChar('\U{1A}') == "\\Z" && EscapeChar('\\') == "\\\\"
    ensures ' ' <= c && c !in "'\"\\" ==> EscapeChar(c) == [c]
  {
  }

  // One statement in full.
  lemma StatementReads()
    ensures InsertSql("t", ["a", "b"], [[Text("x"), Null], [Binary([171]), Text("")]])
            == "INSERT INTO `t` (`a`, `b`) VALUES ('x', NULL), (X'ab', '');"
  {
    NamesRead();
    RowsRead();
  }

  lemma TwoJoined<A>(f: A -> string, x: A, y: A)
    ensures Join(Map(f, [x, y])) == f(x) + ", " + f(y)
  {
    assert Map(f, [x, y]) == [f(x), f(y)] && [f(x), f(y)][1..] == [f(y)];
  }

  lemma NamesRead()
    ensures InsertPrefix("t", ["a", "b"]) == "INSERT INTO `t` (`a`, `b`) VALUES"
  {
    PlainQuoted('t');
    PlainQuoted('a');
    PlainQuoted('b');
    hide QuoteIdentifier;
    TwoJoined(QuoteIdentifier, "a", "b");
  }

  lemma PlainQuoted(c: char)
    requires c != '`'
    ensures QuoteIdentifier([c]) == ['`', c, '`']
  {
    assert Doubled([c]) == [c] + Doubled([]);
  }

  lemma RowsRead()
    ensures PrintRows([[Text("x"), Null], [Binary([171]), Text("")]]) == "('x', NULL), (X'ab', '')"
  {
    ValuesRead();
    hide PrintValue;
    TwoJoined(PrintValue, Text("x"), Null);
    TwoJoined(PrintValue, Binary([171]), Text(""));
    TwoJoined(PrintRow, [Text("x"), Null], [Binary([171]), Text("")]);
  }

  lemma ValuesRead()
    ensures PrintValue(Text("x")) == "'x'" && PrintValue(Text("")) == "''"
    ensures PrintValue(Null) == "NULL" && PrintValue(Binary([171])) == "X'ab'"
  {
    assert Escaped("x") == EscapeChar('x') + Escaped("");
    assert Hex([171]) == HexOf(171) + Hex([]);
  }
}
