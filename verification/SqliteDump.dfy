/**
  The SQLite dump writer and the statement splitter that restores it
  (internal/backup/dump_sqlite.go). A dump is a string; the splitter's specification is an
  automaton over it, and reading a literal follows SQLite's lexical rules.
 */
module SqliteDump {
  import opened Wrappers
  import opened Strings

  type Byte = b: int | 0 <= b < 256

  /** A scanned column value; Other is a value of any other driver type, by its printed form.
      Floats are not modelled. */
  datatype Value =
    Null | Int(n: int) | Blob(bytes: seq<Byte>) | Text(text: string) | Bool(on: bool) | Other(text: string)

  /** What SQLite holds for a value: it has no boolean type, and keeps a printed form as text. */
  function AsStored(v: Value): Value {
    match v
    case Bool(on) => Int(if on then 1 else 0)
    case Other(text) => Text(text)
    case _ => v
  }

  function RowAsStored(row: seq<Value>): seq<Value> {
    seq(|row|, i requires 0 <= i < |row| => AsStored(row[i]))
  }

  // ---------------------------------------------------------------- literals

  function HexDigit(d: nat): char
    requires d < 16
  {
    if d < 10 then '0' + d as char else 'a' + (d - 10) as char
  }

  function Hex(bytes: seq<Byte>): string {
    if bytes == [] then "" else [HexDigit(bytes[0] / 16), HexDigit(bytes[0] % 16)] + Hex(bytes[1..])
  }

  /** Every quote doubled. */
  function Doubled(s: string): string {
    if s == "" then "" else (if s[0] == '\'' then "''" else [s[0]]) + Doubled(s[1..])
  }

  function Literal(v: Value): string {
    match v
    case Null => "NULL"
    case Int(n) => IntText(n)
    case Blob(bytes) => "X'" + Hex(bytes) + "'"
    case Text(text) => "'" + Doubled(text) + "'"
    case Bool(on) => if on then "1" else "0"
    case Other(text) => "'" + Doubled(text) + "'"
  }

  /** The values of a row, separated by commas. */
  function Literals(row: seq<Value>): string {
    if row == [] then ""
    else if |row| == 1 then Literal(row[0])
    else Literal(row[0]) + ("," + Literals(row[1..]))
  }

  function ColumnList(cols: seq<string>): string {
    if cols == [] then ""
    else if |cols| == 1 then cols[0]
    else cols[0] + ("`, `" + ColumnList(cols[1..]))
  }

  function InsertHead(table: string, cols: seq<string>): string {
    "INSERT INTO `" + table + "` (`" + ColumnList(cols) + "`) VALUES ("
  }

  /** One row's statement, without its semicolon. */
  function Insert(head: string, row: seq<Value>): string {
    head + Literals(row) + ")"
  }

  function Inserts(head: string, rows: seq<seq<Value>>): string {
    if rows == [] then "" else Insert(head, rows[0]) + (";" + ("\n" + Inserts(head, rows[1..])))
  }

  /** What dumpRowsSQLite writes: nothing at all for a table without columns. */
  function RowsDump(table: string, cols: seq<string>, rows: seq<seq<Value>>): string {
    if cols == [] then "" else Inserts(InsertHead(table, cols), rows) + (if rows == [] then "" else "\n")
  }

  predicate ValidIdentifier(s: string) {
    s != "" && forall i :: 0 <= i < |s| ==>
      'a' <= s[i] <= 'z' || 'A' <= s[i] <= 'Z' || '0' <= s[i] <= '9' || s[i] == '_'
  }

  // ---------------------------------------------------------------- the splitter's automaton

  function Statement(cur: string): seq<string> {
    var stmt := TrimSpace(cur);
    if stmt == "" then [] else [stmt]
  }

  /** The length of a comment: up to and including its newline. */
  function CommentLength(s: string): (n: nat)
    ensures n <= |s|
  {
    if s == "" then 0 else if s[0] == '\n' then 1 else 1 + CommentLength(s[1..])
  }

  /** What the splitter does at the head of rest: end a statement, or read on. */
  datatype Move = Cut | Read(n: nat, inQuote: bool)

  function NextMove(rest: string, inQuote: bool): (m: Move)
    requires rest != ""
    ensures m.Read? ==> 1 <= m.n <= |rest|
  {
    if inQuote then
      if rest[0] != '\'' then Read(1, true)
      else if |rest| > 1 && rest[1] == '\'' then Read(2, true)
      else Read(1, false)
    else if rest[0] == '\'' then Read(1, true)
    else if rest[0] == '-' && |rest| > 1 && rest[1] == '-' then Read(CommentLength(rest), false)
    else if rest[0] == ';' then Cut
    else Read(1, false)
  }

  /** The statements of rest, with cur the text read since the last semicolon. */
  function Split(cur: string, rest: string, inQuote: bool): seq<string>
    decreases |rest|
  {
    if rest == "" then Statement(cur)
    else
      match NextMove(rest, inQuote)
      case Cut => Statement(cur) + Split("", rest[1..], false)
      case Read(n, inQuote') => Split(cur + rest[..n], rest[n..], inQuote')
  }

  // ---------------------------------------------------------------- rendered text passes the automaton

  lemma Assoc(a: string, b: string, c: string)
    ensures a + b + c == a + (b + c)
  {
  }

  /** Text the automaton reads through outside quotes without cutting a statement. */
  predicate Harmless(c: char) {
    c != '\'' && c != ';' && c != '-'
  }

  lemma {:induction false} HarmlessPasses(cur: string, x: string, rest: string)
    requires forall i :: 0 <= i < |x| ==> Harmless(x[i])
    ensures Split(cur, x + rest, false) == Split(cur + x, rest, false)
    decreases |x|
  {
    if x == "" {
      assert x + rest == rest && cur + x == cur;
    } else {
      var s := x + rest;
      assert s[1..] == x[1..] + rest && s[..1] == x[..1];
      HarmlessPasses(cur + x[..1], x[1..], rest);
      assert cur + x[..1] + x[1..] == cur + x;
    }
  }

  lemma {:induction false} CommentRunsToNewline(text: string, rest: string)
    requires '\n' !in text
    ensures CommentLength(text + "\n" + rest) == |text| + 1
    decreases |text|
  {
    var s := text + "\n" + rest;
    if text != "" {
      assert s[0] == text[0] && s[1..] == text[1..] + "\n" + rest;
      CommentRunsToNewline(text[1..], rest);
    }
  }

  /** A comment outside quotes is read through to its newline, quotes and semicolons in it included, and
      belongs to the statement it stands in. */
  lemma CommentPasses(cur: string, text: string, rest: string)
    requires '\n' !in text
    ensures Split(cur, "--" + text + "\n" + rest, false) == Split(cur + "--" + text + "\n", rest, false)
  {
    var c := "--" + text;
    var s := c + "\n" + rest;
    CommentRunsToNewline(c, rest);
    assert s[..|c| + 1] == c + "\n" && s[|c| + 1..] == rest;
    assert cur + (c + "\n") == cur + "--" + text + "\n";
  }

  /** Inside quotes: everything up to the closing quote belongs to the literal. */
  lemma {:induction false} QuotedPasses(cur: string, text: string, rest: string)
    requires rest == "" || rest[0] != '\''
    ensures Split(cur, Doubled(text) + ("'" + rest), true) == Split(cur + Doubled(text) + "'", rest, false)
    decreases |text|
  {
    var s := Doubled(text) + ("'" + rest);
    if text == "" {
      assert s == "'" + rest;
      assert s[1..] == rest && s[..1] == "'" && cur + Doubled(text) + "'" == cur + "'";
    } else {
      var head := if text[0] == '\'' then "''" else [text[0]];
      var tail := Doubled(text[1..]);
      assert s == head + (tail + ("'" + rest));
      assert s[..|head|] == head && s[|head|..] == tail + ("'" + rest);
      QuotedPasses(cur + head, text[1..], rest);
      assert cur + head + tail + "'" == cur + Doubled(text) + "'";
    }
  }

  lemma {:induction false} HexHasNoQuote(bytes: seq<Byte>)
    ensures '\'' !in Hex(bytes)
  {
    if bytes != [] {
      HexHasNoQuote(bytes[1..]);
    }
  }

  lemma {:induction false} NothingToDouble(s: string)
    requires '\'' !in s
    ensures Doubled(s) == s
  {
    if s != "" {
      NothingToDouble(s[1..]);
      assert s == [s[0]] + s[1..];
    }
  }

  /** A rendered literal is read through whole, given that a comma or parenthesis follows. */
  lemma LiteralPasses(cur: string, v: Value, rest: string)
    requires rest != "" && (rest[0] == ',' || rest[0] == ')')
    ensures Split(cur, Literal(v) + rest, false) == Split(cur + Literal(v), rest, false)
  {
    match v
    case Null =>
      HarmlessPasses(cur, "NULL", rest);
    case Int(n) =>
      IntPasses(cur, n, rest);
    case Blob(bytes) =>
      HexHasNoQuote(bytes);
      NothingToDouble(Hex(bytes));
      BlobPasses(cur, Hex(bytes), rest);
    case Text(text) =>
      TextPasses(cur, text, rest);
    case Bool(on) =>
      HarmlessPasses(cur, Literal(v), rest);
    case Other(text) =>
      TextPasses(cur, text, rest);
  }

  lemma IntPasses(cur: string, n: int, rest: string)
    ensures Split(cur, Literal(Int(n)) + rest, false) == Split(cur + Literal(Int(n)), rest, false)
  {
    if n < 0 {
      var d := Digits(-n);
      var s := "-" + (d + rest);
      Assoc("-", d, rest);
      assert s[0] == '-' && s[1] == d[0] && s[..1] == "-" && s[1..] == d + rest;
      HarmlessPasses(cur + "-", d, rest);
      Assoc(cur, "-", d);
    } else {
      HarmlessPasses(cur, Digits(n), rest);
    }
  }

  lemma TextPasses(cur: string, text: string, rest: string)
    requires rest == "" || rest[0] != '\''
    ensures Split(cur, "'" + Doubled(text) + "'" + rest, false) == Split(cur + ("'" + Doubled(text) + "'"), rest, false)
  {
    var s := "'" + Doubled(text) + "'" + rest;
    assert s[..1] == "'" && s[1..] == Doubled(text) + ("'" + rest);
    QuotedPasses(cur + "'", text, rest);
    assert cur + "'" + Doubled(text) + "'" == cur + ("'" + Doubled(text) + "'");
  }

  lemma BlobPasses(cur: string, hex: string, rest: string)
    requires Doubled(hex) == hex && (rest == "" || rest[0] != '\'')
    ensures Split(cur, "X'" + hex + "'" + rest, false) == Split(cur + ("X'" + hex + "'"), rest, false)
  {
    var quoted := "'" + hex + "'";
    BlobText(hex, rest);
    HarmlessPasses(cur, "X", quoted + rest);
    TextPasses(cur + "X", hex, rest);
    Assoc(cur, "X", quoted);
  }

  lemma BlobText(hex: string, rest: string)
    ensures "X'" + hex + "'" == "X" + ("'" + hex + "'")
    ensures "X'" + hex + "'" + rest == "X" + ("'" + hex + "'" + rest)
  {
    assert "X'" == "X" + "'";
    Assoc("X", "'", hex);
    Assoc("X", "'" + hex, "'");
    Assoc("X", "'" + hex + "'", rest);
  }

  lemma {:induction false} LiteralsPass(cur: string, row: seq<Value>, rest: string)
    requires row != [] && rest != "" && rest[0] == ')'
    ensures Split(cur, Literals(row) + rest, false) == Split(cur + Literals(row), rest, false)
    decreases |row|
  {
    if |row| == 1 {
      LiteralPasses(cur, row[0], rest);
    } else {
      var first, more := Literal(row[0]), Literals(row[1..]);
      Assoc(first, "," + more, rest);
      Assoc(",", more, rest);
      LiteralPasses(cur, row[0], "," + (more + rest));
      HarmlessPasses(cur + first, ",", more + rest);
      LiteralsPass(cur + first + ",", row[1..], rest);
      Assoc(cur + first, ",", more);
      Assoc(cur, first, "," + more);
    }
  }

  predicate AllHarmless(s: string) {
    forall i :: 0 <= i < |s| ==> Harmless(s[i])
  }

  lemma {:induction false} ColumnListIsHarmless(cols: seq<string>)
    requires forall i :: 0 <= i < |cols| ==> ValidIdentifier(cols[i])
    ensures AllHarmless(ColumnList(cols))
  {
    if |cols| > 1 {
      ColumnListIsHarmless(cols[1..]);
      assert AllHarmless("`, `");
    }
  }

  predicate Blank(s: string) {
    forall i :: 0 <= i < |s| ==> IsSpace(s[i])
  }

  predicate PlainHead(head: string) {
    head != "" && AllHarmless(head) && !IsSpace(head[0])
  }

  lemma InsertHeadIsHarmless(table: string, cols: seq<string>)
    requires ValidIdentifier(table) && forall i :: 0 <= i < |cols| ==> ValidIdentifier(cols[i])
    ensures PlainHead(InsertHead(table, cols))
  {
    ColumnListIsHarmless(cols);
    assert AllHarmless("INSERT INTO `") && AllHarmless("` (`") && AllHarmless("`) VALUES (");
  }

  // ---------------------------------------------------------------- one statement per row

  lemma {:induction false} TrimLeftBlank(ws: string, s: string)
    requires Blank(ws) && (s == "" || !IsSpace(s[0]))
    ensures TrimLeft(ws + s) == s
  {
    if ws == "" {
      assert ws + s == s;
    } else {
      assert (ws + s)[1..] == ws[1..] + s;
      TrimLeftBlank(ws[1..], s);
    }
  }

  lemma StatementOfInsert(ws: string, stmt: string)
    requires Blank(ws) && stmt != "" && !IsSpace(stmt[0]) && !IsSpace(stmt[|stmt| - 1])
    ensures Statement(ws + stmt) == [stmt]
  {
    TrimLeftBlank(ws, stmt);
  }

  lemma StatementOfBlank(ws: string)
    requires Blank(ws)
    ensures Statement(ws) == []
  {
    TrimLeftBlank(ws, "");
    assert ws + "" == ws;
  }

  /** The automaton cuts exactly one statement for a rendered row, whatever its values hold. */
  lemma RowSplits(ws: string, head: string, row: seq<Value>, rest: string)
    requires PlainHead(head) && Blank(ws) && row != []
    ensures Split(ws, Insert(head, row) + (";" + rest), false) == [Insert(head, row)] + Split("", rest, false)
  {
    var body, stmt := Literals(row), Insert(head, row);
    var close := ")" + (";" + rest);
    Assoc(head + body, ")", ";" + rest);
    Assoc(head, body, close);
    HarmlessPasses(ws, head, body + close);
    LiteralsPass(ws + head, row, close);
    HarmlessPasses(ws + head + body, ")", ";" + rest);
    Assoc(ws, head, body);
    Assoc(ws, head + body, ")");
    assert (";" + rest)[1..] == rest;
    StatementOfInsert(ws, stmt);
  }

  function Statements(head: string, rows: seq<seq<Value>>): (r: seq<string>)
    ensures |r| == |rows|
    ensures forall i :: 0 <= i < |rows| ==> r[i] == Insert(head, rows[i])
  {
    seq(|rows|, i requires 0 <= i < |rows| => Insert(head, rows[i]))
  }

  lemma {:induction false} InsertsSplit(ws: string, head: string, rows: seq<seq<Value>>, tail: string)
    requires PlainHead(head) && Blank(ws) && Blank(tail) && forall i :: 0 <= i < |rows| ==> rows[i] != []
    ensures Split(ws, Inserts(head, rows) + tail, false) == Statements(head, rows)
    decreases |rows|
  {
    if rows == [] {
      assert Inserts(head, rows) + tail == tail;
      BlankSplits(ws, tail);
    } else {
      var stmt, later := Insert(head, rows[0]), Inserts(head, rows[1..]);
      LineText(stmt, later, tail);
      LineSplits(ws, head, rows[0], later + tail);
      InsertsSplit("\n", head, rows[1..], tail);
      StatementsCons(head, rows);
    }
  }

  lemma LineText(stmt: string, later: string, tail: string)
    ensures stmt + (";" + ("\n" + later)) + tail == stmt + (";" + ("\n" + (later + tail)))
  {
    Assoc(stmt, ";" + ("\n" + later), tail);
    Assoc(";", "\n" + later, tail);
    Assoc("\n", later, tail);
  }

  lemma LineSplits(ws: string, head: string, row: seq<Value>, more: string)
    requires PlainHead(head) && Blank(ws) && row != []
    ensures Split(ws, Insert(head, row) + (";" + ("\n" + more)), false)
            == [Insert(head, row)] + Split("\n", more, false)
  {
    RowSplits(ws, head, row, "\n" + more);
    HarmlessPasses("", "\n", more);
    assert "" + "\n" == "\n";
  }

  lemma StatementsCons(head: string, rows: seq<seq<Value>>)
    requires rows != []
    ensures Statements(head, rows) == [Insert(head, rows[0])] + Statements(head, rows[1..])
  {
  }

  lemma BlankSplits(ws: string, tail: string)
    requires Blank(ws) && Blank(tail)
    ensures Split(ws, tail, false) == []
  {
    assert forall i :: 0 <= i < |tail| ==> Harmless(tail[i]) by {
      forall i | 0 <= i < |tail| ensures Harmless(tail[i]) {
        assert IsSpace(tail[i]);
      }
    }
    HarmlessPasses(ws, tail, "");
    assert tail + "" == tail;
    StatementOfBlank(ws + tail);
  }

  /** Splitting a table's dump yields its INSERTs, one per row and in order. */
  lemma DumpSplitsByRow(table: string, cols: seq<string>, rows: seq<seq<Value>>)
    requires ValidIdentifier(table) && forall i :: 0 <= i < |cols| ==> ValidIdentifier(cols[i])
    requires forall i :: 0 <= i < |rows| ==> |rows[i]| == |cols|
    ensures cols == [] ==> Split("", RowsDump(table, cols, rows), false) == []
    ensures cols != [] ==> Split("", RowsDump(table, cols, rows), false) == Statements(InsertHead(table, cols), rows)
  {
    if cols == [] {
      StatementOfBlank("");
    } else {
      var tail := if rows == [] then "" else "\n";
      InsertHeadIsHarmless(table, cols);
      InsertsSplit("", InsertHead(table, cols), rows, tail);
    }
  }

  // ---------------------------------------------------------------- reading literals back

  function HexValue(c: char): Option<nat> {
    if '0' <= c <= '9' then Some((c - '0') as nat)
    else if 'a' <= c <= 'f' then Some((c - 'a') as nat + 10)
    else None
  }

  /** The longest prefix of digits, and its value. */
  function TakeDigits(s: string): string {
    if s != "" && IsDigit(s[0]) then [s[0]] + TakeDigits(s[1..]) else ""
  }

  /** Bytes up to the closing quote of a blob literal, and what follows it. */
  function ReadHex(s: string): Option<(seq<Byte>, string)> {
    if s == "" then None
    else if s[0] == '\'' then Some(([], s[1..]))
    else if |s| < 2 || HexValue(s[0]).None? || HexValue(s[1]).None? then None
    else
      match ReadHex(s[2..])
      case None => None
      case Some((bytes, rest)) =>
        var b := HexValue(s[0]).value * 16 + HexValue(s[1]).value;
        if b < 256 then Some(([b] + bytes, rest)) else None
  }

  /** Text up to the closing quote, a doubled quote standing for one. */
  function ReadQuoted(s: string): Option<(string, string)> {
    if s == "" then None
    else if s[0] == '\'' then
      if |s| > 1 && s[1] == '\'' then
        match ReadQuoted(s[2..])
        case None => None
        case Some((text, rest)) => Some((['\''] + text, rest))
      else Some(("", s[1..]))
    else
      match ReadQuoted(s[1..])
      case None => None
      case Some((text, rest)) => Some(([s[0]] + text, rest))
  }

  /** One SQL literal at the head of s, and what follows it. */
  function ReadLiteral(s: string): Option<(Value, string)> {
    if "NULL" <= s then Some((Null, s[4..]))
    else if "X'" <= s then
      match ReadHex(s[2..])
      case None => None
      case Some((bytes, rest)) => Some((Blob(bytes), rest))
    else if "'" <= s then
      match ReadQuoted(s[1..])
      case None => None
      case Some((text, rest)) => Some((Text(text), rest))
    else if "-" <= s && |TakeDigits(s[1..])| <= |s| - 1 then
      var d := TakeDigits(s[1..]);
      if d == "" then None else Some((Int(-(DigitsValue(d) as int)), s[1 + |d|..]))
    else
      var d := TakeDigits(s);
      if d == "" || |d| > |s| then None else Some((Int(DigitsValue(d)), s[|d|..]))
  }

  /** The values of a row up to its closing parenthesis. */
  function ReadRow(s: string): Option<seq<Value>>
    decreases |s|
  {
    match ReadLiteral(s)
    case None => None
    case Some((v, rest)) =>
      if rest == ")" then Some([v])
      else if rest != "" && rest[0] == ',' && |rest| <= |s| then
        match ReadRow(rest[1..])
        case None => None
        case Some(row) => Some([v] + row)
      else None
  }

  lemma {:induction false} TakeDigitsStops(d: string, rest: string)
    requires forall i :: 0 <= i < |d| ==> IsDigit(d[i])
    requires rest == "" || !IsDigit(rest[0])
    ensures TakeDigits(d + rest) == d
  {
    if d == "" {
      assert d + rest == rest;
    } else {
      assert (d + rest)[1..] == d[1..] + rest;
      TakeDigitsStops(d[1..], rest);
    }
  }

  lemma HexPairReadsBack(b: Byte, rest: string)
    ensures var s := [HexDigit(b / 16), HexDigit(b % 16)] + rest;
            && s[0] != '\'' && HexValue(s[0]) == Some(b / 16) && HexValue(s[1]) == Some(b % 16) && s[2..] == rest
  {
  }

  lemma {:induction false} HexReadsBack(bytes: seq<Byte>, rest: string)
    ensures ReadHex(Hex(bytes) + ("'" + rest)) == Some((bytes, rest))
  {
    if bytes == [] {
      var s := "'" + rest;
      assert Hex(bytes) + s == s && s[1..] == rest;
    } else {
      var later := Hex(bytes[1..]) + ("'" + rest);
      HexReadsBack(bytes[1..], rest);
      HexPairReadsBack(bytes[0], later);
      Assoc([HexDigit(bytes[0] / 16), HexDigit(bytes[0] % 16)], Hex(bytes[1..]), "'" + rest);
      assert bytes == [bytes[0]] + bytes[1..];
    }
  }

  lemma {:induction false} QuotedReadsBack(text: string, rest: string)
    requires rest == "" || rest[0] != '\''
    ensures ReadQuoted(Doubled(text) + ("'" + rest)) == Some((text, rest))
    decreases |text|
  {
    var s := Doubled(text) + ("'" + rest);
    if text == "" {
      assert s == "'" + rest && s[1..] == rest;
    } else {
      QuotedReadsBack(text[1..], rest);
      var head := if text[0] == '\'' then "''" else [text[0]];
      assert s == head + (Doubled(text[1..]) + ("'" + rest));
      assert s[|head|..] == Doubled(text[1..]) + ("'" + rest);
      assert text == [text[0]] + text[1..];
    }
  }

  lemma IntReadsBack(n: int, rest: string)
    requires rest != "" && !IsDigit(rest[0])
    ensures ReadLiteral(Literal(Int(n)) + rest) == Some((Int(n), rest))
  {
    var s := Literal(Int(n)) + rest;
    var d := Digits(if n < 0 then -n else n);
    DigitsReadBack(if n < 0 then -n else n);
    TakeDigitsStops(d, rest);
    if n < 0 {
      assert s[0] == '-';
      assert s[1..] == d + rest && s[1 + |d|..] == rest;
    } else {
      assert IsDigit(s[0]);
      assert s[|d|..] == rest;
    }
  }

  lemma BlobReadsBack(bytes: seq<Byte>, rest: string)
    ensures ReadLiteral(Literal(Blob(bytes)) + rest) == Some((Blob(bytes), rest))
  {
    var hex := Hex(bytes);
    var s := Literal(Blob(bytes)) + rest;
    assert s[0] == 'X' && s[1] == '\'';
    Assoc("X'" + hex, "'", rest);
    Assoc("X'", hex, "'" + rest);
    assert s == "X'" + (hex + ("'" + rest));
    assert s[2..] == hex + ("'" + rest);
    HexReadsBack(bytes, rest);
  }

  lemma TextReadsBack(text: string, rest: string)
    requires rest == "" || rest[0] != '\''
    ensures ReadLiteral(Literal(Text(text)) + rest) == Some((Text(text), rest))
  {
    var body := Doubled(text);
    var s := Literal(Text(text)) + rest;
    assert s[0] == '\'';
    Assoc("'" + body, "'", rest);
    Assoc("'", body, "'" + rest);
    assert s[1..] == body + ("'" + rest);
    QuotedReadsBack(text, rest);
  }

  lemma BoolReadsBack(on: bool, rest: string)
    requires rest != "" && !IsDigit(rest[0])
    ensures ReadLiteral(Literal(Bool(on)) + rest) == Some((AsStored(Bool(on)), rest))
  {
    var n := if on then 1 else 0;
    assert Digits(n) == Literal(Bool(on));
    IntReadsBack(n, rest);
  }

  /** Each rendered literal reads back as what SQLite holds for its value, and stops where it ends. */
  lemma LiteralReadsBack(v: Value, rest: string)
    requires rest != "" && (rest[0] == ',' || rest[0] == ')')
    ensures ReadLiteral(Literal(v) + rest) == Some((AsStored(v), rest))
  {
    match v
    case Null =>
      assert (Literal(v) + rest)[4..] == rest;
    case Int(n) =>
      IntReadsBack(n, rest);
    case Blob(bytes) =>
      BlobReadsBack(bytes, rest);
    case Text(text) =>
      TextReadsBack(text, rest);
    case Bool(on) =>
      BoolReadsBack(on, rest);
    case Other(text) =>
      TextReadsBack(text, rest);
  }

  lemma RowAsStoredCons(row: seq<Value>)
    requires row != []
    ensures RowAsStored(row) == [AsStored(row[0])] + RowAsStored(row[1..])
  {
  }

  lemma {:induction false} RowReadsBack(row: seq<Value>)
    requires row != []
    ensures ReadRow(Literals(row) + ")") == Some(RowAsStored(row))
  {
    RowAsStoredCons(row);
    if |row| == 1 {
      LiteralReadsBack(row[0], ")");
      assert RowAsStored(row) == [AsStored(row[0])];
    } else {
      RowReadsBack(row[1..]);
      var first, more := Literal(row[0]), Literals(row[1..]);
      var rest := "," + (more + ")");
      LiteralReadsBack(row[0], rest);
      Assoc(first, "," + more, ")");
      Assoc(",", more, ")");
      assert rest[0] == ',' && rest[1..] == more + ")";
    }
  }

  /** The round trip: from the split statement, past the fixed head, the row reads back. */
  lemma StatementReadsBack(head: string, row: seq<Value>)
    requires row != []
    ensures head <= Insert(head, row) && ReadRow(Insert(head, row)[|head|..]) == Some(RowAsStored(row))
  {
    RowReadsBack(row);
    Assoc(head, Literals(row), ")");
    assert Insert(head, row)[|head|..] == Literals(row) + ")";
  }

  // ---------------------------------------------------------------- reading statements back

  /** s without the text it must start with. */
  function Skip(s: string, text: string): Option<string> {
    if text <= s then Some(s[|text|..]) else None
  }

  /** What comes before and after the first back-quote. */
  function UntilTick(s: string): Option<(string, string)> {
    if s == "" then None
    else if s[0] == '`' then Some(("", s[1..]))
    else
      match UntilTick(s[1..])
      case None => None
      case Some((name, rest)) => Some(([s[0]] + name, rest))
  }

  /** A back-quoted name. */
  function ReadName(s: string): Option<(string, string)> {
    if s == "" || s[0] != '`' then None else UntilTick(s[1..])
  }

  /** Back-quoted names, separated by a comma and a space. */
  function ReadNames(s: string): Option<(seq<string>, string)>
    decreases |s|
  {
    match ReadName(s)
    case None => None
    case Some((name, rest)) =>
      if ", " <= rest && |rest| <= |s| then
        match ReadNames(rest[2..])
        case None => None
        case Some((names, rest')) => Some(([name] + names, rest'))
      else Some(([name], rest))
  }

  datatype Inserted = Inserted(table: string, cols: seq<string>, row: seq<Value>)

  /** An INSERT statement as SQL reads it: the table, the columns, and the values for them in order. */
  function ReadInsert(s: string): Option<Inserted> {
    match Skip(s, "INSERT INTO ")
    case None => None
    case Some(s1) =>
      match ReadName(s1)
      case None => None
      case Some((table, s2)) =>
        match Skip(s2, " (")
        case None => None
        case Some(s3) =>
          match ReadNames(s3)
          case None => None
          case Some((cols, s4)) =>
            match Skip(s4, ") VALUES (")
            case None => None
            case Some(s5) =>
              match ReadRow(s5)
              case None => None
              case Some(row) => Some(Inserted(table, cols, row))
  }

  lemma {:induction false} TickEndsName(name: string, rest: string)
    requires '`' !in name
    ensures UntilTick(name + ("`" + rest)) == Some((name, rest))
    decreases |name|
  {
    var s := name + ("`" + rest);
    if name == "" {
      assert s == "`" + rest && s[1..] == rest;
    } else {
      assert s[1..] == name[1..] + ("`" + rest);
      TickEndsName(name[1..], rest);
      assert name == [name[0]] + name[1..];
    }
  }

  lemma NameReadsBack(name: string, rest: string)
    requires '`' !in name
    ensures ReadName("`" + (name + ("`" + rest))) == Some((name, rest))
  {
    TickEndsName(name, rest);
    assert ("`" + (name + ("`" + rest)))[1..] == name + ("`" + rest);
  }

  lemma SkipsText(text: string, rest: string)
    ensures Skip(text + rest, text) == Some(rest)
  {
    assert (text + rest)[|text|..] == rest;
  }

  lemma IdentifierHasNoTick(name: string)
    requires ValidIdentifier(name)
    ensures '`' !in name
  {
  }

  lemma NoMoreNames(rest: string)
    requires rest != "" && rest[0] == ')'
    ensures !(", " <= rest)
  {
    assert rest[0] != ", "[0];
  }

  lemma {:induction false} NamesReadBack(cols: seq<string>, rest: string)
    requires cols != [] && forall i :: 0 <= i < |cols| ==> ValidIdentifier(cols[i])
    requires rest != "" && rest[0] == ')'
    ensures ReadNames("`" + (ColumnList(cols) + ("`" + rest))) == Some((cols, rest))
    decreases |cols|
  {
    IdentifierHasNoTick(cols[0]);
    NoMoreNames(rest);
    if |cols| == 1 {
      NameReadsBack(cols[0], rest);
      assert cols == [cols[0]];
    } else {
      var more := "`" + (ColumnList(cols[1..]) + ("`" + rest));
      NamesReadBack(cols[1..], rest);
      NameReadsBack(cols[0], ", " + more);
      ColumnsText(cols[0], ColumnList(cols[1..]), "`" + rest);
      assert ", " <= ", " + more && (", " + more)[2..] == more;
      assert cols == [cols[0]] + cols[1..];
    }
  }

  lemma ColumnsText(name: string, more: string, rest: string)
    ensures name + ("`, `" + more) + rest == name + ("`" + (", " + ("`" + (more + rest))))
  {
    assert "`, `" == "`" + (", " + "`");
    assert "`, `" + more + rest == "`" + (", " + ("`" + (more + rest)));
    Assoc(name, "`, `" + more, rest);
  }

  lemma HeadText(table: string, list: string, rest: string)
    ensures "INSERT INTO `" + table + "` (`" + list + "`) VALUES (" + rest
            == "INSERT INTO " + ("`" + (table + ("`" + (" (" + ("`" + (list + ("`" + (") VALUES (" + rest))))))))
  {
    assert "INSERT INTO `" == "INSERT INTO " + "`";
    assert "` (`" == "`" + (" (" + "`");
    assert "`) VALUES (" == "`" + ") VALUES (";
    var a, b, c := "INSERT INTO ", "` (`", "`) VALUES (";
    assert a + "`" + table + b + list + c + rest
        == a + ("`" + (table + (b + (list + (c + rest)))));
  }

  /** A dumped statement names its table and its columns, in order, and its values are those of the
      row: the i-th goes to the i-th column. */
  lemma InsertReadsBack(table: string, cols: seq<string>, row: seq<Value>)
    requires ValidIdentifier(table) && cols != [] && forall i :: 0 <= i < |cols| ==> ValidIdentifier(cols[i])
    requires row != []
    ensures ReadInsert(Insert(InsertHead(table, cols), row)) == Some(Inserted(table, cols, RowAsStored(row)))
  {
    var values := Literals(row) + ")";
    var s5 := ") VALUES (" + values;
    var s3 := "`" + (ColumnList(cols) + ("`" + s5));
    var s2 := " (" + s3;
    var s1 := "`" + (table + ("`" + s2));
    Assoc(InsertHead(table, cols), Literals(row), ")");
    HeadText(table, ColumnList(cols), values);
    assert Insert(InsertHead(table, cols), row) == "INSERT INTO " + s1;
    SkipsText("INSERT INTO ", s1);
    IdentifierHasNoTick(table);
    NameReadsBack(table, s2);
    SkipsText(" (", s3);
    NamesReadBack(cols, s5);
    SkipsText(") VALUES (", values);
    RowReadsBack(row);
  }

  // ---------------------------------------------------------------- the program

  /** writeValueSQLite */
  method WriteValue(w: string, v: Value) returns (w': string)
    ensures w' == w + Literal(v)
  {
    match v {
      case Null => w' := w + "NULL";
      case Blob(bytes) => w' := w + ("X'" + Hex(bytes) + "'");
      case Text(text) => w' := w + ("'" + Doubled(text) + "'");
      case Int(n) => w' := w + IntText(n);
      case Bool(on) =>
        if on {
          w' := w + "1";
        } else {
          w' := w + "0";
        }
      case Other(text) => w' := w + ("'" + Doubled(text) + "'");
    }
  }

  function LiteralsBefore(row: seq<Value>, k: nat): string
    requires k <= |row|
  {
    if k == 0 then "" else LiteralsBefore(row, k - 1) + (if k == 1 then "" else ",") + Literal(row[k - 1])
  }

  lemma {:induction false} LiteralsFromFront(row: seq<Value>, k: nat)
    requires 0 < k < |row|
    ensures LiteralsBefore(row, |row|) == LiteralsBefore(row, k) + ("," + Literals(row[k..]))
    decreases |row| - k
  {
    var before := LiteralsBefore(row, k);
    assert LiteralsBefore(row, k + 1) == before + "," + Literal(row[k]);
    Assoc(before, ",", Literal(row[k]));
    if k + 1 < |row| {
      LiteralsFromFront(row, k + 1);
      var more := "," + Literals(row[k + 1..]);
      assert row[k..][1..] == row[k + 1..];
      Assoc(before, "," + Literal(row[k]), more);
      Assoc(",", Literal(row[k]), more);
    } else {
      assert Literals(row[k..]) == Literal(row[k]);
    }
  }

  lemma LiteralsBeforeAll(row: seq<Value>)
    ensures LiteralsBefore(row, |row|) == Literals(row)
  {
    if |row| >= 1 {
      assert LiteralsBefore(row, 1) == "" + "" + Literal(row[0]) == Literal(row[0]);
      if |row| > 1 {
        LiteralsFromFront(row, 1);
      }
    }
  }

  /** One row of dumpRowsSQLite: the values are written one by one, a comma before each but
      the first. */
  method DumpRow(w: string, head: string, row: seq<Value>) returns (w': string)
    ensures w' == w + (head + Literals(row) + ")" + ";\n")
  {
    var line := head;
    for i := 0 to |row|
      invariant line == head + LiteralsBefore(row, i)
    {
      if i > 0 {
        line := line + ",";
      }
      line := WriteValue(line, row[i]);
      Assoc(head, LiteralsBefore(row, i), if i == 0 then "" else ",");
      Assoc(head, LiteralsBefore(row, i) + (if i == 0 then "" else ","), Literal(row[i]));
    }
    LiteralsBeforeAll(row);
    line := line + ")" + ";\n";
    w' := w + line;
  }

  function InsertsBefore(head: string, rows: seq<seq<Value>>, k: nat): string
    requires k <= |rows|
  {
    if k == 0 then ""
    else InsertsBefore(head, rows, k - 1) + (Insert(head, rows[k - 1]) + ";\n")
  }

  lemma {:induction false} InsertsFromFront(head: string, rows: seq<seq<Value>>, k: nat)
    requires k <= |rows|
    ensures InsertsBefore(head, rows, |rows|) == InsertsBefore(head, rows, k) + Inserts(head, rows[k..])
    decreases |rows| - k
  {
    var before := InsertsBefore(head, rows, k);
    if k == |rows| {
      assert before + "" == before;
    } else {
      InsertsFromFront(head, rows, k + 1);
      var stmt, more := Insert(head, rows[k]), Inserts(head, rows[k + 1..]);
      assert rows[k..][1..] == rows[k + 1..];
      assert ";\n" == ";" + "\n";
      Assoc(before, stmt + ";\n", more);
      Assoc(stmt, ";\n", more);
      Assoc(";", "\n", more);
      assert Inserts(head, rows[k..]) == stmt + (";" + ("\n" + more));
    }
  }

  /** dumpRowsSQLite */
  method DumpRows(table: string, cols: seq<string>, rows: seq<seq<Value>>) returns (w: string)
    ensures w == RowsDump(table, cols, rows)
  {
    if cols == [] {
      return "";
    }
    w := "";
    var wrote := false;
    var head := InsertHead(table, cols);
    for i := 0 to |rows|
      invariant w == InsertsBefore(head, rows, i) && wrote == (i > 0)
    {
      w := DumpRow(w, head, rows[i]);
      wrote := true;
    }
    InsertsFromFront(head, rows, 0);
    assert rows[0..] == rows;
    assert "" + Inserts(head, rows) == Inserts(head, rows);
    if wrote {
      w := w + "\n";
    } else {
      assert w + "" == w;
    }
  }

  /** The automaton's view of the splitter's indices. */
  function SplitAt(dump: string, start: nat, i: nat, inQuote: bool): seq<string>
    requires start <= i <= |dump|
  {
    Split(dump[start..i], dump[i..], inQuote)
  }

  /** The index just past a comment that starts at i. */
  method SkipComment(dump: string, i: nat) returns (k: nat)
    requires i < |dump|
    ensures k == i + CommentLength(dump[i..])
  {
    k := i;
    while k < |dump| && dump[k] != '\n'
      invariant i <= k <= |dump|
      invariant CommentLength(dump[i..]) == k - i + CommentLength(dump[k..])
    {
      assert dump[k..][1..] == dump[k + 1..];
      k := k + 1;
    }
    if k < |dump| {
      k := k + 1;
    }
  }

  /** The decision at index i, taken on the dump itself. */
  method MoveAt(dump: string, i: nat, inQuote: bool) returns (m: Move)
    requires i < |dump|
    ensures m == NextMove(dump[i..], inQuote)
  {
    var c := dump[i];
    var doubled := i + 1 < |dump| && dump[i + 1] == c;
    if inQuote {
      if c != '\'' {
        return Read(1, true);
      }
      return if doubled then Read(2, true) else Read(1, false);
    }
    if c == '\'' {
      return Read(1, true);
    }
    if c == '-' && doubled {
      var k := SkipComment(dump, i);
      return Read(k - i, false);
    }
    return if c == ';' then Cut else Read(1, false);
  }

  lemma SplitAtStep(dump: string, start: nat, i: nat, inQuote: bool)
    requires start <= i < |dump|
    ensures match NextMove(dump[i..], inQuote)
            case Cut =>
              SplitAt(dump, start, i, inQuote) == Statement(dump[start..i]) + SplitAt(dump, i + 1, i + 1, false)
            case Read(n, q) => SplitAt(dump, start, i, inQuote) == SplitAt(dump, start, i + n, q)
  {
    match NextMove(dump[i..], inQuote)
    case Cut =>
      assert dump[i..][1..] == dump[i + 1..] && dump[i + 1..i + 1] == "";
    case Read(n, q) =>
      assert dump[start..i] + dump[i..][..n] == dump[start..i + n];
      assert dump[i..][n..] == dump[i + n..];
  }

  lemma EmptySlices(dump: string, start: nat)
    requires start <= |dump|
    ensures dump[|dump|..] == "" && dump[start..|dump|] == dump[start..] && dump[0..0] == "" && dump[0..] == dump
  {
  }

  lemma SplitAtEnd(dump: string, start: nat, inQuote: bool)
    requires start <= |dump|
    ensures SplitAt(dump, start, |dump|, inQuote) == Statement(dump[start..])
    ensures SplitAt(dump, 0, 0, false) == Split("", dump, false)
  {
    EmptySlices(dump, start);
  }

  lemma CutThenRest(out: seq<string>, cut: seq<string>, rest: seq<string>)
    ensures out + (cut + rest) == (out + cut) + rest
  {
  }

  /** SplitSQLStatements: one walk over the dump, tracking quotes and comments. */
  method SplitSQLStatements(dump: string) returns (out: seq<string>)
    ensures out == Split("", dump, false)
  {
    out := [];
    var start, i, inQuote := 0, 0, false;
    ghost var all := SplitAt(dump, 0, 0, false);
    while i < |dump|
      invariant 0 <= start <= i <= |dump|
      invariant out + SplitAt(dump, start, i, inQuote) == all
      decreases |dump| - i
    {
      var m := MoveAt(dump, i, inQuote);
      SplitAtStep(dump, start, i, inQuote);
      match m {
        case Cut =>
          var cut := Statement(dump[start..i]);
          CutThenRest(out, cut, SplitAt(dump, i + 1, i + 1, false));
          out, start, i, inQuote := out + cut, i + 1, i + 1, false;
        case Read(n, q) =>
          i, inQuote := i + n, q;
      }
    }
    SplitAtEnd(dump, start, inQuote);
    out := out + Statement(dump[start..]);
  }

  /** The restore drill's round trip: the dump of any table splits into exactly one statement
      per row, in order, and each reads back as an insert into that table, under its columns, of the
      row it was written for. */
  method DumpThenSplit(table: string, cols: seq<string>, rows: seq<seq<Value>>) returns (stmts: seq<string>)
    requires ValidIdentifier(table) && cols != [] && forall i :: 0 <= i < |cols| ==> ValidIdentifier(cols[i])
    requires forall i :: 0 <= i < |rows| ==> |rows[i]| == |cols|
    ensures |stmts| == |rows|
    ensures forall i :: 0 <= i < |rows| ==>
              ReadInsert(stmts[i]) == Some(Inserted(table, cols, RowAsStored(rows[i])))
  {
    var dump := DumpRows(table, cols, rows);
    stmts := SplitSQLStatements(dump);
    DumpSplitsByRow(table, cols, rows);
    forall i | 0 <= i < |rows|
      ensures ReadInsert(stmts[i]) == Some(Inserted(table, cols, RowAsStored(rows[i])))
    {
      InsertReadsBack(table, cols, rows[i]);
    }
  }
}
