/** Writing a page of values as CSV, and the quote-aware reader it is written for (section 2 of
    RFC 4180, with a line feed ending every record). */
module Csv {
  import opened Wrappers
  import opened ErrorBody

  type Row = seq<string>

  // ------------------------------------------------------------ writing

  predicate NeedsQuotes(s: string) {
    ',' in s || '"' in s || '\n' in s
  }

  function Double(s: string): string {
    if s == "" then "" else (if s[0] == '"' then "\"\"" else [s[0]]) + Double(s[1..])
  }

  function Escape(s: string): string {
    if NeedsQuotes(s) then "\"" + Double(s) + "\"" else s
  }

  function Join(cells: seq<string>): string {
    if cells == [] then "" else if |cells| == 1 then cells[0] else cells[0] + "," + Join(cells[1..])
  }

  function Escaped(cells: Row): Row {
    seq(|cells|, i requires 0 <= i < |cells| => Escape(cells[i]))
  }

  function Line(cells: Row): string {
    Join(Escaped(cells)) + "\n"
  }

  function Lines(rows: seq<Row>): string {
    if rows == [] then "" else Line(rows[0]) + Lines(rows[1..])
  }

  // ------------------------------------------------------------ reading

  /** The rest of a quoted cell: a doubled quote stands for one, a single one ends it. */
  function ReadQuoted(s: string): (r: Option<(string, string)>)
    ensures r.Some? ==> |r.value.1| < |s| && |r.value.0| + |r.value.1| < |s|
  {
    if s == "" then None
    else if s[0] != '"' then
      match ReadQuoted(s[1..])
      case Some((cell, rest)) => Some(([s[0]] + cell, rest))
      case None => None
    else if |s| >= 2 && s[1] == '"' then
      match ReadQuoted(s[2..])
      case Some((cell, rest)) => Some(("\"" + cell, rest))
      case None => None
    else Some(("", s[1..]))
  }

  /** A bare cell runs to the next comma or line feed and holds no quote. */
  function ReadBare(s: string): (r: Option<(string, string)>)
    ensures r.Some? ==> |r.value.0| + |r.value.1| == |s| && !NeedsQuotes(r.value.0)
  {
    if s == "" || s[0] == ',' || s[0] == '\n' then Some(("", s))
    else if s[0] == '"' then None
    else match ReadBare(s[1..])
      case Some((cell, rest)) => Some(([s[0]] + cell, rest))
      case None => None
  }

  function ReadCell(s: string): (r: Option<(string, string)>)
    ensures r.Some? ==> |r.value.0| + |r.value.1| <= |s|
    ensures r.Some? && |r.value.0| + |r.value.1| == |s| ==> !NeedsQuotes(r.value.0)
  {
    if s != "" && s[0] == '"' then ReadQuoted(s[1..]) else ReadBare(s)
  }

  function ReadRow(s: string): (r: Option<(Row, string)>)
    ensures r.Some? ==> |r.value.1| < |s| && r.value.0 != []
    decreases |s|
  {
    match ReadCell(s)
    case None => None
    case Some((cell, rest)) =>
      if rest == "" then None
      else if rest[0] == '\n' then Some(([cell], rest[1..]))
      else if rest[0] != ',' then None
      else match ReadRow(rest[1..])
        case Some((cells, more)) => Some(([cell] + cells, more))
        case None => None
  }

  function ReadRows(s: string): Option<seq<Row>>
    decreases |s|
  {
    if s == "" then Some([])
    else match ReadRow(s)
      case None => None
      case Some((row, rest)) =>
        match ReadRows(rest)
        case Some(rows) => Some([row] + rows)
        case None => None
  }

  // ------------------------------------------------------------ round trip

  predicate Delimited(rest: string) {
    rest != "" && (rest[0] == ',' || rest[0] == '\n')
  }

  lemma {:induction false} ReadDoubled(s: string, rest: string)
    requires Delimited(rest)
    ensures ReadQuoted(Double(s) + "\"" + rest) == Some((s, rest))
  {
    var text := Double(s) + "\"" + rest;
    if s == "" {
      assert text == "\"" + rest;
    } else {
      ReadDoubled(s[1..], rest);
      var tail := Double(s[1..]) + "\"" + rest;
      if s[0] == '"' {
        assert text == "\"\"" + tail;
      } else {
        assert text == [s[0]] + tail;
      }
      assert s == [s[0]] + s[1..];
    }
  }

  lemma {:induction false} ReadPlain(s: string, rest: string)
    requires Delimited(rest) && !NeedsQuotes(s)
    ensures ReadBare(s + rest) == Some((s, rest))
  {
    if s == "" {
      assert s + rest == rest;
    } else {
      assert s[0] in s && s == [s[0]] + s[1..] && (s + rest)[1..] == s[1..] + rest;
      assert forall c :: c in s[1..] ==> c in s;
      ReadPlain(s[1..], rest);
    }
  }

  lemma QuotedForm(s: string, rest: string)
    requires NeedsQuotes(s)
    ensures var text := Escape(s) + rest;
            text != "" && text[0] == '"' && text[1..] == Double(s) + "\"" + rest
  {
    hide Double;
    assert Escape(s) == "\"" + Double(s) + "\"";
  }

  lemma PlainForm(s: string, rest: string)
    requires !NeedsQuotes(s) && Delimited(rest)
    ensures var text := Escape(s) + rest;
            text == s + rest && text[0] != '"'
  {
    assert s != "" ==> s[0] in s;
  }

  /** Whatever a cell holds, reading its escaped form gives it back. */
  lemma CellRoundTrip(s: string, rest: string)
    requires Delimited(rest)
    ensures ReadCell(Escape(s) + rest) == Some((s, rest))
  {
    hide Double, Escape, ReadQuoted, ReadBare, NeedsQuotes;
    if NeedsQuotes(s) {
      QuotedForm(s, rest);
      ReadDoubled(s, rest);
    } else {
      PlainForm(s, rest);
      ReadPlain(s, rest);
    }
  }

  lemma LastCell(text: string, cell: string, rest: string)
    requires ReadCell(text) == Some((cell, "\n" + rest))
    ensures ReadRow(text) == Some(([cell], rest))
  {
    hide ReadCell;
    assert ("\n" + rest)[1..] == rest;
  }

  lemma MoreCells(text: string, cell: string, after: string)
    requires ReadCell(text) == Some((cell, "," + after)) && ReadRow(after).Some?
    ensures ReadRow(text) == Some(([cell] + ReadRow(after).value.0, ReadRow(after).value.1))
  {
    hide ReadCell;
    assert ("," + after)[1..] == after;
  }

  lemma {:induction false} LineRoundTrip(cells: Row, rest: string)
    requires cells != []
    ensures ReadRow(Line(cells) + rest) == Some((cells, rest))
  {
    hide Escape, ReadCell, ReadRow;
    var text := Line(cells) + rest;
    if |cells| == 1 {
      assert text == Escape(cells[0]) + ("\n" + rest);
      CellRoundTrip(cells[0], "\n" + rest);
      LastCell(text, cells[0], rest);
      assert cells == [cells[0]];
    } else {
      var more := cells[1..];
      assert Escaped(cells)[1..] == Escaped(more);
      var after := Line(more) + rest;
      assert text == Escape(cells[0]) + ("," + after);
      CellRoundTrip(cells[0], "," + after);
      LineRoundTrip(more, rest);
      MoreCells(text, cells[0], after);
      assert cells == [cells[0]] + more;
    }
  }

  /** How a row without cells reads: as one empty cell, which is written the same way. */
  function AsRead(rows: seq<Row>): seq<Row> {
    seq(|rows|, i requires 0 <= i < |rows| => if rows[i] == [] then [""] else rows[i])
  }

  lemma EmptyRowIsEmptyCell()
    ensures Line([]) == Line([""]) == "\n"
  {
    assert Escaped([""]) == [""];
  }

  lemma ReadsMore(text: string, row: Row, rest: string)
    requires ReadRow(text) == Some((row, rest)) && ReadRows(rest).Some?
    ensures ReadRows(text) == Some([row] + ReadRows(rest).value)
  {
  }

  lemma {:induction false} ReadsAs(rows: seq<Row>)
    ensures ReadRows(Lines(rows)) == Some(AsRead(rows))
  {
    if rows == [] {
      assert AsRead(rows) == [];
    } else {
      hide ReadRow, Line;
      var row := if rows[0] == [] then [""] else rows[0];
      EmptyRowIsEmptyCell();
      LineRoundTrip(row, Lines(rows[1..]));
      ReadsAs(rows[1..]);
      ReadsMore(Lines(rows), row, Lines(rows[1..]));
      assert AsRead(rows) == [row] + AsRead(rows[1..]);
    }
  }

  /** Reading the written rows gives exactly the cell matrix back, whatever the cells hold, if and only
      if every row has a cell. */
  lemma RowsRoundTrip(rows: seq<Row>)
    ensures ReadRows(Lines(rows)) == Some(rows) <==> forall r <- rows :: r != []
  {
    hide ReadRows, Lines;
    ReadsAs(rows);
    if forall r <- rows :: r != [] {
      forall i | 0 <= i < |rows| ensures AsRead(rows)[i] == rows[i] {
        assert rows[i] in rows;
      }
      assert AsRead(rows) == rows;
    } else {
      var i :| 0 <= i < |rows| && rows[i] == [];
      assert AsRead(rows)[i] == [""];
    }
  }

  // ------------------------------------------------------------ headers

  function Width(cells: Row): nat {
    if cells == [] then 0 else |cells[0]| + 1 + Width(cells[1..])
  }

  lemma {:induction false} ReadWidth(s: string)
    requires ReadRow(s).Some?
    ensures var (cells, rest) := ReadRow(s).value;
            && Width(cells) + |rest| <= |s|
            && (Width(cells) + |rest| == |s| ==> forall c <- cells :: !NeedsQuotes(c))
    decreases |s|
  {
    var (cell, rest) := ReadCell(s).value;
    if rest[0] == ',' {
      ReadWidth(rest[1..]);
      var (cells, more) := ReadRow(rest[1..]).value;
      assert ([cell] + cells)[1..] == cells;
    } else {
      assert Width([cell]) == |cell| + 1;
    }
  }

  lemma {:induction false} JoinWidth(cells: Row)
    requires cells != []
    ensures |Join(cells) + "\n"| == Width(cells)
  {
    if |cells| > 1 {
      JoinWidth(cells[1..]);
    } else {
      assert Width(cells[1..]) == 0;
    }
  }

  /** Column names are written as they are: the header reads back as the columns if and only if there
      are any and none holds a comma, a quote or a line feed. */
  lemma HeaderReadsBack(columns: Row)
    ensures ReadRow(Join(columns) + "\n") == Some((columns, ""))
            <==> columns != [] && forall c <- columns :: !NeedsQuotes(c)
  {
    if columns != [] {
      JoinWidth(columns);
      if forall c <- columns :: !NeedsQuotes(c) {
        assert Escaped(columns) == columns;
        LineRoundTrip(columns, "");
        assert Line(columns) + "" == Join(columns) + "\n";
      } else if ReadRow(Join(columns) + "\n") == Some((columns, "")) {
        ReadWidth(Join(columns) + "\n");
        assert false;
      }
    }
  }

  // ------------------------------------------------------------ pages

  /** The text of a cell; `show` renders an object as JSON. */
  function ValueToCell(show: Json -> string, v: Json): string
    decreases v
  {
    match v
    case Null => ""
    case Str(s) => s
    case Bool(b) => if b then "true" else "false"
    case Number(digits) => digits
    case Arr(items) => Listed(show, items)
    case Obj(_) => show(v)
  }

  function Listed(show: Json -> string, items: seq<Json>): string
    decreases items
  {
    if items == [] then ""
    else if |items| == 1 then ValueToCell(show, items[0])
    else Listed(show, items[..|items| - 1]) + ", " + ValueToCell(show, items[|items| - 1])
  }

  predicate Tabular(arr: seq<Json>) {
    exists v :: v in arr && v.Obj?
  }

  ghost predicate IsColumn(arr: seq<Json>, k: string) {
    exists v, f :: v in arr && v.Obj? && f in v.fields && f.key == k
  }

  ghost predicate ColumnsOf(arr: seq<Json>, columns: Row) {
    && (forall i, j :: 0 <= i < j < |columns| ==> columns[i] != columns[j])
    && forall k :: k in columns <==> IsColumn(arr, k)
  }

  /** What the cells of a page are: one row an item. */
  function CellsOf(show: Json -> string, columns: Row, item: Json): Row {
    seq(|columns|, i requires 0 <= i < |columns| =>
      match Get(item, Key(columns[i]))
      case Some(v) => ValueToCell(show, v)
      case None => "")
  }

  function PlainCells(show: Json -> string, item: Json): Row {
    if item.Arr? then seq(|item.items|, i requires 0 <= i < |item.items| => ValueToCell(show, item.items[i]))
    else [ValueToCell(show, item)]
  }

  function RowOf(show: Json -> string, columns: Row, tabular: bool, item: Json): Row {
    if tabular then CellsOf(show, columns, item) else PlainCells(show, item)
  }

  function Matrix(show: Json -> string, columns: Row, arr: seq<Json>): seq<Row> {
    seq(|arr|, i requires 0 <= i < |arr| => RowOf(show, columns, Tabular(arr), arr[i]))
  }

  /** Every key of every object, once each, in order of first appearance. */
  method CollectColumns(arr: seq<Json>) returns (columns: Row)
    ensures ColumnsOf(arr, columns)
  {
    columns := [];
    for n := 0 to |arr|
      invariant ColumnsOf(arr[..n], columns)
    {
      var item := arr[n];
      assert arr[..n + 1] == arr[..n] + [item];
      if item.Obj? {
        for m := 0 to |item.fields|
          invariant forall i, j :: 0 <= i < j < |columns| ==> columns[i] != columns[j]
          invariant forall k :: k in columns <==>
                      IsColumn(arr[..n], k) || exists f :: f in item.fields[..m] && f.key == k
        {
          var f := item.fields[m];
          assert item.fields[..m + 1] == item.fields[..m] + [f];
          if f.key !in columns {
            columns := columns + [f.key];
          }
        }
        assert item.fields[..|item.fields|] == item.fields;
      }
      ColumnsGrow(arr[..n], item, columns);
    }
    assert arr[..|arr|] == arr;
  }

  lemma ColumnsGrow(before: seq<Json>, item: Json, columns: Row)
    requires forall i, j :: 0 <= i < j < |columns| ==> columns[i] != columns[j]
    requires forall k :: k in columns <==>
               IsColumn(before, k) || (item.Obj? && exists f :: f in item.fields && f.key == k)
    ensures ColumnsOf(before + [item], columns)
  {
    forall k ensures k in columns <==> IsColumn(before + [item], k) {
      if IsColumn(before, k) {
        var v, f :| v in before && v.Obj? && f in v.fields && f.key == k;
        assert v in before + [item];
      }
      if item.Obj? && exists f :: f in item.fields && f.key == k {
        assert item in before + [item];
      }
      if IsColumn(before + [item], k) {
        var v, f :| v in before + [item] && v.Obj? && f in v.fields && f.key == k;
        assert v in before || v == item;
      }
    }
  }

  lemma {:induction false} LinesSnoc(rows: seq<Row>, row: Row)
    ensures Lines(rows + [row]) == Lines(rows) + Line(row)
  {
    if rows == [] {
      assert rows + [row] == [row] && Lines([]) == "";
    } else {
      assert (rows + [row])[1..] == rows[1..] + [row];
      LinesSnoc(rows[1..], row);
    }
  }

  method FormatRows(show: Json -> string, columns: Row, arr: seq<Json>) returns (out: string)
    ensures out == Lines(Matrix(show, columns, arr))
  {
    hide Lines, RowOf, Tabular, Line;
    var tabular := Tabular(arr);
    ghost var rows := Matrix(show, columns, arr);
    out := "";
    NoLines();
    for n := 0 to |arr|
      invariant out == Lines(rows[..n])
    {
      var cells := RowOf(show, columns, tabular, arr[n]);
      assert rows[..n + 1] == rows[..n] + [cells];
      LinesSnoc(rows[..n], cells);
      out := out + Line(cells);
    }
    assert rows[..|arr|] == rows;
  }

  lemma NoLines()
    ensures Lines([]) == ""
  {
  }

  /** A page of values: an optional header, then a line for every item. */
  method FormatPage(show: Json -> string, arr: seq<Json>, emitHeader: bool) returns (out: string, ghost columns: Row)
    ensures arr == [] ==> out == ""
    ensures arr != [] && Tabular(arr) ==> ColumnsOf(arr, columns)
    ensures arr != [] && Tabular(arr) ==>
              out == (if emitHeader then Join(columns) + "\n" else "") + Lines(Matrix(show, columns, arr))
    ensures arr != [] && !Tabular(arr) ==> out == Lines(Matrix(show, columns, arr))
  {
    hide Lines, Matrix, Tabular, ColumnsOf;
    columns := [];
    if arr == [] {
      return "", columns;
    }
    if !Tabular(arr) {
      out := FormatRows(show, [], arr);
      return;
    }
    var names := CollectColumns(arr);
    var header := if emitHeader then Join(names) + "\n" else "";
    out := FormatRows(show, names, arr);
    return header + out, names;
  }

  // ------------------------------------------------------------ what a page is made of

  /** Fields of a wrapper object that are not the page. */
  predicate Skipped(key: string) {
    key == "nextPageToken" || key == "kind" || (key != "" && key[0] == '_')
  }

  predicate HoldsPage(f: Field) {
    !Skipped(f.key) && f.value.Arr? && f.value.items != []
  }

  /** The first field of a wrapper object that holds a page. */
  ghost predicate FirstPage(fields: seq<Field>, i: nat) {
    i < |fields| && HoldsPage(fields[i]) && forall j :: 0 <= j < i ==> !HoldsPage(fields[j])
  }

  /** The list a value shows: itself, or the first page it wraps. */
  ghost predicate Shows(value: Json, arr: seq<Json>) {
    || (value.Arr? && arr == value.items)
    || (value.Obj? && exists i: nat :: FirstPage(value.fields, i) && arr == value.fields[i].value.items)
  }

  lemma ShowsOne(value: Json, a: seq<Json>, b: seq<Json>)
    requires Shows(value, a) && Shows(value, b)
    ensures a == b
  {
    if value.Obj? {
      var i: nat :| FirstPage(value.fields, i) && a == value.fields[i].value.items;
      var j: nat :| FirstPage(value.fields, j) && b == value.fields[j].value.items;
      assert i < j || j < i || i == j;
    }
  }

  /** The page a value wraps: the first nonempty list under a key that is not bookkeeping. */
  method ExtractItems(value: Json) returns (items: Option<seq<Json>>)
    ensures value.Obj? ==>
              if items.Some? then Shows(value, items.value) && items.value != []
              else forall arr :: !Shows(value, arr)
    ensures !value.Obj? ==> items.None?
  {
    if !value.Obj? {
      return None;
    }
    for i := 0 to |value.fields|
      invariant forall j :: 0 <= j < i ==> !HoldsPage(value.fields[j])
    {
      var f := value.fields[i];
      if !Skipped(f.key) && f.value.Arr? && f.value.items != [] {
        assert FirstPage(value.fields, i);
        return Some(f.value.items);
      }
    }
    return None;
  }

  /** Any value: its list as a page, or the value itself in a cell that is not escaped. */
  method FormatCsv(show: Json -> string, value: Json, emitHeader: bool) returns (out: string, ghost columns: Row)
    ensures (forall arr :: !Shows(value, arr)) ==> out == ValueToCell(show, value)
    ensures forall arr :: Shows(value, arr) && arr == [] ==> out == ""
    ensures forall arr :: Shows(value, arr) && arr != [] && Tabular(arr) ==>
              && ColumnsOf(arr, columns)
              && out == (if emitHeader then Join(columns) + "\n" else "") + Lines(Matrix(show, columns, arr))
    ensures forall arr :: Shows(value, arr) && arr != [] && !Tabular(arr) ==> out == Lines(Matrix(show, columns, arr))
  {
    hide Lines, Matrix, Tabular, ColumnsOf, FirstPage;
    columns := [];
    var items := ExtractItems(value);
    if items.None? && !value.Arr? {
      return ValueToCell(show, value), columns;
    }
    var list := if items.Some? then items.value else value.items;
    assert Shows(value, list);
    forall arr | Shows(value, arr) ensures arr == list {
      ShowsOne(value, arr, list);
    }
    out, columns := FormatPage(show, list, emitHeader);
  }

  lemma NoColumns(columns: Row, arr: seq<Json>)
    requires ColumnsOf(arr, columns)
    ensures columns != [] <==> exists v :: v in arr && v.Obj? && v.fields != []
  {
    if columns != [] {
      assert columns[0] in columns;
      var v, f :| v in arr && v.Obj? && f in v.fields && f.key == columns[0];
      assert v.fields != [];
    } else {
      forall v | v in arr && v.Obj? ensures v.fields == [] {
        if v.fields != [] {
          assert v.fields[0] in v.fields && IsColumn(arr, v.fields[0].key);
        }
      }
    }
  }

  lemma TableHasCells(show: Json -> string, columns: Row, arr: seq<Json>)
    requires Tabular(arr) && ColumnsOf(arr, columns)
    ensures (forall r <- Matrix(show, columns, arr) :: r != []) <==> exists v :: v in arr && v.Obj? && v.fields != []
  {
    var rows := Matrix(show, columns, arr);
    NoColumns(columns, arr);
    assert forall r <- rows :: |r| == |columns|;
    var v :| v in arr;
    assert |rows| > 0 && rows[0] in rows;
  }

  lemma ListsHaveCells(show: Json -> string, columns: Row, arr: seq<Json>)
    requires !Tabular(arr)
    ensures (forall r <- Matrix(show, columns, arr) :: r != []) <==> Arr([]) !in arr
  {
    var rows := Matrix(show, columns, arr);
    forall i | 0 <= i < |arr| ensures rows[i] == [] <==> arr[i] == Arr([]) {
      assert rows[i] == PlainCells(show, arr[i]);
    }
    if Arr([]) in arr {
      var i :| 0 <= i < |arr| && arr[i] == Arr([]);
      assert rows[i] in rows;
    }
  }

  /** The data rows of a page read back as its cell matrix unless some row has no cell: an empty list
      among plain items, or a table whose objects are all empty. */
  lemma PageReadsBack(show: Json -> string, columns: Row, arr: seq<Json>)
    requires Tabular(arr) ==> ColumnsOf(arr, columns)
    ensures ReadRows(Lines(Matrix(show, columns, arr))) == Some(Matrix(show, columns, arr))
            <==> if Tabular(arr) then exists v :: v in arr && v.Obj? && v.fields != [] else Arr([]) !in arr
  {
    hide Matrix, Tabular, ColumnsOf;
    RowsRoundTrip(Matrix(show, columns, arr));
    if Tabular(arr) {
      TableHasCells(show, columns, arr);
    } else {
      ListsHaveCells(show, columns, arr);
    }
  }
}
