/**
 * The chat side of the SQL tool: result rendering (an ASCII table under a
 * header naming the query and its parameters), positional binding of the
 * words after a trigger, and the routing of the "clear cache", "queries"
 * and "reload queries" commands onto the executor and the loader.
 */
module SqlTool {
  import opened Wrappers
  import opened Text
  import OrderedDict
  import opened Models
  import Executor
  import Loader
  import Converters

  const NO_RESULTS := "No results"
  const FENCE := "```"

  // ---------------------------------------------------------------------
  // The ASCII table.

  /** `str(value) if value is not None else ""`. */
  function CellText(v: SqlValue): string {
    match v
    case SqlNull => ""
    case SqlInt(i) => IntToString(i)
    case SqlText(s) => s
    case SqlDateTime(iso) => iso
    case SqlOther(shown) => shown
  }

  /** Every row has every column of the first row (otherwise the lookup raises). */
  predicate Uniform(rows: seq<Row>) {
    rows != [] ==>
      forall i, j :: 0 <= i < |rows| && 0 <= j < |rows[0]| ==> OrderedDict.HasKey(rows[i], OrderedDict.Keys(rows[0])[j])
  }

  /**
   * Rows converted from a fetch whose tuples are as wide as its column list
   * are uniform: each has exactly the fetch's columns as keys.
   */
  lemma NormalisedRowsUniform(f: Executor.Fetched)
    requires Executor.WellShaped(f)
    ensures Uniform(Executor.NormalisedRows(f))
  {
    var rows := Executor.NormalisedRows(f);
    forall i, j | 0 <= i < |rows| && 0 <= j < |rows[0]|
      ensures OrderedDict.HasKey(rows[i], OrderedDict.Keys(rows[0])[j])
    {
      var k := OrderedDict.Keys(rows[0])[j];
      Executor.RowOfKeys(f.columns, f.rows[0], k);
      Executor.RowOfKeys(f.columns, f.rows[i], k);
    }
  }

  /** So the rows a statement run returns can always be laid out as a table. */
  lemma RunSqlRowsUniform(conns: map<string, Executor.Conn>, def: QueryDefinition, params: Executor.Params,
                          driver: Executor.Driver, env: map<string, string>)
    requires Executor.Behaves(driver)
    requires Executor.RunSql(conns, def, params, driver, env).0.Ok?
    ensures Uniform(Executor.RunSql(conns, def, params, driver, env).0.value)
  {
    var acquired := Executor.Acquire(conns, def.database, def.credentialsEnvKey, env, driver);
    var values := Executor.Bind(def, params).value;
    var f := driver.run(acquired.0.value, def.sql, values).value;
    NormalisedRowsUniform(f);
  }

  /** The columns: the keys of the first row, in order. */
  function Columns(rows: seq<Row>): (cs: seq<string>)
    requires rows != []
  {
    OrderedDict.Keys(rows[0])
  }

  function Cell(row: Row, col: string): string
    requires OrderedDict.HasKey(row, col)
  {
    CellText(OrderedDict.Get(row, col).value)
  }

  /** The width of a column: the longest of its header and its cells. */
  function ColumnWidth(rows: seq<Row>, col: string): (w: nat)
    requires forall i :: 0 <= i < |rows| ==> OrderedDict.HasKey(rows[i], col)
    ensures w >= |col| && forall i :: 0 <= i < |rows| ==> w >= |Cell(rows[i], col)|
    ensures w == |col| || exists i :: 0 <= i < |rows| && w == |Cell(rows[i], col)|
    decreases |rows|
  {
    if rows == [] then |col|
    else
      var front := rows[..|rows| - 1];
      var prior := ColumnWidth(front, col);
      var cell := |Cell(rows[|rows| - 1], col)|;
      assert forall i :: 0 <= i < |rows| - 1 ==> front[i] == rows[i];
      if prior < cell then cell else prior
  }

  function Widths(rows: seq<Row>): (ws: seq<nat>)
    requires rows != [] && Uniform(rows)
    ensures |ws| == |Columns(rows)|
  {
    var cs := Columns(rows);
    seq(|cs|, j requires 0 <= j < |cs| => ColumnWidth(rows, cs[j]))
  }

  /** `"| " + " | ".join(cell.ljust(width) ...) + " |"`. */
  function Line(cells: seq<string>, widths: seq<nat>): string
    requires |cells| == |widths|
  {
    "| " + Join(" | ", seq(|cells|, j requires 0 <= j < |cells| => LJust(cells[j], widths[j]))) + " |"
  }

  /** `"+-" + "-+-".join("-" * width ...) + "-+"`. */
  function Separator(widths: seq<nat>): string {
    "+-" + Join("-+-", seq(|widths|, j requires 0 <= j < |widths| => Dashes(widths[j]))) + "-+"
  }

  function Cells(row: Row, columns: seq<string>): (cs: seq<string>)
    requires forall j :: 0 <= j < |columns| ==> OrderedDict.HasKey(row, columns[j])
    ensures |cs| == |columns|
  {
    seq(|columns|, j requires 0 <= j < |columns| => Cell(row, columns[j]))
  }

  /** The line of the `i`th row. */
  function RowLine(rows: seq<Row>, i: nat): string
    requires rows != [] && Uniform(rows) && i < |rows|
  {
    Line(Cells(rows[i], Columns(rows)), Widths(rows))
  }

  /** The lines of the rows, in order. */
  function RowLines(rows: seq<Row>): (ls: seq<string>)
    requires rows != [] && Uniform(rows)
    ensures |ls| == |rows|
  {
    seq(|rows|, i requires 0 <= i < |rows| => RowLine(rows, i))
  }

  /** The lines of the table: separator, header, separator, one line per row, separator. */
  function TableLines(rows: seq<Row>): (ls: seq<string>)
    requires rows != [] && Uniform(rows)
    ensures |ls| == |rows| + 4
    ensures ls[0] == ls[2] == ls[|ls| - 1] == Separator(Widths(rows))
    ensures ls[1] == Line(Columns(rows), Widths(rows))
    ensures ls[3..|ls| - 1] == RowLines(rows)
  {
    var sep := Separator(Widths(rows));
    var ls := [sep, Line(Columns(rows), Widths(rows)), sep] + RowLines(rows) + [sep];
    assert ls[3..|ls| - 1] == RowLines(rows);
    ls
  }

  /** `_format_table`. */
  function Table(rows: seq<Row>): (t: string)
    requires Uniform(rows)
    ensures rows == [] ==> t == NO_RESULTS
    ensures rows != [] ==> IsPrefix(FENCE + "\n" + Separator(Widths(rows)), t)
    ensures rows != [] ==> IsSuffix(Separator(Widths(rows)) + "\n" + FENCE, t)
  {
    if rows == [] then NO_RESULTS
    else
      var body := Join("\n", TableLines(rows));
      JoinEnds("\n", TableLines(rows));
      Framed(FENCE + "\n", body, "\n" + FENCE, Separator(Widths(rows)), Separator(Widths(rows)));
      AppendAssoc(FENCE + "\n" + body, "\n", FENCE);
      AppendAssoc(Separator(Widths(rows)), "\n", FENCE);
      FENCE + "\n" + body + "\n" + FENCE
  }

  /** The inner loop of the width computation: one column over every row. */
  method ColumnWidthLoop(rows: seq<Row>, col: string) returns (w: nat)
    requires forall i :: 0 <= i < |rows| ==> OrderedDict.HasKey(rows[i], col)
    ensures w == ColumnWidth(rows, col)
  {
    w := |col|;
    for i := 0 to |rows|
      invariant w == ColumnWidth(rows[..i], col)
    {
      assert rows[..i + 1][..i] == rows[..i];
      var cell := Cell(rows[i], col);
      if |cell| > w {
        w := |cell|;
      }
    }
    assert rows[..|rows|] == rows;
  }

  /** Every row has the `j`th column, and its width is that column's. */
  lemma WidthOfColumn(rows: seq<Row>, j: nat)
    requires rows != [] && Uniform(rows) && j < |Columns(rows)|
    ensures forall i :: 0 <= i < |rows| ==> OrderedDict.HasKey(rows[i], Columns(rows)[j])
    ensures Widths(rows)[j] == ColumnWidth(rows, Columns(rows)[j])
  {
  }

  /** The width loop of `_format_table`. */
  method ComputeWidths(rows: seq<Row>) returns (ws: seq<nat>)
    requires rows != [] && Uniform(rows)
    ensures ws == Widths(rows)
  {
    var cs := Columns(rows);
    ws := [];
    for j := 0 to |cs|
      invariant ws == Widths(rows)[..j]
    {
      WidthOfColumn(rows, j);
      var w := ColumnWidthLoop(rows, cs[j]);
      Text.PrefixStep(ws, Widths(rows), j, w);
      ws := ws + [w];
    }
    assert Widths(rows)[..|cs|] == Widths(rows);
  }

  /** The inner loop over the columns of one row: its padded cells, joined. */
  method RowText(row: Row, cs: seq<string>, ws: seq<nat>) returns (line: string)
    requires |cs| == |ws|
    requires forall j :: 0 <= j < |cs| ==> OrderedDict.HasKey(row, cs[j])
    ensures line == Line(Cells(row, cs), ws)
  {
    var values: seq<string> := [];
    for j := 0 to |cs|
      invariant values == seq(j, k requires 0 <= k < j => LJust(Cell(row, cs[k]), ws[k]))
    {
      values := values + [LJust(Cell(row, cs[j]), ws[j])];
    }
    var cells := Cells(row, cs);
    assert values == seq(|cells|, j requires 0 <= j < |cells| => LJust(cells[j], ws[j]));
    line := "| " + Join(" | ", values) + " |";
  }

  /** The row lines one at a time. */
  lemma RowLinesPrefix(rows: seq<Row>, i: nat)
    requires rows != [] && Uniform(rows) && i < |rows|
    ensures RowLines(rows)[..i + 1] == RowLines(rows)[..i] + [RowLine(rows, i)]
  {
  }

  /** `_format_table`, built line by line. */
  method FormatTable(rows: seq<Row>) returns (t: string)
    requires Uniform(rows)
    ensures t == Table(rows)
  {
    if rows == [] {
      return NO_RESULTS;
    }
    var cs := Columns(rows);
    var ws := ComputeWidths(rows);
    var sep := Separator(ws);
    var lines := [sep, Line(cs, ws), sep];
    for i := 0 to |rows|
      invariant lines == [sep, Line(cs, ws), sep] + RowLines(rows)[..i]
    {
      var line := RowText(rows[i], cs, ws);
      RowLinesPrefix(rows, i);
      lines := lines + [line];
    }
    lines := lines + [sep];
    assert RowLines(rows)[..|rows|] == RowLines(rows);
    t := FENCE + "\n" + Join("\n", lines) + "\n" + FENCE;
  }

  /** The common length of every table line with these column widths. */
  function LineWidth(widths: seq<nat>): nat {
    if widths == [] then 4 else Sum(widths) + 3 * |widths| + 1
  }

  /** A line of cells that fit their columns is exactly as wide as a separator. */
  lemma LineLength(cells: seq<string>, widths: seq<nat>)
    requires |cells| == |widths|
    requires forall j :: 0 <= j < |cells| ==> |cells[j]| <= widths[j]
    ensures |Line(cells, widths)| == LineWidth(widths)
    ensures |Separator(widths)| == LineWidth(widths)
  {
    var padded := seq(|cells|, j requires 0 <= j < |cells| => LJust(cells[j], widths[j]));
    var dashes := seq(|widths|, j requires 0 <= j < |widths| => Dashes(widths[j]));
    if widths != [] {
      JoinLength(" | ", padded, widths);
      JoinLength("-+-", dashes, widths);
    }
  }

  /** A row's line is as wide as every other table line. */
  lemma RowLineLength(rows: seq<Row>, i: nat)
    requires rows != [] && Uniform(rows) && i < |rows|
    ensures |RowLine(rows, i)| == LineWidth(Widths(rows))
  {
    var cs := Columns(rows);
    var ws := Widths(rows);
    var cells := Cells(rows[i], cs);
    forall j | 0 <= j < |cells| ensures |cells[j]| <= ws[j] {
      assert cells[j] == Cell(rows[i], cs[j]);
    }
    LineLength(cells, ws);
  }

  /** Every row line has the common width. */
  lemma RowLinesWidth(rows: seq<Row>)
    requires rows != [] && Uniform(rows)
    ensures forall i :: 0 <= i < |rows| ==> |RowLines(rows)[i]| == LineWidth(Widths(rows))
  {
    forall i | 0 <= i < |rows| ensures |RowLines(rows)[i]| == LineWidth(Widths(rows)) {
      RowLineLength(rows, i);
    }
  }

  /** Lines framed by lines of the same width all have that width. */
  lemma FramedWidth(ls: seq<string>, w: nat)
    requires |ls| >= 4
    requires |ls[0]| == |ls[1]| == |ls[2]| == |ls[|ls| - 1]| == w
    requires forall i :: 3 <= i < |ls| - 1 ==> |ls[i]| == w
    ensures forall i :: 0 <= i < |ls| ==> |ls[i]| == w
  {
  }

  /** The table has four lines more than there are rows, all of the same length. */
  lemma TableShape(rows: seq<Row>)
    requires rows != [] && Uniform(rows)
    ensures |TableLines(rows)| == |rows| + 4
    ensures forall i :: 0 <= i < |TableLines(rows)| ==> |TableLines(rows)[i]| == LineWidth(Widths(rows))
  {
    var ws := Widths(rows);
    var ls := TableLines(rows);
    LineLength(Columns(rows), ws);
    RowLinesWidth(rows);
    forall i | 3 <= i < |ls| - 1 ensures |ls[i]| == LineWidth(ws) {
      assert ls[i] == ls[3..|ls| - 1][i - 3];
    }
    FramedWidth(ls, LineWidth(ws));
  }

  /** Every cell, rendered, fits its column, and so does the header. */
  lemma CellsFitColumns(rows: seq<Row>, i: nat, j: nat)
    requires rows != [] && Uniform(rows)
    requires i < |rows| && j < |Columns(rows)|
    ensures |Columns(rows)[j]| <= Widths(rows)[j]
    ensures |Cell(rows[i], Columns(rows)[j])| <= Widths(rows)[j]
  {
  }

  // ---------------------------------------------------------------------
  // The result message.

  /** The parameter part of the header: one bare value, or `k=v` pairs joined by ", ". */
  function ParamDisplay(params: OrderedDict.Dict<string>): string {
    if |params| == 1 then "`" + params[0].1 + "`"
    else Join(", ", seq(|params|, i requires 0 <= i < |params| => params[i].0 + "=`" + params[i].1 + "`"))
  }

  function ResultHeader(queryName: string, params: OrderedDict.Dict<string>): (h: string)
    ensures params == [] ==> h == "**" + queryName + "**:"
    ensures |params| == 1 ==> h == "**" + queryName + "** for `" + params[0].1 + "`:"
  {
    if params == [] then "**" + queryName + "**:"
    else "**" + queryName + "** for " + ParamDisplay(params) + ":"
  }

  /** Python truthiness of a metadata value. */
  predicate Truthy(v: MetaValue) {
    match v
    case MBool(b) => b
    case MInt(n) => n != 0
    case MText(s) => s != []
  }

  predicate FromCache(result: QueryResult) {
    var v := OrderedDict.Get(result.metadata, Executor.FROM_CACHE);
    v.Some? && Truthy(v.value)
  }

  /**
   * `_format_result_data`: the header, then "No results" or a blank line and
   * the table, then the cache note. `cachedTime` is the already formatted
   * time the entry was cached.
   */
  function ResultText(result: QueryResult, queryName: string, params: OrderedDict.Dict<string>, cachedTime: string): (r: string)
    requires result.data.Some? ==> Uniform(result.data.value)
    ensures IsPrefix(ResultHeader(queryName, params) + "\n", r)
    ensures FromCache(result) ==> IsSuffix("\n[cached: " + cachedTime + "]", r)
  {
    var body := if result.data.None? then ["\n" + NO_RESULTS] else ["", Table(result.data.value)];
    var note := if FromCache(result) then ["\n[cached: " + cachedTime + "]"] else [];
    var parts := [ResultHeader(queryName, params)] + body + note;
    assert parts == [ResultHeader(queryName, params)] + (body + note);
    JoinCons("\n", ResultHeader(queryName, params), body + note);
    JoinEnds("\n", parts);
    Join("\n", parts)
  }

  /** Without a cache note, the text is the header followed by the data part. */
  lemma ResultTextLayout(result: QueryResult, queryName: string, params: OrderedDict.Dict<string>, cachedTime: string)
    requires result.data.Some? ==> Uniform(result.data.value)
    requires !FromCache(result)
    ensures result.data.None? ==> ResultText(result, queryName, params, cachedTime) == ResultHeader(queryName, params) + "\n\n" + NO_RESULTS
    ensures result.data.Some? ==> ResultText(result, queryName, params, cachedTime) == ResultHeader(queryName, params) + "\n\n" + Table(result.data.value)
  {
    var h := ResultHeader(queryName, params);
    var x := if result.data.None? then NO_RESULTS else Table(result.data.value);
    var body := if result.data.None? then ["\n" + x] else ["", x];
    AppendNil([h] + body);
    JoinCons("\n", h, body);
    if result.data.Some? {
      JoinCons("\n", "", [x]);
      AppendNil("\n");
    }
    Regroup(h, "\n", x);
    assert "\n" + "\n" == "\n\n";
  }

  /** A cached result ends with the cache note. */
  lemma ResultTextCacheNote(result: QueryResult, queryName: string, params: OrderedDict.Dict<string>, cachedTime: string)
    requires result.data.Some? ==> Uniform(result.data.value)
    requires FromCache(result)
    ensures IsPrefix(ResultHeader(queryName, params), ResultText(result, queryName, params, cachedTime))
    ensures IsSuffix("\n[cached: " + cachedTime + "]", ResultText(result, queryName, params, cachedTime))
  {
    var body := if result.data.None? then ["\n" + NO_RESULTS] else ["", Table(result.data.value)];
    JoinEnds("\n", [ResultHeader(queryName, params)] + body + ["\n[cached: " + cachedTime + "]"]);
  }

  // ---------------------------------------------------------------------
  // Mentions: `re.sub(r'<@[A-Z0-9]+>', '', text)`.

  predicate IsMentionChar(c: char) {
    'A' <= c <= 'Z' || '0' <= c <= '9'
  }

  /** A whole mention: `<@`, one or more of `[A-Z0-9]`, `>`. */
  predicate IsMention(m: string) {
    |m| >= 4 && m[0] == '<' && m[1] == '@' && m[|m| - 1] == '>'
    && forall i :: 2 <= i < |m| - 1 ==> IsMentionChar(m[i])
  }

  /** The number of leading characters of `s` in `[A-Z0-9]`. */
  function MentionRun(s: string): (n: nat)
    ensures n <= |s|
    ensures forall i :: 0 <= i < n ==> IsMentionChar(s[i])
    ensures n == |s| || !IsMentionChar(s[n])
  {
    if s != [] && IsMentionChar(s[0]) then 1 + MentionRun(s[1..]) else 0
  }

  /** The length of the mention `s` starts with, or 0 when it starts with none. */
  function MentionLength(s: string): (n: nat)
    ensures n <= |s|
    ensures n > 0 ==> IsMention(s[..n])
  {
    if |s| >= 2 && s[0] == '<' && s[1] == '@' then
      var k := MentionRun(s[2..]);
      if k > 0 && 2 + k < |s| && s[2 + k] == '>' then k + 3 else 0
    else 0
  }

  /** Text starting with a mention is matched by exactly that mention ('>' ends the run). */
  lemma MentionAtStart(m: string, rest: string)
    requires IsMention(m)
    ensures MentionLength(m + rest) == |m|
  {
    var s := m + rest;
    var k := MentionRun(s[2..]);
    forall i | 0 <= i < |m| - 3 ensures IsMentionChar(s[2..][i]) {
      assert s[2..][i] == m[i + 2];
    }
    assert s[2..][|m| - 3] == '>';
  }

  /** Every mention removed, scanning left to right without overlap. */
  function StripMentions(s: string): (r: string)
    ensures |r| <= |s|
    decreases |s|
  {
    if s == [] then []
    else
      var n := MentionLength(s);
      if n > 0 then StripMentions(s[n..]) else [s[0]] + StripMentions(s[1..])
  }

  /** Text without a '<' has no mention and is left as it is. */
  lemma {:induction false} StripMentionsPlain(s: string)
    requires forall i :: 0 <= i < |s| ==> s[i] != '<'
    ensures StripMentions(s) == s
    decreases |s|
  {
    if s != [] {
      StripMentionsPlain(s[1..]);
    }
  }

  /** A leading mention disappears. */
  lemma StripMentionsMention(m: string, rest: string)
    requires IsMention(m)
    ensures StripMentions(m + rest) == StripMentions(rest)
  {
    MentionAtStart(m, rest);
    assert (m + rest)[|m|..] == rest;
  }

  /** A part without '<' in front of the text is kept as it is. */
  lemma {:induction false} StripMentionsPlainPrefix(a: string, b: string)
    requires forall i :: 0 <= i < |a| ==> a[i] != '<'
    ensures StripMentions(a + b) == a + StripMentions(b)
    decreases |a|
  {
    if a != [] {
      var s := a + b;
      Text.ConsSplit(a, b);
      assert MentionLength(s) == 0;
      StripMentionsPlainPrefix(a[1..], b);
      assert StripMentions(s) == [a[0]] + StripMentions(a[1..] + b);
      AppendAssoc([a[0]], a[1..], StripMentions(b));
    } else {
      AppendNil(b);
    }
  }

  /** The text every handler works on: mentions removed, then stripped. */
  function CleanText(text: string): (r: string)
    ensures |r| <= |text|
    ensures r == [] || (!IsSpace(r[0]) && !IsSpace(r[|r| - 1]))
  {
    Strip(StripMentions(text))
  }

  // ---------------------------------------------------------------------
  // Positional binding of the words after a trigger.

  function ParamNames(ps: seq<QueryParameter>): (ns: seq<string>)
    ensures |ns| == |ps| && forall i :: 0 <= i < |ps| ==> ns[i] == ps[i].name
  {
    seq(|ps|, i requires 0 <= i < |ps| => ps[i].name)
  }

  function Min(a: nat, b: nat): nat {
    if a < b then a else b
  }

  /** The assignments the binding loop makes, in order: a name for each token it has. */
  function TokenPairs(names: seq<string>, tokens: seq<string>): (ps: seq<(string, string)>)
    ensures |ps| == Min(|names|, |tokens|)
    ensures forall i :: 0 <= i < |ps| ==> ps[i] == (names[i], tokens[i])
  {
    seq(Min(|names|, |tokens|), i requires 0 <= i < Min(|names|, |tokens|) => (names[i], tokens[i]))
  }

  /** The parameter dict the binding loop builds. */
  function Bind(names: seq<string>, tokens: seq<string>): (params: OrderedDict.Dict<string>)
    ensures OrderedDict.Valid(params)
  {
    var ps := TokenPairs(names, tokens);
    OrderedDict.PutAllValid([], ps);
    OrderedDict.PutAll([], ps)
  }

  /** A name is bound exactly when it is the `i`th parameter name for some `i` below the word count. */
  lemma BindKeys(names: seq<string>, tokens: seq<string>)
    ensures forall k :: OrderedDict.HasKey(Bind(names, tokens), k) <==> exists i :: 0 <= i < |names| && i < |tokens| && names[i] == k
  {
    OrderedDict.PutAllKeys(TokenPairs(names, tokens));
  }

  /** The loop of `_handle_query`: the `i`th name gets the `i`th token, if there is one. */
  method BindTokens(names: seq<string>, tokens: seq<string>) returns (params: OrderedDict.Dict<string>)
    ensures params == Bind(names, tokens)
  {
    params := [];
    ghost var pairs := TokenPairs(names, tokens);
    for i := 0 to |names|
      invariant params == OrderedDict.PutAll([], pairs[..Min(i, |tokens|)])
    {
      if i < |tokens| {
        OrderedDict.PutAllPrefix([], pairs, i);
        params := OrderedDict.Put(params, names[i], tokens[i]);
      }
    }
    assert pairs[..Min(|names|, |tokens|)] == pairs;
  }

  /** A name holds the token of its last position that has one, and is absent otherwise. */
  lemma BindLookup(names: seq<string>, tokens: seq<string>, k: string)
    ensures OrderedDict.Get(Bind(names, tokens), k) == OrderedDict.LastBinding(TokenPairs(names, tokens), k)
  {
    OrderedDict.GetPutAll([], TokenPairs(names, tokens), k);
  }

  predicate DistinctNames(names: seq<string>) {
    forall i, j :: 0 <= i < j < |names| ==> names[i] != names[j]
  }

  /** With distinct names, the `i`th name is bound to the `i`th token, or left out when the tokens ran out. */
  lemma BindPositional(names: seq<string>, tokens: seq<string>, i: nat)
    requires DistinctNames(names) && i < |names|
    ensures OrderedDict.Get(Bind(names, tokens), names[i]) == if i < |tokens| then Some(tokens[i]) else None
  {
    var pairs := TokenPairs(names, tokens);
    BindLookup(names, tokens, names[i]);
    var r := OrderedDict.LastBinding(pairs, names[i]);
    if i < |tokens| {
      assert pairs[i].0 == names[i];
      var j :| 0 <= j < |pairs| && pairs[j] == (names[i], r.value) && forall j' :: j < j' < |pairs| ==> pairs[j'].0 != names[i];
      assert j == i;
    } else {
      assert forall j :: 0 <= j < |pairs| ==> pairs[j].0 != names[i];
    }
  }

  /** With distinct names, the bound names are the first ones, in declaration order. */
  lemma BindOrder(names: seq<string>, tokens: seq<string>)
    requires DistinctNames(names)
    ensures OrderedDict.Keys(Bind(names, tokens)) == names[..Min(|names|, |tokens|)]
  {
    var pairs := TokenPairs(names, tokens);
    OrderedDict.PutAllDistinctKeys(pairs);
    assert OrderedDict.Keys(pairs) == names[..Min(|names|, |tokens|)];
  }

  // ---------------------------------------------------------------------
  // `_handle_query`: from a chat message to the query it runs.

  const CROSS := "\U{274C}"

  /** The position of the first entry holding `d`, or `|index|`: the scan over `queries.items()`. */
  function FirstHolder(index: Loader.Index, d: QueryDefinition): (i: nat)
    ensures i <= |index|
    ensures i < |index| ==> index[i].1 == d
    ensures forall j :: 0 <= j < i ==> index[j].1 != d
  {
    if index == [] || index[0].1 == d then 0
    else 1 + FirstHolder(index[1..], d)
  }

  /** The scan of `_handle_query` for the id under which `d` is held. */
  method FindHolder(index: Loader.Index, d: QueryDefinition) returns (i: nat)
    ensures i == FirstHolder(index, d)
  {
    i := 0;
    while i < |index| && index[i].1 != d
      invariant i <= |index|
      invariant forall j :: 0 <= j < i ==> index[j].1 != d
    {
      i := i + 1;
    }
  }

  /** What a message does as a query. */
  datatype QueryRoute =
    | NotAQuery                           // no trigger starts the message
    | NoQueryId                           // the matching definition is held under an empty id
    | AskForParameters(reply: string)     // nothing after the trigger, yet a parameter is required
    | Run(queryId: string, params: OrderedDict.Dict<string>)

  /** The definition whose trigger starts the cleaned message, as `get_query_by_trigger` finds it. */
  function Matched(index: Loader.Index, text: string): Option<QueryDefinition> {
    Loader.FirstTriggerMatch(OrderedDict.Values(index), Strip(Lower(CleanText(text))))
  }

  /** The words after the trigger: `text[len(trigger):].strip()`. */
  function Remaining(t: string, d: QueryDefinition): string {
    Strip(t[Min(|d.trigger|, |t|)..])
  }

  /** The route once `d` has matched the cleaned message `t`. */
  function RouteMatched(index: Loader.Index, t: string, d: QueryDefinition): (r: QueryRoute)
    ensures !r.NotAQuery?
    ensures r.Run? ==> r.queryId != "" && OrderedDict.HasKey(index, r.queryId)
  {
    var i := FirstHolder(index, d);
    assert i < |index| ==> OrderedDict.Keys(index)[i] == index[i].0;
    if i == |index| || index[i].0 == "" then NoQueryId
    else RouteWords(index[i].0, d, Remaining(t, d))
  }

  /** The route under a known id: ask for the parameters, or run with the words bound. */
  function RouteWords(queryId: string, d: QueryDefinition, remaining: string): (r: QueryRoute)
    ensures r.AskForParameters? || r.Run?
    ensures r.Run? ==> r.queryId == queryId
  {
    if remaining == [] && Converters.RequiredNames(d.parameters) != [] then AskForParameters(CROSS + " " + d.description)
    else Run(queryId, Bind(ParamNames(d.parameters), Split(remaining)))
  }

  /** The route of a message: a query exactly when a trigger matched, and a run only under a held, non-empty id. */
  function QueryRouteFor(index: Loader.Index, text: string): (r: QueryRoute)
    ensures r.NotAQuery? <==> Matched(index, text).None?
    ensures r.Run? ==> r.queryId != "" && OrderedDict.HasKey(index, r.queryId)
  {
    match Matched(index, text)
    case None => NotAQuery
    case Some(d) => RouteMatched(index, CleanText(text), d)
  }

  /** `_handle_query` after the trigger lookup: the id scan, the missing-words check and the binding. */
  method RouteFound(index: Loader.Index, t: string, d: QueryDefinition) returns (route: QueryRoute)
    ensures route == RouteMatched(index, t, d)
  {
    var i := FindHolder(index, d);
    if i == |index| || index[i].0 == "" {
      return NoQueryId;
    }
    var remaining := Strip(t[Min(|d.trigger|, |t|)..]);
    if remaining == [] && Converters.RequiredNames(d.parameters) != [] {
      return AskForParameters(CROSS + " " + d.description);
    }
    var params := BindTokens(ParamNames(d.parameters), Split(remaining));
    route := Run(index[i].0, params);
  }

  /** A definition found by its trigger is always held in the index. */
  lemma MatchedIsHeld(index: Loader.Index, text: string)
    requires Matched(index, text).Some?
    ensures FirstHolder(index, Matched(index, text).value) < |index|
  {
    TriggerMatchIsHeld(index, Strip(Lower(CleanText(text))), Matched(index, text).value);
  }

  /** The same for any text the lookup is given. */
  lemma TriggerMatchIsHeld(index: Loader.Index, x: string, d: QueryDefinition)
    requires Loader.FirstTriggerMatch(OrderedDict.Values(index), x) == Some(d)
    ensures FirstHolder(index, d) < |index|
  {
    var vs := OrderedDict.Values(index);
    var i := Loader.FirstTriggerIndex(vs, x);
    HeldAt(index, d, i);
  }

  /** The scan for the holder stops at or before any position holding the definition. */
  lemma HeldAt(index: Loader.Index, d: QueryDefinition, i: nat)
    requires i < |index| && index[i].1 == d
    ensures FirstHolder(index, d) <= i
  {
  }

  /** A message is a query exactly when some definition's trigger starts it. */
  lemma QueryRouteIsQuery(index: Loader.Index, text: string)
    ensures QueryRouteFor(index, text).NotAQuery? <==>
      forall i :: 0 <= i < |index| ==> !IsPrefix(Lower(index[i].1.trigger), Strip(Lower(CleanText(text))))
  {
    TriggerMatchOverIndex(index, Strip(Lower(CleanText(text))));
    match Matched(index, text)
    case None =>
    case Some(d) =>
      assert !RouteMatched(index, CleanText(text), d).NotAQuery?;
  }

  /** The trigger lookup finds nothing exactly when no held definition's trigger starts `x`. */
  lemma TriggerMatchOverIndex(index: Loader.Index, x: string)
    ensures Loader.FirstTriggerMatch(OrderedDict.Values(index), x).None? <==>
      forall i :: 0 <= i < |index| ==> !IsPrefix(Lower(index[i].1.trigger), x)
  {
    var vs := OrderedDict.Values(index);
    assert forall i :: 0 <= i < |index| ==> vs[i] == index[i].1;
  }

  /** The query that runs is the one `execute` looks up by that id: the matched definition. */
  lemma RunResolves(index: Loader.Index, text: string)
    requires OrderedDict.Valid(index)
    requires QueryRouteFor(index, text).Run?
    ensures OrderedDict.Get(index, QueryRouteFor(index, text).queryId) == Matched(index, text)
  {
    var d := Matched(index, text).value;
    assert QueryRouteFor(index, text) == RouteMatched(index, CleanText(text), d);
    RunUnderHolder(index, CleanText(text), d);
  }

  /** A run names the id of the first entry holding the matched definition. */
  lemma RunUnderHolder(index: Loader.Index, t: string, d: QueryDefinition)
    requires OrderedDict.Valid(index)
    requires RouteMatched(index, t, d).Run?
    ensures OrderedDict.Get(index, RouteMatched(index, t, d).queryId) == Some(d)
  {
    var i := FirstHolder(index, d);
    assert RouteMatched(index, t, d).queryId == index[i].0;
    assert index[i] == (index[i].0, d);
  }

  /**
   * Once a held definition with an id matched, a bare trigger gets the
   * description back exactly when the definition has a required parameter.
   */
  lemma AskWhenNoWords(index: Loader.Index, t: string, d: QueryDefinition)
    requires FirstHolder(index, d) < |index| && index[FirstHolder(index, d)].0 != ""
    requires Remaining(t, d) == []
    ensures RouteMatched(index, t, d) == AskForParameters(CROSS + " " + d.description) <==>
      exists p :: 0 <= p < |d.parameters| && d.parameters[p].required
  {
    AskIffRequired(index, t, d);
    var names := Converters.RequiredNames(d.parameters);
    assert names != [] <==> exists p :: 0 <= p < |d.parameters| && d.parameters[p].required;
  }

  /** The same, in terms of the required names the route checks. */
  lemma AskIffRequired(index: Loader.Index, t: string, d: QueryDefinition)
    requires FirstHolder(index, d) < |index| && index[FirstHolder(index, d)].0 != ""
    requires Remaining(t, d) == []
    ensures RouteMatched(index, t, d) == AskForParameters(CROSS + " " + d.description) <==>
      Converters.RequiredNames(d.parameters) != []
  {
    assert RouteMatched(index, t, d) == RouteWords(index[FirstHolder(index, d)].0, d, []);
  }

  /** Otherwise the words after the trigger are bound to the parameters in order, under the id that holds the definition. */
  lemma RunBindsWords(index: Loader.Index, t: string, d: QueryDefinition)
    requires FirstHolder(index, d) < |index| && index[FirstHolder(index, d)].0 != ""
    requires Remaining(t, d) != [] || forall p :: 0 <= p < |d.parameters| ==> !d.parameters[p].required
    ensures RouteMatched(index, t, d) ==
      Run(index[FirstHolder(index, d)].0, Bind(ParamNames(d.parameters), Split(Remaining(t, d))))
  {
    assert RouteMatched(index, t, d) == RouteWords(index[FirstHolder(index, d)].0, d, Remaining(t, d));
  }

  // ---------------------------------------------------------------------
  // `_handle_clear_cache`.

  const CHECK := "\U{2705}"

  /** `s` starts with `word`, ignoring ASCII case. */
  predicate StartsWithWord(s: string, word: string) {
    |word| <= |s| && Lower(s[..|word|]) == word
  }

  /**
   * What follows `word` (ignoring ASCII case) and the whitespace run after it,
   * when that run is not empty: the `word\s+` of the command patterns.
   */
  function AfterWord(s: string, word: string): (r: Option<string>)
    ensures r.Some? <==> StartsWithWord(s, word) && |word| < |s| && IsSpace(s[|word|])
    ensures r.Some? ==> IsSuffix(r.value, s) && |word| < |s| - |r.value|
    ensures r.Some? ==> Blank(s[|word|..|s| - |r.value|])
    ensures r.Some? ==> r.value == [] || !IsSpace(r.value[0])
  {
    if StartsWithWord(s, word) then
      var a := s[|word|..];
      var b := TrimStart(a);
      assert a != [] && IsSpace(a[0]) ==> |b| < |a|;
      assert a[..|a| - |b|] == s[|word|..|s| - |b|];
      if |b| < |a| then Some(b) else None
    else None
  }

  /** The word in any case, a whitespace run, then text: what follows is the text, left-stripped. */
  lemma AfterWordRoundTrip(w: string, ws: string, rest: string, word: string)
    requires Lower(w) == word && ws != [] && Blank(ws)
    ensures AfterWord(w + ws + rest, word) == Some(TrimStart(rest))
  {
    var s := w + ws + rest;
    assert s[..|word|] == w;
    assert s[|word|..] == ws + rest;
    TrimStartBlankFront(ws, rest);
  }

  /**
   * `re.match(r"^clear\s+cache\s+(.+)$", t, re.IGNORECASE)` on stripped text:
   * the captured target. Whitespace runs are taken whole; the target may not
   * span lines.
   */
  function ClearTarget(t: string): (r: Option<string>)
    ensures r.Some? ==> r.value != [] && !IsSpace(r.value[0])
  {
    match AfterWord(t, "clear")
    case None => None
    case Some(b) =>
      match AfterWord(b, "cache")
      case None => None
      case Some(rest) => if rest != [] && '\n' !in rest then Some(rest) else None
  }

  /**
   * The command in any case, with any whitespace runs: the target comes back
   * whole when it is one non-empty line starting with a non-space.
   */
  lemma ClearTargetRoundTrip(c1: string, ws1: string, c2: string, ws2: string, x: string)
    requires Lower(c1) == "clear" && Lower(c2) == "cache"
    requires ws1 != [] && Blank(ws1) && ws2 != [] && Blank(ws2)
    requires x != [] && '\n' !in x && !IsSpace(x[0])
    ensures ClearTarget(c1 + ws1 + c2 + ws2 + x) == Some(x)
  {
    var tail := c2 + ws2 + x;
    Regroup5(c1, ws1, c2, ws2, x);
    assert LowerChar(c2[0]) == 'c';
    TrimStartKeeps(tail);
    AfterWordRoundTrip(c1, ws1, tail, "clear");
    TrimStartKeeps(x);
    AfterWordRoundTrip(c2, ws2, x, "cache");
    ClearTargetSteps(c1 + ws1 + tail, tail, x);
  }

  /** The plain command: `clear cache <x>` gives back `x`. */
  lemma ClearCacheCommand(x: string)
    requires x != [] && '\n' !in x && !IsSpace(x[0])
    ensures ClearTarget("clear cache " + x) == Some(x)
  {
    assert Lower("clear") == "clear" && Lower("cache") == "cache";
    assert "clear cache " + x == "clear" + " " + "cache" + " " + x;
    ClearTargetRoundTrip("clear", " ", "cache", " ", x);
  }

  /** So `clear cache all`, in any case, takes the clear-everything route, whatever the index. */
  lemma ClearCacheAll(index: Loader.Index, a: string)
    requires Lower(a) == "all"
    ensures ClearRouteFor(index, "clear cache " + a).ClearEverything?
  {
    var t := "clear cache " + a;
    AllCommandClean(a);
    AllTarget(a);
    ClearCacheCommand(a);
    ClearEverythingIffAll(index, t);
  }

  /** "all" in any case is three letters. */
  lemma AllLetters(a: string)
    requires Lower(a) == "all"
    ensures |a| == 3 && forall i :: 0 <= i < 3 ==> a[i] != '<' && a[i] != '\n' && !IsSpace(a[i])
  {
    assert LowerChar(a[0]) == 'a' && LowerChar(a[1]) == 'l' && LowerChar(a[2]) == 'l';
  }

  /** `clear cache all` in any case has no mention and no surrounding whitespace. */
  lemma AllCommandClean(a: string)
    requires Lower(a) == "all"
    ensures CleanText("clear cache " + a) == "clear cache " + a
  {
    AllLetters(a);
    var t := "clear cache " + a;
    forall i | 0 <= i < |t|
      ensures t[i] != '<'
    {
      if i >= 12 {
        assert t[i] == a[i - 12];
      }
    }
    StripMentionsPlain(t);
    TrimStartKeeps(t);
    assert t[|t| - 1] == a[2];
  }

  /** The target "all" in any case strips to itself and lowers to "all". */
  lemma AllTarget(a: string)
    requires Lower(a) == "all"
    ensures a != [] && '\n' !in a && !IsSpace(a[0])
    ensures Lower(Strip(a)) == "all"
  {
    AllLetters(a);
    TrimStartKeeps(a);
    assert '\n' !in a by {
      forall i | 0 <= i < |a| ensures a[i] != '\n' { }
    }
  }

  /** The target of a command, once both words have been taken off. */
  lemma ClearTargetSteps(t: string, tail: string, x: string)
    requires AfterWord(t, "clear") == Some(tail) && AfterWord(tail, "cache") == Some(x)
    requires x != [] && '\n' !in x
    ensures ClearTarget(t) == Some(x)
  {
  }

  /** Conversely, a captured target is the rest of such a command. */
  lemma ClearTargetParts(t: string) returns (c1: string, ws1: string, c2: string, ws2: string)
    requires ClearTarget(t).Some?
    ensures Lower(c1) == "clear" && Lower(c2) == "cache"
    ensures ws1 != [] && Blank(ws1) && ws2 != [] && Blank(ws2)
    ensures '\n' !in ClearTarget(t).value
    ensures t == c1 + ws1 + c2 + ws2 + ClearTarget(t).value
  {
    var b := AfterWord(t, "clear").value;
    var x := AfterWord(b, "cache").value;
    c1, ws1 := t[..5], t[5..|t| - |b|];
    c2, ws2 := b[..5], b[5..|b| - |x|];
    ThreeSlices(t, 5, |t| - |b|);
    ThreeSlices(b, 5, |b| - |x|);
    Regroup5(c1, ws1, c2, ws2, x);
  }

  /** What a message does as a cache command. */
  datatype ClearRoute =
    | NotClear                  // not a cache command
    | ClearEverything           // target "all", in any case
    | ClearQuery(name: string)  // the definition found by id, else by trigger: its name
    | UnknownTarget(target: string)

  /** The definition a target names: by id first, then by trigger. */
  function TargetDefinition(index: Loader.Index, target: string): Option<QueryDefinition> {
    var byId := OrderedDict.Get(index, target);
    if byId.Some? then byId else Loader.FirstTriggerMatch(OrderedDict.Values(index), Strip(Lower(target)))
  }

  /** The route for a captured target: "all", or the definition it names, or none. */
  function TargetRoute(index: Loader.Index, group: string): ClearRoute {
    var target := Strip(group);
    if Lower(target) == "all" then ClearEverything
    else
      match TargetDefinition(index, target)
      case Some(d) => ClearQuery(d.name)
      case None => UnknownTarget(target)
  }

  function ClearRouteFor(index: Loader.Index, text: string): ClearRoute {
    match ClearTarget(CleanText(text))
    case None => NotClear
    case Some(group) => TargetRoute(index, group)
  }

  /** The cache after a route is taken, and the reply said. */
  function ClearOutcome(route: ClearRoute, c: Executor.CacheState): (r: (Executor.CacheState, Option<string>))
    ensures r.1.None? <==> route.NotClear?
    ensures route.NotClear? || route.UnknownTarget? ==> r.0 == c
    ensures route.ClearEverything? ==> r.0 == Executor.EMPTY_CACHE && r.1 == Some(ClearedAllReply(|c.entries|))
    ensures route.ClearQuery? ==>
      forall k :: k in r.0.entries <==> k in c.entries && !IsPrefix(route.name + ":", k)
    ensures route.ClearQuery? ==>
      |r.0.entries| <= |c.entries| && r.1 == Some(ClearedReply(route.name, |c.entries| - |r.0.entries|))
  {
    match route
    case NotClear => (c, None)
    case ClearEverything =>
      var (count, after) := Executor.ClearAll(c);
      (after, Some(ClearedAllReply(count)))
    case ClearQuery(name) =>
      var (count, after) := Executor.ClearScoped(c, name);
      (after, Some(ClearedReply(name, count)))
    case UnknownTarget(target) => (c, Some(UnknownQueryReply(target)))
  }

  /** The replies of `_handle_clear_cache`. */
  function ClearedAllReply(count: nat): string {
    CHECK + " Cache cleared: all queries (" + NatToString(count) + " entries)"
  }

  function ClearedReply(name: string, count: nat): string {
    CHECK + " Cache cleared for: " + name + " (" + NatToString(count) + " entries)"
  }

  function UnknownQueryReply(target: string): string {
    CROSS + " Unknown query: " + target
  }

  /** "all" is recognised in any case, and nothing else clears everything. */
  lemma ClearEverythingIffAll(index: Loader.Index, text: string)
    requires ClearTarget(CleanText(text)).Some?
    ensures ClearRouteFor(index, text).ClearEverything? <==> Lower(Strip(ClearTarget(CleanText(text)).value)) == "all"
  {
    var group := ClearTarget(CleanText(text)).value;
    assert ClearRouteFor(index, text) == TargetRoute(index, group);
    if Lower(Strip(group)) != "all" {
      match TargetDefinition(index, Strip(group))
      case Some(d) =>
      case None =>
    }
  }

  /** A target that is an id clears that definition's entries, whatever its trigger. */
  lemma ClearById(index: Loader.Index, text: string)
    requires ClearTarget(CleanText(text)).Some?
    requires var target := Strip(ClearTarget(CleanText(text)).value);
      Lower(target) != "all" && OrderedDict.HasKey(index, target)
    ensures ClearRouteFor(index, text) == ClearQuery(OrderedDict.Get(index, Strip(ClearTarget(CleanText(text)).value)).value.name)
  {
  }

  // ---------------------------------------------------------------------
  // `_handle_list_queries`.

  const CHART := "\U{1F4CA}"
  const BULLET := "\U{2022}"
  const NO_QUERIES := "No domain queries available."
  const LIST_TITLE := CHART + " Available Domain Queries:"

  /** `^queries?\s*$` on stripped text, ignoring ASCII case: "querie" or "queries". */
  predicate IsListCommand(t: string) {
    Lower(t) == "querie" || Lower(t) == "queries"
  }

  /** One line of the listing: the trigger and the first line of the description. */
  function QueryLine(d: QueryDefinition): string {
    BULLET + " `" + d.trigger + "` - " + Strip(FirstLine(d.description))
  }

  /** One line per definition, in order. */
  function QueryLines(defs: seq<QueryDefinition>): (ls: seq<string>)
    ensures |ls| == |defs|
    ensures forall i :: 0 <= i < |defs| ==> ls[i] == QueryLine(defs[i])
  {
    seq(|defs|, i requires 0 <= i < |defs| => QueryLine(defs[i]))
  }

  lemma QueryLinesPrefix(defs: seq<QueryDefinition>, i: nat)
    requires i < |defs|
    ensures QueryLines(defs[..i + 1]) == QueryLines(defs[..i]) + [QueryLine(defs[i])]
  {
    var a := QueryLines(defs[..i + 1]);
    var b := QueryLines(defs[..i]) + [QueryLine(defs[i])];
    forall k | 0 <= k < |a|
      ensures a[k] == b[k]
    {
      if k < i {
        assert defs[..i + 1][k] == defs[..i][k];
      }
    }
  }

  /** The definitions keyed by trigger, for sorting. */
  function ByTrigger(defs: seq<QueryDefinition>): (ps: seq<(string, QueryDefinition)>)
    ensures |ps| == |defs| && forall i :: 0 <= i < |defs| ==> ps[i] == (defs[i].trigger, defs[i])
  {
    seq(|defs|, i requires 0 <= i < |defs| => (defs[i].trigger, defs[i]))
  }

  /** The definitions in the order the listing shows them: `sorted(queries, key=trigger)`. */
  function Listed(defs: seq<QueryDefinition>): seq<QueryDefinition> {
    OrderedDict.Values(SortByKey(ByTrigger(defs)))
  }

  function ListReply(defs: seq<QueryDefinition>): (r: string)
    ensures defs == [] ==> r == NO_QUERIES
    ensures defs != [] ==> IsPrefix(LIST_TITLE + "\n", r)
  {
    if defs == [] then NO_QUERIES
    else
      var parts := [LIST_TITLE, ""] + QueryLines(Listed(defs));
      assert parts[0] == LIST_TITLE && |parts| >= 2;
      AppendSlices(LIST_TITLE + "\n", Join("\n", parts[1..]));
      Join("\n", parts)
  }

  /** Every definition has its line in the listing. */
  lemma ListReplyShowsEvery(defs: seq<QueryDefinition>, i: nat)
    requires i < |defs|
    ensures Contains(ListReply(defs), QueryLine(defs[i]))
  {
    var j := ListedHas(defs, i);
    var parts := [LIST_TITLE, ""] + QueryLines(Listed(defs));
    assert parts[j + 2] == QueryLine(defs[i]);
    assert ListReply(defs) == Join("\n", parts);
    JoinContains("\n", parts, j + 2);
  }

  /** Where the listing shows the `i`th definition. */
  lemma ListedHas(defs: seq<QueryDefinition>, i: nat) returns (j: nat)
    requires i < |defs|
    ensures j < |Listed(defs)| && Listed(defs)[j] == defs[i]
  {
    ListedSortedPermutation(defs);
    assert defs[i] in multiset(Listed(defs));
    j :| 0 <= j < |Listed(defs)| && Listed(defs)[j] == defs[i];
  }

  /** The lines of the listing, one per definition in the given order. */
  method ListingLines(listed: seq<QueryDefinition>) returns (lines: seq<string>)
    ensures lines == [LIST_TITLE, ""] + QueryLines(listed)
  {
    lines := [LIST_TITLE, ""];
    for i := 0 to |listed|
      invariant lines == [LIST_TITLE, ""] + QueryLines(listed[..i])
    {
      QueryLinesPrefix(listed, i);
      AppendAssoc([LIST_TITLE, ""], QueryLines(listed[..i]), [QueryLine(listed[i])]);
      lines := lines + [QueryLine(listed[i])];
    }
    assert listed[..|listed|] == listed;
  }

  /** The listing shows every definition, once per occurrence, ordered by trigger. */
  lemma ListedSortedPermutation(defs: seq<QueryDefinition>)
    ensures multiset(Listed(defs)) == multiset(defs)
    ensures forall i, j :: 0 <= i < j < |Listed(defs)| ==> StrLeq(Listed(defs)[i].trigger, Listed(defs)[j].trigger)
  {
    var ps := ByTrigger(defs);
    var sorted := SortByKey(ps);
    OrderedDict.ValuesPermutation(sorted, ps);
    assert OrderedDict.Values(ps) == defs;
    ListedKeys(ps, sorted);
  }

  /** Sorting pairs keyed by trigger keeps every pair's key its definition's trigger. */
  lemma ListedKeys(ps: seq<(string, QueryDefinition)>, sorted: seq<(string, QueryDefinition)>)
    requires forall i :: 0 <= i < |ps| ==> ps[i].0 == ps[i].1.trigger
    requires multiset(sorted) == multiset(ps) && SortedByKey(sorted)
    ensures var listed := OrderedDict.Values(sorted);
      forall i, j :: 0 <= i < j < |listed| ==> StrLeq(listed[i].trigger, listed[j].trigger)
  {
    forall i | 0 <= i < |sorted| ensures sorted[i].0 == sorted[i].1.trigger {
      assert sorted[i] in multiset(ps);
    }
  }

  // ---------------------------------------------------------------------
  // `_handle_reload_queries`.

  /** `^reload\s+queries?\s*$` on stripped text, ignoring ASCII case. */
  predicate IsReloadCommand(t: string) {
    var rest := AfterWord(t, "reload");
    rest.Some? && IsListCommand(rest.value)
  }

  /** The reply after a reload that went through, from the counts before and after. */
  function ReloadReply(oldCount: nat, newCount: nat): (r: string)
    ensures IsPrefix(CHECK + " Queries reloaded: " + NatToString(newCount) + " queries loaded ", r)
    ensures IsSuffix(ReloadChange(oldCount, newCount), r)
  {
    var head := CHECK + " Queries reloaded: " + NatToString(newCount) + " queries loaded ";
    AppendSlices(head, ReloadChange(oldCount, newCount));
    head + ReloadChange(oldCount, newCount)
  }

  /** The bracket closing the reload reply: how many definitions came or went. */
  function ReloadChange(oldCount: nat, newCount: nat): string {
    if newCount > oldCount then "(" + NatToString(newCount - oldCount) + " new)"
    else if newCount < oldCount then "(" + NatToString(oldCount - newCount) + " removed)"
    else "(no changes)"
  }

  /**
   * The reply says which way the count moved, and by how much: "new" exactly
   * when it grew, "removed" exactly when it shrank, "no changes" otherwise.
   */
  lemma ReloadReplyReportsChange(oldCount: nat, newCount: nat)
    ensures newCount > oldCount <==> IsSuffix(" new)", ReloadReply(oldCount, newCount))
    ensures newCount < oldCount <==> IsSuffix(" removed)", ReloadReply(oldCount, newCount))
    ensures newCount == oldCount <==> IsSuffix("(no changes)", ReloadReply(oldCount, newCount))
    ensures newCount > oldCount ==> IsSuffix("(" + NatToString(newCount - oldCount) + " new)", ReloadReply(oldCount, newCount))
    ensures newCount < oldCount ==> IsSuffix("(" + NatToString(oldCount - newCount) + " removed)", ReloadReply(oldCount, newCount))
  {
    var r := ReloadReply(oldCount, newCount);
    var change := ReloadChange(oldCount, newCount);
    var tail := if newCount > oldCount then " new)" else if newCount < oldCount then " removed)" else "(no changes)";
    assert IsSuffix(tail, change) by {
      if newCount > oldCount {
        AppendSlices("(" + NatToString(newCount - oldCount), " new)");
      } else if newCount < oldCount {
        AppendSlices("(" + NatToString(oldCount - newCount), " removed)");
      }
    }
    SuffixTrans(tail, change, r);
    SecondLast(tail, r);
    SecondLast(" new)", r);
    SecondLast(" removed)", r);
    SecondLast("(no changes)", r);
  }

  function ReloadFailedReply(message: string): string {
    CROSS + " Failed to reload queries: " + message
  }

  // ---------------------------------------------------------------------
  // The handlers. A reply of `None` is a handler returning False without
  // saying anything; `Some(r)` says `r` and returns True.

  /** `DomainSQLTool`: the chat handlers over one loader and one executor. */
  class DomainSqlTool {
    const loader: Loader.QueryLoader
    const executor: Executor.QueryExecutor

    constructor (loader: Loader.QueryLoader, executor: Executor.QueryExecutor)
      ensures this.loader == loader && this.executor == executor
    {
      this.loader := loader;
      this.executor := executor;
    }

    /** `_handle_query` up to the call of `execute`: which query runs, with which parameters. */
    method HandleQuery(text: string) returns (route: QueryRoute)
      ensures route == QueryRouteFor(loader.queries, text)
    {
      var t := CleanText(text);
      var found := loader.GetQueryByTrigger(t);
      if found.None? {
        return NotAQuery;
      }
      route := RouteFound(loader.queries, t, found.value);
    }

    /** The lookup of a cache target: by id, then by trigger. */
    method FindTarget(target: string) returns (d: Option<QueryDefinition>)
      ensures d == TargetDefinition(loader.queries, target)
    {
      d := loader.GetQueryById(target);
      if d.None? {
        d := loader.GetQueryByTrigger(target);
      }
    }

    /** What `_handle_clear_cache` decides once its pattern matched `group`. */
    method ResolveTarget(group: string) returns (route: ClearRoute)
      ensures route == TargetRoute(loader.queries, group)
    {
      var target := Strip(group);
      if Lower(target) == "all" {
        return ClearEverything;
      }
      var d := FindTarget(target);
      route := if d.Some? then ClearQuery(d.value.name) else UnknownTarget(target);
    }

    /** The effect of a clear-cache route on the executor, and the reply. */
    method ApplyClear(route: ClearRoute) returns (reply: Option<string>)
      requires executor.Valid()
      modifies executor
      ensures executor.Valid()
      ensures executor.dbConnections == old(executor.dbConnections)
      ensures (executor.State(), reply) == ClearOutcome(route, old(executor.State()))
    {
      match route
      case NotClear =>
        reply := None;
      case ClearEverything =>
        var count := executor.ClearCache(None);
        reply := Some(ClearedAllReply(count));
      case ClearQuery(name) =>
        var count := executor.ClearCache(Some(name));
        reply := Some(ClearedReply(name, count));
      case UnknownTarget(target) =>
        reply := Some(UnknownQueryReply(target));
    }

    /** What `_handle_clear_cache` decides for a message. */
    method ClearRouteOf(text: string) returns (route: ClearRoute)
      ensures route == ClearRouteFor(loader.queries, text)
    {
      var group := ClearTarget(CleanText(text));
      if group.None? {
        return NotClear;
      }
      route := ResolveTarget(group.value);
    }

    /** `_handle_clear_cache`. */
    method HandleClearCache(text: string) returns (reply: Option<string>)
      requires executor.Valid()
      modifies executor
      ensures executor.Valid()
      ensures executor.dbConnections == old(executor.dbConnections)
      ensures (executor.State(), reply) == ClearOutcome(ClearRouteFor(loader.queries, text), old(executor.State()))
    {
      var route := ClearRouteOf(text);
      reply := ApplyClear(route);
    }

    /** `_handle_list_queries`. */
    method HandleListQueries(text: string) returns (reply: Option<string>)
      ensures reply.Some? <==> IsListCommand(CleanText(text))
      ensures reply.Some? ==> reply.value == ListReply(loader.GetAllQueries())
    {
      if !IsListCommand(CleanText(text)) {
        return None;
      }
      var queries := loader.GetAllQueries();
      if queries == [] {
        return Some(NO_QUERIES);
      }
      var lines := ListingLines(Listed(queries));
      reply := Some(Join("\n", lines));
    }

    /**
     * `_handle_reload_queries`: reloads and compares the counts. A failure
     * is reported through `describe` (`str(e)`), and what was loaded before
     * it stays in the index.
     */
    method HandleReload(text: string, listing: Loader.Listing, describe: Loader.LoadError -> string)
      returns (reply: Option<string>)
      modifies loader
      ensures !IsReloadCommand(CleanText(text)) ==> reply.None? && loader.queries == old(loader.queries)
      ensures IsReloadCommand(CleanText(text)) ==>
        var (index, err) := Loader.Load([], Loader.Files(listing));
        && loader.queries == index
        && reply == Some(if err.None? then ReloadReply(|old(loader.queries)|, |index|) else ReloadFailedReply(describe(err.value)))
    {
      if !IsReloadCommand(CleanText(text)) {
        return None;
      }
      var oldCount := |loader.queries|;
      var err := loader.Reload(listing);
      if err.Some? {
        return Some(ReloadFailedReply(describe(err.value)));
      }
      reply := Some(ReloadReply(oldCount, |loader.queries|));
    }
  }
}
