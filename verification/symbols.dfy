/** Symbol naming (core/symbols.py): the built-in watch list with display
    names, the optional KRX name cache loaded from CSV rows, and name lookup. */
module Symbols {
  import opened Wrappers
  import opened Text

  const DefaultSymbols: seq<string> := [
    "005930.KS", "000660.KS", "035420.KS", "051910.KS", "068270.KS",
    "207940.KS", "035720.KS", "105560.KS", "096770.KQ", "066570.KS",
    "005380.KS", "000270.KS", "302440.KS", "259960.KS", "326030.KS"]

  const DefaultNames: map<string, string> := map[
    "005930.KS" := "삼성전자",
    "000660.KS" := "SK하이닉스",
    "035420.KS" := "네이버",
    "051910.KS" := "LG화학",
    "068270.KS" := "셀트리온",
    "207940.KS" := "삼성바이오로직스",
    "035720.KS" := "카카오",
    "105560.KS" := "KB금융",
    "096770.KQ" := "SK이노베이션",
    "066570.KS" := "LG전자",
    "005380.KS" := "현대차",
    "000270.KS" := "기아",
    "302440.KS" := "SK바이오사이언스",
    "259960.KS" := "크래프톤",
    "326030.KS" := "SK바이오팜"]

  /** The built-in list has 15 distinct symbols, each with a non-empty default name. */
  lemma DefaultTablesAgree()
    ensures |DefaultSymbols| == 15
    ensures forall i, j :: 0 <= i < j < |DefaultSymbols| ==> DefaultSymbols[i] != DefaultSymbols[j]
    ensures forall s :: s in DefaultSymbols ==> s in DefaultNames && DefaultNames[s] != ""
  {
  }

  /** `iter_default_symbols`. */
  function IterDefaultSymbols(): (r: seq<string>)
    ensures |r| == 15 && r[0] == "005930.KS"
  {
    DefaultSymbols
  }

  /** `get_name`: the cached KRX name, else the built-in name, else the stripped
      symbol; an empty name counts as missing. `extra` is the loaded cache. */
  function GetName(symbol: string, extra: map<string, string>): (r: string)
    ensures var clean := Strip(symbol);
      && (clean in extra && extra[clean] != "" ==> r == extra[clean])
      && (!(clean in extra && extra[clean] != "") && clean in DefaultNames ==> r == DefaultNames[clean])
      && (!(clean in extra && extra[clean] != "") && clean !in DefaultNames ==> r == clean)
  {
    DefaultNamesNonEmpty();
    var clean := Strip(symbol);
    if clean in extra && extra[clean] != "" then extra[clean]
    else if clean in DefaultNames && DefaultNames[clean] != "" then DefaultNames[clean]
    else clean
  }

  lemma DefaultNamesNonEmpty()
    ensures forall s :: s in DefaultNames ==> DefaultNames[s] != ""
  {
  }

  /** Characters that appear in exchange codes such as `005930.KS`. */
  predicate CodeChar(c: char) {
    ('0' <= c <= '9') || ('A' <= c <= 'Z') || c == '.'
  }

  lemma CodeStripsToItself(s: string)
    requires forall k :: 0 <= k < |s| ==> CodeChar(s[k])
    ensures Strip(s) == s
  {
  }

  lemma DefaultSymbolsAreCodes()
    ensures forall i, k :: 0 <= i < |DefaultSymbols| && 0 <= k < |DefaultSymbols[i]| ==> CodeChar(DefaultSymbols[i][k])
  {
  }

  /** Every built-in symbol resolves to its built-in name when the cache does not know it. */
  lemma DefaultSymbolsAreNamed(extra: map<string, string>, i: nat)
    requires i < |DefaultSymbols| && DefaultSymbols[i] !in extra
    ensures GetName(DefaultSymbols[i], extra) == DefaultNames[DefaultSymbols[i]] != ""
  {
    DefaultTablesAgree();
    DefaultSymbolsAreCodes();
    CodeStripsToItself(DefaultSymbols[i]);
  }

  // ------------------------------------------------------------ KRX cache

  /** A cache entry is recorded only when both stripped cells are non-empty. */
  predicate GoodEntries(m: map<string, string>) {
    forall k :: k in m ==> k != "" && m[k] != ""
  }

  /** The last position of `key` among the header names, which is where
      `csv.DictReader` takes a duplicated column's value from. */
  function LastIndexOf(header: seq<string>, key: string): (r: Option<nat>)
    ensures r.Some? ==> r.value < |header| && header[r.value] == key
    ensures r.Some? ==> forall j :: r.value < j < |header| ==> header[j] != key
    ensures r.None? <==> key !in header
  {
    if |header| == 0 then None
    else if header[|header| - 1] == key then Some(|header| - 1)
    else LastIndexOf(header[..|header| - 1], key)
  }

  /** `(row.get(key) or "")` for a `csv.DictReader` row: a column the row is too short for reads as empty. */
  function Cell(header: seq<string>, row: seq<string>, key: string): string {
    match LastIndexOf(header, key)
    case Some(j) => if j < |row| then row[j] else ""
    case None => ""
  }

  /** How the rows of a cache file are read: header-less (`symbol,name,...` per row),
      through a header naming the symbol and name columns, or not at all (a header
      with `symbol` or `code` but neither `name` nor a second column). */
  datatype Layout = Plain | Keyed(header: seq<string>, symbolKey: string, nameKey: string) | Unusable

  /** The layout the first row selects: `symbol` wins over `code`, and the name
      column is `name` or else the second one. */
  function LayoutOf(first: seq<string>): (r: Layout)
    ensures r.Plain? <==> "symbol" !in first && "code" !in first
    ensures r.Keyed? ==> r.header == first && r.symbolKey in first && r.nameKey in first
    ensures r.Keyed? ==> (r.symbolKey == "symbol" <==> "symbol" in first)
    ensures r.Unusable? <==> ("symbol" in first || "code" in first) && "name" !in first && |first| < 2
    ensures r.Keyed? ==> r.symbolKey == (if "symbol" in first then "symbol" else "code")
    ensures r.Keyed? && "name" in first ==> r.nameKey == "name"
    ensures r.Keyed? && "name" !in first ==> |first| >= 2 && r.nameKey == first[1]
  {
    if "symbol" in first || "code" in first then
      var symbolKey := if "symbol" in first then "symbol" else "code";
      if "name" !in first && |first| < 2 then Unusable
      else Keyed(first, symbolKey, if "name" in first then "name" else first[1])
    else Plain
  }

  /** The rows holding data: all of them without a header, the rest after it otherwise. */
  function DataRows(rows: seq<seq<string>>): (r: seq<seq<string>>)
    requires |rows| > 0
    ensures LayoutOf(rows[0]).Plain? ==> r == rows
    ensures !LayoutOf(rows[0]).Plain? ==> r == rows[1..]
  {
    if LayoutOf(rows[0]).Plain? then rows else rows[1..]
  }

  /** The symbol cell of a row (`""` when the row has none: a header-less row with
      fewer than two cells is skipped that way). */
  function SymbolCell(l: Layout, row: seq<string>): string {
    match l
    case Plain => if |row| < 2 then "" else row[0]
    case Keyed(header, symbolKey, _) => if row == [] then "" else Cell(header, row, symbolKey)
    case Unusable => ""
  }

  function NameCell(l: Layout, row: seq<string>): string {
    match l
    case Plain => if |row| < 2 then "" else row[1]
    case Keyed(header, _, nameKey) => if row == [] then "" else Cell(header, row, nameKey)
    case Unusable => ""
  }

  /** What a row contributes to the cache: its stripped symbol and name cells, when
      both are non-empty. */
  function RowEntry(l: Layout, row: seq<string>): (r: Option<(string, string)>)
    ensures r.Some? ==> r.value.0 != "" && r.value.1 != ""
  {
    var symbol := Strip(SymbolCell(l, row));
    var name := Strip(NameCell(l, row));
    if symbol != "" && name != "" then Some((symbol, name)) else None
  }

  /** The contribution of each data row, in file order. */
  function Entries(l: Layout, rows: seq<seq<string>>): seq<Option<(string, string)>> {
    seq(|rows|, i requires 0 <= i < |rows| => RowEntry(l, rows[i]))
  }

  /** An entry recorded under the symbol `k`. */
  predicate EntryFor(e: Option<(string, string)>, k: string) {
    e.Some? && e.value.0 == k
  }

  function Learn(m: map<string, string>, e: Option<(string, string)>): map<string, string> {
    if e.Some? then m[e.value.0 := e.value.1] else m
  }

  /** The entries read one after another, each recorded over what came before. */
  function LoadEntries(es: seq<Option<(string, string)>>, m: map<string, string>): (r: map<string, string>)
    requires forall i :: 0 <= i < |es| && es[i].Some? ==> es[i].value.0 != "" && es[i].value.1 != ""
    ensures GoodEntries(m) ==> GoodEntries(r)
  {
    if |es| == 0 then m else LoadEntries(es[1..], Learn(m, es[0]))
  }

  /** The index of the last entry below `n` recorded under `k`. */
  function LastEntryBelow(es: seq<Option<(string, string)>>, k: string, n: nat): (r: Option<nat>)
    requires n <= |es|
    ensures r.Some? ==> r.value < n && EntryFor(es[r.value], k)
    ensures r.Some? ==> forall j :: r.value < j < n ==> !EntryFor(es[j], k)
    ensures r.None? <==> forall j :: 0 <= j < n ==> !EntryFor(es[j], k)
  {
    if n == 0 then None
    else if EntryFor(es[n - 1], k) then Some(n - 1)
    else LastEntryBelow(es, k, n - 1)
  }

  /** The index of the last entry recorded under `k`. */
  function LastEntryFor(es: seq<Option<(string, string)>>, k: string): Option<nat> {
    LastEntryBelow(es, k, |es|)
  }

  lemma {:induction false} LoadEntriesAppend(es: seq<Option<(string, string)>>, e: Option<(string, string)>, m: map<string, string>)
    requires forall i :: 0 <= i < |es| && es[i].Some? ==> es[i].value.0 != "" && es[i].value.1 != ""
    requires e.Some? ==> e.value.0 != "" && e.value.1 != ""
    ensures LoadEntries(es + [e], m) == Learn(LoadEntries(es, m), e)
  {
    if |es| > 0 {
      assert (es + [e])[1..] == es[1..] + [e];
      LoadEntriesAppend(es[1..], e, Learn(m, es[0]));
    }
  }

  /** Reading the first `n` entries into an empty cache keeps, for each symbol, the
      name of the last entry for it, and nothing else. */
  lemma {:induction false} LoadEntriesKeepsLast(es: seq<Option<(string, string)>>, k: string, n: nat)
    requires forall i :: 0 <= i < |es| && es[i].Some? ==> es[i].value.0 != "" && es[i].value.1 != ""
    requires n <= |es|
    ensures k in LoadEntries(es[..n], map[]) <==> LastEntryBelow(es, k, n).Some?
    ensures k in LoadEntries(es[..n], map[]) ==>
      LoadEntries(es[..n], map[])[k] == es[LastEntryBelow(es, k, n).value].value.1
  {
    if n > 0 {
      assert es[..n] == es[..n - 1] + [es[n - 1]];
      LoadEntriesAppend(es[..n - 1], es[n - 1], map[]);
      LoadEntriesKeepsLast(es, k, n - 1);
    }
  }

  /** `load_krx_cache` over the file's CSV rows (`None` when there is no file).
      The cache starts empty on every load. Each cached symbol is the stripped
      symbol cell of some recorded data row, and its name is the stripped name cell
      of the last such row; a symbol no recorded row carries is not cached. */
  function LoadCache(file: Option<seq<seq<string>>>): (r: map<string, string>)
    ensures GoodEntries(r)
    ensures file.None? || (file.Some? && |file.value| == 0) ==> r == map[]
    ensures file.Some? && |file.value| > 0 ==>
      var es := Entries(LayoutOf(file.value[0]), DataRows(file.value));
      forall k ::
        && (k in r <==> LastEntryFor(es, k).Some?)
        && (k in r ==> r[k] == es[LastEntryFor(es, k).value].value.1)
  {
    if file.None? || |file.value| == 0 then map[]
    else
      var es := Entries(LayoutOf(file.value[0]), DataRows(file.value));
      var r := LoadEntries(es, map[]);
      LoadEntriesAreLast(es);
      r
  }

  /** Loading every entry from an empty cache keeps, for each symbol, its last entry. */
  lemma LoadEntriesAreLast(es: seq<Option<(string, string)>>)
    requires forall i :: 0 <= i < |es| && es[i].Some? ==> es[i].value.0 != "" && es[i].value.1 != ""
    ensures var r := LoadEntries(es, map[]);
      forall k ::
        && (k in r <==> LastEntryFor(es, k).Some?)
        && (k in r ==> r[k] == es[LastEntryFor(es, k).value].value.1)
  {
    var r := LoadEntries(es, map[]);
    forall k
      ensures k in r <==> LastEntryFor(es, k).Some?
      ensures k in r ==> r[k] == es[LastEntryFor(es, k).value].value.1
    {
      assert es[..|es|] == es;
      LoadEntriesKeepsLast(es, k, |es|);
    }
  }

  /** A header with `symbol` or `code` but neither `name` nor a second column loads nothing. */
  lemma UnusableHeaderLoadsNothing(rows: seq<seq<string>>)
    requires |rows| > 0 && ("symbol" in rows[0] || "code" in rows[0]) && "name" !in rows[0] && |rows[0]| < 2
    ensures LoadCache(Some(rows)) == map[]
  {
    var es := Entries(Unusable, rows[1..]);
    assert forall i :: 0 <= i < |es| ==> es[i].None?;
    assert forall k :: k !in LoadCache(Some(rows));
  }

  /** In a header-less file a later row for the same symbol overrides an earlier one. */
  lemma LaterRowWins(rows: seq<seq<string>>, symbol: string, name: string, rest: seq<string>)
    requires |rows| > 0 && "symbol" !in rows[0] && "code" !in rows[0]
    requires Strip(symbol) != "" && Strip(name) != ""
    ensures var r := LoadCache(Some(rows + [[symbol, name] + rest]));
      Strip(symbol) in r && r[Strip(symbol)] == Strip(name)
  {
    var row := [symbol, name] + rest;
    var file := rows + [row];
    assert file[0] == rows[0];
    assert LayoutOf(file[0]) == Plain;
    assert DataRows(file) == file;
    var entry := Some((Strip(symbol), Strip(name)));
    assert RowEntry(Plain, row) == entry by {
      assert row[0] == symbol && row[1] == name;
    }
    LastEntryIsKept(Entries(Plain, file), Strip(symbol));
  }

  /** With a header, a row is recorded under its `symbol` cell when the header has
      both `symbol` and `code` columns. */
  lemma HeaderPrefersSymbol(header: seq<string>, row: seq<string>)
    requires "symbol" in header && "code" in header && "name" in header
    requires row != [] && Strip(Cell(header, row, "symbol")) != "" && Strip(Cell(header, row, "name")) != ""
    ensures LoadCache(Some([header, row])) == map[Strip(Cell(header, row, "symbol")) := Strip(Cell(header, row, "name"))]
  {
    var l := Keyed(header, "symbol", "name");
    assert LayoutOf(header) == l;
    assert DataRows([header, row]) == [row];
    var symbol, name := Strip(Cell(header, row, "symbol")), Strip(Cell(header, row, "name"));
    assert RowEntry(l, row) == Some((symbol, name));
    assert Entries(l, [row]) == [Some((symbol, name))];
    OneEntryCache([header, row], symbol, name);
  }

  lemma LastEntryIsKept(es: seq<Option<(string, string)>>, k: string)
    requires |es| > 0 && EntryFor(es[|es| - 1], k)
    ensures LastEntryFor(es, k) == Some(|es| - 1)
  {
  }

  lemma OneEntryCache(rows: seq<seq<string>>, symbol: string, name: string)
    requires |rows| > 0 && Entries(LayoutOf(rows[0]), DataRows(rows)) == [Some((symbol, name))]
    ensures LoadCache(Some(rows)) == map[symbol := name]
  {
    var r := LoadCache(Some(rows));
    assert LastEntryFor([Some((symbol, name))], symbol) == Some(0);
    assert forall k :: k in r <==> k == symbol;
  }
}
