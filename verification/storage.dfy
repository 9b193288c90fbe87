/** The persistence collaborator (adapters/storage_sqlite.py) with its four
    tables held in memory: trades keyed by id, positions keyed by symbol (kept
    in insertion order, the order a full scan of the table returns), the
    append-only event log, and the symbol-name table keyed by code. */
module Storage {
  import opened Wrappers
  import opened Text
  import opened Entities

  datatype Trade = Trade(symbol: string, side: string, qty: int, price: real, ts: string)

  datatype PositionRow = PositionRow(position: Position, updatedAt: string)

  /** A log row; `date` is the calendar day of its `datetime('now')` stamp. */
  datatype LogEntry = LogEntry(level: string, msg: string, date: Date)

  datatype Store = Store(
    trades: map<string, Trade>,
    positions: seq<PositionRow>,
    logs: seq<LogEntry>,
    symbols: map<string, string>)

  const EmptyStore := Store(map[], [], [], map[])

  /** The primary key of the positions table. */
  predicate UniqueSymbols(rows: seq<PositionRow>) {
    forall i, j :: 0 <= i < j < |rows| ==> rows[i].position.symbol != rows[j].position.symbol
  }

  /** The row stored for `symbol`, if any. */
  function Lookup(rows: seq<PositionRow>, symbol: string): (r: Option<PositionRow>)
    ensures r.Some? ==> r.value in rows && r.value.position.symbol == symbol
    ensures r.None? <==> forall i :: 0 <= i < |rows| ==> rows[i].position.symbol != symbol
  {
    if |rows| == 0 then None
    else if rows[0].position.symbol == symbol then Some(rows[0])
    else Lookup(rows[1..], symbol)
  }

  /** `INSERT ... ON CONFLICT(symbol) DO UPDATE`: replaces the row in place or appends a new one. */
  function UpsertRow(rows: seq<PositionRow>, row: PositionRow): (r: seq<PositionRow>)
    ensures Lookup(r, row.position.symbol) == Some(row)
    ensures forall s :: s != row.position.symbol ==> Lookup(r, s) == Lookup(rows, s)
    ensures |r| == if Lookup(rows, row.position.symbol).Some? then |rows| else |rows| + 1
  {
    if |rows| == 0 then [row]
    else if rows[0].position.symbol == row.position.symbol then [row] + rows[1..]
    else [rows[0]] + UpsertRow(rows[1..], row)
  }

  /** Every row of an upserted table is the new row or the old row at the same place. */
  lemma {:induction false} UpsertRowAt(rows: seq<PositionRow>, row: PositionRow, k: nat)
    requires k < |UpsertRow(rows, row)|
    ensures UpsertRow(rows, row)[k] == row || (k < |rows| && UpsertRow(rows, row)[k] == rows[k])
    decreases rows
  {
    if |rows| > 0 && rows[0].position.symbol != row.position.symbol && k > 0 {
      var sub := UpsertRow(rows[1..], row);
      assert UpsertRow(rows, row)[k] == sub[k - 1];
      UpsertRowAt(rows[1..], row, k - 1);
    }
  }

  /** A row whose symbol no other row has can be put in front of a keyed table. */
  lemma ConsUnique(x: PositionRow, rows: seq<PositionRow>)
    requires UniqueSymbols(rows)
    requires forall k :: 0 <= k < |rows| ==> rows[k].position.symbol != x.position.symbol
    ensures UniqueSymbols([x] + rows)
  {
    var r := [x] + rows;
    forall i, j | 0 <= i < j < |r| ensures r[i].position.symbol != r[j].position.symbol {
      assert r[j] == rows[j - 1];
      if i > 0 {
        assert r[i] == rows[i - 1];
      }
    }
  }

  /** Upserting keeps the symbol column a key. */
  lemma {:induction false} UpsertRowUnique(rows: seq<PositionRow>, row: PositionRow)
    requires UniqueSymbols(rows)
    ensures UniqueSymbols(UpsertRow(rows, row))
    decreases rows
  {
    if |rows| > 0 {
      var tail := rows[1..];
      assert UniqueSymbols(tail);
      assert forall k :: 0 <= k < |tail| ==> tail[k].position.symbol != rows[0].position.symbol by {
        forall k | 0 <= k < |tail| ensures tail[k].position.symbol != rows[0].position.symbol {
          assert tail[k] == rows[k + 1];
        }
      }
      if rows[0].position.symbol == row.position.symbol {
        ConsUnique(row, tail);
      } else {
        var sub := UpsertRow(tail, row);
        UpsertRowUnique(tail, row);
        forall k | 0 <= k < |sub| ensures sub[k].position.symbol != rows[0].position.symbol {
          UpsertRowAt(tail, row, k);
        }
        ConsUnique(rows[0], sub);
      }
    }
  }

  /** `record_trade`: `INSERT OR REPLACE` by trade id. */
  function RecordTrade(st: Store, id: string, t: Trade): (r: Store)
    ensures id in r.trades && r.trades[id] == t
    ensures forall k :: k != id ==> (k in r.trades <==> k in st.trades)
    ensures forall k :: k != id && k in st.trades ==> r.trades[k] == st.trades[k]
    ensures r.positions == st.positions && r.logs == st.logs && r.symbols == st.symbols
  {
    st.(trades := st.trades[id := t])
  }

  /** `upsert_position`: at most one row per symbol, every field of an existing row overwritten. */
  function UpsertPosition(st: Store, p: Position, ts: string): (r: Store)
    ensures Lookup(r.positions, p.symbol) == Some(PositionRow(p, ts))
    ensures forall s :: s != p.symbol ==> Lookup(r.positions, s) == Lookup(st.positions, s)
    ensures r.trades == st.trades && r.logs == st.logs && r.symbols == st.symbols
  {
    st.(positions := UpsertRow(st.positions, PositionRow(p, ts)))
  }

  /** No later position in `ps` has the symbol of the one at `k`. */
  predicate LastOfSymbol(ps: seq<Position>, k: nat)
    requires k < |ps|
  {
    forall j :: k < j < |ps| ==> ps[j].symbol != ps[k].symbol
  }

  /** Each symbol given in `ps` holds, in `rows`, the last position given for it. */
  ghost predicate StoresLast(rows: seq<PositionRow>, ps: seq<Position>, ts: string) {
    forall k :: 0 <= k < |ps| && LastOfSymbol(ps, k) ==> Lookup(rows, ps[k].symbol) == Some(PositionRow(ps[k], ts))
  }

  /** Symbols not given in `ps` have the same row in `rows` as in `before`. */
  ghost predicate KeepsOthers(rows: seq<PositionRow>, before: seq<PositionRow>, ps: seq<Position>) {
    forall s :: (forall k :: 0 <= k < |ps| ==> ps[k].symbol != s) ==> Lookup(rows, s) == Lookup(before, s)
  }

  /** Every position upserted in order with stamp `ts`: each symbol ends up holding the
      last position given for it, and symbols not given keep their rows. */
  function UpsertPositions(st: Store, ps: seq<Position>, ts: string): (r: Store)
    ensures r.logs == st.logs && r.trades == st.trades && r.symbols == st.symbols
    ensures StoresLast(r.positions, ps, ts)
    ensures KeepsOthers(r.positions, st.positions, ps)
    decreases |ps|
  {
    if |ps| == 0 then st
    else
      var st1 := UpsertPosition(st, ps[0], ts);
      var r := UpsertPositions(st1, ps[1..], ts);
      UpsertPositionsStep(st.positions, st1.positions, r.positions, ps, ts);
      r
  }

  /** One step of `UpsertPositions`: the head upserted, then the tail. */
  lemma UpsertPositionsStep(before: seq<PositionRow>, mid: seq<PositionRow>, rows: seq<PositionRow>, ps: seq<Position>, ts: string)
    requires |ps| > 0
    requires mid == UpsertRow(before, PositionRow(ps[0], ts))
    requires StoresLast(rows, ps[1..], ts) && KeepsOthers(rows, mid, ps[1..])
    ensures StoresLast(rows, ps, ts) && KeepsOthers(rows, before, ps)
  {
    forall k | 0 <= k < |ps| && LastOfSymbol(ps, k)
      ensures Lookup(rows, ps[k].symbol) == Some(PositionRow(ps[k], ts))
    {
      if k == 0 {
        HeadStoredLast(before, mid, rows, ps, ts);
      } else {
        TailStoredLast(rows, ps, ts, k);
      }
    }
    forall s | forall k :: 0 <= k < |ps| ==> ps[k].symbol != s
      ensures Lookup(rows, s) == Lookup(before, s)
    {
      OtherSymbolKept(before, mid, rows, ps, ts, s);
    }
  }

  /** The head, given nowhere later, keeps the row its upsert wrote. */
  lemma HeadStoredLast(before: seq<PositionRow>, mid: seq<PositionRow>, rows: seq<PositionRow>, ps: seq<Position>, ts: string)
    requires |ps| > 0 && LastOfSymbol(ps, 0)
    requires mid == UpsertRow(before, PositionRow(ps[0], ts))
    requires KeepsOthers(rows, mid, ps[1..])
    ensures Lookup(rows, ps[0].symbol) == Some(PositionRow(ps[0], ts))
  {
    var tail := ps[1..];
    assert forall j :: 0 <= j < |tail| ==> tail[j] == ps[j + 1];
  }

  /** A later position that is last for its symbol is stored by the tail's upserts. */
  lemma TailStoredLast(rows: seq<PositionRow>, ps: seq<Position>, ts: string, k: nat)
    requires 0 < k < |ps| && LastOfSymbol(ps, k)
    requires StoresLast(rows, ps[1..], ts)
    ensures Lookup(rows, ps[k].symbol) == Some(PositionRow(ps[k], ts))
  {
    var tail := ps[1..];
    assert ps[k] == tail[k - 1];
    assert LastOfSymbol(tail, k - 1) by {
      assert forall j :: k - 1 < j < |tail| ==> tail[j] == ps[j + 1];
    }
  }

  /** A symbol given nowhere in `ps` keeps its row through the head and the tail. */
  lemma OtherSymbolKept(before: seq<PositionRow>, mid: seq<PositionRow>, rows: seq<PositionRow>, ps: seq<Position>, ts: string, s: string)
    requires |ps| > 0 && forall k :: 0 <= k < |ps| ==> ps[k].symbol != s
    requires mid == UpsertRow(before, PositionRow(ps[0], ts))
    requires KeepsOthers(rows, mid, ps[1..])
    ensures Lookup(rows, s) == Lookup(before, s)
  {
    var tail := ps[1..];
    assert ps[0].symbol != s;
    forall k | 0 <= k < |tail| ensures tail[k].symbol != s {
      assert tail[k] == ps[k + 1];
    }
    assert Lookup(rows, s) == Lookup(mid, s);
  }

  /** Each given symbol has a row after upserting, whether or not it is given twice. */
  lemma UpsertPositionsStoresAll(st: Store, ps: seq<Position>, ts: string, k: nat)
    requires k < |ps|
    ensures Lookup(UpsertPositions(st, ps, ts).positions, ps[k].symbol).Some?
    decreases |ps| - k
  {
    if !LastOfSymbol(ps, k) {
      var j :| k < j < |ps| && ps[j].symbol == ps[k].symbol;
      UpsertPositionsStoresAll(st, ps, ts, j);
    }
  }

  /** `get_positions`: one position per stored row, in table order, with the stored fields. */
  function GetPositions(st: Store): (r: seq<Position>)
    ensures |r| == |st.positions|
    ensures forall i :: 0 <= i < |r| ==> r[i] == st.positions[i].position
  {
    seq(|st.positions|, i requires 0 <= i < |st.positions| => st.positions[i].position)
  }

  /** What was upserted last for a symbol is what `get_positions` reports for it. */
  lemma UpsertThenGet(st: Store, p: Position, ts: string)
    requires UniqueSymbols(st.positions)
    ensures p in GetPositions(UpsertPosition(st, p, ts))
    ensures forall q :: q in GetPositions(UpsertPosition(st, p, ts)) && q.symbol == p.symbol ==> q == p
  {
    UpsertRowUnique(st.positions, PositionRow(p, ts));
    var rows := UpsertPosition(st, p, ts).positions;
    var got := GetPositions(UpsertPosition(st, p, ts));
    var row := Lookup(rows, p.symbol).value;
    var i :| 0 <= i < |rows| && rows[i] == row;
    assert got[i] == p;
    forall q | q in got && q.symbol == p.symbol ensures q == p {
      var j :| 0 <= j < |got| && got[j] == q;
      UniqueIndex(rows, i, j);
    }
  }

  /** In a keyed table, two rows with the same symbol are the same row. */
  lemma UniqueIndex(rows: seq<PositionRow>, i: nat, j: nat)
    requires UniqueSymbols(rows) && i < |rows| && j < |rows|
    requires rows[i].position.symbol == rows[j].position.symbol
    ensures i == j
  {
  }

  /** `log_event`: appends one entry stamped with today's date and changes nothing else. */
  function LogEvent(st: Store, level: string, msg: string, today: Date): (r: Store)
    ensures r.logs == st.logs + [LogEntry(level, msg, today)]
    ensures r.trades == st.trades && r.positions == st.positions && r.symbols == st.symbols
  {
    st.(logs := st.logs + [LogEntry(level, msg, today)])
  }

  /** `ts >= date('now')` on SQLite's text stamps: the entry is dated today or later. */
  predicate OnOrAfter(d: Date, today: Date) {
    d.year > today.year
    || (d.year == today.year && d.month > today.month)
    || (d.year == today.year && d.month == today.month && d.day >= today.day)
  }

  predicate DailyLossEntry(e: LogEntry, today: Date) {
    e.level == "risk" && OnOrAfter(e.date, today) && Contains(e.msg, "daily_loss")
  }

  /** `is_daily_loss_limit_exceeded`: whether a `risk` entry of today mentions `daily_loss`.
      The limit argument does not take part. */
  function IsDailyLossLimitExceeded(st: Store, limitR: real, today: Date): (r: bool)
    ensures r <==> exists i :: 0 <= i < |st.logs| && DailyLossEntry(st.logs[i], today)
  {
    exists i | 0 <= i < |st.logs| :: DailyLossEntry(st.logs[i], today)
  }

  /** The dedup key `symbol:signal_type:YYYY-MM-DD`. */
  function AlertKey(symbol: string, signalType: string, d: Date): string
    requires d.Valid()
  {
    symbol + ":" + signalType + ":" + IsoFormat(d)
  }

  /** For one symbol and signal type, distinct dates give distinct keys. */
  lemma AlertKeyDistinguishesDates(symbol: string, signalType: string, d1: Date, d2: Date)
    requires d1.Valid() && d2.Valid() && d1 != d2
    ensures AlertKey(symbol, signalType, d1) != AlertKey(symbol, signalType, d2)
  {
    var head := symbol + ":" + signalType + ":";
    if AlertKey(symbol, signalType, d1) == AlertKey(symbol, signalType, d2) {
      assert AlertKey(symbol, signalType, d1)[|head|..] == IsoFormat(d1);
      assert AlertKey(symbol, signalType, d2)[|head|..] == IsoFormat(d2);
      IsoFormatInjective(d1, d2);
    }
  }

  predicate HasAlert(logs: seq<LogEntry>, key: string) {
    exists i | 0 <= i < |logs| :: logs[i].level == "alert" && logs[i].msg == key
  }

  /** A remembered key stays remembered when entries are appended to the log. */
  lemma HasAlertExtends(logs: seq<LogEntry>, longer: seq<LogEntry>, key: string)
    requires |logs| <= |longer| && longer[..|logs|] == logs
    requires HasAlert(logs, key)
    ensures HasAlert(longer, key)
  {
    var i :| 0 <= i < |logs| && logs[i].level == "alert" && logs[i].msg == key;
    assert longer[i] == logs[i];
  }

  /** Appending one entry remembers exactly its key in addition, when it is an alert. */
  lemma HasAlertAppend(logs: seq<LogEntry>, e: LogEntry, key: string)
    ensures HasAlert(logs + [e], key) <==> HasAlert(logs, key) || (e.level == "alert" && e.msg == key)
  {
    var longer := logs + [e];
    if HasAlert(logs, key) {
      HasAlertExtends(logs, longer, key);
    }
    if e.level == "alert" && e.msg == key {
      assert longer[|logs|] == e;
    }
    if HasAlert(longer, key) && !HasAlert(logs, key) {
      var i :| 0 <= i < |longer| && longer[i].level == "alert" && longer[i].msg == key;
      if i < |logs| {
        assert longer[i] == logs[i];
      }
    }
  }

  /** `remember_alert` on a ready-made key: true, with one `alert` entry appended, the
      first time the key is seen; false, with storage untouched, afterwards. */
  function RememberKey(st: Store, key: string, today: Date): (r: (bool, Store))
    ensures r.0 <==> !HasAlert(st.logs, key)
    ensures r.0 ==> r.1 == LogEvent(st, "alert", key, today)
    ensures !r.0 ==> r.1 == st
    ensures HasAlert(r.1.logs, key)
  {
    if HasAlert(st.logs, key) then (false, st)
    else
      var st' := LogEvent(st, "alert", key, today);
      assert st'.logs[|st.logs|] == LogEntry("alert", key, today);
      (true, st')
  }

  /** `remember_alert`: true, with one `alert` entry appended, the first time a key
      is seen; false, with nothing appended, on every later call. */
  function RememberAlert(st: Store, symbol: string, signalType: string, d: Date, today: Date): (r: (bool, Store))
    requires d.Valid()
    ensures r.0 <==> !HasAlert(st.logs, AlertKey(symbol, signalType, d))
    ensures r.0 ==> r.1 == LogEvent(st, "alert", AlertKey(symbol, signalType, d), today)
    ensures !r.0 ==> r.1 == st
    ensures HasAlert(r.1.logs, AlertKey(symbol, signalType, d))
  {
    RememberKey(st, AlertKey(symbol, signalType, d), today)
  }

  /** Remembering the same key twice: the second call reports it as already sent. */
  lemma RememberIsIdempotent(st: Store, symbol: string, signalType: string, d: Date, today: Date, later: Date)
    requires d.Valid()
    ensures var st1 := RememberAlert(st, symbol, signalType, d, today).1;
      RememberAlert(st1, symbol, signalType, d, later) == (false, st1)
  {
  }

  /** Remembering an alert for one date leaves the answer for any other date unchanged,
      so a new day resets the suppression. */
  lemma RememberOtherDateUnaffected(st: Store, symbol: string, signalType: string, d1: Date, d2: Date, today: Date)
    requires d1.Valid() && d2.Valid() && d1 != d2
    ensures RememberAlert(RememberAlert(st, symbol, signalType, d1, today).1, symbol, signalType, d2, today).0
      == RememberAlert(st, symbol, signalType, d2, today).0
  {
    AlertKeyDistinguishesDates(symbol, signalType, d1, d2);
    var k1 := AlertKey(symbol, signalType, d1);
    var k2 := AlertKey(symbol, signalType, d2);
    var st1 := RememberAlert(st, symbol, signalType, d1, today).1;
    assert st1.logs[..|st.logs|] == st.logs;
    if HasAlert(st1.logs, k2) {
      var i :| 0 <= i < |st1.logs| && st1.logs[i].level == "alert" && st1.logs[i].msg == k2;
      if i < |st.logs| {
        assert st.logs[i] == st1.logs[i];
      }
    }
    if HasAlert(st.logs, k2) {
      var i :| 0 <= i < |st.logs| && st.logs[i].level == "alert" && st.logs[i].msg == k2;
      assert st1.logs[i] == st.logs[i];
    }
  }

  /** Alert bookkeeping never trips the daily-loss check. */
  lemma AlertsDoNotCountAsLoss(st: Store, symbol: string, signalType: string, d: Date, today: Date, limitR: real, asOf: Date)
    requires d.Valid()
    ensures IsDailyLossLimitExceeded(RememberAlert(st, symbol, signalType, d, today).1, limitR, asOf)
      == IsDailyLossLimitExceeded(st, limitR, asOf)
  {
    var st1 := RememberAlert(st, symbol, signalType, d, today).1;
    if IsDailyLossLimitExceeded(st1, limitR, asOf) {
      var i :| 0 <= i < |st1.logs| && DailyLossEntry(st1.logs[i], asOf);
      assert i < |st.logs| && st.logs[i] == st1.logs[i];
    }
    if IsDailyLossLimitExceeded(st, limitR, asOf) {
      var i :| 0 <= i < |st.logs| && DailyLossEntry(st.logs[i], asOf);
      assert st1.logs[i] == st.logs[i];
    }
  }

  /** A `risk` entry mentioning `daily_loss` logged today trips the check today. */
  lemma RiskEntryTripsLimit(st: Store, msg: string, today: Date, limitR: real)
    requires Contains(msg, "daily_loss")
    ensures IsDailyLossLimitExceeded(LogEvent(st, "risk", msg, today), limitR, today)
  {
    var st1 := LogEvent(st, "risk", msg, today);
    assert DailyLossEntry(st1.logs[|st.logs|], today);
  }

  /** `get_symbol_name`. */
  function GetSymbolName(st: Store, code: string): (r: Option<string>)
    ensures r.Some? <==> code in st.symbols
    ensures r.Some? ==> r.value == st.symbols[code]
  {
    if code in st.symbols then Some(st.symbols[code]) else None
  }

  /** `upsert_symbol`. */
  function UpsertSymbol(st: Store, code: string, name: string): (r: Store)
    ensures r.trades == st.trades && r.positions == st.positions && r.logs == st.logs
    ensures forall c :: c != code ==> GetSymbolName(r, c) == GetSymbolName(st, c)
  {
    st.(symbols := st.symbols[code := name])
  }

  /** A stored name reads back. */
  lemma UpsertThenGetSymbolName(st: Store, code: string, name: string)
    ensures GetSymbolName(UpsertSymbol(st, code, name), code) == Some(name)
  {
  }
}
