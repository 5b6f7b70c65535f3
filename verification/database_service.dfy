/**
 * DatabaseService (src/services/database.service.ts): the transactional
 * upsert of the day's snapshot, the read-back of the latest snapshot and
 * the list of spreadsheet ids.
 *
 * The reads and the effect of the upsert are specified by functions over
 * `Tables`; `UpsertDailyTariff` performs the upsert step by step on a
 * `Postgres.Database` and is proved to reach the state `Upsert` describes.
 */
module DatabaseService {
  import opened Wrappers
  import opened WbTypes
  import opened Migration
  import Postgres

  // Column mapping

  /** The `warehouse_tariffs` row written for one tariff of the payload: every field copied verbatim. */
  function ToRow(id: nat, t: WarehouseTariff): WarehouseTariffRow {
    WarehouseTariffRow(
      id, t.warehouseName, t.geoName,
      t.boxDeliveryBase, t.boxDeliveryCoefExpr, t.boxDeliveryLiter,
      t.boxDeliveryMarketplaceBase, t.boxDeliveryMarketplaceCoefExpr, t.boxDeliveryMarketplaceLiter,
      t.boxStorageBase, t.boxStorageCoefExpr, t.boxStorageLiter)
  }

  /** The tariff read back from a `warehouse_tariffs` row. */
  function ToTariff(r: WarehouseTariffRow): WarehouseTariff {
    WarehouseTariff(
      r.boxDeliveryBase, r.boxDeliveryCoefExpr, r.boxDeliveryLiter,
      r.boxDeliveryMarketplaceBase, r.boxDeliveryMarketplaceCoefExpr, r.boxDeliveryMarketplaceLiter,
      r.boxStorageBase, r.boxStorageCoefExpr, r.boxStorageLiter,
      r.geoName, r.warehouseName)
  }

  /** The rows inserted for a whole `warehouseList`, in list order. */
  function MapRows(id: nat, list: seq<WarehouseTariff>): seq<WarehouseTariffRow> {
    seq(|list|, k requires 0 <= k < |list| => ToRow(id, list[k]))
  }

  /** The tariffs read back from a sequence of rows. */
  function ToTariffs(rows: seq<WarehouseTariffRow>): seq<WarehouseTariff> {
    seq(|rows|, k requires 0 <= k < |rows| => ToTariff(rows[k]))
  }

  /** Reading a row back yields the tariff it was written from, field by field. */
  lemma RowRoundTrip(id: nat, t: WarehouseTariff)
    ensures ToRow(id, t).dailyTariffId == id
    ensures ToTariff(ToRow(id, t)) == t
  {
  }

  lemma MapRowsRoundTrip(id: nat, list: seq<WarehouseTariff>)
    ensures ToTariffs(MapRows(id, list)) == list
  {
  }

  /** Every inserted row belongs to `id`, so selecting by parent gives back all of them or none. */
  lemma {:induction false} MapRowsChildren(id: nat, list: seq<WarehouseTariff>, other: nat)
    ensures ChildrenOf(MapRows(id, list), other) == if other == id then MapRows(id, list) else []
    ensures WithoutChildren(MapRows(id, list), id) == []
  {
    if |list| > 0 {
      var rows := MapRows(id, list);
      assert rows[1..] == MapRows(id, list[1..]);
      MapRowsChildren(id, list[1..], other);
      assert rows[0].dailyTariffId == id;
      assert ChildrenOf(rows, other) == (if id == other then [rows[0]] else []) + ChildrenOf(rows[1..], other);
      assert WithoutChildren(rows, id) == WithoutChildren(rows[1..], id);
      assert rows == [rows[0]] + rows[1..];
    }
  }

  /**
   * Whether every statement of the upsert succeeds: the payload satisfies
   * the column constraints of both tables (those on a child row do not
   * depend on its parent id), and the warehouse list is not empty, since the
   * bulk insert of an empty list compiles to an empty query, which the
   * PostgreSQL client refuses.
   */
  predicate DataFits(data: TariffsData, cast: DecimalCast) {
    && StringColumn(data.dtNextBox)
    && StringColumn(data.dtTillMax)
    && |data.warehouseList| > 0
    && forall t | t in data.warehouseList :: WarehouseRowFits(ToRow(0, t), cast)
  }

  /** The bulk insert of `MapRows(id, list)` succeeds exactly when every tariff fits. */
  lemma RowsFitIffTariffsFit(id: nat, list: seq<WarehouseTariff>, cast: DecimalCast)
    ensures (forall w | w in MapRows(id, list) :: WarehouseRowFits(w, cast))
        <==> (forall t | t in list :: WarehouseRowFits(ToRow(0, t), cast))
  {
    var rows := MapRows(id, list);
    if forall t | t in list :: WarehouseRowFits(ToRow(0, t), cast) {
      forall w | w in rows ensures WarehouseRowFits(w, cast) {
        var k :| 0 <= k < |rows| && rows[k] == w;
        assert list[k] in list;
      }
    }
    if forall w | w in rows :: WarehouseRowFits(w, cast) {
      forall t | t in list ensures WarehouseRowFits(ToRow(0, t), cast) {
        var k :| 0 <= k < |list| && list[k] == t;
        assert rows[k] in rows;
      }
    }
  }

  // Reads

  /** `.where({ date }).first()` on `daily_tariffs`: the index of a row with that date. */
  function FindByDate(daily: seq<DailyTariffRow>, date: Date): (r: Option<nat>)
    ensures r.Some? ==> r.value < |daily| && daily[r.value].date == date
    ensures r.None? ==> forall p | p in daily :: p.date != date
  {
    if |daily| == 0 then None
    else if daily[0].date == date then Some(0)
    else match FindByDate(daily[1..], date)
      case Some(k) => Some(k + 1)
      case None => assert daily == [daily[0]] + daily[1..]; None
  }

  /** `.orderBy('date', 'desc').first()` on `daily_tariffs`: a row with the greatest date, if any. */
  function LatestDaily(daily: seq<DailyTariffRow>): (r: Option<DailyTariffRow>)
    ensures r.None? <==> |daily| == 0
    ensures r.Some? ==> r.value in daily && forall p | p in daily :: p.date <= r.value.date
  {
    if |daily| == 0 then None
    else
      assert daily == [daily[0]] + daily[1..];
      match LatestDaily(daily[1..])
      case None => Some(daily[0])
      case Some(q) => if q.date > daily[0].date then Some(q) else Some(daily[0])
  }

  /** With unique dates, a date identifies at most one row. */
  lemma SameDateSameRow(daily: seq<DailyTariffRow>, p: DailyTariffRow, q: DailyTariffRow)
    requires UniqueDates(daily) && p in daily && q in daily && p.date == q.date
    ensures p == q
  {
    var i :| 0 <= i < |daily| && daily[i] == p;
    var j :| 0 <= j < |daily| && daily[j] == q;
    assert !(i < j) && !(j < i);
  }

  /** The sort key of `ORDER BY box_delivery_base`: the number the column holds, None for NULL. */
  function DeliveryKey(t: WarehouseTariff, cast: DecimalCast): Option<int> {
    match t.boxDeliveryBase
    case None => None
    case Some(s) => cast(s)
  }

  /** Ascending order with NULLs last, PostgreSQL's placement of NULL for `ASC`. */
  predicate KeyLe(a: Option<int>, b: Option<int>) {
    b.None? || (a.Some? && a.value <= b.value)
  }

  predicate SortedByDeliveryBase(ts: seq<WarehouseTariff>, cast: DecimalCast) {
    forall i, j | 0 <= i < j < |ts| :: KeyLe(DeliveryKey(ts[i], cast), DeliveryKey(ts[j], cast))
  }

  /** A sorted sequence stays sorted behind an element that no member precedes. */
  lemma ConsSorted(h: WarehouseTariff, ts: seq<WarehouseTariff>, cast: DecimalCast)
    requires SortedByDeliveryBase(ts, cast)
    requires forall x | x in ts :: KeyLe(DeliveryKey(h, cast), DeliveryKey(x, cast))
    ensures SortedByDeliveryBase([h] + ts, cast)
  {
    var r := [h] + ts;
    forall i, j | 0 <= i < j < |r| ensures KeyLe(DeliveryKey(r[i], cast), DeliveryKey(r[j], cast)) {
      if i == 0 {
        assert r[j] == ts[j - 1] && ts[j - 1] in ts;
      } else {
        assert r[i] == ts[i - 1] && r[j] == ts[j - 1];
      }
    }
  }

  /** Inserting `t` into a sorted sequence: `t` goes before the first element it does not follow. */
  function InsertByDeliveryBase(t: WarehouseTariff, ts: seq<WarehouseTariff>, cast: DecimalCast): (r: seq<WarehouseTariff>)
    requires SortedByDeliveryBase(ts, cast)
    ensures SortedByDeliveryBase(r, cast)
    ensures multiset(r) == multiset(ts) + multiset{t}
  {
    if |ts| == 0 then [t]
    else if KeyLe(DeliveryKey(t, cast), DeliveryKey(ts[0], cast)) then
      FirstIsLeast(ts, cast);
      ConsSorted(t, ts, cast);
      [t] + ts
    else
      SortedTail(ts, cast);
      var rest := InsertByDeliveryBase(t, ts[1..], cast);
      assert ts == [ts[0]] + ts[1..];
      FollowsHead(t, ts, rest, cast);
      ConsSorted(ts[0], rest, cast);
      [ts[0]] + rest
  }

  lemma SortedTail(ts: seq<WarehouseTariff>, cast: DecimalCast)
    requires SortedByDeliveryBase(ts, cast) && |ts| > 0
    ensures SortedByDeliveryBase(ts[1..], cast)
  {
    forall i, j | 0 <= i < j < |ts| - 1
      ensures KeyLe(DeliveryKey(ts[1..][i], cast), DeliveryKey(ts[1..][j], cast))
    {
      assert ts[1..][i] == ts[i + 1] && ts[1..][j] == ts[j + 1];
    }
  }

  /** In a sorted sequence no element precedes the first. */
  lemma FirstIsLeast(ts: seq<WarehouseTariff>, cast: DecimalCast)
    requires SortedByDeliveryBase(ts, cast) && |ts| > 0
    ensures forall x | x in ts :: KeyLe(DeliveryKey(ts[0], cast), DeliveryKey(x, cast))
  {
    forall x | x in ts ensures KeyLe(DeliveryKey(ts[0], cast), DeliveryKey(x, cast)) {
      var k :| 0 <= k < |ts| && ts[k] == x;
      if k > 0 { assert KeyLe(DeliveryKey(ts[0], cast), DeliveryKey(ts[k], cast)); }
    }
  }

  /** When `t` does not go before `ts[0]`, nothing in `ts[1..]` with `t` added precedes `ts[0]`. */
  lemma FollowsHead(t: WarehouseTariff, ts: seq<WarehouseTariff>, rest: seq<WarehouseTariff>, cast: DecimalCast)
    requires SortedByDeliveryBase(ts, cast) && |ts| > 0
    requires !KeyLe(DeliveryKey(t, cast), DeliveryKey(ts[0], cast))
    requires multiset(rest) == multiset(ts[1..]) + multiset{t}
    ensures forall x | x in rest :: KeyLe(DeliveryKey(ts[0], cast), DeliveryKey(x, cast))
  {
    FirstIsLeast(ts, cast);
    forall x | x in rest ensures KeyLe(DeliveryKey(ts[0], cast), DeliveryKey(x, cast)) {
      assert x in multiset(rest);
      if x != t {
        assert x in multiset(ts[1..]);
        assert x in ts[1..];
        assert x in ts;
      }
    }
  }

  /** The children in `ORDER BY box_delivery_base ASC` order: a sorted permutation; ties in no promised order. */
  function SortByDeliveryBase(ts: seq<WarehouseTariff>, cast: DecimalCast): (r: seq<WarehouseTariff>)
    ensures SortedByDeliveryBase(r, cast)
    ensures multiset(r) == multiset(ts)
  {
    if |ts| == 0 then []
    else
      assert ts == [ts[0]] + ts[1..];
      InsertByDeliveryBase(ts[0], SortByDeliveryBase(ts[1..], cast), cast)
  }

  /**
   * `getLatestTariffs`: the children of the parent with the greatest date,
   * sorted by `box_delivery_base`, each column mapped back to its field;
   * empty when `daily_tariffs` is.
   */
  function LatestTariffs(t: Tables, cast: DecimalCast): (r: seq<WarehouseTariff>)
    ensures SortedByDeliveryBase(r, cast)
    ensures |t.dailyTariffs| == 0 ==> r == []
  {
    match LatestDaily(t.dailyTariffs)
    case None => []
    case Some(p) => SortByDeliveryBase(ToTariffs(ChildrenOf(t.warehouseTariffs, p.id)), cast)
  }

  /** The latest snapshot is exactly the children, as tariffs, of the row whose date is greatest. */
  lemma LatestTariffsAreLatestSnapshot(t: Tables, cast: DecimalCast, p: DailyTariffRow)
    requires Valid(t, cast)
    requires p in t.dailyTariffs && forall q | q in t.dailyTariffs :: q.date <= p.date
    ensures multiset(LatestTariffs(t, cast)) == multiset(ToTariffs(ChildrenOf(t.warehouseTariffs, p.id)))
  {
    var latest := LatestDaily(t.dailyTariffs).value;
    SameDateSameRow(t.dailyTariffs, p, latest);
  }

  /** `getSpreadsheetIds`: the `spreadsheet_id` column, row by row. */
  function SpreadsheetIds(t: Tables): seq<string> {
    seq(|t.spreadsheets|, k requires 0 <= k < |t.spreadsheets| => t.spreadsheets[k].spreadsheetId)
  }

  /** The unique constraint makes the listed targets distinct; every row is listed. */
  lemma SpreadsheetIdsDistinct(t: Tables, cast: DecimalCast)
    requires Valid(t, cast)
    ensures forall i, j | 0 <= i < j < |SpreadsheetIds(t)| :: SpreadsheetIds(t)[i] != SpreadsheetIds(t)[j]
    ensures forall row | row in t.spreadsheets :: row.spreadsheetId in SpreadsheetIds(t)
  {
    var ids := SpreadsheetIds(t);
    forall row | row in t.spreadsheets ensures row.spreadsheetId in ids {
      var k :| 0 <= k < |t.spreadsheets| && t.spreadsheets[k] == row;
      assert ids[k] == row.spreadsheetId;
    }
  }

  // The upsert

  /** The `daily_tariffs` row for `today` after the upsert: the existing one with new dt columns, or a new one with the next id. */
  function ParentFor(t: Tables, today: Date, data: TariffsData): DailyTariffRow {
    match FindByDate(t.dailyTariffs, today)
    case Some(i) => t.dailyTariffs[i].(dtNextBox := data.dtNextBox, dtTillMax := data.dtTillMax)
    case None => DailyTariffRow(t.dailyTariffsIdSeq, today, data.dtNextBox, data.dtTillMax)
  }

  datatype UpsertResult = UpsertResult(tables: Tables, committed: bool)

  /**
   * `upsertDailyTariff(data)` run on day `today`, as one transaction. When a
   * statement fails the transaction rolls back; only the serial sequence,
   * which PostgreSQL never rolls back, keeps the value the insert drew.
   */
  function Upsert(t: Tables, today: Date, data: TariffsData, cast: DecimalCast): (r: UpsertResult)
    ensures r.committed == DataFits(data, cast)
    ensures !r.committed ==> r.tables.dailyTariffs == t.dailyTariffs && r.tables.warehouseTariffs == t.warehouseTariffs
    ensures r.tables.spreadsheets == t.spreadsheets
  {
    var parent := ParentFor(t, today, data);
    match FindByDate(t.dailyTariffs, today)
    case Some(i) =>
      if DataFits(data, cast) then
        UpsertResult(t.(dailyTariffs := t.dailyTariffs[i := parent],
                        warehouseTariffs := WithoutChildren(t.warehouseTariffs, parent.id) + MapRows(parent.id, data.warehouseList)), true)
      else UpsertResult(t, false)
    case None =>
      if DataFits(data, cast) then
        UpsertResult(Tables(t.dailyTariffs + [parent], t.warehouseTariffs + MapRows(parent.id, data.warehouseList),
                            t.spreadsheets, t.dailyTariffsIdSeq + 1), true)
      else UpsertResult(t.(dailyTariffsIdSeq := t.dailyTariffsIdSeq + 1), false)
  }

  /** Replacing a row by one with the same id leaves the set of ids unchanged. */
  lemma IdsUpdate(daily: seq<DailyTariffRow>, i: nat, p: DailyTariffRow)
    requires i < |daily| && p.id == daily[i].id
    ensures Ids(daily[i := p]) == Ids(daily)
  {
    forall x | x in Ids(daily) ensures x in Ids(daily[i := p]) {
      var r :| r in daily && r.id == x;
      var k :| 0 <= k < |daily| && daily[k] == r;
      if k == i { assert daily[i := p][i] == p; } else { assert daily[i := p][k] == r; }
    }
    forall x | x in Ids(daily[i := p]) ensures x in Ids(daily) {
      var r :| r in daily[i := p] && r.id == x;
      var k :| 0 <= k < |daily| && daily[i := p][k] == r;
      if k == i { assert daily[i] in daily; } else { assert daily[k] in daily; }
    }
  }

  /** The upsert keeps every constraint of the schema. */
  lemma UpsertKeepsSchema(t: Tables, today: Date, data: TariffsData, cast: DecimalCast)
    requires Valid(t, cast)
    ensures Valid(Upsert(t, today, data, cast).tables, cast)
  {
    var r := Upsert(t, today, data, cast).tables;
    var parent := ParentFor(t, today, data);
    if DataFits(data, cast) {
      var rows := MapRows(parent.id, data.warehouseList);
      RowsFitIffTariffsFit(parent.id, data.warehouseList, cast);
      WithoutChildrenMembers(t.warehouseTariffs, parent.id);
      match FindByDate(t.dailyTariffs, today)
      case Some(i) =>
        IdsUpdate(t.dailyTariffs, i, parent);
        assert t.dailyTariffs[i] in t.dailyTariffs;
        forall q | q in r.dailyTariffs
          ensures q.id < r.dailyTariffsIdSeq && DailyRowFits(q)
        {
          var k :| 0 <= k < |r.dailyTariffs| && r.dailyTariffs[k] == q;
          if k != i { assert t.dailyTariffs[k] in t.dailyTariffs; }
        }
      case None =>
        assert Ids(r.dailyTariffs) == Ids(t.dailyTariffs) + {parent.id};
        forall w | w in r.warehouseTariffs ensures w.dailyTariffId in Ids(r.dailyTariffs) {
          if w in t.warehouseTariffs { assert w.dailyTariffId in Ids(t.dailyTariffs); }
        }
    }
  }

  /** After a committed upsert, `today`'s row is the parent written and every other row is an old row. */
  lemma UpsertParentRows(t: Tables, today: Date, data: TariffsData, cast: DecimalCast)
    requires Valid(t, cast) && DataFits(data, cast)
    ensures ParentFor(t, today, data) in Upsert(t, today, data, cast).tables.dailyTariffs
    ensures ParentFor(t, today, data).date == today
    ensures forall q | q in Upsert(t, today, data, cast).tables.dailyTariffs && q != ParentFor(t, today, data) ::
              q in t.dailyTariffs && q.date != today
  {
    var r := Upsert(t, today, data, cast).tables;
    var parent := ParentFor(t, today, data);
    match FindByDate(t.dailyTariffs, today)
    case Some(i) =>
      assert r.dailyTariffs[i] == parent;
      forall q | q in r.dailyTariffs && q != parent ensures q in t.dailyTariffs && q.date != today {
        var k :| 0 <= k < |r.dailyTariffs| && r.dailyTariffs[k] == q;
        assert k != i && t.dailyTariffs[k] == q;
      }
    case None =>
  }

  /**
   * When `today` already has a row, the upsert keeps its id and date,
   * changes only its `dt_next_box` and `dt_till_max`, and adds no parent.
   */
  lemma UpsertUpdatesExistingParent(t: Tables, today: Date, data: TariffsData, cast: DecimalCast, i: nat)
    requires Valid(t, cast) && DataFits(data, cast)
    requires i < |t.dailyTariffs| && t.dailyTariffs[i].date == today
    ensures Upsert(t, today, data, cast).tables.dailyTariffs
         == t.dailyTariffs[i := t.dailyTariffs[i].(dtNextBox := data.dtNextBox, dtTillMax := data.dtTillMax)]
    ensures Upsert(t, today, data, cast).tables.dailyTariffsIdSeq == t.dailyTariffsIdSeq
  {
    var j := FindByDate(t.dailyTariffs, today).value;
    assert !(i < j) && !(j < i);
  }

  /**
   * When `today` has no row, the upsert appends exactly one parent for
   * `today` whose id no existing row uses, and keeps the other parents.
   */
  lemma UpsertInsertsFreshParent(t: Tables, today: Date, data: TariffsData, cast: DecimalCast)
    requires Valid(t, cast) && DataFits(data, cast)
    requires forall p | p in t.dailyTariffs :: p.date != today
    ensures var daily := Upsert(t, today, data, cast).tables.dailyTariffs;
      && |daily| == |t.dailyTariffs| + 1
      && daily[..|t.dailyTariffs|] == t.dailyTariffs
      && daily[|t.dailyTariffs|].date == today
      && daily[|t.dailyTariffs|].dtNextBox == data.dtNextBox
      && daily[|t.dailyTariffs|].dtTillMax == data.dtTillMax
      && daily[|t.dailyTariffs|].id !in Ids(t.dailyTariffs)
  {
    assert FindByDate(t.dailyTariffs, today).None?;
    var daily := Upsert(t, today, data, cast).tables.dailyTariffs;
    assert daily[..|t.dailyTariffs|] == t.dailyTariffs;
  }

  /** After a committed upsert exactly one parent has date `today`, holding the payload's dt values. */
  lemma UpsertLeavesOneRowForDate(t: Tables, today: Date, data: TariffsData, cast: DecimalCast)
    requires Valid(t, cast) && DataFits(data, cast)
    ensures var daily := Upsert(t, today, data, cast).tables.dailyTariffs;
      exists p | p in daily ::
        && p.date == today && p.dtNextBox == data.dtNextBox && p.dtTillMax == data.dtTillMax
        && forall q | q in daily && q.date == today :: q == p
  {
    UpsertParentRows(t, today, data, cast);
    var p := ParentFor(t, today, data);
    assert p.dtNextBox == data.dtNextBox && p.dtTillMax == data.dtTillMax;
  }

  /**
   * After a committed upsert the children of `today`'s parent are exactly
   * the payload's warehouse list, in order and with duplicates; the
   * children of every other parent are as they were.
   */
  lemma UpsertReplacesChildren(t: Tables, today: Date, data: TariffsData, cast: DecimalCast, p: DailyTariffRow)
    requires Valid(t, cast) && DataFits(data, cast)
    requires p in Upsert(t, today, data, cast).tables.dailyTariffs && p.date == today
    ensures ChildrenOf(Upsert(t, today, data, cast).tables.warehouseTariffs, p.id) == MapRows(p.id, data.warehouseList)
    ensures ToTariffs(ChildrenOf(Upsert(t, today, data, cast).tables.warehouseTariffs, p.id)) == data.warehouseList
    ensures forall other | other != p.id ::
              ChildrenOf(Upsert(t, today, data, cast).tables.warehouseTariffs, other) == ChildrenOf(t.warehouseTariffs, other)
  {
    UpsertParentRows(t, today, data, cast);
    var parent := ParentFor(t, today, data);
    assert p == parent;
    var ws := Upsert(t, today, data, cast).tables.warehouseTariffs;
    var rows := MapRows(p.id, data.warehouseList);
    var kept := match FindByDate(t.dailyTariffs, today) case Some(_) => WithoutChildren(t.warehouseTariffs, p.id) case None => t.warehouseTariffs;
    assert ws == kept + rows;
    if FindByDate(t.dailyTariffs, today).None? {
      forall w | w in t.warehouseTariffs ensures w.dailyTariffId != p.id {
        assert w.dailyTariffId in Ids(t.dailyTariffs);
      }
      NoChildren(t.warehouseTariffs, p.id);
    }
    forall other
      ensures ChildrenOf(ws, other) == if other == p.id then rows else ChildrenOf(t.warehouseTariffs, other)
    {
      ChildrenOfAppend(kept, rows, other);
      MapRowsChildren(p.id, data.warehouseList, other);
      ChildrenOfWithout(t.warehouseTariffs, p.id, other);
    }
    MapRowsRoundTrip(p.id, data.warehouseList);
  }

  /**
   * Upserting the same payload twice on the same day leaves the same rows
   * as upserting it once: one parent, the same children, no duplicates.
   */
  lemma UpsertIdempotent(t: Tables, today: Date, data: TariffsData, cast: DecimalCast)
    requires Valid(t, cast)
    ensures var once := Upsert(t, today, data, cast);
      var twice := Upsert(once.tables, today, data, cast);
      && twice.committed == once.committed
      && twice.tables.dailyTariffs == once.tables.dailyTariffs
      && twice.tables.warehouseTariffs == once.tables.warehouseTariffs
      && (once.committed ==> twice.tables == once.tables)
  {
    var once := Upsert(t, today, data, cast);
    if once.committed {
      var r := once.tables;
      UpsertKeepsSchema(t, today, data, cast);
      UpsertParentRows(t, today, data, cast);
      var p := ParentFor(t, today, data);
      var j := FindByDate(r.dailyTariffs, today).value;
      assert r.dailyTariffs[j] in r.dailyTariffs;
      SameDateSameRow(r.dailyTariffs, r.dailyTariffs[j], p);
      assert ParentFor(r, today, data) == p;
      assert r.dailyTariffs[j := p] == r.dailyTariffs;
      var rows := MapRows(p.id, data.warehouseList);
      var kept := match FindByDate(t.dailyTariffs, today) case Some(_) => WithoutChildren(t.warehouseTariffs, p.id) case None => t.warehouseTariffs;
      assert r.warehouseTariffs == kept + rows;
      WithoutChildrenMembers(t.warehouseTariffs, p.id);
      forall w | w in kept ensures w.dailyTariffId != p.id {
        if FindByDate(t.dailyTariffs, today).None? {
          assert w.dailyTariffId in Ids(t.dailyTariffs);
        }
      }
      NoChildren(kept, p.id);
      WithoutChildrenAppend(kept, rows, p.id);
      MapRowsChildren(p.id, data.warehouseList, p.id);
      assert WithoutChildren(r.warehouseTariffs, p.id) == kept;
    }
  }

  /**
   * Write then read: when no stored date is later than `today`, a committed
   * upsert makes the latest snapshot a sorted permutation of the payload's
   * warehouse list.
   */
  lemma UpsertThenLatest(t: Tables, today: Date, data: TariffsData, cast: DecimalCast)
    requires Valid(t, cast) && DataFits(data, cast)
    requires forall p | p in t.dailyTariffs :: p.date <= today
    ensures var latest := LatestTariffs(Upsert(t, today, data, cast).tables, cast);
      multiset(latest) == multiset(data.warehouseList) && SortedByDeliveryBase(latest, cast)
  {
    var r := Upsert(t, today, data, cast).tables;
    UpsertKeepsSchema(t, today, data, cast);
    UpsertParentRows(t, today, data, cast);
    var p := ParentFor(t, today, data);
    LatestTariffsAreLatestSnapshot(r, cast, p);
    UpsertReplacesChildren(t, today, data, cast, p);
  }

  // The new-date branch as written

  /**
   * The upsert as the code is written: the parent insert asks for no
   * returned columns, so on PostgreSQL it yields no id for the children to
   * reference; the new-date branch fails after the insert has drawn its id,
   * and the transaction rolls back. The existing-date branch is unaffected.
   */
  function UpsertAsWritten(t: Tables, today: Date, data: TariffsData, cast: DecimalCast): UpsertResult {
    match FindByDate(t.dailyTariffs, today)
    case Some(_) => Upsert(t, today, data, cast)
    case None => UpsertResult(t.(dailyTariffsIdSeq := t.dailyTariffsIdSeq + 1), false)
  }

  /**
   * As written, a date that has no row never gets one, whatever the
   * payload, where the intended upsert commits every payload that fits.
   */
  lemma AsWrittenNewDateRollsBack(t: Tables, today: Date, data: TariffsData, cast: DecimalCast)
    requires forall p | p in t.dailyTariffs :: p.date != today
    ensures var r := UpsertAsWritten(t, today, data, cast);
      && !r.committed
      && r.tables.dailyTariffs == t.dailyTariffs
      && r.tables.warehouseTariffs == t.warehouseTariffs
    ensures DataFits(data, cast) ==> Upsert(t, today, data, cast).committed
  {
    assert FindByDate(t.dailyTariffs, today).None?;
  }

  /**
   * The concrete case: on a freshly migrated database, a payload with one
   * fitting tariff is rolled back as written, so the latest read stays
   * empty; the intended upsert stores it and the latest read returns it.
   */
  lemma AsWrittenFirstRunStoresNothing(today: Date, w: WarehouseTariff, cast: DecimalCast)
    requires WarehouseRowFits(ToRow(0, w), cast)
    ensures var data := TariffsData(None, None, [w]);
      && !UpsertAsWritten(Empty, today, data, cast).committed
      && LatestTariffs(UpsertAsWritten(Empty, today, data, cast).tables, cast) == []
      && Upsert(Empty, today, data, cast).committed
      && LatestTariffs(Upsert(Empty, today, data, cast).tables, cast) == [w]
  {
    var data := TariffsData(None, None, [w]);
    EmptyValid(cast);
    UpsertThenLatest(Empty, today, data, cast);
    var latest := LatestTariffs(Upsert(Empty, today, data, cast).tables, cast);
    assert multiset(latest) == multiset{w};
    assert |latest| == 1;
    assert latest[0] in multiset(latest);
  }

  /**
   * `upsertDailyTariff`: inside one transaction, look up today's row; update
   * it and delete its children, or insert a new one; then insert the
   * children. A failing statement rolls the transaction back.
   */
  method UpsertDailyTariff(db: Postgres.Database, today: Date, data: TariffsData) returns (committed: bool)
    requires db.Valid()
    modifies db
    ensures db.Valid()
    ensures committed == DataFits(data, db.cast)
    ensures db.Contents() == Upsert(old(db.Contents()), today, data, db.cast).tables
  {
    ghost var before := db.Contents();
    // the state the transaction rolls back to
    var dailyTariffs, warehouseTariffs := db.dailyTariffs, db.warehouseTariffs;
    var dailyTariffId: nat;
    var ok: bool;
    var existing := FindByDate(db.dailyTariffs, today);
    if existing.Some? {
      var parent := db.dailyTariffs[existing.value].(dtNextBox := data.dtNextBox, dtTillMax := data.dtTillMax);
      ok := DailyRowFits(parent);
      dailyTariffId := parent.id;
      if ok {
        db.dailyTariffs := db.dailyTariffs[existing.value := parent];
        db.warehouseTariffs := WithoutChildren(db.warehouseTariffs, dailyTariffId);
      }
    } else {
      dailyTariffId := db.dailyTariffsIdSeq;
      db.dailyTariffsIdSeq := db.dailyTariffsIdSeq + 1;
      var parent := DailyTariffRow(dailyTariffId, today, data.dtNextBox, data.dtTillMax);
      ok := DailyRowFits(parent);
      if ok {
        db.dailyTariffs := db.dailyTariffs + [parent];
      }
    }
    if ok {
      var rows := MapRows(dailyTariffId, data.warehouseList);
      RowsFitIffTariffsFit(dailyTariffId, data.warehouseList, db.cast);
      ok := |rows| > 0 && forall w | w in rows :: WarehouseRowFits(w, db.cast);
      if ok {
        db.warehouseTariffs := db.warehouseTariffs + rows;
      }
    }
    if !ok {
      db.dailyTariffs, db.warehouseTariffs := dailyTariffs, warehouseTariffs;
    }
    committed := ok;
    UpsertKeepsSchema(before, today, data, db.cast);
  }
}
