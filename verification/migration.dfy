/**
 * The schema that migration 20251111082129 creates: the `daily_tariffs` and
 * `warehouse_tariffs` tables with their column kinds and constraints, stated
 * as predicates over in-memory rows, and the order in which `up` creates and
 * `down` drops the two tables.
 */
module Migration {
  import opened Wrappers

  /** A calendar date as the `date` column compares it: later days are greater. */
  type Date = nat

  /** The length of a knex `string` column, a `varchar(255)`. */
  const VarcharLength := 255

  /**
   * How the server reads text written into a `decimal(10, 2)` column: None
   * when it rejects the text (the statement then fails), otherwise the
   * number in hundredths, which is what `ORDER BY` compares.
   */
  type DecimalCast = string -> Option<int>

  /** A row of `daily_tariffs` (timestamps left out). */
  datatype DailyTariffRow = DailyTariffRow(
    id: nat,
    date: Date,
    dtNextBox: Option<string>,
    dtTillMax: Option<string>)

  /**
   * A row of `warehouse_tariffs` (its own serial id and timestamps left out).
   * Decimal columns keep the text that was written into them.
   */
  datatype WarehouseTariffRow = WarehouseTariffRow(
    dailyTariffId: nat,
    warehouseName: Option<string>,
    geoName: Option<string>,
    boxDeliveryBase: Option<string>,
    boxDeliveryCoefExpr: Option<string>,
    boxDeliveryLiter: Option<string>,
    boxDeliveryMarketplaceBase: Option<string>,
    boxDeliveryMarketplaceCoefExpr: Option<string>,
    boxDeliveryMarketplaceLiter: Option<string>,
    boxStorageBase: Option<string>,
    boxStorageCoefExpr: Option<string>,
    boxStorageLiter: Option<string>)

  /** A row of `spreadsheets`, whose `spreadsheet_id` is unique. */
  datatype SpreadsheetRow = SpreadsheetRow(spreadsheetId: string)

  /**
   * The database contents the core touches. `dailyTariffsIdSeq` is the next
   * value of the serial sequence behind `daily_tariffs.id`.
   */
  datatype Tables = Tables(
    dailyTariffs: seq<DailyTariffRow>,
    warehouseTariffs: seq<WarehouseTariffRow>,
    spreadsheets: seq<SpreadsheetRow>,
    dailyTariffsIdSeq: nat)

  /** The tables right after `up`: empty, with the sequence at its start value. */
  const Empty := Tables([], [], [], 1)

  // Column kinds

  /** A nullable `string` column accepts null or text of at most 255 characters. */
  predicate StringColumn(v: Option<string>) {
    v.None? || |v.value| <= VarcharLength
  }

  /** A `string` column declared `notNullable`. */
  predicate NotNullStringColumn(v: Option<string>) {
    v.Some? && |v.value| <= VarcharLength
  }

  /** A nullable `decimal(10, 2)` column accepts null or text the server can cast. */
  predicate DecimalColumn(v: Option<string>, cast: DecimalCast) {
    v.None? || cast(v.value).Some?
  }

  /** The column constraints of `daily_tariffs` other than the key. */
  predicate DailyRowFits(r: DailyTariffRow) {
    StringColumn(r.dtNextBox) && StringColumn(r.dtTillMax)
  }

  /** The column constraints of `warehouse_tariffs` other than the foreign key. */
  predicate WarehouseRowFits(r: WarehouseTariffRow, cast: DecimalCast) {
    && NotNullStringColumn(r.warehouseName)
    && NotNullStringColumn(r.geoName)
    && DecimalColumn(r.boxDeliveryBase, cast)
    && StringColumn(r.boxDeliveryCoefExpr)
    && DecimalColumn(r.boxDeliveryLiter, cast)
    && DecimalColumn(r.boxDeliveryMarketplaceBase, cast)
    && StringColumn(r.boxDeliveryMarketplaceCoefExpr)
    && DecimalColumn(r.boxDeliveryMarketplaceLiter, cast)
    && DecimalColumn(r.boxStorageBase, cast)
    && StringColumn(r.boxStorageCoefExpr)
    && DecimalColumn(r.boxStorageLiter, cast)
  }

  // Table constraints

  /** `date` is unique. */
  predicate UniqueDates(daily: seq<DailyTariffRow>) {
    forall i, j | 0 <= i < j < |daily| :: daily[i].date != daily[j].date
  }

  /** `id` is the primary key. */
  predicate UniqueIds(daily: seq<DailyTariffRow>) {
    forall i, j | 0 <= i < j < |daily| :: daily[i].id != daily[j].id
  }

  /** The ids present in `daily_tariffs`. */
  function Ids(daily: seq<DailyTariffRow>): set<nat> {
    set r | r in daily :: r.id
  }

  /** Every `daily_tariff_id` refers to an existing `daily_tariffs.id`. */
  predicate ForeignKeys(daily: seq<DailyTariffRow>, warehouse: seq<WarehouseTariffRow>) {
    forall w | w in warehouse :: w.dailyTariffId in Ids(daily)
  }

  /** `spreadsheet_id` is unique. */
  predicate UniqueSpreadsheetIds(rows: seq<SpreadsheetRow>) {
    forall i, j | 0 <= i < j < |rows| :: rows[i].spreadsheetId != rows[j].spreadsheetId
  }

  /** Every constraint of the schema, and every id below the serial sequence. */
  predicate Valid(t: Tables, cast: DecimalCast) {
    && UniqueDates(t.dailyTariffs)
    && UniqueIds(t.dailyTariffs)
    && (forall r | r in t.dailyTariffs :: r.id < t.dailyTariffsIdSeq && DailyRowFits(r))
    && ForeignKeys(t.dailyTariffs, t.warehouseTariffs)
    && (forall w | w in t.warehouseTariffs :: WarehouseRowFits(w, cast))
    && UniqueSpreadsheetIds(t.spreadsheets)
  }

  lemma EmptyValid(cast: DecimalCast)
    ensures Valid(Empty, cast)
  {
  }

  // Selections by `daily_tariff_id`

  /** The rows of `warehouse_tariffs` that belong to parent `id`, in table order. */
  function ChildrenOf(warehouse: seq<WarehouseTariffRow>, id: nat): seq<WarehouseTariffRow> {
    if |warehouse| == 0 then []
    else (if warehouse[0].dailyTariffId == id then [warehouse[0]] else []) + ChildrenOf(warehouse[1..], id)
  }

  /** `warehouse_tariffs` after `DELETE ... WHERE daily_tariff_id = id`. */
  function WithoutChildren(warehouse: seq<WarehouseTariffRow>, id: nat): seq<WarehouseTariffRow> {
    if |warehouse| == 0 then []
    else (if warehouse[0].dailyTariffId == id then [] else [warehouse[0]]) + WithoutChildren(warehouse[1..], id)
  }

  lemma {:induction false} ChildrenOfAppend(a: seq<WarehouseTariffRow>, b: seq<WarehouseTariffRow>, id: nat)
    ensures ChildrenOf(a + b, id) == ChildrenOf(a, id) + ChildrenOf(b, id)
  {
    if |a| > 0 {
      assert (a + b)[1..] == a[1..] + b;
      ChildrenOfAppend(a[1..], b, id);
    } else {
      assert a + b == b;
    }
  }

  lemma {:induction false} WithoutChildrenAppend(a: seq<WarehouseTariffRow>, b: seq<WarehouseTariffRow>, id: nat)
    ensures WithoutChildren(a + b, id) == WithoutChildren(a, id) + WithoutChildren(b, id)
  {
    if |a| > 0 {
      assert (a + b)[1..] == a[1..] + b;
      WithoutChildrenAppend(a[1..], b, id);
    } else {
      assert a + b == b;
    }
  }

  /** Deleting one parent's children leaves every other parent's children as they were. */
  lemma {:induction false} ChildrenOfWithout(warehouse: seq<WarehouseTariffRow>, id: nat, other: nat)
    ensures ChildrenOf(WithoutChildren(warehouse, id), other)
         == if other == id then [] else ChildrenOf(warehouse, other)
  {
    if |warehouse| > 0 {
      ChildrenOfWithout(warehouse[1..], id, other);
      var head := if warehouse[0].dailyTariffId == id then [] else [warehouse[0]];
      ChildrenOfAppend(head, WithoutChildren(warehouse[1..], id), other);
    }
  }

  /** A table in which no row refers to `id` has no children of `id` and loses nothing to their deletion. */
  lemma {:induction false} NoChildren(warehouse: seq<WarehouseTariffRow>, id: nat)
    requires forall w | w in warehouse :: w.dailyTariffId != id
    ensures ChildrenOf(warehouse, id) == []
    ensures WithoutChildren(warehouse, id) == warehouse
  {
    if |warehouse| > 0 {
      assert warehouse[0] in warehouse;
      NoChildren(warehouse[1..], id);
      assert warehouse == [warehouse[0]] + warehouse[1..];
    }
  }

  // ON DELETE CASCADE

  /** `daily_tariffs` after `DELETE ... WHERE id = id`. */
  function WithoutParent(daily: seq<DailyTariffRow>, id: nat): seq<DailyTariffRow> {
    if |daily| == 0 then []
    else (if daily[0].id == id then [] else [daily[0]]) + WithoutParent(daily[1..], id)
  }

  /**
   * Deleting a `daily_tariffs` row: the foreign key's ON DELETE CASCADE
   * deletes its `warehouse_tariffs` rows in the same statement.
   */
  function DeleteDailyTariff(t: Tables, id: nat): Tables {
    t.(dailyTariffs := WithoutParent(t.dailyTariffs, id),
       warehouseTariffs := WithoutChildren(t.warehouseTariffs, id))
  }

  /** The delete keeps exactly the rows of other parents. */
  lemma {:induction false} WithoutChildrenMembers(warehouse: seq<WarehouseTariffRow>, id: nat)
    ensures forall w :: w in WithoutChildren(warehouse, id) <==> w in warehouse && w.dailyTariffId != id
  {
    if |warehouse| > 0 {
      WithoutChildrenMembers(warehouse[1..], id);
      assert warehouse == [warehouse[0]] + warehouse[1..];
    }
  }

  /** Removing a parent keeps exactly the rows with other ids. */
  lemma {:induction false} WithoutParentMembers(daily: seq<DailyTariffRow>, id: nat)
    ensures forall p :: p in WithoutParent(daily, id) <==> p in daily && p.id != id
  {
    if |daily| > 0 {
      WithoutParentMembers(daily[1..], id);
      assert daily == [daily[0]] + daily[1..];
    }
  }

  /** Removing a parent keeps the rows with other ids, in order, so keys stay unique. */
  lemma {:induction false} WithoutParentKeepsKeys(daily: seq<DailyTariffRow>, id: nat)
    requires UniqueDates(daily) && UniqueIds(daily)
    ensures UniqueDates(WithoutParent(daily, id)) && UniqueIds(WithoutParent(daily, id))
  {
    if |daily| > 0 && daily[0].id != id {
      var rest := WithoutParent(daily[1..], id);
      WithoutParentKeepsKeys(daily[1..], id);
      WithoutParentMembers(daily[1..], id);
      var r := [daily[0]] + rest;
      assert WithoutParent(daily, id) == r;
      forall k | 0 < k < |r|
        ensures r[0].date != r[k].date && r[0].id != r[k].id
      {
        assert r[k] in rest;
        var m :| 0 <= m < |daily[1..]| && daily[1..][m] == r[k];
        assert daily[m + 1] == r[k];
      }
      forall i, j | 0 <= i < j < |r|
        ensures r[i].date != r[j].date && r[i].id != r[j].id
      {
        if i > 0 {
          assert r[i] == rest[i - 1] && r[j] == rest[j - 1];
        }
      }
    } else if |daily| > 0 {
      WithoutParentKeepsKeys(daily[1..], id);
    }
  }

  /** Deleting a parent keeps every constraint and leaves no row referring to it. */
  lemma CascadeDeleteKeepsSchema(t: Tables, id: nat, cast: DecimalCast)
    requires Valid(t, cast)
    ensures Valid(DeleteDailyTariff(t, id), cast)
    ensures forall w | w in DeleteDailyTariff(t, id).warehouseTariffs :: w.dailyTariffId != id
  {
    var daily := WithoutParent(t.dailyTariffs, id);
    WithoutParentKeepsKeys(t.dailyTariffs, id);
    WithoutParentMembers(t.dailyTariffs, id);
    WithoutChildrenMembers(t.warehouseTariffs, id);
    forall w | w in WithoutChildren(t.warehouseTariffs, id)
      ensures w.dailyTariffId in Ids(daily)
    {
      var p :| p in t.dailyTariffs && p.id == w.dailyTariffId;
      assert p in daily;
    }
  }

  // The migration's `up` and `down`

  /** The tables this migration owns. */
  datatype TableName = DailyTariffs | WarehouseTariffs

  /** The tables a table's foreign keys reference. */
  function References(table: TableName): set<TableName> {
    if table == WarehouseTariffs then {DailyTariffs} else {}
  }

  /** CREATE TABLE: fails when the table exists or a table it references does not. */
  function CreateTable(catalog: set<TableName>, table: TableName): Option<set<TableName>> {
    if table !in catalog && References(table) <= catalog then Some(catalog + {table}) else None
  }

  /** DROP TABLE without CASCADE: fails when the table is missing or another table references it. */
  function DropTable(catalog: set<TableName>, table: TableName): Option<set<TableName>> {
    if table in catalog && forall other | other in catalog && other != table :: table !in References(other)
    then Some(catalog - {table})
    else None
  }

  /** `up`: `daily_tariffs` first, then `warehouse_tariffs`, which references it. */
  function Up(catalog: set<TableName>): Option<set<TableName>> {
    match CreateTable(catalog, DailyTariffs)
    case None => None
    case Some(c) => CreateTable(c, WarehouseTariffs)
  }

  /** `down`: the child table first, then the parent. */
  function Down(catalog: set<TableName>): Option<set<TableName>> {
    match DropTable(catalog, WarehouseTariffs)
    case None => None
    case Some(c) => DropTable(c, DailyTariffs)
  }

  /** `down` undoes `up`, and it must drop the child first: dropping the parent first is refused. */
  lemma DownUndoesUp()
    ensures Up({}) == Some({DailyTariffs, WarehouseTariffs})
    ensures Down({DailyTariffs, WarehouseTariffs}) == Some({})
    ensures DropTable({DailyTariffs, WarehouseTariffs}, DailyTariffs) == None
  {
    assert References(DailyTariffs) == {};
    assert {} + {DailyTariffs} == {DailyTariffs};
    assert {DailyTariffs} + {WarehouseTariffs} == {DailyTariffs, WarehouseTariffs};
    assert DropTable({DailyTariffs, WarehouseTariffs}, WarehouseTariffs) == Some({DailyTariffs});
    assert {DailyTariffs} - {DailyTariffs} == {};
    assert DailyTariffs in References(WarehouseTariffs);
  }
}
