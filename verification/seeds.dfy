/** The `spreadsheets` seed (src/postgres/seeds/spreadsheets.js). */
module Seeds {
  import opened Migration
  import Postgres

  /** The spreadsheet the seed registers. */
  const SeedSpreadsheetId := "1E9FSbGB_fMY63OVZCfSaz5H0hXTGl5l-TH51cZNe9xI"

  /** `INSERT ... ON CONFLICT (spreadsheet_id) DO NOTHING` of one id. */
  function InsertOrIgnore(rows: seq<SpreadsheetRow>, id: string): (r: seq<SpreadsheetRow>)
    ensures exists k | 0 <= k < |r| :: r[k].spreadsheetId == id
    ensures |rows| <= |r| <= |rows| + 1 && r[..|rows|] == rows
    ensures (exists k | 0 <= k < |rows| :: rows[k].spreadsheetId == id) ==> r == rows
    ensures UniqueSpreadsheetIds(rows) ==> UniqueSpreadsheetIds(r)
  {
    if exists k | 0 <= k < |rows| :: rows[k].spreadsheetId == id then rows
    else
      assert (rows + [SpreadsheetRow(id)])[|rows|].spreadsheetId == id;
      rows + [SpreadsheetRow(id)]
  }

  /** Seeding twice leaves the same table as seeding once. */
  lemma InsertOrIgnoreIdempotent(rows: seq<SpreadsheetRow>, id: string)
    ensures InsertOrIgnore(InsertOrIgnore(rows, id), id) == InsertOrIgnore(rows, id)
  {
  }

  /** `seed`: registers the fixed spreadsheet id unless it is already present. */
  method Seed(db: Postgres.Database)
    requires db.Valid()
    modifies db
    ensures db.Valid()
    ensures db.spreadsheets == InsertOrIgnore(old(db.spreadsheets), SeedSpreadsheetId)
    ensures db.dailyTariffs == old(db.dailyTariffs) && db.warehouseTariffs == old(db.warehouseTariffs)
    ensures db.dailyTariffsIdSeq == old(db.dailyTariffsIdSeq)
  {
    db.spreadsheets := InsertOrIgnore(db.spreadsheets, SeedSpreadsheetId);
  }
}
