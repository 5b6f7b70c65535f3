/**
 * The PostgreSQL database behind the knex connection, as in-memory tables
 * that the services and the seed update in place.
 */
module Postgres {
  import opened Migration

  class Database {
    var dailyTariffs: seq<DailyTariffRow>
    var warehouseTariffs: seq<WarehouseTariffRow>
    var spreadsheets: seq<SpreadsheetRow>
    /** Next value of the serial sequence behind `daily_tariffs.id`. */
    var dailyTariffsIdSeq: nat
    /** How this server casts text into `decimal(10, 2)`. */
    const cast: DecimalCast

    /** The rows of every table, as one value. */
    function Contents(): Tables
      reads this
    {
      Tables(dailyTariffs, warehouseTariffs, spreadsheets, dailyTariffsIdSeq)
    }

    /** The schema's constraints hold. */
    predicate Valid()
      reads this
    {
      Migration.Valid(Contents(), cast)
    }

    /** A freshly migrated database: empty tables. */
    constructor (cast: DecimalCast)
      ensures Valid()
      ensures Contents() == Empty && this.cast == cast
    {
      dailyTariffs, warehouseTariffs, spreadsheets := [], [], [];
      dailyTariffsIdSeq := 1;
      this.cast := cast;
    }
  }
}
