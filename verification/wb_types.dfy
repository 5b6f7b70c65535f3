/**
 * The shapes of the tariff provider's payload (src/common/types/wb.types.ts).
 * Every field is nullable: the declared TypeScript types say `string`, but the
 * values arrive from JSON and the code copies them without checking.
 */
module WbTypes {
  import opened Wrappers

  /** One warehouse's tariffs, as `WbWarehouseTariff`. */
  datatype WarehouseTariff = WarehouseTariff(
    boxDeliveryBase: Option<string>,
    boxDeliveryCoefExpr: Option<string>,
    boxDeliveryLiter: Option<string>,
    boxDeliveryMarketplaceBase: Option<string>,
    boxDeliveryMarketplaceCoefExpr: Option<string>,
    boxDeliveryMarketplaceLiter: Option<string>,
    boxStorageBase: Option<string>,
    boxStorageCoefExpr: Option<string>,
    boxStorageLiter: Option<string>,
    geoName: Option<string>,
    warehouseName: Option<string>)

  /** The day's payload, as `WbTariffsData`. */
  datatype TariffsData = TariffsData(
    dtNextBox: Option<string>,
    dtTillMax: Option<string>,
    warehouseList: seq<WarehouseTariff>)

  /** `WbTariffsResponseData`. */
  datatype TariffsResponseData = TariffsResponseData(data: TariffsData)

  /** `WbTariffsApiResponse`: the body of a successful provider response. */
  datatype TariffsApiResponse = TariffsApiResponse(response: TariffsResponseData)

  /**
   * Property lookup `tariff[key]` on a `WbWarehouseTariff`: the field's value
   * when `key` names one of its eleven properties, None (JavaScript's
   * `undefined`) otherwise.
   */
  function Property(t: WarehouseTariff, key: string): Option<Option<string>> {
    if key == "warehouseName" then Some(t.warehouseName)
    else if key == "geoName" then Some(t.geoName)
    else if key == "boxDeliveryBase" then Some(t.boxDeliveryBase)
    else if key == "boxDeliveryCoefExpr" then Some(t.boxDeliveryCoefExpr)
    else if key == "boxDeliveryLiter" then Some(t.boxDeliveryLiter)
    else if key == "boxDeliveryMarketplaceBase" then Some(t.boxDeliveryMarketplaceBase)
    else if key == "boxDeliveryMarketplaceCoefExpr" then Some(t.boxDeliveryMarketplaceCoefExpr)
    else if key == "boxDeliveryMarketplaceLiter" then Some(t.boxDeliveryMarketplaceLiter)
    else if key == "boxStorageBase" then Some(t.boxStorageBase)
    else if key == "boxStorageCoefExpr" then Some(t.boxStorageCoefExpr)
    else if key == "boxStorageLiter" then Some(t.boxStorageLiter)
    else None
  }
}
