/**
 * GoogleService (src/services/google.service.ts): rendering the tariffs as
 * a grid of cells and `updateSheet`'s clear-then-write sequence of requests
 * to the Sheets API.
 */
module GoogleService {
  import opened Wrappers
  import opened WbTypes

  /** The sheet every spreadsheet is written to. */
  const SheetName := "stocks_coefs"
  /** The range `updateSheet` clears. */
  const ClearRange := SheetName + "!A1:Z"
  /** The range the grid is written from. */
  const UpdateRange := SheetName + "!A1"
  /** The value input option of the write: values are stored as given, not parsed. */
  const RawInput := "RAW"

  /** The header row, which is also the order of the cells of every row. */
  const Headers: seq<string> := [
    "warehouseName", "geoName", "boxDeliveryBase", "boxDeliveryCoefExpr",
    "boxDeliveryLiter", "boxDeliveryMarketplaceBase", "boxDeliveryMarketplaceCoefExpr",
    "boxDeliveryMarketplaceLiter", "boxStorageBase", "boxStorageCoefExpr", "boxStorageLiter"]

  /** The text written for a null-or-text field: `'-'` for null, the text itself otherwise. */
  function NullAsDash(v: Option<string>): string {
    match v
    case None => "-"
    case Some(s) => s
  }

  /**
   * The cell for `tariff[header]`. A header that is not a property would
   * give `undefined`, which the Sheets API leaves blank; no header is one.
   */
  function Cell(value: Option<Option<string>>): string {
    match value
    case None => ""
    case Some(v) => NullAsDash(v)
  }

  /** One tariff's row: the cell for each header, in header order. */
  function RenderRow(t: WarehouseTariff): (row: seq<string>)
    ensures |row| == |Headers|
  {
    seq(|Headers|, i requires 0 <= i < |Headers| => Cell(Property(t, Headers[i])))
  }

  /**
   * The row laid out field by field: cell i holds the field that header i
   * names, `'-'` where that field is null, its text unchanged otherwise.
   */
  lemma RowLayout(t: WarehouseTariff)
    ensures RenderRow(t) == [
      NullAsDash(t.warehouseName), NullAsDash(t.geoName), NullAsDash(t.boxDeliveryBase),
      NullAsDash(t.boxDeliveryCoefExpr), NullAsDash(t.boxDeliveryLiter),
      NullAsDash(t.boxDeliveryMarketplaceBase), NullAsDash(t.boxDeliveryMarketplaceCoefExpr),
      NullAsDash(t.boxDeliveryMarketplaceLiter), NullAsDash(t.boxStorageBase),
      NullAsDash(t.boxStorageCoefExpr), NullAsDash(t.boxStorageLiter)]
  {
  }

  /** The grid written: the header row, then one row per tariff in the order given. */
  function SheetValues(data: seq<WarehouseTariff>): (values: seq<seq<string>>)
    ensures |values| == |data| + 1
    ensures values[0] == Headers
    ensures forall k | 0 <= k < |data| :: values[k + 1] == RenderRow(data[k])
    ensures forall k | 0 <= k < |values| :: |values[k]| == |Headers|
  {
    [Headers] + seq(|data|, k requires 0 <= k < |data| => RenderRow(data[k]))
  }

  /** A request to the Sheets API's `spreadsheets.values` resource. */
  datatype SheetRequest =
    | Clear(spreadsheetId: string, range: string)
    | Update(spreadsheetId: string, range: string, valueInputOption: string, values: seq<seq<string>>)

  /**
   * The Sheets API as `updateSheet` sees it: the requests sent so far, and
   * whether the service carries a request out (when it does not, the call
   * throws).
   */
  class SheetsApi {
    var requests: seq<SheetRequest>
    const accepts: SheetRequest -> bool

    constructor (accepts: SheetRequest -> bool)
      ensures requests == [] && this.accepts == accepts
    {
      requests := [];
      this.accepts := accepts;
    }

    /** Sends one request; `ok` is false when the call throws. */
    method Send(request: SheetRequest) returns (ok: bool)
      modifies this
      ensures requests == old(requests) + [request]
      ensures ok == accepts(request)
    {
      requests := requests + [request];
      ok := accepts(request);
    }
  }

  /** The requests `updateSheet(spreadsheetId, data)` sends. */
  function UpdateSheetRequests(spreadsheetId: string, data: seq<WarehouseTariff>, accepts: SheetRequest -> bool): (reqs: seq<SheetRequest>)
    ensures 1 <= |reqs| <= 2
    ensures reqs[0] == Clear(spreadsheetId, ClearRange)
    ensures |reqs| == 2 <==> |data| > 0 && accepts(Clear(spreadsheetId, ClearRange))
    ensures |reqs| == 2 ==> reqs[1] == Update(spreadsheetId, UpdateRange, RawInput, SheetValues(data))
  {
    var clear := Clear(spreadsheetId, ClearRange);
    if |data| == 0 || !accepts(clear) then [clear]
    else [clear, Update(spreadsheetId, UpdateRange, RawInput, SheetValues(data))]
  }

  /** Whether `updateSheet(spreadsheetId, data)` returns normally rather than throwing. */
  predicate UpdateSheetSucceeds(spreadsheetId: string, data: seq<WarehouseTariff>, accepts: SheetRequest -> bool) {
    && accepts(Clear(spreadsheetId, ClearRange))
    && (|data| > 0 ==> accepts(Update(spreadsheetId, UpdateRange, RawInput, SheetValues(data))))
  }

  /**
   * `updateSheet`: clear the sheet's range; when there is data, write the
   * header row and one row per tariff from A1. Stops at the first request
   * that throws.
   */
  method UpdateSheet(sheets: SheetsApi, spreadsheetId: string, data: seq<WarehouseTariff>) returns (ok: bool)
    modifies sheets
    ensures sheets.requests == old(sheets.requests) + UpdateSheetRequests(spreadsheetId, data, sheets.accepts)
    ensures ok == UpdateSheetSucceeds(spreadsheetId, data, sheets.accepts)
  {
    if |data| == 0 {
      ok := sheets.Send(Clear(spreadsheetId, ClearRange));
      return;
    }
    var cleared := sheets.Send(Clear(spreadsheetId, ClearRange));
    if !cleared {
      ok := false;
      return;
    }
    var values := SheetValues(data);
    ok := sheets.Send(Update(spreadsheetId, UpdateRange, RawInput, values));
  }
}
