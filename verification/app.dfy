/**
 * `runMainTask` (src/app.ts): fetch, upsert, read back, list the targets,
 * then update every spreadsheet, containing each target's failure.
 */
module App {
  import opened Wrappers
  import opened WbTypes
  import opened ApiErrors
  import opened Migration
  import opened GoogleService
  import WbService
  import DatabaseService
  import Postgres

  /**
   * What the run cannot decide itself: the outcome of the provider request
   * and whether each of the two reads fails on the database connection.
   */
  datatype Environment = Environment(
    fetch: Result<TariffsApiResponse, WbService.RequestFailure>,
    latestReadFails: bool,
    idListFails: bool)

  /** The step whose error the outer `catch` logged. */
  datatype StepFailure = FetchFailed(error: ApiError) | UpsertFailed | LatestReadFailed | IdListFailed

  /** What the loop logged for one spreadsheet. */
  datatype TargetOutcome = TargetOutcome(spreadsheetId: string, updated: bool)

  /** What a run logs. The run itself always returns normally. */
  datatype RunReport = Completed(targets: seq<TargetOutcome>) | Aborted(failure: StepFailure)

  /** The requests the publish loop sends: each target's `updateSheet` requests, target after target. */
  function PublishRequests(ids: seq<string>, data: seq<WarehouseTariff>, accepts: SheetRequest -> bool): seq<SheetRequest> {
    if |ids| == 0 then []
    else PublishRequests(ids[..|ids| - 1], data, accepts) + UpdateSheetRequests(ids[|ids| - 1], data, accepts)
  }

  /** What the loop logs: for each target, whether its own `updateSheet` returned normally. */
  function PublishOutcomes(ids: seq<string>, data: seq<WarehouseTariff>, accepts: SheetRequest -> bool): seq<TargetOutcome> {
    seq(|ids|, k requires 0 <= k < |ids| => TargetOutcome(ids[k], UpdateSheetSucceeds(ids[k], data, accepts)))
  }

  /** The spreadsheets cleared by a sequence of requests, in order. */
  function ClearedTargets(reqs: seq<SheetRequest>): seq<string> {
    if |reqs| == 0 then []
    else
      var last := reqs[|reqs| - 1];
      ClearedTargets(reqs[..|reqs| - 1]) + if last.Clear? then [last.spreadsheetId] else []
  }

  lemma {:induction false} ClearedTargetsAppend(a: seq<SheetRequest>, b: seq<SheetRequest>)
    ensures ClearedTargets(a + b) == ClearedTargets(a) + ClearedTargets(b)
  {
    if |b| == 0 {
      assert a + b == a;
    } else {
      assert (a + b)[..|a + b| - 1] == a + b[..|b| - 1];
      ClearedTargetsAppend(a, b[..|b| - 1]);
    }
  }

  lemma {:induction false} PublishAppend(a: seq<string>, b: seq<string>, data: seq<WarehouseTariff>, accepts: SheetRequest -> bool)
    ensures PublishRequests(a + b, data, accepts) == PublishRequests(a, data, accepts) + PublishRequests(b, data, accepts)
  {
    if |b| == 0 {
      assert a + b == a;
    } else {
      assert (a + b)[..|a + b| - 1] == a + b[..|b| - 1];
      PublishAppend(a, b[..|b| - 1], data, accepts);
    }
  }

  /** One `updateSheet` call clears its own spreadsheet, once. */
  lemma UpdateSheetClearsOnce(spreadsheetId: string, data: seq<WarehouseTariff>, accepts: SheetRequest -> bool)
    ensures ClearedTargets(UpdateSheetRequests(spreadsheetId, data, accepts)) == [spreadsheetId]
  {
    var own := UpdateSheetRequests(spreadsheetId, data, accepts);
    if |own| == 2 {
      assert own[..|own| - 1] == [own[0]];
      assert [own[0]][..0] == [];
      assert ClearedTargets([own[0]]) == [spreadsheetId];
    } else {
      assert own == [own[0]];
      assert own[..0] == [];
    }
  }

  /** Every spreadsheet is attempted exactly once, in list order: each attempt starts with its clear. */
  lemma {:induction false} PublishAttemptsEachOnce(ids: seq<string>, data: seq<WarehouseTariff>, accepts: SheetRequest -> bool)
    ensures ClearedTargets(PublishRequests(ids, data, accepts)) == ids
  {
    if |ids| > 0 {
      var front := ids[..|ids| - 1];
      var last := ids[|ids| - 1];
      PublishAttemptsEachOnce(front, data, accepts);
      ClearedTargetsAppend(PublishRequests(front, data, accepts), UpdateSheetRequests(last, data, accepts));
      UpdateSheetClearsOnce(last, data, accepts);
      assert PublishRequests(ids, data, accepts)
          == PublishRequests(front, data, accepts) + UpdateSheetRequests(last, data, accepts);
      assert ids == front + [last];
    }
  }

  /**
   * Failure isolation: target k's requests are exactly its own
   * `updateSheet` requests, whatever happened to the targets before it, and
   * the later targets are still attempted.
   */
  lemma PublishIsolated(ids: seq<string>, data: seq<WarehouseTariff>, accepts: SheetRequest -> bool, k: nat)
    requires k < |ids|
    ensures PublishRequests(ids, data, accepts)
         == PublishRequests(ids[..k], data, accepts) + UpdateSheetRequests(ids[k], data, accepts)
          + PublishRequests(ids[k + 1..], data, accepts)
  {
    assert ids == ids[..k] + [ids[k]] + ids[k + 1..];
    PublishAppend(ids[..k] + [ids[k]], ids[k + 1..], data, accepts);
    PublishAppend(ids[..k], [ids[k]], data, accepts);
    assert [ids[k]][..0] == [];
  }

  /** Every write of the publish loop carries the same grid, rendered from the same tariffs, from A1 with RAW input. */
  lemma {:induction false} PublishSameValues(ids: seq<string>, data: seq<WarehouseTariff>, accepts: SheetRequest -> bool)
    ensures forall r | r in PublishRequests(ids, data, accepts) && r.Update? ::
      r.values == SheetValues(data) && r.range == UpdateRange && r.valueInputOption == RawInput && r.spreadsheetId in ids
  {
    if |ids| > 0 {
      PublishSameValues(ids[..|ids| - 1], data, accepts);
      assert ids == ids[..|ids| - 1] + [ids[|ids| - 1]];
    }
  }

  /**
   * The `for` loop of `runMainTask`: `updateSheet` for each spreadsheet in
   * list order with the same tariffs; a throwing target is logged and the
   * loop moves on to the next.
   */
  method PublishAll(sheets: SheetsApi, ids: seq<string>, data: seq<WarehouseTariff>) returns (targets: seq<TargetOutcome>)
    modifies sheets
    ensures sheets.requests == old(sheets.requests) + PublishRequests(ids, data, sheets.accepts)
    ensures targets == PublishOutcomes(ids, data, sheets.accepts)
  {
    targets := [];
    var i := 0;
    while i < |ids|
      invariant 0 <= i <= |ids|
      invariant sheets.requests == old(sheets.requests) + PublishRequests(ids[..i], data, sheets.accepts)
      invariant targets == PublishOutcomes(ids[..i], data, sheets.accepts)
    {
      var updated := UpdateSheet(sheets, ids[i], data);
      targets := targets + [TargetOutcome(ids[i], updated)];
      assert ids[..i + 1][..i] == ids[..i];
      i := i + 1;
    }
    assert ids[..|ids|] == ids;
  }

  /**
   * `runMainTask`: each step runs only when the previous one succeeded; a
   * failure before publishing stops the run with nothing sent to any sheet;
   * in the publish loop a target's failure is logged and the loop goes on.
   */
  method RunMainTask(db: Postgres.Database, sheets: SheetsApi, today: Date, env: Environment) returns (report: RunReport)
    requires db.Valid()
    modifies db, sheets
    ensures db.Valid()
    ensures env.fetch.Failure? ==>
      report == Aborted(FetchFailed(WbService.ToWbApiError(env.fetch.error))) && db.Contents() == old(db.Contents())
    ensures env.fetch.Success? ==>
      db.Contents() == DatabaseService.Upsert(old(db.Contents()), today, env.fetch.value.response.data, db.cast).tables
    ensures report.Completed? <==>
      && env.fetch.Success?
      && DatabaseService.DataFits(env.fetch.value.response.data, db.cast)
      && !env.latestReadFails
      && !env.idListFails
    ensures report.Aborted? && env.fetch.Success? ==>
      report.failure == if !DatabaseService.DataFits(env.fetch.value.response.data, db.cast) then UpsertFailed
                        else if env.latestReadFails then LatestReadFailed
                        else IdListFailed
    ensures report.Aborted? ==> sheets.requests == old(sheets.requests)
    ensures report.Completed? ==>
      var latest := DatabaseService.LatestTariffs(db.Contents(), db.cast);
      var ids := DatabaseService.SpreadsheetIds(db.Contents());
      && sheets.requests == old(sheets.requests) + PublishRequests(ids, latest, sheets.accepts)
      && report.targets == PublishOutcomes(ids, latest, sheets.accepts)
  {
    var fetched := WbService.FetchTariffs(env.fetch);
    if fetched.Failure? {
      report := Aborted(FetchFailed(fetched.error));
      return;
    }
    var committed := DatabaseService.UpsertDailyTariff(db, today, fetched.value.response.data);
    if !committed {
      report := Aborted(UpsertFailed);
      return;
    }
    if env.latestReadFails {
      report := Aborted(LatestReadFailed);
      return;
    }
    var latest := DatabaseService.LatestTariffs(db.Contents(), db.cast);
    if env.idListFails {
      report := Aborted(IdListFailed);
      return;
    }
    var ids := DatabaseService.SpreadsheetIds(db.Contents());
    var targets := PublishAll(sheets, ids, latest);
    report := Completed(targets);
  }
}
