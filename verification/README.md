# Vivijure control plane: verified models

Dafny models of the parts of the control plane whose correctness spans several functions, and proofs of what they
keep. The code's own statements are modelled (`src/store-d1.ts` and the migrations), not only the contracts its
comments state. Instants are integers in milliseconds since 1970; where the source compares ISO text, the modules say
for which years that is the same.

* **LLM metering.** `Calendar`, `GatewayLog`, `Rollup`, `SpendStore` and `SpendWindow` model the month arithmetic, the
  gateway's listing, the page walk, the spend tables and the window read. `IngestMachine` is a step machine of log
  arrivals, clock ticks and any number of concurrent roll-ups, each of which may die at every point; `Ingest` is the
  imperative `ingestLlmSpend`, proved to do only what a path of that machine does. `IngestRecord` proves that a filed
  period says what its run heard of the gateway, `IngestSafety` that no row is skipped or stored twice and when a window
  is frozen, `MonthTotals` conservation over months and tiling of time. `Settlement` models the debit decision, the
  ledger and the settlement run, `Billing` puts ingestion and settlement together, and `EarlySettlement` and
  `CappedMonth` are the runs that show why its conditions are needed.
* **Key rotation.** `KekRotation` models the census and the compare-and-set sweep over an abstract cipher that opens a
  sealed text under its own key and no other, interleaved with provisions.
* **Provision driver.** `JobDriver` models the lease protocol over one job row; `DriveLoop` the budgeted cron loop.
* **Migrations.** `SqlComments` compares the comment stripper with an independent lexer; `Migrations` models the
  resumable runner over a database that may stop answering after any call.
* **Text tools.** `Changelog` models the release assembler and the guard that reads its output, `FenceScanner` the
  pull request guard's scanner, `TagRegex` the rewritten version tag pattern. `Basics` and `Lines` hold the string
  operations they share.

`dafny verify dfyconfig.toml` checks the whole project.

## Where the code and its comments differ

Each of these is a theorem below; the model follows the code. Where a comment fails, a member named here shows an input
or a run, and another says exactly when it holds.

* A closed period is not yet final. The settlement guard asks only whether the month has ended, but a roll-up that
  started in the month opens its period later: `EarlySettlement.ClosedGuardIsNotEnough` is a run in which January 1970
  is settled at 5 and then reads complete with 12. The exact condition is `IngestSafety.FrozenExactly`.
* Periods do not tile time over every run. They do if and only if, at each opening of a period, the latest period is
  the one the run saw when it read the last end, or ends where that one did, and the run did not start before that end
  (`MonthTotals.RunsTileExactly`). Overlapping runs can break the tiling (`MonthTotals.OverlappingRunsLeaveAGap`) and
  need not (`MonthTotals.OverlappingRunsCanTile`).
* The monthly reads add up to all stored spend unless a month has more periods than one read takes and the tenant has
  events under those beyond (`MonthTotals.SpendConservedExactly`); `CappedMonth.SpendBeyondTheCap` is such a run for
  every cap.
* A bounded sweep always takes the same first `limit` rows, so repeating it never reaches the others
  (`KekRotation.ConvergesExactly`); `KekRotation.OneRowTooMany` is such a table for every limit.
* `setJobRunning` has no status predicate, so a late first driver, or a resumed one that goes back over the early steps,
  reopens a terminal job (`JobDriver.TerminalReopenedExactly`, `JobDriver.LateFirstDriverReopens`).
* The heartbeat, the progress write and the yield have no owner check. A driver that was silent for longer than its
  lease can share the job with its successor, by any of the three or by closing a job that is then reopened
  (`JobDriver.LateBeat`, `JobDriver.LateProgress`, `JobDriver.LateYield`, `JobDriver.LateReopening`). Which steps
  keep one lease covered by the row is `JobDriver.StepKeepsExclusiveExactly`, over which runs two leases are never live
  is `JobDriver.AtMostOneLeaseExactly`.
* The log line `drained` is also written when a candidate's slice ran out while its job was still moving
  (`DriveLoop.DrainedWhileMoving`, `DriveLoop.DrainedIsHonestExactly`), and a tenant the tick reached but never looked
  at is not counted as deferred (`DriveLoop.UnseenNotDeferred`, `DriveLoop.ReachedUnseen`).
* A stop between a migration's statements and its record makes the next run execute it again, or, for the first
  migration, record every migration unrun (`Migrations.ExactlyOnceExactly`, `Migrations.AdoptedTooEarly`). Such a stop
  is reached by any run that gets four calls (`Migrations.FirstGapIsReached`, `Migrations.SecondFileNeverRuns`).
* `trim` removes characters that a database may not count as whitespace (`SqlComments.TokensKeptExactly`, and
  `SqlComments.NoBreakSpaceGoes` for a leading no-break space).
* The assembler's refusal is narrower than the guard's reading: `## v1.2.3-rc1` reads as v1.2.3 to the guard and the
  assembler promotes v1.2.3 all the same (`Changelog.CandidateSlipsThrough`, `Changelog.RefusalNoticesExactly`); and
  `strip` brings an indented `## ` line of the content to the margin, where it ends the new section
  (`Changelog.StripMakesAHeading`). When neither happens is `Changelog.GuardReportExactly`.
* ISO text order is time order exactly between years written in the same form: an instant of year 10000 on sorts before
  one of year 0 to 9999 (`Calendar.IsoOrderExactly`, `Calendar.IsoOrderTurnsAfter9999`). Years 0 to 99 are read as 1900
  to 1999 (section 21.4.3.4 of ECMA-262).

## Model

| member | source | states |
|---|---|---|
| `Calendar.WindowContainsInstantExactly` | src/meter-period.ts:40-52 | The billing window made for an instant holds that instant if and only if its year is not 0 to 99; those years fall to the two-digit rule of `Date.UTC`. |
| `Calendar.ContainingIsMonth` | src/meter-period.ts:40-52 | From year 100 on (and before year 0) the window is exactly the month that holds the instant, December and leap years included; for years 100 to 9999 its key spells that year in four digits and that month in two. |
| `Calendar.WindowsPartition` | src/meter-period.ts:40-52 | From year 100 on, any two instants share a window or have windows that do not meet, and the window of the end instant starts where this one ends. |
| `Calendar.LastClosedAdjoins` | src/meter-period.ts:63-84 | The last closed period ends exactly where the current one starts, so it is closed and the current one is not (from February of year 100 on). |
| `Calendar.KeyRoundTrip` | src/meter-period.ts:87-98 | The key of any period of years 100 to 9999 parses back to that same period. |
| `Calendar.KeysDistinct` | src/meter-period.ts:28-52 | Two instants of years 100 to 9999 have the same key exactly when they lie in the same month. |
| `Calendar.ParseAcceptsExactly` | src/meter-period.ts:87-98 | Which strings parse: exactly four digits, a dash and a month 01 to 12, from year 0100 on; everything else is refused. |
| `Calendar.MonthIndexUnique` | src/meter-period.ts:40-52 | Every instant lies in exactly one month of the month line. |
| `Calendar.MonthLengths` | src/meter-period.ts:40-52 | The month line itself: January 1970 starts at 0 and every month has its 31, 30, 28 or 29 days, February by the Gregorian rule; with the row above this fixes every window. |
| `Calendar.TwoDigitYearWindow` | src/meter-period.ts:40-52 | What the years 0 to 99 get instead: the same month 1900 years later, under a key that names the early year. |
| `Calendar.KeySpelled` | src/meter-period.ts:28-52 | A key spells the year in four decimal digits, a dash and the month, counted from 1, in two. |
| `Calendar.IsoOrderIsTimeOrder` | src/llm-spend-window.ts:56-62 | For years 0 to 9999, comparing two ISO strings as text is comparing the two instants. |
| `Calendar.IsoOrderExactly` | src/llm-spend-window.ts:56-62 | For any two instants of years 0 to 999999, comparing their ISO strings as text is comparing the instants if and only if both years are up to 9999 or both are later. |
| `Calendar.IsoOrderTurnsAfter9999` | src/llm-spend-window.ts:56-62 | Any instant of years 10000 to 999999 has an ISO string that sorts before that of any instant of years 0 to 9999. |
| `GatewayLog.FilteredIsPrefix` | src/ai-gateway-logs.ts:50-73 | Rows that arrive at the end only extend the filtered list: what was listed before stays its prefix. |
| `GatewayLog.FilteredMembers` | src/ai-gateway-logs.ts:57-69 | A row is listed exactly when it is in the log and its whole second is not before the watermark's second. |
| `GatewayLog.FilteredAscends` | src/ai-gateway-logs.ts:50-56 | The filtered list of a log in creation order is in creation order. |
| `GatewayLog.PageAt` | src/ai-gateway-logs.ts:77-103 | A page is the contiguous piece of the list after its offset, at most `perPage` rows, and a short page ends the list. |
| `GatewayLog.EventOfRow` | src/llm-spend-rollup.ts:120-141 | Every parseable row of a page becomes an event. |
| `GatewayLog.RowOfEvent` | src/llm-spend-rollup.ts:120-141 | Every event comes from a row of the page that parses to it. |
| `GatewayLog.ParseSpelled` | src/llm-spend-rollup.ts:88-141 | Which rows become events, over their own fields: an id that is more than blanks and a time; id and tenant lose the blanks around them, a blank or absent tenant is none, and a cost that was not reported stays unknown, never zero. |
| `Rollup.NewestOccurredAt` | src/llm-spend-rollup.ts:144-148 | The loop returns an instant that some event has and no event exceeds, and nothing exactly for an empty batch. |
| `Rollup.GatewayLogReader.List` | src/ai-gateway-logs.ts:152-241 | One listing: the page of the log as it stands at that call, or a failure. |
| `Rollup.ParsePage` | src/llm-spend-rollup.ts:180-190 | One page row by row: exactly the parseable rows become events and the others are counted as dropped. |
| `Rollup.CollectSince` | src/llm-spend-rollup.ts:171-196 | With rows arriving between page reads the walk has read a contiguous prefix of the filtered list, no row twice and none missing; `exhausted` means it was the whole list at the last read, otherwise exactly the capped number of full pages was read; rows seen are events plus dropped. It throws only when a listing it needed failed. |
| `Rollup.RunRollup` | src/llm-spend-rollup.ts:207-288 | What a run reports, over the probe, the listings and the rows they brought: `complete` exactly when the rows are the whole list at the last listing, its page was short and nothing was deleted unread; `failed` exactly when the probe or a wanted listing did not answer, and then it reports no row; the control passed exactly when the probe reported rows; the gap flag, the events, the counts and the newest instant are those of what was read. |
| `Rollup.DecisionIsTruthful` | src/llm-spend-rollup.ts:226-287 | Each of the decisions a run can reach says exactly that. |
| `Rollup.ReadUpToNewest` | src/llm-spend-rollup.ts:171-196 | Every parseable row from the watermark up to the newest event read was itself read. |
| `Rollup.CrowdedSecondStallsExactly` | src/ai-gateway-logs.ts:70-73 | A run leaves the cursor in its second exactly when every parseable row it read lies in that second, and then the next run meets the same rows first on any later log: a second with more rows than a run can page is never left. |
| `Rollup.NoGapWithoutDeletion` | src/llm-spend-rollup.ts:207-288 | Without retention deletion a watermark taken from the log never raises the gap flag. |
| `SpendStore.InsertAllStores` | src/store-d1.ts:1652-1694 | INSERT OR IGNORE keeps every stored row where it is, keeps source ids unique, and afterwards every id of the batch is stored. |
| `SpendStore.InsertAllUnder` | migrations/0015_llm_spend_rollup.sql:100-113 | What a batch adds is appended and filed under the batch's own period. |
| `SpendStore.LastPeriodEnd` | src/store-d1.ts:1623-1629 | The latest `window_end` of any period row, and none exactly when there is none. |
| `SpendStore.Advanced` | src/store-d1.ts:1703-1716 | The watermark upsert keeps the larger of the stored and the new instant. |
| `SpendStore.LlmSpendD1.OpenLlmRollupPeriod` | src/store-d1.ts:1631-1650 | Adds exactly the given period row and changes nothing else. |
| `SpendStore.LlmSpendD1.WriteBatch` | src/store-d1.ts:1652-1694 | Adds the batch's new rows under the period and returns how many were new. |
| `SpendStore.InsertAllTwice` | src/store-d1.ts:1652-1694 | Writing a list of events in two batches stores what writing it in one would. |
| `SpendStore.LlmSpendD1.CloseLlmRollupPeriod` | src/store-d1.ts:1696-1701 | The named period, and no other, gets the count and the finish time; its window and flags stay, and so does every other row and their order. |
| `SpendStore.LlmSpendD1.AdvanceLlmWatermark` | src/store-d1.ts:1703-1716 | Afterwards the watermark is the later of the stored and the new instant, or the new one when none was stored. |
| `IngestMachine.StepKeepsInv` | src/llm-spend-ingest.ts:92-147 | Every step of the ingest machine (arrival, clock, each read, each page, each of the four ordered writes, each batch, death at any point) keeps the whole-system invariant. |
| `IngestMachine.ExecKeepsInv` | src/llm-spend-ingest.ts:92-147 | So does every run of the machine from the empty system. |
| `IngestMachine.PrefixResultSound` | src/llm-spend-rollup.ts:171-196 | What a walk read from the stored watermark on covers every earlier unread row up to the newest instant it would advance to. |
| `IngestMachine.ChunkCovers` | src/store-d1.ts:1652-1694 | A batch moves its events from pending to stored, so coverage of the log is kept when a run dies between batches. |
| `IngestSafety.NoSkippedRow` | src/llm-spend-ingest.ts:92-147 | Over every interleaving of arrivals, concurrent runs, page caps and deaths: a parseable row created before the stored watermark is stored. |
| `IngestSafety.WatermarkMonotone` | src/store-d1.ts:1703-1716 | No step moves the watermark back. |
| `IngestSafety.EventsFrozen` | src/llm-spend-ingest.ts:40-46 | Over every run a stored event is never removed, replaced or moved to another period, and no source id is stored twice. |
| `IngestSafety.FinishedCountTrue` | src/llm-spend-ingest.ts:73-127 | The count in a finished period is exactly the number of rows stored under it. |
| `IngestSafety.DeadRunBlocksItsMonth` | src/llm-spend-window.ts:116-124 | A run that died after opening its period keeps every window that holds its start incomplete for ever. |
| `IngestSafety.FrozenExactly` | src/llm-spend-ingest.ts:93-127 | A window reads the same over every future if and only if the clock has passed its end and every run that started in it has closed its period or died. |
| `IngestSafety.InFlightCanChange` | src/llm-spend-ingest.ts:93-117 | Concretely: a run in flight that started in the window can still change what the window reads, because `startedAt` is taken before paging and the period opens after it. |
| `IngestSafety.OpenWindowCanChange` | src/llm-spend-ingest.ts:93-117 | Before the window's end some future run changes what it reads. |
| `IngestRecord.FiledAsHeard` | src/llm-spend-ingest.ts:92-117 | Over every interleaving of runs: a period is filed complete exactly when its run's probe answered, its walk read the list to the end and no row was deleted unread; its failed status, control and gap flags say what that run heard in the same way. |
| `IngestRecord.CompleteMonthWasHeard` | src/llm-spend-window.ts:116-150 | A month that reads complete was listed to the end of the gateway's log by each of its runs, after a probe that reported rows and with nothing lost before it. |
| `IngestRecord.WatermarkHeard` | src/llm-spend-ingest.ts:128-147 | The watermark moves only at the last step of a run whose probe reported rows, and then to the newest of the rows it listed, unless it already stood later. |
| `IngestRecord.StepOnRecord` | src/llm-spend-ingest.ts:92-147 | Each step of the machine keeps that agreement between the filed rows and what was heard. |
| `Ingest.IngestLlmSpend` | src/llm-spend-ingest.ts:92-163 | One call: its result is that of the probe and of the walk it made; the store is left exactly as its first `lives` writes leave it, and it reports an outcome exactly when it survives them all. Whatever it does is what a path of the machine does, so every theorem about machine runs holds of it. |
| `Ingest.SurvivorIsWhole` | src/llm-spend-ingest.ts:103-147 | A call that survives its writes leaves every event of its walk stored once, its period closed with the number of rows stored under it, and the watermark moved to the maximum exactly when the control passed and there was a newest event. |
| `Ingest.WritesSpelled` | src/llm-spend-ingest.ts:103-147 | What any number of writes leaves behind, write by write: the period row with the run's own window, status and flags, then 50 events a batch, then the row closed with the rows they added, then the watermark, moved only when the control passed. |
| `Ingest.WritesCounted` | src/llm-spend-ingest.ts:103-147 | How many writes that takes: one, one for each 50 events or part of them, one, and one more for a trusted watermark. |
| `Ingest.RecordRun` | src/llm-spend-ingest.ts:103-147 | The four ordered writes open, events, close, watermark: exactly the first `lives` of them land, as the machine's steps in that order, and it reports an outcome exactly when all did. |
| `Ingest.WriteLlmSpendEvents` | src/store-d1.ts:1652-1694 | Exactly the first `lives` batches are stored; it returns, with the number of new rows, exactly when that is all of them. |
| `Ingest.AdvanceIfTrusted` | src/llm-spend-ingest.ts:128-147 | The watermark advances only when the control passed and there is a newest event. |
| `Ingest.CloseAndAdvance` | src/llm-spend-ingest.ts:119-147 | With one write left the period is closed with the true count, with two the watermark is moved as well when it is trusted; with none nothing happens, and it reports exactly when the writes it owes were made. |
| `Ingest.WalkMatches` | src/llm-spend-rollup.ts:171-196 | A walk of the reader is a walk of the machine that read the same rows with the same outcome. |
| `SpendWindow.BelongsByText` | src/llm-spend-window.ts:56-62 | For years 0 to 9999 the text test puts a period into a window exactly when its end instant lies in the window. |
| `SpendWindow.SummariseWindow` | src/llm-spend-window.ts:85-171 | A window is complete exactly when it has periods, each finished, paged to the end, control passed and without a gap, nothing truncated and nothing unpriced; and it gives exactly the reasons that hold, with their counts. |
| `SpendWindow.ReadSpend` | src/store-d1.ts:1718-1814 | The read itself, census and aggregate by loops: its answer is the one the theorems are about, it gives a reason exactly when it is not complete, and truncation exactly when the window has more periods than the cap. |
| `SpendWindow.ReadCompleteExactly` | src/llm-spend-window.ts:85-171 | A read is complete if and only if the window has between one and the cap's number of periods, each finished, complete, control passed and without a gap, and no event of the tenant under any of them lacks a cost. |
| `SpendWindow.ReadCounts` | src/store-d1.ts:1775-1812 | The requests it reports are the tenant's events under the first periods of the window up to the cap, and the unpriced ones those among them without a cost. |
| `SpendWindow.ReadCosts` | src/store-d1.ts:1775-1812 | Its cost is 0 for no events, and each further event adds its cost exactly when it is one of those and has one. |
| `SpendWindow.SummedAreTheFirst` | src/store-d1.ts:1775-1800 | The first periods are those with fewer than the cap's number before them, by end and then by id; their ids, and no others, are summed over. |
| `SpendWindow.ReportedAreSummed` | src/store-d1.ts:1765-1775 | The census reports as many periods as there are, up to the cap, and the sum covers precisely the periods reported. |
| `SpendWindow.CountWhere` | src/llm-spend-window.ts:93-149 | The filter counts how many periods of the window have the fault. |
| `SpendWindow.SliceInSpan` | src/store-d1.ts:1718-1814 | The aggregate sums only events of periods the census of the same window reports. |
| `SpendWindow.SameWindowSameRead` | src/store-d1.ts:1718-1814 | Two stores that agree on a window's periods and events give the same read of it. |
| `SpendWindow.PartialPeriodBlocks` | src/llm-spend-window.ts:116-124 | An unfinished or partial period makes its window incomplete. |
| `MonthTotals.ReadSumsWindow` | src/store-d1.ts:1718-1814 | A census that is not cut off bills every event of its window and no other. |
| `MonthTotals.WindowsSplit` | src/llm-spend-window.ts:42-62 | Two adjoining windows share out the events of their union. |
| `MonthTotals.SpendConserved` | src/llm-spend-window.ts:42-62 | In every reachable state, once the months read cover every period and no month has more periods than one read takes, the monthly reads of a tenant add up to all its stored spend: priced cost, requests and unpriced requests. |
| `MonthTotals.SpendConservedExactly` | src/store-d1.ts:1718-1814 | With no bound on the periods of a month: they add up if and only if each of the tenant's events lies under a period that is among the first `max` of its month in the order of the read. |
| `CappedMonth.SpendBeyondTheCap` | src/store-d1.ts:1718-1814 | For every cap, a run that leaves one period more than the cap in January 1970 and the tenant's only event under the last: the reads of the month do not add up to its stored spend. |
| `MonthTotals.PeriodInOneMonth` | src/llm-spend-window.ts:42-62 | A period belongs to exactly one month. |
| `MonthTotals.SequentialRunsTile` | src/llm-spend-ingest.ts:103-117 | One run at a time, the periods tile time: each starts where the last one ended. |
| `MonthTotals.InitialTiles` | src/llm-spend-ingest.ts:103-117 | The empty system has the sequential runs' tiling invariant. |
| `MonthTotals.OpenTilesExactly` | src/llm-spend-ingest.ts:93-117 | Opening a period keeps a tiling if and only if its window starts where the latest period ends and not after the run's own start. |
| `MonthTotals.RunsTileExactly` | src/llm-spend-ingest.ts:93-117 | Over every interleaving of runs the periods tile time if and only if at each opening no other period was opened since that run read the last end (or the latest ends exactly there), and the run did not start before that end. |
| `MonthTotals.TilesCover` | src/llm-spend-ingest.ts:103-117 | Every instant between the first and the last period end lies in exactly one period. |
| `MonthTotals.InitialSeen` | src/llm-spend-ingest.ts:103-117 | The empty system, where no run has read anything yet, is where such runs start. |
| `MonthTotals.OverlappingRunsLeaveAGap` | src/llm-spend-ingest.ts:103-117 | A reachable state in which two overlapping runs gave periods that do not tile. |
| `MonthTotals.OverlappingRunsCanTile` | src/llm-spend-ingest.ts:93-117 | And one in which two runs overlap, both still in flight, and their periods tile. |
| `Settlement.RefsDistinct` | src/meter-debit.ts:64-66 | Two idempotency references are equal only for the same meter and the same period key. |
| `Settlement.DecisionExactly` | src/meter-debit.ts:78-165 | When a period is billed and when not: a debit exactly for an observed period with usable figures and more used than allowed, and then the debit and the allowance add up to the usage; within exactly when not more was used; otherwise exactly the first reason that applies. |
| `Settlement.CreditLedger.AppendLedgerRow` | src/store-d1.ts:1409-1454 | A row is added only when the tenant has none under its reference; otherwise the ledger is unchanged and the stored row comes back. |
| `Settlement.SettleMeterOverage` | src/meter-settle.ts:60-118 | The only path from a decision to a ledger row: what it writes, what it reports, and that a throwing append wrote nothing. |
| `Settlement.RunLlmSettlement` | src/meter-settle-run.ts:69-142 | Each of the four counters counts its outcomes and they sum to `considered`, the ledger sum changes by exactly minus the reported total, and rows and outcomes are those of the pass over the live tenants. |
| `Settlement.PassKeepsUnique` | src/meter-settle-run.ts:69-142 | Whatever periods are settled, a tenant has at most one row per reference. |
| `Settlement.SecondPassWritesNothing` | src/meter-settle-run.ts:69-142 | Settling the same period again over the same readings writes nothing. |
| `Settlement.PassCharges` | src/meter-debit.ts:78-165 | After a run over the period a tenant not charged before is charged what its decision says, or nothing when it was not reached or its append threw; a tenant already charged keeps its charge. |
| `Settlement.PassAddsDebits` | src/meter-settle.ts:60-118 | Every row a run adds is the debit of a live tenant whose window read complete and over its allowance: kind, sign, amount, metered cost, reference and id. |
| `Settlement.OutcomeSpelled` | src/meter-settle-run.ts:96-131 | The outcome of each tenant tells what happened: debited, already settled, within, or the reason, and `settlement threw` exactly when the read or the append threw. |
| `Settlement.CountsSpelled` | src/meter-settle-run.ts:96-142 | Each of the four counters is the number of outcomes of its kind. |
| `Settlement.LiveSpelled` | src/meter-settle-run.ts:73-84 | A run walks every tenant that is not deleted, in order, and no other. |
| `Settlement.OtherPeriodLeavesCharge` | src/meter-debit.ts:64-66 | A run over another period leaves this period's charge alone. |
| `Settlement.SettledBalance` | src/meter-settle-run.ts:69-142 | A pass lowers the ledger's sum by the total it reports. |
| `Billing.SettledFigureFinal` | src/index.ts:2679-2687 | Once a month is frozen, whatever ingestion and settlements follow and whatever allowances they use, set or not: the month reads the same, and the ledger holds for a tenant what it already held or, when it held nothing, exactly what the first settlement to reach it with something owed was owed. |
| `Billing.OneAllowanceSettles` | src/index.ts:2679-2687 | When the month's settlements that have an allowance agree on it, that is `max(0, used - allowance)` of a complete month, charged by the first of them to reach the tenant, and nothing otherwise. |
| `Billing.OneDebitPerPeriod` | src/index.ts:2658-2736 | Over any moves at all there is at most one debit per tenant, meter and period. |
| `Billing.SettlesOnlyClosedMonths` | src/index.ts:2679-2687 | A settlement is let through exactly when its month has a key and has ended. |
| `EarlySettlement.ClosedGuardIsNotEnough` | src/index.ts:2679-2687 | The closed-period guard alone does not give finality: one run of ingestion and settlement in which January 1970 has ended, reads complete with 5 and is settled at 5, then reads complete with 12, is settled again, and the charge is still 5. |
| `KekRotation.KekCensus` | src/kek-rotation.ts:76-101 | Every listed row is counted in exactly one bucket, `unreadable` lists the slugs of exactly the rows no key opens, `safe_to_promote` holds exactly when every listed row is on the write key, and the window and slot reported are the ring's. |
| `KekRotation.LawfulCipherExists` | src/token-crypto.ts:101-137 | What is assumed of the cipher can be met: a lawful one with two usable keys, and under it a row of each bucket. |
| `KekRotation.BucketSpelled` | src/token-crypto.ts:101-137 | The buckets over the keys: on target when the installed key of the write slot opens the row, to rotate when only the other one does, unreadable when neither does; and which text is read. |
| `KekRotation.EncryptSpelled` | src/token-crypto.ts:101-137 | A token is sealed under the installed, usable key of the write slot, or encryption refuses. |
| `KekRotation.UnreadableSpelled` | src/kek-rotation.ts:85-93 | The slugs named are exactly those of rows that no installed key opens. |
| `KekRotation.CountZeroMeansNone` | src/kek-rotation.ts:76-101 | A bucket counts zero exactly when no row is in it. |
| `KekRotation.TokenStore.SetTenantStudioTokenIfUnchanged` | src/store-d1.ts:581-591 | The compare-and-set writes exactly when the row still holds the expected text, and says whether it did. |
| `KekRotation.RotateOne` | src/kek-rotation.ts:147-183 | One row of the sweep: skipped, rotated, raced or unreadable, and the table it leaves. |
| `KekRotation.SweepRow` | src/kek-rotation.ts:147-183 | One turn of the sweep's loop with provisions landing between the listing and the write: which outcome it reports, `rotated` rather than `raced` exactly when the row still held what was listed, and the table it leaves. |
| `KekRotation.SweepReencrypt` | src/kek-rotation.ts:133-186 | The sweep refuses outside a window, leaves the table exactly as its steps and the racing provisions do, and examined = skipped + rotated + raced + unreadable, where `rotated` is the number of writes that found the row as listed and `unreadable` lists the slugs of exactly the rows no key opens. |
| `KekRotation.StepKeepsTokens` | src/kek-rotation.ts:133-186 | No sweep step and no provision loses a token: every known row decrypts to the last one provisioned. |
| `KekRotation.RotationNeverLosesAToken` | src/kek-rotation.ts:133-186 | The same over every interleaving of sweep steps and provisions. |
| `KekRotation.UnreadableNeverRewritten` | src/kek-rotation.ts:158-166 | A sweep never writes a row that no installed key opens. |
| `KekRotation.QuietSweep` | src/kek-rotation.ts:133-186 | After k rows of an unraced sweep the listing is the original one with its first k rows done. |
| `KekRotation.RepeatedSweeps` | src/kek-rotation.ts:146-146 | However often it runs, a bounded sweep works on the same first `limit` rows. |
| `KekRotation.ConvergesExactly` | src/kek-rotation.ts:103-146 | After any number of unraced sweeps no row needs rotation if and only if none beyond the first `limit` did. |
| `KekRotation.OneRowTooMany` | src/kek-rotation.ts:133-146 | For every limit, a table of one row more that still has a row needing rotation after any number of unraced sweeps. |
| `KekRotation.SafeCensusMeansAllOnTarget` | src/kek-rotation.ts:76-101 | A census that says safe to promote means every listed row is on the write key. |
| `KekRotation.PromotionIsSafe` | src/kek-rotation.ts:76-101 | Then dropping the other key changes no tenant's token, now or after any later steps whose mints use the write slot. |
| `KekRotation.MintUnderOtherKeyBreaksPromotion` | src/token-crypto.ts:101-137 | A mint after the census keeps promotion safe if and only if its key is the write key. |
| `JobDriver.LeaseReadings` | src/store.ts:343-359 | The worker's millisecond reading and the statements' second reading of a lease never contradict each other, and leave exactly one second in which it is neither live nor free. |
| `JobDriver.DriveJobIfNeeded` | src/index.ts:1170-1275 | What one poll does to the store and reports, for every row it read and every row it finds: nothing, a reap that fails the tenant only if it closed the job itself, or a dispatch after a won claim of a provision that was running when read. |
| `JobDriver.TerminalReopenedExactly` | src/store-d1.ts:673-682 | A step changes a terminal job's status if and only if it is a `setJobRunning`, of the first driver or of a resumed one going back over the early steps, while the lease is free, since that statement has no status predicate. |
| `JobDriver.TerminalIsFinal` | src/store-d1.ts:772-787 | Without a late `setJobRunning` a terminal job keeps its status over every run. |
| `JobDriver.LateFirstDriverReopens` | src/store-d1.ts:673-682 | A concrete run: a queued job reaped as stale reads as running again beside a failed tenant. |
| `JobDriver.TenantFailsOnlyWithItsJob` | src/index.ts:1213-1245 | Over every run a poll fails the tenant only if that same poll's reap closed the job. |
| `JobDriver.CloserClosed` | src/index.ts:1213-1245 | And it counts as having closed the job only by the write that turned the open row into a failed one. |
| `JobDriver.UntouchedReapInv` | src/index.ts:1170-1275 | Any job no driver or poll has touched is where that starts. |
| `JobDriver.PollTouchesOnlyTakenProvisions` | src/index.ts:1176-1275 | A poll never touches a job of another kind and never claims a queued job that no driver has taken. |
| `JobDriver.AtomicPollSparesLiveJob` | src/index.ts:1192-1211 | With the read and the guards as one step, no job with a live lease is reaped or claimed. |
| `JobDriver.LiveJobReapedExactly` | src/index.ts:1211-1245 | With the read apart, a poll closes a live job exactly when the row it had read told it to reap. |
| `JobDriver.SilentDriver` | src/index.ts:1192-1245 | A run whose first driver reports nothing for longer than the staleness cap. |
| `JobDriver.BeatBetweenReadAndReap` | src/index.ts:1211-1245 | And that happens: from there, its heartbeat between a poll's read and write makes the job live, and it is reaped. |
| `JobDriver.OnlyAgeEndsAReclaimedJob` | src/index.ts:1114-1141 | A job claimed again at every cron tick is never ended by the staleness rule: once its lease has lapsed the next tick reaps it exactly when its total age is over the cap. |
| `JobDriver.ReapedExactly` | src/index.ts:1192-1245 | Over every run of drivers, polls and heartbeats: a poll that reads and acts in one step closes the job exactly when it is an open provision without a live lease, created more than two hours ago or not worked on for more than ten minutes, where work is a won claim, a progress write or a `setJobRunning` that found the lease free. |
| `JobDriver.BeatsAreNoWork` | src/store-d1.ts:715-739 | Heartbeats and yields do not move that instant. |
| `JobDriver.RowAfterExactly` | src/store-d1.ts:673-787 | The row after any step, column by column: which steps stamp `updated_at`, which set the lease and for how long, which clear it, and which change the status. |
| `JobDriver.OneLiveLeaseExactly` | src/store-d1.ts:689-753 | Over every interleaving of pollers, cron ticks, drivers and the clock: at most one claim's lease is live at every point, and the row's own lease outlives it, if and only if every step is safe, that is, no beat, progress write or yield by a driver without its lease while another holds one, and no `setJobRunning` on a closed row then. |
| `JobDriver.StepKeepsExclusiveExactly` | src/store-d1.ts:673-753 | Any single step keeps that exclusion if and only if it is safe; beat, progress and yield have no owner check, and `setJobRunning` has no status predicate. |
| `JobDriver.AtMostOneLeaseExactly` | src/store-d1.ts:673-753 | Over every interleaving, whatever the row's own lease says: at most one claim's lease is live at every point if and only if each statement that gives a driver a lease does so while no other driver holds one. A late yield or close is then not itself at fault. |
| `JobDriver.CoverLostExactly` | src/store-d1.ts:689-787 | While the row's lease covers every held one, only a late beat or progress write can make two live; and a held lease loses its cover exactly when the row's lease is cleared by a yield or close of another driver or by a reap. |
| `JobDriver.UntouchedExclusive` | src/store-d1.ts:689-700 | Any untouched job is where that starts. |
| `JobDriver.TakenOver` | src/store-d1.ts:689-700 | A run in which a poll has claimed a job from a driver silent for a second longer than its lease. |
| `JobDriver.LateBeat` | src/store-d1.ts:715-724 | From there the old driver's heartbeat leaves two live leases. |
| `JobDriver.LateProgress` | src/store-d1.ts:741-753 | So does its progress write. |
| `JobDriver.LateYield` | src/store-d1.ts:733-739 | Its yield frees the new driver's lease, and the next poll claims beside it. |
| `JobDriver.TakenAgain` | src/index.ts:1270-1275 | The second driver falls silent too, and a poll claims for a third. |
| `JobDriver.LateReopening` | src/provisioner.ts:1254-1269 | From there the first driver closes the job, and the second, going back over the early steps, reopens it with its own `setJobRunning` under the third driver's lease. |
| `DriveLoop.DriveUntilItStops` | src/index.ts:1410-1469 | The inner loop ends, and the visit it logs is exactly what it asked of the plane, reading by reading and pass by pass; no drive starts once the tick budget or the tenant's slice is spent, and a drive follows only one that dispatched and succeeded. |
| `DriveLoop.RunPendingProvisionDrive` | src/index.ts:1363-1507 | The nested loops end; the log of the tick is exactly the new part of the plane's history, from the reading taken as its start, with one entry per candidate, pending tenants first, and every pass of an entry for its tenant; the four counters report it truthfully, and a tick dispatches at most one drive per millisecond of its budget. |
| `DriveLoop.EventIs` | src/index.ts:1363-1507 | What the plane's history is: each reading is the clock at that point plus its delay, each pass the next outcome, in order. |
| `DriveLoop.NoPassOutOfBudget` | src/index.ts:1410-1419 | Every pass in that history comes after a reading within the tick's budget from the first reading and one within the tenant's slice from that tenant's start. |
| `DriveLoop.CountersAreTheHistorys` | src/index.ts:1425-1468 | The drives and errors reported are the dispatches, and the passes that threw or failed, of that history. |
| `DriveLoop.CountersSpelled` | src/index.ts:1425-1468 | `drives` is the number of passes in the history that dispatched, `drive_errors` the number whose drive threw or failed. |
| `DriveLoop.DriveFollowsSuccess` | src/index.ts:1410-1469 | In the history of a visit a pass follows another only when that one dispatched a drive that succeeded, for the same tenant, and after that drive's time. |
| `DriveLoop.DeferredAreASuffix` | src/index.ts:1392-1397 | The deferred tenants are exactly the last `tenants_deferred` candidates. |
| `DriveLoop.ErrorsWithinReachedTenants` | src/index.ts:1425-1468 | `drive_errors` is at most the number of tenants not deferred. |
| `DriveLoop.SliceBoundsATenant` | src/index.ts:1410-1419 | A tenant gets at most one pass per millisecond of its slice. |
| `DriveLoop.ReachedUnseen` | src/index.ts:1392-1419 | A tenant reached but never looked at is not counted as deferred; if the tick's end is why, it is the last one reached. |
| `DriveLoop.UnseenNotDeferred` | src/index.ts:1392-1419 | A tick that does so: its budget runs out between the two checks of its only candidate, and it reports nothing deferred. |
| `DriveLoop.DrainedIsHonestExactly` | src/index.ts:1472-1492 | A tick that reports `drained` left every candidate stopped by its own guards if and only if no candidate's slice ran out. |
| `DriveLoop.DrainedWhileMoving` | src/index.ts:1472-1492 | A tick that reports `drained` while its only candidate was still moving, one successful drive having taken the whole slice. |
| `SqlComments.StripSqlComments` | src/migrate.ts:80-108 | The cursor loop computes the recursive reading of the text that the theorems below are about. |
| `SqlComments.HeadSpelled` | src/migrate.ts:80-104 | Which characters start a quote, a line comment and a block comment, and that each ends at the first place it can. |
| `SqlComments.TokensKeptExactly` | src/migrate.ts:65-108 | For every terminated input and any lexer's whitespace the output has no comment, and it has the input's token sequence if and only if `trim` took nothing off the ends that the lexer does not count as whitespace. |
| `SqlComments.TokensKept` | src/migrate.ts:65-108 | With the whitespace of `trim` itself the token sequence is always kept. |
| `SqlComments.NoBreakSpaceGoes` | src/migrate.ts:107-108 | For every whitespace without the no-break space, a no-break space in front of a statement is a token that `trim` loses. |
| `SqlComments.UnterminatedUnchanged` | src/migrate.ts:77-79 | An input whose quote or block comment never ends, by a lexer that knows doubled quotes, comes back unchanged, and the loop refuses exactly those inputs. |
| `SqlComments.StripIdempotent` | src/migrate.ts:80-108 | Stripping twice is stripping once, on every input. |
| `SqlComments.EmptyExactlyWithoutTokens` | src/migrate.ts:151-154 | The stripped text is empty exactly when the file has no token, so the runner skips exactly the comment-only files. |
| `SqlComments.ScanCopiesLiteral` | src/migrate.ts:82-92 | The adjacent quoted runs the loop copies are exactly the literal with doubled quotes. |
| `Migrations.ApplyStudioMigrations` | src/migrate.ts:123-162 | The runner leaves the database and reports what the run from that database with that many calls does. |
| `Migrations.ReportSpelled` | src/migrate.ts:123-162 | What an uncut run reports is what it did: on an adopted database everything is recorded as seeded and nothing ran; otherwise exactly the missing migrations were recorded, in order, and those of them with statements ran. No name with a quote is ever recorded. |
| `Migrations.ResumesExactly` | src/migrate.ts:123-162 | From a fresh database, over any runs cut after any call but never between a migration's statements and its record: exactly the first migrations are recorded, each ran exactly once and in order, and an uncut run records all. |
| `Migrations.ExactlyOnceExactly` | src/migrate.ts:147-160 | Over any runs that end with an uncut one, every migration with statements ran exactly once in order if and only if no run was cut between a migration's statements and its record, or the first such cut was the first migration's and no other has statements. |
| `Migrations.AppliedInStep` | src/migrate.ts:147-160 | Unless the first such cut is the first migration's, what ran is always what is recorded or that and the next one. |
| `Migrations.AppliedInStepExactly` | src/migrate.ts:133-160 | Over any runs, what ran is what is recorded, or that and the next one, if and only if no run adopted the database after a first cut in the first migration's gap, or no other file has statements. |
| `Migrations.OnceInStepExactly` | src/migrate.ts:133-160 | With every repetition counted and in order, the same holds if and only if besides no run ran again into the first gap when it was a later migration's. |
| `Migrations.OnceInStepThroughout` | src/migrate.ts:133-160 | And it holds after every one of the runs under that same condition. |
| `Migrations.AdoptedTooEarly` | src/migrate.ts:133-145 | After such a cut of the first migration the next run takes the database for an adopted one: everything is recorded, only the first ever ran, and no later run changes that. |
| `Migrations.FirstGapIsReached` | src/migrate.ts:123-162 | On any bundle, a first run that gets four calls stops exactly there. |
| `Migrations.SecondFileNeverRuns` | src/migrate.ts:133-145 | Two files, two runs of four calls: both are recorded and only the first ever ran. |
| `Migrations.RunFromGapAtFirst` | src/migrate.ts:133-145 | What one run makes of that database, by its number of calls. |
| `Migrations.RunFromLaterGap` | src/migrate.ts:147-160 | After a cut in a later gap the next run with three calls runs that migration a second time. |
| `Changelog.SectionBounds` | scripts/changelog-assemble.py:49-64 | The two loops find the first line that is the heading and the next heading after it, or the end. |
| `Changelog.VersionHeadingPresent` | scripts/changelog-assemble.py:67-78 | True exactly when some line is the version's heading, alone or followed by a space or tab. |
| `Changelog.Assemble` | scripts/changelog-assemble.py:96-138 | The assembler refuses, or returns the text that the theorems below are about. |
| `Changelog.ReleaseSpelled` | scripts/changelog-assemble.py:96-138 | The assembled text, piece by piece: everything up to the Unreleased heading, an empty line, the heading line with version and date, an empty line, the release's text, an empty line, and everything from the next heading on; the text is the stripped legacy text and then every fragment, whole, in order, one empty line apart. |
| `Changelog.FragmentsKept` | scripts/changelog-assemble.py:118-122 | Every fragment that strip has cleaned, as read from its file, stands whole at its place in that text, and so does the legacy text, which comes first. |
| `Changelog.NothingStripped` | scripts/changelog-assemble.py:118-122 | When all pieces are such, the text is all of them and nothing else. |
| `Changelog.RefusesExactly` | scripts/changelog-assemble.py:105-116 | The assembler refuses exactly when some line is the version's heading, alone or with a space or tab after it, or when no line is the Unreleased heading. |
| `Changelog.Sections` | scripts/changelog-released-immutable.py:92-118 | The guard's loop returns the dictionary and the duplicates of the ordered list of sections. |
| `Changelog.VersionSpelledOut` | scripts/changelog-released-immutable.py:58-58 | Which heading text the guard takes a version from, character by character: `v`, three numbers with dots between them, and no word character after them. |
| `Changelog.LastSectionWins` | scripts/changelog-released-immutable.py:92-118 | Each version looks up to the text of its last section. |
| `Changelog.DuplicatesSpelled` | scripts/changelog-released-immutable.py:92-118 | A version is reported as a duplicate exactly when it was announced at two places or more. |
| `Changelog.OldSectionsKept` | scripts/changelog-assemble.py:116-138 | Every old section is read back byte for byte and in order, whatever the content. |
| `Changelog.NewSectionExactly` | scripts/changelog-assemble.py:118-131 | The new block reads to the guard as exactly the intended section if and only if no line of the stripped content starts with `## `. |
| `Changelog.ReleaseReadBackExactly` | scripts/changelog-released-immutable.py:92-118 | The guard reads an assembled file as the old sections with exactly the intended new one among them, under that same condition and no other. |
| `Changelog.GuardReadsRelease` | scripts/changelog-released-immutable.py:92-118 | The guard reads the file as the old sections and one more of that version whose text is the heading line, an empty line and the release's text, if and only if no line of that text starts with `## `. |
| `Changelog.SecondRunRefuses` | scripts/changelog-assemble.py:105-112 | A second run for the version refuses, whatever the fragments and the date. |
| `Changelog.EmptiesUnreleased` | scripts/changelog-assemble.py:133-138 | Afterwards one empty line is left under the Unreleased heading. |
| `Changelog.GuardReportExactly` | scripts/changelog-released-immutable.py:92-118 | For any text, fragments, version and date the assembler accepts: the guard's dictionary of the result is the old one with exactly the intended entry put in and its duplicates are the old ones, if and only if no line of the stripped content starts with `## ` and the guard did not read that version in the text. |
| `Changelog.GainsOneEntryExactly` | scripts/changelog-released-immutable.py:92-118 | Of all the lists of sections that could be put in, only the intended one of a new version does that. |
| `Changelog.FreshSectionAdds` | scripts/changelog-released-immutable.py:92-118 | A section of a version not seen before, put in anywhere in the list, leaves every old look-up and the duplicates as they were. |
| `Changelog.RefusalNoticesExactly` | scripts/changelog-assemble.py:67-78 | Of the headings that read as a version to the guard, the assembler notices exactly those that go on with a space, a tab or nothing. |
| `Changelog.CandidateSlipsThrough` | scripts/changelog-assemble.py:67-112 | A text headed `## v1.2.3-rc1`: the guard reads v1.2.3 in it and the assembler promotes v1.2.3. |
| `Changelog.StripMakesAHeading` | scripts/changelog-assemble.py:118-131 | Any heading line indented by a space is prose as it stands, and is a heading in the stripped content. |
| `FenceScanner.BlankFences` | scripts/pr-body-guard.py:104-123 | The scanner blanks exactly the lines from each even-numbered fence through the next one, and nothing after an unpaired last fence. |
| `FenceScanner.StripCode` | scripts/pr-body-guard.py:104-124 | The whole pass is the blanked lines, each with its inline spans taken out on its own. |
| `FenceScanner.FenceSpelled` | scripts/pr-body-guard.py:100-100 | A fence line is up to three spaces and then three backticks, whatever follows. |
| `FenceScanner.InlineSpelled` | scripts/pr-body-guard.py:101-101 | Text without a backtick stays; a backtick and the next one on its line go with all between them and leave a space; one with none after it on its line stays. |
| `FenceScanner.InlinePerLine` | scripts/pr-body-guard.py:101-124 | An inline span never reaches over a line end. |
| `FenceScanner.InlineLeavesOne` | scripts/pr-body-guard.py:101-124 | After the inline pass a line has one backtick when it had an odd number, else none. |
| `FenceScanner.StripKeepsLineCount` | scripts/pr-body-guard.py:113-124 | The output has the body's number of lines. |
| `FenceScanner.StripIdempotent` | scripts/pr-body-guard.py:104-124 | Blanking a blanked body changes nothing. |
| `TagRegex.SameLanguage` | public/onboarding-checks.js:388-397 | The new pattern accepts exactly the strings the old one accepts. |
| `TagRegex.TagSpelled` | public/onboarding-checks.js:388-397 | Which strings are tags, character by character: an optional `v`, three numbers with dots between them, then letters, digits, dots and dashes. |
| `TagRegex.OneReading` | public/onboarding-checks.js:391-397 | In the new pattern the third digit run, and so the whole reading, is uniquely determined. |
| `TagRegex.HasReading` | public/onboarding-checks.js:397-397 | Every accepted tag has such a reading. |
| `TagRegex.OldReadings` | public/onboarding-checks.js:389-393 | In the old pattern every shorter third digit run reads as well. |
| `TagRegex.AmbiguousExactly` | public/onboarding-checks.js:389-393 | The old pattern reads a tag in more than one way if and only if its third number has two digits or more. |

## Left out

- HTTP routing, cookies, headers, JSON bodies, audit records and the admin scope table: plumbing.
- The Cloudflare API client, e-mail, OAuth and bundle storage: network clients over services that are not part of this model.
- Real cryptography: the cipher is any partial function with `decrypt(encrypt(x)) == x` per key; nonces are parameters.
- toMicroUsd: costs are optional non-negative integers in micro-USD; floating point conversion is not modelled.
- Retention deletion in the gateway: the log only grows. The gap flag is modelled, but rows deleted between the probe and the paging are not.
- Tokens, model, slug and cached fields of spend events, and the texts of notes, reasons, refusals and log lines: no decision reads them.
- Credit holds, slug reclaim and teardown, and the provisioner's own steps: their deciding code is not part of this model.
- The onboarding screens and their DOM code apart from the one pattern; `find_hits`, which only searches the blanked text.
- `kekRing`: a ring is any pair of keys and a write slot; how the environment's texts become one is not modelled.
- The page cap of a roll-up and the tenant page limit are parameters.
- SpendWindow.ReadSpend: which periods the census reports is modelled, not the order in which it lists them.
- KekRotation.KekCensus: unreadable slugs are kept in listing order; the source sorts them.
- Settlement.RunLlmSettlement: the store's reads and append failures are parameters; ids and clock readings of ledger rows are not compared.
- Ingest.IngestLlmSpend: between its own writes no other roll-up writes to the store; interleavings of several are runs of the machine. Its three clock readings do not go back.
- Ingest.WriteLlmSpendEvents: one batch is atomic, and a batch the database applied before a lost reply counts as applied.
- DriveLoop.RunPendingProvisionDrive: clock delays and the outcome of each pass are parameters, a dispatched drive takes at least a millisecond, and the two tenant listings are taken as they are, without the page-full log line.
- Migrations.ApplyStudioMigrations: a migration's statements always succeed when executed; a second execution is counted, where the real database may refuse it. A call that is cut has no effect.
- SqlComments.TokensKeptExactly: text is a sequence of code points, and every character the stripper looks for is a single one; which whitespace the database has is a parameter.
- Changelog.Sections: digits and word characters are the ASCII ones; the order of dictionary keys, and what the guard does with git tags, corrections and waivers, are not modelled.
- Changelog.OldSectionsKept: the version and the date are taken to be single lines, as the command line gives them.
- TagRegex.SameLanguage: matching is the mathematical one; the running time of the engine is not modelled, only the number of readings that caused it.
- The remaining modules (`credits`, `settings`, `aup`, `cron-heartbeat`, `constant-time`, `var-census`, `check-release-modules`): they would add only easy members.
