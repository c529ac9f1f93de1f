/**
 The meter's three tables, as the D1 statements of `src/store-d1.ts` change them: the watermark row, the
 roll-up periods and the spend events, each in insertion order.
 */
module SpendStore {
  import opened Basics
  import opened GatewayLog
  import opened Rollup

  datatype Period = Period(
    id: nat, windowStart: int, windowEnd: int, status: Status, controlPassed: bool, gapDetected: bool,
    rowsIngested: nat, finishedAt: Option<int>)

  datatype Stored = Stored(event: SpendEvent, period: nat)

  datatype Store = Store(watermark: Option<int>, periods: seq<Period>, events: seq<Stored>)

  /** The rows one D1 batch carries; a batch is a transaction. */
  const CHUNK: nat := 50

  // ---- the event table ----

  predicate Known(events: seq<Stored>, sourceId: string) {
    exists k :: 0 <= k < |events| && events[k].event.sourceId == sourceId
  }

  function InsertOrIgnore(events: seq<Stored>, e: SpendEvent, period: nat): seq<Stored> {
    if Known(events, e.sourceId) then events else events + [Stored(e, period)]
  }

  function InsertAll(events: seq<Stored>, batch: seq<SpendEvent>, period: nat): (r: seq<Stored>)
    ensures events <= r
  {
    if batch == [] then events
    else InsertOrIgnore(InsertAll(events, batch[..|batch| - 1], period), batch[|batch| - 1], period)
  }

  function CountUnder(events: seq<Stored>, period: nat): (n: nat)
    ensures n <= |events|
  {
    if events == [] then 0
    else CountUnder(events[..|events| - 1], period) + if events[|events| - 1].period == period then 1 else 0
  }

  ghost predicate DistinctSources(events: seq<Stored>) {
    forall i, j | 0 <= i < j < |events| :: events[i].event.sourceId != events[j].event.sourceId
  }

  /** Inserting stores every source id of the batch, keeps ids unique, and counts what it added. */
  lemma {:induction false} InsertAllStores(events: seq<Stored>, batch: seq<SpendEvent>, period: nat)
    requires DistinctSources(events)
    ensures var r := InsertAll(events, batch, period);
            && DistinctSources(r)
            && (forall e | e in batch :: Known(r, e.sourceId))
            && (forall k | |events| <= k < |r| :: r[k].period == period && r[k].event in batch)
            && CountUnder(r, period) - CountUnder(events, period) == |r| - |events|
            && forall other | other != period :: CountUnder(r, other) == CountUnder(events, other)
  {
    if batch != [] {
      var front, last := batch[..|batch| - 1], batch[|batch| - 1];
      InsertAllStores(events, front, period);
      var mid, r := InsertAll(events, front, period), InsertAll(events, batch, period);
      if !Known(mid, last.sourceId) {
        assert r[..|r| - 1] == mid;
        assert r[|mid|].event.sourceId == last.sourceId;
      }
      forall e | e in batch
        ensures Known(r, e.sourceId)
      {
        if e in front {
          var k :| 0 <= k < |mid| && mid[k].event.sourceId == e.sourceId;
          assert r[k] == mid[k];
        }
      }
    }
  }

  /** Writing two batches one after the other is writing them as one. */
  lemma {:induction false} InsertAllTwice(events: seq<Stored>, a: seq<SpendEvent>, b: seq<SpendEvent>, period: nat)
    ensures InsertAll(InsertAll(events, a, period), b, period) == InsertAll(events, a + b, period)
    decreases |b|
  {
    if b == [] {
      assert a + b == a;
    } else {
      InsertAllTwice(events, a, b[..|b| - 1], period);
      assert (a + b)[..|a + b| - 1] == a + b[..|b| - 1];
    }
  }

  /** What a batch adds is filed under its period. */
  lemma {:induction false} InsertAllUnder(events: seq<Stored>, batch: seq<SpendEvent>, period: nat) returns (more: seq<Stored>)
    ensures InsertAll(events, batch, period) == events + more
    ensures forall k | 0 <= k < |more| :: more[k].period == period
  {
    hide Known;
    if batch == [] {
      more := [];
    } else {
      more := InsertAllUnder(events, batch[..|batch| - 1], period);
      var last := batch[|batch| - 1];
      if !Known(events + more, last.sourceId) {
        assert events + more + [Stored(last, period)] == events + (more + [Stored(last, period)]);
        more := more + [Stored(last, period)];
      }
    }
  }

  lemma {:induction false} CountZero(events: seq<Stored>, period: nat)
    requires forall k | 0 <= k < |events| :: events[k].period != period
    ensures CountUnder(events, period) == 0
  {
    if events != [] { CountZero(events[..|events| - 1], period); }
  }

  // ---- the period table ----

  predicate HasPeriod(periods: seq<Period>, id: nat) {
    exists k :: 0 <= k < |periods| && periods[k].id == id
  }

  /** UPDATE ... SET rows_ingested, finished_at WHERE id */
  function ClosePeriods(periods: seq<Period>, id: nat, rows: nat, at: int): (r: seq<Period>)
    ensures |r| == |periods|
  {
    if periods == [] then []
    else
      var last := periods[|periods| - 1];
      ClosePeriods(periods[..|periods| - 1], id, rows, at)
      + [if last.id == id then last.(rowsIngested := rows, finishedAt := Some(at)) else last]
  }

  lemma {:induction false} ClosedAt(periods: seq<Period>, id: nat, rows: nat, at: int, k: nat)
    requires k < |periods|
    ensures ClosePeriods(periods, id, rows, at)[k]
            == if periods[k].id == id then periods[k].(rowsIngested := rows, finishedAt := Some(at)) else periods[k]
  {
    if k < |periods| - 1 { ClosedAt(periods[..|periods| - 1], id, rows, at, k); }
  }

  /** The update is determined by what it does to each row. */
  lemma ClosedIs(periods: seq<Period>, after: seq<Period>, id: nat, rows: nat, at: int)
    requires |after| == |periods|
    requires forall k | 0 <= k < |periods| && periods[k].id != id :: after[k] == periods[k]
    requires forall k | 0 <= k < |periods| && periods[k].id == id :: after[k] == periods[k].(rowsIngested := rows, finishedAt := Some(at))
    ensures after == ClosePeriods(periods, id, rows, at)
  {
    forall k | 0 <= k < |periods|
      ensures ClosePeriods(periods, id, rows, at)[k] == after[k]
    {
      ClosedAt(periods, id, rows, at, k);
    }
  }

  /** SELECT window_end ... ORDER BY window_end DESC LIMIT 1 */
  function LastPeriodEnd(periods: seq<Period>): (r: Option<int>)
    ensures r.None? <==> periods == []
    ensures r.Some? ==> exists k :: 0 <= k < |periods| && periods[k].windowEnd == r.value
    ensures r.Some? ==> forall k | 0 <= k < |periods| :: periods[k].windowEnd <= r.value
  {
    if periods == [] then None
    else
      var front, last := periods[..|periods| - 1], periods[|periods| - 1];
      var best := LastPeriodEnd(front);
      assert periods[|periods| - 1].windowEnd == last.windowEnd;
      if best.Some? && best.value >= last.windowEnd then
        assert exists k :: 0 <= k < |front| && front[k].windowEnd == best.value;
        assert forall k | 0 <= k < |front| :: front[k] == periods[k];
        best
      else Some(last.windowEnd)
  }

  // ---- the watermark ----

  /** ON CONFLICT ... SET last_seen_at = MAX(stored, new): the cursor never moves back. */
  function Advanced(watermark: Option<int>, seen: int): (r: Option<int>)
    ensures r.Some? && r.value >= seen && (watermark.Some? ==> r.value >= watermark.value)
    ensures r.value == seen || r == watermark
  {
    if watermark.Some? && watermark.value >= seen then watermark else Some(seen)
  }

  class LlmSpendD1 {
    var watermark: Option<int>
    var periods: seq<Period>
    var events: seq<Stored>

    ghost function View(): Store
      reads this
    {
      Store(watermark, periods, events)
    }

    constructor ()
      ensures View() == Store(None, [], [])
    {
      watermark, periods, events := None, [], [];
    }

    method ReadLlmWatermark() returns (r: Option<int>)
      ensures r == watermark
    {
      r := watermark;
    }

    method ReadLastPeriodEnd() returns (r: Option<int>)
      ensures r == LastPeriodEnd(periods)
    {
      r := None;
      for i := 0 to |periods|
        invariant r == LastPeriodEnd(periods[..i])
      {
        assert periods[..i + 1][..i] == periods[..i];
        if r.None? || periods[i].windowEnd > r.value {
          r := Some(periods[i].windowEnd);
        }
      }
      assert periods[..|periods|] == periods;
    }

    method OpenLlmRollupPeriod(p: Period)
      modifies this`periods
      ensures periods == old(periods) + [p]
    {
      periods := periods + [p];
    }

    /** One batch of a write: whole or not at all. Returns how many rows the engine wrote. */
    method WriteBatch(periodId: nat, batch: seq<SpendEvent>) returns (written: nat)
      modifies this`events
      ensures events == InsertAll(old(events), batch, periodId)
      ensures written == |events| - |old(events)|
    {
      written := 0;
      for i := 0 to |batch|
        invariant events == InsertAll(old(events), batch[..i], periodId)
        invariant written == |events| - |old(events)|
      {
        assert batch[..i + 1][..i] == batch[..i];
        if !Known(events, batch[i].sourceId) {
          events := events + [Stored(batch[i], periodId)];
          written := written + 1;
        }
      }
      assert batch[..|batch|] == batch;
    }

    /** The named period, and no other, gets the count and the finish time; its window and flags stay. */
    method CloseLlmRollupPeriod(periodId: nat, rows: nat, at: int)
      modifies this`periods
      ensures |periods| == |old(periods)|
      ensures forall k | 0 <= k < |periods| && old(periods)[k].id != periodId :: periods[k] == old(periods)[k]
      ensures forall k | 0 <= k < |periods| && old(periods)[k].id == periodId ::
                periods[k] == old(periods)[k].(rowsIngested := rows, finishedAt := Some(at))
    {
      forall k | 0 <= k < |periods|
        ensures ClosePeriods(periods, periodId, rows, at)[k]
                == if periods[k].id == periodId then periods[k].(rowsIngested := rows, finishedAt := Some(at)) else periods[k]
      {
        ClosedAt(periods, periodId, rows, at, k);
      }
      periods := ClosePeriods(periods, periodId, rows, at);
    }

    /** The stored instant and the new one: the later of the two stays. */
    method AdvanceLlmWatermark(seen: int)
      modifies this`watermark
      ensures watermark == Some(if old(watermark).Some? then Max(old(watermark).value, seen) else seen)
    {
      watermark := Advanced(watermark, seen);
    }
  }
}
