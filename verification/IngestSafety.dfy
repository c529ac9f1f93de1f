/** What the ingest machine guarantees over every run of it. */
module IngestSafety {
  import opened Basics
  import opened GatewayLog
  import opened Rollup
  import opened SpendStore
  import opened SpendWindow
  import opened IngestMachine

  // ---- no skipped row ----

  /**
   Over every interleaving of arrivals, runs, page caps and deaths: a parseable row created before the
   stored watermark is stored.
   */
  lemma NoSkippedRow(steps: seq<Step>, i: nat)
    requires CanRun(INITIAL, steps)
    ensures var s := Exec(INITIAL, steps);
            i < |s.log| && ParseLogRow(s.log[i]).Some? && s.store.watermark.Some? && s.log[i].at < s.store.watermark.value
            ==> Known(s.store.events, ParseLogRow(s.log[i]).value.sourceId)
  {
    hide ParseLogRow, RunSound, StoreSound;
    InitialInv();
    ExecKeepsInv(INITIAL, steps);
  }

  /** The watermark never moves back. */
  lemma WatermarkMonotone(s: State, step: Step)
    requires Enabled(s, step)
    ensures NotBefore(Apply(s, step).store.watermark, s.store.watermark)
  {
    hide ParseRows, Filtered, InsertAll, ClosePeriods;
  }

  /** A stored event is never removed, replaced or moved to another period, and no id is stored twice. */
  lemma {:induction false} EventsFrozen(s: State, steps: seq<Step>)
    requires Inv(s) && CanRun(s, steps)
    ensures s.store.events <= Exec(s, steps).store.events
    ensures DistinctSources(Exec(s, steps).store.events)
    decreases |steps|
  {
    ExecKeepsInv(s, steps);
    hide RunSound, WatermarkSound, PeriodSound, DistinctSources;
    if steps != [] {
      StepKeepsInv(s, steps[0]);
      StepKeepsEvents(s, steps[0]);
      hide Apply, Enabled, Inv;
      EventsFrozen(Apply(s, steps[0]), steps[1..]);
    }
  }

  lemma StepKeepsEvents(s: State, step: Step)
    requires Enabled(s, step)
    ensures s.store.events <= Apply(s, step).store.events
  {
    hide ParseRows, Filtered, ClosePeriods, Newest, LastPeriodEnd;
  }

  /** A finished period claims exactly the rows stored under it. */
  lemma FinishedCountTrue(steps: seq<Step>, k: nat)
    requires CanRun(INITIAL, steps)
    ensures var s := Exec(INITIAL, steps);
            k < |s.store.periods| && s.store.periods[k].finishedAt.Some?
            ==> s.store.periods[k].rowsIngested == CountUnder(s.store.events, s.store.periods[k].id)
  {
    hide RunSound, WatermarkSound;
    InitialInv();
    ExecKeepsInv(INITIAL, steps);
    var s := Exec(INITIAL, steps);
    if k < |s.store.periods| { assert PeriodSound(s, s.store.periods[k]); }
  }

  // ---- a run that died ----

  ghost predicate DeadUnfinished(s: State, k: nat) {
    && k < |s.store.periods|
    && s.store.periods[k].finishedAt.None?
    && s.store.periods[k].id in s.runs && s.runs[s.store.periods[k].id].Ended?
  }

  lemma DeadStaysUnfinished(s: State, step: Step, k: nat)
    requires Enabled(s, step) && DeadUnfinished(s, k)
    ensures DeadUnfinished(Apply(s, step), k)
    ensures Apply(s, step).store.periods[k].windowEnd == s.store.periods[k].windowEnd
  {
    hide ParseRows, Filtered, InsertAll, Newest, LastPeriodEnd;
    if step.Close? { ClosedAt(s.store.periods, step.r, s.runs[step.r].written, s.now, k); }
  }

  /**
   A run that died after opening its period leaves the month of its start incomplete for good: whatever
   runs later, no read of a window holding that instant is billable.
   */
  lemma {:induction false} DeadRunBlocksItsMonth(s: State, steps: seq<Step>, k: nat, tenant: string, a: int, b: int, max: nat)
    requires CanRun(s, steps) && DeadUnfinished(s, k) && a <= s.store.periods[k].windowEnd < b
    ensures !ReadTenantLlmSpend(Exec(s, steps).store, tenant, a, b, max).complete
    decreases |steps|
  {
    hide ReadTenantLlmSpend;
    if steps == [] {
      PartialPeriodBlocks(s.store, k, tenant, a, b, max);
    } else {
      DeadStaysUnfinished(s, steps[0], k);
      hide Apply, Enabled;
      DeadRunBlocksItsMonth(Apply(s, steps[0]), steps[1..], k, tenant, a, b, max);
    }
  }

  // ---- a settled month is final ----

  /** No later run can start in the window, and every run that did has closed its period or died. */
  ghost predicate Frozen(s: State, a: int, b: int) {
    && b <= s.now
    && forall r | r in s.runs && a <= s.runs[r].startedAt < b :: s.runs[r].Closed? || s.runs[r].Ended?
  }

  lemma CloseLast(front: seq<Period>, last: Period, r: nat, rows: nat, at: int) returns (closed: Period)
    ensures ClosePeriods(front + [last], r, rows, at) == ClosePeriods(front, r, rows, at) + [closed]
    ensures closed.windowEnd == last.windowEnd && (last.id != r ==> closed == last)
  {
    closed := if last.id == r then last.(rowsIngested := rows, finishedAt := Some(at)) else last;
    assert (front + [last])[..|front|] == front;
  }

  lemma {:induction false} WindowAfterClose(periods: seq<Period>, r: nat, rows: nat, at: int, a: int, b: int)
    requires forall k | 0 <= k < |periods| && periods[k].id == r :: !(a <= periods[k].windowEnd < b)
    ensures WindowPeriods(ClosePeriods(periods, r, rows, at), a, b) == WindowPeriods(periods, a, b)
  {
    if periods != [] {
      hide *;
      var front, last := periods[..|periods| - 1], periods[|periods| - 1];
      assert periods == front + [last];
      WindowAfterClose(front, r, rows, at, a, b);
      var closed := CloseLast(front, last, r, rows, at);
      WindowAfterOpen(ClosePeriods(front, r, rows, at), closed, a, b);
      WindowAfterOpen(front, last, a, b);
    }
  }

  lemma {:induction false} EndAfterClose(periods: seq<Period>, r: nat, rows: nat, at: int, id: nat)
    ensures EndOf(ClosePeriods(periods, r, rows, at), id) == EndOf(periods, id)
  {
    if periods != [] {
      EndAfterClose(periods[..|periods| - 1], r, rows, at, id);
      assert ClosePeriods(periods, r, rows, at)[..|periods| - 1] == ClosePeriods(periods[..|periods| - 1], r, rows, at);
    }
  }

  lemma EndAfterOpen(periods: seq<Period>, p: Period, id: nat)
    requires id != p.id
    ensures EndOf(periods + [p], id) == EndOf(periods, id)
  {
    assert (periods + [p])[..|periods|] == periods;
  }

  lemma WindowAfterOpen(periods: seq<Period>, p: Period, a: int, b: int)
    ensures WindowPeriods(periods + [p], a, b) == WindowPeriods(periods, a, b) + if a <= p.windowEnd < b then [p] else []
  {
    assert (periods + [p])[..|periods|] == periods;
  }

  lemma {:induction false} EventsSameEnds(events: seq<Stored>, p: seq<Period>, q: seq<Period>, a: int, b: int)
    requires forall k | 0 <= k < |events| :: EndOf(p, events[k].period) == EndOf(q, events[k].period)
    ensures WindowEvents(events, p, a, b) == WindowEvents(events, q, a, b)
  {
    if events != [] {
      assert forall k | 0 <= k < |events| - 1 :: events[..|events| - 1][k] == events[k];
      EventsSameEnds(events[..|events| - 1], p, q, a, b);
    }
  }

  lemma {:induction false} EventsOutside(events: seq<Stored>, more: seq<Stored>, p: seq<Period>, a: int, b: int)
    requires forall k | 0 <= k < |more| :: !InSpan(EndOf(p, more[k].period), a, b)
    ensures WindowEvents(events + more, p, a, b) == WindowEvents(events, p, a, b)
  {
    if more == [] {
      assert events + more == events;
    } else {
      var front := more[..|more| - 1];
      assert forall k | 0 <= k < |front| :: front[k] == more[k];
      EventsOutside(events, front, p, a, b);
      assert (events + more)[..|events + more| - 1] == events + front;
      assert (events + more)[|events + more| - 1] == more[|more| - 1];
    }
  }

  lemma OpenPeriodOf(s: State, r: nat) returns (k: nat)
    requires StoreSound(s) && r in s.runs && s.runs[r].Writing? && HasPeriod(s.store.periods, r)
    ensures k < |s.store.periods| && s.store.periods[k].id == r
    ensures s.store.periods[k].finishedAt.None? && s.store.periods[k].windowEnd == s.runs[r].startedAt
  {
    hide DistinctSources, CountUnder;
    k :| 0 <= k < |s.store.periods| && s.store.periods[k].id == r;
    assert PeriodSound(s, s.store.periods[k]);
  }

  lemma FrozenOpen(s: State, r: nat, a: int, b: int)
    requires Inv(s) && Enabled(s, Open(r)) && Frozen(s, a, b)
    ensures SameWindow(s.store, Apply(s, Open(r)).store, a, b)
  {
    hide WatermarkSound, WindowPeriods, WindowEvents, ParseLogRow;
    assert RunSound(s, r, s.runs[r]);
    var p, t := PeriodOf(r, s.runs[r]), Apply(s, Open(r));
    WindowAfterOpen(s.store.periods, p, a, b);
    forall k | 0 <= k < |s.store.events|
      ensures EndOf(s.store.periods, s.store.events[k].period) == EndOf(t.store.periods, s.store.events[k].period)
    {
      assert HasPeriod(s.store.periods, s.store.events[k].period);
      EndAfterOpen(s.store.periods, p, s.store.events[k].period);
    }
    EventsSameEnds(s.store.events, s.store.periods, t.store.periods, a, b);
  }

  lemma FrozenClose(s: State, r: nat, a: int, b: int)
    requires Inv(s) && Enabled(s, Close(r)) && Frozen(s, a, b)
    ensures SameWindow(s.store, Apply(s, Close(r)).store, a, b)
  {
    hide WatermarkSound, WindowPeriods, WindowEvents, CountUnder, RunSound;
    var t := Apply(s, Close(r));
    forall k | 0 <= k < |s.store.periods| && s.store.periods[k].id == r
      ensures !(a <= s.store.periods[k].windowEnd < b)
    {
      assert PeriodSound(s, s.store.periods[k]);
    }
    WindowAfterClose(s.store.periods, r, s.runs[r].written, s.now, a, b);
    forall k | 0 <= k < |s.store.events|
      ensures EndOf(s.store.periods, s.store.events[k].period) == EndOf(t.store.periods, s.store.events[k].period)
    {
      EndAfterClose(s.store.periods, r, s.runs[r].written, s.now, s.store.events[k].period);
    }
    EventsSameEnds(s.store.events, s.store.periods, t.store.periods, a, b);
  }

  lemma FrozenWrite(s: State, r: nat, a: int, b: int)
    requires Inv(s) && Enabled(s, WriteChunk(r)) && Frozen(s, a, b)
    ensures SameWindow(s.store, Apply(s, WriteChunk(r)).store, a, b)
  {
    assert RunSound(s, r, s.runs[r]);
    assert HasPeriod(s.store.periods, r);
    hide RunSound, WatermarkSound, WindowPeriods, WindowEvents, InsertAll, NextBatch, HasPeriod, StoreSound;
    assert !(a <= s.runs[r].startedAt < b);
    var k := OpenPeriodOf(s, r);
    StoreHasDistinctIds(s);
    EndOfMember(s.store.periods, k);
    WrittenOutside(s.store, NextBatch(s.runs[r]), r, a, b);
  }

  lemma StoreHasDistinctIds(s: State)
    requires StoreSound(s)
    ensures DistinctIds(s.store.periods) && DistinctSources(s.store.events)
  {
  }

  lemma WrittenOutside(store: Store, batch: seq<SpendEvent>, r: nat, a: int, b: int)
    requires !InSpan(EndOf(store.periods, r), a, b)
    ensures WindowEvents(InsertAll(store.events, batch, r), store.periods, a, b)
            == WindowEvents(store.events, store.periods, a, b)
  {
    hide *;
    var more := InsertAllUnder(store.events, batch, r);
    EventsOutside(store.events, more, store.periods, a, b);
  }

  lemma StepKeepsFrozen(s: State, step: Step, a: int, b: int)
    requires Inv(s) && Enabled(s, step) && Frozen(s, a, b)
    ensures Frozen(Apply(s, step), a, b) && SameWindow(s.store, Apply(s, step).store, a, b)
  {
    hide Inv, Filtered, ParseRows, Newest, InsertAll, ClosePeriods, WindowPeriods, WindowEvents, LastPeriodEnd;
    match step
    case Open(r) => FrozenOpen(s, r, a, b);
    case WriteChunk(r) => FrozenWrite(s, r, a, b);
    case Close(r) => FrozenClose(s, r, a, b);
    case _ =>
  }

  lemma {:induction false} ExecKeepsFrozen(s: State, steps: seq<Step>, a: int, b: int)
    requires Inv(s) && CanRun(s, steps) && Frozen(s, a, b)
    ensures Frozen(Exec(s, steps), a, b) && SameWindow(s.store, Exec(s, steps).store, a, b)
    decreases |steps|
  {
    hide Inv, Apply, Enabled, WindowPeriods, WindowEvents, Frozen;
    if steps != [] {
      StepKeepsInv(s, steps[0]);
      StepKeepsFrozen(s, steps[0], a, b);
      ExecKeepsFrozen(Apply(s, steps[0]), steps[1..], a, b);
    }
  }

  // ---- and that condition is exact ----

  lemma {:induction false} Fresh(keys: set<nat>) returns (r: nat)
    ensures forall k | k in keys :: k < r
  {
    if keys == {} {
      r := 0;
    } else {
      var x :| x in keys;
      var q := Fresh(keys - {x});
      assert forall k | k in keys :: k == x || k in keys - {x};
      r := if x < q then q else x + 1;
    }
  }

  /** How far a run is from opening or closing its period. */
  function Distance(run: Run): (nat, nat) {
    match run
    case Began(_) => (6, 0)
    case KnowsWatermark(_, _) => (5, 0)
    case KnowsEnd(_, _, _) => (4, 0)
    case Paging(_, _, _, _, _, _, _, _) => (3, 0)
    case Rolled(_, _, _) => (2, 0)
    case Writing(_, result, cursor, _) => (1, if cursor < |result.events| then |result.events| - cursor else 0)
    case _ => (0, 0)
  }

  /** A step that brings the run closer to writing the period table. */
  function NextStep(run: Run, r: nat): Step {
    match run
    case Began(_) => ReadWatermark(r)
    case KnowsWatermark(_, _) => ReadLastEnd(r)
    case KnowsEnd(_, _, _) => ProbeThrows(r)
    case Paging(_, _, _, _, cap, pages, _, exhausted) => if exhausted || pages >= cap then Roll(r) else ListThrows(r)
    case Rolled(_, _, _) => Open(r)
    case Writing(_, result, cursor, _) => if cursor < |result.events| then WriteChunk(r) else Close(r)
    case _ => Die(r)
  }

  ghost predicate Unclosed(run: Run) {
    !run.Closed? && !run.Ended?
  }

  lemma OpenChangesWindow(s: State, r: nat, a: int, b: int)
    requires Enabled(s, Open(r)) && a <= s.runs[r].startedAt < b
    ensures WindowPeriods(Apply(s, Open(r)).store.periods, a, b) != WindowPeriods(s.store.periods, a, b)
  {
    hide WindowPeriods;
    WindowAfterOpen(s.store.periods, PeriodOf(r, s.runs[r]), a, b);
  }

  lemma CloseReplaces(periods: seq<Period>, p: Period, rows: nat, at: int)
    requires p.finishedAt.None?
    ensures p !in ClosePeriods(periods, p.id, rows, at)
  {
    var closed := ClosePeriods(periods, p.id, rows, at);
    forall j | 0 <= j < |closed|
      ensures closed[j] != p
    {
      ClosedAt(periods, p.id, rows, at, j);
    }
  }

  lemma LostPeriodShows(was: seq<Period>, now: seq<Period>, p: Period, a: int, b: int)
    requires p in was && p !in now && a <= p.windowEnd < b
    ensures WindowPeriods(now, a, b) != WindowPeriods(was, a, b)
  {
    WindowMembers(was, a, b, p);
    WindowMembers(now, a, b, p);
  }

  lemma CloseChangesWindow(s: State, r: nat, a: int, b: int)
    requires StoreSound(s) && r in s.runs && s.runs[r].Writing? && RunSound(s, r, s.runs[r])
    requires a <= s.runs[r].startedAt < b
    ensures WindowPeriods(ClosePeriods(s.store.periods, r, s.runs[r].written, s.now), a, b)
            != WindowPeriods(s.store.periods, a, b)
  {
    assert HasPeriod(s.store.periods, r);
    hide *;
    var k := OpenPeriodOf(s, r);
    var p := s.store.periods[k];
    CloseReplaces(s.store.periods, p, s.runs[r].written, s.now);
    LostPeriodShows(s.store.periods, ClosePeriods(s.store.periods, r, s.runs[r].written, s.now), p, a, b);
  }

  ghost predicate Closer(run: Run, next: Run) {
    var (m, k), (n, l) := Distance(run), Distance(next);
    Unclosed(next) && (n < m || (n == m && l < k))
  }

  lemma NextStepMoves(s: State, r: nat)
    requires r in s.runs && Unclosed(s.runs[r])
    ensures var step := NextStep(s.runs[r], r);
            && Enabled(s, step) && r in Apply(s, step).runs
            && Apply(s, step).runs[r].startedAt == s.runs[r].startedAt
            && (step.Close? || Closer(s.runs[r], Apply(s, step).runs[r]))
  {
    hide Filtered, ParseRows, Newest, LastPeriodEnd, InsertAll;
  }

  lemma LastStepShows(s: State, r: nat, a: int, b: int)
    requires Inv(s) && r in s.runs && Unclosed(s.runs[r]) && a <= s.runs[r].startedAt < b
    requires Enabled(s, NextStep(s.runs[r], r))
    requires s.runs[r].Rolled? || NextStep(s.runs[r], r).Close?
    ensures WindowPeriods(Apply(s, NextStep(s.runs[r], r)).store.periods, a, b) != WindowPeriods(s.store.periods, a, b)
  {
    hide RunSound, StoreSound, WatermarkSound, WindowPeriods, ClosePeriods;
    if s.runs[r].Rolled? {
      OpenChangesWindow(s, r, a, b);
    } else {
      assert RunSound(s, r, s.runs[r]);
      CloseChangesWindow(s, r, a, b);
    }
  }

  /** A run that started in the window and has not closed can still change what the window reads. */
  lemma {:induction false} InFlightCanChange(s: State, r: nat, a: int, b: int) returns (steps: seq<Step>)
    requires Inv(s) && r in s.runs && Unclosed(s.runs[r]) && a <= s.runs[r].startedAt < b
    ensures CanRun(s, steps)
    ensures WindowPeriods(Exec(s, steps).store.periods, a, b) != WindowPeriods(s.store.periods, a, b)
    decreases Distance(s.runs[r]).0, Distance(s.runs[r]).1
  {
    hide *;
    var step := NextStep(s.runs[r], r);
    NextStepMoves(s, r);
    NothingToRun(Apply(s, step));
    if s.runs[r].Rolled? || step.Close? {
      LastStepShows(s, r, a, b);
    }
    if WindowPeriods(Apply(s, step).store.periods, a, b) != WindowPeriods(s.store.periods, a, b) {
      ExecCons(s, step, []);
      steps := [step] + [];
    } else {
      StepKeepsInv(s, step);
      CloserDecreases(s.runs[r], Apply(s, step).runs[r]);
      var rest := InFlightCanChange(Apply(s, step), r, a, b);
      ExecCons(s, step, rest);
      steps := [step] + rest;
    }
  }

  lemma NothingToRun(s: State)
    ensures CanRun(s, []) && Exec(s, []) == s
  {
  }

  lemma CloserDecreases(run: Run, next: Run)
    requires Closer(run, next)
    ensures Unclosed(next)
    ensures Distance(next).0 < Distance(run).0
            || (Distance(next).0 == Distance(run).0 && Distance(next).1 < Distance(run).1)
  {
  }

  /** Before the window has ended a run can still start inside it. */
  lemma OpenWindowCanChange(s: State, a: int, b: int) returns (steps: seq<Step>)
    requires Inv(s) && a < b && s.now < b
    ensures CanRun(s, steps)
    ensures WindowPeriods(Exec(s, steps).store.periods, a, b) != WindowPeriods(s.store.periods, a, b)
  {
    hide Inv, WindowPeriods, CanRun, Exec;
    var tick := Tick(Max(s.now, a));
    var s1 := Apply(s, tick);
    StepKeepsInv(s, tick);
    var r := Fresh(s1.runs.Keys);
    assert r !in s1.runs;
    StepKeepsInv(s1, Start(r));
    var rest := InFlightCanChange(Apply(s1, Start(r)), r, a, b);
    ExecCons(s1, Start(r), rest);
    ExecCons(s, tick, [Start(r)] + rest);
    steps := [tick] + ([Start(r)] + rest);
  }

  /**
   The window reads the same over every future exactly when the clock has passed its end and every run
   that started in it has closed or died.
   */
  lemma FrozenExactly(s: State, a: int, b: int)
    requires Inv(s) && a < b
    ensures Frozen(s, a, b) <==> forall steps | CanRun(s, steps) :: SameWindow(s.store, Exec(s, steps).store, a, b)
  {
    hide Inv, CanRun, Exec, WindowPeriods, WindowEvents;
    if Frozen(s, a, b) {
      forall steps | CanRun(s, steps)
        ensures SameWindow(s.store, Exec(s, steps).store, a, b)
      {
        ExecKeepsFrozen(s, steps, a, b);
      }
    } else if s.now < b {
      var steps := OpenWindowCanChange(s, a, b);
    } else {
      var r :| r in s.runs && a <= s.runs[r].startedAt < b && Unclosed(s.runs[r]);
      var steps := InFlightCanChange(s, r, a, b);
    }
  }
}
