/**
 What a filed period says of the gateway, over every run of the ingest machine: what each run was told is
 recorded beside the machine, from its steps and the log alone, and every period row agrees with that record.
 */
module IngestRecord {
  import opened Basics
  import opened GatewayLog
  import opened Rollup
  import opened SpendStore
  import opened SpendWindow
  import opened IngestMachine

  /**
   What a run heard: the watermark it started from, the probe's answer, the rows it listed, whether they were the
   whole list when it last looked and that page was short, and whether a listing failed.
   */
  datatype Heard = Heard(after: Option<int>, probe: Option<Probe>, rows: seq<LogRow>, end: bool, failed: bool)

  /** The record after one more step: only the gateway's answers and the watermark read go into it. */
  function HeardAfter(heard: map<nat, Heard>, s: State, step: Step): map<nat, Heard> {
    match step
    case ReadWatermark(r) => heard[r := Heard(s.store.watermark, None, [], false, false)]
    case ProbeAnswers(r, probe, _) => if r in heard then heard[r := heard[r].(probe := Some(probe))] else heard
    case ReadPage(r) =>
      if r in heard then
        var list := Filtered(s.log, heard[r].after);
        var page := PageAt(list, |heard[r].rows|, 50);
        var rows := heard[r].rows + page;
        heard[r := heard[r].(rows := rows, end := rows == list && |page| < 50)]
      else heard
    case ListThrows(r) => if r in heard then heard[r := heard[r].(failed := true)] else heard
    case _ => heard
  }

  function HeardAll(heard: map<nat, Heard>, s: State, steps: seq<Step>): map<nat, Heard>
    requires CanRun(s, steps)
    decreases |steps|
  {
    if steps == [] then heard else HeardAll(HeardAfter(heard, s, steps[0]), Apply(s, steps[0]), steps[1..])
  }

  /** Rows were deleted unread: the oldest one left is later than where the run took up. */
  predicate Lost(h: Heard) {
    h.after.Some? && h.probe.Some? && h.probe.value.oldest.Some? && h.after.value < h.probe.value.oldest.value
  }

  predicate Answered(h: Heard) {
    h.probe.Some? && h.probe.value.total.Some? && h.probe.value.total.value > 0
  }

  /** A status and its two flags say what was heard. */
  predicate Says(h: Heard, status: Status, controlPassed: bool, gapDetected: bool) {
    && (status == Complete <==> h.probe.Some? && !h.failed && h.end && !Lost(h))
    && (status == Failed <==> h.probe.None? || h.failed)
    && (controlPassed <==> Answered(h))
    && (gapDetected <==> Lost(h))
  }

  ghost predicate Told(h: Heard, result: RollupResult) {
    && Says(h, result.status, result.controlPassed, result.gapDetected)
    && result.events == (if result.status == Failed then [] else ParseRows(h.rows))
    && IsNewest(result.events, result.newWatermark)
  }

  ghost predicate RunTold(s: State, heard: map<nat, Heard>, r: nat)
    requires r in s.runs
  {
    match s.runs[r]
    case Began(_) => true
    case KnowsWatermark(_, after) => r in heard && heard[r] == Heard(after, None, [], false, false)
    case KnowsEnd(_, after, _) => r in heard && heard[r] == Heard(after, None, [], false, false)
    case Paging(_, after, _, probe, _, _, rows, exhausted) => r in heard && heard[r] == Heard(after, Some(probe), rows, exhausted, false)
    case Rolled(_, _, result) => r in heard && Told(heard[r], result)
    case Writing(_, result, _, _) => r in heard && Told(heard[r], result)
    case Closed(_, result) => r in heard && Told(heard[r], result)
    case Ended(_) => true
  }

  predicate PeriodTold(heard: map<nat, Heard>, p: Period) {
    p.id in heard && Says(heard[p.id], p.status, p.controlPassed, p.gapDetected)
  }

  ghost predicate OnRecord(s: State, heard: map<nat, Heard>) {
    && (forall r | r in s.runs :: RunTold(s, heard, r))
    && forall k | 0 <= k < |s.store.periods| :: PeriodTold(heard, s.store.periods[k])
  }

  // ---- each step keeps the record true ----

  /** The run a step moves, if it moves one that has no period yet. */
  predicate Listens(step: Step) {
    step.ReadWatermark? || step.ProbeAnswers? || step.ReadPage? || step.ListThrows?
  }

  lemma OthersUnheard(heard: map<nat, Heard>, s: State, step: Step, q: nat)
    requires Enabled(s, step) && (Listens(step) ==> q != step.r)
    ensures q in HeardAfter(heard, s, step) <==> q in heard
    ensures q in heard ==> HeardAfter(heard, s, step)[q] == heard[q]
  {
    hide Filtered, PageAt;
  }

  /** A run that still listens has no period of its own. */
  lemma ListenerHasNone(s: State, step: Step, k: nat)
    requires Inv(s) && Enabled(s, step) && Listens(step) && k < |s.store.periods|
    ensures s.store.periods[k].id != step.r
  {
    assert RunSound(s, step.r, s.runs[step.r]);
    NamesPeriod(s.store.periods, k);
    hide HasPeriod, StoreSound, WatermarkSound, Filtered;
  }

  lemma PeriodsKept(s: State, heard: map<nat, Heard>, step: Step)
    requires Inv(s) && Enabled(s, step) && OnRecord(s, heard)
    ensures forall k | 0 <= k < |s.store.periods| :: PeriodTold(HeardAfter(heard, s, step), s.store.periods[k])
  {
    forall k | 0 <= k < |s.store.periods|
      ensures PeriodTold(HeardAfter(heard, s, step), s.store.periods[k])
    {
      if Listens(step) { ListenerHasNone(s, step, k); }
      hide Inv, Enabled, HeardAfter;
      OthersUnheard(heard, s, step, s.store.periods[k].id);
    }
  }

  lemma OthersTold(s: State, heard: map<nat, Heard>, step: Step, q: nat)
    requires Enabled(s, step) && OnRecord(s, heard) && q in s.runs && q in Apply(s, step).runs && Apply(s, step).runs[q] == s.runs[q]
    requires Listens(step) ==> q != step.r
    ensures RunTold(Apply(s, step), HeardAfter(heard, s, step), q)
  {
    OthersUnheard(heard, s, step, q);
    hide HeardAfter, Apply, Enabled, Told;
    assert RunTold(s, heard, q);
  }

  /** The page a listing brings ends the list exactly when it is short. */
  lemma PageHeard(s: State, heard: map<nat, Heard>, r: nat)
    requires Inv(s) && Enabled(s, ReadPage(r)) && RunTold(s, heard, r)
    ensures RunTold(Apply(s, ReadPage(r)), HeardAfter(heard, s, ReadPage(r)), r)
  {
    assert RunSound(s, r, s.runs[r]);
    hide Filtered, StoreSound, WatermarkSound, HasPeriod;
    var run := s.runs[r];
    var list := Filtered(s.log, run.after);
    var page := PageAt(list, |run.rows|, 50);
    assert run.rows == list[..|run.rows|];
    if |page| < 50 { assert run.rows + page == list; }
  }

  lemma DecisionTold(h: Heard, run: Run)
    requires run.Paging? && h == Heard(run.after, Some(run.probe), run.rows, run.exhausted, false)
    ensures Told(h, Decide(run.probe, run.after, Collect(run)))
    ensures Told(h.(failed := true), PagingFailed(run.probe, run.after))
  {
    hide ParseRows;
  }

  lemma ProbeFailureTold(h: Heard)
    requires h.probe.None? && !h.failed
    ensures Told(h, PROBE_FAILED)
  {
    hide ParseRows;
  }

  /** The three steps that end a walk with a result. */
  lemma ResultTold(s: State, heard: map<nat, Heard>, step: Step)
    requires Enabled(s, step) && (step.Roll? || step.ListThrows? || step.ProbeThrows?) && RunTold(s, heard, step.r)
    ensures step.r in Apply(s, step).runs && RunTold(Apply(s, step), HeardAfter(heard, s, step), step.r)
  {
    hide Told, Decide, PagingFailed, Collect;
    match step
    case Roll(r) => DecisionTold(heard[r], s.runs[r]);
    case ListThrows(r) => DecisionTold(heard[r], s.runs[r]);
    case ProbeThrows(r) => ProbeFailureTold(heard[r]);
  }

  /** The steps that carry a result on, or hear no more than the watermark and the probe. */
  lemma CarriedTold(s: State, heard: map<nat, Heard>, step: Step)
    requires Enabled(s, step) && !step.Arrive? && !step.Tick? && (step.Start? || (step.r in s.runs && RunTold(s, heard, step.r)))
    requires !step.Roll? && !step.ListThrows? && !step.ProbeThrows? && !step.ReadPage?
    ensures step.r in Apply(s, step).runs && RunTold(Apply(s, step), HeardAfter(heard, s, step), step.r)
  {
    hide Told, InsertAll, ClosePeriods, LastPeriodEnd, Advanced, NextBatch;
  }

  lemma MovedTold(s: State, heard: map<nat, Heard>, step: Step)
    requires Inv(s) && Enabled(s, step) && OnRecord(s, heard) && !step.Arrive? && !step.Tick?
    ensures step.r in Apply(s, step).runs && RunTold(Apply(s, step), HeardAfter(heard, s, step), step.r)
  {
    if step.r in s.runs { assert RunTold(s, heard, step.r); }
    MovedIsThere(s, step);
    hide *;
    if step.ReadPage? {
      PageHeard(s, heard, step.r);
    } else if step.Roll? || step.ListThrows? || step.ProbeThrows? {
      ResultTold(s, heard, step);
    } else {
      CarriedTold(s, heard, step);
    }
  }

  lemma MovedIsThere(s: State, step: Step)
    requires Enabled(s, step) && !step.Arrive? && !step.Tick?
    ensures step.Start? || step.r in s.runs
    ensures step.r in Apply(s, step).runs
  {
    hide Filtered, ParseRows, InsertAll, ClosePeriods, LastPeriodEnd, Decide;
  }

  lemma StepOnRecord(s: State, heard: map<nat, Heard>, step: Step)
    requires Inv(s) && Enabled(s, step) && OnRecord(s, heard)
    ensures OnRecord(Apply(s, step), HeardAfter(heard, s, step))
  {
    var t, now := Apply(s, step), HeardAfter(heard, s, step);
    PeriodsKept(s, heard, step);
    PeriodsAfter(s, heard, step);
    forall q | q in t.runs
      ensures RunTold(t, now, q)
    {
      if !step.Arrive? && !step.Tick? && q == step.r {
        MovedTold(s, heard, step);
      } else {
        UnmovedRun(s, step, q);
        OthersTold(s, heard, step, q);
      }
    }
    hide RunTold, PeriodTold, Apply, HeardAfter;
  }

  lemma UnmovedRun(s: State, step: Step, q: nat)
    requires Enabled(s, step) && q in Apply(s, step).runs && (step.Arrive? || step.Tick? || q != step.r)
    ensures q in s.runs && Apply(s, step).runs[q] == s.runs[q]
  {
    hide Filtered, ParseRows, InsertAll, ClosePeriods, LastPeriodEnd, Decide;
  }

  /** The one row an opening adds is the run's; closing keeps status and flags. */
  lemma PeriodsAfter(s: State, heard: map<nat, Heard>, step: Step)
    requires Enabled(s, step) && OnRecord(s, heard)
    requires forall k | 0 <= k < |s.store.periods| :: PeriodTold(HeardAfter(heard, s, step), s.store.periods[k])
    ensures var t := Apply(s, step);
            forall k | 0 <= k < |t.store.periods| :: PeriodTold(HeardAfter(heard, s, step), t.store.periods[k])
  {
    hide Filtered, ParseRows, InsertAll, ClosePeriods, LastPeriodEnd, Decide, Says;
    match step
    case Open(r) => assert RunTold(s, heard, r);
    case Close(r) =>
      forall k | 0 <= k < |s.store.periods| { ClosedAt(s.store.periods, r, s.runs[r].written, s.now, k); }
    case _ =>
  }

  lemma {:induction false} RunsOnRecord(s: State, heard: map<nat, Heard>, steps: seq<Step>)
    requires Inv(s) && CanRun(s, steps) && OnRecord(s, heard)
    ensures OnRecord(Exec(s, steps), HeardAll(heard, s, steps))
    decreases |steps|
  {
    if steps != [] {
      StepKeepsInv(s, steps[0]);
      StepOnRecord(s, heard, steps[0]);
      hide Inv, Apply, Enabled, HeardAfter, OnRecord;
      RunsOnRecord(Apply(s, steps[0]), HeardAfter(heard, s, steps[0]), steps[1..]);
    }
  }

  /**
   Over every run of the machine: a period filed `Complete` belongs to a roll-up whose probe answered, whose walk
   read the list to its end, and after whose watermark nothing was deleted unread; and no other period is
   filed so. Its control flag says that the probe reported rows, and its gap flag that some were deleted.
   */
  lemma FiledAsHeard(steps: seq<Step>, k: nat)
    requires CanRun(INITIAL, steps)
    ensures var s, heard := Exec(INITIAL, steps), HeardAll(map[], INITIAL, steps);
            k < |s.store.periods| ==>
              var p := s.store.periods[k];
              && p.id in heard
              && (p.status == Complete <==> heard[p.id].probe.Some? && !heard[p.id].failed && heard[p.id].end && !Lost(heard[p.id]))
              && (p.status == Failed <==> heard[p.id].probe.None? || heard[p.id].failed)
              && (p.controlPassed <==> Answered(heard[p.id]))
              && (p.gapDetected <==> Lost(heard[p.id]))
  {
    InitialInv();
    NothingHeard();
    hide Inv, INITIAL, HeardAll;
    RunsOnRecord(INITIAL, map[], steps);
    var s, heard := Exec(INITIAL, steps), HeardAll(map[], INITIAL, steps);
    if k < |s.store.periods| { assert PeriodTold(heard, s.store.periods[k]); }
  }

  lemma NothingHeard()
    ensures OnRecord(INITIAL, map[])
  {
  }

  /**
   So a month that reads complete was listed to the end of the gateway's log by every one of its roll-ups, each after a
   probe that reported rows, with nothing lost before it.
   */
  lemma CompleteMonthWasHeard(steps: seq<Step>, k: nat, tenant: string, a: int, b: int, max: nat)
    requires CanRun(INITIAL, steps)
    requires ReadTenantLlmSpend(Exec(INITIAL, steps).store, tenant, a, b, max).complete
    ensures var s, heard := Exec(INITIAL, steps), HeardAll(map[], INITIAL, steps);
            k < |s.store.periods| && a <= s.store.periods[k].windowEnd < b ==>
              var id := s.store.periods[k].id;
              id in heard && heard[id].end && !heard[id].failed && Answered(heard[id]) && !Lost(heard[id])
  {
    hide ReadTenantLlmSpend, INITIAL, HeardAll, Answered, Lost;
    FiledAsHeard(steps, k);
    InitialInv();
    ExecKeepsInv(INITIAL, steps);
    var s := Exec(INITIAL, steps);
    IdsDiffer(s);
    ReadCompleteExactly(s.store, tenant, a, b, max);
  }

  lemma IdsDiffer(s: State)
    requires Inv(s)
    ensures DistinctIds(s.store.periods)
  {
  }

  /**
   The watermark moves only at the last step of a roll-up whose probe reported rows, and then to the newest of the rows
   it listed, unless it already stood later.
   */
  lemma WatermarkHeard(s: State, heard: map<nat, Heard>, step: Step)
    requires Enabled(s, step) && OnRecord(s, heard)
    ensures Apply(s, step).store.watermark != s.store.watermark ==> step.Advance?
    ensures step.Advance? ==>
              && step.r in heard
              && var h := heard[step.r];
                 var w := Apply(s, step).store.watermark;
                 if h.probe.Some? && !h.failed && Answered(h) && ParseRows(h.rows) != []
                 then w.Some? && (exists k :: 0 <= k < |ParseRows(h.rows)|
                                    && w.value == (if s.store.watermark.Some? then Max(s.store.watermark.value, ParseRows(h.rows)[k].occurredAt)
                                                   else ParseRows(h.rows)[k].occurredAt))
                      && forall k | 0 <= k < |ParseRows(h.rows)| :: ParseRows(h.rows)[k].occurredAt <= w.value
                 else w == s.store.watermark
  {
    hide Filtered, ParseRows, InsertAll, ClosePeriods, LastPeriodEnd, Decide, Newest;
    if step.Advance? {
      assert RunTold(s, heard, step.r);
      hide RunTold, OnRecord;
      var h, result := heard[step.r], s.runs[step.r].result;
      assert Told(h, result);
      if result.newWatermark.Some? {
        var k :| 0 <= k < |result.events| && result.events[k].occurredAt == result.newWatermark.value;
      }
    }
  }
}
