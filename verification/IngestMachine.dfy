/**
 `ingestLlmSpend` as a step machine (`src/llm-spend-ingest.ts`): any number of runs in flight, each split
 at every call to the gateway, the clock and the store, interleaved with arrivals, clock ticks and deaths.
 A run's id doubles as the id of the one period it opens (`newId`).
 */
module IngestMachine {
  import opened Basics
  import opened GatewayLog
  import opened Rollup
  import opened SpendStore

  datatype Run =
    | Began(startedAt: int)
    | KnowsWatermark(startedAt: int, after: Option<int>)
    | KnowsEnd(startedAt: int, after: Option<int>, windowStart: int)
    | Paging(startedAt: int, after: Option<int>, windowStart: int, probe: Probe, cap: nat, pages: nat,
             rows: seq<LogRow>, exhausted: bool)
    | Rolled(startedAt: int, windowStart: int, result: RollupResult)
    | Writing(startedAt: int, result: RollupResult, cursor: nat, written: nat)
    | Closed(startedAt: int, result: RollupResult)
    | Ended(startedAt: int)

  datatype State = State(log: seq<LogRow>, now: int, store: Store, runs: map<nat, Run>)

  datatype Step =
    | Arrive(row: LogRow)
    | Tick(to: int)
    | Start(r: nat)
    | ReadWatermark(r: nat)
    | ReadLastEnd(r: nat)
    | ProbeAnswers(r: nat, probe: Probe, cap: nat)
    | ProbeThrows(r: nat)
    | ReadPage(r: nat)
    | ListThrows(r: nat)
    | Roll(r: nat)
    | Open(r: nat)
    | WriteChunk(r: nat)
    | Close(r: nat)
    | Advance(r: nat)
    | Die(r: nat)

  const INITIAL: State := State([], 0, Store(None, [], []), map[])

  predicate Enabled(s: State, step: Step) {
    match step
    case Arrive(row) => s.log == [] || s.log[|s.log| - 1].at <= row.at
    case Tick(to) => s.now <= to
    case Start(r) => r !in s.runs
    case ReadWatermark(r) => r in s.runs && s.runs[r].Began?
    case ReadLastEnd(r) => r in s.runs && s.runs[r].KnowsWatermark?
    case ProbeAnswers(r, _, _) => r in s.runs && s.runs[r].KnowsEnd?
    case ProbeThrows(r) => r in s.runs && s.runs[r].KnowsEnd?
    case ReadPage(r) => r in s.runs && s.runs[r].Paging? && !s.runs[r].exhausted && s.runs[r].pages < s.runs[r].cap
    case ListThrows(r) => r in s.runs && s.runs[r].Paging? && !s.runs[r].exhausted && s.runs[r].pages < s.runs[r].cap
    case Roll(r) => r in s.runs && s.runs[r].Paging? && (s.runs[r].exhausted || s.runs[r].pages >= s.runs[r].cap)
    case Open(r) => r in s.runs && s.runs[r].Rolled?
    case WriteChunk(r) => r in s.runs && s.runs[r].Writing? && s.runs[r].cursor < |s.runs[r].result.events|
    case Close(r) => r in s.runs && s.runs[r].Writing? && s.runs[r].cursor >= |s.runs[r].result.events|
    case Advance(r) => r in s.runs && s.runs[r].Closed?
    case Die(r) => r in s.runs
  }

  function Collect(run: Run): Collected
    requires run.Paging?
  {
    var events := ParseRows(run.rows);
    Collected(events, |run.rows|, |run.rows| - |events|, run.exhausted)
  }

  function PeriodOf(r: nat, run: Run): Period
    requires run.Rolled?
  {
    Period(r, run.windowStart, run.startedAt, run.result.status, run.result.controlPassed,
           run.result.gapDetected, 0, None)
  }

  /** The events the next batch of a writing run carries. */
  function NextBatch(run: Run): seq<SpendEvent>
    requires run.Writing? && run.cursor < |run.result.events|
  {
    run.result.events[run.cursor..Min(run.cursor + CHUNK, |run.result.events|)]
  }

  function Apply(s: State, step: Step): State
    requires Enabled(s, step)
  {
    match step
    case Arrive(row) => s.(log := s.log + [row])
    case Tick(to) => s.(now := to)
    case Start(r) => s.(runs := s.runs[r := Began(s.now)])
    case ReadWatermark(r) => s.(runs := s.runs[r := KnowsWatermark(s.runs[r].startedAt, s.store.watermark)])
    case ReadLastEnd(r) =>
      var run := s.runs[r];
      var last := LastPeriodEnd(s.store.periods);
      s.(runs := s.runs[r := KnowsEnd(run.startedAt, run.after, if last.Some? then last.value else run.startedAt)])
    case ProbeAnswers(r, probe, cap) =>
      var run := s.runs[r];
      s.(runs := s.runs[r := Paging(run.startedAt, run.after, run.windowStart, probe, cap, 0, [], false)])
    case ProbeThrows(r) =>
      s.(runs := s.runs[r := Rolled(s.runs[r].startedAt, s.runs[r].windowStart, PROBE_FAILED)])
    case ReadPage(r) =>
      var run := s.runs[r];
      var rows := PageAt(Filtered(s.log, run.after), MAX_PER_PAGE * run.pages, MAX_PER_PAGE);
      s.(runs := s.runs[r := run.(pages := run.pages + 1, rows := run.rows + rows,
                                  exhausted := |rows| < MAX_PER_PAGE)])
    case ListThrows(r) =>
      var run := s.runs[r];
      s.(runs := s.runs[r := Rolled(run.startedAt, run.windowStart, PagingFailed(run.probe, run.after))])
    case Roll(r) =>
      var run := s.runs[r];
      s.(runs := s.runs[r := Rolled(run.startedAt, run.windowStart, Decide(run.probe, run.after, Collect(run)))])
    case Open(r) =>
      var run := s.runs[r];
      s.(store := s.store.(periods := s.store.periods + [PeriodOf(r, run)]),
         runs := s.runs[r := Writing(run.startedAt, run.result, 0, 0)])
    case WriteChunk(r) =>
      var run := s.runs[r];
      var events := InsertAll(s.store.events, NextBatch(run), r);
      s.(store := s.store.(events := events),
         runs := s.runs[r := run.(cursor := run.cursor + |NextBatch(run)|,
                                  written := run.written + |events| - |s.store.events|)])
    case Close(r) =>
      var run := s.runs[r];
      s.(store := s.store.(periods := ClosePeriods(s.store.periods, r, run.written, s.now)),
         runs := s.runs[r := Closed(run.startedAt, run.result)])
    case Advance(r) =>
      var result := s.runs[r].result;
      s.(store := if result.controlPassed && result.newWatermark.Some?
                  then s.store.(watermark := Advanced(s.store.watermark, result.newWatermark.value)) else s.store,
         runs := s.runs[r := Ended(s.runs[r].startedAt)])
    case Die(r) => s.(runs := s.runs[r := Ended(s.runs[r].startedAt)])
  }

  predicate CanRun(s: State, steps: seq<Step>)
    decreases |steps|
  {
    steps == [] || (Enabled(s, steps[0]) && CanRun(Apply(s, steps[0]), steps[1..]))
  }

  function Exec(s: State, steps: seq<Step>): State
    requires CanRun(s, steps)
    decreases |steps|
  {
    if steps == [] then s else Exec(Apply(s, steps[0]), steps[1..])
  }

  lemma ExecCons(s: State, step: Step, rest: seq<Step>)
    requires Enabled(s, step) && CanRun(Apply(s, step), rest)
    ensures CanRun(s, [step] + rest) && Exec(s, [step] + rest) == Exec(Apply(s, step), rest)
  {
    hide Enabled, Apply;
    assert ([step] + rest)[1..] == rest;
  }

  lemma {:induction false} ExecConcat(s: State, a: seq<Step>, b: seq<Step>)
    requires CanRun(s, a) && CanRun(Exec(s, a), b)
    ensures CanRun(s, a + b) && Exec(s, a + b) == Exec(Exec(s, a), b)
    decreases |a|
  {
    if a == [] {
      assert a + b == b;
    } else {
      assert (a + b)[1..] == a[1..] + b;
      ExecConcat(Apply(s, a[0]), a[1..], b);
    }
  }

  // ---- the invariant ----

  ghost predicate Reached(log: seq<LogRow>, w: int) {
    |log| > 0 && w <= log[|log| - 1].at
  }

  /** Every parseable row created before `w` is stored, or is still among `pending`. */
  ghost predicate Covered(log: seq<LogRow>, events: seq<Stored>, w: int, pending: seq<SpendEvent>) {
    forall i | 0 <= i < |log| && log[i].at < w && ParseLogRow(log[i]).Some? ::
      Known(events, ParseLogRow(log[i]).value.sourceId) || ParseLogRow(log[i]).value in pending
  }

  ghost predicate WatermarkSound(s: State) {
    s.store.watermark.Some? ==>
      Reached(s.log, s.store.watermark.value) && Covered(s.log, s.store.events, s.store.watermark.value, [])
  }

  ghost predicate ResultSound(s: State, result: RollupResult, pending: seq<SpendEvent>) {
    result.newWatermark.Some? ==>
      Reached(s.log, result.newWatermark.value)
      && Covered(s.log, s.store.events, result.newWatermark.value, pending)
  }

  ghost predicate NotBefore(watermark: Option<int>, after: Option<int>) {
    after.Some? ==> watermark.Some? && after.value <= watermark.value
  }

  ghost predicate RunSound(s: State, r: nat, run: Run) {
    && run.startedAt <= s.now
    && (run.Began? || run.KnowsWatermark? || run.KnowsEnd? || run.Paging? || run.Rolled?
        ==> !HasPeriod(s.store.periods, r))
    && match run
       case Began(_) => true
       case KnowsWatermark(_, after) => NotBefore(s.store.watermark, after)
       case KnowsEnd(_, after, _) => NotBefore(s.store.watermark, after)
       case Paging(_, after, _, _, _, pages, rows, exhausted) =>
         && NotBefore(s.store.watermark, after)
         && rows <= Filtered(s.log, after)
         && (!exhausted ==> |rows| == MAX_PER_PAGE * pages)
       case Rolled(_, _, result) => ResultSound(s, result, result.events)
       case Writing(_, result, cursor, written) =>
         && cursor <= |result.events|
         && HasPeriod(s.store.periods, r)
         && written == CountUnder(s.store.events, r)
         && ResultSound(s, result, result.events[cursor..])
       case Closed(_, result) => ResultSound(s, result, [])
       case Ended(_) => true
  }

  /** A period belongs to the run of its id, ends at its start, and is finished only with the true count. */
  ghost predicate PeriodSound(s: State, p: Period) {
    && p.id in s.runs
    && p.windowEnd == s.runs[p.id].startedAt
    && (p.finishedAt.Some? ==> p.rowsIngested == CountUnder(s.store.events, p.id) && !s.runs[p.id].Writing?)
  }

  ghost predicate StoreSound(s: State) {
    && DistinctSources(s.store.events)
    && (forall i, j | 0 <= i < j < |s.store.periods| :: s.store.periods[i].id != s.store.periods[j].id)
    && (forall k | 0 <= k < |s.store.periods| :: PeriodSound(s, s.store.periods[k]))
    && (forall k | 0 <= k < |s.store.events| :: HasPeriod(s.store.periods, s.store.events[k].period))
  }

  ghost predicate Inv(s: State) {
    && Ascending(s.log)
    && WatermarkSound(s)
    && StoreSound(s)
    && forall r | r in s.runs :: RunSound(s, r, s.runs[r])
  }

  lemma InitialInv()
    ensures Inv(INITIAL)
  {
  }

  // ---- what a step leaves alone ----

  /** From `s` to `t` nothing was taken away that run `r` relies on. */
  ghost predicate Grows(s: State, t: State, r: nat) {
    && s.now <= t.now
    && Ascending(s.log) && s.log <= t.log
    && (forall i | |s.log| <= i < |t.log| :: s.log == [] || s.log[|s.log| - 1].at <= t.log[i].at)
    && s.store.events <= t.store.events
    && NotBefore(t.store.watermark, s.store.watermark)
    && (HasPeriod(s.store.periods, r) <==> HasPeriod(t.store.periods, r))
    && CountUnder(s.store.events, r) == CountUnder(t.store.events, r)
  }

  lemma CoveredGrows(s: State, t: State, r: nat, w: int, pending: seq<SpendEvent>)
    requires Grows(s, t, r) && Reached(s.log, w) && Covered(s.log, s.store.events, w, pending)
    ensures Reached(t.log, w) && Covered(t.log, t.store.events, w, pending)
  {
    hide ParseLogRow, CountUnder, HasPeriod;
    if |t.log| > |s.log| { assert t.log[|t.log| - 1].at >= s.log[|s.log| - 1].at; }
    forall i | 0 <= i < |t.log| && t.log[i].at < w && ParseLogRow(t.log[i]).Some?
      ensures Known(t.store.events, ParseLogRow(t.log[i]).value.sourceId) || ParseLogRow(t.log[i]).value in pending
    {
      assert i < |s.log| && t.log[i] == s.log[i];
      if Known(s.store.events, ParseLogRow(s.log[i]).value.sourceId) {
        KnownGrows(s.store.events, t.store.events, ParseLogRow(s.log[i]).value.sourceId);
      }
    }
  }

  lemma KnownGrows(a: seq<Stored>, b: seq<Stored>, id: string)
    requires a <= b && Known(a, id)
    ensures Known(b, id)
  {
    var k :| 0 <= k < |a| && a[k].event.sourceId == id;
    assert b[k] == a[k];
  }

  lemma FilteredGrows(s: State, t: State, r: nat, after: Option<int>)
    requires Grows(s, t, r)
    ensures Filtered(s.log, after) <= Filtered(t.log, after)
  {
    assert t.log == s.log + t.log[|s.log|..];
    FilteredIsPrefix(s.log, t.log[|s.log|..], after);
  }

  lemma RunSoundGrows(s: State, t: State, r: nat, run: Run)
    requires Grows(s, t, r) && RunSound(s, r, run)
    ensures RunSound(t, r, run)
  {
    hide Covered, Reached, Known, Ascending, CountUnder, HasPeriod, Filtered;
    match run
    case Paging(_, after, _, _, _, _, _, _) => FilteredGrows(s, t, r, after);
    case Rolled(_, _, result) =>
      if result.newWatermark.Some? { CoveredGrows(s, t, r, result.newWatermark.value, result.events); }
    case Writing(_, result, cursor, _) =>
      if result.newWatermark.Some? { CoveredGrows(s, t, r, result.newWatermark.value, result.events[cursor..]); }
    case Closed(_, result) =>
      if result.newWatermark.Some? { CoveredGrows(s, t, r, result.newWatermark.value, []); }
    case _ =>
  }

  lemma OthersStaySound(s: State, t: State, r: nat)
    requires forall q | q in s.runs :: RunSound(s, q, s.runs[q])
    requires forall q | q in t.runs && q != r :: q in s.runs && t.runs[q] == s.runs[q] && Grows(s, t, q)
    ensures forall q | q in t.runs && q != r :: RunSound(t, q, t.runs[q])
  {
    hide RunSound, Grows;
    forall q | q in t.runs && q != r
      ensures RunSound(t, q, t.runs[q])
    {
      RunSoundGrows(s, t, q, s.runs[q]);
    }
  }

  /** The same when a step stored no events and opened no period but `r`'s. */
  lemma QuietStepOthers(s: State, t: State, r: nat)
    requires forall q | q in s.runs :: RunSound(s, q, s.runs[q])
    requires forall q | q in t.runs && q != r :: q in s.runs && t.runs[q] == s.runs[q]
    requires Ascending(s.log) && t.log == s.log && t.now == s.now && t.store.events == s.store.events
    requires NotBefore(t.store.watermark, s.store.watermark)
    requires forall q | q != r :: HasPeriod(s.store.periods, q) <==> HasPeriod(t.store.periods, q)
    ensures forall q | q in t.runs && q != r :: RunSound(t, q, t.runs[q])
  {
    hide RunSound, HasPeriod, CountUnder, Ascending;
    forall q | q in t.runs && q != r
      ensures Grows(s, t, q)
    {
    }
    OthersStaySound(s, t, r);
  }

  // ---- each step keeps the invariant ----

  ghost predicate Local(step: Step) {
    step.Start? || step.ReadWatermark? || step.ReadLastEnd? || step.ProbeAnswers? || step.ProbeThrows?
    || step.ReadPage? || step.ListThrows? || step.Roll? || step.Die?
  }

  /** A step that writes no table keeps the invariant once the run it moved is sound. */
  lemma KeepLocal(s: State, step: Step)
    requires Inv(s) && Enabled(s, step) && Local(step)
    requires RunSound(s, step.r, Apply(s, step).runs[step.r])
    ensures Inv(Apply(s, step))
  {
    var t := Apply(s, step);
    LocalStep(s, step);
    hide RunSound, StoreSound, Covered, Reached, HasPeriod, Ascending, Apply, Enabled;
    SameTablesRunSound(s, t, step.r);
    QuietStepOthers(s, t, step.r);
    LocalKeepsStore(s, step);
  }

  lemma LocalStep(s: State, step: Step)
    requires Enabled(s, step) && Local(step)
    ensures var t := Apply(s, step);
            && t == s.(runs := t.runs) && step.r in t.runs
            && t.runs.Keys == s.runs.Keys + {step.r}
            && forall q | q in t.runs && q != step.r :: q in s.runs && t.runs[q] == s.runs[q]
  {
    hide Filtered, ParseRows, Newest, LastPeriodEnd;
  }

  lemma SameTablesRunSound(s: State, t: State, r: nat)
    requires r in t.runs && t.log == s.log && t.now == s.now && t.store == s.store
    requires RunSound(s, r, t.runs[r])
    ensures RunSound(t, r, t.runs[r])
  {
  }

  lemma LocalKeepsStore(s: State, step: Step)
    requires Inv(s) && Enabled(s, step) && Local(step)
    requires RunSound(s, step.r, Apply(s, step).runs[step.r])
    ensures StoreSound(Apply(s, step))
  {
    LocalStep(s, step);
    hide Covered, Reached, Known, CountUnder, Ascending, DistinctSources, WatermarkSound;
    var t := Apply(s, step);
    LocalKeepsStart(s, step);
    hide Apply, Enabled;
    forall k | 0 <= k < |t.store.periods|
      ensures PeriodSound(t, t.store.periods[k])
    {
      assert PeriodSound(s, s.store.periods[k]);
      NamesPeriod(s.store.periods, k);
    }
  }

  /** A run with an open period never changes its start, nor returns to writing. */
  lemma LocalKeepsStart(s: State, step: Step)
    requires Enabled(s, step) && Local(step)
    ensures var t := Apply(s, step);
            && (step.r in s.runs ==> t.runs[step.r].startedAt == s.runs[step.r].startedAt)
            && !t.runs[step.r].Writing?
            && (step.r !in s.runs ==> t.runs[step.r].Began?)
  {
    hide Filtered, ParseRows, Newest, LastPeriodEnd;
  }

  lemma MovedRunSound(s: State, step: Step)
    requires Inv(s) && Enabled(s, step) && Local(step)
    ensures RunSound(s, step.r, Apply(s, step).runs[step.r])
  {
    hide Covered, Reached, Known, CountUnder, Ascending, ParseRows, Newest;
    match step
    case ReadPage(r) =>
      hide Filtered;
      assert RunSound(s, r, s.runs[r]);
      var run := s.runs[r];
      var list := Filtered(s.log, run.after);
      assert run.rows == list[..|run.rows|];
    case Roll(r) =>
      assert RunSound(s, r, s.runs[r]);
      PrefixResultSound(s, s.runs[r]);
    case Start(r) =>
      forall k | 0 <= k < |s.store.periods|
        ensures s.store.periods[k].id != r
      {
        assert PeriodSound(s, s.store.periods[k]);
      }
    case ReadWatermark(r) => assert RunSound(s, r, s.runs[r]);
    case ReadLastEnd(r) => assert RunSound(s, r, s.runs[r]);
    case ProbeAnswers(r, _, _) => assert RunSound(s, r, s.runs[r]);
    case ProbeThrows(r) => assert RunSound(s, r, s.runs[r]);
    case ListThrows(r) => assert RunSound(s, r, s.runs[r]);
    case Die(r) => assert RunSound(s, r, s.runs[r]);
  }

  /** What a walk read from the stored watermark on covers everything before the newest row it saw. */
  lemma PrefixResultSound(s: State, run: Run)
    requires Inv(s) && run.Paging?
    requires NotBefore(s.store.watermark, run.after) && run.rows <= Filtered(s.log, run.after)
    ensures ResultSound(s, Decide(run.probe, run.after, Collect(run)), ParseRows(run.rows))
  {
    hide Known, ParseLogRow, JsTrim;
    var events := ParseRows(run.rows);
    if Newest(events).Some? {
      var w := Newest(events).value;
      var k :| 0 <= k < |events| && events[k].occurredAt == w;
      NewestIsInLog(s.log, run.after, run.rows, events[k]);
      forall i | 0 <= i < |s.log| && s.log[i].at < w && ParseLogRow(s.log[i]).Some?
        ensures Known(s.store.events, ParseLogRow(s.log[i]).value.sourceId) || ParseLogRow(s.log[i]).value in events
      {
        if run.after.None? || run.after.value <= s.log[i].at {
          ReadUpToNewest(s.log, run.after, run.rows, i);
        } else {
          assert s.log[i].at < s.store.watermark.value;
        }
      }
    }
  }

  lemma NewestIsInLog(log: seq<LogRow>, after: Option<int>, seen: seq<LogRow>, e: SpendEvent)
    requires Ascending(log) && seen <= Filtered(log, after) && e in ParseRows(seen)
    ensures Reached(log, e.occurredAt)
  {
    hide JsTrim;
    var j := RowOfEvent(seen, e);
    FilteredMembers(log, after, seen[j]);
    assert seen[j] == Filtered(log, after)[j];
    var i :| 0 <= i < |log| && log[i] == seen[j];
  }

  lemma KeepArriveTick(s: State, step: Step)
    requires Inv(s) && Enabled(s, step) && (step.Arrive? || step.Tick?)
    ensures Inv(Apply(s, step))
  {
    var t := Apply(s, step);
    assert Ascending(t.log);
    assert Grows(s, t, 0);
    if s.store.watermark.Some? { CoveredGrows(s, t, 0, s.store.watermark.value, []); }
    hide Covered, Reached, Known, CountUnder, Ascending, Filtered, HasPeriod;
    forall r | r in t.runs
      ensures RunSound(t, r, t.runs[r])
    {
      RunSoundGrows(s, t, r, s.runs[r]);
    }
    forall k | 0 <= k < |t.store.periods|
      ensures PeriodSound(t, t.store.periods[k])
    {
      assert PeriodSound(s, s.store.periods[k]);
    }
  }

  lemma KeepOpen(s: State, r: nat)
    requires Inv(s) && Enabled(s, Open(r))
    ensures Inv(Apply(s, Open(r)))
  {
    var t := Apply(s, Open(r));
    assert RunSound(s, r, s.runs[r]);
    OpenedPeriods(s.store.periods, PeriodOf(r, s.runs[r]));
    hide Covered, Reached, Ascending, Filtered, HasPeriod, CountUnder, DistinctSources, StoreSound;
    OpenKeepsStore(s, t, r);
    NothingUnder(s, r);
    assert t.runs[r].result.events[0..] == t.runs[r].result.events;
    QuietStepOthers(s, t, r);
  }

  /** Nothing is stored under a period that was never opened. */
  lemma NothingUnder(s: State, r: nat)
    requires StoreSound(s) && !HasPeriod(s.store.periods, r)
    ensures CountUnder(s.store.events, r) == 0
  {
    hide PeriodSound, DistinctSources, HasPeriod, CountUnder;
    forall k | 0 <= k < |s.store.events|
      ensures s.store.events[k].period != r
    {
      assert HasPeriod(s.store.periods, s.store.events[k].period);
    }
    CountZero(s.store.events, r);
  }

  lemma OpenKeepsStore(s: State, t: State, r: nat)
    requires StoreSound(s) && Enabled(s, Open(r)) && t == Apply(s, Open(r)) && !HasPeriod(s.store.periods, r)
    ensures StoreSound(t)
  {
    OpenedPeriods(s.store.periods, PeriodOf(r, s.runs[r]));
    forall i | 0 <= i < |s.store.periods|
      ensures s.store.periods[i].id != r
    {
      NamesPeriod(s.store.periods, i);
    }
    hide HasPeriod, CountUnder, DistinctSources;
    forall k | 0 <= k < |t.store.periods|
      ensures PeriodSound(t, t.store.periods[k])
    {
      if k < |s.store.periods| { assert PeriodSound(s, s.store.periods[k]); }
    }
    forall k | 0 <= k < |t.store.events|
      ensures HasPeriod(t.store.periods, t.store.events[k].period)
    {
      assert HasPeriod(s.store.periods, s.store.events[k].period);
    }
  }

  lemma NamesPeriod(periods: seq<Period>, i: nat)
    requires i < |periods|
    ensures HasPeriod(periods, periods[i].id)
  {
  }

  lemma OpenedPeriods(periods: seq<Period>, p: Period)
    ensures forall id :: HasPeriod(periods + [p], id) <==> HasPeriod(periods, id) || id == p.id
  {
    assert (periods + [p])[|periods|] == p;
    forall id | HasPeriod(periods, id)
      ensures HasPeriod(periods + [p], id)
    {
      var k :| 0 <= k < |periods| && periods[k].id == id;
      assert (periods + [p])[k].id == id;
    }
  }

  lemma KeepWrite(s: State, r: nat)
    requires Inv(s) && Enabled(s, WriteChunk(r))
    ensures Inv(Apply(s, WriteChunk(r)))
  {
    hide RunSound, StoreSound, WatermarkSound, InsertAll, NextBatch;
    var t := Apply(s, WriteChunk(r));
    assert RunSound(s, r, s.runs[r]);
    WriteKeepsWatermark(s, t, r);
    WriteKeepsOwnRun(s, t, r);
    WriteKeepsStore(s, t, r);
    forall q | q in t.runs && q != r
      ensures Grows(s, t, q)
    {
      WriteGrows(s, t, r, q);
    }
    OthersStaySound(s, t, r);
  }

  lemma InsertAllCounts(events: seq<Stored>, batch: seq<SpendEvent>, r: nat)
    requires DistinctSources(events)
    ensures CountUnder(InsertAll(events, batch, r), r) - CountUnder(events, r) == |InsertAll(events, batch, r)| - |events|
  {
    InsertAllStores(events, batch, r);
  }

  lemma WriteGrows(s: State, t: State, r: nat, q: nat)
    requires Ascending(s.log) && StoreSound(s)
    requires Enabled(s, WriteChunk(r)) && t == Apply(s, WriteChunk(r)) && q != r
    ensures Grows(s, t, q)
  {
    InsertAllStores(s.store.events, NextBatch(s.runs[r]), r);
  }

  lemma WriteKeepsOwnRun(s: State, t: State, r: nat)
    requires StoreSound(s)
    requires Enabled(s, WriteChunk(r)) && t == Apply(s, WriteChunk(r)) && RunSound(s, r, s.runs[r])
    ensures RunSound(t, r, t.runs[r])
  {
    hide Covered, Reached, Known, CountUnder, HasPeriod, InsertAll, DistinctSources, ParseLogRow;
    var result := s.runs[r].result;
    if result.newWatermark.Some? { ChunkCovers(s, t, r, result.newWatermark.value); }
    InsertAllCounts(s.store.events, NextBatch(s.runs[r]), r);
    hide StoreSound;
  }

  lemma WriteKeepsWatermark(s: State, t: State, r: nat)
    requires Ascending(s.log) && StoreSound(s) && WatermarkSound(s)
    requires Enabled(s, WriteChunk(r)) && t == Apply(s, WriteChunk(r))
    ensures WatermarkSound(t)
  {
    WriteGrows(s, t, r, r + 1);
    hide Grows, Covered, Reached, InsertAll, NextBatch;
    if s.store.watermark.Some? { CoveredGrows(s, t, r + 1, s.store.watermark.value, []); }
  }

  lemma WriteKeepsStore(s: State, t: State, r: nat)
    requires Enabled(s, WriteChunk(r)) && t == Apply(s, WriteChunk(r))
    requires StoreSound(s) && RunSound(s, r, s.runs[r])
    ensures StoreSound(t)
  {
    WriteKeepsPeriods(s, t, r);
    assert HasPeriod(s.store.periods, r);
    hide RunSound, CountUnder, HasPeriod, Known, PeriodSound, InsertAll, NextBatch;
    InsertAllStores(s.store.events, NextBatch(s.runs[r]), r);
    hide DistinctSources;
    forall k | 0 <= k < |t.store.events|
      ensures HasPeriod(t.store.periods, t.store.events[k].period)
    {
      if k < |s.store.events| { assert t.store.events[k] == s.store.events[k]; }
    }
  }

  lemma WriteKeepsPeriods(s: State, t: State, r: nat)
    requires Enabled(s, WriteChunk(r)) && t == Apply(s, WriteChunk(r))
    requires StoreSound(s)
    ensures forall k | 0 <= k < |t.store.periods| :: PeriodSound(t, t.store.periods[k])
  {
    hide RunSound, CountUnder, HasPeriod, Known, InsertAll, NextBatch;
    forall k | 0 <= k < |t.store.periods|
      ensures PeriodSound(t, t.store.periods[k])
    {
      var p := s.store.periods[k];
      assert PeriodSound(s, p);
      if p.id != r {
        InsertAllStores(s.store.events, NextBatch(s.runs[r]), r);
        assert CountUnder(t.store.events, p.id) == CountUnder(s.store.events, p.id);
      }
    }
  }

  /** A batch moves its events from pending to stored. */
  lemma ChunkCovers(s: State, t: State, r: nat, w: int)
    requires Enabled(s, WriteChunk(r)) && t == Apply(s, WriteChunk(r))
    requires DistinctSources(s.store.events) && Reached(s.log, w)
    requires Covered(s.log, s.store.events, w, s.runs[r].result.events[s.runs[r].cursor..])
    ensures Reached(t.log, w) && Covered(t.log, t.store.events, w, t.runs[r].result.events[t.runs[r].cursor..])
  {
    var run, batch := s.runs[r], NextBatch(s.runs[r]);
    InsertAllStores(s.store.events, batch, r);
    hide Known, ParseLogRow, InsertAll, CountUnder;
    var pending, rest := run.result.events[run.cursor..], t.runs[r].result.events[t.runs[r].cursor..];
    assert pending == batch + rest;
    forall i | 0 <= i < |t.log| && t.log[i].at < w && ParseLogRow(t.log[i]).Some?
      ensures Known(t.store.events, ParseLogRow(t.log[i]).value.sourceId) || ParseLogRow(t.log[i]).value in rest
    {
      var e := ParseLogRow(s.log[i]).value;
      if Known(s.store.events, e.sourceId) { KnownGrows(s.store.events, t.store.events, e.sourceId); }
    }
  }

  lemma KeepClose(s: State, r: nat)
    requires Inv(s) && Enabled(s, Close(r))
    ensures Inv(Apply(s, Close(r)))
  {
    var t := Apply(s, Close(r));
    assert RunSound(s, r, s.runs[r]);
    ClosedPeriods(s.store.periods, r, s.runs[r].written, s.now);
    hide Covered, Reached, Ascending, Filtered, HasPeriod, CountUnder, DistinctSources, StoreSound, ClosePeriods;
    CloseKeepsStore(s, t, r);
    assert s.runs[r].result.events[s.runs[r].cursor..] == [];
    assert RunSound(t, r, t.runs[r]);
    hide RunSound;
    QuietStepOthers(s, t, r);
  }

  lemma CloseKeepsStore(s: State, t: State, r: nat)
    requires StoreSound(s) && Enabled(s, Close(r)) && t == Apply(s, Close(r))
    requires s.runs[r].written == CountUnder(s.store.events, r)
    ensures StoreSound(t)
  {
    ClosedPeriods(s.store.periods, r, s.runs[r].written, s.now);
    forall k | 0 <= k < |s.store.periods|
      ensures t.store.periods[k]
              == if s.store.periods[k].id == r then s.store.periods[k].(rowsIngested := s.runs[r].written, finishedAt := Some(s.now))
                 else s.store.periods[k]
    {
      ClosedAt(s.store.periods, r, s.runs[r].written, s.now, k);
    }
    hide HasPeriod, CountUnder, DistinctSources, ClosePeriods;
    forall k | 0 <= k < |t.store.periods|
      ensures PeriodSound(t, t.store.periods[k])
    {
      assert PeriodSound(s, s.store.periods[k]);
    }
    forall k | 0 <= k < |t.store.events|
      ensures HasPeriod(t.store.periods, t.store.events[k].period)
    {
      assert HasPeriod(s.store.periods, s.store.events[k].period);
    }
  }

  lemma ClosedPeriods(periods: seq<Period>, r: nat, rows: nat, at: int)
    ensures forall id :: HasPeriod(ClosePeriods(periods, r, rows, at), id) <==> HasPeriod(periods, id)
  {
    var closed := ClosePeriods(periods, r, rows, at);
    forall k | 0 <= k < |periods|
      ensures closed[k].id == periods[k].id
    {
      ClosedAt(periods, r, rows, at, k);
    }
  }

  lemma KeepAdvance(s: State, r: nat)
    requires Inv(s) && Enabled(s, Advance(r))
    ensures Inv(Apply(s, Advance(r)))
  {
    hide Covered, Reached, Known, Ascending, CountUnder, HasPeriod, Filtered;
    var t := Apply(s, Advance(r));
    assert RunSound(s, r, s.runs[r]);
    QuietStepOthers(s, t, r);
    forall k | 0 <= k < |t.store.periods|
      ensures PeriodSound(t, t.store.periods[k])
    {
      assert PeriodSound(s, s.store.periods[k]);
    }
  }

  lemma StepKeepsInv(s: State, step: Step)
    requires Inv(s) && Enabled(s, step)
    ensures Inv(Apply(s, step))
  {
    hide Inv;
    match step
    case Arrive(_) => KeepArriveTick(s, step);
    case Tick(_) => KeepArriveTick(s, step);
    case Open(r) => KeepOpen(s, r);
    case WriteChunk(r) => KeepWrite(s, r);
    case Close(r) => KeepClose(s, r);
    case Advance(r) => KeepAdvance(s, r);
    case _ => MovedRunSound(s, step); KeepLocal(s, step);
  }

  lemma {:induction false} ExecKeepsInv(s: State, steps: seq<Step>)
    requires Inv(s) && CanRun(s, steps)
    ensures Inv(Exec(s, steps))
    decreases |steps|
  {
    hide Inv, Apply, Enabled;
    if steps != [] {
      StepKeepsInv(s, steps[0]);
      ExecKeepsInv(Apply(s, steps[0]), steps[1..]);
    }
  }
}
