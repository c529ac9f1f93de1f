/** `ingestLlmSpend` itself (`src/llm-spend-ingest.ts`), as a path of the step machine. */
module Ingest {
  import opened Basics
  import opened GatewayLog
  import opened Rollup
  import opened SpendStore
  import opened IngestMachine

  datatype IngestOutcome = IngestOutcome(
    windowStart: int, windowEnd: int, result: RollupResult, eventsWritten: nat,
    watermarkBefore: Option<int>, watermarkAfter: Option<int>)

  /** `steps` lead from `s` to `t`. */
  ghost predicate Leads(s: State, steps: seq<Step>, t: State) {
    CanRun(s, steps) && Exec(s, steps) == t
  }

  lemma LeadsOn(s: State, steps: seq<Step>, t: State, step: Step)
    requires Leads(s, steps, t) && Enabled(t, step)
    ensures Leads(s, steps + [step], Apply(t, step))
  {
    hide Enabled, Apply;
    assert CanRun(t, [step]) && Exec(t, [step]) == Apply(t, step);
    ExecConcat(s, steps, [step]);
  }

  lemma LeadsThrough(s: State, a: seq<Step>, t: State, b: seq<Step>, u: State)
    requires Leads(s, a, t) && Leads(t, b, u)
    ensures Leads(s, a + b, u)
  {
    ExecConcat(s, a, b);
  }

  /** Rows arriving one by one. */
  lemma {:induction false} Arrivals(s: State, rows: seq<LogRow>) returns (steps: seq<Step>)
    requires Ascending(s.log + rows)
    ensures Leads(s, steps, s.(log := s.log + rows))
    decreases |rows|
  {
    if rows == [] {
      assert s.log + [] == s.log;
      return [];
    }
    var front, last := rows[..|rows| - 1], rows[|rows| - 1];
    assert s.log + rows == (s.log + front) + [last];
    AscendingPrefix(s.log + front, [last]);
    steps := Arrivals(s, front);
    var t := s.(log := s.log + front);
    assert Enabled(t, Arrive(last)) by {
      assert (s.log + rows)[|s.log + front|] == last;
      if s.log + front != [] { assert (s.log + rows)[|s.log + front| - 1] == (s.log + front)[|s.log + front| - 1]; }
    }
    LeadsOn(s, steps, t, Arrive(last));
    steps := steps + [Arrive(last)];
  }

  lemma AscendingPrefix(a: seq<LogRow>, b: seq<LogRow>)
    requires Ascending(a + b)
    ensures Ascending(a)
  {
    forall i, j | 0 <= i < j < |a|
      ensures a[i].at <= a[j].at
    {
      assert (a + b)[i] == a[i] && (a + b)[j] == a[j];
    }
  }

  // ---- the page walk as machine steps ----

  /** The views of a walk: each an ascending log that extends the one before, and all but the last fill their page. */
  ghost predicate Walkable(views: seq<Result<seq<LogRow>>>, after: Option<int>) {
    && (forall i | 0 <= i < |views| :: views[i].Ok? && Ascending(views[i].value))
    && (forall i, j | 0 <= i <= j < |views| :: views[i].value <= views[j].value)
    && forall i | 0 <= i < |views| - 1 :: FullTo(views[i].value, after, i + 1, MAX_PER_PAGE)
  }

  lemma WalkableAt(views: seq<Result<seq<LogRow>>>, after: Option<int>, k: nat)
    requires Walkable(views, after) && k < |views|
    ensures views[k].Ok? && Ascending(views[k].value)
    ensures k + 1 < |views| ==>
              views[k + 1].Ok? && views[k].value <= views[k + 1].value && FullTo(views[k].value, after, k + 1, MAX_PER_PAGE)
    ensures views[|views| - 1].Ok?
  {
    hide Ascending, FullTo;
  }

  /** Run `r` has read on from `s` to `t`, `pages` pages in all, and touched nothing else. */
  ghost predicate ReadOn(s: State, t: State, r: nat, pages: nat) {
    && r in s.runs && r in t.runs && s.runs[r].Paging? && t.runs[r].Paging?
    && t.store == s.store && t.now == s.now && t.runs == s.runs[r := t.runs[r]]
    && t.runs[r] == s.runs[r].(pages := pages, rows := t.runs[r].rows, exhausted := t.runs[r].exhausted)
  }

  lemma ReadOnTwice(s: State, t: State, u: State, r: nat, k: nat, n: nat)
    requires ReadOn(s, t, r, k) && ReadOn(t, u, r, n)
    ensures ReadOn(s, u, r, n)
  {
  }

  /** The walk of run `r` over the remaining views, from a machine state that has read its first pages. */
  lemma {:induction false} WalkLeads(s: State, r: nat, views: seq<Result<seq<LogRow>>>, k: nat)
    returns (steps: seq<Step>, t: State)
    requires Inv(s) && r in s.runs && s.runs[r].Paging? && s.runs[r].pages == k <= |views| <= s.runs[r].cap
    requires Walkable(views, s.runs[r].after)
    requires k < |views| ==> views[k].Ok? && s.log <= views[k].value && !s.runs[r].exhausted
    ensures Leads(s, steps, t) && Inv(t) && ReadOn(s, t, r, |views|)
    ensures k < |views| ==> views[|views| - 1].Ok? && t.log == views[|views| - 1].value
    ensures k == |views| ==> t == s
    ensures k < |views| && t.runs[r].exhausted
            ==> t.runs[r].rows == Filtered(t.log, t.runs[r].after) && |t.runs[r].rows| < MAX_PER_PAGE * |views|
    decreases |views| - k
  {
    if k == |views| {
      t := s;
      steps := [];
      assert Leads(s, [], s) && ReadOn(s, s, r, k);
    } else {
      hide Inv, Filtered, FullTo, Apply, Enabled, Leads, Ascending, Walkable;
      WalkableAt(views, s.runs[r].after, k);
      var a, s1, s2 := PageLeads(s, r, views[k].value);
      if k + 1 < |views| { PageWasFull(s1, r, views[k].value, k + 1); }
      assert ReadOn(s, s2, r, k + 1);
      var b, u := WalkLeads(s2, r, views, k + 1);
      LeadsThrough(s, a, s2, b, u);
      ReadOnTwice(s, s2, u, r, k + 1, |views|);
      steps, t := a + b, u;
    }
  }

  /** Rows arrive until the log is `view`, then run `r` reads its next page. */
  lemma PageLeads(s: State, r: nat, view: seq<LogRow>) returns (steps: seq<Step>, s1: State, s2: State)
    requires Inv(s) && r in s.runs && s.runs[r].Paging? && !s.runs[r].exhausted && s.runs[r].pages < s.runs[r].cap
    requires Ascending(view) && s.log <= view
    ensures s1 == s.(log := view) && Inv(s1)
    ensures Enabled(s1, ReadPage(r)) && s2 == Apply(s1, ReadPage(r)) && Inv(s2)
    ensures Leads(s, steps, s2)
    ensures s2.log == view && s2.store == s.store && s2.now == s.now && s2.runs == s.runs[r := s2.runs[r]]
    ensures r in s2.runs && s2.runs[r].Paging?
    ensures s2.runs[r] == s.runs[r].(pages := s.runs[r].pages + 1, rows := s2.runs[r].rows, exhausted := s2.runs[r].exhausted)
    ensures s2.runs[r].exhausted ==> s2.runs[r].rows == Filtered(view, s.runs[r].after)
                                     && |s2.runs[r].rows| < MAX_PER_PAGE * s2.runs[r].pages
    ensures !s2.runs[r].exhausted ==> |Filtered(view, s.runs[r].after)| >= MAX_PER_PAGE * s2.runs[r].pages
    ensures s2.runs[r].exhausted ==> |Filtered(view, s.runs[r].after)| < MAX_PER_PAGE * s2.runs[r].pages
  {
    assert view == s.log + view[|s.log|..];
    steps := Arrivals(s, view[|s.log|..]);
    s1 := s.(log := view);
    ExecKeepsInv(s, steps);
    s2 := Apply(s1, ReadPage(r));
    StepKeepsInv(s1, ReadPage(r));
    LeadsOn(s, steps, s1, ReadPage(r));
    steps := steps + [ReadPage(r)];
    PageRead(s1, r);
  }

  lemma PageRead(s1: State, r: nat)
    requires Inv(s1) && Enabled(s1, ReadPage(r))
    ensures var run := Apply(s1, ReadPage(r)).runs[r];
            var list := Filtered(s1.log, s1.runs[r].after);
            && (run.exhausted ==> run.rows == list && |list| < MAX_PER_PAGE * run.pages)
            && (!run.exhausted ==> |list| >= MAX_PER_PAGE * run.pages)
  {
    assert RunSound(s1, r, s1.runs[r]);
    hide Filtered, StoreSound, WatermarkSound;
    var run, list := s1.runs[r], Filtered(s1.log, s1.runs[r].after);
    assert run.rows == list[..|run.rows|];
  }

  lemma PageWasFull(s1: State, r: nat, view: seq<LogRow>, pages: nat)
    requires Enabled(s1, ReadPage(r)) && s1.log == view && Inv(s1) && s1.runs[r].pages + 1 == pages
    requires FullTo(view, s1.runs[r].after, pages, MAX_PER_PAGE)
    ensures !Apply(s1, ReadPage(r)).runs[r].exhausted
  {
    PageRead(s1, r);
    hide Filtered, Inv;
  }

  /** A walk that read `seen` is a walk of the machine that read the same rows. */
  lemma WalkMatches(s: State, r: nat, views: seq<Result<seq<LogRow>>>, cap: nat, seen: seq<LogRow>, exhausted: bool)
    returns (steps: seq<Step>, t: State)
    requires Inv(s) && r in s.runs && s.runs[r].Paging? && s.runs[r].cap == cap
    requires s.runs[r].pages == 0 && s.runs[r].rows == [] && !s.runs[r].exhausted
    requires forall i | 0 <= i < |views| && views[i].Ok? :: Ascending(views[i].value) && s.log <= views[i].value
    requires forall i, j | 0 <= i <= j < |views| && views[i].Ok? && views[j].Ok? :: views[i].value <= views[j].value
    requires WalkRead(views, s.runs[r].after, cap, MAX_PER_PAGE, seen, exhausted)
    ensures Leads(s, steps, t) && Inv(t) && Enabled(t, Roll(r)) && t.store == s.store && t.now == s.now
    ensures t.runs == s.runs[r := t.runs[r]]
    ensures t.runs[r] == s.runs[r].(pages := |views|, rows := seen, exhausted := exhausted)
    ensures t.log == if views == [] then s.log else views[|views| - 1].value
  {
    steps, t := WalkLeads(s, r, views, 0);
    assert RunSound(t, r, t.runs[r]);
    SameRows(t, r, views, cap, seen, exhausted);
  }

  lemma SameRows(t: State, r: nat, views: seq<Result<seq<LogRow>>>, cap: nat, seen: seq<LogRow>, exhausted: bool)
    requires r in t.runs && t.runs[r].Paging? && RunSound(t, r, t.runs[r]) && t.runs[r].cap == cap && t.runs[r].pages == |views|
    requires WalkRead(views, t.runs[r].after, cap, MAX_PER_PAGE, seen, exhausted)
    requires views != [] ==> t.log == views[|views| - 1].value
    requires views == [] ==> t.runs[r].rows == [] && !t.runs[r].exhausted
    requires views != [] && t.runs[r].exhausted ==> t.runs[r].rows == Filtered(t.log, t.runs[r].after)
                                                    && |t.runs[r].rows| < MAX_PER_PAGE * |views|
    ensures t.runs[r].rows == seen && t.runs[r].exhausted == exhausted
    ensures exhausted || |views| == cap
  {
    hide Filtered, FullTo;
    if views != [] {
      var list := Filtered(t.log, t.runs[r].after);
      assert t.runs[r].rows == list[..|t.runs[r].rows|] && seen == list[..|seen|];
    }
  }

  // ---- the run ----

  /** Everything up to the decision, as machine steps: begin, both reads, the probe and the walk. */
  lemma DecisionLeads(s: State, r: nat, t0: int, probed: Result<Probe>, cap: nat, views: seq<Result<seq<LogRow>>>,
                      walk: Result<Collected>, seen: seq<LogRow>)
    returns (steps: seq<Step>, t: State)
    requires Inv(s) && r !in s.runs && s.now <= t0
    requires forall i | 0 <= i < |views| && views[i].Ok? :: Ascending(views[i].value) && s.log <= views[i].value
    requires forall i, j | 0 <= i <= j < |views| && views[i].Ok? && views[j].Ok? :: views[i].value <= views[j].value
    requires probed.Ok? && walk.Ok? ==>
               WalkRead(views, s.store.watermark, cap, MAX_PER_PAGE, seen, walk.value.exhausted) && Reports(walk.value, seen)
    requires probed.Ok? && walk.Threw? ==> cap > 0
    ensures Leads(s, steps, t) && Inv(t) && t.store == s.store && t.now == t0
    ensures t.runs == s.runs[r := Rolled(t0, WindowStart(s.store, t0), ResultOf(probed, s.store.watermark, walk))]
    ensures t.log == if probed.Ok? && walk.Ok? && views != [] then views[|views| - 1].value else s.log
  {
    hide *;
    var first, s4 := BeginLeads(s, r, t0);
    if probed.Threw? {
      steps, t := Moved(s, first, s4, ProbeThrows(r));
      ProbeThrewResult(s4, r, walk);
    } else {
      var asked, s5 := Moved(s, first, s4, ProbeAnswers(r, probed.value, cap));
      ProbeAnswered(s4, r, probed.value, cap);
      if walk.Threw? {
        steps, t := Moved(s, asked, s5, ListThrows(r));
        ListThrewResult(s5, r);
      } else {
        var pages, s6 := WalkMatches(s5, r, views, cap, seen, walk.value.exhausted);
        LeadsThrough(s, asked, s5, pages, s6);
        steps, t := Moved(s, asked + pages, s6, Roll(r));
        RolledResult(s6, r, walk.value);
      }
    }
  }

  lemma ProbeThrewResult(s4: State, r: nat, walk: Result<Collected>)
    requires Enabled(s4, ProbeThrows(r))
    ensures Apply(s4, ProbeThrows(r)) == s4.(runs := s4.runs[r := Rolled(s4.runs[r].startedAt, s4.runs[r].windowStart,
                                                                        ResultOf(Threw, s4.runs[r].after, walk))])
  {
  }

  lemma ProbeAnswered(s4: State, r: nat, probe: Probe, cap: nat)
    requires Enabled(s4, ProbeAnswers(r, probe, cap))
    ensures Apply(s4, ProbeAnswers(r, probe, cap))
            == s4.(runs := s4.runs[r := Paging(s4.runs[r].startedAt, s4.runs[r].after, s4.runs[r].windowStart, probe, cap, 0, [], false)])
    ensures cap > 0 ==> Enabled(Apply(s4, ProbeAnswers(r, probe, cap)), ListThrows(r))
  {
  }

  lemma ListThrewResult(s5: State, r: nat)
    requires Enabled(s5, ListThrows(r))
    ensures Apply(s5, ListThrows(r)) == s5.(runs := s5.runs[r := Rolled(s5.runs[r].startedAt, s5.runs[r].windowStart,
                                                                       ResultOf(Ok(s5.runs[r].probe), s5.runs[r].after, Threw))])
  {
  }

  lemma RolledResult(s6: State, r: nat, c: Collected)
    requires Enabled(s6, Roll(r)) && Reports(c, s6.runs[r].rows) && c.exhausted == s6.runs[r].exhausted
    ensures Apply(s6, Roll(r)) == s6.(runs := s6.runs[r := Rolled(s6.runs[r].startedAt, s6.runs[r].windowStart,
                                                                 ResultOf(Ok(s6.runs[r].probe), s6.runs[r].after, Ok(c)))])
  {
    assert Collect(s6.runs[r]) == c;
  }

  /** A run begins, reads the watermark and reads where the last period ended. */
  lemma BeginLeads(s: State, r: nat, t0: int) returns (steps: seq<Step>, t: State)
    requires Inv(s) && r !in s.runs && s.now <= t0
    ensures Leads(s, steps, t) && Inv(t)
    ensures t == s.(now := t0, runs := s.runs[r := KnowsEnd(t0, s.store.watermark, WindowStart(s.store, t0))])
    ensures forall probe, cap :: Enabled(t, ProbeAnswers(r, probe, cap)) && Enabled(t, ProbeThrows(r))
  {
    hide Inv, Leads, LastPeriodEnd;
    LeadsNowhere(s);
    steps, t := Moved(s, [], s, Tick(t0));
    steps, t := Moved(s, steps, t, Start(r));
    steps, t := Moved(s, steps, t, ReadWatermark(r));
    steps, t := Moved(s, steps, t, ReadLastEnd(r));
  }

  lemma LeadsNowhere(s: State)
    ensures Leads(s, [], s)
  {
  }

  lemma Moved(s: State, steps: seq<Step>, t: State, step: Step) returns (steps': seq<Step>, t': State)
    requires Leads(s, steps, t) && Inv(t) && Enabled(t, step)
    ensures t' == Apply(t, step) && Leads(s, steps', t') && Inv(t')
  {
    LeadsOn(s, steps, t, step);
    StepKeepsInv(t, step);
    return steps + [step], Apply(t, step);
  }

  function WindowStart(store: Store, startedAt: int): int {
    var last := LastPeriodEnd(store.periods);
    if last.Some? then last.value else startedAt
  }

  function ResultOf(probed: Result<Probe>, after: Option<int>, walk: Result<Collected>): RollupResult {
    if probed.Threw? then PROBE_FAILED
    else if walk.Threw? then PagingFailed(probed.value, after)
    else Decide(probed.value, after, walk.value)
  }

  // ---- what the writes leave behind ----

  /** The batches a list of `n` events is written in. */
  function Batches(n: nat): nat {
    (n + CHUNK - 1) / CHUNK
  }

  predicate Trusted(result: RollupResult) {
    result.controlPassed && result.newWatermark.Some?
  }

  /** The store writes a run makes: open, the batches, close, and the watermark when it is trusted. */
  function WritesNeeded(result: RollupResult): nat {
    2 + Batches(|result.events|) + if Trusted(result) then 1 else 0
  }

  /** The first `n` batches written under `r`. */
  function BatchesStored(events: seq<Stored>, batch: seq<SpendEvent>, r: nat, n: nat): seq<Stored> {
    InsertAll(events, batch[..Min(CHUNK * n, |batch|)], r)
  }

  /**
   The store after the first `lives` writes of a run: the period, then as many whole batches as are left, then
   the period closed with the number of rows those batches added, then the watermark.
   */
  function AfterWrites(store: Store, p: Period, result: RollupResult, t1: int, lives: nat): Store {
    if lives == 0 then store
    else
      var n := Batches(|result.events|);
      var events := BatchesStored(store.events, result.events, p.id, lives - 1);
      var added := |events| - |store.events|;
      var withPeriod := store.periods + [p];
      Store(if Trusted(result) && lives >= 3 + n then Advanced(store.watermark, result.newWatermark.value) else store.watermark,
            if lives >= 2 + n then ClosePeriods(withPeriod, p.id, added, t1) else withPeriod,
            events)
  }

  function OpenedPeriod(r: nat, windowStart: int, startedAt: int, result: RollupResult): Period {
    Period(r, windowStart, startedAt, result.status, result.controlPassed, result.gapDetected, 0, None)
  }

  /**
   What those writes are, spelled out. The first opens a period row with the run's own window and flags; each further
   one files the next 50 events, until all are filed; the next closes that row, with the number of rows its
   batches added; and the last, made only when the control passed and there is a newest event, moves the watermark.
   */
  lemma WritesSpelled(store: Store, r: nat, windowStart: int, t0: int, result: RollupResult, t1: int, lives: nat)
    ensures var t, n := AfterWrites(store, OpenedPeriod(r, windowStart, t0, result), result, t1, lives), |result.events|;
            && (lives == 0 ==> t == store)
            && (lives > 0 ==>
                  && t.events == InsertAll(store.events, result.events[..Min(50 * (lives - 1), n)], r)
                  && var finished := 50 * (lives - 2) >= n && lives >= 2;
                     && |t.periods| == |store.periods| + 1
                     && t.periods[|store.periods|] ==
                        Period(r, windowStart, t0, result.status, result.controlPassed, result.gapDetected,
                               if finished then |t.events| - |store.events| else 0, if finished then Some(t1) else None)
                     && (forall k | 0 <= k < |store.periods| && (!finished || store.periods[k].id != r) :: t.periods[k] == store.periods[k]))
            && t.watermark == if lives >= 3 && 50 * (lives - 3) >= n && result.controlPassed && result.newWatermark.Some?
                              then Some(if store.watermark.Some? then Max(store.watermark.value, result.newWatermark.value)
                                        else result.newWatermark.value)
                              else store.watermark
  {
    if lives > 0 {
      BatchesAre(|result.events|, lives - 1);
      hide InsertAll, ClosePeriods, Batches;
      var t := AfterWrites(store, OpenedPeriod(r, windowStart, t0, result), result, t1, lives);
      var withPeriod := store.periods + [OpenedPeriod(r, windowStart, t0, result)];
      if t.periods != withPeriod {
        forall k | 0 <= k < |withPeriod| { ClosedAt(withPeriod, r, |t.events| - |store.events|, t1, k); }
      }
    }
  }

  lemma BatchesAre(n: nat, k: nat)
    ensures k - 1 >= Batches(n) <==> k >= 1 && 50 * (k - 1) >= n
    ensures k - 2 >= Batches(n) <==> k >= 2 && 50 * (k - 2) >= n
  {
  }

  /** A run that survives all its writes leaves its period closed with the true count, every event stored, and the watermark moved on. */
  lemma SurvivorIsWhole(store: Store, r: nat, windowStart: int, t0: int, result: RollupResult, t1: int, lives: nat)
    requires lives >= WritesNeeded(result) && DistinctSources(store.events)
    requires forall k | 0 <= k < |store.periods| :: store.periods[k].id != r
    requires forall k | 0 <= k < |store.events| :: store.events[k].period != r
    ensures var t := AfterWrites(store, OpenedPeriod(r, windowStart, t0, result), result, t1, lives);
            && t.events == InsertAll(store.events, result.events, r)
            && t.periods == store.periods + [Period(r, windowStart, t0, result.status, result.controlPassed, result.gapDetected,
                                                    CountUnder(t.events, r), Some(t1))]
            && t.watermark == if result.controlPassed && result.newWatermark.Some?
                              then Some(if store.watermark.Some? then Max(store.watermark.value, result.newWatermark.value)
                                        else result.newWatermark.value)
                              else store.watermark
  {
    var p := OpenedPeriod(r, windowStart, t0, result);
    var t, added := AfterWrites(store, p, result, t1, lives), |InsertAll(store.events, result.events, r)| - |store.events|;
    assert result.events[..|result.events|] == result.events;
    assert t.events == InsertAll(store.events, result.events, r);
    InsertAllStores(store.events, result.events, r);
    CountZero(store.events, r);
    hide InsertAll, CountUnder;
    var withPeriod, closed := store.periods + [p], store.periods + [p.(rowsIngested := added, finishedAt := Some(t1))];
    ClosedIs(withPeriod, closed, r, added, t1);
  }

  /** How many writes that takes: one for the period, one for each 50 events or part of them, one to close, one for a trusted watermark. */
  lemma WritesCounted(result: RollupResult)
    ensures var n := WritesNeeded(result) - 2 - if result.controlPassed && result.newWatermark.Some? then 1 else 0;
            n >= 0 && 50 * (n - 1) < |result.events| <= 50 * n
  {
  }

  /** One more batch. */
  lemma OneMoreBatch(events: seq<Stored>, batch: seq<SpendEvent>, r: nat, n: nat)
    requires CHUNK * n < |batch|
    ensures InsertAll(BatchesStored(events, batch, r, n), batch[CHUNK * n..Min(CHUNK * n + CHUNK, |batch|)], r) == BatchesStored(events, batch, r, n + 1)
  {
    var i, j := CHUNK * n, Min(CHUNK * n + CHUNK, |batch|);
    InsertAllTwice(events, batch[..i], batch[i..j], r);
    assert batch[..i] + batch[i..j] == batch[..j];
  }

  // ---- the methods ----

  /**
   One roll-up, from watermark to written rows. `t0 <= t1 <= t2` are its readings of the clock, `r` the id
   it mints and `lives` the number of store writes it survives. Its result is that of the probe and the walk
   it made; the store is left exactly as its first `lives` writes leave it, and it reports an outcome exactly
   when it survived them all. Whatever it does is what a path of the machine does, so every theorem about the
   machine holds of it, whenever it dies.
   */
  method IngestLlmSpend(store: LlmSpendD1, reader: GatewayLogReader, probed: Result<Probe>, r: nat, pageCap: nat,
                        t0: int, t1: int, t2: int, lives: nat, ghost s: State)
    returns (outcome: Option<IngestOutcome>, ghost result: RollupResult, ghost walk: Result<Collected>, ghost seen: seq<LogRow>,
             ghost steps: seq<Step>, ghost t: State)
    requires reader.Valid() && Inv(s) && s.store == store.View()
    requires r !in s.runs && s.now <= t0 <= t1 <= t2
    requires LogsFrom(reader.views, reader.calls, s.log)
    modifies store, reader`calls
    ensures Leads(s, steps, t) && Inv(t) && t.store == store.View()
    ensures r in t.runs && t.runs[r].Ended? && forall q | q in s.runs :: q in t.runs && t.runs[q] == s.runs[q]
    ensures RollupMade(reader.views, old(reader.calls), reader.calls, probed, s.store.watermark, pageCap, walk, seen, result)
    ensures Truthful(reader.views, old(reader.calls), reader.calls, probed, s.store.watermark, pageCap, seen, result)
    ensures store.View() == AfterWrites(s.store, OpenedPeriod(r, WindowStart(s.store, t0), t0, result), result, t1, lives)
    ensures outcome.Some? <==> lives >= WritesNeeded(result)
    ensures outcome.Some? ==>
              outcome.value == IngestOutcome(WindowStart(s.store, t0), t0, result, |t.store.events| - |s.store.events|, s.store.watermark,
                                             if Trusted(result) then result.newWatermark else s.store.watermark)
  {
    hide Inv, Leads, RollupMade, Truthful, AfterWrites, LastPeriodEnd, ResultOf, WritesNeeded, Trusted, OpenedPeriod, LogsFrom, WalkFailed, WalkRead,
      Reports, Ascending;
    var watermarkBefore := store.ReadLlmWatermark();
    var lastEnd := store.ReadLastPeriodEnd();
    var windowStart := if lastEnd.Some? then lastEnd.value else t0;
    assert watermarkBefore == s.store.watermark && windowStart == WindowStart(s.store, t0);
    ghost var views := reader.views;
    hide *;
    ghost var lo := reader.calls;
    var rolled;
    rolled, walk, seen := RunRollup(reader, probed, watermarkBefore, pageCap);
    result := rolled;
    ViewsAscend(reader);
    RollupWasMade(views, lo, reader.calls, probed, watermarkBefore, pageCap, walk, seen, result);
    steps, t := RollupLeads(s, r, t0, views, lo, reader.calls, probed, pageCap, walk, seen, result);
    ghost var s0 := t;
    outcome, steps, t := RecordRun(store, rolled, r, windowStart, watermarkBefore, t0, t1, t2, lives, s, steps, t);
    OthersKept(s, s0, t, r);
  }

  lemma OthersKept(s: State, s0: State, t: State, r: nat)
    requires r !in s.runs && r in s0.runs && r in t.runs
    requires s0.runs == s.runs[r := s0.runs[r]] && t.runs == s0.runs[r := t.runs[r]]
    ensures forall q | q in s.runs :: q in t.runs && t.runs[q] == s.runs[q]
  {
  }

  /** From listing `lo` on the gateway shows logs that extend `log`. */
  ghost predicate LogsFrom(views: seq<Result<seq<LogRow>>>, lo: nat, log: seq<LogRow>) {
    forall i | lo <= i < |views| && views[i].Ok? :: log <= views[i].value
  }

  ghost predicate ViewsGrow(views: seq<Result<seq<LogRow>>>) {
    && (forall i | 0 <= i < |views| && views[i].Ok? :: Ascending(views[i].value))
    && forall i, j | 0 <= i <= j < |views| && views[i].Ok? && views[j].Ok? :: views[i].value <= views[j].value
  }

  lemma ViewsAscend(reader: GatewayLogReader)
    requires reader.Valid()
    ensures reader.calls <= |reader.views| && ViewsGrow(reader.views)
  {
    hide Ascending;
  }

  /**
   The roll-up over listings `lo` to `calls`: its result is that of the probe and the walk; the walk failed
   only for want of an answer, and otherwise read the prefix it reports.
   */
  ghost predicate RollupMade(views: seq<Result<seq<LogRow>>>, lo: nat, calls: nat, probed: Result<Probe>, after: Option<int>, cap: nat,
                             walk: Result<Collected>, seen: seq<LogRow>, result: RollupResult) {
    && lo <= calls <= |views| && result == ResultOf(probed, after, walk)
    && (probed.Threw? ==> calls == lo)
    && (probed.Ok? && walk.Threw? ==> WalkFailed(views, lo, calls, after, cap, MAX_PER_PAGE, seen))
    && (probed.Ok? && walk.Ok? ==>
          && Reports(walk.value, seen)
          && WalkRead(views[lo..calls], after, cap, MAX_PER_PAGE, seen, walk.value.exhausted))
  }

  lemma RollupWasMade(views: seq<Result<seq<LogRow>>>, lo: nat, calls: nat, probed: Result<Probe>, after: Option<int>, cap: nat,
                      walk: Result<Collected>, seen: seq<LogRow>, result: RollupResult)
    requires lo <= calls <= |views| && (probed.Threw? ==> calls == lo && result == PROBE_FAILED)
    requires probed.Ok? && walk.Threw? ==>
               result == PagingFailed(probed.value, after) && WalkFailed(views, lo, calls, after, cap, MAX_PER_PAGE, seen)
    requires probed.Ok? && walk.Ok? ==>
               && result == Decide(probed.value, after, walk.value) && Reports(walk.value, seen)
               && WalkRead(views[lo..calls], after, cap, MAX_PER_PAGE, seen, walk.value.exhausted)
    ensures RollupMade(views, lo, calls, probed, after, cap, walk, seen, result)
  {
    hide WalkFailed, WalkRead, Reports, Decide, PagingFailed;
  }

  /** A roll-up, up to its decision, as machine steps. */
  lemma RollupLeads(s: State, r: nat, t0: int, views: seq<Result<seq<LogRow>>>, lo: nat, calls: nat, probed: Result<Probe>, cap: nat,
                    walk: Result<Collected>, seen: seq<LogRow>, result: RollupResult)
    returns (steps: seq<Step>, t: State)
    requires Inv(s) && r !in s.runs && s.now <= t0 && ViewsGrow(views) && LogsFrom(views, lo, s.log)
    requires RollupMade(views, lo, calls, probed, s.store.watermark, cap, walk, seen, result)
    ensures Leads(s, steps, t) && Inv(t) && t.store == s.store && t.now == t0 && r in t.runs
    ensures t.runs == s.runs[r := t.runs[r]] && t.runs[r] == Rolled(t0, WindowStart(s.store, t0), result)
  {
    WalkFailedWanted(views, lo, calls, probed, s.store.watermark, cap, walk, seen, result);
    var walked := views[lo..calls];
    assert forall i | 0 <= i < |walked| :: walked[i] == views[lo + i];
    hide Inv, Leads, WalkRead, WalkFailed, Reports, ResultOf, WindowStart, Ascending;
    steps, t := DecisionLeads(s, r, t0, probed, cap, walked, walk, seen);
  }

  lemma WalkFailedWanted(views: seq<Result<seq<LogRow>>>, lo: nat, calls: nat, probed: Result<Probe>, after: Option<int>, cap: nat,
                         walk: Result<Collected>, seen: seq<LogRow>, result: RollupResult)
    requires RollupMade(views, lo, calls, probed, after, cap, walk, seen, result)
    ensures probed.Ok? && walk.Threw? ==> cap > 0
  {
    hide Walking, WalkRead, Reports, ResultOf;
  }

  /** The event write, one batch after another: exactly the first `lives` batches when the process dies between two. */
  method WriteLlmSpendEvents(store: LlmSpendD1, result: RollupResult, r: nat, lives: nat,
                             ghost s: State, ghost steps0: seq<Step>, ghost s0: State)
    returns (written: Option<nat>, left: nat, ghost steps: seq<Step>, ghost t: State)
    requires Leads(s, steps0, s0) && Inv(s0) && s0.store == store.View()
    requires r in s0.runs && s0.runs[r] == Writing(s0.now, result, 0, 0)
    modifies store`events
    ensures Leads(s, steps, t) && Inv(t) && t.store == store.View() && t.now == s0.now
    ensures t.store.periods == s0.store.periods && t.store.watermark == s0.store.watermark
    ensures store.events == BatchesStored(s0.store.events, result.events, r, lives)
    ensures r in t.runs && t.runs == s0.runs[r := t.runs[r]] && t.runs[r].Writing?
    ensures written.Some? <==> lives >= Batches(|result.events|)
    ensures written.Some? ==>
              && left == lives - Batches(|result.events|)
              && t.runs[r] == Writing(s0.now, result, |result.events|, written.value)
              && written.value == |t.store.events| - |s0.store.events|
  {
    hide Inv, Leads, Enabled, Apply, InsertAll, ClosePeriods, Advanced, LastPeriodEnd, Trusted, Batches, BatchesStored, AtBatch, AfterWrites, WritesNeeded, OpenedPeriod;
    steps, t := steps0, s0;
    left := lives;
    var count, i := 0, 0;
    ghost var k := 0;
    ghost var total := |result.events|;
    NoBatches(s0.store.events, result.events, r);
    while i < |result.events|
      invariant Leads(s, steps, t) && Inv(t) && t.store == store.View() && t.now == s0.now
      invariant t.store.periods == s0.store.periods && t.store.watermark == s0.store.watermark
      invariant r in t.runs && t.runs == s0.runs[r := t.runs[r]]
      invariant t.runs[r] == Writing(s0.now, result, i, count)
      invariant count == |t.store.events| - |s0.store.events|
      invariant AtBatch(total, i, k) && left == lives - k && k <= lives
      invariant store.events == BatchesStored(s0.store.events, result.events, r, k)
    {
      AtBatchMeans(total, i, k);
      if left == 0 {
        return None, 0, steps, t;
      }
      ChunkStep(t, r, i);
      OneMoreBatch(s0.store.events, result.events, r, k);
      var batch := result.events[i..Min(i + CHUNK, |result.events|)];
      var n := store.WriteBatch(r, batch);
      steps, t := Moved(s, steps, t, WriteChunk(r));
      left := left - 1;
      count := count + n;
      i := i + |batch|;
      k := k + 1;
    }
    AllBatches(total, i, k, lives, s0.store.events, result.events, r);
    written := Some(count);
  }

  /** After `k` batches of `total` events the cursor stands at `i`. */
  predicate AtBatch(total: nat, i: nat, k: nat) {
    i == Min(CHUNK * k, total) && (k == 0 || CHUNK * (k - 1) < total)
  }

  lemma AtBatchMeans(total: nat, i: nat, k: nat)
    requires AtBatch(total, i, k) && i < total
    ensures i == CHUNK * k && i < Min(i + CHUNK, total) <= total && AtBatch(total, Min(i + CHUNK, total), k + 1)
    ensures k < Batches(total)
  {
  }

  lemma NoBatches(events: seq<Stored>, batch: seq<SpendEvent>, r: nat)
    ensures AtBatch(|batch|, 0, 0) && BatchesStored(events, batch, r, 0) == events
  {
  }

  lemma AllBatches(total: nat, i: nat, k: nat, lives: nat, events: seq<Stored>, batch: seq<SpendEvent>, r: nat)
    requires AtBatch(total, i, k) && i >= total && k <= lives && total == |batch|
    ensures k == Batches(total) && i == total && BatchesStored(events, batch, r, k) == BatchesStored(events, batch, r, lives)
  {
    hide InsertAll;
  }

  /** The next batch of the machine's run is the slice at its cursor. */
  lemma ChunkStep(t: State, r: nat, i: nat)
    requires r in t.runs && t.runs[r].Writing? && t.runs[r].cursor == i < |t.runs[r].result.events|
    ensures Enabled(t, WriteChunk(r))
    ensures i <= Min(i + CHUNK, |t.runs[r].result.events|) <= |t.runs[r].result.events|
    ensures var batch := t.runs[r].result.events[i..Min(i + CHUNK, |t.runs[r].result.events|)];
            var events := InsertAll(t.store.events, batch, r);
            Apply(t, WriteChunk(r)) ==
            t.(store := t.store.(events := events),
               runs := t.runs[r := t.runs[r].(cursor := i + |batch|, written := t.runs[r].written + |events| - |t.store.events|)])
  {
    hide InsertAll;
  }

  /** The watermark advances only on a passed control. */
  method AdvanceIfTrusted(store: LlmSpendD1, result: RollupResult, before: Option<int>) returns (after: Option<int>)
    modifies store`watermark
    ensures store.watermark == if Trusted(result) then Advanced(old(store.watermark), result.newWatermark.value) else old(store.watermark)
    ensures after == if Trusted(result) then result.newWatermark else before
  {
    after := before;
    if result.controlPassed && result.newWatermark.Some? {
      store.AdvanceLlmWatermark(result.newWatermark.value);
      after := result.newWatermark;
    }
  }

  /** Writes three and four: the true count under the period, then the watermark. */
  method CloseAndAdvance(store: LlmSpendD1, result: RollupResult, r: nat, written: nat, before: Option<int>,
                         t1: int, t2: int, lives: nat, ghost s: State, ghost steps0: seq<Step>, ghost s0: State)
    returns (after: Option<Option<int>>, ghost steps: seq<Step>, ghost t: State)
    requires Leads(s, steps0, s0) && Inv(s0) && s0.store == store.View() && s0.now <= t1 <= t2
    requires r in s0.runs && s0.runs[r] == Writing(s0.runs[r].startedAt, result, |result.events|, written)
    modifies store`periods, store`watermark
    ensures Leads(s, steps, t) && Inv(t) && t.store == store.View() && t.store.events == s0.store.events
    ensures store.periods == if lives > 0 then ClosePeriods(s0.store.periods, r, written, t1) else s0.store.periods
    ensures store.watermark == if lives > 1 && Trusted(result) then Advanced(s0.store.watermark, result.newWatermark.value)
                               else s0.store.watermark
    ensures r in t.runs && t.runs == s0.runs[r := t.runs[r]]
    ensures after.Some? <==> lives >= if Trusted(result) then 2 else 1
    ensures after.Some? ==> t.runs[r].Ended? && after.value == if Trusted(result) then result.newWatermark else before
  {
    hide Inv, Leads, Enabled, Apply, InsertAll, ClosePeriods, Advanced, LastPeriodEnd, Trusted, Batches, BatchesStored, AtBatch, AfterWrites, WritesNeeded, OpenedPeriod;
    steps, t := steps0, s0;
    after := None;
    if lives > 0 {
      ghost var periods := store.periods;
      store.CloseLlmRollupPeriod(r, written, t1);
      ClosedIs(periods, store.periods, r, written, t1);
      CloseSteps(t, r, t1, t2);
      steps, t := Moved(s, steps, t, Tick(t1));
      steps, t := Moved(s, steps, t, Close(r));
      if lives > 1 || !Trusted(result) {
        var watermarkAfter := AdvanceIfTrusted(store, result, before);
        steps, t := Moved(s, steps, t, Tick(t2));
        steps, t := Moved(s, steps, t, Advance(r));
        after := Some(watermarkAfter);
      }
    }
  }

  /** The machine's last two writes, with the clock readings before them. */
  lemma CloseSteps(s0: State, r: nat, t1: int, t2: int)
    requires r in s0.runs && s0.runs[r].Writing? && s0.runs[r].cursor >= |s0.runs[r].result.events| && s0.now <= t1 <= t2
    ensures var run := s0.runs[r];
            var periods := ClosePeriods(s0.store.periods, r, run.written, t1);
            var closed := s0.(now := t1, store := s0.store.(periods := periods), runs := s0.runs[r := Closed(run.startedAt, run.result)]);
            && Enabled(s0, Tick(t1)) && Enabled(Apply(s0, Tick(t1)), Close(r)) && Apply(Apply(s0, Tick(t1)), Close(r)) == closed
            && Enabled(closed, Tick(t2)) && Enabled(Apply(closed, Tick(t2)), Advance(r))
            && Apply(Apply(closed, Tick(t2)), Advance(r)) ==
               closed.(now := t2, runs := closed.runs[r := Ended(run.startedAt)],
                       store := if Trusted(run.result) then closed.store.(watermark := Advanced(closed.store.watermark, run.result.newWatermark.value))
                                else closed.store)
  {
    hide ClosePeriods, Advanced;
  }

  /** The four ordered writes: open, events, close, watermark, of which the first `lives` land. */
  method RecordRun(store: LlmSpendD1, result: RollupResult, r: nat, windowStart: int, watermarkBefore: Option<int>,
                   t0: int, t1: int, t2: int, lives: nat, ghost s: State, ghost steps0: seq<Step>, ghost s0: State)
    returns (outcome: Option<IngestOutcome>, ghost steps: seq<Step>, ghost t: State)
    requires Leads(s, steps0, s0) && Inv(s0) && s0.store == store.View() && s0.now == t0 <= t1 <= t2
    requires r in s0.runs && s0.runs[r] == Rolled(t0, windowStart, result)
    modifies store
    ensures Leads(s, steps, t) && Inv(t) && t.store == store.View()
    ensures r in t.runs && t.runs[r].Ended? && t.runs == s0.runs[r := t.runs[r]]
    ensures store.View() == AfterWrites(s0.store, OpenedPeriod(r, windowStart, t0, result), result, t1, lives)
    ensures outcome.Some? <==> lives >= WritesNeeded(result)
    ensures outcome.Some? ==>
              outcome.value == IngestOutcome(windowStart, t0, result, |t.store.events| - |s0.store.events|, watermarkBefore,
                                             if Trusted(result) then result.newWatermark else watermarkBefore)
  {
    hide Inv, Leads, Enabled, Apply, InsertAll, ClosePeriods, Advanced, LastPeriodEnd, Trusted, Batches, BatchesStored, AtBatch, AfterWrites, WritesNeeded, OpenedPeriod;
    steps, t := steps0, s0;
    outcome := None;
    ghost var p := OpenedPeriod(r, windowStart, t0, result);
    OpenStep(s0, r, windowStart, t0, result);
    AfterWritesIs(s0.store, p, result, t1, lives);
    if lives > 0 {
      store.OpenLlmRollupPeriod(
        Period(r, windowStart, t0, result.status, result.controlPassed, result.gapDetected, 0, None));
      steps, t := Moved(s, steps, t, Open(r));
      var written, left;
      written, left, steps, t := WriteLlmSpendEvents(store, result, r, lives - 1, s, steps, t);
      if written.Some? {
        var after;
        after, steps, t := CloseAndAdvance(store, result, r, written.value, watermarkBefore, t1, t2, left, s, steps, t);
        if after.Some? {
          outcome := Some(IngestOutcome(windowStart, t0, result, written.value, watermarkBefore, after.value));
        }
      }
    }
    if outcome.None? {
      DieStep(t, r);
      steps, t := Moved(s, steps, t, Die(r));
    }
  }

  lemma OpenStep(s0: State, r: nat, windowStart: int, t0: int, result: RollupResult)
    requires r in s0.runs && s0.runs[r] == Rolled(t0, windowStart, result)
    ensures Enabled(s0, Open(r))
    ensures OpenedPeriod(r, windowStart, t0, result)
            == Period(r, windowStart, t0, result.status, result.controlPassed, result.gapDetected, 0, None)
    ensures Apply(s0, Open(r)) ==
            s0.(store := s0.store.(periods := s0.store.periods + [OpenedPeriod(r, windowStart, t0, result)]),
                runs := s0.runs[r := Writing(t0, result, 0, 0)])
  {
  }

  lemma DieStep(t: State, r: nat)
    requires r in t.runs
    ensures Enabled(t, Die(r)) && Apply(t, Die(r)) == t.(runs := t.runs[r := Ended(t.runs[r].startedAt)])
  {
  }

  lemma AfterWritesIs(store: Store, p: Period, result: RollupResult, t1: int, lives: nat)
    ensures lives == 0 ==> AfterWrites(store, p, result, t1, lives) == store
    ensures lives > 0 ==>
              var events := BatchesStored(store.events, result.events, p.id, lives - 1);
              var n, withPeriod := Batches(|result.events|), store.periods + [p];
              (|events| >= |store.events|) &&
              AfterWrites(store, p, result, t1, lives) ==
              Store(if Trusted(result) && lives >= 3 + n then Advanced(store.watermark, result.newWatermark.value) else store.watermark,
                    if lives >= 2 + n then ClosePeriods(withPeriod, p.id, |events| - |store.events|, t1) else withPeriod, events)
    ensures WritesNeeded(result) == 2 + Batches(|result.events|) + if Trusted(result) then 1 else 0
  {
    hide InsertAll, ClosePeriods, Advanced, Batches, Trusted;
  }
}
