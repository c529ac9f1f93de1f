/**
 Why finality needs every run of the month to have closed: the closed-period guard alone does not give it.
 A run that starts before the month ends and opens its period after a settlement adds to a month whose
 debit can no longer change.
 */
module EarlySettlement {
  import opened Basics
  import opened GatewayLog
  import opened Rollup
  import opened SpendStore
  import opened SpendWindow
  import opened IngestMachine
  import opened Ingest
  import opened Settlement
  import opened Billing
  import Calendar

  const EARLY: LogRow := LogRow(Some("x"), 1000, true, Some("t"), Some(5))
  const LATE: LogRow := LogRow(Some("z"), 2000, true, Some("t"), Some(7))
  const EARLY_EVENT: SpendEvent := SpendEvent("x", Some("t"), Some(5), 1000)
  const LATE_EVENT: SpendEvent := SpendEvent("z", Some("t"), Some(7), 2000)

  lemma UsableLetter(s: string)
    requires |s| == 1 && !JsBlank(s[0])
    ensures Usable(Some(s)) == Some(s)
  {
  }

  lemma ParsesTo(row: LogRow, id: string)
    requires Usable(row.id) == Some(id) && row.stamped
    ensures ParseLogRow(row) == Some(SpendEvent(id, Usable(row.tenant), row.cost, row.at))
  {
    hide Usable;
  }

  lemma LogsParse()
    ensures ParseRows([EARLY]) == [EARLY_EVENT] && ParseRows([EARLY, LATE]) == [EARLY_EVENT, LATE_EVENT]
  {
    hide Usable, ParseLogRow, ParseRows;
    UsableLetter("x");
    UsableLetter("z");
    UsableLetter("t");
    ParsesTo(EARLY, "x");
    ParsesTo(LATE, "z");
    ParseNothing();
    ParseAppend([], EARLY);
    ParseAppend([EARLY], LATE);
    assert [] + [EARLY] == [EARLY] && [EARLY] + [LATE] == [EARLY, LATE];
  }

  lemma LogsFilter()
    ensures Filtered([EARLY], None) == [EARLY] && Filtered([EARLY, LATE], None) == [EARLY, LATE]
  {
    hide EARLY, LATE;
    hide Filtered;
    FilterNothing();
    FilterOn([], EARLY);
    FilterOn([EARLY], LATE);
    assert [] + [EARLY] == [EARLY] && [EARLY] + [LATE] == [EARLY, LATE];
  }

  lemma FilterNothing()
    ensures Filtered([], None) == []
  {
  }

  lemma FilterOn(log: seq<LogRow>, row: LogRow)
    ensures Filtered(log + [row], None) == Filtered(log, None) + [row]
  {
    assert (log + [row])[..|log|] == log;
  }

  const PROBE: Probe := Probe(Some(1), Some(1000))

  function FullRun(events: seq<SpendEvent>): RollupResult {
    RollupResult(Complete, true, false, events, |events|, 0, Newest(events))
  }

  function FinishedPeriod(id: nat, rows: nat, at: int): Period {
    Period(id, 0, 0, Complete, true, false, rows, Some(at))
  }

  /** A run that knows where the last period ended reads the whole log in one page and writes it out. */
  lemma RunToClose(s: State, steps0: seq<Step>, t0: State, r: nat, log: seq<LogRow>, events: seq<SpendEvent>) returns (steps: seq<Step>, t: State)
    requires Leads(s, steps0, t0) && Inv(t0) && r in t0.runs && t0.runs[r] == KnowsEnd(0, None, 0)
    requires t0.log == log && Filtered(log, None) == log && |log| < MAX_PER_PAGE && ParseRows(log) == events
    requires 0 < |events| <= CHUNK && |events| == |log|
    ensures Leads(s, steps, t) && Inv(t)
    ensures t.log == log && t.now == t0.now && r in t.runs && t.runs == t0.runs[r := t.runs[r]]
    ensures t.store.watermark == t0.store.watermark && t.store.events == InsertAll(t0.store.events, events, r)
    ensures t.store.periods == ClosePeriods(t0.store.periods + [Period(r, 0, 0, Complete, true, false, 0, None)], r,
                                            |t.store.events| - |t0.store.events|, t0.now)
  {
    hide Leads, Inv, Filtered, ParseRows, InsertAll, ClosePeriods, Newest, LastPeriodEnd, ParseLogRow;
    steps, t := Moved(s, steps0, t0, ProbeAnswers(r, PROBE, 1));
    steps, t := Moved(s, steps, t, ReadPage(r));
    assert PageAt(log, 0, MAX_PER_PAGE) == log;
    assert t.runs[r] == Paging(0, None, 0, PROBE, 1, 1, log, true);
    steps, t := Moved(s, steps, t, Roll(r));
    assert t.runs[r] == Rolled(0, 0, FullRun(events));
    steps, t := WriteOut(s, steps, t, r, events);
  }

  lemma WriteOut(s: State, steps0: seq<Step>, t0: State, r: nat, events: seq<SpendEvent>) returns (steps: seq<Step>, t: State)
    requires Leads(s, steps0, t0) && Inv(t0) && r in t0.runs && t0.runs[r] == Rolled(0, 0, FullRun(events))
    requires 0 < |events| <= CHUNK
    ensures Leads(s, steps, t) && Inv(t)
    ensures t.log == t0.log && t.now == t0.now && r in t.runs && t.runs == t0.runs[r := t.runs[r]]
    ensures t.store.watermark == t0.store.watermark && t.store.events == InsertAll(t0.store.events, events, r)
    ensures t.store.periods == ClosePeriods(t0.store.periods + [Period(r, 0, 0, Complete, true, false, 0, None)], r,
                                            |t.store.events| - |t0.store.events|, t0.now)
  {
    hide Leads, Inv, Filtered, ParseRows, InsertAll, ClosePeriods, Newest, LastPeriodEnd;
    steps, t := Moved(s, steps0, t0, Open(r));
    assert events[0..|events|] == events;
    steps, t := Moved(s, steps, t, WriteChunk(r));
    steps, t := Moved(s, steps, t, Close(r));
  }

  /** Run 0 starts and stops at the watermark; run 1 meters the first row, all within the month. */
  lemma FirstHalf(end: int) returns (steps: seq<Step>, t: State)
    requires end > 0
    ensures Leads(INITIAL, steps, t) && Inv(t) && t.now == end && t.log == [EARLY]
    ensures 0 in t.runs && t.runs[0] == KnowsEnd(0, None, 0)
    ensures t.store == Store(None, [FinishedPeriod(1, 1, 0)], [Stored(EARLY_EVENT, 1)])
  {
    InitialInv();
    LogsParse();
    LogsFilter();
    hide Leads, Inv, Filtered, ParseRows, InsertAll, ClosePeriods, Newest, LastPeriodEnd, ParseLogRow;
    NoPeriodsYet();
    var first, t1 := BeginLeads(INITIAL, 0, 0);
    var second, t2 := BeginLeads(t1, 1, 0);
    LeadsThrough(INITIAL, first, t1, second, t2);
    steps, t := Moved(INITIAL, first + second, t2, Arrive(EARLY));
    assert t.log == [EARLY];
    steps, t := RunToClose(INITIAL, steps, t, 1, [EARLY], [EARLY_EVENT]);
    OneRow();
    steps, t := Moved(INITIAL, steps, t, Tick(end));
  }

  lemma NoPeriodsYet()
    ensures LastPeriodEnd([]) == None
  {
  }

  lemma OneRow()
    ensures InsertAll([], [EARLY_EVENT], 1) == [Stored(EARLY_EVENT, 1)]
    ensures ClosePeriods([] + [Period(1, 0, 0, Complete, true, false, 0, None)], 1, 1, 0) == [FinishedPeriod(1, 1, 0)]
  {
    assert [EARLY_EVENT][..0] == [];
    assert InsertAll([], [], 1) == [];
    var p := Period(1, 0, 0, Complete, true, false, 0, None);
    assert [p][..0] == [] && ClosePeriods([], 1, 1, 0) == [];
    assert [] + [p] == [p];
  }

  /** After the month's end run 0 reads a second row and files it under the same month. */
  lemma SecondHalf(s: State, steps0: seq<Step>, t0: State, end: int) returns (steps: seq<Step>, t: State)
    requires Leads(s, steps0, t0) && Inv(t0) && t0.now == end && t0.log == [EARLY]
    requires 0 in t0.runs && t0.runs[0] == KnowsEnd(0, None, 0)
    requires t0.store == Store(None, [FinishedPeriod(1, 1, 0)], [Stored(EARLY_EVENT, 1)])
    ensures Leads(s, steps, t) && t.now == end
    ensures t.store == Store(t.store.watermark, [FinishedPeriod(1, 1, 0), FinishedPeriod(0, 1, end)],
                             [Stored(EARLY_EVENT, 1), Stored(LATE_EVENT, 0)])
  {
    LogsParse();
    LogsFilter();
    hide Leads, Inv, Filtered, ParseRows, InsertAll, ClosePeriods, Newest, LastPeriodEnd, ParseLogRow;
    steps, t := Moved(s, steps0, t0, Arrive(LATE));
    assert [EARLY] + [LATE] == [EARLY, LATE];
    steps, t := RunToClose(s, steps, t, 0, [EARLY, LATE], [EARLY_EVENT, LATE_EVENT]);
    TwoRows(end);
  }

  lemma TwoRows(end: int)
    ensures InsertAll([Stored(EARLY_EVENT, 1)], [EARLY_EVENT, LATE_EVENT], 0) == [Stored(EARLY_EVENT, 1), Stored(LATE_EVENT, 0)]
    ensures ClosePeriods([FinishedPeriod(1, 1, 0)] + [Period(0, 0, 0, Complete, true, false, 0, None)], 0, 1, end)
            == [FinishedPeriod(1, 1, 0), FinishedPeriod(0, 1, end)]
  {
    var had := [Stored(EARLY_EVENT, 1)];
    assert had[0].event.sourceId == "x";
    assert [EARLY_EVENT][..0] == [] && InsertAll(had, [], 0) == had;
    assert InsertAll(had, [EARLY_EVENT], 0) == had;
    assert [EARLY_EVENT, LATE_EVENT][..1] == [EARLY_EVENT];
    assert !Known(had, "z");
    var p, q := FinishedPeriod(1, 1, 0), Period(0, 0, 0, Complete, true, false, 0, None);
    assert [p] + [q] == [p, q] && [p, q][..1] == [p] && [p][..0] == [];
    assert ClosePeriods([], 0, 1, end) == [];
    assert ClosePeriods([p], 0, 1, end) == [p];
  }

  /** The month `[0, end)` reads complete with 5 at the first settlement and complete with 12 later. */
  lemma ReadsDiffer(watermark: Option<int>, end: int)
    requires end > 0
    ensures var w := ReadTenantLlmSpend(Store(None, [FinishedPeriod(1, 1, 0)], [Stored(EARLY_EVENT, 1)]), "t", 0, end, MAX_PERIODS_PER_WINDOW);
            w.complete && w.cost == 5
    ensures var w := ReadTenantLlmSpend(Store(watermark, [FinishedPeriod(1, 1, 0), FinishedPeriod(0, 1, end)],
                                              [Stored(EARLY_EVENT, 1), Stored(LATE_EVENT, 0)]), "t", 0, end, MAX_PERIODS_PER_WINDOW);
            w.complete && w.cost == 12
  {
    var p, q, e, f := FinishedPeriod(1, 1, 0), FinishedPeriod(0, 1, end), Stored(EARLY_EVENT, 1), Stored(LATE_EVENT, 0);
    CensusOf(p, q, end);
    SliceOne(p);
    SliceTwo(p, q);
    SumOne(e);
    SumTwo(e, f);
    hide WindowPeriods, SliceIds, Sums;
  }

  lemma CensusOf(p: Period, q: Period, end: int)
    requires end > 0 && p.windowEnd == 0 && q.windowEnd == 0
    ensures WindowPeriods([p], 0, end) == [p] && WindowPeriods([p, q], 0, end) == [p, q]
  {
    assert [p][..0] == [] && [p, q][..1] == [p];
    assert WindowPeriods([], 0, end) == [];
    assert WindowPeriods([p], 0, end) == [p];
  }

  lemma SliceOne(p: Period)
    ensures SliceIds([p], [p], MAX_PERIODS_PER_WINDOW) == [p.id]
  {
    assert [p][..0] == [] && SliceIds([p], [], MAX_PERIODS_PER_WINDOW) == [];
  }

  lemma SliceTwo(p: Period, q: Period)
    ensures SliceIds([p, q], [p, q], MAX_PERIODS_PER_WINDOW) == [p.id, q.id]
  {
    hide Rank;
    assert [p][..0] == [] && [p, q][..1] == [p];
    assert SliceIds([p, q], [], MAX_PERIODS_PER_WINDOW) == [];
    assert SliceIds([p, q], [p], MAX_PERIODS_PER_WINDOW) == [p.id];
  }

  lemma SumOne(e: Stored)
    requires e == Stored(EARLY_EVENT, 1)
    ensures Sums([e], "t", [1]).cost == 5 && Sums([e], "t", [1]).unpriced == 0
  {
    assert [e][..0] == [] && Sums([], "t", [1]) == WindowSums(0, 0, 0);
  }

  lemma SumTwo(e: Stored, f: Stored)
    requires e == Stored(EARLY_EVENT, 1) && f == Stored(LATE_EVENT, 0)
    ensures Sums([e, f], "t", [1, 0]).cost == 12 && Sums([e, f], "t", [1, 0]).unpriced == 0
  {
    assert [e][..0] == [] && [e, f][..1] == [e] && Sums([], "t", [1, 0]) == WindowSums(0, 0, 0);
    assert Sums([e], "t", [1, 0]).cost == 5 && Sums([e], "t", [1, 0]).unpriced == 0;
  }

  // ---- as moves of ingestion and settlement together ----

  function MeterAll(steps: seq<Step>): seq<Move> {
    seq(|steps|, k requires 0 <= k < |steps| => Meter(steps[k]))
  }

  /** A run of the machine is a run of the whole that leaves the ledger alone. */
  lemma {:induction false} Meters(y: System, steps: seq<Step>, t: State)
    requires Leads(y.ingest, steps, t)
    ensures CanMoveAll(y, MeterAll(steps)) && AfterAll(y, MeterAll(steps)) == y.(ingest := t)
    decreases |steps|
  {
    hide Apply, Enabled;
    if steps != [] {
      Meters(y.(ingest := Apply(y.ingest, steps[0])), steps[1..], t);
      assert MeterAll(steps)[1..] == MeterAll(steps[1..]);
    }
  }

  lemma OneMove(y: System, m: Move)
    requires CanMove(y, m)
    ensures CanMoveAll(y, [m]) && AfterAll(y, [m]) == After(y, m)
  {
    hide CanMove, After;
  }

  // ---- January 1970 ----

  const JANUARY_END: int := 31 * Calendar.MS_PER_DAY

  /** The settlement of January 1970 for tenant `t`, with no allowance to use up. */
  const SETTLE: Move := Settle(0, ["t"], _ => false, _ => false, _ => "row", Some(Whole(0)))

  /** January as the settlements read it. */
  function JanuaryRead(y: System): LlmSpendWindow {
    MonthRead(y.ingest.store, 0, "t")
  }

  lemma January()
    ensures Calendar.YearOf(0) == 1970 && Calendar.BillingPeriodContaining(0).windowStart == 0
    ensures Calendar.BillingPeriodContaining(0).windowEnd == JANUARY_END
  {
    JanuaryBounds();
    hide *;
    Calendar.YearOfFirst(12 * 1970);
    Calendar.ContainingIsMonth(0);
    Calendar.MonthIndexUnique(0, 12 * 1970);
  }

  lemma JanuaryBounds()
    ensures Calendar.FirstOf(12 * 1970) == 0 && Calendar.FirstOf(12 * 1970 + 1) == JANUARY_END && JANUARY_END > 0
  {
    hide Calendar.FirstOf, Calendar.DayFromYear, Calendar.MonthStart, Calendar.Leap;
    Calendar.NextMonth(1970, 0);
    JanuaryDays();
  }

  lemma JanuaryDays()
    ensures Calendar.DayFromYear(1970) == 0
    ensures forall leap :: Calendar.MonthStart(0, leap) == 0 && Calendar.MonthStart(1, leap) == 31
  {
  }

  /** A settlement of January settles, or finds, the charge of tenant `t`. */
  lemma JanuarySettled(y: System, owed: int)
    requires JANUARY_END <= y.ingest.now && owed > 0
    requires var w := ReadTenantLlmSpend(y.ingest.store, "t", 0, JANUARY_END, MAX_PERIODS_PER_WINDOW); w.complete && w.cost == owed
    ensures CanMove(y, SETTLE) && After(y, SETTLE).ingest == y.ingest
    ensures var t := After(y, SETTLE);
            && JanuaryRead(t).complete && JanuaryRead(t).cost == owed
            && HasRef(t.ledger, "t", MonthRef(0))
            && Charged(t.ledger, "t", MonthRef(0)) == if HasRef(y.ledger, "t", MonthRef(0)) then Charged(y.ledger, "t", MonthRef(0)) else -owed
  {
    January();
    hide Calendar.YearOf, Calendar.MonthIndex, Calendar.BillingPeriodContaining, ReadTenantLlmSpend, HasRef, Charged, SettlePass, OverageIdemRef;
    SettleThisMonth(y, SETTLE, 0, "t");
  }

  /** A run that meters and then settles January. */
  lemma MeteredThenSettled(y: System, moves: seq<Move>, steps: seq<Step>, t: State, owed: int) returns (after: seq<Move>)
    requires CanMoveAll(y, moves) && Leads(AfterAll(y, moves).ingest, steps, t) && JANUARY_END <= t.now && owed > 0
    requires var w := ReadTenantLlmSpend(t.store, "t", 0, JANUARY_END, MAX_PERIODS_PER_WINDOW); w.complete && w.cost == owed
    ensures after == moves + MeterAll(steps) + [SETTLE] && CanMoveAll(y, after)
    ensures var was, z, ref := AfterAll(y, moves).ledger, AfterAll(y, after), MonthRef(0);
            && z.ingest == t && JanuaryRead(z).complete && JanuaryRead(z).cost == owed
            && HasRef(z.ledger, "t", ref)
            && Charged(z.ledger, "t", ref) == if HasRef(was, "t", ref) then Charged(was, "t", ref) else -owed
  {
    hide *;
    var mid := AfterAll(y, moves);
    Meters(mid, steps, t);
    MovesConcat(y, moves, MeterAll(steps));
    JanuarySettled(mid.(ingest := t), owed);
    OneMove(mid.(ingest := t), SETTLE);
    MovesConcat(y, moves + MeterAll(steps), [SETTLE]);
    after := moves + MeterAll(steps) + [SETTLE];
  }

  /**
   The counterexample: one run of ingestion and settlement together. January 1970 has ended, the guard lets it
   be settled, it reads complete with 5 and 5 is debited. A run in flight then makes it complete with 12, and
   the guard lets it be settled again, but the debit is still 5.
   */
  lemma ClosedGuardIsNotEnough() returns (early: seq<Move>, more: seq<Step>)
    ensures var start, late := System(INITIAL, []), early + MeterAll(more) + [SETTLE];
            && early != [] && early[|early| - 1] == SETTLE && CanMoveAll(start, early) && CanMoveAll(start, late)
            && var y, z := AfterAll(start, early), AfterAll(start, late);
               && JanuaryRead(y).complete && JanuaryRead(y).cost == 5 && Charged(y.ledger, "t", MonthRef(0)) == -5
               && JanuaryRead(z).complete && JanuaryRead(z).cost == 12 && Charged(z.ledger, "t", MonthRef(0)) == -5
  {
    var start := System(INITIAL, []);
    hide *;
    NoMoves(start);
    var before, s := FirstHalf(JANUARY_END);
    NoSteps(s);
    var t: State;
    more, t := SecondHalf(s, [], s, JANUARY_END);
    ReadsDiffer(t.store.watermark, JANUARY_END);
    early := MeteredThenSettled(start, [], before, s, 5);
    var late := MeteredThenSettled(start, early, more, t, 12);
  }

  lemma NoMoves(y: System)
    ensures CanMoveAll(y, []) && AfterAll(y, []) == y && JANUARY_END > 0 && !HasRef([], "t", MonthRef(0))
  {
    hide MonthRef;
  }

  lemma NoSteps(s: State)
    ensures Leads(s, [], s)
  {
  }
}
