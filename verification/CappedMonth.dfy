/**
 Why the monthly reads can fall short of the stored spend: for every cap there is a run that leaves one period
 more than the cap in a month, with the tenant's only event under the last one.
 */
module CappedMonth {
  import opened Basics
  import opened GatewayLog
  import opened Rollup
  import opened SpendStore
  import opened SpendWindow
  import opened IngestMachine
  import opened Ingest
  import opened MonthTotals
  import opened EarlySettlement
  import Calendar

  /** What `n` roll-ups whose probe failed leave behind, all begun at the first instant. */
  function Failures(n: nat): seq<Period> {
    seq(n, k requires 0 <= k < n => Period(k, 0, 0, Failed, false, false, 0, None))
  }

  lemma FailuresEnd(n: nat, watermark: Option<int>, events: seq<Stored>)
    ensures WindowStart(Store(watermark, Failures(n), events), 0) == 0
  {
  }

  lemma OneMoreFailure(n: nat)
    ensures Failures(n) + [Period(n, 0, 0, Failed, false, false, 0, None)] == Failures(n + 1)
  {
  }

  /** Any number of failed roll-ups can pile up. */
  lemma {:induction false} FailuresLead(n: nat) returns (steps: seq<Step>, t: State)
    ensures Leads(INITIAL, steps, t) && Inv(t) && t.log == [] && t.now == 0 && t.store == Store(None, Failures(n), [])
    ensures forall r | r in t.runs :: r < n
  {
    if n == 0 {
      InitialInv();
      LeadsNowhere(INITIAL);
      assert Failures(0) == [];
      return [], INITIAL;
    }
    steps, t := FailuresLead(n - 1);
    steps, t := OneMoreRun(steps, t, n - 1);
  }

  lemma OneMoreRun(steps0: seq<Step>, t0: State, n: nat) returns (steps: seq<Step>, t: State)
    requires Leads(INITIAL, steps0, t0) && Inv(t0) && t0.log == [] && t0.now == 0 && t0.store == Store(None, Failures(n), [])
    requires forall r | r in t0.runs :: r < n
    ensures Leads(INITIAL, steps, t) && Inv(t) && t.log == [] && t.now == 0 && t.store == Store(None, Failures(n + 1), [])
    ensures forall r | r in t.runs :: r < n + 1
  {
    hide Leads, Inv, Failures, WindowStart;
    FailuresEnd(n, None, []);
    OneMoreFailure(n);
    var begun, t1 := BeginLeads(t0, n, 0);
    LeadsThrough(INITIAL, steps0, t0, begun, t1);
    steps, t := Moved(INITIAL, steps0 + begun, t1, ProbeThrows(n));
    steps, t := Moved(INITIAL, steps, t, Open(n));
  }

  /** The next roll-up meters the log's only row under a period of its own. */
  lemma EventUnderLast(n: nat) returns (steps: seq<Step>, t: State)
    ensures Leads(INITIAL, steps, t) && Inv(t) && t.store.events == [Stored(EARLY_EVENT, n)]
    ensures |t.store.periods| == n + 1 && forall k | 0 <= k <= n :: t.store.periods[k].id == k && t.store.periods[k].windowEnd == 0
  {
    hide Leads, Inv, Filtered, ParseRows, InsertAll, ClosePeriods, Newest, LastPeriodEnd, ParseLogRow, WindowStart, Failures;
    LogsParse();
    LogsFilter();
    FailuresEnd(n, None, []);
    var t0: State;
    steps, t0 := FailuresLead(n);
    var begun, t1 := BeginLeads(t0, n, 0);
    LeadsThrough(INITIAL, steps, t0, begun, t1);
    steps, t := Moved(INITIAL, steps + begun, t1, Arrive(EARLY));
    assert t.log == [EARLY];
    steps, t := RunToClose(INITIAL, steps, t, n, [EARLY], [EARLY_EVENT]);
    OneEventStored(n);
    ClosedWindows(n, |t.store.events|, t.now);
  }

  lemma OneEventStored(n: nat)
    ensures InsertAll([], [EARLY_EVENT], n) == [Stored(EARLY_EVENT, n)]
  {
    assert [EARLY_EVENT][..0] == [];
    assert InsertAll([], [], n) == [];
  }

  lemma ClosedWindows(n: nat, rows: nat, at: int)
    ensures var periods := ClosePeriods(Failures(n) + [Period(n, 0, 0, Complete, true, false, 0, None)], n, rows, at);
            |periods| == n + 1 && forall k | 0 <= k <= n :: periods[k].id == k && periods[k].windowEnd == 0
  {
    var before := Failures(n) + [Period(n, 0, 0, Complete, true, false, 0, None)];
    hide ClosePeriods;
    forall k | 0 <= k <= n
      ensures var p := ClosePeriods(before, n, rows, at)[k]; p.id == k && p.windowEnd == 0
    {
      ClosedAt(before, n, rows, at, k);
    }
  }

  lemma {:induction false} AllInWindow(periods: seq<Period>, a: int, b: int)
    requires forall k | 0 <= k < |periods| :: a <= periods[k].windowEnd < b
    ensures WindowPeriods(periods, a, b) == periods
  {
    if periods != [] {
      var front := periods[..|periods| - 1];
      assert forall k | 0 <= k < |front| :: front[k] == periods[k];
      AllInWindow(front, a, b);
    }
  }

  lemma {:induction false} RankOfLast(periods: seq<Period>, p: Period)
    requires forall k | 0 <= k < |periods| :: Precedes(periods[k], p)
    ensures Rank(periods, p) == |periods|
  {
    hide Precedes;
    if periods != [] {
      var front := periods[..|periods| - 1];
      assert forall k | 0 <= k < |front| :: front[k] == periods[k];
      RankOfLast(front, p);
    }
  }

  lemma LastIsBeyond(periods: seq<Period>, n: nat, month: int)
    requires |periods| == n + 1 && forall k | 0 <= k <= n :: periods[k].id == k && periods[k].windowEnd == 0
    requires month == Calendar.MonthIndex(0)
    ensures |MonthCensus(periods, month)| == n + 1 && !WithinCap(periods, n, n)
  {
    hide Calendar.FirstOf, Calendar.MonthIndex, WindowPeriods;
    Calendar.MonthBounds(0);
    AllInWindow(periods, Calendar.FirstOf(month), Calendar.FirstOf(month + 1));
    RankOfLast(periods[..n], periods[n]);
    assert Rank(periods, periods[n]) == n;
  }

  /**
   For every cap there is a reachable state with one period more than the cap in January 1970, in which the reads of
   that month, which holds every period, do not add up to the tenant's stored spend.
   */
  lemma SpendBeyondTheCap(max: nat) returns (steps: seq<Step>, t: State)
    ensures Leads(INITIAL, steps, t)
    ensures var month := Calendar.MonthIndex(0);
            && |MonthCensus(t.store.periods, month)| == |t.store.periods| == max + 1
            && MonthlyReads(t.store, "t", month, month + 1, max) != TenantSums(t.store.events, "t")
  {
    hide *;
    var month := Calendar.MonthIndex(0);
    steps, t := EventUnderLast(max);
    LastIsBeyond(t.store.periods, max, month);
    Calendar.MonthBounds(0);
    EarlyIsOfTenant();
    SpendConservedExactly(t, "t", month, month + 1, max);
    assert t.store.events[0] == Stored(EARLY_EVENT, max);
  }

  lemma EarlyIsOfTenant()
    ensures EARLY_EVENT.tenantId == Some("t")
  {
  }
}
