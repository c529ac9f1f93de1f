/** Tiling of time by sequential runs, and conservation of spend over the months. */
module MonthTotals {
  import opened Basics
  import opened GatewayLog
  import opened Rollup
  import opened SpendStore
  import opened SpendWindow
  import opened IngestMachine
  import opened Ingest
  import Calendar

  // ---- conservation ----

  function Plus(a: WindowSums, b: WindowSums): WindowSums {
    WindowSums(a.cost + b.cost, a.requests + b.requests, a.unpriced + b.unpriced)
  }

  /** Cost, requests and unpriced requests of one tenant over a list of stored events. */
  function TenantSums(events: seq<Stored>, tenant: string): WindowSums {
    if events == [] then WindowSums(0, 0, 0)
    else
      var last, rest := events[|events| - 1], TenantSums(events[..|events| - 1], tenant);
      if last.event.tenantId == Some(tenant) then Add(rest, last.event) else rest
  }

  lemma TenantSumsSnoc(events: seq<Stored>, e: Stored, tenant: string)
    ensures TenantSums(events + [e], tenant)
            == if e.event.tenantId == Some(tenant) then Add(TenantSums(events, tenant), e.event) else TenantSums(events, tenant)
  {
    assert (events + [e])[..|events|] == events;
  }

  lemma WindowSumsLast(events: seq<Stored>, periods: seq<Period>, tenant: string, a: int, b: int)
    requires events != []
    ensures var last := events[|events| - 1];
            var before := TenantSums(WindowEvents(events[..|events| - 1], periods, a, b), tenant);
            TenantSums(WindowEvents(events, periods, a, b), tenant)
            == if InSpan(EndOf(periods, last.period), a, b) && last.event.tenantId == Some(tenant) then Add(before, last.event)
               else before
  {
    hide TenantSums, EndOf;
    var front, last := events[..|events| - 1], events[|events| - 1];
    TenantSumsSnoc(WindowEvents(front, periods, a, b), last, tenant);
    assert WindowEvents(front, periods, a, b) + [] == WindowEvents(front, periods, a, b);
  }

  /** Two adjoining windows share out the events of their union. */
  lemma {:induction false} WindowsSplit(events: seq<Stored>, periods: seq<Period>, tenant: string, a: int, b: int, c: int)
    requires a <= b <= c
    ensures TenantSums(WindowEvents(events, periods, a, c), tenant)
            == Plus(TenantSums(WindowEvents(events, periods, a, b), tenant),
                    TenantSums(WindowEvents(events, periods, b, c), tenant))
  {
    if events == [] {
      hide EndOf;
      assert forall x, y :: WindowEvents(events, periods, x, y) == [];
    } else {
      hide *;
      WindowsSplit(events[..|events| - 1], periods, tenant, a, b, c);
      WindowSumsLast(events, periods, tenant, a, c);
      WindowSumsLast(events, periods, tenant, a, b);
      WindowSumsLast(events, periods, tenant, b, c);
      SpanSplit(EndOf(periods, events[|events| - 1].period), a, b, c);
      var front := events[..|events| - 1];
      PlusAdd(TenantSums(WindowEvents(front, periods, a, b), tenant), TenantSums(WindowEvents(front, periods, b, c), tenant),
              events[|events| - 1].event);
    }
  }

  lemma SpanSplit(end: Option<int>, a: int, b: int, c: int)
    requires a <= b <= c
    ensures InSpan(end, a, c) <==> InSpan(end, a, b) || InSpan(end, b, c)
    ensures !(InSpan(end, a, b) && InSpan(end, b, c))
  {
  }

  lemma PlusAdd(x: WindowSums, y: WindowSums, e: SpendEvent)
    ensures Add(Plus(x, y), e) == Plus(Add(x, e), y) == Plus(x, Add(y, e))
  {
  }

  /** The totals of the months `lo` to `hi`, each read as the settlement reads it. */
  function MonthlyReads(store: Store, tenant: string, lo: int, hi: int, max: nat): WindowSums
    decreases hi - lo
  {
    if hi <= lo then WindowSums(0, 0, 0)
    else
      var w := ReadTenantLlmSpend(store, tenant, Calendar.FirstOf(hi - 1), Calendar.FirstOf(hi), max);
      Plus(MonthlyReads(store, tenant, lo, hi - 1, max), WindowSums(if w.cost >= 0 then w.cost else 0, w.requests, w.unpriced))
  }

  /** A census that is not cut off bills every event of its window, and no other. */
  lemma ReadSumsWindow(store: Store, tenant: string, a: int, b: int, max: nat)
    requires DistinctIds(store.periods) && |WindowPeriods(store.periods, a, b)| <= max
    requires forall k | 0 <= k < |store.events| :: HasPeriod(store.periods, store.events[k].period)
    ensures var w := ReadTenantLlmSpend(store, tenant, a, b, max);
            WindowSums(if w.cost >= 0 then w.cost else 0, w.requests, w.unpriced)
            == TenantSums(WindowEvents(store.events, store.periods, a, b), tenant)
  {
    var census := WindowPeriods(store.periods, a, b);
    var ids := SliceIds(census, census, max);
    forall k | 0 <= k < |store.events|
      ensures store.events[k].period in ids <==> InSpan(EndOf(store.periods, store.events[k].period), a, b)
    {
      BilledIffInWindow(store.periods, store.events[k].period, a, b, max);
    }
    hide SliceIds, WindowPeriods, EndOf, HasPeriod;
    SumsOfWindow(store.events, store.periods, tenant, a, b, ids);
    ReadIsSums(store, tenant, a, b, max);
  }

  lemma BilledIffInWindow(periods: seq<Period>, id: nat, a: int, b: int, max: nat)
    requires DistinctIds(periods) && HasPeriod(periods, id) && |WindowPeriods(periods, a, b)| <= max
    ensures var census := WindowPeriods(periods, a, b);
            id in SliceIds(census, census, max) <==> InSpan(EndOf(periods, id), a, b)
  {
    var census := WindowPeriods(periods, a, b);
    var k :| 0 <= k < |periods| && periods[k].id == id;
    EndOfMember(periods, k);
    SliceInSpan(periods, a, b, max);
    SliceIdsNamed(census, census, max, id);
    WindowMembers(periods, a, b, periods[k]);
    hide WindowPeriods, SliceIds, EndOf;
    if periods[k] in census {
      RankBelowCount(census, periods[k]);
      var j :| 0 <= j < |census| && census[j] == periods[k];
    }
  }

  lemma {:induction false} SumsOfWindow(events: seq<Stored>, periods: seq<Period>, tenant: string, a: int, b: int, ids: seq<nat>)
    requires forall k | 0 <= k < |events| :: events[k].period in ids <==> InSpan(EndOf(periods, events[k].period), a, b)
    ensures Sums(events, tenant, ids) == TenantSums(WindowEvents(events, periods, a, b), tenant)
  {
    if events != [] {
      hide TenantSums, EndOf;
      var front, last := events[..|events| - 1], events[|events| - 1];
      assert forall k | 0 <= k < |front| :: front[k] == events[k];
      SumsOfWindow(front, periods, tenant, a, b, ids);
      WindowSumsLast(events, periods, tenant, a, b);
    } else {
      assert WindowEvents([], periods, a, b) == [];
    }
  }

  lemma {:induction false} MonthsAddUp(store: Store, tenant: string, lo: int, hi: int, max: nat)
    requires lo <= hi && DistinctIds(store.periods)
    requires forall k | 0 <= k < |store.events| :: HasPeriod(store.periods, store.events[k].period)
    requires forall i | lo <= i < hi :: |WindowPeriods(store.periods, Calendar.FirstOf(i), Calendar.FirstOf(i + 1))| <= max
    ensures MonthlyReads(store, tenant, lo, hi, max)
            == TenantSums(WindowEvents(store.events, store.periods, Calendar.FirstOf(lo), Calendar.FirstOf(hi)), tenant)
    decreases hi - lo
  {
    hide WindowPeriods, EndOf, HasPeriod, DistinctIds, Calendar.FirstOf, ReadTenantLlmSpend, WindowEvents, TenantSums;
    if lo == hi {
      EmptySpan(store.events, store.periods, tenant, Calendar.FirstOf(lo));
    } else {
      MonthsAddUp(store, tenant, lo, hi - 1, max);
      ReadSumsWindow(store, tenant, Calendar.FirstOf(hi - 1), Calendar.FirstOf(hi - 1 + 1), max);
      if lo < hi - 1 { Calendar.MonthsAscend(lo, hi - 1); }
      Calendar.MonthsAscend(hi - 1, hi);
      WindowsSplit(store.events, store.periods, tenant, Calendar.FirstOf(lo), Calendar.FirstOf(hi - 1), Calendar.FirstOf(hi));
    }
  }

  lemma {:induction false} EmptySpan(events: seq<Stored>, periods: seq<Period>, tenant: string, a: int)
    ensures TenantSums(WindowEvents(events, periods, a, a), tenant) == WindowSums(0, 0, 0)
  {
    if events != [] {
      EmptySpan(events[..|events| - 1], periods, tenant, a);
      assert WindowEvents(events, periods, a, a) == WindowEvents(events[..|events| - 1], periods, a, a);
    }
  }

  lemma {:induction false} WholeSpan(events: seq<Stored>, periods: seq<Period>, a: int, b: int)
    requires forall k | 0 <= k < |events| :: InSpan(EndOf(periods, events[k].period), a, b)
    ensures WindowEvents(events, periods, a, b) == events
  {
    if events != [] {
      var front := events[..|events| - 1];
      assert forall k | 0 <= k < |front| :: front[k] == events[k];
      WholeSpan(front, periods, a, b);
    }
  }

  /**
   Conservation. In every reachable state, once the months `lo` to `hi` cover every period, the monthly
   reads of a tenant add up to all its stored spend: priced cost, requests and unpriced requests alike.
   */
  lemma SpendConserved(s: State, tenant: string, lo: int, hi: int, max: nat)
    requires Inv(s) && lo <= hi
    requires forall k | 0 <= k < |s.store.periods| ::
               Calendar.FirstOf(lo) <= s.store.periods[k].windowEnd < Calendar.FirstOf(hi)
    requires forall i | lo <= i < hi :: |WindowPeriods(s.store.periods, Calendar.FirstOf(i), Calendar.FirstOf(i + 1))| <= max
    ensures MonthlyReads(s.store, tenant, lo, hi, max) == TenantSums(s.store.events, tenant)
  {
    hide RunSound, WatermarkSound, PeriodSound, Calendar.FirstOf, WindowPeriods, MonthlyReads, TenantSums, WindowEvents, EndOf;
    forall k | 0 <= k < |s.store.events|
      ensures InSpan(EndOf(s.store.periods, s.store.events[k].period), Calendar.FirstOf(lo), Calendar.FirstOf(hi))
    {
      assert HasPeriod(s.store.periods, s.store.events[k].period);
      var j :| 0 <= j < |s.store.periods| && s.store.periods[j].id == s.store.events[k].period;
      EndOfMember(s.store.periods, j);
    }
    MonthsAddUp(s.store, tenant, lo, hi, max);
    WholeSpan(s.store.events, s.store.periods, Calendar.FirstOf(lo), Calendar.FirstOf(hi));
  }

  // ---- conservation, exactly ----

  /** The periods the read of month `i` sees, and the ids of those it sums. */
  function MonthCensus(periods: seq<Period>, i: int): seq<Period> {
    WindowPeriods(periods, Calendar.FirstOf(i), Calendar.FirstOf(i + 1))
  }

  function BilledIds(periods: seq<Period>, i: int, max: nat): seq<nat> {
    SliceIds(MonthCensus(periods, i), MonthCensus(periods, i), max)
  }

  predicate OfTenantIn(e: Stored, periods: seq<Period>, tenant: string, a: int, b: int) {
    e.event.tenantId == Some(tenant) && InSpan(EndOf(periods, e.period), a, b)
  }

  /** A sum over some of a window's periods is the window's own exactly when no event of the tenant is left out. */
  lemma {:induction false} SumsBelowWindow(events: seq<Stored>, periods: seq<Period>, tenant: string, a: int, b: int, ids: seq<nat>)
    requires forall k | 0 <= k < |events| && events[k].period in ids :: InSpan(EndOf(periods, events[k].period), a, b)
    ensures var some, whole := Sums(events, tenant, ids), TenantSums(WindowEvents(events, periods, a, b), tenant);
            && some.requests <= whole.requests
            && (some == whole <==> some.requests == whole.requests)
            && (some == whole <==> forall k | 0 <= k < |events| && OfTenantIn(events[k], periods, tenant, a, b) :: events[k].period in ids)
  {
    if events == [] {
      assert WindowEvents([], periods, a, b) == [];
    } else {
      hide TenantSums, EndOf;
      var front, last := events[..|events| - 1], events[|events| - 1];
      assert forall k | 0 <= k < |front| :: front[k] == events[k];
      SumsBelowWindow(front, periods, tenant, a, b, ids);
      WindowSumsLast(events, periods, tenant, a, b);
    }
  }

  predicate OfTenantInMonth(e: Stored, periods: seq<Period>, tenant: string, i: int) {
    OfTenantIn(e, periods, tenant, Calendar.FirstOf(i), Calendar.FirstOf(i + 1))
  }

  /** No event of the tenant lies in month `i` under a period that the month's read leaves out. */
  predicate NoneCut(store: Store, tenant: string, i: int, max: nat) {
    forall k | 0 <= k < |store.events| && OfTenantInMonth(store.events[k], store.periods, tenant, i) ::
      store.events[k].period in BilledIds(store.periods, i, max)
  }

  function ReadSums(store: Store, tenant: string, i: int, max: nat): WindowSums {
    var w := ReadTenantLlmSpend(store, tenant, Calendar.FirstOf(i), Calendar.FirstOf(i + 1), max);
    WindowSums(if w.cost >= 0 then w.cost else 0, w.requests, w.unpriced)
  }

  lemma ReadBelowMonth(store: Store, tenant: string, i: int, max: nat)
    requires DistinctIds(store.periods)
    ensures var read := ReadSums(store, tenant, i, max);
            var whole := TenantSums(WindowEvents(store.events, store.periods, Calendar.FirstOf(i), Calendar.FirstOf(i + 1)), tenant);
            && read.requests <= whole.requests && (read == whole <==> read.requests == whole.requests)
            && (read == whole <==> NoneCut(store, tenant, i, max))
  {
    var a, b := Calendar.FirstOf(i), Calendar.FirstOf(i + 1);
    SliceInSpan(store.periods, a, b, max);
    ReadIsSums(store, tenant, a, b, max);
    hide Calendar.FirstOf, WindowPeriods, SliceIds, Sums, ReadSums, EndOf, TenantSums, WindowEvents, DistinctIds;
    SumsBelowWindow(store.events, store.periods, tenant, a, b, BilledIds(store.periods, i, max));
  }

  lemma {:induction false} MonthsBelow(store: Store, tenant: string, lo: int, hi: int, max: nat)
    requires lo <= hi && DistinctIds(store.periods)
    ensures var billed := MonthlyReads(store, tenant, lo, hi, max);
            var whole := TenantSums(WindowEvents(store.events, store.periods, Calendar.FirstOf(lo), Calendar.FirstOf(hi)), tenant);
            && billed.requests <= whole.requests && (billed == whole <==> billed.requests == whole.requests)
            && (billed == whole <==> forall i | lo <= i < hi :: NoneCut(store, tenant, i, max))
    decreases hi - lo
  {
    hide NoneCut, DistinctIds, Calendar.FirstOf, ReadTenantLlmSpend, WindowEvents, TenantSums;
    if lo == hi {
      EmptySpan(store.events, store.periods, tenant, Calendar.FirstOf(lo));
    } else {
      MonthsBelow(store, tenant, lo, hi - 1, max);
      ReadBelowMonth(store, tenant, hi - 1, max);
      if lo < hi - 1 { Calendar.MonthsAscend(lo, hi - 1); }
      Calendar.MonthsAscend(hi - 1, hi);
      WindowsSplit(store.events, store.periods, tenant, Calendar.FirstOf(lo), Calendar.FirstOf(hi - 1), Calendar.FirstOf(hi));
    }
  }

  /** The period `id` is among the first `max` of its own month, in the order of the read. */
  ghost predicate WithinCap(periods: seq<Period>, id: nat, max: nat) {
    exists j :: 0 <= j < |periods| && periods[j].id == id
                && Rank(MonthCensus(periods, Calendar.MonthIndex(periods[j].windowEnd)), periods[j]) < max
  }

  lemma BilledExactly(periods: seq<Period>, j: nat, i: int, max: nat)
    requires DistinctIds(periods) && j < |periods| && i == Calendar.MonthIndex(periods[j].windowEnd)
    ensures periods[j].id in BilledIds(periods, i, max) <==> WithinCap(periods, periods[j].id, max)
  {
    hide Calendar.FirstOf, Calendar.MonthIndex, WindowPeriods, SliceIds, Rank;
    var p, census := periods[j], MonthCensus(periods, i);
    SliceIdsNamed(census, census, max, p.id);
    PeriodInOneMonth(p, i);
    WindowMembers(periods, Calendar.FirstOf(i), Calendar.FirstOf(i + 1), p);
    var m :| 0 <= m < |census| && census[m] == p;
    forall k | 0 <= k < |census| && census[k].id == p.id
      ensures census[k] == p
    {
      WindowMembers(periods, Calendar.FirstOf(i), Calendar.FirstOf(i + 1), census[k]);
      var n :| 0 <= n < |periods| && periods[n] == census[k];
    }
  }

  /**
   Conservation, exactly. In every reachable state, once the months `lo` to `hi` cover every period: the monthly
   reads of a tenant add up to all its stored spend if and only if each of its events lies under a period that is
   among the first `max` of its month.
   */
  lemma SpendConservedExactly(s: State, tenant: string, lo: int, hi: int, max: nat)
    requires Inv(s) && lo <= hi
    requires forall k | 0 <= k < |s.store.periods| ::
               Calendar.FirstOf(lo) <= s.store.periods[k].windowEnd < Calendar.FirstOf(hi)
    ensures MonthlyReads(s.store, tenant, lo, hi, max) == TenantSums(s.store.events, tenant)
            <==> forall k | 0 <= k < |s.store.events| && s.store.events[k].event.tenantId == Some(tenant) ::
                   WithinCap(s.store.periods, s.store.events[k].period, max)
  {
    hide RunSound, WatermarkSound, PeriodSound, Calendar.FirstOf, Calendar.MonthIndex, WindowPeriods, MonthlyReads, TenantSums, WindowEvents,
      EndOf, WithinCap, BilledIds;
    var periods, events := s.store.periods, s.store.events;
    forall k | 0 <= k < |events|
      ensures InSpan(EndOf(periods, events[k].period), Calendar.FirstOf(lo), Calendar.FirstOf(hi))
      ensures events[k].event.tenantId == Some(tenant) ==>
                (WithinCap(periods, events[k].period, max) <==> EventBilled(s.store, k, tenant, lo, hi, max))
    {
      assert HasPeriod(periods, events[k].period);
      var j :| 0 <= j < |periods| && periods[j].id == events[k].period;
      EndOfMember(periods, j);
      EventBilledExactly(s.store, k, j, tenant, lo, hi, max);
    }
    MonthsBelow(s.store, tenant, lo, hi, max);
    WholeSpan(events, periods, Calendar.FirstOf(lo), Calendar.FirstOf(hi));
    CutByEvent(s.store, tenant, lo, hi, max);
  }

  lemma CutByEvent(store: Store, tenant: string, lo: int, hi: int, max: nat)
    ensures (forall i | lo <= i < hi :: NoneCut(store, tenant, i, max))
            <==> forall k | 0 <= k < |store.events| :: EventBilled(store, k, tenant, lo, hi, max)
  {
    hide OfTenantInMonth, BilledIds;
    if forall k | 0 <= k < |store.events| :: EventBilled(store, k, tenant, lo, hi, max) {
      forall i | lo <= i < hi
        ensures NoneCut(store, tenant, i, max)
      {
        forall k | 0 <= k < |store.events| && OfTenantInMonth(store.events[k], store.periods, tenant, i)
          ensures store.events[k].period in BilledIds(store.periods, i, max)
        {
          assert EventBilled(store, k, tenant, lo, hi, max);
        }
      }
    } else {
      var k :| 0 <= k < |store.events| && !EventBilled(store, k, tenant, lo, hi, max);
      var i :| lo <= i < hi && OfTenantInMonth(store.events[k], store.periods, tenant, i)
               && store.events[k].period !in BilledIds(store.periods, i, max);
      assert !NoneCut(store, tenant, i, max);
    }
  }

  /** Event `k` is billed by whichever of the months it falls in. */
  ghost predicate EventBilled(store: Store, k: nat, tenant: string, lo: int, hi: int, max: nat)
    requires k < |store.events|
  {
    forall i | lo <= i < hi && OfTenantInMonth(store.events[k], store.periods, tenant, i) ::
      store.events[k].period in BilledIds(store.periods, i, max)
  }

  lemma EventBilledExactly(store: Store, k: nat, j: nat, tenant: string, lo: int, hi: int, max: nat)
    requires DistinctIds(store.periods) && k < |store.events| && j < |store.periods| && store.periods[j].id == store.events[k].period
    requires Calendar.FirstOf(lo) <= store.periods[j].windowEnd < Calendar.FirstOf(hi)
    ensures store.events[k].event.tenantId == Some(tenant) ==>
              (WithinCap(store.periods, store.events[k].period, max) <==> EventBilled(store, k, tenant, lo, hi, max))
    ensures store.events[k].event.tenantId != Some(tenant) ==> EventBilled(store, k, tenant, lo, hi, max)
  {
    hide Calendar.FirstOf, Calendar.MonthIndex, EndOf, WithinCap, BilledIds, DistinctIds;
    var p := store.periods[j];
    var month := Calendar.MonthIndex(p.windowEnd);
    EndOfMember(store.periods, j);
    BilledExactly(store.periods, j, month, max);
    MonthWithin(p.windowEnd, lo, hi);
    forall i { PeriodInOneMonth(p, i); }
    assert store.events[k].event.tenantId == Some(tenant) ==> OfTenantInMonth(store.events[k], store.periods, tenant, month);
  }

  lemma MonthWithin(at: int, lo: int, hi: int)
    requires Calendar.FirstOf(lo) <= at < Calendar.FirstOf(hi)
    ensures lo <= Calendar.MonthIndex(at) < hi
  {
    hide Calendar.FirstOf, Calendar.MonthIndex;
    Calendar.MonthBounds(at);
    var m := Calendar.MonthIndex(at);
    if m < lo && m + 1 < lo { Calendar.MonthsAscend(m + 1, lo); }
    if hi < m { Calendar.MonthsAscend(hi, m); }
  }

  /** A period belongs to one month and no other. */
  lemma PeriodInOneMonth(p: Period, i: int)
    ensures InSpan(Some(p.windowEnd), Calendar.FirstOf(i), Calendar.FirstOf(i + 1)) <==> i == Calendar.MonthIndex(p.windowEnd)
  {
    hide Calendar.FirstOf, Calendar.MonthIndex;
    Calendar.MonthIndexUnique(p.windowEnd, i);
  }

  // ---- tiling ----

  /** No run starts while another is in flight. */
  ghost predicate Sequential(s: State, step: Step) {
    step.Start? ==> forall r | r in s.runs :: s.runs[r].Ended?
  }

  ghost predicate SequentialRun(s: State, steps: seq<Step>)
    requires CanRun(s, steps)
    decreases |steps|
  {
    steps == [] || (Sequential(s, steps[0]) && SequentialRun(Apply(s, steps[0]), steps[1..]))
  }

  ghost predicate Tiles(periods: seq<Period>) {
    && (periods != [] ==> periods[0].windowStart == periods[0].windowEnd)
    && (forall k | 0 <= k < |periods| :: periods[k].windowStart <= periods[k].windowEnd)
    && forall k | 0 < k < |periods| :: periods[k].windowStart == periods[k - 1].windowEnd
  }

  function EndAt(periods: seq<Period>, otherwise: int): int {
    if periods == [] then otherwise else periods[|periods| - 1].windowEnd
  }

  ghost predicate TileInv(s: State) {
    && Tiles(s.store.periods)
    && EndAt(s.store.periods, s.now) <= s.now
    && (forall q, r | q in s.runs && r in s.runs && !s.runs[q].Ended? && !s.runs[r].Ended? :: q == r)
    && forall r | r in s.runs ::
         var run := s.runs[r];
         && run.startedAt <= s.now
         && (run.Began? || run.KnowsWatermark? || run.KnowsEnd? || run.Paging? || run.Rolled?
             ==> EndAt(s.store.periods, run.startedAt) <= run.startedAt)
         && (run.KnowsEnd? || run.Paging? || run.Rolled? ==> run.windowStart == EndAt(s.store.periods, run.startedAt))
  }

  lemma {:induction false} TilesEnd(periods: seq<Period>)
    requires Tiles(periods) && periods != []
    ensures LastPeriodEnd(periods) == Some(periods[|periods| - 1].windowEnd)
  {
    if |periods| > 1 {
      TilesFront(periods);
      TilesEnd(periods[..|periods| - 1]);
      hide Tiles;
    } else {
      hide Tiles;
      assert periods[..|periods| - 1] == [];
    }
  }

  lemma TilesFront(periods: seq<Period>)
    requires Tiles(periods) && |periods| > 1
    ensures var front, last := periods[..|periods| - 1], periods[|periods| - 1];
            Tiles(front) && front[|front| - 1].windowEnd <= last.windowEnd
  {
  }

  lemma CloseKeepsTiles(s: State, r: nat)
    requires TileInv(s) && Enabled(s, Close(r))
    ensures TileInv(Apply(s, Close(r)))
  {
    var periods, closed := s.store.periods, ClosePeriods(s.store.periods, r, s.runs[r].written, s.now);
    forall k | 0 <= k < |periods|
      ensures closed[k].windowStart == periods[k].windowStart && closed[k].windowEnd == periods[k].windowEnd
    {
      ClosedAt(periods, r, s.runs[r].written, s.now, k);
    }
    hide ClosePeriods;
    assert Tiles(closed);
    assert forall otherwise :: EndAt(closed, otherwise) == EndAt(periods, otherwise);
    hide Tiles, EndAt;
  }

  lemma StepKeepsTiles(s: State, step: Step)
    requires TileInv(s) && Enabled(s, step) && Sequential(s, step)
    ensures TileInv(Apply(s, step))
  {
    hide TileInv, Enabled, Apply, Sequential;
    match step
    case ReadLastEnd(r) => ReadKeepsTiles(s, r);
    case Open(r) => OpenKeepsTiles(s, r);
    case Close(r) => CloseKeepsTiles(s, r);
    case Tick(_) => ClockKeepsTiles(s, step);
    case Arrive(_) => ClockKeepsTiles(s, step);
    case Start(r) => StartKeepsTiles(s, r);
    case _ => MoveKeepsTiles(s, step);
  }

  lemma ReadKeepsTiles(s: State, r: nat)
    requires TileInv(s) && Enabled(s, ReadLastEnd(r))
    ensures TileInv(Apply(s, ReadLastEnd(r)))
  {
    hide LastPeriodEnd;
    if s.store.periods != [] { TilesEnd(s.store.periods); }
    hide Tiles;
  }

  lemma OpenKeepsTiles(s: State, r: nat)
    requires TileInv(s) && Enabled(s, Open(r))
    ensures TileInv(Apply(s, Open(r)))
  {
  }

  lemma ClockKeepsTiles(s: State, step: Step)
    requires TileInv(s) && Enabled(s, step) && (step.Tick? || step.Arrive?)
    ensures TileInv(Apply(s, step))
  {
    hide Tiles;
  }

  lemma StartKeepsTiles(s: State, r: nat)
    requires TileInv(s) && Enabled(s, Start(r)) && Sequential(s, Start(r))
    ensures TileInv(Apply(s, Start(r)))
  {
    hide Tiles;
  }

  /** A step that writes no period keeps the tiling. */
  lemma MoveKeepsTiles(s: State, step: Step)
    requires TileInv(s) && Enabled(s, step)
    requires !step.Arrive? && !step.Tick? && !step.Start? && !step.ReadLastEnd? && !step.Open? && !step.Close?
    ensures TileInv(Apply(s, step))
  {
    hide Filtered, ParseRows, Newest, InsertAll, ClosePeriods, LastPeriodEnd, Tiles;
    var t := Apply(s, step);
    assert t.store.periods == s.store.periods && t.now == s.now && t.runs == s.runs[step.r := t.runs[step.r]];
    assert t.runs[step.r].startedAt == s.runs[step.r].startedAt;
  }

  /** One run at a time, the periods tile time: the first is empty, each starts where the last one ended. */
  lemma {:induction false} SequentialRunsTile(s: State, steps: seq<Step>)
    requires TileInv(s) && CanRun(s, steps) && SequentialRun(s, steps)
    ensures TileInv(Exec(s, steps))
    decreases |steps|
  {
    if steps != [] {
      StepKeepsTiles(s, steps[0]);
      hide Apply, Enabled, TileInv, Sequential;
      SequentialRunsTile(Apply(s, steps[0]), steps[1..]);
    }
  }

  lemma InitialTiles()
    ensures TileInv(INITIAL)
  {
  }

  /** Every instant from the first period to the last lies in exactly one of them. */
  lemma {:induction false} TilesCover(periods: seq<Period>, t: int) returns (k: nat)
    requires Tiles(periods) && periods != [] && periods[0].windowStart <= t < periods[|periods| - 1].windowEnd
    ensures k < |periods| && periods[k].windowStart <= t < periods[k].windowEnd
    ensures forall j | 0 <= j < |periods| && periods[j].windowStart <= t < periods[j].windowEnd :: j == k
  {
    k := |periods| - 1;
    while t < periods[k].windowStart
      invariant k < |periods| && t < periods[k].windowEnd
      decreases k
    {
      k := k - 1;
    }
    forall j | 0 <= j < |periods| && periods[j].windowStart <= t < periods[j].windowEnd
      ensures j == k
    {
      if j < k { TilesAscend(periods, j, k); }
      if k < j { TilesAscend(periods, k, j); }
    }
  }

  lemma {:induction false} TilesAscend(periods: seq<Period>, j: nat, k: nat)
    requires Tiles(periods) && j < k < |periods|
    ensures periods[j].windowEnd <= periods[k].windowStart
    decreases k - j
  {
    if j + 1 < k { TilesAscend(periods, j, k - 1); }
  }

  // ---- exactly when the periods tile ----

  /** Opening a period keeps the tiling exactly when it starts at the last end and not after its own. */
  lemma OpenTilesExactly(s: State, r: nat)
    requires Enabled(s, Open(r)) && Tiles(s.store.periods)
    ensures Tiles(Apply(s, Open(r)).store.periods)
            <==> s.runs[r].windowStart == EndAt(s.store.periods, s.runs[r].startedAt) && s.runs[r].windowStart <= s.runs[r].startedAt
  {
    var periods, after := s.store.periods, Apply(s, Open(r)).store.periods;
    assert after == periods + [PeriodOf(r, s.runs[r])];
    hide PeriodOf;
    assert forall k | 0 <= k < |periods| :: after[k] == periods[k];
    assert after[|periods|] == PeriodOf(r, s.runs[r]);
  }

  /** Two lists of periods over the same windows. */
  ghost predicate SameWindows(a: seq<Period>, b: seq<Period>) {
    |a| == |b| && forall k | 0 <= k < |a| :: a[k].windowStart == b[k].windowStart && a[k].windowEnd == b[k].windowEnd
  }

  lemma SameWindowsTile(a: seq<Period>, b: seq<Period>)
    requires SameWindows(a, b)
    ensures Tiles(a) <==> Tiles(b)
  {
  }

  lemma CloseKeepsWindows(periods: seq<Period>, r: nat, rows: nat, at: int)
    ensures SameWindows(periods, ClosePeriods(periods, r, rows, at))
  {
    forall k | 0 <= k < |periods|
      ensures ClosePeriods(periods, r, rows, at)[k].windowStart == periods[k].windowStart
      ensures ClosePeriods(periods, r, rows, at)[k].windowEnd == periods[k].windowEnd
    {
      ClosedAt(periods, r, rows, at, k);
    }
  }

  /** Only opening a period touches the windows. */
  lemma OtherStepsKeepWindows(s: State, step: Step)
    requires Enabled(s, step) && !step.Open?
    ensures SameWindows(s.store.periods, Apply(s, step).store.periods)
  {
    hide Filtered, ParseRows, Newest, InsertAll, ClosePeriods, LastPeriodEnd;
    if step.Close? { CloseKeepsWindows(s.store.periods, step.r, s.runs[step.r].written, s.now); }
  }

  lemma BrokenTilesStay(s: State, step: Step)
    requires Enabled(s, step) && !Tiles(s.store.periods)
    ensures !Tiles(Apply(s, step).store.periods)
  {
    if step.Open? {
      var periods, after := s.store.periods, Apply(s, step).store.periods;
      assert forall k | 0 <= k < |periods| :: after[k] == periods[k];
      if Tiles(after) { assert Tiles(periods); }
    } else {
      OtherStepsKeepWindows(s, step);
      SameWindowsTile(s.store.periods, Apply(s, step).store.periods);
    }
  }

  lemma {:induction false} BrokenTilesStayBroken(s: State, steps: seq<Step>)
    requires CanRun(s, steps) && !Tiles(s.store.periods)
    ensures !Tiles(Exec(s, steps).store.periods)
    decreases |steps|
  {
    if steps != [] {
      BrokenTilesStay(s, steps[0]);
      hide Apply, Enabled, Tiles;
      BrokenTilesStayBroken(Apply(s, steps[0]), steps[1..]);
    }
  }

  predicate KnowsItsStart(run: Run) {
    run.KnowsEnd? || run.Paging? || run.Rolled?
  }

  /** How many periods there were when each run read where the last one ended. */
  function SeenAfter(s: State, seen: map<nat, nat>, step: Step): map<nat, nat> {
    if step.ReadLastEnd? then seen[step.r := |s.store.periods|] else seen
  }

  /** A run that knows where its window starts took it from the periods it saw. */
  ghost predicate SeenSound(s: State, seen: map<nat, nat>) {
    forall r | r in s.runs && KnowsItsStart(s.runs[r]) ::
      && r in seen && seen[r] <= |s.store.periods|
      && s.runs[r].windowStart == EndAt(s.store.periods[..seen[r]], s.runs[r].startedAt)
  }

  /**
   No period was opened since run `r` read the last end, or the latest one ends exactly where the run's window
   starts; and the run did not start before that.
   */
  ghost predicate Undisturbed(s: State, seen: map<nat, nat>, r: nat) {
    && r in s.runs && s.runs[r].Rolled? && r in seen
    && (seen[r] == |s.store.periods| || EndAt(s.store.periods, s.runs[r].startedAt) == s.runs[r].windowStart)
    && s.runs[r].windowStart <= s.runs[r].startedAt
  }

  lemma UndisturbedOpens(s: State, seen: map<nat, nat>, r: nat)
    requires Enabled(s, Open(r)) && Tiles(s.store.periods) && SeenSound(s, seen)
    ensures Tiles(Apply(s, Open(r)).store.periods) <==> Undisturbed(s, seen, r)
  {
    OpenTilesExactly(s, r);
    hide Apply, Tiles;
    assert KnowsItsStart(s.runs[r]);
    var n := seen[r];
    if n == |s.store.periods| { assert s.store.periods[..n] == s.store.periods; }
  }

  lemma SeenByReader(s: State, seen: map<nat, nat>, r: nat)
    requires Enabled(s, ReadLastEnd(r)) && Tiles(s.store.periods) && SeenSound(s, seen)
    ensures SeenSound(Apply(s, ReadLastEnd(r)), SeenAfter(s, seen, ReadLastEnd(r)))
  {
    LastEndRead(s, r);
    hide Tiles, LastPeriodEnd, Enabled, Apply, EndAt;
    assert s.store.periods[..|s.store.periods|] == s.store.periods;
  }

  /** In a tiling the run's window starts where the latest period ends. */
  lemma LastEndRead(s: State, r: nat)
    requires Enabled(s, ReadLastEnd(r)) && Tiles(s.store.periods)
    ensures var run := s.runs[r];
            Apply(s, ReadLastEnd(r)) == s.(runs := s.runs[r := KnowsEnd(run.startedAt, run.after, EndAt(s.store.periods, run.startedAt))])
  {
    hide LastPeriodEnd;
    if s.store.periods != [] { TilesEnd(s.store.periods); }
    hide Tiles;
  }

  lemma SeenByOthers(s: State, seen: map<nat, nat>, step: Step)
    requires Enabled(s, step) && !step.ReadLastEnd? && SeenSound(s, seen)
    ensures SeenSound(Apply(s, step), seen)
  {
    var t := Apply(s, step);
    PrefixKept(s, step);
    hide Filtered, ParseRows, Newest, InsertAll, ClosePeriods, LastPeriodEnd;
    forall r | r in t.runs && KnowsItsStart(t.runs[r])
      ensures r in seen && seen[r] <= |t.store.periods|
      ensures t.runs[r].windowStart == EndAt(t.store.periods[..seen[r]], t.runs[r].startedAt)
    {
      assert r in s.runs && KnowsItsStart(s.runs[r]);
      assert t.runs[r].windowStart == s.runs[r].windowStart && t.runs[r].startedAt == s.runs[r].startedAt;
    }
  }

  /** A step leaves the windows of the periods there were. */
  lemma PrefixKept(s: State, step: Step)
    requires Enabled(s, step)
    ensures |s.store.periods| <= |Apply(s, step).store.periods|
    ensures forall n, otherwise | 0 <= n <= |s.store.periods| ::
              EndAt(Apply(s, step).store.periods[..n], otherwise) == EndAt(s.store.periods[..n], otherwise)
  {
    if !step.Open? { OtherStepsKeepWindows(s, step); }
  }

  /** At every `Open` of the run, the opening run is undisturbed. */
  ghost predicate OpensUndisturbed(s: State, seen: map<nat, nat>, steps: seq<Step>)
    requires CanRun(s, steps)
    decreases |steps|
  {
    steps == [] ||
    ((steps[0].Open? ==> Undisturbed(s, seen, steps[0].r))
     && OpensUndisturbed(Apply(s, steps[0]), SeenAfter(s, seen, steps[0]), steps[1..]))
  }

  /**
   Over every interleaving of runs: the periods tile time if and only if, at each opening of a period, no other
   period was opened since that run read where the last one ended (or the latest ends exactly there), and the
   run did not start before that end.
   */
  lemma {:induction false} RunsTileExactly(s: State, seen: map<nat, nat>, steps: seq<Step>)
    requires CanRun(s, steps) && Tiles(s.store.periods) && SeenSound(s, seen)
    ensures Tiles(Exec(s, steps).store.periods) <==> OpensUndisturbed(s, seen, steps)
    decreases |steps|
  {
    if steps != [] {
      var step := steps[0];
      if step.Open? {
        UndisturbedOpens(s, seen, step.r);
      } else {
        OtherStepsKeepWindows(s, step);
        SameWindowsTile(s.store.periods, Apply(s, step).store.periods);
      }
      if step.ReadLastEnd? { SeenByReader(s, seen, step.r); } else { SeenByOthers(s, seen, step); }
      hide Apply, Enabled, Tiles, SeenSound, SeenAfter, Undisturbed;
      var t := Apply(s, step);
      if Tiles(t.store.periods) {
        RunsTileExactly(t, SeenAfter(s, seen, step), steps[1..]);
      } else {
        BrokenTilesStayBroken(t, steps[1..]);
      }
    }
  }

  lemma InitialSeen()
    ensures Tiles(INITIAL.store.periods) && SeenSound(INITIAL, map[])
  {
  }

  /** Two runs that overlap and still tile: the second begins once the first has opened its period. */
  lemma OverlappingRunsCanTile() returns (steps: seq<Step>, t: State)
    ensures Leads(INITIAL, steps, t) && |t.store.periods| == 2 && Tiles(t.store.periods)
    ensures 0 in t.runs && 1 in t.runs && !t.runs[0].Ended? && !t.runs[1].Ended?
  {
    InitialInv();
    hide Leads, Inv, Tiles;
    var first, t1 := BeginLeads(INITIAL, 0, 0);
    steps, t := Moved(INITIAL, first, t1, ProbeThrows(0));
    steps, t := Moved(INITIAL, steps, t, Open(0));
    OneEnd(t.store.periods);
    var second, t2 := BeginLeads(t, 1, 300_000);
    LeadsThrough(INITIAL, steps, t, second, t2);
    steps, t := Moved(INITIAL, steps + second, t2, ProbeThrows(1));
    steps, t := Moved(INITIAL, steps, t, Open(1));
    TwoTile(t.store.periods);
  }

  lemma OneEnd(periods: seq<Period>)
    requires |periods| == 1
    ensures LastPeriodEnd(periods) == Some(periods[0].windowEnd)
  {
    assert periods[..0] == [];
  }

  lemma TwoTile(periods: seq<Period>)
    requires |periods| == 2 && periods[0].windowStart == periods[0].windowEnd == 0
    requires periods[1].windowStart == 0 && periods[1].windowEnd == 300_000
    ensures Tiles(periods)
  {
  }

  /** Two overlapping runs break the tiling: the second never saw the first one's period. */
  lemma OverlappingRunsLeaveAGap() returns (steps: seq<Step>, t: State)
    ensures Leads(INITIAL, steps, t) && !Tiles(t.store.periods)
  {
    InitialInv();
    hide Leads, Inv, Tiles;
    var first, t1 := BeginLeads(INITIAL, 0, 0);
    var second, t2 := BeginLeads(t1, 1, 300_000);
    LeadsThrough(INITIAL, first, t1, second, t2);
    steps, t := Moved(INITIAL, first + second, t2, ProbeThrows(0));
    steps, t := Moved(INITIAL, steps, t, ProbeThrows(1));
    steps, t := Moved(INITIAL, steps, t, Open(0));
    steps, t := Moved(INITIAL, steps, t, Open(1));
    GapShows(t.store.periods);
  }

  lemma GapShows(periods: seq<Period>)
    requires |periods| == 2 && periods[0].windowEnd == 0 && periods[1].windowStart == 300_000
    ensures !Tiles(periods)
  {
  }
}
