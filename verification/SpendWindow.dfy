/** The windowed read the ledger bills from (`src/llm-spend-window.ts`, `src/store-d1.ts`). */
module SpendWindow {
  import opened Basics
  import opened GatewayLog
  import opened Rollup
  import opened SpendStore
  import Calendar

  // ---- which periods and events a window holds ----

  predicate InSpan(end: Option<int>, a: int, b: int) {
    end.Some? && a <= end.value < b
  }

  /** The test as the source makes it, on ISO text. */
  predicate PeriodBelongsToWindow(end: string, windowStart: string, windowEnd: string) {
    !LexLess(end, windowStart) && LexLess(end, windowEnd)
  }

  /** Between years 0 and 9999 the text test places a period exactly where its instant falls. */
  lemma BelongsByText(end: int, a: int, b: int)
    requires 0 <= Calendar.YearOf(end) <= 9999 && 0 <= Calendar.YearOf(a) <= 9999 && 0 <= Calendar.YearOf(b) <= 9999
    ensures PeriodBelongsToWindow(Calendar.Iso(end), Calendar.Iso(a), Calendar.Iso(b)) <==> InSpan(Some(end), a, b)
  {
    hide Calendar.YearOf, Calendar.Iso;
    Calendar.IsoOrderIsTimeOrder(end, a);
    Calendar.IsoOrderIsTimeOrder(end, b);
  }

  /** WHERE window_end >= a AND window_end < b */
  function WindowPeriods(periods: seq<Period>, a: int, b: int): seq<Period> {
    if periods == [] then []
    else
      var last := periods[|periods| - 1];
      WindowPeriods(periods[..|periods| - 1], a, b) + if a <= last.windowEnd < b then [last] else []
  }

  lemma {:induction false} WindowMembers(periods: seq<Period>, a: int, b: int, p: Period)
    ensures p in WindowPeriods(periods, a, b) <==> p in periods && a <= p.windowEnd < b
  {
    if periods != [] {
      WindowMembers(periods[..|periods| - 1], a, b, p);
      assert periods == periods[..|periods| - 1] + [periods[|periods| - 1]];
    }
  }

  function EndOf(periods: seq<Period>, id: nat): Option<int> {
    if periods == [] then None
    else if periods[|periods| - 1].id == id then Some(periods[|periods| - 1].windowEnd)
    else EndOf(periods[..|periods| - 1], id)
  }

  function WindowEvents(events: seq<Stored>, periods: seq<Period>, a: int, b: int): seq<Stored> {
    if events == [] then []
    else
      var last := events[|events| - 1];
      WindowEvents(events[..|events| - 1], periods, a, b)
      + if InSpan(EndOf(periods, last.period), a, b) then [last] else []
  }

  // ---- the sums ----

  datatype WindowSums = WindowSums(cost: nat, requests: nat, unpriced: nat)

  function Add(s: WindowSums, e: SpendEvent): WindowSums {
    WindowSums(s.cost + if e.cost.Some? then e.cost.value else 0, s.requests + 1,
               s.unpriced + if e.cost.Some? then 0 else 1)
  }

  /** SUM, COUNT and the unpriced count over one tenant's events whose period is one of `ids`. */
  function Sums(events: seq<Stored>, tenant: string, ids: seq<nat>): WindowSums {
    if events == [] then WindowSums(0, 0, 0)
    else
      var last := events[|events| - 1];
      var rest := Sums(events[..|events| - 1], tenant, ids);
      if last.event.tenantId == Some(tenant) && last.period in ids then Add(rest, last.event) else rest
  }

  // ---- ORDER BY window_end, id LIMIT max ----

  predicate Precedes(p: Period, q: Period) {
    p.windowEnd < q.windowEnd || (p.windowEnd == q.windowEnd && p.id < q.id)
  }

  /** How many periods of the list come before `p` in the total order. */
  function Rank(periods: seq<Period>, p: Period): (n: nat)
    ensures n <= |periods|
  {
    if periods == [] then 0
    else Rank(periods[..|periods| - 1], p) + if Precedes(periods[|periods| - 1], p) then 1 else 0
  }

  /** The ids of the first `max` periods of `census` in that order, among `part`. */
  function SliceIds(census: seq<Period>, part: seq<Period>, max: nat): seq<nat> {
    if part == [] then []
    else
      var last := part[|part| - 1];
      SliceIds(census, part[..|part| - 1], max) + if Rank(census, last) < max then [last.id] else []
  }

  lemma {:induction false} RankBelowCount(periods: seq<Period>, p: Period)
    requires p in periods
    ensures Rank(periods, p) < |periods|
  {
    var front, last := periods[..|periods| - 1], periods[|periods| - 1];
    if p in front { RankBelowCount(front, p); } else { assert p == last; }
  }

  lemma {:induction false} SliceIdsNamed(census: seq<Period>, part: seq<Period>, max: nat, id: nat)
    ensures id in SliceIds(census, part, max) <==> exists k :: 0 <= k < |part| && part[k].id == id && Rank(census, part[k]) < max
  {
    hide Rank;
    if part != [] {
      var front := part[..|part| - 1];
      SliceIdsNamed(census, front, max, id);
      if exists k :: 0 <= k < |front| && front[k].id == id && Rank(census, front[k]) < max {
        var k :| 0 <= k < |front| && front[k].id == id && Rank(census, front[k]) < max;
        assert part[k] == front[k];
      }
      if exists k :: 0 <= k < |part| && part[k].id == id && Rank(census, part[k]) < max {
        var k :| 0 <= k < |part| && part[k].id == id && Rank(census, part[k]) < max;
        if k < |front| { assert front[k] == part[k]; }
      }
    }
  }

  // ---- the judgement ----

  const MAX_PERIODS_PER_WINDOW: nat := 20_000

  datatype LlmSpendWindow = LlmSpendWindow(
    cost: int, requests: nat, windowStart: int, windowEnd: int, complete: bool, periods: nat, unpriced: nat)

  datatype Reason =
    | CensusTruncated
    | NoPeriods
    | Unfinished(n: nat)
    | NotComplete(n: nat)
    | ControlFailed(n: nat)
    | Gapped(n: nat)
    | Unpriced(n: nat)

  predicate Observed(p: Period) {
    p.finishedAt.Some? && p.status == Complete && p.controlPassed && !p.gapDetected
  }

  /** What has to hold before a window's total may be billed. */
  predicate WindowComplete(periods: seq<Period>, truncated: bool, sums: WindowSums) {
    !truncated && periods != [] && sums.unpriced == 0 && forall k | 0 <= k < |periods| :: Observed(periods[k])
  }

  /** How many periods have the fault. */
  function Many(periods: seq<Period>, bad: Period -> bool): nat {
    |set k | 0 <= k < |periods| && bad(periods[k])|
  }

  lemma NoneOrSome(periods: seq<Period>, bad: Period -> bool)
    ensures Many(periods, bad) == 0 <==> forall k | 0 <= k < |periods| :: !bad(periods[k])
  {
    var faults := set k | 0 <= k < |periods| && bad(periods[k]);
    if k :| 0 <= k < |periods| && bad(periods[k]) { assert k in faults; }
  }

  /** `periods.filter(p => bad(p)).length` */
  method CountWhere(periods: seq<Period>, bad: Period -> bool) returns (n: nat)
    ensures n == Many(periods, bad)
  {
    n := 0;
    ghost var faults: set<int> := {};
    for i := 0 to |periods|
      invariant faults == (set k | 0 <= k < i && bad(periods[k])) && n == |faults|
    {
      if bad(periods[i]) {
        n := n + 1;
        faults := faults + {i};
      }
    }
  }

  function IsUnfinished(): Period -> bool { (p: Period) => p.finishedAt.None? }

  function IsNotComplete(): Period -> bool { (p: Period) => p.status != Complete }

  function FailedControl(): Period -> bool { (p: Period) => !p.controlPassed }

  function HasGap(): Period -> bool { (p: Period) => p.gapDetected }

  lemma ObservedMeans(periods: seq<Period>)
    ensures (forall k | 0 <= k < |periods| :: Observed(periods[k])) <==>
            Many(periods, IsUnfinished()) == 0 && Many(periods, IsNotComplete()) == 0
            && Many(periods, FailedControl()) == 0 && Many(periods, HasGap()) == 0
  {
    NoneOrSome(periods, IsUnfinished());
    NoneOrSome(periods, IsNotComplete());
    NoneOrSome(periods, FailedControl());
    NoneOrSome(periods, HasGap());
    hide Many;
  }

  function WithReason(reasons: seq<Reason>, holds: bool, reason: Reason): seq<Reason> {
    if holds then reasons + [reason] else reasons
  }

  lemma PushAdds(reasons: seq<Reason>, holds: bool, reason: Reason)
    ensures forall r :: r in WithReason(reasons, holds, reason) <==> r in reasons || (holds && r == reason)
    ensures WithReason(reasons, holds, reason) == [] <==> reasons == [] && !holds
  {
  }

  /** Which reasons a window gives, and with which counts. */
  predicate Gives(r: Reason, periods: seq<Period>, truncated: bool, unpriced: nat) {
    match r
    case CensusTruncated => truncated
    case NoPeriods => periods == []
    case Unfinished(n) => n > 0 && n == Many(periods, IsUnfinished())
    case NotComplete(n) => n > 0 && n == Many(periods, IsNotComplete())
    case ControlFailed(n) => n > 0 && n == Many(periods, FailedControl())
    case Gapped(n) => n > 0 && n == Many(periods, HasGap())
    case Unpriced(n) => n > 0 && n == unpriced
  }

  /** The judgement of a window: complete exactly when it gives no reason, and it gives exactly the reasons that hold. */
  method SummariseWindow(periods: seq<Period>, windowStart: int, windowEnd: int, sums: WindowSums, truncated: bool)
    returns (w: LlmSpendWindow, reasons: seq<Reason>)
    ensures w == LlmSpendWindow(sums.cost, sums.requests, windowStart, windowEnd,
                                WindowComplete(periods, truncated, sums), |periods|, sums.unpriced)
    ensures w.complete <==> reasons == []
    ensures forall r :: r in reasons <==> Gives(r, periods, truncated, sums.unpriced)
  {
    ObservedMeans(periods);
    hide Many, Observed, WithReason, IsUnfinished, IsNotComplete, FailedControl, HasGap;
    reasons := [];
    PushAdds(reasons, truncated, CensusTruncated);
    reasons := WithReason(reasons, truncated, CensusTruncated);
    PushAdds(reasons, |periods| == 0, NoPeriods);
    reasons := WithReason(reasons, |periods| == 0, NoPeriods);
    var unfinished := CountWhere(periods, IsUnfinished());
    PushAdds(reasons, unfinished > 0, Unfinished(unfinished));
    reasons := WithReason(reasons, unfinished > 0, Unfinished(unfinished));
    var notComplete := CountWhere(periods, IsNotComplete());
    PushAdds(reasons, notComplete > 0, NotComplete(notComplete));
    reasons := WithReason(reasons, notComplete > 0, NotComplete(notComplete));
    var controlFailed := CountWhere(periods, FailedControl());
    PushAdds(reasons, controlFailed > 0, ControlFailed(controlFailed));
    reasons := WithReason(reasons, controlFailed > 0, ControlFailed(controlFailed));
    var gapped := CountWhere(periods, HasGap());
    PushAdds(reasons, gapped > 0, Gapped(gapped));
    reasons := WithReason(reasons, gapped > 0, Gapped(gapped));
    PushAdds(reasons, sums.unpriced > 0, Unpriced(sums.unpriced));
    reasons := WithReason(reasons, sums.unpriced > 0, Unpriced(sums.unpriced));
    w := LlmSpendWindow(sums.cost, sums.requests, windowStart, windowEnd, reasons == [], |periods|, sums.unpriced);
  }

  /** readTenantLlmSpend: census, then one aggregate over exactly the periods the census reports. */
  function ReadTenantLlmSpend(store: Store, tenant: string, a: int, b: int, max: nat): LlmSpendWindow {
    var census := WindowPeriods(store.periods, a, b);
    var truncated := |census| > max;
    var sums := if Min(|census|, max) == 0 then WindowSums(0, 0, 0)
                else Sums(store.events, tenant, SliceIds(census, census, max));
    LlmSpendWindow(sums.cost, sums.requests, a, b,
                   !truncated && WindowComplete(census, truncated, sums), Min(|census|, max), sums.unpriced)
  }

  // ---- the read depends on the window's own rows only ----

  ghost predicate DistinctIds(periods: seq<Period>) {
    forall i, j | 0 <= i < j < |periods| :: periods[i].id != periods[j].id
  }

  lemma {:induction false} EndOfMember(periods: seq<Period>, k: nat)
    requires DistinctIds(periods) && k < |periods|
    ensures EndOf(periods, periods[k].id) == Some(periods[k].windowEnd)
  {
    var front := periods[..|periods| - 1];
    if k < |front| {
      assert periods[k].id != periods[|periods| - 1].id;
      assert front[k] == periods[k];
      EndOfMember(front, k);
    }
  }

  /** Events outside the window add nothing to a sum over its periods. */
  lemma {:induction false} SumsWithinWindow(events: seq<Stored>, periods: seq<Period>, a: int, b: int, tenant: string, ids: seq<nat>)
    requires forall id | id in ids :: InSpan(EndOf(periods, id), a, b)
    ensures Sums(events, tenant, ids) == Sums(WindowEvents(events, periods, a, b), tenant, ids)
  {
    if events != [] {
      var front, last := events[..|events| - 1], events[|events| - 1];
      SumsWithinWindow(front, periods, a, b, tenant, ids);
      var kept := WindowEvents(front, periods, a, b);
      if InSpan(EndOf(periods, last.period), a, b) {
        assert (kept + [last])[..|kept|] == kept;
        assert Sums(kept + [last], tenant, ids)
            == if last.event.tenantId == Some(tenant) && last.period in ids then Add(Sums(kept, tenant, ids), last.event)
               else Sums(kept, tenant, ids);
      } else {
        assert last.period !in ids;
        assert WindowEvents(events, periods, a, b) == kept;
      }
    }
  }

  lemma SliceInSpan(periods: seq<Period>, a: int, b: int, max: nat)
    requires DistinctIds(periods)
    ensures var census := WindowPeriods(periods, a, b);
            forall id | id in SliceIds(census, census, max) :: InSpan(EndOf(periods, id), a, b)
  {
    var census := WindowPeriods(periods, a, b);
    forall id | id in SliceIds(census, census, max)
      ensures InSpan(EndOf(periods, id), a, b)
    {
      SliceIdsNamed(census, census, max, id);
      var k :| 0 <= k < |census| && census[k].id == id;
      WindowMembers(periods, a, b, census[k]);
      var j :| 0 <= j < |periods| && periods[j] == census[k];
      EndOfMember(periods, j);
    }
  }

  ghost predicate SameWindow(s: Store, t: Store, a: int, b: int) {
    && WindowPeriods(s.periods, a, b) == WindowPeriods(t.periods, a, b)
    && WindowEvents(s.events, s.periods, a, b) == WindowEvents(t.events, t.periods, a, b)
  }

  lemma SameWindowSameRead(s: Store, t: Store, tenant: string, a: int, b: int, max: nat)
    requires DistinctIds(s.periods) && DistinctIds(t.periods) && SameWindow(s, t, a, b)
    ensures ReadTenantLlmSpend(s, tenant, a, b, max) == ReadTenantLlmSpend(t, tenant, a, b, max)
  {
    hide Rank, SliceIds;
    var census := WindowPeriods(s.periods, a, b);
    var ids := SliceIds(census, census, max);
    SliceInSpan(s.periods, a, b, max);
    SliceInSpan(t.periods, a, b, max);
    SumsWithinWindow(s.events, s.periods, a, b, tenant, ids);
    SumsWithinWindow(t.events, t.periods, a, b, tenant, ids);
  }

  // ---- what the read means, over the rows themselves ----

  /** Period `k` lies in the window and fewer than `max` of the window's come before it, by end and then by id. */
  predicate AmongFirst(periods: seq<Period>, k: nat, a: int, b: int, max: nat)
    requires k < |periods|
  {
    var p := periods[k];
    && a <= p.windowEnd < b
    && |set m | 0 <= m < |periods| && a <= periods[m].windowEnd < b
                && (periods[m].windowEnd < p.windowEnd || (periods[m].windowEnd == p.windowEnd && periods[m].id < p.id))| < max
  }

  /** The indexes of the window's periods that `keep` keeps. */
  function WindowIndexes(periods: seq<Period>, a: int, b: int, keep: Period -> bool): set<int> {
    set m | 0 <= m < |periods| && a <= periods[m].windowEnd < b && keep(periods[m])
  }

  lemma WindowIndexesStep(periods: seq<Period>, a: int, b: int, keep: Period -> bool)
    requires periods != []
    ensures var front, last := periods[..|periods| - 1], periods[|periods| - 1];
            |WindowIndexes(periods, a, b, keep)|
            == |WindowIndexes(front, a, b, keep)| + if a <= last.windowEnd < b && keep(last) then 1 else 0
  {
    var n := |periods| - 1;
    var front, last := periods[..n], periods[n];
    assert forall m | 0 <= m < n :: front[m] == periods[m];
    var before := WindowIndexes(front, a, b, keep);
    assert n !in before;
    assert WindowIndexes(periods, a, b, keep) == if a <= last.windowEnd < b && keep(last) then before + {n} else before;
  }

  lemma {:induction false} RankCounts(periods: seq<Period>, a: int, b: int, p: Period)
    ensures Rank(WindowPeriods(periods, a, b), p) == |WindowIndexes(periods, a, b, m => Precedes(m, p))|
  {
    if periods != [] {
      var front, last := periods[..|periods| - 1], periods[|periods| - 1];
      RankCounts(front, a, b, p);
      WindowIndexesStep(periods, a, b, m => Precedes(m, p));
      hide WindowIndexes, Precedes;
      var kept := WindowPeriods(front, a, b);
      if a <= last.windowEnd < b { assert (kept + [last])[..|kept|] == kept; }
      else { assert WindowPeriods(periods, a, b) == kept; }
    }
  }

  lemma {:induction false} CensusCounts(periods: seq<Period>, a: int, b: int)
    ensures |WindowPeriods(periods, a, b)| == |WindowIndexes(periods, a, b, m => true)|
  {
    if periods != [] {
      CensusCounts(periods[..|periods| - 1], a, b);
      WindowIndexesStep(periods, a, b, m => true);
      hide WindowIndexes;
    }
  }

  lemma AmongFirstIsRank(periods: seq<Period>, k: nat, a: int, b: int, max: nat)
    requires k < |periods|
    ensures AmongFirst(periods, k, a, b, max)
            <==> a <= periods[k].windowEnd < b && Rank(WindowPeriods(periods, a, b), periods[k]) < max
  {
    var p := periods[k];
    RankCounts(periods, a, b, p);
    assert WindowIndexes(periods, a, b, m => Precedes(m, p))
        == set m | 0 <= m < |periods| && a <= periods[m].windowEnd < b
                   && (periods[m].windowEnd < p.windowEnd || (periods[m].windowEnd == p.windowEnd && periods[m].id < p.id));
  }

  /** The ids the aggregate sums over are exactly those of the first `max` periods of the window. */
  lemma SummedAreTheFirst(periods: seq<Period>, a: int, b: int, max: nat, id: nat)
    ensures var census := WindowPeriods(periods, a, b);
            id in SliceIds(census, census, max) <==> exists k :: 0 <= k < |periods| && periods[k].id == id && AmongFirst(periods, k, a, b, max)
  {
    hide AmongFirst, Rank, SliceIds, WindowPeriods;
    var census := WindowPeriods(periods, a, b);
    SliceIdsNamed(census, census, max, id);
    forall k | 0 <= k < |periods| { AmongFirstIsRank(periods, k, a, b, max); }
    forall p { WindowMembers(periods, a, b, p); }
    if id in SliceIds(census, census, max) {
      var j :| 0 <= j < |census| && census[j].id == id && Rank(census, census[j]) < max;
      assert census[j] in periods;
      var k :| 0 <= k < |periods| && periods[k] == census[j];
    }
    if k :| 0 <= k < |periods| && periods[k].id == id && AmongFirst(periods, k, a, b, max) {
      assert periods[k] in census;
      var j :| 0 <= j < |census| && census[j] == periods[k];
    }
  }

  /** Event `j` is the tenant's and lies under one of the first `max` periods of the window. */
  predicate Billed(store: Store, tenant: string, a: int, b: int, max: nat, j: nat)
    requires j < |store.events|
  {
    && store.events[j].event.tenantId == Some(tenant)
    && exists k :: 0 <= k < |store.periods| && store.periods[k].id == store.events[j].period && AmongFirst(store.periods, k, a, b, max)
  }

  function Matching(events: seq<Stored>, tenant: string, ids: seq<nat>, unpricedOnly: bool): set<int> {
    set j | 0 <= j < |events| && events[j].event.tenantId == Some(tenant) && events[j].period in ids
            && (unpricedOnly ==> events[j].event.cost.None?)
  }

  lemma MatchingStep(events: seq<Stored>, tenant: string, ids: seq<nat>, unpricedOnly: bool)
    requires events != []
    ensures var last := events[|events| - 1];
            |Matching(events, tenant, ids, unpricedOnly)|
            == |Matching(events[..|events| - 1], tenant, ids, unpricedOnly)|
               + if last.event.tenantId == Some(tenant) && last.period in ids && (unpricedOnly ==> last.event.cost.None?) then 1 else 0
  {
    var n := |events| - 1;
    var front, last := events[..n], events[n];
    assert forall j | 0 <= j < n :: front[j] == events[j];
    var before := Matching(front, tenant, ids, unpricedOnly);
    assert n !in before;
    assert Matching(events, tenant, ids, unpricedOnly)
        == if last.event.tenantId == Some(tenant) && last.period in ids && (unpricedOnly ==> last.event.cost.None?) then before + {n}
           else before;
  }

  lemma {:induction false} SumsCount(events: seq<Stored>, tenant: string, ids: seq<nat>)
    ensures Sums(events, tenant, ids).requests == |Matching(events, tenant, ids, false)|
    ensures Sums(events, tenant, ids).unpriced == |Matching(events, tenant, ids, true)|
  {
    if events != [] {
      SumsCount(events[..|events| - 1], tenant, ids);
      MatchingStep(events, tenant, ids, false);
      MatchingStep(events, tenant, ids, true);
      hide Matching;
    }
  }

  lemma {:induction false} NothingSummed(events: seq<Stored>, tenant: string)
    ensures Sums(events, tenant, []) == WindowSums(0, 0, 0)
  {
    if events != [] { NothingSummed(events[..|events| - 1], tenant); }
  }

  lemma {:induction false} EmptySlice(census: seq<Period>, part: seq<Period>, max: nat)
    requires max == 0 || part == []
    ensures SliceIds(census, part, max) == []
  {
    if part != [] { EmptySlice(census, part[..|part| - 1], max); }
  }

  /** The read's figures are those of the sum over the slice, also when the slice is empty. */
  lemma ReadIsSums(store: Store, tenant: string, a: int, b: int, max: nat)
    ensures var census := WindowPeriods(store.periods, a, b);
            var w, sums := ReadTenantLlmSpend(store, tenant, a, b, max), Sums(store.events, tenant, SliceIds(census, census, max));
            && WindowSums(if w.cost >= 0 then w.cost else 0, w.requests, w.unpriced) == sums && w.cost >= 0
            && (w.complete <==> |census| <= max && census != [] && sums.unpriced == 0
                                && forall k | 0 <= k < |census| :: Observed(census[k]))
  {
    hide Sums, SliceIds, WindowPeriods, Observed;
    var census := WindowPeriods(store.periods, a, b);
    if Min(|census|, max) == 0 {
      EmptySlice(census, census, max);
      NothingSummed(store.events, tenant);
    }
  }

  /** How many requests the read reports, and how many of them without a cost: the billed events, counted. */
  lemma ReadCounts(store: Store, tenant: string, a: int, b: int, max: nat)
    ensures var w := ReadTenantLlmSpend(store, tenant, a, b, max);
            && w.requests == |set j | 0 <= j < |store.events| && Billed(store, tenant, a, b, max, j)|
            && w.unpriced == |set j | 0 <= j < |store.events| && Billed(store, tenant, a, b, max, j) && store.events[j].event.cost.None?|
  {
    var census := WindowPeriods(store.periods, a, b);
    var ids := SliceIds(census, census, max);
    ReadIsSums(store, tenant, a, b, max);
    SumsCount(store.events, tenant, ids);
    forall j | 0 <= j < |store.events|
      ensures Billed(store, tenant, a, b, max, j) <==> store.events[j].event.tenantId == Some(tenant) && store.events[j].period in ids
    {
      SummedAreTheFirst(store.periods, a, b, max, store.events[j].period);
    }
    hide AmongFirst, Billed, Sums, SliceIds, WindowPeriods, ReadTenantLlmSpend;
    assert (set j | 0 <= j < |store.events| && Billed(store, tenant, a, b, max, j)) == Matching(store.events, tenant, ids, false);
    assert (set j | 0 <= j < |store.events| && Billed(store, tenant, a, b, max, j) && store.events[j].event.cost.None?)
        == Matching(store.events, tenant, ids, true);
  }

  /** What the read charges: nothing for no events, and each further event its cost when it is billed and has one. */
  lemma ReadCosts(store: Store, e: Stored, tenant: string, a: int, b: int, max: nat)
    ensures ReadTenantLlmSpend(store.(events := []), tenant, a, b, max).cost == 0
    ensures var more := store.(events := store.events + [e]);
            ReadTenantLlmSpend(more, tenant, a, b, max).cost - ReadTenantLlmSpend(store, tenant, a, b, max).cost
            == if Billed(more, tenant, a, b, max, |store.events|) && e.event.cost.Some? then e.event.cost.value else 0
  {
    var census := WindowPeriods(store.periods, a, b);
    var ids, more := SliceIds(census, census, max), store.(events := store.events + [e]);
    ReadIsSums(store, tenant, a, b, max);
    ReadIsSums(more, tenant, a, b, max);
    ReadIsSums(store.(events := []), tenant, a, b, max);
    SummedAreTheFirst(store.periods, a, b, max, e.period);
    assert more.events[..|store.events|] == store.events;
    hide AmongFirst, SliceIds, WindowPeriods, ReadTenantLlmSpend;
  }

  /**
   When a read is complete: the window holds between one and `max` periods, each is finished with status complete,
   its control passed and no gap, and no event of the tenant under any of them lacks a cost.
   */
  lemma ReadCompleteExactly(store: Store, tenant: string, a: int, b: int, max: nat)
    requires DistinctIds(store.periods)
    ensures ReadTenantLlmSpend(store, tenant, a, b, max).complete <==>
            && 1 <= |set k | 0 <= k < |store.periods| && a <= store.periods[k].windowEnd < b| <= max
            && (forall k | 0 <= k < |store.periods| && a <= store.periods[k].windowEnd < b ::
                  var p := store.periods[k];
                  p.finishedAt.Some? && p.status == Complete && p.controlPassed && !p.gapDetected)
            && forall j, k | 0 <= j < |store.events| && 0 <= k < |store.periods| && store.events[j].period == store.periods[k].id ::
                 a <= store.periods[k].windowEnd < b && store.events[j].event.tenantId == Some(tenant) ==> store.events[j].event.cost.Some?
  {
    hide Sums, SliceIds, WindowPeriods, ReadTenantLlmSpend, Observed, DistinctIds;
    var census := WindowPeriods(store.periods, a, b);
    ReadIsSums(store, tenant, a, b, max);
    CensusCounts(store.periods, a, b);
    assert WindowIndexes(store.periods, a, b, m => true) == set k | 0 <= k < |store.periods| && a <= store.periods[k].windowEnd < b;
    hide WindowIndexes;
    AllObserved(store.periods, a, b);
    ObservedSpelled(store.periods, a, b);
    if |census| <= max { NoneUnpriced(store, tenant, a, b, max); }
  }

  lemma AllObserved(periods: seq<Period>, a: int, b: int)
    ensures var census := WindowPeriods(periods, a, b);
            (forall k | 0 <= k < |census| :: Observed(census[k])) <==>
            forall k | 0 <= k < |periods| && a <= periods[k].windowEnd < b :: Observed(periods[k])
  {
    hide WindowPeriods, Observed;
    var census := WindowPeriods(periods, a, b);
    if forall k | 0 <= k < |census| :: Observed(census[k]) {
      forall m | 0 <= m < |periods| && a <= periods[m].windowEnd < b
        ensures Observed(periods[m])
      {
        WindowMembers(periods, a, b, periods[m]);
        var k :| 0 <= k < |census| && census[k] == periods[m];
      }
    } else {
      var k :| 0 <= k < |census| && !Observed(census[k]);
      WindowMembers(periods, a, b, census[k]);
      var m :| 0 <= m < |periods| && periods[m] == census[k];
      assert !Observed(periods[m]);
    }
  }

  lemma ObservedSpelled(periods: seq<Period>, a: int, b: int)
    ensures (forall k | 0 <= k < |periods| && a <= periods[k].windowEnd < b :: Observed(periods[k])) <==>
            forall k | 0 <= k < |periods| && a <= periods[k].windowEnd < b ::
              var p := periods[k]; p.finishedAt.Some? && p.status == Complete && p.controlPassed && !p.gapDetected
  {
  }

  /** In an uncut window the unpriced count is zero exactly when no event of the tenant under its periods lacks a cost. */
  lemma NoneUnpriced(store: Store, tenant: string, a: int, b: int, max: nat)
    requires DistinctIds(store.periods) && |WindowPeriods(store.periods, a, b)| <= max
    ensures var census := WindowPeriods(store.periods, a, b);
            Sums(store.events, tenant, SliceIds(census, census, max)).unpriced == 0 <==>
            forall j, k | 0 <= j < |store.events| && 0 <= k < |store.periods| && store.events[j].period == store.periods[k].id ::
              a <= store.periods[k].windowEnd < b && store.events[j].event.tenantId == Some(tenant) ==> store.events[j].event.cost.Some?
  {
    var census := WindowPeriods(store.periods, a, b);
    var ids := SliceIds(census, census, max);
    SumsCount(store.events, tenant, ids);
    forall k | 0 <= k < |store.periods|
      ensures store.periods[k].id in ids <==> a <= store.periods[k].windowEnd < b
    {
      InUncutSlice(store.periods, k, a, b, max);
    }
    var missing := Matching(store.events, tenant, ids, true);
    hide Sums, SliceIds, WindowPeriods;
    if missing == {} {
      forall j, k | 0 <= j < |store.events| && 0 <= k < |store.periods| && store.events[j].period == store.periods[k].id
        && a <= store.periods[k].windowEnd < b && store.events[j].event.tenantId == Some(tenant)
        ensures store.events[j].event.cost.Some?
      {
        assert j !in missing;
      }
    } else {
      var j :| j in missing;
      NamedInSlice(store.periods, a, b, max, store.events[j].period);
    }
  }

  lemma InUncutSlice(periods: seq<Period>, k: nat, a: int, b: int, max: nat)
    requires DistinctIds(periods) && k < |periods| && |WindowPeriods(periods, a, b)| <= max
    ensures var census := WindowPeriods(periods, a, b);
            periods[k].id in SliceIds(census, census, max) <==> a <= periods[k].windowEnd < b
  {
    hide WindowPeriods, SliceIds, Rank;
    var census := WindowPeriods(periods, a, b);
    SliceIdsNamed(census, census, max, periods[k].id);
    forall p { WindowMembers(periods, a, b, p); }
    if periods[k] in census {
      RankBelowCount(census, periods[k]);
      var j :| 0 <= j < |census| && census[j] == periods[k];
    }
    if j :| 0 <= j < |census| && census[j].id == periods[k].id && Rank(census, census[j]) < max {
      assert census[j] in periods;
      var m :| 0 <= m < |periods| && periods[m] == census[j];
    }
  }

  lemma NamedInSlice(periods: seq<Period>, a: int, b: int, max: nat, id: nat)
    requires var census := WindowPeriods(periods, a, b); id in SliceIds(census, census, max)
    ensures exists k :: 0 <= k < |periods| && periods[k].id == id && a <= periods[k].windowEnd < b
  {
    SummedAreTheFirst(periods, a, b, max, id);
    hide WindowPeriods, SliceIds;
  }

  // ---- the two queries ----

  /** The periods the census reports: the first `max` of the window, in the order of the read. */
  function Reported(census: seq<Period>, part: seq<Period>, max: nat): seq<Period> {
    if part == [] then []
    else
      var last := part[|part| - 1];
      Reported(census, part[..|part| - 1], max) + if Rank(census, last) < max then [last] else []
  }

  lemma PrecedesRanksLower(census: seq<Period>, p: Period, q: Period)
    requires Precedes(p, q)
    ensures Rank(census, p) <= Rank(census, q) && (p in census ==> Rank(census, p) < Rank(census, q))
  {
    if census != [] {
      var front, last := census[..|census| - 1], census[|census| - 1];
      PrecedesRanksLower(front, p, q);
      assert p in census ==> p in front || p == last;
    }
  }

  lemma RanksDiffer(census: seq<Period>, i: nat, j: nat)
    requires DistinctIds(census) && i < j < |census|
    ensures Rank(census, census[i]) != Rank(census, census[j])
  {
    hide Rank;
    assert Precedes(census[i], census[j]) || Precedes(census[j], census[i]);
    if Precedes(census[i], census[j]) { PrecedesRanksLower(census, census[i], census[j]); }
    else { PrecedesRanksLower(census, census[j], census[i]); }
  }

  function UpTo(n: nat): (s: set<int>)
    ensures |s| == n && forall k :: k in s <==> 0 <= k < n
  {
    if n == 0 then {} else UpTo(n - 1) + {n - 1}
  }

  lemma FullSubset(s: set<int>, t: set<int>)
    requires s <= t && |s| == |t|
    ensures s == t
  {
    assert |t - s| == |t| - |s|;
  }

  /** The ranks below `max` of the first `n` periods. */
  function RanksBelow(census: seq<Period>, n: nat, max: nat): set<int>
    requires n <= |census|
  {
    set k | 0 <= k < n && Rank(census, census[k]) < max :: Rank(census, census[k])
  }

  lemma {:induction false} ReportedSize(census: seq<Period>, n: nat, max: nat)
    requires n <= |census| && DistinctIds(census)
    ensures |Reported(census, census[..n], max)| == |RanksBelow(census, n, max)|
  {
    hide Rank, DistinctIds;
    if n > 0 {
      ReportedSize(census, n - 1, max);
      assert census[..n][..n - 1] == census[..n - 1];
      var before, r := RanksBelow(census, n - 1, max), Rank(census, census[n - 1]);
      forall k | 0 <= k < n - 1
        ensures Rank(census, census[k]) != r
      {
        RanksDiffer(census, k, n - 1);
      }
      assert r !in before;
      assert RanksBelow(census, n, max) == if r < max then before + {r} else before;
    }
  }

  /** The ranks in a census are 0, 1, 2 and so on, each once. */
  lemma RanksAreAll(census: seq<Period>)
    requires DistinctIds(census)
    ensures RanksBelow(census, |census|, |census|) == UpTo(|census|)
  {
    var n := |census|;
    assert census[..n] == census;
    ReportedSize(census, n, n);
    AllReported(census, census, n);
    forall k | 0 <= k < n
      ensures Rank(census, census[k]) < n
    {
      RankBelowCount(census, census[k]);
    }
    hide Rank, DistinctIds, Reported;
    FullSubset(RanksBelow(census, n, n), UpTo(n));
  }

  lemma RanksBelowAre(census: seq<Period>, max: nat)
    requires DistinctIds(census)
    ensures RanksBelow(census, |census|, max) == UpTo(Min(|census|, max))
  {
    RanksAreAll(census);
    hide Rank, DistinctIds, UpTo;
    var n := |census|;
    forall r | r in UpTo(Min(n, max))
      ensures r in RanksBelow(census, n, max)
    {
      assert r in UpTo(n);
      assert r in RanksBelow(census, n, n);
    }
    forall r | r in RanksBelow(census, n, max)
      ensures r in UpTo(Min(n, max))
    {
      var k :| 0 <= k < n && Rank(census, census[k]) < max && Rank(census, census[k]) == r;
      RankBelowCount(census, census[k]);
    }
  }

  /** The census reports as many periods as the window has, up to `max`, and the sum is over exactly their ids. */
  lemma ReportedAreSummed(census: seq<Period>, max: nat)
    requires DistinctIds(census)
    ensures |Reported(census, census, max)| == Min(|census|, max)
    ensures |census| <= max ==> Reported(census, census, max) == census
    ensures SliceIds(census, census, max) == IdsOf(Reported(census, census, max))
  {
    assert census[..|census|] == census;
    ReportedSize(census, |census|, max);
    RanksBelowAre(census, max);
    SliceIsReported(census, census, max);
    hide Rank, DistinctIds, Reported, SliceIds, IdsOf;
    if |census| <= max { AllReported(census, census, max); }
  }

  lemma {:induction false} AllReported(census: seq<Period>, part: seq<Period>, max: nat)
    requires (forall p | p in part :: p in census) && |census| <= max
    ensures Reported(census, part, max) == part
  {
    if part != [] {
      AllReported(census, part[..|part| - 1], max);
      RankBelowCount(census, part[|part| - 1]);
    }
  }

  function IdsOf(periods: seq<Period>): seq<nat> {
    seq(|periods|, k requires 0 <= k < |periods| => periods[k].id)
  }

  lemma {:induction false} SliceIsReported(census: seq<Period>, part: seq<Period>, max: nat)
    ensures SliceIds(census, part, max) == IdsOf(Reported(census, part, max))
  {
    hide Rank;
    if part != [] { SliceIsReported(census, part[..|part| - 1], max); }
  }

  lemma {:induction false} WindowKeepsDistinct(periods: seq<Period>, a: int, b: int)
    requires DistinctIds(periods)
    ensures DistinctIds(WindowPeriods(periods, a, b))
  {
    if periods != [] {
      var front, last := periods[..|periods| - 1], periods[|periods| - 1];
      WindowKeepsDistinct(front, a, b);
      var kept := WindowPeriods(front, a, b);
      forall k | 0 <= k < |kept|
        ensures kept[k].id != last.id
      {
        WindowMembers(front, a, b, kept[k]);
        var m :| 0 <= m < |front| && front[m] == kept[k];
        assert periods[m].id != periods[|periods| - 1].id;
      }
    }
  }

  /** `SELECT ... FROM llm_rollup_periods WHERE window_end >= a AND window_end < b` */
  method CensusOfWindow(store: LlmSpendD1, a: int, b: int) returns (census: seq<Period>)
    ensures census == WindowPeriods(store.periods, a, b)
  {
    census := [];
    for i := 0 to |store.periods|
      invariant census == WindowPeriods(store.periods[..i], a, b)
    {
      assert store.periods[..i + 1][..i] == store.periods[..i];
      if a <= store.periods[i].windowEnd && store.periods[i].windowEnd < b {
        census := census + [store.periods[i]];
      }
    }
    assert store.periods[..|store.periods|] == store.periods;
  }

  /** The aggregate over the tenant's events whose period is among `ids`. */
  method SumEvents(store: LlmSpendD1, tenant: string, ids: seq<nat>) returns (sums: WindowSums)
    ensures sums == Sums(store.events, tenant, ids)
  {
    var cost: nat, requests: nat, unpriced: nat := 0, 0, 0;
    for i := 0 to |store.events|
      invariant WindowSums(cost, requests, unpriced) == Sums(store.events[..i], tenant, ids)
    {
      assert store.events[..i + 1][..i] == store.events[..i];
      var e := store.events[i];
      if e.event.tenantId == Some(tenant) && e.period in ids {
        requests := requests + 1;
        if e.event.cost.Some? {
          cost := cost + e.event.cost.value;
        } else {
          unpriced := unpriced + 1;
        }
      }
    }
    assert store.events[..|store.events|] == store.events;
    sums := WindowSums(cost, requests, unpriced);
  }

  /**
   readTenantLlmSpend: the census, cut at `max`, then the aggregate over exactly the periods it reports, judged by
   `SummariseWindow`. Its answer is the read the theorems are about, and it gives a reason exactly when it is not complete.
   */
  method ReadSpend(store: LlmSpendD1, tenant: string, a: int, b: int, max: nat) returns (w: LlmSpendWindow, reasons: seq<Reason>)
    requires DistinctIds(store.periods)
    ensures w == ReadTenantLlmSpend(store.View(), tenant, a, b, max)
    ensures w.complete <==> reasons == []
    ensures CensusTruncated in reasons <==> |WindowPeriods(store.periods, a, b)| > max
  {
    hide WindowPeriods, Sums, SliceIds, Reported, Rank, Many, DistinctIds;
    var all := CensusOfWindow(store, a, b);
    WindowKeepsDistinct(store.periods, a, b);
    ReportedAreSummed(all, max);
    var truncated := |all| > max;
    var periods := if truncated then Reported(all, all, max) else all;
    if |periods| == 0 {
      w, reasons := SummariseWindow([], a, b, WindowSums(0, 0, 0), truncated);
    } else {
      var sums := SumEvents(store, tenant, IdsOf(periods));
      w, reasons := SummariseWindow(periods, a, b, sums, truncated);
    }
  }

  /** An unfinished or partial period keeps its window from ever being billed. */
  lemma PartialPeriodBlocks(store: Store, k: nat, tenant: string, a: int, b: int, max: nat)
    requires k < |store.periods| && a <= store.periods[k].windowEnd < b && !Observed(store.periods[k])
    ensures !ReadTenantLlmSpend(store, tenant, a, b, max).complete
  {
    var census := WindowPeriods(store.periods, a, b);
    WindowMembers(store.periods, a, b, store.periods[k]);
    var j :| 0 <= j < |census| && census[j] == store.periods[k];
  }
}
