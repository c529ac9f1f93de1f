/** One roll-up run as a decision over a reader (`src/llm-spend-rollup.ts`). */
module Rollup {
  import opened Basics
  import opened GatewayLog

  const MAX_PER_PAGE: nat := 50

  // ---- the watermark of a batch ----

  /** `m` is the largest `occurredAt` of the batch, and none exactly when the batch is empty. */
  ghost predicate IsNewest(events: seq<SpendEvent>, m: Option<int>) {
    && (m.None? <==> events == [])
    && (m.Some? ==> (exists k :: 0 <= k < |events| && events[k].occurredAt == m.value)
                    && forall k | 0 <= k < |events| :: events[k].occurredAt <= m.value)
  }

  function Newest(events: seq<SpendEvent>): (m: Option<int>)
    ensures IsNewest(events, m)
  {
    if events == [] then None
    else
      var front, last := events[..|events| - 1], events[|events| - 1];
      var best := Newest(front);
      assert events[|events| - 1].occurredAt == last.occurredAt;
      if best.Some? && best.value >= last.occurredAt then
        assert exists k :: 0 <= k < |front| && front[k].occurredAt == best.value;
        assert forall k | 0 <= k < |front| :: front[k] == events[k];
        best
      else Some(last.occurredAt)
  }

  lemma NewestUnique(events: seq<SpendEvent>, a: Option<int>, b: Option<int>)
    requires IsNewest(events, a) && IsNewest(events, b)
    ensures a == b
  {
  }

  method NewestOccurredAt(events: seq<SpendEvent>) returns (best: Option<int>)
    ensures IsNewest(events, best)
  {
    best := None;
    for i := 0 to |events|
      invariant IsNewest(events[..i], best)
    {
      ghost var before := best;
      if best.None? || events[i].occurredAt > best.value {
        best := Some(events[i].occurredAt);
        assert events[..i + 1][i].occurredAt == best.value;
      } else {
        var k :| 0 <= k < i && events[..i][k].occurredAt == best.value;
        assert events[..i + 1][k].occurredAt == best.value;
      }
      assert forall k | 0 <= k < i :: events[..i + 1][k] == events[..i][k];
    }
    assert events[..|events|] == events;
  }

  // ---- the reader ----

  /** The rows before page `page`, counting pages from 1. */
  function PageOffset(page: nat, perPage: nat): nat
    requires page >= 1
  {
    (page - 1) * perPage
  }

  lemma FirstOffset(perPage: nat)
    ensures PageOffset(1, perPage) == 0
  {
  }

  lemma NextOffset(page: nat, perPage: nat)
    requires page >= 1
    ensures PageOffset(page + 1, perPage) == PageOffset(page, perPage) + perPage
  {
  }

  datatype Probe = Probe(total: Option<int>, oldest: Option<int>)

  /**
   The gateway behind the reader. `views[k]` is the log as it stands at the k-th listing: rows only ever
   arrive at the end, at or after the newest instant. A listing may also fail, at any of them.
   */
  class GatewayLogReader {
    const views: seq<Result<seq<LogRow>>>
    var calls: nat

    ghost predicate Valid()
      reads this
    {
      && calls <= |views|
      && (forall i | 0 <= i < |views| && views[i].Ok? :: Ascending(views[i].value))
      && (forall i, j | 0 <= i <= j < |views| && views[i].Ok? && views[j].Ok? :: views[i].value <= views[j].value)
    }

    constructor (views: seq<Result<seq<LogRow>>>)
      requires forall i | 0 <= i < |views| && views[i].Ok? :: Ascending(views[i].value)
      requires forall i, j | 0 <= i <= j < |views| && views[i].Ok? && views[j].Ok? :: views[i].value <= views[j].value
      ensures Valid() && this.views == views && calls == 0
    {
      this.views := views;
      calls := 0;
    }

    /** Page numbers start at 1. Past the end of `views` the gateway does not answer. */
    method List(after: Option<int>, page: nat, perPage: nat) returns (got: Result<seq<LogRow>>)
      requires Valid() && page >= 1
      modifies this`calls
      ensures Valid()
      ensures calls == Min(old(calls) + 1, |views|)
      ensures got == if old(calls) < |views| && views[old(calls)].Ok?
                     then Ok(PageAt(Filtered(views[old(calls)].value, after), PageOffset(page, perPage), perPage))
                     else Threw
    {
      if calls < |views| {
        var view := views[calls];
        calls := calls + 1;
        return match view
          case Ok(log) => Ok(PageAt(Filtered(log, after), PageOffset(page, perPage), perPage))
          case Threw => Threw;
      }
      return Threw;
    }
  }

  datatype Collected = Collected(events: seq<SpendEvent>, rowsSeen: nat, rowsDropped: nat, exhausted: bool)

  /** `c` is what a walk reports that read exactly the rows `seen`. */
  ghost predicate Reports(c: Collected, seen: seq<LogRow>) {
    c.events == ParseRows(seen) && c.rowsSeen == |seen| && c.rowsDropped == |seen| - |c.events|
  }

  /**
   What a walk of at most `cap` pages, listing over `views`, may have read: nothing without a page, else a
   contiguous prefix of the filtered list as the last listing had it. It is the whole of that list when
   the walk says so, and exactly `cap` full pages when it does not.
   */
  ghost predicate WalkRead(views: seq<Result<seq<LogRow>>>, after: Option<int>, cap: nat, perPage: nat,
                           seen: seq<LogRow>, exhausted: bool) {
    && |views| <= cap
    && (forall i | 0 <= i < |views| :: views[i].Ok?)
    && (views == [] ==> seen == [] && !exhausted)
    && (views != [] ==> seen <= Filtered(views[|views| - 1].value, after))
    && (exhausted ==> views != [] && seen == Filtered(views[|views| - 1].value, after))
    && (!exhausted ==> |views| == cap && |seen| == PageOffset(cap + 1, perPage))
    && (exhausted ==> |seen| < PageOffset(|views| + 1, perPage))
    && (forall i | 0 <= i < |views| - 1 :: views[i].Ok? && FullTo(views[i].value, after, i + 1, perPage))
  }

  /** The filtered list fills its first `pages` pages. */
  ghost predicate FullTo(view: seq<LogRow>, after: Option<int>, pages: nat, perPage: nat) {
    |Filtered(view, after)| >= PageOffset(pages + 1, perPage)
  }

  /** One more full or short page keeps the rows read a prefix of the list. */
  lemma PageExtendsPrefix(prev: seq<LogRow>, next: seq<LogRow>, after: Option<int>, seen: seq<LogRow>, perPage: nat)
    requires prev <= next && seen <= Filtered(prev, after)
    ensures var list := Filtered(next, after);
            var rows := PageAt(list, |seen|, perPage);
            seen + rows <= list && (|rows| < perPage ==> seen + rows == list)
  {
    assert next == prev + next[|prev|..];
    FilteredIsPrefix(prev, next[|prev|..], after);
    hide Filtered;
    var list := Filtered(next, after);
    assert seen == list[..|seen|];
  }

  /** A walk under way: it has listed over `views[lo..hi]` and read `seen`. */
  ghost predicate Walking(views: seq<Result<seq<LogRow>>>, lo: nat, hi: nat, after: Option<int>, perPage: nat,
                          seen: seq<LogRow>, exhausted: bool) {
    && lo <= hi <= |views|
    && (forall i | lo <= i < hi :: views[i].Ok?)
    && (lo == hi ==> seen == [] && !exhausted)
    && (lo < hi ==> seen <= Filtered(views[hi - 1].value, after))
    && (exhausted ==> seen == Filtered(views[hi - 1].value, after) && |seen| < PageOffset(hi - lo + 1, perPage))
    && (!exhausted ==> |seen| == PageOffset(hi - lo + 1, perPage))
    && (forall i | lo <= i < hi - 1 :: FullTo(views[i].value, after, i - lo + 1, perPage))
  }

  /** A walk that had read `seen`, wanted another page, and got no answer: the next listing failed or never came. */
  ghost predicate WalkFailed(views: seq<Result<seq<LogRow>>>, lo: nat, calls: nat, after: Option<int>, cap: nat, perPage: nat,
                             seen: seq<LogRow>) {
    exists hi | lo <= hi <= |views| ::
      && Walking(views, lo, hi, after, perPage, seen, false) && hi - lo < cap
      && calls == Min(hi + 1, |views|) && (hi < |views| ==> views[hi].Threw?)
  }

  lemma WalkStarts(views: seq<Result<seq<LogRow>>>, lo: nat, after: Option<int>, perPage: nat)
    requires lo <= |views|
    ensures Walking(views, lo, lo, after, perPage, [], false)
  {
    FirstOffset(perPage);
  }

  lemma WalkGoesOn(views: seq<Result<seq<LogRow>>>, lo: nat, hi: nat, after: Option<int>, perPage: nat,
                   seen: seq<LogRow>, rows: seq<LogRow>)
    requires Walking(views, lo, hi, after, perPage, seen, false) && hi < |views| && views[hi].Ok?
    requires lo < hi ==> views[hi - 1].value <= views[hi].value
    requires rows == PageAt(Filtered(views[hi].value, after), PageOffset(hi - lo + 1, perPage), perPage)
    ensures Walking(views, lo, hi + 1, after, perPage, seen + rows, |rows| < perPage)
  {
    hide Filtered, PageAt, PageOffset;
    var next := views[hi].value;
    PageExtendsPrefix(if lo < hi then views[hi - 1].value else next, next, after, seen, perPage);
    NextOffset(hi - lo + 1, perPage);
  }

  lemma WalkEnds(views: seq<Result<seq<LogRow>>>, lo: nat, hi: nat, after: Option<int>, cap: nat, perPage: nat,
                 seen: seq<LogRow>, exhausted: bool)
    requires Walking(views, lo, hi, after, perPage, seen, exhausted)
    requires hi - lo <= cap && (!exhausted ==> hi - lo == cap)
    ensures WalkRead(views[lo..hi], after, cap, perPage, seen, exhausted)
  {
    hide PageOffset, Filtered, FullTo;
    var walked := views[lo..hi];
    forall i | 0 <= i < |walked| - 1
      ensures walked[i].Ok? && FullTo(walked[i].value, after, i + 1, perPage)
    {
      assert walked[i] == views[lo + i];
    }
  }

  /** The inner loop of the walk: one page, row by row. */
  method ParsePage(rows: seq<LogRow>) returns (events: seq<SpendEvent>, dropped: nat)
    ensures events == ParseRows(rows) && dropped == |rows| - |events|
  {
    hide ParseLogRow;
    events, dropped := [], 0;
    for k := 0 to |rows|
      invariant events == ParseRows(rows[..k]) && dropped == k - |events|
    {
      var e := ParseLogRow(rows[k]);
      assert rows[..k + 1] == rows[..k] + [rows[k]];
      ParseAppend(rows[..k], rows[k]);
      if e.Some? {
        events := events + [e.value];
      } else {
        dropped := dropped + 1;
      }
    }
    assert rows[..|rows|] == rows;
  }

  /**
   The page walk, with rows arriving between the listings: no row twice, none missing. A listing that
   fails makes the walk fail.
   */
  method CollectSince(reader: GatewayLogReader, after: Option<int>, pageCap: nat, perPage: nat)
    returns (got: Result<Collected>, ghost seen: seq<LogRow>)
    requires reader.Valid()
    modifies reader`calls
    ensures reader.Valid() && old(reader.calls) <= reader.calls
    ensures got.Ok? ==> Reports(got.value, seen)
                        && WalkRead(reader.views[old(reader.calls)..reader.calls], after, pageCap, perPage, seen, got.value.exhausted)
    ensures got.Threw? ==> WalkFailed(reader.views, old(reader.calls), reader.calls, after, pageCap, perPage, seen)
  {
    hide Filtered, ParseLogRow, ParseRows, PageAt, PageOffset, WalkRead, Walking;
    var events, rowsSeen, rowsDropped, exhausted := [], 0, 0, false;
    seen := [];
    var page := 1;
    ghost var first := reader.calls;
    ParseNothing();
    WalkStarts(reader.views, first, after, perPage);
    while page <= pageCap && !exhausted
      invariant 1 <= page <= pageCap + 1
      invariant reader.Valid() && reader.calls == first + page - 1
      invariant Walking(reader.views, first, reader.calls, after, perPage, seen, exhausted)
      invariant page > 1 ==> reader.views[reader.calls - 1].Ok?
      invariant events == ParseRows(seen) && rowsSeen == |seen| && rowsDropped == |seen| - |events|
      decreases pageCap + 1 - page, !exhausted
    {
      var answer := reader.List(after, page, perPage);
      if answer.Threw? {
        assert reader.calls == |reader.views| || reader.views[first + page - 1].Threw?;
        return Threw, seen;
      }
      var rows := answer.value;
      WalkGoesOn(reader.views, first, reader.calls - 1, after, perPage, seen, rows);
      rowsSeen := rowsSeen + |rows|;
      var parsed, dropped := ParsePage(rows);
      ParseConcat(seen, rows);
      seen, events, rowsDropped := seen + rows, events + parsed, rowsDropped + dropped;
      exhausted := |rows| < perPage;
      page := page + 1;
    }
    WalkEnds(reader.views, first, reader.calls, after, pageCap, perPage, seen, exhausted);
    got := Ok(Collected(events, rowsSeen, rowsDropped, exhausted));
  }

  lemma ParseNothing()
    ensures ParseRows([]) == []
  {
  }

  // ---- the decision ----

  datatype Status = Complete | Incomplete | Failed

  datatype RollupResult = RollupResult(
    status: Status, controlPassed: bool, gapDetected: bool, events: seq<SpendEvent>,
    rowsSeen: nat, rowsDropped: nat, newWatermark: Option<int>)

  function ControlPassed(probe: Probe): bool {
    probe.total.Some? && probe.total.value > 0
  }

  function GapDetected(probe: Probe, after: Option<int>): bool {
    after.Some? && probe.oldest.Some? && probe.oldest.value > after.value
  }

  const PROBE_FAILED: RollupResult := RollupResult(Failed, false, false, [], 0, 0, None)

  function PagingFailed(probe: Probe, after: Option<int>): RollupResult {
    RollupResult(Failed, ControlPassed(probe), GapDetected(probe, after), [], 0, 0, None)
  }

  function Decide(probe: Probe, after: Option<int>, c: Collected): RollupResult {
    RollupResult(
      if c.exhausted && !GapDetected(probe, after) then Complete else Incomplete,
      ControlPassed(probe), GapDetected(probe, after), c.events, c.rowsSeen, c.rowsDropped, Newest(c.events))
  }

  /**
   What a result says of the gateway, over the probe's answer, the listings `lo` to `hi` and the rows `seen` they brought.
   Complete: the rows are the whole list as the last listing had it, its page was short, and nothing was deleted
   unread. Failed: the probe or a listing the walk wanted did not answer, and then nothing read counts.
   */
  ghost predicate Truthful(views: seq<Result<seq<LogRow>>>, lo: nat, hi: nat, probed: Result<Probe>, after: Option<int>, cap: nat,
                           seen: seq<LogRow>, result: RollupResult) {
    && lo <= hi <= |views|
    && (result.status == Complete <==>
          && probed.Ok? && lo < hi && views[hi - 1].Ok?
          && seen == Filtered(views[hi - 1].value, after) && |seen| < 50 * (hi - lo)
          && !(after.Some? && probed.value.oldest.Some? && after.value < probed.value.oldest.value))
    && (result.status == Failed <==>
          probed.Threw? || (lo < hi && views[hi - 1].Threw?) || (hi - lo < cap && |seen| == 50 * (hi - lo)))
    && (result.controlPassed <==> probed.Ok? && probed.value.total.Some? && probed.value.total.value > 0)
    && (result.gapDetected <==>
          probed.Ok? && after.Some? && probed.value.oldest.Some? && after.value < probed.value.oldest.value)
    && (if result.status == Failed then result.events == [] && result.rowsSeen == result.rowsDropped == 0
        else result.events == ParseRows(seen) && result.rowsSeen == |seen| && result.rowsDropped == |seen| - |result.events|)
    && IsNewest(result.events, result.newWatermark)
  }

  /** The decisions a run can reach are truthful. */
  lemma DecisionIsTruthful(views: seq<Result<seq<LogRow>>>, lo: nat, hi: nat, probed: Result<Probe>, after: Option<int>, cap: nat,
                           walk: Result<Collected>, seen: seq<LogRow>, result: RollupResult)
    requires lo <= hi <= |views|
    requires probed.Threw? ==> result == PROBE_FAILED
    requires probed.Ok? && walk.Threw? ==>
               result == PagingFailed(probed.value, after) && WalkFailed(views, lo, hi, after, cap, MAX_PER_PAGE, seen)
    requires probed.Ok? && walk.Ok? ==>
               && result == Decide(probed.value, after, walk.value) && Reports(walk.value, seen)
               && WalkRead(views[lo..hi], after, cap, MAX_PER_PAGE, seen, walk.value.exhausted)
    ensures Truthful(views, lo, hi, probed, after, cap, seen, result)
  {
    hide Filtered, ParseRows, WalkFailed, WalkRead, Reports, Truthful;
    if probed.Threw? {
      ProbeFailedIsTruthful(views, lo, hi, probed, after, cap, seen, result);
    } else if walk.Threw? {
      WalkFailedMeans(views, lo, hi, after, cap, seen);
      PagingFailedIsTruthful(views, lo, hi, probed, after, cap, seen, result);
    } else {
      WalkReadMeans(views, lo, hi, after, cap, seen, walk.value.exhausted);
      ReadIsTruthful(views, lo, hi, probed, after, cap, seen, walk.value, result);
    }
  }

  lemma ProbeFailedIsTruthful(views: seq<Result<seq<LogRow>>>, lo: nat, hi: nat, probed: Result<Probe>, after: Option<int>, cap: nat,
                              seen: seq<LogRow>, result: RollupResult)
    requires lo <= hi <= |views| && probed.Threw? && result == PROBE_FAILED
    ensures Truthful(views, lo, hi, probed, after, cap, seen, result)
  {
    hide Filtered, ParseRows;
  }

  lemma PagingFailedIsTruthful(views: seq<Result<seq<LogRow>>>, lo: nat, hi: nat, probed: Result<Probe>, after: Option<int>, cap: nat,
                               seen: seq<LogRow>, result: RollupResult)
    requires lo <= hi <= |views| && probed.Ok? && result == PagingFailed(probed.value, after)
    requires (lo < hi && views[hi - 1].Threw?) || (hi - lo < cap && |seen| == 50 * (hi - lo))
    ensures Truthful(views, lo, hi, probed, after, cap, seen, result)
  {
    hide Filtered, ParseRows;
  }

  lemma ReadIsTruthful(views: seq<Result<seq<LogRow>>>, lo: nat, hi: nat, probed: Result<Probe>, after: Option<int>, cap: nat,
                       seen: seq<LogRow>, c: Collected, result: RollupResult)
    requires lo <= hi <= |views| && probed.Ok? && result == Decide(probed.value, after, c) && Reports(c, seen)
    requires lo < hi ==> views[hi - 1].Ok?
    requires c.exhausted <==> lo < hi && seen == Filtered(views[hi - 1].value, after) && |seen| < 50 * (hi - lo)
    requires !c.exhausted ==> hi - lo == cap && |seen| == 50 * cap
    ensures Truthful(views, lo, hi, probed, after, cap, seen, result)
  {
    hide Filtered, ParseRows, Newest;
  }

  /** A walk that failed had a listing that threw, or wanted one more and never got it. */
  lemma WalkFailedMeans(views: seq<Result<seq<LogRow>>>, lo: nat, hi: nat, after: Option<int>, cap: nat, seen: seq<LogRow>)
    requires lo <= hi <= |views| && WalkFailed(views, lo, hi, after, cap, MAX_PER_PAGE, seen)
    ensures (lo < hi && views[hi - 1].Threw?) || (hi - lo < cap && |seen| == 50 * (hi - lo))
  {
    hide Filtered, FullTo, Walking;
    var h :| lo <= h <= |views| && Walking(views, lo, h, after, MAX_PER_PAGE, seen, false) && h - lo < cap
             && hi == Min(h + 1, |views|) && (h < |views| ==> views[h].Threw?);
    FullSoFar(views, lo, h, after, seen);
  }

  lemma FullSoFar(views: seq<Result<seq<LogRow>>>, lo: nat, hi: nat, after: Option<int>, seen: seq<LogRow>)
    requires Walking(views, lo, hi, after, MAX_PER_PAGE, seen, false)
    ensures |seen| == 50 * (hi - lo)
  {
    hide Filtered, FullTo;
  }

  /** A walk that was exhausted read the whole list with its last page short; any other read `cap` full pages. */
  lemma WalkReadMeans(views: seq<Result<seq<LogRow>>>, lo: nat, hi: nat, after: Option<int>, cap: nat, seen: seq<LogRow>, exhausted: bool)
    requires lo <= hi <= |views| && WalkRead(views[lo..hi], after, cap, MAX_PER_PAGE, seen, exhausted)
    ensures lo < hi ==> views[hi - 1].Ok?
    ensures exhausted <==> lo < hi && seen == Filtered(views[hi - 1].value, after) && |seen| < 50 * (hi - lo)
    ensures !exhausted ==> hi - lo == cap && |seen| == 50 * cap
  {
    hide Filtered, FullTo;
    if lo < hi { assert views[lo..hi][hi - lo - 1] == views[hi - 1]; }
  }

  method RunRollup(reader: GatewayLogReader, probed: Result<Probe>, after: Option<int>, pageCap: nat)
    returns (result: RollupResult, ghost walk: Result<Collected>, ghost seen: seq<LogRow>)
    requires reader.Valid()
    modifies reader`calls
    ensures reader.Valid() && old(reader.calls) <= reader.calls
    ensures Truthful(reader.views, old(reader.calls), reader.calls, probed, after, pageCap, seen, result)
    ensures probed.Threw? ==> result == PROBE_FAILED && reader.calls == old(reader.calls)
    ensures probed.Ok? && walk.Threw? ==>
              && result == PagingFailed(probed.value, after)
              && WalkFailed(reader.views, old(reader.calls), reader.calls, after, pageCap, MAX_PER_PAGE, seen)
    ensures probed.Ok? && walk.Ok? ==>
              && result == Decide(probed.value, after, walk.value) && Reports(walk.value, seen)
              && WalkRead(reader.views[old(reader.calls)..reader.calls], after, pageCap, MAX_PER_PAGE, seen, walk.value.exhausted)
  {
    hide Truthful, WalkFailed, WalkRead, Reports;
    ghost var lo := reader.calls;
    if probed.Threw? {
      result, walk, seen := PROBE_FAILED, Threw, [];
      DecisionIsTruthful(reader.views, lo, reader.calls, probed, after, pageCap, walk, seen, result);
      return;
    }
    var collected, rows := CollectSince(reader, after, pageCap, MAX_PER_PAGE);
    seen := rows;
    walk := collected;
    if collected.Threw? {
      result := PagingFailed(probed.value, after);
      DecisionIsTruthful(reader.views, lo, reader.calls, probed, after, pageCap, walk, seen, result);
      return;
    }
    var newest := NewestOccurredAt(collected.value.events);
    NewestUnique(collected.value.events, newest, Newest(collected.value.events));
    var probe, c := probed.value, collected.value;
    result := RollupResult(
      if c.exhausted && !GapDetected(probe, after) then Complete else Incomplete,
      ControlPassed(probe), GapDetected(probe, after), c.events, c.rowsSeen, c.rowsDropped, newest);
    DecisionIsTruthful(reader.views, lo, reader.calls, probed, after, pageCap, walk, seen, result);
  }

  /**
   Rows that lie before the newest one read, in a log read as a prefix: each was read itself, or lies in a
   second the filter holds back, before `after`.
   */
  lemma ReadUpToNewest(log: seq<LogRow>, after: Option<int>, seen: seq<LogRow>, i: nat)
    requires Ascending(log) && seen <= Filtered(log, after)
    requires i < |log| && ParseLogRow(log[i]).Some?
    requires Newest(ParseRows(seen)).Some? && log[i].at < Newest(ParseRows(seen)).value
    requires after.Some? ==> after.value <= log[i].at
    ensures ParseLogRow(log[i]).value in ParseRows(seen)
  {
    var list := Filtered(log, after);
    var events := ParseRows(seen);
    hide ParseLogRow, ParseRows, Filtered, Newest;
    var k :| 0 <= k < |events| && events[k].occurredAt == Newest(events).value;
    assert events[k] in events;
    var j := RowOfEvent(seen, events[k]);
    ParsedAt(seen[j]);
    assert seen[j] == list[j] && list[j].at == Newest(events).value;
    FilteredMembers(log, after, log[i]);
    var m :| 0 <= m < |list| && list[m] == log[i];
    FilteredAscends(log, after);
    assert m < j;
    assert seen[m] == log[i];
    EventOfRow(seen, m);
  }

  lemma {:induction false} SameSecondSameList(log: seq<LogRow>, a: int, b: int)
    requires a / 1000 == b / 1000
    ensures Filtered(log, Some(a)) == Filtered(log, Some(b))
  {
    if log != [] { SameSecondSameList(log[..|log| - 1], a, b); }
  }

  /**
   A run that read `seen` from watermark `w` leaves the cursor in the same second exactly when that second
   holds every parseable row it read. It then starts the next run on the same rows, however the log has grown:
   a second with more rows than one run can page is never left.
   */
  lemma CrowdedSecondStallsExactly(log: seq<LogRow>, more: seq<LogRow>, w: int, seen: seq<LogRow>, m: int)
    requires seen <= Filtered(log, Some(w)) && IsNewest(ParseRows(seen), Some(m))
    ensures m / 1000 == w / 1000 <==> forall k | 0 <= k < |seen| :: ParseLogRow(seen[k]).Some? ==> seen[k].at / 1000 == w / 1000
    ensures m / 1000 == w / 1000 ==>
              && Filtered(log + more, Some(m)) == Filtered(log + more, Some(w))
              && seen <= Filtered(log + more, Some(m))
  {
    var list, events := Filtered(log, Some(w)), ParseRows(seen);
    hide ParseLogRow, ParseRows, Filtered;
    forall k | 0 <= k < |seen| && ParseLogRow(seen[k]).Some?
      ensures w / 1000 <= seen[k].at / 1000 <= m / 1000
    {
      assert seen[k] == list[k];
      FilteredMembers(log, Some(w), list[k]);
      EventOfRow(seen, k);
      ParsedAt(seen[k]);
    }
    var n :| 0 <= n < |events| && events[n].occurredAt == m;
    assert events[n] in events;
    var j := RowOfEvent(seen, events[n]);
    ParsedAt(seen[j]);
    assert ParseLogRow(seen[j]).Some? && seen[j].at == m;
    if m / 1000 == w / 1000 {
      SameSecondSameList(log + more, m, w);
      FilteredIsPrefix(log, more, Some(w));
    }
  }

  /** Without retention deletion the oldest row never comes after a watermark taken from the log. */
  lemma NoGapWithoutDeletion(log: seq<LogRow>, after: int, total: Option<int>)
    requires Ascending(log) && log != [] && after >= log[0].at
    ensures !GapDetected(Probe(total, Some(log[0].at)), Some(after))
  {
  }
}
