/**
 The budgeted cron half that drives provisions nobody polls (`runPendingProvisionDrive` in `src/index.ts`):
 nested loops over the candidates and over one candidate's drives, rationed by a clock that never goes back.
 */
module DriveLoop {
  import opened Basics

  const PROVISION_DRIVE_TICK_BUDGET_MS: nat := 120_000
  const PROVISION_DRIVE_TENANT_SLICE_MS: nat := 60_000

  /** A dispatched drive advances the clock by at least a millisecond. */
  type Millis = n: nat | 0 < n witness 1

  /** What reading a tenant's latest job and driving it comes to. */
  datatype Attempt =
    | ReadThrows
    | NoJob
    | DriveThrows
    | Reaped
    | Refused
    | Dispatched(ok: bool, ms: Millis)

  datatype Summary = Summary(tenantsSeen: nat, tenantsDeferred: nat, drives: nat, driveErrors: nat)

  // ---- the log of a tick ----

  /** One pass of the inner loop: the two clock readings that let it through, whom it drove, and what came of it. */
  datatype Look = Look(tickRead: nat, sliceRead: nat, tenant: string, attempt: Attempt)

  /** How the loop left a tenant; the endings carry the clock readings that ended it. */
  datatype Ending = Deferred(at: nat) | TickSpent(at: nat) | SliceSpent(tickRead: nat, at: nat) | GuardStopped | ReadThrew

  /** One candidate: the reading of the outer check, the one its slice starts at, its passes and its ending. */
  datatype Visit = Visit(reached: nat, sliceFrom: nat, looks: seq<Look>, ending: Ending)

  predicate Moving(look: Look) {
    look.attempt.Dispatched? && look.attempt.ok
  }

  predicate Errs(look: Look) {
    look.attempt.DriveThrows? || (look.attempt.Dispatched? && !look.attempt.ok)
  }

  predicate OutOfTick(visit: Visit) {
    visit.ending.Deferred? || visit.ending.TickSpent?
  }

  function Drives(looks: seq<Look>): nat {
    if looks == [] then 0
    else Drives(looks[..|looks| - 1]) + if looks[|looks| - 1].attempt.Dispatched? then 1 else 0
  }

  function Errors(looks: seq<Look>): nat {
    if looks == [] then 0 else Errors(looks[..|looks| - 1]) + if Errs(looks[|looks| - 1]) then 1 else 0
  }

  function AllDrives(visits: seq<Visit>): nat {
    if visits == [] then 0 else AllDrives(visits[..|visits| - 1]) + Drives(visits[|visits| - 1].looks)
  }

  function AllErrors(visits: seq<Visit>): nat {
    if visits == [] then 0 else AllErrors(visits[..|visits| - 1]) + Errors(visits[|visits| - 1].looks)
  }

  function DeferredCount(visits: seq<Visit>): nat {
    if visits == [] then 0
    else DeferredCount(visits[..|visits| - 1]) + if visits[|visits| - 1].ending.Deferred? then 1 else 0
  }

  /** A pass begins only while the tick and the tenant's slice both have time left. */
  predicate InBudget(start: nat, sliceFrom: nat, look: Look) {
    && start <= look.tickRead < start + PROVISION_DRIVE_TICK_BUDGET_MS
    && sliceFrom <= look.tickRead <= look.sliceRead < sliceFrom + PROVISION_DRIVE_TENANT_SLICE_MS
  }

  /** Every pass in budget; a pass follows only one that dispatched and succeeded, after its drive's time. */
  ghost predicate LooksOk(start: nat, sliceFrom: nat, looks: seq<Look>) {
    && (forall k | 0 <= k < |looks| :: InBudget(start, sliceFrom, looks[k]))
    && forall k | 0 <= k < |looks| - 1 ::
         Moving(looks[k]) && looks[k].sliceRead + looks[k].attempt.ms <= looks[k + 1].tickRead
  }

  ghost predicate VisitOk(start: nat, visit: Visit) {
    && LooksOk(start, visit.sliceFrom, visit.looks)
    && (visit.ending.ReadThrew? <==> visit.looks != [] && Last(visit.looks).attempt.ReadThrows?)
    && (visit.ending.GuardStopped? <==> visit.looks != [] && !Moving(Last(visit.looks)) && !Last(visit.looks).attempt.ReadThrows?)
    && (visit.ending.Deferred? || visit.reached < start + PROVISION_DRIVE_TICK_BUDGET_MS)
    && match visit.ending
       case Deferred(at) => visit.looks == [] && start + PROVISION_DRIVE_TICK_BUDGET_MS <= at && visit.reached == visit.sliceFrom == at
       case TickSpent(at) => start + PROVISION_DRIVE_TICK_BUDGET_MS <= at
       case SliceSpent(tickRead, at) => tickRead < start + PROVISION_DRIVE_TICK_BUDGET_MS && visit.sliceFrom + PROVISION_DRIVE_TENANT_SLICE_MS <= at
       case _ => true
  }

  function Last(looks: seq<Look>): Look
    requires looks != []
  {
    looks[|looks| - 1]
  }

  /** Once the tick is out of time, every later candidate is deferred. */
  ghost predicate TickOk(start: nat, visits: seq<Visit>) {
    && (forall i | 0 <= i < |visits| :: VisitOk(start, visits[i]))
    && forall i, j | 0 <= i < j < |visits| :: OutOfTick(visits[i]) ==> visits[j].ending.Deferred?
  }

  // ---- the history ----

  datatype Event = Read(t: nat) | Passed(tenant: string, attempt: Attempt)

  /** What the plane saw of these passes: two readings, then the pass. */
  function LooksTrace(looks: seq<Look>): seq<Event> {
    if looks == [] then []
    else
      var look := Last(looks);
      LooksTrace(looks[..|looks| - 1]) + [Read(look.tickRead), Read(look.sliceRead), Passed(look.tenant, look.attempt)]
  }

  function EndingTrace(ending: Ending): seq<Event> {
    match ending
    case Deferred(_) => []
    case TickSpent(at) => [Read(at)]
    case SliceSpent(tickRead, at) => [Read(tickRead), Read(at)]
    case GuardStopped => []
    case ReadThrew => []
  }

  function VisitTrace(visit: Visit): seq<Event> {
    if visit.ending.Deferred? then [Read(visit.ending.at)]
    else [Read(visit.reached), Read(visit.sliceFrom)] + LooksTrace(visit.looks) + EndingTrace(visit.ending)
  }

  /** What the plane saw of a whole tick: its first reading is the tick's start. */
  function TickTrace(start: nat, visits: seq<Visit>): seq<Event> {
    if visits == [] then [Read(start)]
    else TickTrace(start, visits[..|visits| - 1]) + VisitTrace(visits[|visits| - 1])
  }

  function Reads(trace: seq<Event>): nat {
    if trace == [] then 0 else Reads(trace[..|trace| - 1]) + if trace[|trace| - 1].Read? then 1 else 0
  }

  function Passes(trace: seq<Event>): nat {
    if trace == [] then 0 else Passes(trace[..|trace| - 1]) + if trace[|trace| - 1].Passed? then 1 else 0
  }

  function Takes(attempt: Attempt): nat {
    if attempt.Dispatched? then attempt.ms else 0
  }

  /** The clock after these events, if it showed `from` before them. */
  function ClockAfter(trace: seq<Event>, from: nat): nat {
    if trace == [] then from
    else
      match trace[|trace| - 1]
      case Read(t) => t
      case Passed(_, a) => ClockAfter(trace[..|trace| - 1], from) + Takes(a)
  }

  /** Each reading is the clock after its delay, and each pass finds the next attempt: nothing is made up. */
  ghost predicate Honest(trace: seq<Event>, from: nat, delay: nat -> nat, attempts: nat -> Attempt) {
    trace == [] ||
    (var before := trace[..|trace| - 1];
     && Honest(before, from, delay, attempts)
     && match trace[|trace| - 1]
        case Read(t) => t == ClockAfter(before, from) + delay(Reads(before))
        case Passed(_, a) => a == attempts(Passes(before)))
  }

  lemma HonestOn(trace: seq<Event>, e: Event, from: nat, delay: nat -> nat, attempts: nat -> Attempt)
    requires Honest(trace, from, delay, attempts)
    requires e == match e case Read(_) => Read(ClockAfter(trace, from) + delay(Reads(trace))) case Passed(tenant, _) => Passed(tenant, attempts(Passes(trace)))
    ensures var on := trace + [e];
            && Honest(on, from, delay, attempts)
            && ClockAfter(on, from) == (match e case Read(t) => t case Passed(_, a) => ClockAfter(trace, from) + Takes(a))
            && Reads(on) == Reads(trace) + (if e.Read? then 1 else 0) && Passes(on) == Passes(trace) + if e.Passed? then 1 else 0
  {
    assert (trace + [e])[..|trace|] == trace;
  }

  // ---- the loops ----

  /**
   The clock and the drives, as the loop meets them: `delay(k)` passes before the k-th clock reading and
   `attempts(k)` is what the k-th pass finds. `trace` is everything the plane was asked, in order.
   */
  class Plane {
    var clock: nat
    var readings: nat
    var passes: nat
    ghost var trace: seq<Event>
    const initial: nat
    const delay: nat -> nat
    const attempts: nat -> Attempt

    ghost predicate Valid()
      reads this
    {
      && Honest(trace, initial, delay, attempts)
      && clock == ClockAfter(trace, initial) && readings == Reads(trace) && passes == Passes(trace)
    }

    constructor (clock: nat, delay: nat -> nat, attempts: nat -> Attempt)
      ensures Valid() && trace == []
      ensures this.initial == clock && this.delay == delay && this.attempts == attempts
    {
      this.clock, this.initial, this.delay, this.attempts := clock, clock, delay, attempts;
      readings, passes, trace := 0, 0, [];
    }

    method Now() returns (t: nat)
      requires Valid()
      modifies this
      ensures Valid() && trace == old(trace) + [Read(t)]
      ensures t == clock && old(clock) <= clock
    {
      HonestOn(trace, Read(clock + delay(readings)), initial, delay, attempts);
      hide Honest, ClockAfter, Reads, Passes;
      clock, readings := clock + delay(readings), readings + 1;
      t := clock;
      trace := trace + [Read(t)];
    }

    method Attempt(tenant: string) returns (a: Attempt)
      requires Valid()
      modifies this
      ensures Valid() && trace == old(trace) + [Passed(tenant, a)]
      ensures clock == old(clock) + Takes(a)
    {
      HonestOn(trace, Passed(tenant, attempts(passes)), initial, delay, attempts);
      hide Honest, ClockAfter, Reads, Passes;
      a := attempts(passes);
      passes, clock := passes + 1, clock + Takes(a);
      trace := trace + [Passed(tenant, a)];
    }
  }

  /** The last pass dispatched a drive that has ended by now. */
  ghost predicate LastEnded(looks: seq<Look>, clock: int) {
    looks == [] || (Moving(Last(looks)) && Last(looks).sliceRead + Last(looks).attempt.ms <= clock)
  }

  /**
   The inner loop: drive one tenant until it stops moving. The visit it logs is exactly what it asked of the
   plane. It ends because every pass that continues took time from the tick.
   */
  method DriveUntilItStops(plane: Plane, tenant: string, tickStartedAt: nat, reached: nat, sliceStartedAt: nat)
    returns (drives: nat, errors: nat, threw: bool, budgetExhausted: bool, ghost visit: Visit)
    requires plane.Valid() && tickStartedAt <= sliceStartedAt <= plane.clock
    requires reached < tickStartedAt + PROVISION_DRIVE_TICK_BUDGET_MS
    modifies plane
    ensures plane.Valid() && plane.trace == old(plane.trace) + LooksTrace(visit.looks) + EndingTrace(visit.ending)
    ensures VisitOk(tickStartedAt, visit) && visit.reached == reached && visit.sliceFrom == sliceStartedAt
    ensures forall k | 0 <= k < |visit.looks| :: visit.looks[k].tenant == tenant
    ensures drives == Drives(visit.looks) && errors == Errors(visit.looks)
    ensures !visit.ending.Deferred? && budgetExhausted == OutOfTick(visit) && threw == visit.ending.ReadThrew?
    ensures old(plane.clock) + drives <= plane.clock
    ensures drives > 0 ==> old(plane.clock) + drives <= tickStartedAt + PROVISION_DRIVE_TICK_BUDGET_MS
    ensures budgetExhausted ==> tickStartedAt + PROVISION_DRIVE_TICK_BUDGET_MS <= plane.clock
  {
    hide *;
    drives, errors, threw, budgetExhausted := 0, 0, false, false;
    ghost var looks: seq<Look> := [];
    ghost var trace0 := plane.trace;
    EmptyLooks(tickStartedAt, sliceStartedAt, plane.clock, trace0);
    while true
      invariant plane.Valid() && plane.trace == trace0 + LooksTrace(looks)
      invariant tickStartedAt <= sliceStartedAt <= plane.clock
      invariant old(plane.clock) + drives <= plane.clock
      invariant drives > 0 ==> old(plane.clock) + drives <= tickStartedAt + PROVISION_DRIVE_TICK_BUDGET_MS
      invariant LooksOk(tickStartedAt, sliceStartedAt, looks) && LastEnded(looks, plane.clock)
      invariant forall k | 0 <= k < |looks| :: looks[k].tenant == tenant
      invariant drives == Drives(looks) && errors == Errors(looks)
      decreases tickStartedAt + PROVISION_DRIVE_TICK_BUDGET_MS - plane.clock
    {
      ghost var clock0 := plane.clock;
      var tickNow := plane.Now();
      if tickNow - tickStartedAt >= PROVISION_DRIVE_TICK_BUDGET_MS {
        visit := Visit(reached, sliceStartedAt, looks, TickSpent(tickNow));
        EndsMoving(tickStartedAt, visit, clock0, trace0);
        return drives, errors, false, true, visit;
      }
      var sliceNow := plane.Now();
      if sliceNow - sliceStartedAt >= PROVISION_DRIVE_TENANT_SLICE_MS {
        visit := Visit(reached, sliceStartedAt, looks, SliceSpent(tickNow, sliceNow));
        EndsMoving(tickStartedAt, visit, clock0, trace0);
        return drives, errors, false, false, visit;
      }
      var attempt := plane.Attempt(tenant);
      LookAppended(tickStartedAt, sliceStartedAt, looks, Look(tickNow, sliceNow, tenant, attempt), clock0, trace0);
      TakesIs(attempt);
      looks := looks + [Look(tickNow, sliceNow, tenant, attempt)];
      if attempt.ReadThrows? {
        threw := true;
        break;
      }
      if attempt.NoJob? {
        break;
      }
      if attempt.DriveThrows? {
        errors := errors + 1;
        break;
      }
      if attempt.Reaped? || attempt.Refused? {
        break;
      }
      drives := drives + 1;
      if !attempt.ok {
        errors := errors + 1;
        break;
      }
    }
    visit := Visit(reached, sliceStartedAt, looks, if threw then ReadThrew else GuardStopped);
    EndsStopped(tickStartedAt, visit, trace0);
  }

  lemma TakesIs(a: Attempt)
    ensures Takes(a) == if a.Dispatched? then a.ms else 0
  {
  }

  lemma EmptyLooks(start: nat, sliceFrom: nat, clock: int, trace: seq<Event>)
    ensures LooksOk(start, sliceFrom, []) && LastEnded([], clock) && Drives([]) == 0 && Errors([]) == 0
    ensures trace == trace + LooksTrace([])
  {
  }

  /** A budget ending closes a well-formed visit. */
  lemma EndsMoving(start: nat, visit: Visit, clock: int, trace: seq<Event>)
    requires LooksOk(start, visit.sliceFrom, visit.looks) && LastEnded(visit.looks, clock)
    requires visit.reached < start + PROVISION_DRIVE_TICK_BUDGET_MS
    requires match visit.ending
             case TickSpent(at) => start + PROVISION_DRIVE_TICK_BUDGET_MS <= at
             case SliceSpent(tickRead, at) => tickRead < start + PROVISION_DRIVE_TICK_BUDGET_MS && visit.sliceFrom + PROVISION_DRIVE_TENANT_SLICE_MS <= at
             case _ => false
    ensures VisitOk(start, visit) && (OutOfTick(visit) <==> visit.ending.TickSpent?)
    ensures match visit.ending
            case TickSpent(at) => trace + LooksTrace(visit.looks) + EndingTrace(visit.ending) == trace + LooksTrace(visit.looks) + [Read(at)]
            case SliceSpent(tickRead, at) =>
              trace + LooksTrace(visit.looks) + EndingTrace(visit.ending) == (trace + LooksTrace(visit.looks) + [Read(tickRead)]) + [Read(at)]
            case _ => false
  {
    hide LooksOk, LooksTrace;
  }

  lemma EndsStopped(start: nat, visit: Visit, trace: seq<Event>)
    requires LooksOk(start, visit.sliceFrom, visit.looks) && visit.looks != [] && !Moving(Last(visit.looks))
    requires visit.reached < start + PROVISION_DRIVE_TICK_BUDGET_MS
    requires visit.ending == if Last(visit.looks).attempt.ReadThrows? then ReadThrew else GuardStopped
    ensures VisitOk(start, visit) && !OutOfTick(visit)
    ensures trace + LooksTrace(visit.looks) + EndingTrace(visit.ending) == trace + LooksTrace(visit.looks)
  {
    hide LooksOk, LooksTrace;
  }

  /** Logging one more pass, whose readings came after the last drive ended. */
  lemma LookAppended(start: nat, sliceFrom: nat, looks: seq<Look>, look: Look, before: int, trace: seq<Event>)
    requires LooksOk(start, sliceFrom, looks) && LastEnded(looks, before)
    requires start <= sliceFrom && sliceFrom <= before <= look.tickRead <= look.sliceRead
    requires look.tickRead < start + PROVISION_DRIVE_TICK_BUDGET_MS
    requires look.sliceRead < sliceFrom + PROVISION_DRIVE_TENANT_SLICE_MS
    ensures LooksOk(start, sliceFrom, looks + [look]) && Last(looks + [look]) == look
    ensures Moving(look) <==> look.attempt.Dispatched? && look.attempt.ok
    ensures Moving(look) ==> LastEnded(looks + [look], look.sliceRead + look.attempt.ms)
    ensures Drives(looks + [look]) == Drives(looks) + if look.attempt.Dispatched? then 1 else 0
    ensures Errors(looks + [look]) == Errors(looks) + if Errs(look) then 1 else 0
    ensures Errs(look) <==> look.attempt.DriveThrows? || (look.attempt.Dispatched? && !look.attempt.ok)
    ensures trace + LooksTrace(looks + [look])
         == trace + LooksTrace(looks) + [Read(look.tickRead)] + [Read(look.sliceRead)] + [Passed(look.tenant, look.attempt)]
  {
    var after := looks + [look];
    assert after[..|after| - 1] == looks;
    LooksTraceOn(looks, look);
    hide LooksTrace;
    ThreeMore(trace, LooksTrace(looks), Read(look.tickRead), Read(look.sliceRead), Passed(look.tenant, look.attempt));
  }

  lemma ThreeMore(trace: seq<Event>, looks: seq<Event>, a: Event, b: Event, c: Event)
    ensures trace + (looks + [a, b, c]) == trace + looks + [a] + [b] + [c]
  {
  }

  lemma LooksTraceOn(looks: seq<Look>, look: Look)
    ensures LooksTrace(looks + [look]) == LooksTrace(looks) + [Read(look.tickRead), Read(look.sliceRead), Passed(look.tenant, look.attempt)]
  {
    assert (looks + [look])[..|looks|] == looks;
  }

  /** Some candidate ran into the tick's end. */
  ghost predicate RanOut(visits: seq<Visit>) {
    exists i | 0 <= i < |visits| :: OutOfTick(visits[i])
  }

  /**
   The loops end. `visits` has one entry per candidate, in order, and is exactly what the run asked of the
   plane: the new part of the plane's history, whose first reading is the start of the tick. The four counters
   report it truthfully, and a tick dispatches at most one drive per millisecond of its budget. Only a job
   read that throws ends the tick early, and then the last entry says so.
   */
  method RunPendingProvisionDrive(plane: Plane, hasProvisioner: bool, pending: seq<string>, provisioning: seq<string>)
    returns (summary: Result<Summary>, budgetExhausted: bool, ghost start: nat, ghost visits: seq<Visit>)
    requires plane.Valid()
    modifies plane
    ensures plane.Valid()
    ensures !hasProvisioner ==> summary == Ok(Summary(0, 0, 0, 0)) && plane.trace == old(plane.trace)
    ensures hasProvisioner ==> plane.trace == old(plane.trace) + TickTrace(start, visits) && TickOk(start, visits)
    ensures |visits| <= |pending| + |provisioning|
    ensures forall i, k | 0 <= i < |visits| && 0 <= k < |visits[i].looks| ::
              visits[i].looks[k].tenant == if i < |pending| then pending[i] else provisioning[i - |pending|]
    ensures hasProvisioner && summary.Threw? ==>
              && 0 < |visits| <= |pending| + |provisioning| && visits[|visits| - 1].ending.ReadThrew?
              && forall i | 0 <= i < |visits| - 1 :: !visits[i].ending.ReadThrew?
    ensures hasProvisioner && summary.Ok? ==>
              && |visits| == |pending| + |provisioning| && (forall i | 0 <= i < |visits| :: !visits[i].ending.ReadThrew?)
              && summary.value == Summary(|visits|, DeferredCount(visits), AllDrives(visits), AllErrors(visits))
              && summary.value.drives <= PROVISION_DRIVE_TICK_BUDGET_MS
              && budgetExhausted == RanOut(visits)
  {
    hide *;
    start, visits, budgetExhausted := 0, [], false;
    if !hasProvisioner {
      return Ok(Summary(0, 0, 0, 0)), false, 0, [];
    }
    var candidates := pending + provisioning;
    ghost var trace0 := plane.trace;
    var tickStartedAt := plane.Now();
    start := tickStartedAt;
    var drives, errors, deferred := 0, 0, 0;
    var n := 0;
    EmptyTick(start);
    while n < |candidates|
      invariant n == |visits| <= |candidates|
      invariant plane.Valid() && plane.trace == trace0 + TickTrace(start, visits)
      invariant start == tickStartedAt && start + drives <= plane.clock && drives <= PROVISION_DRIVE_TICK_BUDGET_MS
      invariant TickOk(start, visits) && budgetExhausted == RanOut(visits)
      invariant forall i | 0 <= i < |visits| :: !visits[i].ending.ReadThrew?
      invariant forall i, k | 0 <= i < |visits| && 0 <= k < |visits[i].looks| :: visits[i].looks[k].tenant == candidates[i]
      invariant budgetExhausted ==> start + PROVISION_DRIVE_TICK_BUDGET_MS <= plane.clock
      invariant deferred == DeferredCount(visits) && drives == AllDrives(visits) && errors == AllErrors(visits)
    {
      var now := plane.Now();
      if now - tickStartedAt >= PROVISION_DRIVE_TICK_BUDGET_MS {
        budgetExhausted := true;
        deferred := deferred + 1;
        DeferredVisit(start, now);
        Appended(start, visits, Visit(now, now, [], Deferred(now)), trace0);
        visits := visits + [Visit(now, now, [], Deferred(now))];
        n := n + 1;
        continue;
      }
      var sliceStartedAt := plane.Now();
      var driven, erred, threw, spent;
      ghost var visit;
      driven, erred, threw, spent, visit := DriveUntilItStops(plane, candidates[n], tickStartedAt, now, sliceStartedAt);
      Appended(start, visits, visit, trace0);
      VisitTraceIs(visit, trace0 + TickTrace(start, visits));
      visits := visits + [visit];
      if threw {
        return Threw, budgetExhausted, start, visits;
      }
      budgetExhausted := spent;
      drives, errors := drives + driven, errors + erred;
      n := n + 1;
    }
    return Ok(Summary(|candidates|, deferred, drives, errors)), budgetExhausted, start, visits;
  }

  lemma VisitTraceIs(visit: Visit, trace: seq<Event>)
    requires !visit.ending.Deferred?
    ensures ((trace + [Read(visit.reached)]) + [Read(visit.sliceFrom)]) + LooksTrace(visit.looks) + EndingTrace(visit.ending)
         == trace + VisitTrace(visit)
  {
    hide LooksTrace, EndingTrace;
  }

  lemma EmptyTick(start: nat)
    ensures TickOk(start, []) && !RanOut([]) && DeferredCount([]) == 0 && AllDrives([]) == 0 && AllErrors([]) == 0
    ensures TickTrace(start, []) == [Read(start)]
  {
  }

  lemma DeferredVisit(start: nat, now: nat)
    requires start + PROVISION_DRIVE_TICK_BUDGET_MS <= now
    ensures var visit := Visit(now, now, [], Deferred(now));
            VisitOk(start, visit) && OutOfTick(visit) && VisitTrace(visit) == [Read(now)] && Drives([]) == 0 && Errors([]) == 0
  {
  }

  /** Logging one more candidate, after a log that is out of time only if this one is deferred. */
  lemma Appended(start: nat, visits: seq<Visit>, visit: Visit, trace: seq<Event>)
    requires TickOk(start, visits) && VisitOk(start, visit)
    requires RanOut(visits) ==> visit.ending.Deferred?
    ensures var after := visits + [visit];
            && TickOk(start, after)
            && trace + TickTrace(start, after) == trace + TickTrace(start, visits) + VisitTrace(visit)
            && DeferredCount(after) == DeferredCount(visits) + (if visit.ending.Deferred? then 1 else 0)
            && AllDrives(after) == AllDrives(visits) + Drives(visit.looks)
            && AllErrors(after) == AllErrors(visits) + Errors(visit.looks)
            && (RanOut(after) <==> RanOut(visits) || OutOfTick(visit))
  {
    hide VisitOk, VisitTrace;
    var after := visits + [visit];
    assert after[..|after| - 1] == visits && after[|after| - 1] == visit;
    forall i | 0 <= i < |visits| ensures after[i] == visits[i] {}
    if OutOfTick(visit) { assert OutOfTick(after[|visits|]); }
  }

  // ---- what the history says ----

  lemma {:induction false} HonestPrefix(trace: seq<Event>, from: nat, delay: nat -> nat, attempts: nat -> Attempt, k: nat)
    requires Honest(trace, from, delay, attempts) && k <= |trace|
    ensures Honest(trace[..k], from, delay, attempts)
    decreases |trace|
  {
    if k < |trace| {
      assert trace[..|trace| - 1][..k] == trace[..k];
      HonestPrefix(trace[..|trace| - 1], from, delay, attempts, k);
    } else {
      assert trace[..k] == trace;
    }
  }

  /** Every reading is the clock at that point plus its delay, and every pass is the next attempt, in order. */
  lemma EventIs(trace: seq<Event>, from: nat, delay: nat -> nat, attempts: nat -> Attempt, i: nat)
    requires Honest(trace, from, delay, attempts) && i < |trace|
    ensures match trace[i]
            case Read(t) => t == ClockAfter(trace[..i], from) + delay(Reads(trace[..i]))
            case Passed(_, a) => a == attempts(Passes(trace[..i]))
  {
    HonestPrefix(trace, from, delay, attempts, i + 1);
    assert trace[..i + 1][..i] == trace[..i];
  }

  /** Where a pass and its two readings stand in the history of a visit. */
  lemma {:induction false} LooksTraceAt(looks: seq<Look>, k: nat)
    requires k < |looks|
    ensures |LooksTrace(looks)| == 3 * |looks|
    ensures LooksTrace(looks)[3 * k] == Read(looks[k].tickRead) && LooksTrace(looks)[3 * k + 1] == Read(looks[k].sliceRead)
    ensures LooksTrace(looks)[3 * k + 2] == Passed(looks[k].tenant, looks[k].attempt)
    decreases |looks|
  {
    var last := |looks| - 1;
    if k < last {
      LooksTraceAt(looks[..last], k);
    } else if last > 0 {
      LooksTraceAt(looks[..last], last - 1);
    }
  }

  /** In the history of a tick: the pass at `i` has its tick reading, its slice reading and its slice's start before it. */
  ghost predicate BegunInBudget(trace: seq<Event>, start: nat, i: nat) {
    && 2 <= i < |trace| && trace[i - 1].Read? && trace[i - 2].Read?
    && start <= trace[i - 2].t < start + PROVISION_DRIVE_TICK_BUDGET_MS
    && exists j | 0 <= j < i - 2 :: trace[j].Read? && trace[j].t <= trace[i - 2].t && trace[i - 1].t < trace[j].t + PROVISION_DRIVE_TENANT_SLICE_MS
  }

  /** The place of a pass in the history of a visit says which pass it is. */
  lemma {:induction false} WhichPass(start: nat, visit: Visit, i: nat) returns (k: nat)
    requires VisitOk(start, visit) && i < |VisitTrace(visit)| && VisitTrace(visit)[i].Passed?
    ensures k < |visit.looks| && i == 3 * k + 4 && VisitTrace(visit)[1] == Read(visit.sliceFrom)
    ensures VisitTrace(visit)[i - 2] == Read(visit.looks[k].tickRead) && VisitTrace(visit)[i - 1] == Read(visit.looks[k].sliceRead)
  {
    LooksPasses(visit.looks);
    VisitTraceParts(start, visit, i);
    k := (i - 2) / 3;
    LooksTraceAt(visit.looks, k);
    hide *;
    PlaceInLooks(LooksTrace(visit.looks), VisitTrace(visit), i, k);
  }

  lemma PlaceInLooks(looks: seq<Event>, trace: seq<Event>, i: nat, k: nat)
    requires 2 <= i < 2 + |looks| <= |trace| && k == (i - 2) / 3 && 3 * k + 2 < |looks|
    requires forall j | 0 <= j < |looks| :: trace[2 + j] == looks[j]
    requires looks[3 * k].Read? && looks[3 * k + 1].Read? && trace[i].Passed?
    ensures i == 3 * k + 4 && trace[i - 2] == looks[3 * k] && trace[i - 1] == looks[3 * k + 1]
  {
    assert trace[i] == looks[i - 2];
    assert trace[2 + 3 * k] == looks[3 * k] && trace[2 + (3 * k + 1)] == looks[3 * k + 1];
  }

  lemma {:induction false} VisitTraceParts(start: nat, visit: Visit, i: nat)
    requires VisitOk(start, visit) && i < |VisitTrace(visit)| && VisitTrace(visit)[i].Passed?
    ensures var looks, trace := LooksTrace(visit.looks), VisitTrace(visit);
            && 2 <= i < 2 + |looks| <= |trace| && trace[1] == Read(visit.sliceFrom)
            && forall j | 0 <= j < |looks| :: trace[2 + j] == looks[j]
  {
    hide LooksTrace, LooksOk;
    var head := [Read(visit.reached), Read(visit.sliceFrom)];
    HeadLooksEnding(head, LooksTrace(visit.looks), EndingTrace(visit.ending), VisitTrace(visit), 0);
  }

  lemma VisitBegunInBudget(start: nat, visit: Visit, i: nat)
    requires VisitOk(start, visit) && i < |VisitTrace(visit)| && VisitTrace(visit)[i].Passed?
    ensures BegunInBudget(VisitTrace(visit), start, i)
  {
    var k := WhichPass(start, visit, i);
    assert InBudget(start, visit.sliceFrom, visit.looks[k]);
    hide VisitTrace, VisitOk, LooksOk;
  }

  /** No drive starts once the tick's budget or that tenant's slice is spent, read off the plane's own history. */
  lemma {:induction false} NoPassOutOfBudget(start: nat, visits: seq<Visit>, i: nat)
    requires TickOk(start, visits) && i < |TickTrace(start, visits)| && TickTrace(start, visits)[i].Passed?
    ensures TickTrace(start, visits)[0] == Read(start) && BegunInBudget(TickTrace(start, visits), start, i)
    decreases |visits|
  {
    hide VisitOk, VisitTrace;
    StartsWithStart(start, visits);
    if visits != [] {
      var last := |visits| - 1;
      var before, added := TickTrace(start, visits[..last]), VisitTrace(visits[last]);
      if i < |before| {
        NoPassOutOfBudget(start, visits[..last], i);
        BegunOn([], before, added, start, i);
        assert [] + before + added == before + added;
      } else {
        VisitBegunInBudget(start, visits[last], i - |before|);
        BegunOn(before, added, [], start, i - |before|);
        assert before + added + [] == before + added;
      }
    }
  }

  lemma {:induction false} StartsWithStart(start: nat, visits: seq<Visit>)
    ensures TickTrace(start, visits) != [] && TickTrace(start, visits)[0] == Read(start)
    decreases |visits|
  {
    hide VisitTrace;
    if visits != [] { StartsWithStart(start, visits[..|visits| - 1]); }
  }

  lemma BegunOn(before: seq<Event>, trace: seq<Event>, after: seq<Event>, start: nat, i: nat)
    requires BegunInBudget(trace, start, i)
    ensures BegunInBudget(before + trace + after, start, |before| + i)
  {
    var all, n := before + trace + after, |before|;
    assert forall j | 0 <= j < |trace| :: all[n + j] == trace[j];
    var j :| 0 <= j < i - 2 && trace[j].Read? && trace[j].t <= trace[i - 2].t && trace[i - 1].t < trace[j].t + PROVISION_DRIVE_TENANT_SLICE_MS;
    assert all[n + j] == trace[j] && all[n + i - 2] == trace[i - 2] && all[n + i - 1] == trace[i - 1];
  }

  /**
   In the history of a visit every pass has its two readings before it, and one pass follows another only when that one
   dispatched a drive that succeeded, for the same tenant, and after that drive's time.
   */
  lemma DriveFollowsSuccess(looks: seq<Look>, start: nat, sliceFrom: nat, k: nat, tenant: string)
    requires LooksOk(start, sliceFrom, looks) && k + 1 < |looks| && forall m | 0 <= m < |looks| :: looks[m].tenant == tenant
    ensures var trace := LooksTrace(looks);
            && |trace| == 3 * |looks| && trace[3 * k + 1].Read? && trace[3 * k + 2].Passed? && trace[3 * k + 3].Read? && trace[3 * k + 4].Read?
            && trace[3 * k + 5].Passed? && trace[3 * k + 2].tenant == trace[3 * k + 5].tenant == tenant
            && trace[3 * k + 2].attempt.Dispatched? && trace[3 * k + 2].attempt.ok
            && trace[3 * k + 1].t + trace[3 * k + 2].attempt.ms <= trace[3 * k + 3].t
  {
    LooksTraceAt(looks, k);
    LooksTraceAt(looks, k + 1);
    hide LooksTrace;
    assert Moving(looks[k]);
  }

  predicate Failed(attempt: Attempt) {
    attempt.DriveThrows? || (attempt.Dispatched? && !attempt.ok)
  }

  function DrivesIn(trace: seq<Event>): nat {
    if trace == [] then 0
    else DrivesIn(trace[..|trace| - 1]) + if trace[|trace| - 1].Passed? && trace[|trace| - 1].attempt.Dispatched? then 1 else 0
  }

  function ErrorsIn(trace: seq<Event>): nat {
    if trace == [] then 0
    else ErrorsIn(trace[..|trace| - 1]) + if trace[|trace| - 1].Passed? && Failed(trace[|trace| - 1].attempt) then 1 else 0
  }

  lemma {:induction false} CountsAdd(a: seq<Event>, b: seq<Event>)
    ensures DrivesIn(a + b) == DrivesIn(a) + DrivesIn(b) && ErrorsIn(a + b) == ErrorsIn(a) + ErrorsIn(b)
    decreases |b|
  {
    if b == [] {
      assert a + b == a;
    } else {
      assert (a + b)[..|a + b| - 1] == a + b[..|b| - 1];
      CountsAdd(a, b[..|b| - 1]);
    }
  }

  lemma CountsOfOne(e: Event)
    ensures DrivesIn([e]) == (if e.Passed? && e.attempt.Dispatched? then 1 else 0)
    ensures ErrorsIn([e]) == if e.Passed? && Failed(e.attempt) then 1 else 0
  {
    assert [e][..0] == [];
  }

  lemma {:induction false} LooksCount(looks: seq<Look>)
    ensures DrivesIn(LooksTrace(looks)) == Drives(looks) && ErrorsIn(LooksTrace(looks)) == Errors(looks)
    decreases |looks|
  {
    if looks != [] {
      var front, look := looks[..|looks| - 1], Last(looks);
      LooksCount(front);
      var r, q, e := Read(look.tickRead), Read(look.sliceRead), Passed(look.tenant, look.attempt);
      CountsAdd(LooksTrace(front), [r, q, e]);
      assert [r, q, e] == [r] + [q] + [e];
      CountsAdd([r] + [q], [e]);
      CountsAdd([r], [q]);
      CountsOfOne(r);
      CountsOfOne(q);
      CountsOfOne(e);
      hide DrivesIn, ErrorsIn;
    }
  }

  lemma VisitCount(visit: Visit)
    requires visit.ending.Deferred? ==> visit.looks == []
    ensures DrivesIn(VisitTrace(visit)) == Drives(visit.looks) && ErrorsIn(VisitTrace(visit)) == Errors(visit.looks)
  {
    LooksCount(visit.looks);
    hide LooksTrace;
    var head, looks, end := [Read(visit.reached), Read(visit.sliceFrom)], LooksTrace(visit.looks), EndingTrace(visit.ending);
    CountsAdd(head + looks, end);
    CountsAdd(head, looks);
    ReadsCountNothing(head);
    ReadsCountNothing(end);
    if visit.ending.Deferred? { CountsOfOne(Read(visit.ending.at)); }
    hide DrivesIn, ErrorsIn;
  }

  lemma {:induction false} ReadsCountNothing(trace: seq<Event>)
    requires forall k | 0 <= k < |trace| :: trace[k].Read?
    ensures DrivesIn(trace) == 0 && ErrorsIn(trace) == 0
    decreases |trace|
  {
    if trace != [] { ReadsCountNothing(trace[..|trace| - 1]); }
  }

  /** The counters are those of the history: dispatches, and passes that threw or failed. */
  lemma CountersAreTheHistorys(start: nat, visits: seq<Visit>)
    requires TickOk(start, visits)
    ensures DrivesIn(TickTrace(start, visits)) == AllDrives(visits) && ErrorsIn(TickTrace(start, visits)) == AllErrors(visits)
  {
    forall i | 0 <= i < |visits|
      ensures visits[i].ending.Deferred? ==> visits[i].looks == []
    {
      assert VisitOk(start, visits[i]);
    }
    hide *;
    HistoryCounts(start, visits);
  }

  lemma {:induction false} HistoryCounts(start: nat, visits: seq<Visit>)
    requires forall i | 0 <= i < |visits| :: visits[i].ending.Deferred? ==> visits[i].looks == []
    ensures DrivesIn(TickTrace(start, visits)) == AllDrives(visits) && ErrorsIn(TickTrace(start, visits)) == AllErrors(visits)
    decreases |visits|
  {
    hide DrivesIn, ErrorsIn, VisitTrace, Drives, Errors;
    if visits == [] {
      CountsOfOne(Read(start));
    } else {
      var front, last := visits[..|visits| - 1], visits[|visits| - 1];
      assert TickTrace(start, visits) == TickTrace(start, front) + VisitTrace(last);
      assert AllDrives(visits) == AllDrives(front) + Drives(last.looks) && AllErrors(visits) == AllErrors(front) + Errors(last.looks);
      hide TickTrace, AllDrives, AllErrors;
      HistoryCounts(start, front);
      VisitCount(last);
      CountsAdd(TickTrace(start, front), VisitTrace(last));
    }
  }

  function Dispatches(trace: seq<Event>): set<int> {
    set i | 0 <= i < |trace| && trace[i].Passed? && trace[i].attempt.Dispatched?
  }

  function Failures(trace: seq<Event>): set<int> {
    set i | 0 <= i < |trace| && trace[i].Passed?
            && (trace[i].attempt.DriveThrows? || (trace[i].attempt.Dispatched? && !trace[i].attempt.ok))
  }

  lemma DispatchesStep(trace: seq<Event>)
    requires trace != []
    ensures var last := trace[|trace| - 1];
            |Dispatches(trace)| == |Dispatches(trace[..|trace| - 1])| + if last.Passed? && last.attempt.Dispatched? then 1 else 0
  {
    var n := |trace| - 1;
    assert forall i | 0 <= i < n :: trace[..n][i] == trace[i];
    var before := Dispatches(trace[..n]);
    assert n !in before;
    assert Dispatches(trace) == if trace[n].Passed? && trace[n].attempt.Dispatched? then before + {n} else before;
  }

  lemma FailuresStep(trace: seq<Event>)
    requires trace != []
    ensures var last := trace[|trace| - 1];
            |Failures(trace)| == |Failures(trace[..|trace| - 1])|
              + if last.Passed? && (last.attempt.DriveThrows? || (last.attempt.Dispatched? && !last.attempt.ok)) then 1 else 0
  {
    var n := |trace| - 1;
    assert forall i | 0 <= i < n :: trace[..n][i] == trace[i];
    var before, e := Failures(trace[..n]), trace[n];
    assert n !in before;
    assert Failures(trace) == if e.Passed? && (e.attempt.DriveThrows? || (e.attempt.Dispatched? && !e.attempt.ok)) then before + {n} else before;
  }

  lemma {:induction false} HistorySets(trace: seq<Event>)
    ensures DrivesIn(trace) == |Dispatches(trace)| && ErrorsIn(trace) == |Failures(trace)|
    decreases |trace|
  {
    if trace != [] {
      HistorySets(trace[..|trace| - 1]);
      DispatchesStep(trace);
      FailuresStep(trace);
      hide Dispatches, Failures;
    }
  }

  /**
   What the counters count: `drives` the passes of the tick's history that dispatched a drive, `drive_errors` those whose
   drive threw or reported failure.
   */
  lemma CountersSpelled(start: nat, visits: seq<Visit>)
    requires TickOk(start, visits)
    ensures AllDrives(visits) == |Dispatches(TickTrace(start, visits))| && AllErrors(visits) == |Failures(TickTrace(start, visits))|
  {
    hide *;
    CountersAreTheHistorys(start, visits);
    HistorySets(TickTrace(start, visits));
  }

  // ---- what a well-formed tick amounts to ----

  /** The deferred tenants are exactly the last `tenants_deferred` candidates. */
  lemma {:induction false} DeferredAreASuffix(start: nat, visits: seq<Visit>)
    requires TickOk(start, visits)
    ensures DeferredCount(visits) <= |visits|
    ensures forall i | 0 <= i < |visits| :: visits[i].ending.Deferred? <==> |visits| - DeferredCount(visits) <= i
  {
    hide VisitOk;
    if visits != [] {
      var last := |visits| - 1;
      DeferredAreASuffix(start, visits[..last]);
      if DeferredCount(visits[..last]) > 0 {
        assert visits[..last][last - 1].ending.Deferred?;
        assert OutOfTick(visits[last - 1]);
      }
    }
  }

  /** Only a tenant's last pass can fail, so a tenant contributes at most one error. */
  lemma {:induction false} OneErrorPerVisit(start: nat, sliceFrom: nat, looks: seq<Look>)
    requires LooksOk(start, sliceFrom, looks)
    ensures Errors(looks) == if looks != [] && Errs(looks[|looks| - 1]) then 1 else 0
  {
    if |looks| > 1 {
      assert Moving(looks[|looks| - 2]);
      OneErrorPerVisit(start, sliceFrom, looks[..|looks| - 1]);
    }
  }

  /** `drive_errors` is at most the number of tenants not deferred. */
  lemma {:induction false} ErrorsWithinReachedTenants(start: nat, visits: seq<Visit>)
    requires TickOk(start, visits)
    ensures AllErrors(visits) <= |visits| - DeferredCount(visits)
  {
    if visits != [] {
      var last := |visits| - 1;
      ErrorsWithinReachedTenants(start, visits[..last]);
      assert VisitOk(start, visits[last]);
      OneErrorPerVisit(start, visits[last].sliceFrom, visits[last].looks);
    }
  }

  /**
   A candidate the tick reached but never looked at is not counted as deferred. Only the last reached
   candidate can be one, if the tick ran out between its two budget checks.
   */
  lemma ReachedUnseen(start: nat, visits: seq<Visit>, i: nat)
    requires TickOk(start, visits) && i < |visits| && visits[i].looks == [] && !visits[i].ending.Deferred?
    ensures visits[i].ending.TickSpent? || visits[i].ending.SliceSpent?
    ensures visits[i].ending.TickSpent? ==> i == |visits| - DeferredCount(visits) - 1
  {
    DeferredAreASuffix(start, visits);
    assert VisitOk(start, visits[i]);
    if visits[i].ending.TickSpent? {
      assert OutOfTick(visits[i]);
      if i + 1 < |visits| { assert visits[i + 1].ending.Deferred?; }
    }
  }

  /** Every candidate was driven until its own guards stopped it. */
  predicate AllStoppedByGuards(visits: seq<Visit>) {
    forall i | 0 <= i < |visits| :: visits[i].looks != [] && !Moving(Last(visits[i].looks))
  }

  /**
   A tick reports `drained` when no budget check failed. That means what it says exactly when no candidate
   used up its slice, since a spent slice leaves a job that was still moving and does not change the report.
   */
  lemma DrainedIsHonestExactly(start: nat, visits: seq<Visit>)
    requires TickOk(start, visits) && !RanOut(visits)
    ensures AllStoppedByGuards(visits) <==> forall i | 0 <= i < |visits| :: !visits[i].ending.SliceSpent?
  {
    forall i | 0 <= i < |visits|
      ensures !visits[i].ending.SliceSpent? <==> visits[i].looks != [] && !Moving(Last(visits[i].looks))
    {
      assert VisitOk(start, visits[i]) && !OutOfTick(visits[i]);
    }
  }

  // ---- two ticks ----

  /** One candidate's history as the plane saw it, event by event. */
  lemma OneCandidate(start: nat, visit: Visit)
    ensures TickTrace(start, [visit]) == [Read(start)] + VisitTrace(visit)
  {
    hide VisitTrace;
    assert [visit][..0] == [];
  }

  lemma OneReadLater(from: nat, e: Event, f: Event)
    ensures Reads([]) == 0 && ClockAfter([], from) == from
    ensures Reads([e]) == (if e.Read? then 1 else 0) && Reads([e, f]) == Reads([e]) + if f.Read? then 1 else 0
    ensures ClockAfter([e], from) == (match e case Read(t) => t case Passed(_, a) => from + Takes(a))
    ensures ClockAfter([e, f], from) == match f case Read(t) => t case Passed(_, a) => ClockAfter([e], from) + Takes(a)
  {
    assert [e][..0] == [] && [e, f][..1] == [e];
  }

  lemma ThirdRead(from: nat, a: nat, b: nat, c: nat)
    ensures Reads([Read(a), Read(b), Read(c)]) == 3 && ClockAfter([Read(a), Read(b), Read(c)], from) == c
  {
    assert [Read(a), Read(b), Read(c)][..2] == [Read(a), Read(b)];
    OneReadLater(from, Read(a), Read(b));
  }

  /** The first readings of any honest history. */
  lemma FirstReadings(trace: seq<Event>, delay: nat -> nat, attempts: nat -> Attempt)
    requires Honest(trace, 0, delay, attempts) && forall i | 0 <= i < |trace| && i < 3 :: trace[i].Read?
    ensures |trace| > 0 ==> trace[0].t == delay(0)
    ensures |trace| > 1 ==> trace[1].t == trace[0].t + delay(1)
    ensures |trace| > 2 ==> trace[2].t == trace[1].t + delay(2)
    ensures |trace| > 3 && trace[3].Read? ==> trace[3].t == trace[2].t + delay(3)
  {
    hide Honest;
    if |trace| > 0 {
      EventIs(trace, 0, delay, attempts, 0);
      assert trace[..0] == [];
    }
    if |trace| > 1 {
      EventIs(trace, 0, delay, attempts, 1);
      assert trace[..1] == [trace[0]];
      OneReadLater(0, trace[0], trace[1]);
    }
    if |trace| > 2 {
      EventIs(trace, 0, delay, attempts, 2);
      assert trace[..2] == [trace[0], trace[1]];
    }
    if |trace| > 3 {
      EventIs(trace, 0, delay, attempts, 3);
      assert trace[..3] == [Read(trace[0].t), Read(trace[1].t), Read(trace[2].t)];
      ThirdRead(0, trace[0].t, trace[1].t, trace[2].t);
    }
  }

  /** The first readings of a tick over one candidate, from a clock at zero. */
  lemma FirstReads(start: nat, visit: Visit, delay: nat -> nat, attempts: nat -> Attempt)
    requires Honest(TickTrace(start, [visit]), 0, delay, attempts)
    ensures start == delay(0)
    ensures visit.ending.Deferred? ==> visit.ending.at == start + delay(1)
    ensures !visit.ending.Deferred? ==> visit.reached == start + delay(1) && visit.sliceFrom == visit.reached + delay(2)
    ensures !visit.ending.Deferred? && visit.looks != [] ==> visit.looks[0].tickRead == visit.sliceFrom + delay(3)
    ensures !visit.ending.Deferred? && visit.looks == [] ==>
              match visit.ending
              case TickSpent(at) => at == visit.sliceFrom + delay(3)
              case SliceSpent(tickRead, _) => tickRead == visit.sliceFrom + delay(3)
              case _ => true
  {
    var trace := TickTrace(start, [visit]);
    OneCandidate(start, visit);
    if !visit.ending.Deferred? {
      BeforePass(start, visit, 0);
      HistoryOfOne(start, visit);
    }
    hide Honest, TickTrace, LooksTrace, Passes;
    if !visit.ending.Deferred? && visit.looks == [] && EndingTrace(visit.ending) != [] {
      assert trace[3] == trace[3..][0];
    }
    FirstReadings(trace, delay, attempts);
  }

  /**
   A tick whose budget runs out between the two checks of its only candidate: the candidate was reached, never
   looked at, and not counted as deferred.
   */
  method UnseenNotDeferred() returns (summary: Result<Summary>, exhausted: bool, ghost visits: seq<Visit>)
    ensures summary == Ok(Summary(1, 0, 0, 0)) && exhausted
    ensures |visits| == 1 && visits[0].looks == [] && visits[0].ending.TickSpent?
  {
    hide *;
    var plane := new Plane(0, (k: nat) => if k == 3 then PROVISION_DRIVE_TICK_BUDGET_MS else 0, (k: nat) => NoJob);
    ghost var start;
    summary, exhausted, start, visits := RunPendingProvisionDrive(plane, true, ["t"], []);
    assert [] + TickTrace(start, visits) == TickTrace(start, visits) == plane.trace;
    PlaneIsHonest(plane);
    OnlyCandidateUnseen(start, visits, plane.delay, plane.attempts);
    SummaryOfUnseen(visits);
  }

  lemma PlaneIsHonest(plane: Plane)
    requires plane.Valid()
    ensures Honest(plane.trace, plane.initial, plane.delay, plane.attempts)
  {
  }

  lemma {:induction false} OnlyCandidateUnseen(start: nat, visits: seq<Visit>, delay: nat -> nat, attempts: nat -> Attempt)
    requires |visits| == 1 && TickOk(start, visits) && Honest(TickTrace(start, visits), 0, delay, attempts)
    requires delay(0) == delay(1) == delay(2) == 0 && delay(3) == PROVISION_DRIVE_TICK_BUDGET_MS
    ensures visits[0].looks == [] && visits[0].ending.TickSpent?
  {
    var visit := visits[0];
    assert visits == [visit] && VisitOk(start, visit);
    assert visit.looks != [] ==> InBudget(start, visit.sliceFrom, visit.looks[0]);
    hide Honest, TickTrace, TickOk;
    FirstReads(start, visit, delay, attempts);
  }

  lemma {:induction false} SummaryOfUnseen(visits: seq<Visit>)
    requires |visits| == 1 && visits[0].looks == [] && visits[0].ending.TickSpent?
    ensures DeferredCount(visits) == 0 && AllDrives(visits) == 0 && AllErrors(visits) == 0 && RanOut(visits)
  {
    OneVisit(visits);
    hide AllDrives, AllErrors, DeferredCount;
    assert OutOfTick(visits[0]);
  }

  // With a clock that only drives advance, and drives that take `step` each, a reading counts the passes.

  lemma {:induction false} ReadingsCountPasses(trace: seq<Event>, delay: nat -> nat, attempts: nat -> Attempt, step: Millis)
    requires Honest(trace, 0, delay, attempts) && (forall k :: delay(k) == 0) && forall k :: attempts(k) == Dispatched(true, step)
    ensures ClockAfter(trace, 0) == step * Passes(trace)
    decreases |trace|
  {
    if trace != [] { ReadingsCountPasses(trace[..|trace| - 1], delay, attempts, step); }
  }

  lemma ReadingIs(trace: seq<Event>, delay: nat -> nat, attempts: nat -> Attempt, step: Millis, i: nat)
    requires Honest(trace, 0, delay, attempts) && (forall k :: delay(k) == 0) && forall k :: attempts(k) == Dispatched(true, step)
    requires i < |trace|
    ensures trace[i].Read? ==> trace[i].t == step * Passes(trace[..i])
    ensures trace[i].Passed? ==> trace[i].attempt == Dispatched(true, step)
  {
    EventIs(trace, 0, delay, attempts, i);
    HonestPrefix(trace, 0, delay, attempts, i);
    ReadingsCountPasses(trace[..i], delay, attempts, step);
    hide Honest, ClockAfter, Passes, Reads;
  }

  lemma {:induction false} PassesAdd(a: seq<Event>, b: seq<Event>)
    ensures Passes(a + b) == Passes(a) + Passes(b)
    decreases |b|
  {
    if b == [] {
      assert a + b == a;
    } else {
      assert (a + b)[..|a + b| - 1] == a + b[..|b| - 1];
      PassesAdd(a, b[..|b| - 1]);
    }
  }

  lemma {:induction false} ReadsAreNoPasses(trace: seq<Event>)
    requires forall k | 0 <= k < |trace| :: trace[k].Read?
    ensures Passes(trace) == 0
    decreases |trace|
  {
    if trace != [] { ReadsAreNoPasses(trace[..|trace| - 1]); }
  }

  lemma {:induction false} LooksPasses(looks: seq<Look>)
    ensures Passes(LooksTrace(looks)) == |looks| && |LooksTrace(looks)| == 3 * |looks|
    decreases |looks|
  {
    if looks != [] {
      var front, look := looks[..|looks| - 1], Last(looks);
      LooksPasses(front);
      PassesAdd(LooksTrace(front), [Read(look.tickRead), Read(look.sliceRead), Passed(look.tenant, look.attempt)]);
      PassesAdd([Read(look.tickRead), Read(look.sliceRead)], [Passed(look.tenant, look.attempt)]);
      assert [Read(look.tickRead), Read(look.sliceRead)] + [Passed(look.tenant, look.attempt)] == [Read(look.tickRead), Read(look.sliceRead), Passed(look.tenant, look.attempt)];
      ReadsAreNoPasses([Read(look.tickRead), Read(look.sliceRead)]);
      assert [Passed(look.tenant, look.attempt)][..0] == [];
    }
  }

  lemma {:induction false} LooksTracePrefix(looks: seq<Look>, k: nat)
    requires k <= |looks|
    ensures 3 * k <= |LooksTrace(looks)| && LooksTrace(looks)[..3 * k] == LooksTrace(looks[..k])
    decreases |looks|
  {
    LooksPasses(looks);
    if k < |looks| {
      LooksTracePrefix(looks[..|looks| - 1], k);
      LooksPasses(looks[..|looks| - 1]);
      assert looks[..|looks| - 1][..k] == looks[..k];
    } else {
      assert looks[..k] == looks;
    }
  }

  /** A history cut into the opening readings, the passes and the ending. */
  lemma HeadLooksEnding(head: seq<Event>, looks: seq<Event>, ending: seq<Event>, trace: seq<Event>, n: nat)
    requires trace == head + looks + ending && n <= |looks|
    ensures trace[..|head| + n] == head + looks[..n] && trace[|head| + |looks|..] == ending
    ensures forall j | 0 <= j < |looks| :: trace[|head| + j] == looks[j]
  {
  }

  lemma HistoryOfOne(start: nat, visit: Visit)
    requires !visit.ending.Deferred?
    ensures TickTrace(start, [visit])
         == [Read(start), Read(visit.reached), Read(visit.sliceFrom)] + LooksTrace(visit.looks) + EndingTrace(visit.ending)
  {
    OneCandidate(start, visit);
    hide LooksTrace, TickTrace, EndingTrace;
    var looks, ending := LooksTrace(visit.looks), EndingTrace(visit.ending);
    assert [Read(start)] + ([Read(visit.reached), Read(visit.sliceFrom)] + looks + ending)
        == [Read(start), Read(visit.reached), Read(visit.sliceFrom)] + looks + ending;
  }

  /** In the history of one candidate, the events before the k-th pass, and what it holds there. */
  lemma BeforePass(start: nat, visit: Visit, k: nat)
    requires !visit.ending.Deferred? && k <= |visit.looks|
    ensures var trace := TickTrace(start, [visit]);
            && |trace| == 3 + 3 * |visit.looks| + |EndingTrace(visit.ending)|
            && Passes(trace[..3 + 3 * k]) == k && trace[3 + 3 * |visit.looks|..] == EndingTrace(visit.ending)
            && (k < |visit.looks| ==>
                  && trace[3 + 3 * k] == Read(visit.looks[k].tickRead) && trace[4 + 3 * k] == Read(visit.looks[k].sliceRead)
                  && trace[5 + 3 * k] == Passed(visit.looks[k].tenant, visit.looks[k].attempt))
  {
    hide *;
    HistoryOfOne(start, visit);
    LooksPasses(visit.looks);
    LooksTracePrefix(visit.looks, k);
    LooksPasses(visit.looks[..k]);
    if k < |visit.looks| { LooksTraceAt(visit.looks, k); }
    var head := [Read(start), Read(visit.reached), Read(visit.sliceFrom)];
    PassesAdd(head, LooksTrace(visit.looks[..k]));
    ReadsAreNoPasses(head);
    PassInHistory(head, LooksTrace(visit.looks), EndingTrace(visit.ending), TickTrace(start, [visit]), k);
  }

  lemma PassInHistory(head: seq<Event>, looks: seq<Event>, ending: seq<Event>, trace: seq<Event>, k: nat)
    requires trace == head + looks + ending && |head| == 3 && 3 * k <= |looks|
    ensures trace[..3 + 3 * k] == head + looks[..3 * k] && trace[3 + |looks|..] == ending
    ensures 3 * k + 2 < |looks| ==>
              trace[3 + 3 * k] == looks[3 * k] && trace[4 + 3 * k] == looks[3 * k + 1] && trace[5 + 3 * k] == looks[3 * k + 2]
  {
  }

  lemma OneMoreRead(trace: seq<Event>, i: nat)
    requires i < |trace| && trace[i].Read?
    ensures Passes(trace[..i + 1]) == Passes(trace[..i])
  {
    assert trace[..i + 1][..i] == trace[..i];
  }

  /** With drives that take exactly one slice, the only candidate is driven once and left moving. */
  lemma {:induction false} OnlyCandidateLeftMoving(start: nat, visits: seq<Visit>, delay: nat -> nat, attempts: nat -> Attempt)
    requires |visits| == 1 && TickOk(start, visits) && Honest(TickTrace(start, visits), 0, delay, attempts)
    requires forall k :: delay(k) == 0
    requires forall k :: attempts(k) == Dispatched(true, PROVISION_DRIVE_TENANT_SLICE_MS)
    ensures |visits[0].looks| == 1 && Moving(Last(visits[0].looks)) && visits[0].ending.SliceSpent?
  {
    var visit, trace := visits[0], TickTrace(start, visits);
    assert visits == [visit] && VisitOk(start, visit);
    LookWasMoving(start, visit, trace, delay, attempts);
    AtMostOneLook(start, visit, trace, delay, attempts);
    EndingWas(start, visit, trace, delay, attempts);
  }

  lemma LookWasMoving(start: nat, visit: Visit, trace: seq<Event>, delay: nat -> nat, attempts: nat -> Attempt)
    requires trace == TickTrace(start, [visit]) && VisitOk(start, visit) && Honest(trace, 0, delay, attempts)
    requires forall k :: delay(k) == 0
    requires forall k :: attempts(k) == Dispatched(true, PROVISION_DRIVE_TENANT_SLICE_MS)
    ensures visit.looks != [] ==> Moving(Last(visit.looks))
    ensures !visit.ending.Deferred? && start == visit.sliceFrom == 0
  {
    FirstReads(start, visit, delay, attempts);
    if visit.looks != [] {
      var k := |visit.looks| - 1;
      BeforePass(start, visit, k);
      ReadingIs(trace, delay, attempts, PROVISION_DRIVE_TENANT_SLICE_MS, 5 + 3 * k);
    }
  }

  lemma AtMostOneLook(start: nat, visit: Visit, trace: seq<Event>, delay: nat -> nat, attempts: nat -> Attempt)
    requires trace == TickTrace(start, [visit]) && VisitOk(start, visit) && Honest(trace, 0, delay, attempts)
    requires forall k :: delay(k) == 0
    requires forall k :: attempts(k) == Dispatched(true, PROVISION_DRIVE_TENANT_SLICE_MS)
    requires !visit.ending.Deferred? && visit.sliceFrom == 0
    ensures |visit.looks| <= 1
  {
    assert |visit.looks| > 1 ==> InBudget(start, visit.sliceFrom, visit.looks[1]);
    hide Honest, TickTrace, VisitOk;
    if |visit.looks| > 1 {
      BeforePass(start, visit, 1);
      OneMoreRead(trace, 6);
      ReadingIs(trace, delay, attempts, PROVISION_DRIVE_TENANT_SLICE_MS, 7);
    }
  }

  lemma EndingWas(start: nat, visit: Visit, trace: seq<Event>, delay: nat -> nat, attempts: nat -> Attempt)
    requires trace == TickTrace(start, [visit]) && VisitOk(start, visit) && Honest(trace, 0, delay, attempts)
    requires forall k :: delay(k) == 0
    requires forall k :: attempts(k) == Dispatched(true, PROVISION_DRIVE_TENANT_SLICE_MS)
    requires !visit.ending.Deferred? && start == visit.sliceFrom == 0 && |visit.looks| <= 1
    requires visit.looks != [] ==> Moving(Last(visit.looks))
    ensures |visit.looks| == 1 && visit.ending.SliceSpent?
  {
    var n := 3 + 3 * |visit.looks|;
    BeforePass(start, visit, |visit.looks|);
    hide Honest, TickTrace, LooksOk;
    var ending := trace[n..];
    match visit.ending
    case TickSpent(at) =>
      assert trace[n] == ending[0];
      ReadingIs(trace, delay, attempts, PROVISION_DRIVE_TENANT_SLICE_MS, n);
    case SliceSpent(tickRead, at) =>
      assert trace[n] == ending[0] && trace[n + 1] == ending[1];
      OneMoreRead(trace, n);
      ReadingIs(trace, delay, attempts, PROVISION_DRIVE_TENANT_SLICE_MS, n + 1);
    case _ =>
  }

  /**
   A tick that reports `drained` while its only candidate was still moving: one drive took the whole slice,
   succeeded, and no budget check failed.
   */
  method DrainedWhileMoving() returns (summary: Result<Summary>, exhausted: bool, ghost visits: seq<Visit>)
    ensures summary == Ok(Summary(1, 0, 1, 0)) && !exhausted && |visits| == 1 && !AllStoppedByGuards(visits)
  {
    var plane := new Plane(0, (k: nat) => 0, (k: nat) => Dispatched(true, PROVISION_DRIVE_TENANT_SLICE_MS));
    hide *;
    ghost var start;
    summary, exhausted, start, visits := RunPendingProvisionDrive(plane, true, ["t"], []);
    assert [] + TickTrace(start, visits) == TickTrace(start, visits) == plane.trace;
    PlaneIsHonest(plane);
    OnlyCandidateLeftMoving(start, visits, plane.delay, plane.attempts);
    SummaryOfOneDrive(visits);
  }

  lemma {:induction false} OneLook(looks: seq<Look>)
    requires |looks| == 1 && Moving(looks[0])
    ensures Drives(looks) == 1 && Errors(looks) == 0
  {
    assert looks[..0] == [];
  }

  lemma {:induction false} OneVisit(visits: seq<Visit>)
    requires |visits| == 1
    ensures AllDrives(visits) == Drives(visits[0].looks) && AllErrors(visits) == Errors(visits[0].looks)
    ensures DeferredCount(visits) == if visits[0].ending.Deferred? then 1 else 0
  {
    hide Drives, Errors;
    assert visits[..0] == [];
  }

  lemma {:induction false} SummaryOfOneDrive(visits: seq<Visit>)
    requires |visits| == 1 && |visits[0].looks| == 1 && Moving(Last(visits[0].looks)) && visits[0].ending.SliceSpent?
    ensures DeferredCount(visits) == 0 && AllDrives(visits) == 1 && AllErrors(visits) == 0 && !RanOut(visits)
    ensures !AllStoppedByGuards(visits)
  {
    OneVisit(visits);
    OneLook(visits[0].looks);
    hide AllDrives, AllErrors, Drives, Errors, DeferredCount;
  }

  /** Two passes over one tenant lie apart by at least the first one's drive, inside one slice. */
  lemma {:induction false} SliceBoundsATenant(start: nat, sliceFrom: nat, looks: seq<Look>)
    requires LooksOk(start, sliceFrom, looks)
    ensures looks != [] ==> sliceFrom + |looks| - 1 <= looks[|looks| - 1].tickRead
    ensures Drives(looks) <= |looks| <= PROVISION_DRIVE_TENANT_SLICE_MS
  {
    if looks != [] {
      var last := |looks| - 1;
      SliceBoundsATenant(start, sliceFrom, looks[..last]);
      assert InBudget(start, sliceFrom, looks[last]);
      if last > 0 { assert Moving(looks[last - 1]); }
    }
  }
}
