/** Ingestion and settlement together: what a closed month is charged, over every run of both. */
module Billing {
  import opened Basics
  import opened GatewayLog
  import opened SpendStore
  import opened SpendWindow
  import opened IngestMachine
  import opened IngestSafety
  import opened Settlement
  import Calendar

  datatype System = System(ingest: State, ledger: seq<LedgerRow>)

  /** Either part moves: a step of the ingest machine, or a settlement of the month holding `at`. */
  datatype Move =
    | Meter(step: Step)
    | Settle(at: int, live: seq<string>, readFails: string -> bool, appendThrows: string -> bool,
             newId: string -> string, allowance: Option<Figure>)

  /** The D1 read as the settlement sees it; a read may fail. */
  function ReadsOf(store: Store, period: Calendar.BillingPeriod, readFails: string -> bool, appendThrows: string -> bool,
                   newId: string -> string): Surroundings {
    Surroundings(
      tenant => if readFails(tenant) then Threw
                else Ok(ReadTenantLlmSpend(store, tenant, period.windowStart, period.windowEnd, MAX_PERIODS_PER_WINDOW)),
      appendThrows, newId)
  }

  /** The route refuses a period that is still running. */
  predicate CanMove(y: System, m: Move) {
    match m
    case Meter(step) => Enabled(y.ingest, step)
    case Settle(at, _, _, _, _, _) =>
      100 <= Calendar.YearOf(at) <= 9999
      && Calendar.BillingPeriodIsClosed(Calendar.BillingPeriodContaining(at), y.ingest.now)
  }

  function After(y: System, m: Move): System
    requires CanMove(y, m)
  {
    match m
    case Meter(step) => y.(ingest := Apply(y.ingest, step))
    case Settle(at, live, readFails, appendThrows, newId, allowance) =>
      var period := Calendar.BillingPeriodContaining(at);
      y.(ledger := SettlePass(y.ledger, live, ReadsOf(y.ingest.store, period, readFails, appendThrows, newId),
                              allowance, period.key).rows)
  }

  predicate CanMoveAll(y: System, moves: seq<Move>)
    decreases |moves|
  {
    moves == [] || (CanMove(y, moves[0]) && CanMoveAll(After(y, moves[0]), moves[1..]))
  }

  function AfterAll(y: System, moves: seq<Move>): System
    requires CanMoveAll(y, moves)
    decreases |moves|
  {
    if moves == [] then y else AfterAll(After(y, moves[0]), moves[1..])
  }

  /** A settlement is let through exactly when its month is one with a key and has ended; and it leaves ingestion alone. */
  lemma SettlesOnlyClosedMonths(y: System, m: Move)
    requires m.Settle?
    ensures CanMove(y, m) <==>
              100 <= Calendar.YearOf(m.at) <= 9999 && Calendar.FirstOf(Calendar.MonthIndex(m.at) + 1) <= y.ingest.now
    ensures CanMove(y, m) ==> After(y, m).ingest == y.ingest
  {
    hide Calendar.YearOf, Calendar.FirstOf, Calendar.MonthIndex, Calendar.BillingPeriodContaining, SettlePass;
    if 100 <= Calendar.YearOf(m.at) <= 9999 { Calendar.ContainingIsMonth(m.at); }
  }

  lemma {:induction false} MovesConcat(y: System, a: seq<Move>, b: seq<Move>)
    requires CanMoveAll(y, a) && CanMoveAll(AfterAll(y, a), b)
    ensures CanMoveAll(y, a + b) && AfterAll(y, a + b) == AfterAll(AfterAll(y, a), b)
    decreases |a|
  {
    hide CanMove, After;
    if a == [] {
      assert a + b == b;
    } else {
      MovesConcat(After(y, a[0]), a[1..], b);
      assert (a + b)[1..] == a[1..] + b;
    }
  }

  // ---- one month of one tenant ----

  function MonthRef(at: int): string {
    OverageIdemRef(Llm, Calendar.BillingPeriodContaining(at).key)
  }

  function MonthRead(store: Store, at: int, tenant: string): LlmSpendWindow {
    var p := Calendar.BillingPeriodContaining(at);
    ReadTenantLlmSpend(store, tenant, p.windowStart, p.windowEnd, MAX_PERIODS_PER_WINDOW)
  }

  ghost predicate MonthFrozen(s: State, at: int) {
    var p := Calendar.BillingPeriodContaining(at);
    Frozen(s, p.windowStart, p.windowEnd)
  }

  /** What the month owes under an allowance: nothing while it is incomplete or no usable allowance is set. */
  function Overage(w: LlmSpendWindow, allowance: Option<Figure>): (owed: int)
    ensures owed >= 0
  {
    if w.complete && allowance.Some? && allowance.value.Whole? && allowance.value.n >= 0
    then Max(0, w.cost - allowance.value.n) else 0
  }

  /** A settlement of this month that reaches the tenant. */
  predicate Reaches(m: Move, at: int, tenant: string) {
    m.Settle? && Calendar.MonthIndex(m.at) == Calendar.MonthIndex(at)
    && tenant in m.live && !m.readFails(tenant) && !m.appendThrows(tenant)
  }

  /** What the first settlement that reaches the tenant and finds something owed is owed; 0 when none does. */
  function FirstOwed(moves: seq<Move>, at: int, tenant: string, w: LlmSpendWindow): (owed: int)
    ensures owed >= 0
  {
    if moves == [] then 0
    else if Reaches(moves[0], at, tenant) && Overage(w, moves[0].allowance) > 0 then Overage(w, moves[0].allowance)
    else FirstOwed(moves[1..], at, tenant, w)
  }

  lemma SameMonthSamePeriod(at: int, other: int)
    requires 100 <= Calendar.YearOf(at) <= 9999 && 100 <= Calendar.YearOf(other) <= 9999
    ensures Calendar.MonthIndex(at) == Calendar.MonthIndex(other)
            ==> Calendar.BillingPeriodContaining(at) == Calendar.BillingPeriodContaining(other)
    ensures Calendar.MonthIndex(at) != Calendar.MonthIndex(other) ==> MonthRef(at) != MonthRef(other)
  {
    hide Calendar.YearOf, Calendar.MonthOf, Calendar.FirstOf, Calendar.PeriodKey;
    var p, q := Calendar.BillingPeriodContaining(at), Calendar.BillingPeriodContaining(other);
    Calendar.KeysDistinct(at, other);
    Calendar.ContainingIsMonth(at);
    Calendar.ContainingIsMonth(other);
    RefsDistinct(Llm, p.key, Llm, q.key);
  }

  lemma DecisionIsOverage(w: LlmSpendWindow, allowance: Option<Figure>, periodKey: string)
    requires w.cost >= 0
    ensures var d := DecideOverageDebit(Llm, w.complete, Whole(w.cost), allowance, periodKey);
            (d.Debit? <==> Overage(w, allowance) > 0) && (d.Debit? ==> d.amount == Overage(w, allowance))
  {
  }

  lemma ReadIsNonNegative(store: Store, tenant: string, a: int, b: int, max: nat)
    ensures ReadTenantLlmSpend(store, tenant, a, b, max).cost >= 0
  {
  }

  /** One move's part of the final figure: what it charges the tenant for the month. */
  ghost predicate Charges(y: System, m: Move, t: System, at: int, tenant: string, w: LlmSpendWindow) {
    var ref := MonthRef(at);
    if !HasRef(y.ledger, tenant, ref) && Reaches(m, at, tenant) && Overage(w, m.allowance) > 0
    then HasRef(t.ledger, tenant, ref) && Charged(t.ledger, tenant, ref) == -Overage(w, m.allowance)
    else Charged(t.ledger, tenant, ref) == Charged(y.ledger, tenant, ref) && (HasRef(t.ledger, tenant, ref) <==> HasRef(y.ledger, tenant, ref))
  }

  lemma SettleThisMonth(y: System, m: Move, at: int, tenant: string)
    requires m.Settle? && CanMove(y, m) && 100 <= Calendar.YearOf(at) <= 9999
    requires Calendar.MonthIndex(m.at) == Calendar.MonthIndex(at)
    ensures Charges(y, m, After(y, m), at, tenant, MonthRead(y.ingest.store, at, tenant))
  {
    hide Calendar.YearOf, Calendar.MonthIndex, Calendar.BillingPeriodContaining, Calendar.BillingPeriodIsClosed,
      ReadTenantLlmSpend, HasRef, Charged, SettlePass, DecideOverageDebit, Overage, OverageIdemRef;
    SameMonthSamePeriod(at, m.at);
    var period := Calendar.BillingPeriodContaining(at);
    var env := ReadsOf(y.ingest.store, period, m.readFails, m.appendThrows, m.newId);
    ReadIsNonNegative(y.ingest.store, tenant, period.windowStart, period.windowEnd, MAX_PERIODS_PER_WINDOW);
    DecisionIsOverage(MonthRead(y.ingest.store, at, tenant), m.allowance, period.key);
    PassCharges(y.ledger, m.live, env, m.allowance, period.key, tenant);
  }

  lemma SettleOtherMonth(y: System, m: Move, at: int, tenant: string)
    requires m.Settle? && CanMove(y, m) && 100 <= Calendar.YearOf(at) <= 9999
    requires Calendar.MonthIndex(m.at) != Calendar.MonthIndex(at)
    ensures var t := After(y, m);
            Charged(t.ledger, tenant, MonthRef(at)) == Charged(y.ledger, tenant, MonthRef(at))
            && (HasRef(t.ledger, tenant, MonthRef(at)) <==> HasRef(y.ledger, tenant, MonthRef(at)))
  {
    hide Calendar.YearOf, Calendar.MonthIndex, Calendar.BillingPeriodContaining, Calendar.BillingPeriodIsClosed,
      ReadTenantLlmSpend, HasRef, Charged, SettlePass, OverageIdemRef;
    SameMonthSamePeriod(at, m.at);
    var period := Calendar.BillingPeriodContaining(m.at);
    OtherPeriodLeavesCharge(y.ledger, m.live, ReadsOf(y.ingest.store, period, m.readFails, m.appendThrows, m.newId),
                            m.allowance, period.key, tenant, MonthRef(at));
  }

  lemma MeterKeepsRead(y: System, step: Step, at: int, tenant: string)
    requires Inv(y.ingest) && Enabled(y.ingest, step) && MonthFrozen(y.ingest, at)
    ensures var t := Apply(y.ingest, step);
            Inv(t) && MonthFrozen(t, at) && MonthRead(t.store, at, tenant) == MonthRead(y.ingest.store, at, tenant)
  {
    hide Calendar.BillingPeriodContaining, ReadTenantLlmSpend, Apply, Enabled, Frozen, SameWindow, Inv;
    var p, t := Calendar.BillingPeriodContaining(at), Apply(y.ingest, step);
    StepKeepsInv(y.ingest, step);
    StepKeepsFrozen(y.ingest, step, p.windowStart, p.windowEnd);
    InvHasDistinctIds(y.ingest);
    InvHasDistinctIds(t);
    SameWindowSameRead(y.ingest.store, t.store, tenant, p.windowStart, p.windowEnd, MAX_PERIODS_PER_WINDOW);
  }

  lemma InvHasDistinctIds(s: State)
    requires Inv(s)
    ensures DistinctIds(s.store.periods)
  {
  }

  /**
   The settled figure is final. Once a month is frozen, whatever ingestion and settlements follow and whatever
   allowances they use, the month reads the same and the ledger holds for the tenant: what it already held,
   when it held a row; otherwise exactly what the first settlement that found something owed was owed.
   */
  lemma {:induction false} SettledFigureFinal(y: System, moves: seq<Move>, at: int, tenant: string)
    requires Inv(y.ingest) && CanMoveAll(y, moves) && 100 <= Calendar.YearOf(at) <= 9999
    requires MonthFrozen(y.ingest, at)
    ensures var w, t, ref := MonthRead(y.ingest.store, at, tenant), AfterAll(y, moves), MonthRef(at);
            && MonthRead(t.ingest.store, at, tenant) == w
            && (HasRef(t.ledger, tenant, ref) <==> HasRef(y.ledger, tenant, ref) || FirstOwed(moves, at, tenant, w) > 0)
            && Charged(t.ledger, tenant, ref)
               == if HasRef(y.ledger, tenant, ref) then Charged(y.ledger, tenant, ref) else -FirstOwed(moves, at, tenant, w)
    decreases |moves|
  {
    hide Inv, CanMove, After, MonthFrozen, MonthRead, MonthRef, Overage, Charged, HasRef, Reaches;
    if moves != [] {
      MoveCharges(y, moves[0], at, tenant);
      SettledFigureFinal(After(y, moves[0]), moves[1..], at, tenant);
    } else if !HasRef(y.ledger, tenant, MonthRef(at)) {
      NothingCharged(y.ledger, tenant, MonthRef(at));
    }
  }

  lemma MoveCharges(y: System, m: Move, at: int, tenant: string)
    requires Inv(y.ingest) && CanMove(y, m) && 100 <= Calendar.YearOf(at) <= 9999
    requires MonthFrozen(y.ingest, at)
    ensures var t, w := After(y, m), MonthRead(y.ingest.store, at, tenant);
            Inv(t.ingest) && MonthFrozen(t.ingest, at) && MonthRead(t.ingest.store, at, tenant) == w && Charges(y, m, t, at, tenant, w)
  {
    hide Calendar.YearOf, Calendar.MonthIndex, Calendar.BillingPeriodContaining, Calendar.BillingPeriodIsClosed,
      ReadTenantLlmSpend, HasRef, Charged, SettlePass, Overage, OverageIdemRef, Inv, Frozen, Apply, Enabled, MonthRead, MonthRef;
    match m
    case Meter(step) => MeterKeepsRead(y, step, at, tenant);
    case Settle(other, _, _, _, _, _) =>
      if Calendar.MonthIndex(other) == Calendar.MonthIndex(at) {
        SettleThisMonth(y, m, at, tenant);
      } else {
        SettleOtherMonth(y, m, at, tenant);
      }
  }

  // ---- one allowance for the month ----

  /** A settlement of this month that has an allowance uses `a`. */
  predicate Uses(m: Move, at: int, a: nat) {
    m.Settle? && Calendar.MonthIndex(m.at) == Calendar.MonthIndex(at) && m.allowance.Some? ==> m.allowance == Some(Whole(a))
  }

  /**
   When the settlements of a frozen month that have an allowance at all agree on it, the first of them to
   reach the tenant settles the figure: `max(0, used - allowance)` of a complete month, nothing of an
   incomplete one.
   */
  lemma OneAllowanceSettles(y: System, moves: seq<Move>, at: int, tenant: string, a: nat)
    requires Inv(y.ingest) && CanMoveAll(y, moves) && 100 <= Calendar.YearOf(at) <= 9999
    requires MonthFrozen(y.ingest, at) && !HasRef(y.ledger, tenant, MonthRef(at))
    requires forall m | m in moves :: Uses(m, at, a)
    ensures Charged(AfterAll(y, moves).ledger, tenant, MonthRef(at))
            == if exists m :: m in moves && Reaches(m, at, tenant) && m.allowance.Some?
               then -Overage(MonthRead(y.ingest.store, at, tenant), Some(Whole(a))) else 0
  {
    hide Inv, CanMove, After, MonthFrozen, MonthRead, MonthRef, Overage, Charged, HasRef, Reaches;
    SettledFigureFinal(y, moves, at, tenant);
    FirstOwedUnderOne(moves, at, tenant, MonthRead(y.ingest.store, at, tenant), a);
  }

  lemma {:induction false} FirstOwedUnderOne(moves: seq<Move>, at: int, tenant: string, w: LlmSpendWindow, a: nat)
    requires forall m | m in moves :: Uses(m, at, a)
    ensures FirstOwed(moves, at, tenant, w)
            == if exists m :: m in moves && Reaches(m, at, tenant) && m.allowance.Some? then Overage(w, Some(Whole(a))) else 0
  {
    hide Overage;
    if moves != [] {
      var m, rest := moves[0], moves[1..];
      assert m in moves && forall n | n in rest :: n in moves;
      FirstOwedUnderOne(rest, at, tenant, w, a);
      if Reaches(m, at, tenant) && m.allowance.Some? {
        assert m.allowance == Some(Whole(a));
      } else {
        NothingOwed(w);
        assert FirstOwed(moves, at, tenant, w) == FirstOwed(rest, at, tenant, w);
      }
    }
  }

  lemma NothingOwed(w: LlmSpendWindow)
    ensures Overage(w, None) == 0
  {
  }

  /** At most one row per tenant and reference, over any moves at all. */
  lemma {:induction false} OneDebitPerPeriod(y: System, moves: seq<Move>)
    requires UniqueRefs(y.ledger) && CanMoveAll(y, moves)
    ensures UniqueRefs(AfterAll(y, moves).ledger)
    decreases |moves|
  {
    if moves != [] {
      var m := moves[0];
      if m.Settle? {
        var period := Calendar.BillingPeriodContaining(m.at);
        PassKeepsUnique(y.ledger, m.live, ReadsOf(y.ingest.store, period, m.readFails, m.appendThrows, m.newId), m.allowance, period.key);
      }
      hide UniqueRefs, CanMove, Apply, Enabled, SettlePass;
      OneDebitPerPeriod(After(y, m), moves[1..]);
    }
  }
}
