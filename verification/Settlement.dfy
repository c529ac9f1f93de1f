/** From a metered window to a ledger row (`src/meter-debit.ts`, `src/meter-settle.ts`, `src/meter-settle-run.ts`). */
module Settlement {
  import opened Basics
  import opened SpendWindow

  datatype MeterClass = Llm | R2Storage

  /** A JavaScript number where an integer is expected. */
  datatype Figure = Whole(n: int) | NotWhole

  datatype Refusal = NotObserved | BadUsage | NoAllowance | BadAllowance | SettlementThrew

  datatype DebitDecision =
    | Debit(amount: int, cost: int, idemRef: string)
    | Within(used: int, allowance: int)
    | Unbillable(why: Refusal)

  function MeterName(m: MeterClass): string {
    match m
    case Llm => "llm"
    case R2Storage => "r2_storage"
  }

  function OverageIdemRef(meter: MeterClass, periodKey: string): string {
    "overage:" + MeterName(meter) + ":" + periodKey
  }

  /** One reference per meter and period: no two share one. */
  lemma RefsDistinct(m: MeterClass, k: string, n: MeterClass, l: string)
    ensures OverageIdemRef(m, k) == OverageIdemRef(n, l) <==> m == n && k == l
  {
    var a, b := OverageIdemRef(m, k), OverageIdemRef(n, l);
    if m == n {
      var head := "overage:" + MeterName(m) + ":";
      assert a[|head|..] == k && b[|head|..] == l;
    } else {
      assert a[8] != b[8];
    }
  }

  function DecideOverageDebit(meter: MeterClass, complete: bool, used: Figure, allowance: Option<Figure>, periodKey: string): (d: DebitDecision)
    ensures d.Debit? ==> d.amount > 0
  {
    if !complete then Unbillable(NotObserved)
    else if used.NotWhole? || used.n < 0 then Unbillable(BadUsage)
    else if allowance.None? then Unbillable(NoAllowance)
    else if allowance.value.NotWhole? || allowance.value.n < 0 then Unbillable(BadAllowance)
    else if used.n <= allowance.value.n then Within(used.n, allowance.value.n)
    else Debit(used.n - allowance.value.n, used.n, OverageIdemRef(meter, periodKey))
  }

  /**
   When a period is billed and when not, and why. It is billed exactly when its usage was observed, both figures are
   whole and not negative, and more was used than allowed: then what is debited and what is allowed add up to what was
   used, and the debit names that usage and the reference of its meter and period. It is within exactly when not more
   was used. Otherwise the reason is the first thing missing.
   */
  lemma DecisionExactly(meter: MeterClass, complete: bool, used: Figure, allowance: Option<Figure>, periodKey: string)
    ensures var d := DecideOverageDebit(meter, complete, used, allowance, periodKey);
            var usable := used.Whole? && used.n >= 0;
            var allowed := allowance.Some? && allowance.value.Whole? && allowance.value.n >= 0;
            && (d.Debit? <==> complete && usable && allowed && used.n > allowance.value.n)
            && (d.Debit? ==> d.amount + allowance.value.n == used.n == d.cost && d.amount > 0
                             && d.idemRef == "overage:" + (if meter == Llm then "llm" else "r2_storage") + ":" + periodKey)
            && (d.Within? <==> complete && usable && allowed && used.n <= allowance.value.n)
            && (d.Within? ==> d.used == used.n && d.allowance == allowance.value.n)
            && (d == Unbillable(NotObserved) <==> !complete)
            && (d == Unbillable(BadUsage) <==> complete && !usable)
            && (d == Unbillable(NoAllowance) <==> complete && usable && allowance.None?)
            && (d == Unbillable(BadAllowance) <==> complete && usable && allowance.Some? && !allowed)
            && d != Unbillable(SettlementThrew)
  {
  }

  // ---- the ledger ----

  datatype Kind = Purchase | DebitRow | Refund | Adjustment

  datatype LedgerRow = LedgerRow(id: string, tenant: string, kind: Kind, delta: int, cost: Option<int>, idemRef: string)

  predicate HasRef(rows: seq<LedgerRow>, tenant: string, idemRef: string) {
    exists k :: 0 <= k < |rows| && rows[k].tenant == tenant && rows[k].idemRef == idemRef
  }

  /** INSERT ... ON CONFLICT (tenant_id, idem_ref) DO NOTHING */
  function Appended(rows: seq<LedgerRow>, row: LedgerRow): (r: seq<LedgerRow>)
    ensures rows <= r
  {
    if HasRef(rows, row.tenant, row.idemRef) then rows else rows + [row]
  }

  ghost predicate UniqueRefs(rows: seq<LedgerRow>) {
    forall i, j | 0 <= i < j < |rows| :: rows[i].tenant != rows[j].tenant || rows[i].idemRef != rows[j].idemRef
  }

  function Balance(rows: seq<LedgerRow>): int {
    if rows == [] then 0 else Balance(rows[..|rows| - 1]) + rows[|rows| - 1].delta
  }

  /** What the ledger holds against one reference of one tenant. */
  function Charged(rows: seq<LedgerRow>, tenant: string, idemRef: string): int {
    if rows == [] then 0
    else
      var last := rows[|rows| - 1];
      Charged(rows[..|rows| - 1], tenant, idemRef) + if last.tenant == tenant && last.idemRef == idemRef then last.delta else 0
  }

  class CreditLedger {
    var rows: seq<LedgerRow>

    constructor ()
      ensures rows == []
    {
      rows := [];
    }

    method AppendLedgerRow(row: LedgerRow) returns (applied: bool, stored: LedgerRow)
      modifies this
      ensures rows == Appended(old(rows), row)
      ensures applied <==> !HasRef(old(rows), row.tenant, row.idemRef)
      ensures stored in rows && stored.tenant == row.tenant && stored.idemRef == row.idemRef
    {
      for k := 0 to |rows|
        invariant forall j | 0 <= j < k :: rows[j].tenant != row.tenant || rows[j].idemRef != row.idemRef
      {
        if rows[k].tenant == row.tenant && rows[k].idemRef == row.idemRef {
          return false, rows[k];
        }
      }
      rows := rows + [row];
      return true, row;
    }
  }

  // ---- one tenant ----

  datatype SettleOutcome =
    | Debited(amount: int, idemRef: string)
    | AlreadySettled(idemRef: string)
    | WithinAllowance(used: int, allowance: int)
    | NotBillable(why: Refusal)

  datatype Pass = Pass(rows: seq<LedgerRow>, outcomes: seq<SettleOutcome>)

  function DebitLedgerRow(id: string, tenant: string, d: DebitDecision): LedgerRow
    requires d.Debit?
  {
    LedgerRow(id, tenant, DebitRow, -d.amount, Some(d.cost), d.idemRef)
  }

  /** Settling one tenant leaves these rows and reports this outcome. A throwing append wrote nothing. */
  function Settled(rows: seq<LedgerRow>, id: string, tenant: string, d: DebitDecision, appendThrows: bool): (seq<LedgerRow>, SettleOutcome) {
    match d
    case Unbillable(why) => (rows, NotBillable(why))
    case Within(used, allowance) => (rows, WithinAllowance(used, allowance))
    case Debit(amount, _, ref) =>
      if appendThrows then (rows, NotBillable(SettlementThrew))
      else (Appended(rows, DebitLedgerRow(id, tenant, d)), if HasRef(rows, tenant, ref) then AlreadySettled(ref) else Debited(amount, ref))
  }

  method SettleMeterOverage(ledger: CreditLedger, id: string, tenant: string, meter: MeterClass, complete: bool,
                            used: Figure, allowance: Option<Figure>, periodKey: string, appendThrows: bool)
    returns (outcome: Result<SettleOutcome>)
    modifies ledger
    ensures var (rows, o) := Settled(old(ledger.rows), id, tenant,
                                     DecideOverageDebit(meter, complete, used, allowance, periodKey), appendThrows);
            ledger.rows == rows && (outcome == Ok(o) || (outcome == Threw && o == NotBillable(SettlementThrew)))
  {
    var decision := DecideOverageDebit(meter, complete, used, allowance, periodKey);
    if decision.Unbillable? {
      return Ok(NotBillable(decision.why));
    }
    if decision.Within? {
      return Ok(WithinAllowance(decision.used, decision.allowance));
    }
    if appendThrows {
      return Threw;
    }
    var applied, stored := ledger.AppendLedgerRow(DebitLedgerRow(id, tenant, decision));
    return Ok(if applied then Debited(decision.amount, decision.idemRef) else AlreadySettled(decision.idemRef));
  }

  // ---- every live tenant ----

  datatype Tenant = Tenant(id: string, deleted: bool)

  function Live(tenants: seq<Tenant>): seq<string> {
    if tenants == [] then []
    else
      Live(tenants[..|tenants| - 1]) + if tenants[|tenants| - 1].deleted then [] else [tenants[|tenants| - 1].id]
  }

  /** What a run meets: each tenant's window or a failed read, and the tenants whose append throws. */
  datatype Surroundings = Surroundings(read: string -> Result<LlmSpendWindow>, appendThrows: string -> bool, newId: string -> string)

  function DecisionFor(env: Surroundings, tenant: string, allowance: Option<Figure>, periodKey: string): DebitDecision {
    match env.read(tenant)
    case Threw => Unbillable(SettlementThrew)
    case Ok(w) => DecideOverageDebit(Llm, w.complete, Whole(w.cost), allowance, periodKey)
  }

  function SettlePass(rows: seq<LedgerRow>, live: seq<string>, env: Surroundings, allowance: Option<Figure>, periodKey: string): (p: Pass)
    ensures rows <= p.rows && |p.outcomes| == |live|
  {
    if live == [] then Pass(rows, [])
    else
      var before, tenant := SettlePass(rows, live[..|live| - 1], env, allowance, periodKey), live[|live| - 1];
      var (after, outcome) := Settled(before.rows, env.newId(tenant), tenant,
                                      DecisionFor(env, tenant, allowance, periodKey), env.appendThrows(tenant));
      Pass(after, before.outcomes + [outcome])
  }

  /** Every row a pass adds is the debit of a live tenant whose month was read complete and over its allowance. */
  predicate DebitOf(row: LedgerRow, live: seq<string>, env: Surroundings, allowance: Option<Figure>, periodKey: string) {
    && row.tenant in live && !env.appendThrows(row.tenant) && env.read(row.tenant).Ok? && env.read(row.tenant).value.complete
    && allowance.Some? && allowance.value.Whole?
    && var used := env.read(row.tenant).value.cost;
       && row.kind == DebitRow && used > allowance.value.n >= 0 && row.delta == allowance.value.n - used
       && row.cost == Some(used) && row.idemRef == "overage:" + "llm" + ":" + periodKey && row.id == env.newId(row.tenant)
  }

  lemma {:induction false} PassAddsDebits(rows: seq<LedgerRow>, live: seq<string>, env: Surroundings, allowance: Option<Figure>, periodKey: string)
    ensures var p := SettlePass(rows, live, env, allowance, periodKey);
            && rows <= p.rows
            && forall k | |rows| <= k < |p.rows| :: DebitOf(p.rows[k], live, env, allowance, periodKey)
  {
    if live != [] {
      var front, last := live[..|live| - 1], live[|live| - 1];
      PassAddsDebits(rows, front, env, allowance, periodKey);
      var before := SettlePass(rows, front, env, allowance, periodKey);
      var d := DecisionFor(env, last, allowance, periodKey);
      if d.Debit? && !env.appendThrows(last) {
        DebitIs(env, last, live, allowance, periodKey);
      }
      forall k | |rows| <= k < |before.rows|
        ensures DebitOf(before.rows[k], live, env, allowance, periodKey)
      {
        assert DebitOf(before.rows[k], front, env, allowance, periodKey);
        assert forall t | t in front :: t in live;
      }
      hide DecideOverageDebit, HasRef, DebitOf, DecisionFor;
    }
  }

  lemma DebitIs(env: Surroundings, tenant: string, live: seq<string>, allowance: Option<Figure>, periodKey: string)
    requires tenant in live && !env.appendThrows(tenant) && DecisionFor(env, tenant, allowance, periodKey).Debit?
    ensures DebitOf(DebitLedgerRow(env.newId(tenant), tenant, DecisionFor(env, tenant, allowance, periodKey)),
                    live, env, allowance, periodKey)
  {
  }

  /** The outcome of the k-th tenant tells what happened to it. */
  lemma {:induction false} OutcomeSpelled(rows: seq<LedgerRow>, live: seq<string>, env: Surroundings, allowance: Option<Figure>,
                                          periodKey: string, k: nat)
    requires k < |live|
    ensures var o := SettlePass(rows, live, env, allowance, periodKey).outcomes[k];
            var before := SettlePass(rows, live[..k], env, allowance, periodKey).rows;
            var d := DecisionFor(env, live[k], allowance, periodKey);
            && (o == NotBillable(SettlementThrew) <==> env.read(live[k]).Threw? || (d.Debit? && env.appendThrows(live[k])))
            && (o.Debited? <==> d.Debit? && !env.appendThrows(live[k]) && !HasRef(before, live[k], d.idemRef))
            && (o.AlreadySettled? <==> d.Debit? && !env.appendThrows(live[k]) && HasRef(before, live[k], d.idemRef))
            && (o.Debited? ==> o.amount == d.amount && o.idemRef == d.idemRef) && (o.AlreadySettled? ==> o.idemRef == d.idemRef)
            && (o.WithinAllowance? <==> d.Within?) && (d.Within? ==> o.used == d.used && o.allowance == d.allowance)
            && (env.read(live[k]).Ok? && d.Unbillable? ==> o == NotBillable(d.why))
    decreases |live|
  {
    var front := live[..|live| - 1];
    if k < |front| {
      OutcomeSpelled(rows, front, env, allowance, periodKey, k);
      assert front[..k] == live[..k];
    } else {
      DecisionThrewOnly(env, live[k], allowance, periodKey);
      assert live[..k] == front;
    }
    hide DecideOverageDebit, HasRef, Appended, DecisionFor;
  }

  lemma DecisionThrewOnly(env: Surroundings, tenant: string, allowance: Option<Figure>, periodKey: string)
    ensures DecisionFor(env, tenant, allowance, periodKey) == Unbillable(SettlementThrew) <==> env.read(tenant).Threw?
  {
  }

  /** The tenants a run walks: every one that is not deleted, in order, each at its place. */
  lemma {:induction false} LiveSpelled(tenants: seq<Tenant>, k: nat)
    requires k < |tenants|
    ensures Live(tenants[..k]) + (if tenants[k].deleted then [] else [tenants[k].id]) + Live(tenants[k + 1..]) == Live(tenants)
    decreases |tenants|
  {
    var n := |tenants| - 1;
    if k < n {
      LiveSpelled(tenants[..n], k);
      assert tenants[..n][..k] == tenants[..k] && tenants[..n][k + 1..] == tenants[k + 1..n];
      assert tenants[k + 1..][..n - k - 1] == tenants[k + 1..n];
    } else {
      assert tenants[k + 1..] == [] && Live([]) == [];
    }
  }

  datatype OutcomeKind = IsDebited | IsAlreadySettled | IsWithin | IsUnbillable

  function KindOf(o: SettleOutcome): OutcomeKind {
    match o
    case Debited(_, _) => IsDebited
    case AlreadySettled(_) => IsAlreadySettled
    case WithinAllowance(_, _) => IsWithin
    case NotBillable(_) => IsUnbillable
  }

  function Count(os: seq<SettleOutcome>, kind: OutcomeKind): nat {
    if os == [] then 0 else Count(os[..|os| - 1], kind) + if KindOf(os[|os| - 1]) == kind then 1 else 0
  }

  /** What each counter counts. */
  lemma {:induction false} CountsSpelled(os: seq<SettleOutcome>)
    ensures Count(os, IsDebited) == |set k | 0 <= k < |os| && os[k].Debited?|
    ensures Count(os, IsAlreadySettled) == |set k | 0 <= k < |os| && os[k].AlreadySettled?|
    ensures Count(os, IsWithin) == |set k | 0 <= k < |os| && os[k].WithinAllowance?|
    ensures Count(os, IsUnbillable) == |set k | 0 <= k < |os| && os[k].NotBillable?|
  {
    CountIs(os, IsDebited, (o: SettleOutcome) => o.Debited?);
    CountIs(os, IsAlreadySettled, (o: SettleOutcome) => o.AlreadySettled?);
    CountIs(os, IsWithin, (o: SettleOutcome) => o.WithinAllowance?);
    CountIs(os, IsUnbillable, (o: SettleOutcome) => o.NotBillable?);
    hide Count;
    assert (set k | 0 <= k < |os| && os[k].Debited?) == Picked(os, (o: SettleOutcome) => o.Debited?);
    assert (set k | 0 <= k < |os| && os[k].AlreadySettled?) == Picked(os, (o: SettleOutcome) => o.AlreadySettled?);
    assert (set k | 0 <= k < |os| && os[k].WithinAllowance?) == Picked(os, (o: SettleOutcome) => o.WithinAllowance?);
    assert (set k | 0 <= k < |os| && os[k].NotBillable?) == Picked(os, (o: SettleOutcome) => o.NotBillable?);
  }

  function Picked(os: seq<SettleOutcome>, pick: SettleOutcome -> bool): set<int> {
    set k | 0 <= k < |os| && pick(os[k])
  }

  lemma PickedStep(os: seq<SettleOutcome>, pick: SettleOutcome -> bool)
    requires os != []
    ensures |Picked(os, pick)| == |Picked(os[..|os| - 1], pick)| + if pick(os[|os| - 1]) then 1 else 0
  {
    var n := |os| - 1;
    assert forall k | 0 <= k < n :: os[..n][k] == os[k];
    var before := Picked(os[..n], pick);
    assert n !in before;
    assert Picked(os, pick) == if pick(os[n]) then before + {n} else before;
  }

  lemma {:induction false} CountIs(os: seq<SettleOutcome>, kind: OutcomeKind, pick: SettleOutcome -> bool)
    requires forall o :: pick(o) <==> KindOf(o) == kind
    ensures Count(os, kind) == |Picked(os, pick)|
  {
    hide KindOf;
    if os != [] {
      CountIs(os[..|os| - 1], kind, pick);
      PickedStep(os, pick);
      hide Picked;
    }
  }

  function TotalDebited(os: seq<SettleOutcome>): int {
    if os == [] then 0 else TotalDebited(os[..|os| - 1]) + if os[|os| - 1].Debited? then os[|os| - 1].amount else 0
  }

  datatype SettlementReport = SettlementReport(
    censusComplete: bool, considered: nat, debited: nat, alreadySettled: nat, within: nat, unbillable: nat,
    totalDebited: int, outcomes: seq<SettleOutcome>)

  /**
   The settlement run. Its counters add up to the tenants it walked, its total is what left the ledger, and
   its rows and outcomes are those of the pass over the live tenants.
   */
  method RunLlmSettlement(ledger: CreditLedger, tenants: seq<Tenant>, pageLimit: nat, env: Surroundings,
                          allowance: Option<Figure>, periodKey: string)
    returns (report: SettlementReport)
    modifies ledger
    ensures var pass := SettlePass(old(ledger.rows), Live(tenants), env, allowance, periodKey);
            ledger.rows == pass.rows && report.outcomes == pass.outcomes
    ensures report.considered == |Live(tenants)| && report.censusComplete == (|tenants| < pageLimit)
    ensures report.debited + report.alreadySettled + report.within + report.unbillable == report.considered
    ensures report.debited == Count(report.outcomes, IsDebited) && report.alreadySettled == Count(report.outcomes, IsAlreadySettled)
    ensures report.within == Count(report.outcomes, IsWithin) && report.unbillable == Count(report.outcomes, IsUnbillable)
    ensures Balance(ledger.rows) == Balance(old(ledger.rows)) - report.totalDebited
  {
    hide DecideOverageDebit, HasRef, Appended, Balance, SettlePass, Count, Settled, DebitLedgerRow;
    var live := Live(tenants);
    var outcomes: seq<SettleOutcome> := [];
    NothingSettled(ledger.rows, env, allowance, periodKey);
    var debited, alreadySettled, within, unbillable, total := 0, 0, 0, 0, 0;
    ghost var start := ledger.rows;
    for i := 0 to |live|
      invariant ledger.rows == SettlePass(start, live[..i], env, allowance, periodKey).rows
      invariant outcomes == SettlePass(start, live[..i], env, allowance, periodKey).outcomes
      invariant debited + alreadySettled + within + unbillable == i == |outcomes|
      invariant debited == Count(outcomes, IsDebited) && alreadySettled == Count(outcomes, IsAlreadySettled)
      invariant within == Count(outcomes, IsWithin) && unbillable == Count(outcomes, IsUnbillable)
      invariant Balance(ledger.rows) == Balance(start) - total
    {
      assert live[..i + 1][..i] == live[..i];
      ghost var before := ledger.rows;
      var tenant, outcome := live[i], NotBillable(SettlementThrew);
      var window := env.read(tenant);
      if window.Ok? {
        var settled := SettleMeterOverage(ledger, env.newId(tenant), tenant, Llm, window.value.complete,
                                          Whole(window.value.cost), allowance, periodKey, env.appendThrows(tenant));
        if settled.Ok? { outcome := settled.value; }
      }
      SettledBalance(before, env.newId(tenant), tenant, DecisionFor(env, tenant, allowance, periodKey), env.appendThrows(tenant));
      UnreadIsUnbillable(before, env.newId(tenant), tenant, env.appendThrows(tenant));
      PassOn(start, live[..i], tenant, env, allowance, periodKey);
      assert live[..i + 1] == live[..i] + [tenant];
      CountOn(outcomes, outcome);
      match outcome {
        case Debited(amount, _) =>
          debited := debited + 1;
          total := total + amount;
        case AlreadySettled(_) => alreadySettled := alreadySettled + 1;
        case WithinAllowance(_, _) => within := within + 1;
        case NotBillable(_) => unbillable := unbillable + 1;
      }
      outcomes := outcomes + [outcome];
    }
    assert live[..|live|] == live;
    report := SettlementReport(|tenants| < pageLimit, |live|, debited, alreadySettled, within, unbillable, total, outcomes);
  }

  lemma NothingSettled(rows: seq<LedgerRow>, env: Surroundings, allowance: Option<Figure>, periodKey: string)
    ensures SettlePass(rows, [], env, allowance, periodKey) == Pass(rows, []) && forall kind :: Count([], kind) == 0
  {
  }

  lemma UnreadIsUnbillable(rows: seq<LedgerRow>, id: string, tenant: string, appendThrows: bool)
    ensures Settled(rows, id, tenant, Unbillable(SettlementThrew), appendThrows) == (rows, NotBillable(SettlementThrew))
  {
  }

  lemma PassOn(rows: seq<LedgerRow>, live: seq<string>, tenant: string, env: Surroundings, allowance: Option<Figure>, periodKey: string)
    ensures var before := SettlePass(rows, live, env, allowance, periodKey);
            var (after, o) := Settled(before.rows, env.newId(tenant), tenant,
                                      DecisionFor(env, tenant, allowance, periodKey), env.appendThrows(tenant));
            SettlePass(rows, live + [tenant], env, allowance, periodKey) == Pass(after, before.outcomes + [o])
  {
    hide Settled, DecisionFor;
    assert (live + [tenant])[..|live|] == live;
  }

  lemma CountOn(os: seq<SettleOutcome>, o: SettleOutcome)
    ensures forall kind :: Count(os + [o], kind) == Count(os, kind) + if KindOf(o) == kind then 1 else 0
  {
    assert (os + [o])[..|os|] == os;
  }

  lemma SettledBalance(rows: seq<LedgerRow>, id: string, tenant: string, d: DebitDecision, appendThrows: bool)
    ensures var (after, o) := Settled(rows, id, tenant, d, appendThrows);
            Balance(after) == Balance(rows) - if o.Debited? then o.amount else 0
  {
    if d.Debit? {
      assert (rows + [DebitLedgerRow(id, tenant, d)])[..|rows|] == rows;
    }
  }

  // ---- over any runs ----

  lemma AppendedUnique(rows: seq<LedgerRow>, row: LedgerRow)
    requires UniqueRefs(rows)
    ensures UniqueRefs(Appended(rows, row))
  {
  }

  /** At most one row per tenant and reference, whatever periods a run settles. */
  lemma {:induction false} PassKeepsUnique(rows: seq<LedgerRow>, live: seq<string>, env: Surroundings, allowance: Option<Figure>, periodKey: string)
    requires UniqueRefs(rows)
    ensures UniqueRefs(SettlePass(rows, live, env, allowance, periodKey).rows)
  {
    if live != [] {
      var front, tenant := live[..|live| - 1], live[|live| - 1];
      PassKeepsUnique(rows, front, env, allowance, periodKey);
      hide DecideOverageDebit, UniqueRefs, HasRef, Appended;
      var d := DecisionFor(env, tenant, allowance, periodKey);
      if d.Debit? {
        AppendedUnique(SettlePass(rows, front, env, allowance, periodKey).rows, DebitLedgerRow(env.newId(tenant), tenant, d));
      }
    }
  }

  lemma RefStays(rows: seq<LedgerRow>, later: seq<LedgerRow>, tenant: string, ref: string)
    requires rows <= later && HasRef(rows, tenant, ref)
    ensures HasRef(later, tenant, ref)
  {
    var k :| 0 <= k < |rows| && rows[k].tenant == tenant && rows[k].idemRef == ref;
    assert later[k] == rows[k];
  }

  lemma AppendedHasRef(rows: seq<LedgerRow>, row: LedgerRow)
    ensures HasRef(Appended(rows, row), row.tenant, row.idemRef)
  {
    if !HasRef(rows, row.tenant, row.idemRef) {
      assert Appended(rows, row)[|rows|] == row;
    }
  }

  /** Settling the same period again over the same readings writes nothing and charges nobody. */
  lemma {:induction false} SecondPassWritesNothing(rows: seq<LedgerRow>, live: seq<string>, env: Surroundings, allowance: Option<Figure>,
                                                   periodKey: string, later: seq<LedgerRow>)
    requires SettlePass(rows, live, env, allowance, periodKey).rows <= later
    ensures var again := SettlePass(later, live, env, allowance, periodKey);
            again.rows == later && Count(again.outcomes, IsDebited) == 0 && TotalDebited(again.outcomes) == 0
  {
    if live != [] {
      hide DecideOverageDebit, HasRef;
      var front, tenant := live[..|live| - 1], live[|live| - 1];
      var first := SettlePass(rows, front, env, allowance, periodKey);
      var d := DecisionFor(env, tenant, allowance, periodKey);
      assert first.rows <= later;
      SecondPassWritesNothing(rows, front, env, allowance, periodKey, later);
      var again := SettlePass(later, front, env, allowance, periodKey);
      var whole := SettlePass(later, live, env, allowance, periodKey);
      if d.Debit? && !env.appendThrows(tenant) {
        AppendedHasRef(first.rows, DebitLedgerRow(env.newId(tenant), tenant, d));
        RefStays(SettlePass(rows, live, env, allowance, periodKey).rows, later, tenant, d.idemRef);
      }
      assert whole.outcomes[..|live| - 1] == again.outcomes;
    }
  }

  // ---- what one reference is charged ----

  lemma ChargedAppended(rows: seq<LedgerRow>, row: LedgerRow, tenant: string, ref: string)
    ensures Charged(Appended(rows, row), tenant, ref)
            == if row.tenant == tenant && row.idemRef == ref && !HasRef(rows, tenant, ref)
               then Charged(rows, tenant, ref) + row.delta else Charged(rows, tenant, ref)
    ensures HasRef(Appended(rows, row), tenant, ref)
            <==> HasRef(rows, tenant, ref) || (row.tenant == tenant && row.idemRef == ref)
  {
    var r := Appended(rows, row);
    assert (rows + [row])[..|rows|] == rows;
    if HasRef(rows, tenant, ref) { RefStays(rows, r, tenant, ref); }
    if row.tenant == tenant && row.idemRef == ref { AppendedHasRef(rows, row); }
    assert forall j | 0 <= j < |rows| :: r[j] == rows[j];
  }

  lemma {:induction false} NothingCharged(rows: seq<LedgerRow>, tenant: string, ref: string)
    requires !HasRef(rows, tenant, ref)
    ensures Charged(rows, tenant, ref) == 0
  {
    if rows != [] {
      var front := rows[..|rows| - 1];
      assert rows[|rows| - 1].tenant != tenant || rows[|rows| - 1].idemRef != ref;
      if HasRef(front, tenant, ref) { RefStays(front, rows, tenant, ref); }
      NothingCharged(front, tenant, ref);
    }
  }

  /** What settling `last` does to the charge of `tenant` under `ref`. */
  lemma SettledCharges(rows: seq<LedgerRow>, id: string, last: string, d: DebitDecision, appendThrows: bool, tenant: string, ref: string)
    ensures var after := Settled(rows, id, last, d, appendThrows).0;
            if d.Debit? && !appendThrows && last == tenant && d.idemRef == ref && !HasRef(rows, tenant, ref)
            then Charged(after, tenant, ref) == Charged(rows, tenant, ref) - d.amount && HasRef(after, tenant, ref)
            else Charged(after, tenant, ref) == Charged(rows, tenant, ref) && (HasRef(after, tenant, ref) <==> HasRef(rows, tenant, ref))
  {
    hide HasRef, Charged, Appended;
    if d.Debit? { ChargedAppended(rows, DebitLedgerRow(id, last, d), tenant, ref); }
  }

  lemma DecisionRef(env: Surroundings, tenant: string, allowance: Option<Figure>, periodKey: string)
    ensures var d := DecisionFor(env, tenant, allowance, periodKey);
            d.Debit? ==> d.idemRef == OverageIdemRef(Llm, periodKey)
  {
  }

  /** A run over another period leaves a tenant's charge for this one alone. */
  lemma {:induction false} OtherPeriodLeavesCharge(rows: seq<LedgerRow>, live: seq<string>, env: Surroundings, allowance: Option<Figure>,
                                                   periodKey: string, tenant: string, ref: string)
    requires ref != OverageIdemRef(Llm, periodKey)
    ensures var p := SettlePass(rows, live, env, allowance, periodKey);
            Charged(p.rows, tenant, ref) == Charged(rows, tenant, ref) && (HasRef(p.rows, tenant, ref) <==> HasRef(rows, tenant, ref))
  {
    if live == [] {
      NothingSettled(rows, env, allowance, periodKey);
    } else {
      hide *;
      var front, last := live[..|live| - 1], live[|live| - 1];
      assert live == front + [last];
      OtherPeriodLeavesCharge(rows, front, env, allowance, periodKey, tenant, ref);
      var d := DecisionFor(env, last, allowance, periodKey);
      DecisionRef(env, last, allowance, periodKey);
      PassOn(rows, front, last, env, allowance, periodKey);
      SettledCharges(SettlePass(rows, front, env, allowance, periodKey).rows, env.newId(last), last, d, env.appendThrows(last), tenant, ref);
    }
  }

  /**
   A run over this period: a tenant never charged before is charged what its decision says or, when it was
   not reached or its append threw, nothing; a tenant already charged stays as it is.
   */
  lemma {:induction false} PassCharges(rows: seq<LedgerRow>, live: seq<string>, env: Surroundings, allowance: Option<Figure>,
                                       periodKey: string, tenant: string)
    ensures var p, ref := SettlePass(rows, live, env, allowance, periodKey), OverageIdemRef(Llm, periodKey);
            var d := DecisionFor(env, tenant, allowance, periodKey);
            if !HasRef(rows, tenant, ref) && tenant in live && !env.appendThrows(tenant) && d.Debit?
            then HasRef(p.rows, tenant, ref) && Charged(p.rows, tenant, ref) == -d.amount
            else Charged(p.rows, tenant, ref) == Charged(rows, tenant, ref) && (HasRef(p.rows, tenant, ref) <==> HasRef(rows, tenant, ref))
  {
    if live == [] {
      NothingSettled(rows, env, allowance, periodKey);
    } else {
      hide *;
      var ref := OverageIdemRef(Llm, periodKey);
      var front, last := live[..|live| - 1], live[|live| - 1];
      assert live == front + [last];
      PassCharges(rows, front, env, allowance, periodKey, tenant);
      if !HasRef(rows, tenant, ref) { NothingCharged(rows, tenant, ref); }
      var d := DecisionFor(env, last, allowance, periodKey);
      DecisionRef(env, last, allowance, periodKey);
      PassOn(rows, front, last, env, allowance, periodKey);
      SettledCharges(SettlePass(rows, front, env, allowance, periodKey).rows, env.newId(last), last, d, env.appendThrows(last), tenant, ref);
    }
  }
}
