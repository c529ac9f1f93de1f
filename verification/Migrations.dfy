/**
 The tenant schema migration runner (`applyStudioMigrations` in `src/migrate.ts`) over a database that may
 stop answering after any call. `ran` logs the migrations whose statements the database executed.
 */
module Migrations {
  import opened Basics
  import SqlComments

  /** `makesProbe`: its statements create the table the adoption probe looks for. */
  datatype Migration = Migration(name: string, sql: string, makesProbe: bool)

  datatype Db = Db(tracking: bool, recorded: seq<string>, ran: seq<string>, probe: bool)

  datatype Report = Report(applied: seq<string>, seeded: seq<string>)

  /** How a run leaves the database, and what it reports unless it threw or was cut short. */
  datatype Run = Run(db: Db, report: Result<Report>)

  const FRESH: Db := Db(false, [], [], false)

  function Names(ms: seq<Migration>): (names: seq<string>)
    ensures |names| == |ms|
  {
    seq(|ms|, k requires 0 <= k < |ms| => ms[k].name)
  }

  /** INSERT OR IGNORE on the primary key. */
  function Insert(recorded: seq<string>, name: string): seq<string> {
    if name in recorded then recorded else recorded + [name]
  }

  function RecordAll(recorded: seq<string>, names: seq<string>): seq<string>
    decreases |names|
  {
    if names == [] then recorded else RecordAll(Insert(recorded, names[0]), names[1..])
  }

  predicate Quotable(name: string) {
    '\'' !in name
  }

  predicate AllQuotable(ms: seq<Migration>) {
    forall k | 0 <= k < |ms| :: Quotable(ms[k].name)
  }

  /** A comment-only file has nothing to run. */
  predicate HasStatements(m: Migration) {
    SqlComments.Strip(m.sql) != ""
  }

  function Execute(db: Db, m: Migration): Db {
    db.(ran := db.ran + [m.name], probe := db.probe || m.makesProbe)
  }

  function Record(db: Db, name: string): Db {
    db.(recorded := Insert(db.recorded, name))
  }

  // ---- the run ----

  /** The loop from the i-th migration on, with `calls` calls left before the database stops answering. */
  function Forward(db: Db, ms: seq<Migration>, i: nat, already: set<string>, applied: seq<string>, calls: nat): Run
    requires i <= |ms|
    decreases |ms| - i
  {
    if i == |ms| then Run(db, Ok(Report(applied, [])))
    else if ms[i].name in already then Forward(db, ms, i + 1, already, applied, calls)
    else if HasStatements(ms[i]) && calls == 0 then Run(db, Threw)
    else
      var executed := if HasStatements(ms[i]) then Execute(db, ms[i]) else db;
      var left := if HasStatements(ms[i]) then calls - 1 else calls;
      if !Quotable(ms[i].name) || left == 0 then Run(executed, Threw)
      else Forward(Record(executed, ms[i].name), ms, i + 1, already, applied + [ms[i].name], left - 1)
  }

  function Names0(recorded: seq<string>): set<string> {
    set name | name in recorded
  }

  function Start(db: Db, ms: seq<Migration>, calls: nat): Run {
    if calls == 0 then Run(db, Threw)
    else
      var tracked := db.(tracking := true);
      if calls == 1 then Run(tracked, Threw)
      else if db.recorded == [] && ms != [] then
        if calls == 2 then Run(tracked, Threw)
        else if !db.probe then Forward(tracked, ms, 0, {}, [], calls - 3)
        else if !AllQuotable(ms) || calls == 3 then Run(tracked, Threw)
        else Run(tracked.(recorded := RecordAll([], Names(ms))), Ok(Report([], Names(ms))))
      else Forward(tracked, ms, 0, Names0(db.recorded), [], calls - 2)
  }

  /** The database behind `queryD1`; after `calls` calls every further one throws. */
  class D1 {
    var db: Db
    var calls: nat

    constructor (db: Db, calls: nat)
      ensures this.db == db && this.calls == calls
    {
      this.db, this.calls := db, calls;
    }

    method CreateTracking() returns (ok: bool)
      modifies this
      ensures ok <==> old(calls) > 0
      ensures db == (if ok then old(db).(tracking := true) else old(db)) && calls == if ok then old(calls) - 1 else 0
    {
      ok := calls > 0;
      if ok { db, calls := db.(tracking := true), calls - 1; }
    }

    method SelectNames() returns (ok: bool, rows: seq<string>)
      modifies this`calls
      ensures ok <==> old(calls) > 0
      ensures (ok ==> rows == db.recorded) && calls == if ok then old(calls) - 1 else 0
    {
      ok, rows := calls > 0, db.recorded;
      if ok { calls := calls - 1; }
    }

    method ProbeTable() returns (ok: bool, present: bool)
      modifies this`calls
      ensures ok <==> old(calls) > 0
      ensures (ok ==> present == db.probe) && calls == if ok then old(calls) - 1 else 0
    {
      ok, present := calls > 0, db.probe;
      if ok { calls := calls - 1; }
    }

    method InsertNames(names: seq<string>) returns (ok: bool)
      modifies this
      ensures ok <==> old(calls) > 0
      ensures db == (if ok then old(db).(recorded := RecordAll(old(db).recorded, names)) else old(db))
      ensures calls == if ok then old(calls) - 1 else 0
    {
      ok := calls > 0;
      if ok { db, calls := db.(recorded := RecordAll(db.recorded, names)), calls - 1; }
    }

    method RunStatements(m: Migration) returns (ok: bool)
      modifies this
      ensures ok <==> old(calls) > 0
      ensures db == (if ok then Execute(old(db), m) else old(db)) && calls == if ok then old(calls) - 1 else 0
    {
      ok := calls > 0;
      if ok { db, calls := Execute(db, m), calls - 1; }
    }
  }

  /** The loop stands before the i-th migration, and what is left of it completes the run `goal`. */
  ghost predicate Pending(goal: Run, db: Db, ms: seq<Migration>, i: nat, already: set<string>, applied: seq<string>, calls: nat) {
    i <= |ms| && goal == Forward(db, ms, i, already, applied, calls)
  }

  lemma PendingEnd(goal: Run, db: Db, ms: seq<Migration>, already: set<string>, applied: seq<string>, calls: nat)
    requires Pending(goal, db, ms, |ms|, already, applied, calls)
    ensures goal == Run(db, Ok(Report(applied, [])))
  {
  }

  /** One turn of the loop, as far as the calls allow. */
  lemma PendingStep(goal: Run, db: Db, ms: seq<Migration>, i: nat, already: set<string>, applied: seq<string>, calls: nat)
    requires i < |ms| && Pending(goal, db, ms, i, already, applied, calls)
    ensures ms[i].name in already ==> Pending(goal, db, ms, i + 1, already, applied, calls)
    ensures ms[i].name !in already ==>
              var runs := HasStatements(ms[i]);
              var executed := if runs then Execute(db, ms[i]) else db;
              if runs && calls == 0 then goal == Run(db, Threw)
              else if !Quotable(ms[i].name) || calls == (if runs then 1 else 0) then goal == Run(executed, Threw)
              else Pending(goal, executed.(recorded := RecordAll(executed.recorded, [ms[i].name])), ms, i + 1, already,
                           applied + [ms[i].name], calls - if runs then 2 else 1)
  {
    hide HasStatements, Quotable, Execute;
    InsertOne(db.recorded, ms[i].name);
    InsertOne(Execute(db, ms[i]).recorded, ms[i].name);
  }

  lemma CutEarly(db: Db, ms: seq<Migration>, calls: nat)
    requires calls < 2 || (calls == 2 && db.recorded == [] && ms != [])
    ensures Start(db, ms, calls) == Run(if calls == 0 then db else db.(tracking := true), Threw)
  {
    hide Forward, AllQuotable, RecordAll, Names, Names0;
  }

  lemma Resumes(db: Db, ms: seq<Migration>, calls: nat)
    requires calls >= 2 && (db.recorded != [] || ms == [])
    ensures Pending(Start(db, ms, calls), db.(tracking := true), ms, 0, Names0(db.recorded), [], calls - 2)
  {
    hide Forward, AllQuotable, RecordAll, Names, Names0;
  }

  lemma StartsFresh(db: Db, ms: seq<Migration>, calls: nat)
    requires calls >= 3 && db.recorded == [] && ms != [] && !db.probe
    ensures Pending(Start(db, ms, calls), db.(tracking := true), ms, 0, Names0(db.recorded), [], calls - 3)
  {
    assert Names0([]) == {};
    hide Forward, AllQuotable, RecordAll, Names, Names0;
  }

  lemma Adopts(db: Db, ms: seq<Migration>, calls: nat)
    requires calls >= 3 && db.recorded == [] && ms != [] && db.probe
    ensures Start(db, ms, calls) ==
            if !AllQuotable(ms) || calls == 3 then Run(db.(tracking := true), Threw)
            else Run(db.(tracking := true, recorded := RecordAll([], Names(ms))), Ok(Report([], Names(ms))))
  {
    hide Forward, AllQuotable, RecordAll, Names, Names0;
  }

  method ApplyStudioMigrations(d1: D1, ms: seq<Migration>) returns (report: Result<Report>)
    modifies d1
    ensures Run(d1.db, report) == Start(old(d1.db), ms, old(d1.calls))
  {
    hide *;
    ghost var db, calls := d1.db, d1.calls;
    var ok := d1.CreateTracking();
    if !ok { CutEarly(db, ms, calls); return Threw; }
    var recorded;
    ok, recorded := d1.SelectNames();
    if !ok { CutEarly(db, ms, calls); return Threw; }
    var already := Names0(recorded);
    if recorded == [] && |ms| > 0 {
      var present;
      ok, present := d1.ProbeTable();
      if !ok { CutEarly(db, ms, calls); return Threw; }
      if present {
        Adopts(db, ms, calls);
        if !AllQuotable(ms) { return Threw; }
        ok := d1.InsertNames(Names(ms));
        if !ok { return Threw; }
        return Ok(Report([], Names(ms)));
      }
      StartsFresh(db, ms, calls);
    } else {
      Resumes(db, ms, calls);
    }
    report := ApplyForward(d1, ms, already, Start(db, ms, calls));
  }

  method ApplyForward(d1: D1, ms: seq<Migration>, already: set<string>, ghost goal: Run) returns (report: Result<Report>)
    requires Pending(goal, d1.db, ms, 0, already, [], d1.calls)
    modifies d1
    ensures Run(d1.db, report) == goal
  {
    hide *;
    var applied: seq<string> := [];
    var i := 0;
    while i < |ms|
      invariant 0 <= i <= |ms|
      invariant Pending(goal, d1.db, ms, i, already, applied, d1.calls)
    {
      PendingStep(goal, d1.db, ms, i, already, applied, d1.calls);
      if ms[i].name in already {
        i := i + 1;
        continue;
      }
      var statements := SqlComments.StripSqlComments(ms[i].sql);
      StatementsOf(ms[i], statements);
      if statements != "" {
        var ok := d1.RunStatements(ms[i]);
        if !ok { return Threw; }
      }
      if !Quotable(ms[i].name) { return Threw; }
      var ok := d1.InsertNames([ms[i].name]);
      if !ok { return Threw; }
      applied := applied + [ms[i].name];
      i := i + 1;
    }
    PendingEnd(goal, d1.db, ms, already, applied, d1.calls);
    return Ok(Report(applied, []));
  }

  lemma StatementsOf(m: Migration, statements: string)
    requires statements == SqlComments.Strip(m.sql)
    ensures statements != "" <==> HasStatements(m)
  {
    hide SqlComments.Strip;
  }

  lemma InsertOne(recorded: seq<string>, name: string)
    ensures RecordAll(recorded, [name]) == Insert(recorded, name)
  {
    assert [name][1..] == [];
  }

  // ---- what a run reports ----

  /** The migrations of the bundle that are not recorded yet, in their order. */
  function Missing(ms: seq<Migration>, already: set<string>): (more: seq<Migration>)
    ensures |more| <= |ms|
  {
    if ms == [] then []
    else (if ms[0].name in already then [] else [ms[0]]) + Missing(ms[1..], already)
  }

  function WithStatements(ms: seq<Migration>): seq<Migration> {
    if ms == [] then [] else (if HasStatements(ms[0]) then [ms[0]] else []) + WithStatements(ms[1..])
  }

  predicate DistinctNames(ms: seq<Migration>) {
    forall j, k | 0 <= j < k < |ms| :: ms[j].name != ms[k].name
  }

  lemma NamesOfSum(a: seq<Migration>, b: seq<Migration>)
    ensures Names(a + b) == Names(a) + Names(b)
  {
  }

  lemma OneRecorded(db: Db, m: Migration)
    requires m.name !in db.recorded
    ensures Advance(db, m).recorded == db.recorded + [m.name]
    ensures Advance(db, m).ran == db.ran + Names(WithStatements([m])) && Advance(db, m).tracking == db.tracking
  {
    hide HasStatements;
    assert [m][1..] == [];
    assert Names(WithStatements([m])) == if HasStatements(m) then [m.name] else [];
  }

  lemma FirstThen(m: Migration, rest: seq<Migration>)
    ensures Names([m] + rest) == [m.name] + Names(rest)
    ensures Names(WithStatements([m] + rest)) == Names(WithStatements([m])) + Names(WithStatements(rest))
  {
    hide HasStatements;
    assert ([m] + rest)[1..] == rest && [m][1..] == [];
    NamesOfSum([m], rest);
    NamesOfSum(WithStatements([m]), WithStatements(rest));
  }

  lemma MissingStep(ms: seq<Migration>, i: nat, already: set<string>)
    requires i < |ms|
    ensures Missing(ms[i..], already) == (if ms[i].name in already then [] else [ms[i]]) + Missing(ms[i + 1..], already)
    ensures ms[i].name !in already ==> Names(Missing(ms[i..], already)) == [ms[i].name] + Names(Missing(ms[i + 1..], already))
    ensures ms[i].name !in already ==> Names(WithStatements(Missing(ms[i..], already)))
                                       == Names(WithStatements([ms[i]])) + Names(WithStatements(Missing(ms[i + 1..], already)))
  {
    assert ms[i..][0] == ms[i] && ms[i..][1..] == ms[i + 1..];
    hide HasStatements, WithStatements, Names;
    if ms[i].name !in already { FirstThen(ms[i], Missing(ms[i + 1..], already)); }
  }

  /** What the loop did by the time it ends well: it recorded, and reports, exactly what was missing, and ran what of it had statements. */
  lemma {:induction false} ForwardReports(db: Db, ms: seq<Migration>, i: nat, already: set<string>, applied: seq<string>, calls: nat)
    requires i <= |ms| && DistinctNames(ms) && forall k | i <= k < |ms| && ms[k].name !in already :: ms[k].name !in db.recorded
    requires Forward(db, ms, i, already, applied, calls).report.Ok?
    ensures var run, more := Forward(db, ms, i, already, applied, calls), Missing(ms[i..], already);
            && run.report.value == Report(applied + Names(more), [])
            && run.db.recorded == db.recorded + Names(more) && run.db.ran == db.ran + Names(WithStatements(more))
            && forall m | m in more :: Quotable(m.name)
    decreases |ms| - i
  {
    hide *;
    if i == |ms| {
      ReportsAtEnd(db, ms, already, applied, calls);
    } else {
      MissingStep(ms, i, already);
      ForwardTurn(db, ms, i, already, applied, calls);
      if ms[i].name in already {
        ForwardReports(db, ms, i + 1, already, applied, calls);
        assert [] + Missing(ms[i + 1..], already) == Missing(ms[i + 1..], already);
      } else {
        OneRecorded(db, ms[i]);
        StillDistinct(db, ms, i, already);
        ForwardReports(Advance(db, ms[i]), ms, i + 1, already, applied + [ms[i].name], calls - Need(ms[i]));
        ThreeSums(applied, [ms[i].name], Names(Missing(ms[i + 1..], already)));
        ThreeSums(db.recorded, [ms[i].name], Names(Missing(ms[i + 1..], already)));
        ThreeSums(db.ran, Names(WithStatements([ms[i]])), Names(WithStatements(Missing(ms[i + 1..], already))));
      }
    }
  }

  lemma ThreeSums(a: seq<string>, b: seq<string>, c: seq<string>)
    ensures a + (b + c) == (a + b) + c
  {
  }

  lemma StillDistinct(db: Db, ms: seq<Migration>, i: nat, already: set<string>)
    requires i < |ms| && DistinctNames(ms) && Advance(db, ms[i]).recorded == db.recorded + [ms[i].name]
    requires forall k | i <= k < |ms| && ms[k].name !in already :: ms[k].name !in db.recorded
    ensures forall k | i + 1 <= k < |ms| && ms[k].name !in already :: ms[k].name !in Advance(db, ms[i]).recorded
  {
    hide Advance;
  }

  lemma ReportsAtEnd(db: Db, ms: seq<Migration>, already: set<string>, applied: seq<string>, calls: nat)
    ensures Forward(db, ms, |ms|, already, applied, calls) == Run(db, Ok(Report(applied, [])))
    ensures Missing(ms[|ms|..], already) == [] && Names([]) == [] && WithStatements([]) == []
    ensures applied + [] == applied && db.recorded + [] == db.recorded && db.ran + [] == db.ran
  {
  }

  /** One turn of a loop that ends well. */
  lemma ForwardTurn(db: Db, ms: seq<Migration>, i: nat, already: set<string>, applied: seq<string>, calls: nat)
    requires i < |ms| && Forward(db, ms, i, already, applied, calls).report.Ok?
    ensures ms[i].name in already ==>
              Forward(db, ms, i, already, applied, calls) == Forward(db, ms, i + 1, already, applied, calls)
    ensures ms[i].name !in already ==>
              && Quotable(ms[i].name) && calls >= Need(ms[i])
              && Forward(db, ms, i, already, applied, calls)
                 == Forward(Advance(db, ms[i]), ms, i + 1, already, applied + [ms[i].name], calls - Need(ms[i]))
  {
    hide HasStatements, Quotable, Execute, Record;
  }

  /**
   What an uncut run did is what it reports. Either the database was an adopted one, with the probe table and nothing
   recorded: every migration is then recorded and reported as seeded, and none ran. Or what is reported as applied is
   exactly what was missing, in order: it was recorded, and what of it has statements ran. No name with a quote is
   ever recorded.
   */
  lemma ReportSpelled(db: Db, ms: seq<Migration>, calls: nat)
    requires DistinctNames(ms) && Start(db, ms, calls).report.Ok?
    ensures var run := Start(db, ms, calls);
            var report, more := run.report.value, Missing(ms, Names0(db.recorded));
            if db.recorded == [] && ms != [] && db.probe
            then report == Report([], Names(ms)) && run.db.recorded == Names(ms) && run.db.ran == db.ran
                 && forall m | m in ms :: '\'' !in m.name
            else report == Report(Names(more), []) && run.db.recorded == db.recorded + Names(more)
                 && run.db.ran == db.ran + Names(WithStatements(more)) && forall m | m in more :: '\'' !in m.name
  {
    var tracked, already := db.(tracking := true), Names0(db.recorded);
    assert ms[0..] == ms;
    MissingHere(db, ms);
    if calls < 2 || (calls == 2 && db.recorded == [] && ms != []) {
      CutEarly(db, ms, calls);
    } else if db.recorded == [] && ms != [] && db.probe {
      Adopts(db, ms, calls);
      assert forall j | 0 <= j < |ms| :: Names(ms)[j] == ms[j].name;
      RecordAllNew([], Names(ms));
    } else {
      var left := if db.recorded == [] && ms != [] then calls - 3 else calls - 2;
      if db.recorded == [] && ms != [] { StartsFresh(db, ms, calls); } else { Resumes(db, ms, calls); }
      PendingMeans(Start(db, ms, calls), tracked, ms, already, left);
      hide Start, Forward, Missing, WithStatements;
      ForwardReports(tracked, ms, 0, already, [], left);
      assert [] + Names(Missing(ms, already)) == Names(Missing(ms, already));
    }
  }

  lemma MissingHere(db: Db, ms: seq<Migration>)
    ensures forall k | 0 <= k < |ms| && ms[k].name !in Names0(db.recorded) :: ms[k].name !in db.recorded
  {
  }

  // ---- what the runner is meant to keep ----

  /** Distinct, quotable names, and a first migration that creates the probe table. */
  predicate Proper(ms: seq<Migration>) {
    && ms != [] && AllQuotable(ms) && HasStatements(ms[0]) && ms[0].makesProbe
    && forall j, k | 0 <= j < k < |ms| :: ms[j].name != ms[k].name
  }

  /** The first `k` migrations that have statements, in order. */
  function Ran(ms: seq<Migration>, k: nat): seq<string>
    requires k <= |ms|
  {
    if k == 0 then [] else Ran(ms, k - 1) + if HasStatements(ms[k - 1]) then [ms[k - 1].name] else []
  }

  /** Exactly the first `k` migrations are recorded, and each of them ran exactly once, in order. */
  predicate Clean(db: Db, ms: seq<Migration>, k: nat) {
    k <= |ms| && db.recorded == Names(ms)[..k] && db.ran == Ran(ms, k) && (db.probe <==> k > 0)
  }

  /** The k-th migration ran besides, and is not recorded. */
  predicate Gap(db: Db, ms: seq<Migration>, k: nat) {
    k < |ms| && HasStatements(ms[k]) && db.recorded == Names(ms)[..k] && db.ran == Ran(ms, k) + [ms[k].name] && db.probe
  }

  /** Where a run stops: before the `at`-th migration, and `gap` when that one ran unrecorded. */
  datatype Stop = Stop(at: nat, gap: bool)

  /** The calls it takes to run and record `m`. */
  function Need(m: Migration): nat {
    if HasStatements(m) then 2 else 1
  }

  /** `m` run, if it has statements, and recorded. */
  function Advance(db: Db, m: Migration): Db {
    Record(if HasStatements(m) then Execute(db, m) else db, m.name)
  }

  function StopAt(ms: seq<Migration>, i: nat, calls: nat): (stop: Stop)
    requires i <= |ms|
    ensures i <= stop.at <= |ms|
    decreases |ms| - i
  {
    if i == |ms| then Stop(i, false)
    else if calls >= Need(ms[i]) then StopAt(ms, i + 1, calls - Need(ms[i]))
    else Stop(i, calls == 1)
  }

  /** A run over a database with `k` migrations recorded: three calls to set up a fresh one, two otherwise. */
  function CutAt(ms: seq<Migration>, k: nat, calls: nat): (stop: Stop)
    requires k <= |ms|
    ensures k <= stop.at <= |ms|
  {
    var setup := if k == 0 then 3 else 2;
    if calls < setup then Stop(k, false) else StopAt(ms, k, calls - setup)
  }

  // ---- one run over a clean database ----

  lemma NameAt(ms: seq<Migration>, i: nat)
    requires i < |ms| && Proper(ms)
    ensures Names(ms)[..i + 1] == Names(ms)[..i] + [ms[i].name] && ms[i].name !in Names(ms)[..i]
  {
    assert forall j | 0 <= j < |ms| :: Names(ms)[j] == ms[j].name;
  }

  lemma StepFromClean(db: Db, ms: seq<Migration>, i: nat)
    requires Proper(ms) && i < |ms| && Clean(db, ms, i)
    ensures HasStatements(ms[i]) ==> Gap(Execute(db, ms[i]), ms, i)
    ensures Clean(Advance(db, ms[i]), ms, i + 1)
  {
    NameAt(ms, i);
    hide HasStatements, Names;
    assert Ran(ms, i + 1) == Ran(ms, i) + if HasStatements(ms[i]) then [ms[i].name] else [];
    assert Ran(ms, i) + [] == Ran(ms, i);
  }

  lemma ForwardOne(db: Db, ms: seq<Migration>, i: nat, already: set<string>, applied: seq<string>, calls: nat)
    requires i < |ms| && ms[i].name !in already && Quotable(ms[i].name)
    ensures Forward(db, ms, i, already, applied, calls) ==
            if calls >= Need(ms[i]) then
              Forward(Advance(db, ms[i]), ms, i + 1, already, applied + [ms[i].name], calls - Need(ms[i]))
            else Run(if calls == 1 then Execute(db, ms[i]) else db, Threw)
  {
    hide HasStatements, Quotable, Execute, Record;
  }

  /** A database left at `stop`, as the run reports it. */
  predicate LeftAt(run: Run, ms: seq<Migration>, stop: Stop) {
    && (if stop.gap then Gap(run.db, ms, stop.at) else Clean(run.db, ms, stop.at))
    && (run.report.Ok? <==> stop.at == |ms|)
  }

  lemma LeftAtEnd(db: Db, ms: seq<Migration>, already: set<string>, applied: seq<string>, calls: nat)
    requires Clean(db, ms, |ms|)
    ensures LeftAt(Forward(db, ms, |ms|, already, applied, calls), ms, StopAt(ms, |ms|, calls))
  {
    hide Clean;
  }

  lemma LeftAtCut(db: Db, ms: seq<Migration>, i: nat, calls: nat)
    requires Proper(ms) && i < |ms| && Clean(db, ms, i) && calls < Need(ms[i])
    ensures LeftAt(Run(if calls == 1 then Execute(db, ms[i]) else db, Threw), ms, StopAt(ms, i, calls))
  {
    StepFromClean(db, ms, i);
    hide Clean, Gap, Proper;
  }

  lemma {:induction false} ForwardFromClean(db: Db, ms: seq<Migration>, i: nat, already: set<string>, applied: seq<string>, calls: nat)
    requires Proper(ms) && i <= |ms| && Clean(db, ms, i)
    requires forall j | i <= j < |ms| :: ms[j].name !in already
    ensures LeftAt(Forward(db, ms, i, already, applied, calls), ms, StopAt(ms, i, calls))
    decreases |ms| - i
  {
    hide *;
    if i == |ms| {
      LeftAtEnd(db, ms, already, applied, calls);
    } else {
      ProperQuotes(ms, i);
      ForwardOne(db, ms, i, already, applied, calls);
      if calls >= Need(ms[i]) {
        StepFromClean(db, ms, i);
        StopAtOne(ms, i, calls);
        ForwardFromClean(Advance(db, ms[i]), ms, i + 1, already, applied + [ms[i].name], calls - Need(ms[i]));
      } else {
        LeftAtCut(db, ms, i, calls);
      }
    }
  }

  lemma ProperQuotes(ms: seq<Migration>, i: nat)
    requires Proper(ms) && i < |ms|
    ensures Quotable(ms[i].name)
  {
  }

  lemma StopAtOne(ms: seq<Migration>, i: nat, calls: nat)
    requires i < |ms| && calls >= Need(ms[i])
    ensures StopAt(ms, i, calls) == StopAt(ms, i + 1, calls - Need(ms[i]))
  {
    hide Need;
  }

  lemma {:induction false} SkipRecorded(db: Db, ms: seq<Migration>, i: nat, k: nat, already: set<string>, applied: seq<string>, calls: nat)
    requires i <= k <= |ms| && forall j | i <= j < k :: ms[j].name in already
    ensures Forward(db, ms, i, already, applied, calls) == Forward(db, ms, k, already, applied, calls)
    decreases k - i
  {
    hide HasStatements, Execute, Record, Quotable;
    if i < k { SkipRecorded(db, ms, i + 1, k, already, applied, calls); }
  }

  lemma RecordedNames(ms: seq<Migration>, k: nat)
    requires Proper(ms) && k <= |ms|
    ensures forall j | 0 <= j < k :: ms[j].name in Names0(Names(ms)[..k])
    ensures forall j | k <= j < |ms| :: ms[j].name !in Names0(Names(ms)[..k])
    ensures k == 0 <==> Names(ms)[..k] == []
  {
    hide HasStatements;
    forall j | 0 <= j < k ensures ms[j].name in Names0(Names(ms)[..k]) { assert Names(ms)[..k][j] == ms[j].name; }
  }

  lemma CleanFacts(db: Db, ms: seq<Migration>, k: nat)
    requires Proper(ms) && Clean(db, ms, k)
    ensures k <= |ms| && ms != [] && (db.recorded == [] <==> k == 0) && (db.probe <==> k > 0)
    ensures Clean(db.(tracking := true), ms, k)
    ensures forall j | 0 <= j < k :: ms[j].name in Names0(db.recorded)
    ensures forall j | k <= j < |ms| :: ms[j].name !in Names0(db.recorded)
  {
    RecordedNames(ms, k);
    hide AllQuotable, HasStatements, Names, Names0, Ran;
  }

  lemma StartPoint(db: Db, ms: seq<Migration>, k: nat, calls: nat)
    requires Proper(ms) && Clean(db, ms, k) && calls >= if k == 0 then 3 else 2
    ensures Start(db, ms, calls) == Forward(db.(tracking := true), ms, 0, Names0(db.recorded), [], calls - if k == 0 then 3 else 2)
  {
    hide *;
    CleanFacts(db, ms, k);
    if k == 0 { StartsFresh(db, ms, calls); } else { Resumes(db, ms, calls); }
    PendingMeans(Start(db, ms, calls), db.(tracking := true), ms, Names0(db.recorded), calls - if k == 0 then 3 else 2);
  }

  lemma PendingMeans(goal: Run, db: Db, ms: seq<Migration>, already: set<string>, calls: nat)
    requires Pending(goal, db, ms, 0, already, [], calls)
    ensures goal == Forward(db, ms, 0, already, [], calls)
  {
    hide Forward;
  }

  /** What a run over a clean database comes to: the database stops where the calls say, clean or in a gap. */
  ghost predicate RunsTo(run: Run, ms: seq<Migration>, stop: Stop, calls: nat) {
    && stop.at <= |ms|
    && (if stop.gap then Gap(run.db, ms, stop.at) else Clean(run.db, ms, stop.at))
    && (run.report.Ok? ==> stop == Stop(|ms|, false))
    && (calls >= 3 + 2 * |ms| ==> run.report.Ok?)
  }

  lemma RunFromClean(db: Db, ms: seq<Migration>, k: nat, calls: nat)
    requires Proper(ms) && Clean(db, ms, k)
    ensures k <= |ms| && RunsTo(Start(db, ms, calls), ms, CutAt(ms, k, calls), calls)
  {
    hide *;
    CleanFacts(db, ms, k);
    if calls < if k == 0 then 3 else 2 {
      CutEarly(db, ms, calls);
      RunsNowhere(db, ms, k, calls);
    } else {
      var left := calls - if k == 0 then 3 else 2;
      var tracked := db.(tracking := true);
      StartPoint(db, ms, k, calls);
      SkipRecorded(tracked, ms, 0, k, Names0(db.recorded), [], left);
      ForwardFromClean(tracked, ms, k, Names0(db.recorded), [], left);
      EnoughCalls(ms, k, left);
      CutAtLate(ms, k, calls);
      LeftMeans(Forward(tracked, ms, k, Names0(db.recorded), [], left), ms, StopAt(ms, k, left), calls);
    }
  }

  lemma RunsNowhere(db: Db, ms: seq<Migration>, k: nat, calls: nat)
    requires Clean(db, ms, k) && Clean(db.(tracking := true), ms, k) && calls < if k == 0 then 3 else 2
    ensures k <= |ms| && RunsTo(Run(if calls == 0 then db else db.(tracking := true), Threw), ms, CutAt(ms, k, calls), calls)
  {
    hide StopAt, Ran, Names;
  }

  lemma CutAtLate(ms: seq<Migration>, k: nat, calls: nat)
    requires k <= |ms| && calls >= if k == 0 then 3 else 2
    ensures CutAt(ms, k, calls) == StopAt(ms, k, calls - if k == 0 then 3 else 2)
  {
    hide StopAt;
  }

  lemma LeftMeans(run: Run, ms: seq<Migration>, stop: Stop, calls: nat)
    requires LeftAt(run, ms, stop) && stop.at <= |ms|
    requires calls >= 3 + 2 * |ms| ==> stop == Stop(|ms|, false)
    requires stop.at == |ms| ==> !stop.gap
    ensures RunsTo(run, ms, stop, calls)
  {
    hide Gap, Clean;
  }

  lemma {:induction false} EnoughCalls(ms: seq<Migration>, i: nat, calls: nat)
    requires i <= |ms|
    ensures calls >= 2 * (|ms| - i) ==> StopAt(ms, i, calls) == Stop(|ms|, false)
    ensures StopAt(ms, i, calls).at == |ms| ==> !StopAt(ms, i, calls).gap
    decreases |ms| - i
  {
    if i < |ms| {
      hide HasStatements;
      if calls >= Need(ms[i]) { EnoughCalls(ms, i + 1, calls - Need(ms[i])); }
    }
  }

  // ---- any number of runs ----

  /** A fresh database after runs that got `cuts[0]`, `cuts[1]`, ... calls. */
  function After(ms: seq<Migration>, cuts: seq<nat>): Db {
    if cuts == [] then FRESH else Start(After(ms, cuts[..|cuts| - 1]), ms, cuts[|cuts| - 1]).db
  }

  /** Where those runs stop, reckoned from the cut positions alone, up to the first cut in a gap. */
  function Reached(ms: seq<Migration>, cuts: seq<nat>): (stop: Stop)
    ensures stop.at <= |ms|
  {
    if cuts == [] then Stop(0, false)
    else
      var before := Reached(ms, cuts[..|cuts| - 1]);
      if before.gap then before else CutAt(ms, before.at, cuts[|cuts| - 1])
  }

  function Last(cuts: seq<nat>): nat
    requires cuts != []
  {
    cuts[|cuts| - 1]
  }

  /** What the last run reports. */
  function LastRun(ms: seq<Migration>, cuts: seq<nat>): Run
    requires cuts != []
  {
    Start(After(ms, cuts[..|cuts| - 1]), ms, Last(cuts))
  }

  lemma FreshIsClean(ms: seq<Migration>)
    ensures Clean(FRESH, ms, 0)
  {
  }

  /**
   From a fresh database, over any number of runs cut after any call but never between a migration's
   statements and its record: exactly the first migrations are recorded, each ran exactly once and in order,
   and a run that is not cut records all of them.
   */
  lemma {:induction false} ResumesExactly(ms: seq<Migration>, cuts: seq<nat>)
    requires Proper(ms)
    ensures var stop := Reached(ms, cuts);
            && (!stop.gap ==> Clean(After(ms, cuts), ms, stop.at))
            && (!stop.gap && cuts != [] && LastRun(ms, cuts).report.Ok? ==> stop.at == |ms|)
            && (!stop.gap && cuts != [] && Last(cuts) >= 3 + 2 * |ms| ==> LastRun(ms, cuts).report.Ok?)
    decreases |cuts|
  {
    if cuts == [] {
      FreshIsClean(ms);
    } else {
      var before := cuts[..|cuts| - 1];
      ResumesExactly(ms, before);
      if !Reached(ms, before).gap {
        RunFromClean(After(ms, before), ms, Reached(ms, before).at, Last(cuts));
        hide Start, Clean, Gap, CutAt, Proper;
      }
    }
  }

  // ---- a cut in the gap ----

  /** The k-th migration's statements ran a second time right after the first. */
  ghost predicate Twice(db: Db, ms: seq<Migration>, k: nat) {
    k < |ms| && HasStatements(ms[k]) && db.recorded != [] && Ran(ms, k) + [ms[k].name, ms[k].name] <= db.ran
  }

  /** Every migration is recorded and only the first one ran. */
  ghost predicate Seeded(db: Db, ms: seq<Migration>) {
    ms != [] && db.recorded == Names(ms) && db.ran == [ms[0].name]
  }

  lemma ForwardCases(db: Db, ms: seq<Migration>, i: nat, already: set<string>, applied: seq<string>, calls: nat)
    requires i < |ms|
    ensures var run := Forward(db, ms, i, already, applied, calls);
            if ms[i].name in already then run == Forward(db, ms, i + 1, already, applied, calls)
            else || run.db == db || run.db == Execute(db, ms[i])
                 || (calls >= Need(ms[i])
                     && run == Forward(Advance(db, ms[i]), ms, i + 1, already, applied + [ms[i].name], calls - Need(ms[i])))
  {
    hide HasStatements, Quotable, Execute, Record;
  }

  /** `later` ran everything `db` did, and no record was lost. */
  predicate Grown(db: Db, later: Db) {
    db.ran <= later.ran && (db.recorded != [] ==> later.recorded != [])
  }

  lemma StepsGrow(db: Db, m: Migration)
    ensures Grown(db, Execute(db, m)) && Grown(db, Advance(db, m)) && Grown(db, db)
  {
    hide HasStatements;
  }

  lemma GrownTwice(a: Db, b: Db, c: Db)
    requires Grown(a, b) && Grown(b, c)
    ensures Grown(a, c)
  {
  }

  lemma ForwardEnds(db: Db, ms: seq<Migration>, already: set<string>, applied: seq<string>, calls: nat)
    ensures Grown(db, Forward(db, ms, |ms|, already, applied, calls).db)
  {
  }

  lemma {:induction false} ForwardGrows(db: Db, ms: seq<Migration>, i: nat, already: set<string>, applied: seq<string>, calls: nat)
    requires i <= |ms|
    ensures Grown(db, Forward(db, ms, i, already, applied, calls).db)
    decreases |ms| - i
  {
    hide *;
    if i == |ms| {
      ForwardEnds(db, ms, already, applied, calls);
    } else {
      ForwardCases(db, ms, i, already, applied, calls);
      StepsGrow(db, ms[i]);
      if ms[i].name in already {
        ForwardGrows(db, ms, i + 1, already, applied, calls);
      } else if calls >= Need(ms[i]) {
        var next := Advance(db, ms[i]);
        ForwardGrows(next, ms, i + 1, already, applied + [ms[i].name], calls - Need(ms[i]));
        GrownTwice(db, next, Forward(next, ms, i + 1, already, applied + [ms[i].name], calls - Need(ms[i])).db);
      }
    }
  }

  lemma TwiceGrows(db: Db, later: Db, ms: seq<Migration>, k: nat)
    requires Twice(db, ms, k) && Grown(db, later)
    ensures Twice(later, ms, k)
  {
    hide HasStatements, Ran;
  }

  lemma TwiceRecorded(db: Db, ms: seq<Migration>, k: nat)
    requires Twice(db, ms, k)
    ensures db.recorded != [] && Twice(db.(tracking := true), ms, k)
  {
    hide HasStatements, Ran;
  }

  lemma RunFromTwice(db: Db, ms: seq<Migration>, k: nat, calls: nat)
    requires Twice(db, ms, k)
    ensures Twice(Start(db, ms, calls).db, ms, k)
  {
    hide *;
    TwiceRecorded(db, ms, k);
    if calls < 2 {
      CutEarly(db, ms, calls);
    } else {
      var tracked := db.(tracking := true);
      Resumes(db, ms, calls);
      PendingMeans(Start(db, ms, calls), tracked, ms, Names0(db.recorded), calls - 2);
      ForwardGrows(tracked, ms, 0, Names0(db.recorded), [], calls - 2);
      TwiceGrows(tracked, Start(db, ms, calls).db, ms, k);
    }
  }

  lemma {:induction false} RecordAllNew(recorded: seq<string>, names: seq<string>)
    requires forall j, k | 0 <= j < k < |names| :: names[j] != names[k]
    requires forall k | 0 <= k < |names| :: names[k] !in recorded
    ensures RecordAll(recorded, names) == recorded + names
    decreases |names|
  {
    if names != [] {
      RecordAllNew(recorded + [names[0]], names[1..]);
      assert recorded + [names[0]] + names[1..] == recorded + names;
    } else {
      assert recorded + names == recorded;
    }
  }

  /**
   A cut between the first migration and its record: the next run with four calls takes the database for an
   adopted one and records every migration as applied, running none.
   */
  lemma RunFromGapAtFirst(db: Db, ms: seq<Migration>, calls: nat)
    requires Proper(ms) && Gap(db, ms, 0)
    ensures var run := Start(db, ms, calls);
            if calls >= 4 then Seeded(run.db, ms) && run.report == Ok(Report([], Names(ms)))
            else Gap(run.db, ms, 0) && run.report.Threw?
  {
    assert db.recorded == [] && db.ran == [ms[0].name] by { assert Names(ms)[..0] == []; }
    if calls < 3 {
      CutEarly(db, ms, calls);
    } else {
      Adopts(db, ms, calls);
      assert forall j | 0 <= j < |ms| :: Names(ms)[j] == ms[j].name;
      RecordAllNew([], Names(ms));
    }
    hide Start, RecordAll, HasStatements, Names;
  }

  lemma RunFromSeeded(db: Db, ms: seq<Migration>, calls: nat)
    requires Proper(ms) && Seeded(db, ms)
    ensures Seeded(Start(db, ms, calls).db, ms)
  {
    var tracked := db.(tracking := true);
    if calls < 2 {
      CutEarly(db, ms, calls);
    } else {
      assert Names(ms)[..|ms|] == Names(ms);
      RecordedNames(ms, |ms|);
      Resumes(db, ms, calls);
      PendingMeans(Start(db, ms, calls), tracked, ms, Names0(db.recorded), calls - 2);
      SkipRecorded(tracked, ms, 0, |ms|, Names0(db.recorded), [], calls - 2);
    }
  }

  lemma GapFacts(db: Db, ms: seq<Migration>, k: nat)
    requires Proper(ms) && Gap(db, ms, k) && k > 0
    ensures k < |ms| && db.recorded != [] && Gap(db.(tracking := true), ms, k) && Quotable(ms[k].name) && Need(ms[k]) == 2
    ensures forall j | 0 <= j < k :: ms[j].name in Names0(db.recorded)
    ensures ms[k].name !in Names0(db.recorded)
    ensures Twice(Execute(db.(tracking := true), ms[k]), ms, k) && Twice(Advance(db.(tracking := true), ms[k]), ms, k)
  {
    hide *;
    GapNames(db, ms, k);
    GapRepeats(db, ms, k);
  }

  lemma GapNames(db: Db, ms: seq<Migration>, k: nat)
    requires Proper(ms) && Gap(db, ms, k) && k > 0
    ensures k < |ms| && db.recorded != [] && Gap(db.(tracking := true), ms, k) && Quotable(ms[k].name) && Need(ms[k]) == 2
    ensures forall j | 0 <= j < k :: ms[j].name in Names0(db.recorded)
    ensures ms[k].name !in Names0(db.recorded)
  {
    RecordedNames(ms, k);
    hide HasStatements, Names, Names0, Ran;
  }

  lemma GapRepeats(db: Db, ms: seq<Migration>, k: nat)
    requires Gap(db, ms, k) && db.recorded != []
    ensures Twice(Execute(db.(tracking := true), ms[k]), ms, k) && Twice(Advance(db.(tracking := true), ms[k]), ms, k)
  {
    hide HasStatements, Names, Ran;
    var again := db.ran + [ms[k].name];
    assert again == Ran(ms, k) + [ms[k].name, ms[k].name];
  }

  /** A cut between a later migration and its record: the next run with three calls runs it again. */
  lemma RunFromLaterGap(db: Db, ms: seq<Migration>, k: nat, calls: nat)
    requires Proper(ms) && Gap(db, ms, k) && k > 0
    ensures var run := Start(db, ms, calls);
            if calls >= 3 then Twice(run.db, ms, k) else Gap(run.db, ms, k) && run.report.Threw?
  {
    hide *;
    GapFacts(db, ms, k);
    if calls < 2 {
      CutEarly(db, ms, calls);
    } else {
      var tracked, already := db.(tracking := true), Names0(db.recorded);
      Resumes(db, ms, calls);
      PendingMeans(Start(db, ms, calls), tracked, ms, already, calls - 2);
      SkipRecorded(tracked, ms, 0, k, already, [], calls - 2);
      ForwardOne(tracked, ms, k, already, [], calls - 2);
      if calls >= 4 {
        ForwardGrows(Advance(tracked, ms[k]), ms, k + 1, already, [] + [ms[k].name], calls - 2 - 2);
        TwiceGrows(Advance(tracked, ms[k]), Start(db, ms, calls).db, ms, k);
      }
    }
  }

  // ---- exactly once ----

  /** The state a cut in the k-th gap leaves behind, and what later runs make of it. */
  ghost predicate Broken(db: Db, ms: seq<Migration>, k: nat) {
    Gap(db, ms, k) || (if k == 0 then Seeded(db, ms) else Twice(db, ms, k))
  }

  lemma BrokenStays(db: Db, ms: seq<Migration>, k: nat, calls: nat)
    requires Proper(ms) && Broken(db, ms, k)
    ensures var run := Start(db, ms, calls);
            && Broken(run.db, ms, k)
            && (run.report.Ok? ==> if k == 0 then Seeded(run.db, ms) else Twice(run.db, ms, k))
  {
    if k == 0 {
      if Gap(db, ms, 0) { RunFromGapAtFirst(db, ms, calls); } else { RunFromSeeded(db, ms, calls); }
    } else {
      if Gap(db, ms, k) { RunFromLaterGap(db, ms, k, calls); } else { RunFromTwice(db, ms, k, calls); }
    }
  }

  lemma {:induction false} BrokenAfter(ms: seq<Migration>, cuts: seq<nat>)
    requires Proper(ms) && Reached(ms, cuts).gap
    ensures Broken(After(ms, cuts), ms, Reached(ms, cuts).at)
    ensures cuts != [] && LastRun(ms, cuts).report.Ok? ==>
              var k := Reached(ms, cuts).at;
              if k == 0 then Seeded(After(ms, cuts), ms) else Twice(After(ms, cuts), ms, k)
    decreases |cuts|
  {
    var before := cuts[..|cuts| - 1];
    ResumesExactly(ms, before);
    if Reached(ms, before).gap {
      BrokenAfter(ms, before);
      BrokenStays(After(ms, before), ms, Reached(ms, before).at, Last(cuts));
    } else {
      RunFromClean(After(ms, before), ms, Reached(ms, before).at, Last(cuts));
    }
    hide Start, Clean, Gap, CutAt, Proper, Seeded, Twice;
  }

  lemma {:induction false} RanGrows(ms: seq<Migration>, k: nat, n: nat)
    requires k <= n <= |ms|
    ensures Ran(ms, k) <= Ran(ms, n)
    decreases n
  {
    hide HasStatements;
    if k < n { RanGrows(ms, k, n - 1); }
  }

  lemma {:induction false} RanAreNames(ms: seq<Migration>, k: nat, name: string)
    requires k <= |ms| && name in Ran(ms, k)
    ensures exists j | 0 <= j < k :: ms[j].name == name
    decreases k
  {
    hide HasStatements;
    if name in Ran(ms, k - 1) { RanAreNames(ms, k - 1, name); } else { assert ms[k - 1].name == name; }
  }

  /** No name stands twice in a row right after the first k. */
  lemma {:induction false} NeverTwice(ms: seq<Migration>, k: nat, n: nat)
    requires Proper(ms) && k < n <= |ms| && HasStatements(ms[k])
    ensures !(Ran(ms, k) + [ms[k].name, ms[k].name] <= Ran(ms, n))
    decreases n
  {
    hide HasStatements;
    var twice := Ran(ms, k) + [ms[k].name, ms[k].name];
    if n == k + 1 {
      assert |Ran(ms, n)| < |twice|;
    } else {
      NeverTwice(ms, k, n - 1);
      assert twice[|twice| - 1] == ms[k].name != ms[n - 1].name;
    }
  }

  /** No file but the first has anything to run. */
  predicate OnlyFirstRuns(ms: seq<Migration>) {
    forall j | 0 < j < |ms| :: !HasStatements(ms[j])
  }

  lemma {:induction false} RanOfFirstOnly(ms: seq<Migration>, k: nat)
    requires Proper(ms) && 0 < k <= |ms|
    ensures OnlyFirstRuns(ms) ==> Ran(ms, k) == [ms[0].name]
    ensures !OnlyFirstRuns(ms) && k == |ms| ==> |Ran(ms, k)| > 1
    decreases k
  {
    assert Ran(ms, 1) == [ms[0].name];
    if OnlyFirstRuns(ms) {
      if k > 1 { RanOfFirstOnly(ms, k - 1); }
    } else if k == |ms| {
      var j :| 0 < j < |ms| && HasStatements(ms[j]);
      RanGrows(ms, 1, j);
      RanGrows(ms, j + 1, |ms|);
    }
    hide HasStatements;
  }

  /**
   Over any runs from a fresh database that end with one that was not cut: every migration with statements
   ran exactly once and in order, exactly when no run was cut between a migration's statements and its record,
   or the first such cut was the first migration's and no other file has anything to run.
   */
  lemma ExactlyOnceExactly(ms: seq<Migration>, cuts: seq<nat>)
    requires Proper(ms) && cuts != [] && LastRun(ms, cuts).report.Ok?
    ensures After(ms, cuts).ran == Ran(ms, |ms|)
            <==> !Reached(ms, cuts).gap || (Reached(ms, cuts).at == 0 && OnlyFirstRuns(ms))
  {
    ResumesExactly(ms, cuts);
    hide OnlyFirstRuns, Start;
    RanOfFirstOnly(ms, |ms|);
    if Reached(ms, cuts).gap {
      BrokenAfter(ms, cuts);
      var k := Reached(ms, cuts).at;
      if k > 0 { NeverTwice(ms, k, |ms|); }
    }
    hide HasStatements;
  }

  // ---- applied never runs ahead of recorded by more than one ----

  predicate SameNames(a: seq<string>, b: seq<string>) {
    (forall name | name in a :: name in b) && forall name | name in b :: name in a
  }

  /** What ran is what is recorded, or that and the next one, leaving aside how often each ran. */
  predicate InStep(db: Db, ms: seq<Migration>, k: nat) {
    && k <= |ms| && db.recorded == Names(ms)[..k]
    && (SameNames(db.ran, Ran(ms, k)) || (k < |ms| && SameNames(db.ran, Ran(ms, k + 1))))
  }

  lemma StepInStep(db: Db, ms: seq<Migration>, i: nat)
    requires Proper(ms) && i < |ms| && InStep(db, ms, i)
    ensures HasStatements(ms[i]) ==> InStep(Execute(db, ms[i]), ms, i)
    ensures InStep(Advance(db, ms[i]), ms, i + 1)
  {
    NameAt(ms, i);
    hide HasStatements, Names;
    assert Ran(ms, i + 1) == Ran(ms, i) + if HasStatements(ms[i]) then [ms[i].name] else [];
    var again := db.ran + [ms[i].name];
    assert forall name :: name in again <==> name in db.ran || name == ms[i].name;
  }

  lemma {:induction false} ForwardInStep(db: Db, ms: seq<Migration>, i: nat, already: set<string>, applied: seq<string>, calls: nat)
    requires Proper(ms) && i <= |ms| && InStep(db, ms, i)
    requires forall j | i <= j < |ms| :: ms[j].name !in already
    ensures InStep(Forward(db, ms, i, already, applied, calls).db, ms, StopAt(ms, i, calls).at)
    decreases |ms| - i
  {
    hide *;
    if i == |ms| {
      InStepAtEnd(db, ms, already, applied, calls);
    } else {
      ProperQuotes(ms, i);
      ForwardOne(db, ms, i, already, applied, calls);
      StepInStep(db, ms, i);
      if calls >= Need(ms[i]) {
        StopAtOne(ms, i, calls);
        ForwardInStep(Advance(db, ms[i]), ms, i + 1, already, applied + [ms[i].name], calls - Need(ms[i]));
      } else {
        StopsHere(ms, i, calls);
      }
    }
  }

  lemma InStepAtEnd(db: Db, ms: seq<Migration>, already: set<string>, applied: seq<string>, calls: nat)
    requires InStep(db, ms, |ms|)
    ensures InStep(Forward(db, ms, |ms|, already, applied, calls).db, ms, StopAt(ms, |ms|, calls).at)
  {
    hide InStep;
  }

  lemma StopsHere(ms: seq<Migration>, i: nat, calls: nat)
    requires i < |ms| && calls < Need(ms[i])
    ensures StopAt(ms, i, calls).at == i && (calls == 1 ==> HasStatements(ms[i]))
  {
    hide HasStatements;
  }

  lemma InStepFacts(db: Db, ms: seq<Migration>, k: nat)
    requires Proper(ms) && InStep(db, ms, k) && k > 0
    ensures db.recorded != [] && InStep(db.(tracking := true), ms, k)
    ensures forall j | 0 <= j < k :: ms[j].name in Names0(db.recorded)
    ensures forall j | k <= j < |ms| :: ms[j].name !in Names0(db.recorded)
  {
    RecordedNames(ms, k);
    hide HasStatements, Ran, SameNames, Names, Names0;
  }

  lemma RunInStep(db: Db, ms: seq<Migration>, k: nat, calls: nat) returns (n: nat)
    requires Proper(ms) && InStep(db, ms, k) && k > 0
    ensures InStep(Start(db, ms, calls).db, ms, n) && n >= k
  {
    hide *;
    InStepFacts(db, ms, k);
    if calls < 2 {
      CutEarly(db, ms, calls);
      n := k;
    } else {
      var tracked, already := db.(tracking := true), Names0(db.recorded);
      Resumes(db, ms, calls);
      PendingMeans(Start(db, ms, calls), tracked, ms, already, calls - 2);
      InStepBound(db, ms, k);
      SkipRecorded(tracked, ms, 0, k, already, [], calls - 2);
      ForwardInStep(tracked, ms, k, already, [], calls - 2);
      n := StopAt(ms, k, calls - 2).at;
    }
  }

  lemma InStepBound(db: Db, ms: seq<Migration>, k: nat)
    requires InStep(db, ms, k)
    ensures k <= |ms|
  {
  }

  lemma CleanInStep(db: Db, ms: seq<Migration>, k: nat)
    requires Clean(db, ms, k) || Gap(db, ms, k)
    ensures InStep(db, ms, k)
  {
    hide HasStatements, Names;
    if Gap(db, ms, k) { assert Ran(ms, k + 1) == Ran(ms, k) + [ms[k].name]; }
  }

  /**
   Over any runs cut after any call, unless the first cut in a gap was the first migration's: what ran is
   what is recorded, or that and the next one. (What a cut in the first gap leads to is `AdoptedTooEarly`.)
   */
  lemma {:induction false} AppliedInStep(ms: seq<Migration>, cuts: seq<nat>) returns (k: nat)
    requires Proper(ms) && Reached(ms, cuts) != Stop(0, true)
    ensures InStep(After(ms, cuts), ms, k) && (Reached(ms, cuts).gap ==> k > 0)
    decreases |cuts|
  {
    hide Start, Clean, Gap, CutAt, Proper, InStep;
    ResumesExactly(ms, cuts);
    if !Reached(ms, cuts).gap {
      k := Reached(ms, cuts).at;
      CleanInStep(After(ms, cuts), ms, k);
    } else {
      var before := cuts[..|cuts| - 1];
      ResumesExactly(ms, before);
      if Reached(ms, before).gap {
        k := AppliedInStep(ms, before);
        k := RunInStep(After(ms, before), ms, k, Last(cuts));
      } else {
        k := Reached(ms, cuts).at;
        RunFromClean(After(ms, before), ms, Reached(ms, before).at, Last(cuts));
        CleanInStep(After(ms, cuts), ms, k);
      }
    }
  }

  /**
   After a first cut in the first migration's gap, once any run gets four calls: every migration is recorded,
   only the first ever ran, and no later run changes that.
   */
  lemma {:induction false} AdoptedTooEarly(ms: seq<Migration>, cuts: seq<nat>, later: seq<nat>)
    requires Proper(ms) && Reached(ms, cuts) == Stop(0, true)
    requires exists j | 0 <= j < |later| :: later[j] >= 4
    ensures Seeded(After(ms, cuts + later), ms)
    decreases |later|
  {
    var all := cuts + later;
    var before := all[..|all| - 1];
    assert before == cuts + later[..|later| - 1] && Last(all) == later[|later| - 1];
    ReachedStays(ms, cuts, later[..|later| - 1]);
    BrokenAfter(ms, before);
    BrokenStays(After(ms, before), ms, 0, Last(all));
    if Last(all) >= 4 {
      if Gap(After(ms, before), ms, 0) {
        RunFromGapAtFirst(After(ms, before), ms, Last(all));
      } else {
        RunFromSeeded(After(ms, before), ms, Last(all));
      }
    } else {
      var j :| 0 <= j < |later| && later[j] >= 4;
      assert later[..|later| - 1][j] >= 4;
      AdoptedTooEarly(ms, cuts, later[..|later| - 1]);
      RunFromSeeded(After(ms, before), ms, Last(all));
    }
    hide Start, Gap, Proper, Seeded, Reached;
  }

  lemma {:induction false} ReachedStays(ms: seq<Migration>, cuts: seq<nat>, later: seq<nat>)
    requires Reached(ms, cuts).gap
    ensures Reached(ms, cuts + later) == Reached(ms, cuts)
    decreases |later|
  {
    if later == [] {
      assert cuts + later == cuts;
    } else {
      assert (cuts + later)[..|cuts + later| - 1] == cuts + later[..|later| - 1];
      ReachedStays(ms, cuts, later[..|later| - 1]);
    }
  }

  // ---- in step, exactly ----

  /** A first cut in the first migration's gap, and then a run that gets as far as adopting. */
  predicate Adopted(ms: seq<Migration>, cuts: seq<nat>) {
    cuts != [] && (Adopted(ms, cuts[..|cuts| - 1]) || (Reached(ms, cuts[..|cuts| - 1]) == Stop(0, true) && Last(cuts) >= 4))
  }

  /** A first cut in a later gap, and then a run that gets as far as that migration's statements. */
  predicate Reran(ms: seq<Migration>, cuts: seq<nat>) {
    cuts != []
    && (Reran(ms, cuts[..|cuts| - 1])
        || (Reached(ms, cuts[..|cuts| - 1]).gap && Reached(ms, cuts[..|cuts| - 1]).at > 0 && Last(cuts) >= 3))
  }

  /** What any runs leave behind, reckoned from the cut positions alone. */
  ghost predicate LeftBehind(db: Db, ms: seq<Migration>, stop: Stop, adopted: bool, reran: bool) {
    && (adopted ==> stop == Stop(0, true)) && (reran ==> stop.gap && stop.at > 0)
    && (if adopted then Seeded(db, ms) else if reran then Twice(db, ms, stop.at)
        else if stop.gap then Gap(db, ms, stop.at) else Clean(db, ms, stop.at))
  }

  lemma {:induction false} StateAfter(ms: seq<Migration>, cuts: seq<nat>)
    requires Proper(ms)
    ensures LeftBehind(After(ms, cuts), ms, Reached(ms, cuts), Adopted(ms, cuts), Reran(ms, cuts))
    decreases |cuts|
  {
    hide *;
    if cuts == [] {
      NothingLeft(ms, cuts);
    } else {
      var before := cuts[..|cuts| - 1];
      StateAfter(ms, before);
      OneRunMore(ms, cuts);
      LeftBehindNext(After(ms, before), ms, Reached(ms, before), Adopted(ms, before), Reran(ms, before), Last(cuts));
    }
  }

  lemma NothingLeft(ms: seq<Migration>, cuts: seq<nat>)
    requires cuts == []
    ensures LeftBehind(After(ms, cuts), ms, Reached(ms, cuts), Adopted(ms, cuts), Reran(ms, cuts))
  {
    FreshIsClean(ms);
  }

  lemma OneRunMore(ms: seq<Migration>, cuts: seq<nat>)
    requires cuts != []
    ensures var before := cuts[..|cuts| - 1];
            var stop := Reached(ms, before);
            && After(ms, cuts) == Start(After(ms, before), ms, Last(cuts)).db
            && Reached(ms, cuts) == (if stop.gap then stop else CutAt(ms, stop.at, Last(cuts)))
            && Adopted(ms, cuts) == (Adopted(ms, before) || (stop == Stop(0, true) && Last(cuts) >= 4))
            && Reran(ms, cuts) == (Reran(ms, before) || (stop.gap && stop.at > 0 && Last(cuts) >= 3))
  {
    hide Start, CutAt;
  }

  lemma LeftBehindNext(db: Db, ms: seq<Migration>, stop: Stop, adopted: bool, reran: bool, calls: nat)
    requires Proper(ms) && stop.at <= |ms| && LeftBehind(db, ms, stop, adopted, reran)
    ensures LeftBehind(Start(db, ms, calls).db, ms, if stop.gap then stop else CutAt(ms, stop.at, calls),
                       adopted || (stop == Stop(0, true) && calls >= 4), reran || (stop.gap && stop.at > 0 && calls >= 3))
  {
    if adopted {
      RunFromSeeded(db, ms, calls);
    } else if reran {
      RunFromTwice(db, ms, stop.at, calls);
    } else if !stop.gap {
      RunFromClean(db, ms, stop.at, calls);
    } else if stop.at == 0 {
      RunFromGapAtFirst(db, ms, calls);
    } else {
      RunFromLaterGap(db, ms, stop.at, calls);
    }
    hide Start, Clean, Gap, CutAt, Proper, Seeded, Twice;
  }

  lemma SeededInStep(db: Db, ms: seq<Migration>, k: nat)
    requires Proper(ms) && Seeded(db, ms)
    ensures InStep(db, ms, k) <==> k == |ms| && OnlyFirstRuns(ms)
    ensures OnceInStep(db, ms, k) <==> k == |ms| && OnlyFirstRuns(ms)
  {
    RanOfFirstOnly(ms, |ms|);
    assert |Names(ms)| == |ms| && Names(ms)[..|ms|] == Names(ms);
    assert k < |ms| ==> |Names(ms)[..k]| == k;
    if !OnlyFirstRuns(ms) {
      var j :| 0 < j < |ms| && HasStatements(ms[j]);
      hide HasStatements, OnlyFirstRuns;
      NamesRan(ms, j, |ms|);
      assert ms[j].name in Ran(ms, |ms|) && ms[j].name !in db.ran;
    }
    hide HasStatements, OnlyFirstRuns, Names, Ran;
  }

  lemma {:induction false} NamesRan(ms: seq<Migration>, j: nat, n: nat)
    requires j < n <= |ms| && HasStatements(ms[j])
    ensures ms[j].name in Ran(ms, n)
    decreases n
  {
    hide HasStatements;
    if j < n - 1 { NamesRan(ms, j, n - 1); }
  }

  /**
   In step, exactly: over any runs, what ran is what is recorded, or that and the next one, if and only if the runner
   did not take an unfinished first migration for an adopted database, or no other file has anything to run.
   */
  lemma AppliedInStepExactly(ms: seq<Migration>, cuts: seq<nat>)
    requires Proper(ms)
    ensures (exists k :: InStep(After(ms, cuts), ms, k)) <==> !Adopted(ms, cuts) || OnlyFirstRuns(ms)
  {
    hide *;
    StateAfter(ms, cuts);
    LeftBehindMeans(After(ms, cuts), ms, Reached(ms, cuts), Adopted(ms, cuts), Reran(ms, cuts));
    if Adopted(ms, cuts) {
      SeededInStep(After(ms, cuts), ms, |ms|);
      forall k { SeededInStep(After(ms, cuts), ms, k); }
    } else if Reached(ms, cuts) == Stop(0, true) {
      CleanInStep(After(ms, cuts), ms, 0);
    } else {
      var k := AppliedInStep(ms, cuts);
    }
  }

  lemma LeftBehindMeans(db: Db, ms: seq<Migration>, stop: Stop, adopted: bool, reran: bool)
    requires LeftBehind(db, ms, stop, adopted, reran)
    ensures adopted ==> Seeded(db, ms)
    ensures !adopted && reran ==> Twice(db, ms, stop.at)
    ensures !adopted && !reran ==> if stop.gap then Gap(db, ms, stop.at) else Clean(db, ms, stop.at)
    ensures reran ==> !adopted && stop.at > 0
  {
    hide Seeded, Twice, Gap, Clean;
  }

  /** Exactly the recorded ones ran, once each and in order, or those and the next one. */
  predicate OnceInStep(db: Db, ms: seq<Migration>, k: nat) {
    && k <= |ms| && db.recorded == Names(ms)[..k]
    && (db.ran == Ran(ms, k) || (k < |ms| && HasStatements(ms[k]) && db.ran == Ran(ms, k) + [ms[k].name]))
  }

  ghost predicate StaysOnce(ms: seq<Migration>, cuts: seq<nat>) {
    exists k :: OnceInStep(After(ms, cuts), ms, k)
  }

  lemma TwiceIsNotOnce(db: Db, ms: seq<Migration>, k: nat, n: nat)
    requires Proper(ms) && Twice(db, ms, k)
    ensures !OnceInStep(db, ms, n)
  {
    if OnceInStep(db, ms, n) {
      hide HasStatements, Names;
      var m := if db.ran == Ran(ms, n) then n else n + 1;
      assert m <= |ms| && db.ran == Ran(ms, m);
      if m <= k { RanGrows(ms, m, k); } else { NeverTwice(ms, k, m); }
    }
  }

  lemma LeftIsOnce(db: Db, ms: seq<Migration>, k: nat)
    requires Clean(db, ms, k) || Gap(db, ms, k)
    ensures OnceInStep(db, ms, k)
  {
    hide HasStatements, Names, Ran;
  }

  /**
   The same with every repetition counted: what ran is, once each and in order, what is recorded, or that and the next
   one, if and only if no later gap was run into again and no adoption came too early, or that one left nothing out.
   */
  lemma OnceInStepExactly(ms: seq<Migration>, cuts: seq<nat>)
    requires Proper(ms)
    ensures StaysOnce(ms, cuts) <==> !Reran(ms, cuts) && (!Adopted(ms, cuts) || OnlyFirstRuns(ms))
  {
    hide Clean, Gap, Seeded, Twice, LeftBehind, OnceInStep, Reached, Adopted, Reran, After, Proper, OnlyFirstRuns;
    StateAfter(ms, cuts);
    var db, stop := After(ms, cuts), Reached(ms, cuts);
    LeftBehindMeans(db, ms, stop, Adopted(ms, cuts), Reran(ms, cuts));
    if Adopted(ms, cuts) {
      SeededInStep(db, ms, |ms|);
      forall k { SeededInStep(db, ms, k); }
    } else if Reran(ms, cuts) {
      forall k { TwiceIsNotOnce(db, ms, stop.at, k); }
    } else {
      LeftIsOnce(db, ms, stop.at);
    }
  }

  lemma {:induction false} FaultsStay(ms: seq<Migration>, cuts: seq<nat>, n: nat)
    requires n <= |cuts|
    ensures Adopted(ms, cuts[..n]) ==> Adopted(ms, cuts)
    ensures Reran(ms, cuts[..n]) ==> Reran(ms, cuts)
    decreases |cuts|
  {
    hide Reached;
    if n < |cuts| {
      FaultsStay(ms, cuts[..|cuts| - 1], n);
      assert cuts[..|cuts| - 1][..n] == cuts[..n];
    } else {
      assert cuts[..n] == cuts;
    }
  }

  /** And when that holds at the end it held after every run. */
  lemma OnceInStepThroughout(ms: seq<Migration>, cuts: seq<nat>)
    requires Proper(ms)
    ensures (forall n | 0 <= n <= |cuts| :: StaysOnce(ms, cuts[..n]))
            <==> !Reran(ms, cuts) && (!Adopted(ms, cuts) || OnlyFirstRuns(ms))
  {
    hide *;
    assert cuts[..|cuts|] == cuts;
    OnceInStepExactly(ms, cuts);
    forall n | 0 <= n <= |cuts|
      ensures StaysOnce(ms, cuts) ==> StaysOnce(ms, cuts[..n])
    {
      OnceInStepExactly(ms, cuts[..n]);
      FaultsStay(ms, cuts, n);
    }
  }

  /** A fresh database's run that gets four calls: three to set up, one for the first migration, none to record it. */
  lemma FirstGapIsReached(ms: seq<Migration>)
    requires Proper(ms)
    ensures Reached(ms, [4]) == Stop(0, true)
  {
    hide HasStatements;
    assert [4][..0] == [];
    assert StopAt(ms, 0, 1) == Stop(0, true);
  }

  const TWO_FILES: seq<Migration> := [Migration("0001", "x", true), Migration("0002", "y", false)]

  /** And then any run with four calls records both of two files, of which only the first ever ran. */
  lemma SecondFileNeverRuns()
    ensures Proper(TWO_FILES) && HasStatements(TWO_FILES[1])
    ensures After(TWO_FILES, [4, 4]).recorded == ["0001", "0002"] && After(TWO_FILES, [4, 4]).ran == ["0001"]
  {
    SqlComments.PlainTextStays("x");
    SqlComments.PlainTextStays("y");
    hide SqlComments.Strip;
    FirstGapIsReached(TWO_FILES);
    assert [4] + [4] == [4, 4] && [4][0] >= 4;
    AdoptedTooEarly(TWO_FILES, [4], [4]);
    assert Names(TWO_FILES) == ["0001", "0002"];
  }
}
