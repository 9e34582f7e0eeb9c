/** The merge of source rows into the live accounts database, and the check that
    follows it (backend/scripts/migrate_accounts_to_postgres.py:307-346, 462-648). */
module AccountsMerge {
  import opened Text
  import opened AccountsTables
  import opened EmailParking
  import opened Displacement
  import opened MergePlan

  /** One value for each of the five tables. */
  datatype PerTable<T> = PerTable(accounts: T, apiKeys: T, loginTokens: T, sessionOwners: T, usageCounters: T) {
    function At(t: TableName): T {
      match t
      case Accounts => accounts
      case ApiKeys => apiKeys
      case LoginTokens => loginTokens
      case SessionOwners => sessionOwners
      case UsageCounters => usageCounters
    }

    function With(t: TableName, v: T): PerTable<T> {
      match t
      case Accounts => this.(accounts := v)
      case ApiKeys => this.(apiKeys := v)
      case LoginTokens => this.(loginTokens := v)
      case SessionOwners => this.(sessionOwners := v)
      case UsageCounters => this.(usageCounters := v)
    }
  }

  type Counts = map<TableName, nat>

  datatype Mode = InsertMode | MergeMode | DryRunMode

  datatype Report = Report(mode: Mode, before: Counts, after: Counts,
                           inserted: PerTable<nat>, skipped: PerTable<nat>, conflicts: seq<EmailConflict>,
                           migrated: seq<string>, skippedEmails: seq<string>, displaced: seq<Displaced>)

  /** A merge reports, or fails with nothing written. */
  datatype Outcome = Done(report: Report) | TargetNotEmpty | SchemaMissing | ConstraintViolation

  datatype Options = Options(force: bool, dryRun: bool, preferSource: bool)

  function CountRows(db: Db): Counts { map t | t in db :: |db[t]| }

  predicate NonEmpty(db: Db) { exists t :: t in db && db[t] != [] }

  predicate Missing(db: Db, data: Db) { exists t :: t in data && t !in db }

  /** Every reason to stop before the first write. */
  predicate Startable(db: Db, data: Db, o: Options) { (o.force || !NonEmpty(db)) && !Missing(db, data) }

  /** Account emails once `_displace_conflicting_emails` has run, if it runs. */
  function Moved(db: Db, data: Db, o: Options): Moving {
    if o.preferSource && Accounts in data
    then MoveRows(StartMoving(RowsOf(db, Accounts)), data[Accounts], o.dryRun)
    else StartMoving(RowsOf(db, Accounts))
  }

  /** The tables the planner reads. */
  function Base(db: Db, data: Db, o: Options): Db {
    if Accounts in db then db[Accounts := Moved(db, data, o).accounts] else db
  }

  /** The live account ids, read only when the source carries accounts at all. */
  function KnownBefore(db: Db, data: Db): set<string> {
    if Accounts in data then Ids(RowsOf(db, Accounts)) else {}
  }

  /** Every table is planned against its own live rows; later tables share with the
      accounts table nothing but the ids it ends up knowing. */
  function Plans(base: Db, data: Db, knownIds: set<string>): PerTable<Plan> {
    var accounts := PlanOf(Accounts, RowsOf(data, Accounts), RowsOf(base, Accounts), knownIds);
    PerTable(accounts, ChildPlan(ApiKeys, base, data, accounts.known),
             ChildPlan(LoginTokens, base, data, accounts.known),
             ChildPlan(SessionOwners, base, data, accounts.known), ChildPlan(UsageCounters, base, data, accounts.known))
  }

  function ChildPlan(t: TableName, base: Db, data: Db, known: set<string>): Plan {
    PlanOf(t, RowsOf(data, t), RowsOf(base, t), known)
  }

  function PlansFor(db: Db, data: Db, o: Options): PerTable<Plan> {
    Plans(Base(db, data, o), data, KnownBefore(db, data))
  }

  function Payloads(plans: PerTable<Plan>): PerTable<seq<Row>> {
    PerTable(plans.accounts.payload, plans.apiKeys.payload, plans.loginTokens.payload,
             plans.sessionOwners.payload, plans.usageCounters.payload)
  }

  function Sizes(p: PerTable<seq<Row>>): PerTable<nat> {
    PerTable(|p.accounts|, |p.apiKeys|, |p.loginTokens|, |p.sessionOwners|, |p.usageCounters|)
  }

  function Skips(p: PerTable<Plan>): PerTable<nat> {
    PerTable(p.accounts.skipped, p.apiKeys.skipped, p.loginTokens.skipped,
             p.sessionOwners.skipped, p.usageCounters.skipped)
  }

  /** The tables with every payload inserted. */
  function WithPayloads(base: Db, payloads: PerTable<seq<Row>>): Db { map t | t in base :: base[t] + payloads.At(t) }

  /** The tables a merge leaves behind: unchanged unless it runs to its end. */
  function Merged(db: Db, data: Db, o: Options): Db {
    if !Startable(db, data, o) || Moved(db, data, o).failed then db else Written(db, data, o)
  }

  /** What the transaction writes: nothing on a dry run, else every payload. */
  function Written(db: Db, data: Db, o: Options): Db {
    if o.dryRun then Base(db, data, o) else WithPayloads(Base(db, data, o), Payloads(PlansFor(db, data, o)))
  }

  /** What a report keeps of a list of emails. */
  function Filled(emails: seq<string>): seq<string> {
    if emails == [] then []
    else
      var front, last := Filled(emails[..|emails| - 1]), emails[|emails| - 1];
      if last == "" then front else front + [last]
  }

  function ReportOf(db: Db, data: Db, o: Options): Report {
    var plans := PlansFor(db, data, o);
    Report(if o.dryRun then DryRunMode else if o.force then MergeMode else InsertMode,
           CountRows(db), if o.dryRun then CountRows(db) else CountRows(Merged(db, data, o)),
           Sizes(Payloads(plans)), Skips(plans),
           plans.accounts.conflicts, Filled(plans.accounts.migrated), Filled(plans.accounts.skippedEmails),
           Moved(db, data, o).displaced)
  }

  function OutcomeOf(db: Db, data: Db, o: Options): Outcome {
    if !o.force && NonEmpty(db) then TargetNotEmpty
    else if Missing(db, data) then SchemaMissing
    else if Moved(db, data, o).failed then ConstraintViolation
    else Done(ReportOf(db, data, o))
  }

  // ---- verification ---------------------------------------------------------

  /** Whether the check looks for this source row at all. */
  predicate Excused(t: TableName, row: Row, conflictIds: set<string>) {
    if t.Accounts? then row.id in conflictIds else row.accountId in conflictIds
  }

  function Absent(t: TableName, rows: seq<Row>, existing: set<seq<string>>,
                  conflictIds: set<string>): seq<seq<string>> {
    if rows == [] then []
    else
      var front, row := Absent(t, rows[..|rows| - 1], existing, conflictIds), rows[|rows| - 1];
      if Excused(t, row, conflictIds) || PrimaryKey(t, row) in existing then front else front + [PrimaryKey(t, row)]
  }

  function AbsentKeys(db: Db, data: Db, conflictIds: set<string>, t: TableName): seq<seq<string>> {
    if t in db then Absent(t, RowsOf(data, t), PrimaryKeys(t, db[t]), conflictIds) else []
  }

  function ConflictIds(conflicts: seq<EmailConflict>): set<string> { set c | c in conflicts :: c.sqliteId }

  /** `verify_source_present`: the tables with absent keys, each with those keys. */
  function MissingAfter(db: Db, data: Db, conflicts: seq<EmailConflict>): map<TableName, seq<seq<string>>> {
    map t | t in data && AbsentKeys(db, data, ConflictIds(conflicts), t) != []
      :: AbsentKeys(db, data, ConflictIds(conflicts), t)
  }

  datatype Restore =
    | Restored(report: Report, advisory: map<TableName, seq<seq<string>>>)
    | Unverified(report: Report)
    | VerifyFailed(hard: seq<seq<string>>)
    | Failed(outcome: Outcome)

  /** The live database. */
  class Target {
    var tables: Db

    ghost predicate Valid() reads this { EnforcedDb(tables) }

    constructor (rows: Db)
      requires EnforcedDb(rows)
      ensures Valid() && tables == rows
    {
      tables := rows;
    }

    /** `conn.execute(tbl.insert(), payload)`: the database would refuse a payload
        that breaks a constraint, so the plan has to rule that out. */
    method Insert(t: TableName, payload: seq<Row>)
      requires t in tables && Enforced(t, tables[t] + payload)
      modifies this
      ensures tables == old(tables)[t := old(tables)[t] + payload]
    {
      tables := tables[t := tables[t] + payload];
    }

    /** `_displace_conflicting_emails`; `ok` is false when the database refuses an update. */
    method DisplaceConflictingEmails(rows: seq<Row>, dryRun: bool) returns (displaced: seq<Displaced>, ok: bool)
      requires Accounts in tables
      modifies this
      ensures var moved := MoveRows(StartMoving(old(tables)[Accounts]), rows, dryRun);
              && displaced == moved.displaced && ok == !moved.failed
              && tables == old(tables)[Accounts := moved.accounts]
    {
      ghost var start := StartMoving(tables[Accounts]);
      ghost var st := start;
      var owners := Owners(tables[Accounts]);
      var existing := owners.Keys;
      displaced, ok := [], true;
      var i := 0;
      while i < |rows|
        invariant 0 <= i <= |rows| && st == MoveRows(start, rows[..i], dryRun)
        invariant Accounts in tables && tables == old(tables)[Accounts := tables[Accounts]]
        invariant Moving(owners, existing, tables[Accounts], displaced, !ok) == st
      {
        MoveRowsNext(start, rows, i, dryRun);
        st := MoveStep(st, rows[i], dryRun);
        owners, existing, displaced, ok := DisplaceOne(rows[i], dryRun, owners, existing, displaced, ok);
        i := i + 1;
      }
      assert rows[..i] == rows;
    }

    /** The body of that loop; a refused update (`ok` false) ends the transaction. */
    method DisplaceOne(row: Row, dryRun: bool, owners0: map<string, string>, existing0: set<string>,
                       displaced0: seq<Displaced>, ok0: bool)
      returns (owners: map<string, string>, existing: set<string>, displaced: seq<Displaced>, ok: bool)
      requires Accounts in tables
      modifies this
      ensures Accounts in tables && tables == old(tables)[Accounts := tables[Accounts]]
      ensures Moving(owners, existing, tables[Accounts], displaced, !ok)
           == MoveStep(Moving(owners0, existing0, old(tables)[Accounts], displaced0, !ok0), row, dryRun)
    {
      owners, existing, displaced, ok := owners0, existing0, displaced0, ok0;
      var email := Norm(row.email);
      if !ok || row.id == "" || email == "" || email !in owners || owners[email] == "" || owners[email] == row.id {
        return;
      }
      var owner := owners[email];
      var parked := Park(owner, existing);
      if !dryRun {
        if HeldByOther(tables[Accounts], owner, parked) {
          ok := false;
          return;
        }
        tables := tables[Accounts := SetEmail(tables[Accounts], owner, parked)];
      }
      owners := (owners - {email})[parked := owner];
      existing := existing + {parked};
      displaced := displaced + [Displaced(owner, email, parked, row.id)];
    }

    /** One table's turn in `migrate`: plan, then insert unless this is a dry run. */
    method MergeTable(t: TableName, rows: seq<Row>, known: set<string>, dryRun: bool) returns (plan: Plan)
      requires t in tables && Enforced(t, tables[t])
      modifies this
      ensures plan == PlanOf(t, rows, old(tables)[t], known)
      ensures tables == if dryRun then old(tables) else old(tables)[t := old(tables)[t] + plan.payload]
    {
      plan := PlanTable(t, rows, tables[t], known);
      PlanKeepsConstraints(t, rows, tables[t], known);
      if plan.payload != [] && !dryRun {
        Insert(t, plan.payload);
      } else if plan.payload == [] {
        assert tables[t] + plan.payload == tables[t];
      }
    }

    /** `migrate`: one transaction over the five tables, in their fixed order. */
    method Migrate(data: Db, o: Options) returns (out: Outcome)
      requires Valid()
      modifies this
      ensures out == OutcomeOf(old(tables), data, o)
      ensures tables == Merged(old(tables), data, o)
      ensures Valid()
    {
      var before := CountRows(tables);
      if !o.force && NonEmpty(tables) {
        return TargetNotEmpty;
      }
      if Missing(tables, data) {
        return SchemaMissing;
      }
      var saved := tables;
      MergedEnforced(tables, data, o);
      var ok, p, displaced := Apply(data, o);
      if !ok {
        tables := saved;
        return ConstraintViolation;
      }
      var after := if o.dryRun then before else CountRows(tables);
      out := Done(Report(if o.dryRun then DryRunMode else if o.force then MergeMode else InsertMode, before, after,
                         p.inserted, p.skipped, p.conflicts, Filled(p.migrated), Filled(p.skippedEmails), displaced));
    }

    /** The transaction's body, `_apply`. */
    method Apply(data: Db, o: Options) returns (ok: bool, p: Progress, displaced: seq<Displaced>)
      requires Valid() && data.Keys <= tables.Keys
      modifies this
      ensures ok == !Moved(old(tables), data, o).failed
      ensures ok ==> p == Finished(PlansFor(old(tables), data, o)) && displaced == Moved(old(tables), data, o).displaced
      ensures ok ==> tables == Written(old(tables), data, o)
    {
      ghost var saved := tables;
      var known: set<string> := {};
      displaced, ok, p := [], true, Started(known);
      if Accounts in data {
        known := Ids(tables[Accounts]);
        if o.preferSource {
          displaced, ok := DisplaceConflictingEmails(data[Accounts], o.dryRun);
          if !ok {
            return;
          }
        }
      }
      assert tables == Base(saved, data, o) && known == KnownBefore(saved, data);
      BaseEnforced(saved, data, o);
      p := MergeTables(TABLES, data, o.dryRun, known);
    }

    /** The loop over the tables, accounts first. Later tables see the account ids
        the accounts table planned. */
    method MergeTables(order: seq<TableName>, data: Db, dryRun: bool, knownIds: set<string>) returns (p: Progress)
      requires EnforcedDb(tables) && data.Keys <= tables.Keys
      requires Covers(order)
      modifies this
      ensures p == Finished(Plans(old(tables), data, knownIds))
      ensures tables == if dryRun then old(tables)
                        else WithPayloads(old(tables), Payloads(Plans(old(tables), data, knownIds)))
    {
      ghost var base := tables;
      p := Started(knownIds);
      NothingDone(base, data, order, dryRun, knownIds);
      var i := 0;
      while i < |order|
        invariant 0 <= i <= |order|
        invariant tables.Keys == base.Keys
        invariant Halfway(tables, p, base, data, knownIds, First(order, i), dryRun)
      {
        FirstGrows(order, i);
        p := TakeTurn(order[i], data, dryRun, p, base, First(order, i), knownIds);
        i := i + 1;
      }
      AllDone(base, Plans(base, data, knownIds), order, dryRun, knownIds);
    }

    /** The body of that loop: the table's rows, if it has any, are planned and inserted. */
    method TakeTurn(t: TableName, data: Db, dryRun: bool, p: Progress,
                    ghost base: Db, ghost done: set<TableName>, ghost knownIds: set<string>) returns (q: Progress)
      requires data.Keys <= tables.Keys && (t in base ==> Enforced(t, base[t]))
      requires t !in done && if t.Accounts? then done == {} else Accounts in done
      requires Halfway(tables, p, base, data, knownIds, done, dryRun)
      modifies this
      ensures tables.Keys == old(tables).Keys
      ensures Halfway(tables, q, base, data, knownIds, done + {t}, dryRun)
    {
      OneMoreDone(base, data, knownIds, Plans(base, data, knownIds), done, t, dryRun);
      if t !in data || data[t] == [] {
        NoRowsNoTurn(t, tables, dryRun, p);
        return p;
      }
      var plan := MergeTable(t, data[t], p.known, dryRun);
      q := Advance(p, t, plan);
    }

    /** `verify_source_present`. */
    method VerifySourcePresent(data: Db, conflicts: seq<EmailConflict>)
      returns (missing: map<TableName, seq<seq<string>>>)
      ensures missing == MissingAfter(tables, data, conflicts)
    {
      var conflictIds := ConflictIds(conflicts);
      ghost var full := MissingAfter(tables, data, conflicts);
      missing := map[];
      var rest := data.Keys;
      assert full.Keys <= rest;
      while rest != {}
        invariant rest <= data.Keys
        invariant missing == Without(full, rest)
        decreases |rest|
      {
        var t :| t in rest;
        var absent := [];
        if t in tables {
          absent := AbsentRows(t, data[t], PrimaryKeys(t, tables[t]), conflictIds);
        }
        MissingEntry(tables, data, conflicts, t);
        WithoutStep(full, rest, t, absent);
        rest := rest - {t};
        if absent != [] {
          missing := missing[t := absent];
        }
      }
      assert Without(full, {}) == full;
    }

    /** `run_restore`: merge, then fail on a missing account and only report the rest. */
    method RunRestore(data: Db, o: Options, verify: bool) returns (r: Restore)
      requires Valid()
      modifies this
      ensures Valid() && tables == Merged(old(tables), data, o)
      ensures r == RestoreOf(OutcomeOf(old(tables), data, o), tables, data, o, verify)
    {
      var out := Migrate(data, o);
      if !out.Done? {
        return Failed(out);
      }
      if !verify || o.dryRun {
        return Unverified(out.report);
      }
      var missing := VerifySourcePresent(data, out.report.conflicts);
      r := Judge(out.report, missing);
    }
  }

  /** The hard/advisory split: only a missing account fails the restore. */
  method Judge(report: Report, missing: map<TableName, seq<seq<string>>>) returns (r: Restore)
    ensures r == if Accounts in missing then VerifyFailed(missing[Accounts]) else Restored(report, missing)
  {
    var hard := map t | t in missing && t.Accounts? :: missing[t];
    var advisory := map t | t in missing && !t.Accounts? :: missing[t];
    if hard != map[] {
      return VerifyFailed(hard[Accounts]);
    }
    assert Accounts in missing ==> Accounts in hard;
    assert advisory == missing;
    r := Restored(report, advisory);
  }

  /** What `run_restore` answers, given how the merge went and the tables it left. */
  ghost function RestoreOf(out: Outcome, after: Db, data: Db, o: Options, verify: bool): Restore {
    if !out.Done? then Failed(out)
    else if !verify || o.dryRun then Unverified(out.report)
    else
      var missing := MissingAfter(after, data, out.report.conflicts);
      if Accounts in missing then VerifyFailed(missing[Accounts]) else Restored(out.report, missing)
  }

  /** The inner loop of `verify_source_present`. */
  method AbsentRows(t: TableName, rows: seq<Row>, existing: set<seq<string>>, conflictIds: set<string>)
    returns (absent: seq<seq<string>>)
    ensures absent == Absent(t, rows, existing, conflictIds)
  {
    absent := [];
    var k := 0;
    while k < |rows|
      invariant 0 <= k <= |rows|
      invariant absent == Absent(t, rows[..k], existing, conflictIds)
    {
      var row := rows[k];
      assert rows[..k + 1][..k] == rows[..k];
      k := k + 1;
      if t.Accounts? && row.id in conflictIds {
        continue;
      }
      if !t.Accounts? && row.accountId in conflictIds {
        continue;
      }
      if PrimaryKey(t, row) !in existing {
        absent := absent + [PrimaryKey(t, row)];
      }
    }
    assert rows[..k] == rows;
  }

  function Index(t: TableName): (i: nat)
    ensures i < |TABLES| && TABLES[i] == t
  {
    match t
    case Accounts => 0
    case ApiKeys => 1
    case LoginTokens => 2
    case SessionOwners => 3
    case UsageCounters => 4
  }

  ghost function Without<T>(full: map<TableName, T>, rest: set<TableName>): map<TableName, T> {
    map t | t in full && t !in rest :: full[t]
  }

  lemma WithoutStep<T>(full: map<TableName, seq<T>>, rest: set<TableName>, t: TableName, v: seq<T>)
    requires t in rest && if t in full then full[t] == v && v != [] else v == []
    ensures Without(full, rest - {t}) == if v == [] then Without(full, rest) else Without(full, rest)[t := v]
  {
  }

  lemma {:induction false} MissingEntry(db: Db, data: Db, conflicts: seq<EmailConflict>, t: TableName)
    ensures var full := MissingAfter(db, data, conflicts);
            var absent := if t in data && t in db
                then Absent(t, data[t], PrimaryKeys(t, db[t]), ConflictIds(conflicts)) else [];
            if t in full then full[t] == absent && absent != [] else absent == []
  {
  }

  // ---- the loop over the tables, and the independent plans it comes to ----------

  /** What `migrate` accumulates from table to table. */
  datatype Progress = Progress(inserted: PerTable<nat>, skipped: PerTable<nat>, known: set<string>,
                               conflicts: seq<EmailConflict>, migrated: seq<string>, skippedEmails: seq<string>)

  function Started(knownIds: set<string>): Progress {
    Progress(PerTable(0, 0, 0, 0, 0), PerTable(0, 0, 0, 0, 0), knownIds, [], [], [])
  }

  function Advance(p: Progress, t: TableName, plan: Plan): Progress {
    Progress(p.inserted.With(t, |plan.payload|), p.skipped.With(t, plan.skipped), plan.known,
             p.conflicts + plan.conflicts, p.migrated + plan.migrated, p.skippedEmails + plan.skippedEmails)
  }

  function Grown(db: Db, t: TableName, payload: seq<Row>, dryRun: bool): Db {
    if dryRun || t !in db then db else db[t := db[t] + payload]
  }

  /** What the accounts plan contributes, and each table's counts. */
  function Finished(plans: PerTable<Plan>): Progress {
    Progress(Sizes(Payloads(plans)), Skips(plans), plans.accounts.known,
             plans.accounts.conflicts, plans.accounts.migrated, plans.accounts.skippedEmails)
  }

  /** The order of TABLES, as far as the loop depends on it. */
  ghost predicate Covers(order: seq<TableName>) { order == TABLES }

  ghost function First(order: seq<TableName>, i: nat): set<TableName>
    requires i <= |order|
  {
    set t | t in order[..i]
  }

  lemma FirstGrows(order: seq<TableName>, i: nat)
    requires Covers(order) && i < |order|
    ensures order[i] !in First(order, i)
    ensures if order[i].Accounts? then First(order, i) == {} else Accounts in First(order, i)
    ensures First(order, i + 1) == First(order, i) + {order[i]}
  {
    assert order[..i + 1] == order[..i] + [order[i]];
    if i > 0 {
      assert order[..i][0] == Accounts;
    }
  }

  ghost function CountsSoFar(c: PerTable<nat>, done: set<TableName>): PerTable<nat> {
    PerTable(if Accounts in done then c.accounts else 0, if ApiKeys in done then c.apiKeys else 0,
             if LoginTokens in done then c.loginTokens else 0, if SessionOwners in done then c.sessionOwners else 0,
             if UsageCounters in done then c.usageCounters else 0)
  }

  ghost function ProgressSoFar(plans: PerTable<Plan>, done: set<TableName>, knownIds: set<string>): Progress {
    if Accounts in done then
      Finished(plans).(inserted := CountsSoFar(Sizes(Payloads(plans)), done),
                       skipped := CountsSoFar(Skips(plans), done))
    else
      Started(knownIds).(inserted := CountsSoFar(Sizes(Payloads(plans)), done),
                         skipped := CountsSoFar(Skips(plans), done))
  }

  ghost function TablesSoFar(base: Db, payloads: PerTable<seq<Row>>, done: set<TableName>, dryRun: bool): Db {
    map t | t in base :: if t in done && !dryRun then base[t] + payloads.At(t) else base[t]
  }

  /** A child table reports no emails and leaves the known ids alone. */
  lemma {:induction false} ChildPlanQuiet(t: TableName, rows: seq<Row>, table: seq<Row>, known: set<string>)
    requires !t.Accounts?
    ensures var plan := PlanOf(t, rows, table, known);
            plan.known == known && plan.conflicts == [] && plan.migrated == [] && plan.skippedEmails == []
  {
    if rows != [] {
      ChildPlanQuiet(t, rows[..|rows| - 1], table, known);
    }
  }

  /** The tables and the tally once the tables in `done` have had their turn. */
  ghost predicate Halfway(db: Db, p: Progress, base: Db, data: Db, knownIds: set<string>, done: set<TableName>,
                          dryRun: bool) {
    && db == TablesSoFar(base, Payloads(Plans(base, data, knownIds)), done, dryRun)
    && p == ProgressSoFar(Plans(base, data, knownIds), done, knownIds)
  }

  lemma NothingDone(base: Db, data: Db, order: seq<TableName>, dryRun: bool, knownIds: set<string>)
    ensures Halfway(base, Started(knownIds), base, data, knownIds, First(order, 0), dryRun)
  {
    assert First(order, 0) == {};
  }

  lemma AllDone(base: Db, plans: PerTable<Plan>, order: seq<TableName>, dryRun: bool, knownIds: set<string>)
    requires Covers(order)
    ensures TablesSoFar(base, Payloads(plans), First(order, |order|), dryRun) ==
            if dryRun then base else WithPayloads(base, Payloads(plans))
    ensures ProgressSoFar(plans, First(order, |order|), knownIds) == Finished(plans)
  {
    forall t: TableName ensures t in First(order, |order|) {
      assert order[..|order|][Index(t)] == t;
    }
  }

  lemma OneMoreCount(c: PerTable<nat>, done: set<TableName>, t: TableName)
    requires t !in done
    ensures CountsSoFar(c, done + {t}) == CountsSoFar(c, done).With(t, c.At(t))
    ensures CountsSoFar(c, done).At(t) == 0
  {
  }

  lemma OneMoreTable(base: Db, payloads: PerTable<seq<Row>>, done: set<TableName>, t: TableName, dryRun: bool)
    requires t !in done
    ensures TablesSoFar(base, payloads, done + {t}, dryRun) ==
            Grown(TablesSoFar(base, payloads, done, dryRun), t, payloads.At(t), dryRun)
    ensures RowsOf(TablesSoFar(base, payloads, done, dryRun), t) == RowsOf(base, t)
  {
  }

  lemma PlansAt(base: Db, data: Db, knownIds: set<string>, t: TableName)
    ensures var plans := Plans(base, data, knownIds);
            && plans.At(t) == PlanOf(t, RowsOf(data, t), RowsOf(base, t),
                                     if t.Accounts? then knownIds else plans.accounts.known)
            && Payloads(plans).At(t) == plans.At(t).payload
            && Sizes(Payloads(plans)).At(t) == |plans.At(t).payload|
            && Skips(plans).At(t) == plans.At(t).skipped
  {
  }

  lemma NoRowsNoTurn(t: TableName, db: Db, dryRun: bool, p: Progress)
    requires p.inserted.At(t) == 0 && p.skipped.At(t) == 0
    ensures var plan := PlanOf(t, [], RowsOf(db, t), p.known);
            Advance(p, t, plan) == p && Grown(db, t, plan.payload, dryRun) == db
  {
    assert t in db ==> db[t] + [] == db[t];
  }

  lemma OneMoreDone(base: Db, data: Db, knownIds: set<string>, plans: PerTable<Plan>, done: set<TableName>,
                    t: TableName, dryRun: bool)
    requires plans == Plans(base, data, knownIds)
    requires t !in done && (t.Accounts? || Accounts in done) && (t.Accounts? ==> done == {})
    ensures var was, p := TablesSoFar(base, Payloads(plans), done, dryRun), ProgressSoFar(plans, done, knownIds);
            var plan := PlanOf(t, RowsOf(data, t), RowsOf(was, t), p.known);
            && TablesSoFar(base, Payloads(plans), done + {t}, dryRun) == Grown(was, t, plan.payload, dryRun)
            && ProgressSoFar(plans, done + {t}, knownIds) == Advance(p, t, plan)
            && p.inserted.At(t) == 0 && p.skipped.At(t) == 0
  {
    PlansAt(base, data, knownIds, t);
    OneMoreTable(base, Payloads(plans), done, t, dryRun);
    OneMoreCount(Sizes(Payloads(plans)), done, t);
    OneMoreCount(Skips(plans), done, t);
    if !t.Accounts? {
      ChildPlanQuiet(t, RowsOf(data, t), RowsOf(base, t), plans.accounts.known);
    }
  }

  lemma BaseEnforced(db: Db, data: Db, o: Options)
    requires EnforcedDb(db)
    ensures EnforcedDb(Base(db, data, o))
  {
    if Accounts in db && Accounts in data {
      MoveKeepsEnforced(db[Accounts], data[Accounts], o.dryRun);
    }
  }

  /** Whatever the source holds, the merged tables satisfy what the database enforces. */
  lemma MergedEnforced(db: Db, data: Db, o: Options)
    requires EnforcedDb(db)
    ensures EnforcedDb(Merged(db, data, o))
  {
    var base := Base(db, data, o);
    BaseEnforced(db, data, o);
    forall t | t in base ensures Enforced(t, base[t] + Payloads(PlansFor(db, data, o)).At(t)) {
      PlansAt(base, data, KnownBefore(db, data), t);
      PlanKeepsConstraints(t, RowsOf(data, t), base[t],
                           if t.Accounts? then KnownBefore(db, data) else PlansFor(db, data, o).accounts.known);
    }
  }
}
