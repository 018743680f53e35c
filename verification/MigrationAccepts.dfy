/**
 When a run of the legacy migrator goes through (src/shared_integration/migration_tools.py), for a file that keeps
 the unique constraints of the legacy schema, and what its run-wide parts add.
 */
module MigrationAccepts {
  import opened Prelude
  import opened Findings
  import opened Migration
  import opened MigrationRun
  import Jobs

  // ---------------------------------------------------------------- what the legacy schema keeps unique

  predicate JobsUnique(rows: seq<LegacyJob>) {
    forall i, j :: 0 <= i < j < |rows| ==> rows[i].id != rows[j].id && !SameKey(rows[i], rows[j])
  }

  predicate SameKey(a: LegacyJob, b: LegacyJob) {
    a.tenant == b.tenant && a.key.Some? && a.key == b.key
  }

  predicate EventsUnique(rows: seq<LegacyEvent>) {
    forall i, j :: 0 <= i < j < |rows| ==> rows[i].Key() != rows[j].Key()
  }

  predicate FindingsUnique(rows: seq<LegacyFinding>) {
    forall i, j :: 0 <= i < j < |rows| ==> !SameName(rows[i], rows[j])
  }

  predicate LegacyOk(src: Legacy) {
    JobsUnique(src.jobs) && EventsUnique(src.events) && FindingsUnique(src.findings)
  }

  // ---------------------------------------------------------------- which rows are accepted

  /** A tenant is known, or the slug it would get is no other tenant's. */
  predicate TenantAccepted(tenants: TenantTable, tenant: string) {
    tenant in tenants || forall id :: id in tenants ==> tenants[id] != LegacySlug(tenant)
  }

  predicate Distinct(ids: seq<string>) {
    forall i, j :: 0 <= i < j < |ids| ==> ids[i] != ids[j]
  }

  lemma {:induction false} TenantsAccepted(t: Tally<TenantTable>, ids: seq<string>, k: nat)
    requires k <= |ids| && Distinct(ids)
    ensures ImportTenants(t, ids, k).Ok? <==> forall i :: k <= i < |ids| ==> TenantAccepted(t.table, ids[i])
    decreases |ids| - k
  {
    if k < |ids| {
      assert TenantStep(t, ids[k]).Ok? <==> TenantAccepted(t.table, ids[k]);
      if TenantStep(t, ids[k]).Ok? {
        var next := TenantStep(t, ids[k]).value;
        TenantsAccepted(next, ids, k + 1);
        forall i | k < i < |ids| ensures TenantAccepted(next.table, ids[i]) <==> TenantAccepted(t.table, ids[i]) {
          OtherTenantAccepted(t, ids[k], next, ids[i]);
        }
      }
    }
  }

  lemma OtherTenantAccepted(t: Tally<TenantTable>, tenant: string, next: Tally<TenantTable>, other: string)
    requires other != tenant && TenantStep(t, tenant) == Ok(next)
    ensures TenantAccepted(next.table, other) <==> TenantAccepted(t.table, other)
  {
    if tenant !in t.table { assert next.table[tenant] == LegacySlug(tenant); }
    forall id | id in t.table ensures id in next.table && next.table[id] == t.table[id] {}
  }

  /** A job is known under its tenant; or it parses and no job of the tenant has its idempotency key. */
  predicate JobAccepted(jobs: JobTable, row: LegacyJob) {
    if row.id in jobs then jobs[row.id].row.tenant == row.tenant
    else
      && row.source.Some? && row.payload.Some?
      && forall id :: id in jobs && jobs[id].row.tenant == row.tenant && row.key.Some? ==>
           jobs[id].row.idempotencyKey != row.key
  }

  lemma {:induction false} JobsAccepted(t: Tally<JobTable>, rows: seq<LegacyJob>, k: nat)
    requires k <= |rows| && JobsUnique(rows)
    ensures ImportJobs(t, rows, k).Ok? <==> forall i :: k <= i < |rows| ==> JobAccepted(t.table, rows[i])
    decreases |rows| - k
  {
    if k < |rows| {
      JobStepAccepts(t, rows[k]);
      if JobStep(t, rows[k]).Ok? {
        var next := JobStep(t, rows[k]).value;
        JobsAccepted(next, rows, k + 1);
        forall i | k < i < |rows| ensures JobAccepted(next.table, rows[i]) <==> JobAccepted(t.table, rows[i]) {
          OtherJobAccepted(t, rows[k], next, rows[i]);
        }
      }
    }
  }

  lemma JobStepAccepts(t: Tally<JobTable>, row: LegacyJob)
    ensures JobStep(t, row).Ok? <==> JobAccepted(t.table, row)
  {
  }

  lemma OtherJobAccepted(t: Tally<JobTable>, row: LegacyJob, next: Tally<JobTable>, other: LegacyJob)
    requires JobStep(t, row) == Ok(next) && row.id != other.id && !SameKey(row, other)
    ensures JobAccepted(next.table, other) <==> JobAccepted(t.table, other)
  {
    if row.id !in t.table { assert next.table[row.id].row == ProtocolRow(row); }
    forall id | id in t.table ensures id in next.table && next.table[id] == t.table[id] {}
  }

  /** An event is known, or its job is there under its tenant and it parses. */
  predicate EventAccepted(jobs: JobTable, events: EventTable, row: LegacyEvent) {
    row.Key() in events || (row.job in jobs && jobs[row.job].row.tenant == row.tenant && row.event.Some?)
  }

  lemma {:induction false} EventsAccepted(jobs: JobTable, t: Tally<EventTable>, rows: seq<LegacyEvent>, k: nat)
    requires k <= |rows| && EventsUnique(rows)
    ensures ImportEvents(jobs, t, rows, k).Ok? <==>
            forall i :: k <= i < |rows| ==> EventAccepted(jobs, t.table, rows[i])
    decreases |rows| - k
  {
    if k < |rows| {
      assert EventStep(jobs, t, rows[k]).Ok? <==> EventAccepted(jobs, t.table, rows[k]);
      if EventStep(jobs, t, rows[k]).Ok? {
        var next := EventStep(jobs, t, rows[k]).value;
        EventsAccepted(jobs, next, rows, k + 1);
        forall i | k < i < |rows|
          ensures EventAccepted(jobs, next.table, rows[i]) <==> EventAccepted(jobs, t.table, rows[i])
        {
          assert rows[k].Key() != rows[i].Key();
        }
      }
    }
  }

  predicate SameFinding(a: LegacyFinding, b: LegacyFinding) {
    a.finding.Some? && b.finding.Some? && KeyOf(a.tenant, a.finding.value) == KeyOf(b.tenant, b.finding.value)
  }

  /**
   A finding parses, and its fingerprint is in the table or on an earlier row, or no finding of the tenant in the
   table has its id.
   */
  predicate FindingAccepted(table: FindingTable, rows: seq<LegacyFinding>, k: nat, i: nat)
    requires k <= i < |rows|
  {
    && rows[i].finding.Some?
    && var f := rows[i].finding.value;
    || KeyOf(rows[i].tenant, f) in table
    || (exists j :: k <= j < i && SameFinding(rows[j], rows[i]))
    || (forall key :: key in table && key.0 == rows[i].tenant ==> table[key].findingId != f.id)
  }

  lemma {:induction false} FindingsAccepted(t: Tally<FindingImport>, rows: seq<LegacyFinding>, k: nat, now: int)
    requires k <= |rows| && FindingsUnique(rows)
    ensures ImportFindings(t, rows, k, now).Ok? <==>
            forall i :: k <= i < |rows| ==> FindingAccepted(t.table.rows, rows, k, i)
    decreases |rows| - k
  {
    if k < |rows| {
      FindingStepAccepts(t, rows, k, now);
      if FindingStep(t, rows[k], now).Ok? {
        var next, later: nat := FindingStep(t, rows[k], now).value, k + 1;
        FindingsAccepted(next, rows, later, now);
        forall i: nat | later <= i < |rows|
          ensures FindingAccepted(next.table.rows, rows, later, i) <==> FindingAccepted(t.table.rows, rows, k, i)
        {
          OtherFindingAccepted(t, rows, k, now, next, i);
        }
        if ImportFindings(next, rows, later, now).Ok? {
          forall i: nat | k <= i < |rows| ensures FindingAccepted(t.table.rows, rows, k, i) {
            assert i > k ==> FindingAccepted(next.table.rows, rows, later, i);
          }
        } else {
          var i: nat :| later <= i < |rows| && !FindingAccepted(next.table.rows, rows, later, i);
          assert !FindingAccepted(t.table.rows, rows, k, i);
        }
      }
    }
  }

  lemma FindingStepAccepts(t: Tally<FindingImport>, rows: seq<LegacyFinding>, k: nat, now: int)
    requires k < |rows|
    ensures FindingStep(t, rows[k], now).Ok? <==> FindingAccepted(t.table.rows, rows, k, k)
  {
  }

  lemma OtherFindingAccepted(
      t: Tally<FindingImport>, rows: seq<LegacyFinding>, k: nat, now: int, next: Tally<FindingImport>, i: nat)
    requires k < i < |rows| && FindingsUnique(rows) && FindingStep(t, rows[k], now) == Ok(next)
    ensures FindingAccepted(next.table.rows, rows, k + 1, i) <==> FindingAccepted(t.table.rows, rows, k, i)
  {
    assert !SameName(rows[k], rows[i]);
    FindingStepIs(t, rows[k], now, next);
    if rows[i].finding.Some? {
      var key, table, table' := KeyOf(rows[k].tenant, rows[k].finding.value), t.table.rows, next.table.rows;
      NewFinding(t, rows[k], now, next);
      assert SameFinding(rows[k], rows[i]) ==> KeyOf(rows[i].tenant, rows[i].finding.value) in table';
      assert (exists j :: k <= j < i && SameFinding(rows[j], rows[i])) <==>
             SameFinding(rows[k], rows[i]) || (exists j :: k + 1 <= j < i && SameFinding(rows[j], rows[i]));
    }
  }

  lemma NewFinding(t: Tally<FindingImport>, row: LegacyFinding, now: int, next: Tally<FindingImport>)
    requires FindingStep(t, row, now) == Ok(next)
    ensures row.finding.Some?
    ensures next.table.rows.Keys == t.table.rows.Keys + {KeyOf(row.tenant, row.finding.value)}
    ensures var key := KeyOf(row.tenant, row.finding.value);
      key !in t.table.rows ==> next.table.rows[key].findingId == row.finding.value.id
  {
  }

  /** A correlation is known, or its payload parses and is complete. */
  predicate CorrelationAccepted(table: CorrelationTable, row: LegacyCorrelation) {
    && row.payload.Some?
    && var p := row.payload.value;
    || (row.tenant, row.sequence, p) in table
    || (p.findings.Some? && p.ruleId.Some? && p.severity.Some? && p.narrative.Some?)
  }

  lemma {:induction false} CorrelationsAccepted(
      ids: map<(string, string), string>, t: Tally<CorrelationTable>, rows: seq<LegacyCorrelation>, k: nat)
    requires k <= |rows|
    ensures ImportCorrelations(ids, t, rows, k).Ok? <==>
            forall i :: k <= i < |rows| ==> CorrelationAccepted(t.table, rows[i])
    decreases |rows| - k
  {
    if k < |rows| {
      assert CorrelationStep(ids, t, rows[k]).Ok? <==> CorrelationAccepted(t.table, rows[k]);
      if CorrelationStep(ids, t, rows[k]).Ok? {
        var next := CorrelationStep(ids, t, rows[k]).value;
        CorrelationsAccepted(ids, next, rows, k + 1);
        forall i | k < i < |rows|
          ensures CorrelationAccepted(next.table, rows[i]) <==> CorrelationAccepted(t.table, rows[i])
        {
        }
      }
    }
  }

  // ---------------------------------------------------------------- when the whole run goes through

  /** The job is in the target or in the source, under the tenant. */
  predicate JobThere(src: Legacy, target: Target, tenant: string, job: string) {
    || (job in target.jobs && target.jobs[job].row.tenant == tenant)
    || (exists a :: 0 <= a < |src.jobs| && src.jobs[a].id == job && src.jobs[a].tenant == tenant)
  }

  predicate EventFits(src: Legacy, target: Target, row: LegacyEvent) {
    row.Key() in target.events || (JobThere(src, target, row.tenant, row.job) && row.event.Some?)
  }

  predicate TenantsFit(src: Legacy, target: Target) {
    var ids := SourceTenants(src);
    forall i :: 0 <= i < |ids| ==> TenantAccepted(target.tenants, ids[i])
  }

  predicate JobsFit(src: Legacy, target: Target) {
    forall i :: 0 <= i < |src.jobs| ==> JobAccepted(target.jobs, src.jobs[i])
  }

  predicate EventsFit(src: Legacy, target: Target) {
    forall i :: 0 <= i < |src.events| ==> EventFits(src, target, src.events[i])
  }

  predicate FindingsFit(src: Legacy, target: Target) {
    forall i :: 0 <= i < |src.findings| ==> FindingAccepted(target.findings, src.findings, 0, i)
  }

  predicate CorrelationsFit(src: Legacy, target: Target) {
    forall i :: 0 <= i < |src.correlations| ==> CorrelationAccepted(target.correlations, src.correlations[i])
  }

  lemma JobThereIs(src: Legacy, target: Target, t': Tally<JobTable>, tenant: string, job: string)
    requires ImportJobs(Tally(target.jobs, 0, 0), src.jobs, 0) == Ok(t')
    ensures job in t'.table && t'.table[job].row.tenant == tenant <==> JobThere(src, target, tenant, job)
  {
    JobsImported(Tally(target.jobs, 0, 0), src.jobs, 0, t');
    if job in t'.table && job !in target.jobs { JobsArrive(Tally(target.jobs, 0, 0), src.jobs, 0, t', job); }
  }

  lemma EventsThere(src: Legacy, target: Target, t': Tally<JobTable>)
    requires EventsUnique(src.events) && ImportJobs(Tally(target.jobs, 0, 0), src.jobs, 0) == Ok(t')
    ensures ImportEvents(t'.table, Tally(target.events, 0, 0), src.events, 0).Ok? <==> EventsFit(src, target)
  {
    EventsAccepted(t'.table, Tally(target.events, 0, 0), src.events, 0);
    forall i | 0 <= i < |src.events|
      ensures EventAccepted(t'.table, target.events, src.events[i]) <==> EventFits(src, target, src.events[i])
    {
      JobThereIs(src, target, t', src.events[i].tenant, src.events[i].job);
    }
  }

  lemma TenantsDistinct(src: Legacy)
    ensures Distinct(SourceTenants(src))
  {
    DedupIs(TenantColumns(src));
  }

  lemma TenantsThere(src: Legacy, target: Target)
    ensures ImportTenants(Tally(target.tenants, 0, 0), SourceTenants(src), 0).Ok? <==> TenantsFit(src, target)
  {
    TenantsDistinct(src);
    TenantsAccepted(Tally(target.tenants, 0, 0), SourceTenants(src), 0);
  }

  lemma JobsThere(src: Legacy, target: Target)
    requires JobsUnique(src.jobs)
    ensures ImportJobs(Tally(target.jobs, 0, 0), src.jobs, 0).Ok? <==> JobsFit(src, target)
  {
    JobsAccepted(Tally(target.jobs, 0, 0), src.jobs, 0);
  }

  lemma FindingsThere(src: Legacy, target: Target, now: int)
    requires FindingsUnique(src.findings)
    ensures ImportFindings(Start(target), src.findings, 0, now).Ok? <==> FindingsFit(src, target)
  {
    FindingsAccepted(Start(target), src.findings, 0, now);
  }

  lemma CorrelationsThere(src: Legacy, target: Target, ids: map<(string, string), string>)
    ensures ImportCorrelations(ids, Tally(target.correlations, 0, 0), src.correlations, 0).Ok? <==>
            CorrelationsFit(src, target)
  {
    CorrelationsAccepted(ids, Tally(target.correlations, 0, 0), src.correlations, 0);
  }

  /**
   A run over a file that keeps the legacy schema's constraints goes through if and only if every tenant and
   every row is accepted; all the conditions can be read off the file and the target beforehand.
   */
  lemma MigrateOkIff(src: Legacy, target: Target, path: string, now: int)
    requires LegacyOk(src)
    ensures Migrate(src, target, path, now).Ok? <==>
      && TenantsFit(src, target) && JobsFit(src, target) && EventsFit(src, target)
      && FindingsFit(src, target) && CorrelationsFit(src, target)
  {
    TenantsThere(src, target);
    JobsThere(src, target);
    var jobs := ImportJobs(Tally(target.jobs, 0, 0), src.jobs, 0);
    if jobs.Ok? { EventsThere(src, target, jobs.value); }
    FindingsThere(src, target, now);
    var findings := ImportFindings(Start(target), src.findings, 0, now);
    if findings.Ok? { CorrelationsThere(src, target, findings.value.table.ids); }
  }

  // ---------------------------------------------------------------- keys, tenants and audits

  predicate TargetKeysUnique(jobs: JobTable) {
    forall a, b :: a in jobs && b in jobs && a != b && jobs[a].row.idempotencyKey.Some? ==>
      jobs[a].row.tenant != jobs[b].row.tenant || jobs[a].row.idempotencyKey != jobs[b].row.idempotencyKey
  }

  lemma JobStepKeysUnique(t: Tally<JobTable>, row: LegacyJob, next: Tally<JobTable>)
    requires JobStep(t, row) == Ok(next) && TargetKeysUnique(t.table)
    ensures TargetKeysUnique(next.table)
  {
    JobStepAccepts(t, row);
  }

  predicate SlugsUnique(tenants: TenantTable) {
    forall a, b :: a in tenants && b in tenants && tenants[a] == tenants[b] ==> a == b
  }

  /** Nor two tenants one slug. */
  lemma {:induction false} SlugsStayUnique(t: Tally<TenantTable>, ids: seq<string>, k: nat, t': Tally<TenantTable>)
    requires k <= |ids| && ImportTenants(t, ids, k) == Ok(t') && SlugsUnique(t.table)
    ensures SlugsUnique(t'.table)
    decreases |ids| - k
  {
    if k < |ids| { SlugsStayUnique(TenantStep(t, ids[k]).value, ids, k + 1, t'); }
  }

  /** The import never gives two jobs of a tenant one idempotency key. */
  lemma {:induction false} KeysStayUnique(t: Tally<JobTable>, rows: seq<LegacyJob>, k: nat, t': Tally<JobTable>)
    requires k <= |rows| && ImportJobs(t, rows, k) == Ok(t') && TargetKeysUnique(t.table)
    ensures TargetKeysUnique(t'.table)
    decreases |rows| - k
  {
    if k < |rows| {
      var next := JobStep(t, rows[k]).value;
      JobStepKeysUnique(t, rows[k], next);
      KeysStayUnique(next, rows, k + 1, t');
    }
  }

  /** The tenants counted are those that some row of some table names, each once. */
  lemma SourceTenantsAre(src: Legacy, tenant: string)
    ensures tenant in SourceTenants(src) <==>
      || (exists i :: 0 <= i < |src.jobs| && src.jobs[i].tenant == tenant)
      || (exists i :: 0 <= i < |src.events| && src.events[i].tenant == tenant)
      || (exists i :: 0 <= i < |src.findings| && src.findings[i].tenant == tenant)
      || (exists i :: 0 <= i < |src.correlations| && src.correlations[i].tenant == tenant)
    ensures forall i, j :: 0 <= i < j < |SourceTenants(src)| ==> SourceTenants(src)[i] != SourceTenants(src)[j]
  {
    DedupIs(TenantColumns(src));
    var jobs := seq(|src.jobs|, i requires 0 <= i < |src.jobs| => src.jobs[i].tenant);
    var events := seq(|src.events|, i requires 0 <= i < |src.events| => src.events[i].tenant);
    var findings := seq(|src.findings|, i requires 0 <= i < |src.findings| => src.findings[i].tenant);
    var correlations := seq(|src.correlations|, i requires 0 <= i < |src.correlations| => src.correlations[i].tenant);
    assert TenantColumns(src) == jobs + events + findings + correlations;
    if i :| 0 <= i < |src.jobs| && src.jobs[i].tenant == tenant { assert jobs[i] == tenant; }
    if i :| 0 <= i < |src.events| && src.events[i].tenant == tenant { assert events[i] == tenant; }
    if i :| 0 <= i < |src.findings| && src.findings[i].tenant == tenant { assert findings[i] == tenant; }
    if i :| 0 <= i < |src.correlations| && src.correlations[i].tenant == tenant { assert correlations[i] == tenant; }
  }

  lemma {:induction false} AuditsAre(
      audits: AuditTable, path: string, tenants: seq<string>, audit: Audit, k: nat, key: (string, string))
    requires k <= |tenants|
    ensures var after := AddAudits(audits, path, tenants, audit, k);
      && (key in after <==> key in audits || (key.0 == path && key.1 in tenants[k..]))
      && (key in audits ==> after[key] == audits[key])
      && (key in after && key !in audits ==> after[key] == audit)
    decreases |tenants| - k
  {
    if k < |tenants| {
      var next := if (path, tenants[k]) in audits then audits else audits[(path, tenants[k]) := audit];
      AuditsAre(next, path, tenants, audit, k + 1, key);
      assert tenants[k..] == [tenants[k]] + tenants[k + 1..];
    }
  }

  /** A run leaves one audit entry per source file and tenant, with its counts; one already there keeps its own. */
  lemma RunAudited(src: Legacy, target: Target, path: string, now: int, key: (string, string))
    requires Migrate(src, target, path, now).Ok?
    ensures var done := Migrate(src, target, path, now).value;
      && (key in done.target.audits <==> key in target.audits || (key.0 == path && key.1 in SourceTenants(src)))
      && (key in target.audits ==> done.target.audits[key] == target.audits[key])
      && (key in done.target.audits && key !in target.audits ==>
            done.target.audits[key] == Audit(SourceCounts(src), done.imported))
  {
    var p := Copy(src, target, now).value;
    var tenants := SourceTenants(src);
    assert tenants[0..] == tenants;
    AuditsAre(target.audits, path, tenants, Audit(SourceCounts(src), ImportedCounts(p)), 0, key);
  }
}
