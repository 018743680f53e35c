/**
 Importing a legacy SQLite gateway database into the product database, table by table in one transaction
 (src/shared_integration/migration_tools.py). Every query flushes first, so a row sees those added before it.
 */
module Migration {
  import opened Prelude
  import opened Findings
  import Jobs
  import FindingStore

  // ---------------------------------------------------------------- the legacy rows

  /** `None` stands for text that does not parse: an unknown source, or a payload that is no JSON object. */
  datatype LegacyJob = LegacyJob(
    id: string, tenant: string, source: Option<Source>, payload: Option<string>, status: Jobs.Status,
    key: Option<string>, dispatchId: Option<string>, attempt: nat, cancelRequested: bool, resultCount: nat,
    errorCode: Option<string>, errorMessage: Option<string>)

  datatype LegacyEvent = LegacyEvent(tenant: string, job: string, sequence: int, event: Option<Jobs.Event>) {
    function Key(): EventKey { (tenant, job, sequence) }
  }

  datatype LegacyFinding = LegacyFinding(tenant: string, finding: Option<Finding>)

  /** `findings` is `None` when the payload holds something other than a list there. */
  datatype LinkPayload = LinkPayload(
    findings: Option<seq<string>>, ruleId: Option<string>, severity: Option<string>, narrative: Option<string>)

  datatype LegacyCorrelation = LegacyCorrelation(tenant: string, sequence: int, payload: Option<LinkPayload>)

  /** What the legacy file holds; `recognised` if it has at least one of the four tables. */
  datatype Legacy = Legacy(
    recognised: bool, jobs: seq<LegacyJob>, events: seq<LegacyEvent>, findings: seq<LegacyFinding>,
    correlations: seq<LegacyCorrelation>)

  // ---------------------------------------------------------------- the target tables

  datatype JobRow = JobRow(row: Jobs.Row, queue: string, finished: bool)

  type EventKey = (string, string, int)
  type FindingKey = (string, Fingerprint)

  /** The digest of tenant, sequence and payload is taken to be injective, so the three stand for it. */
  type CorrelationKey = (string, int, LinkPayload)

  datatype CorrelationRow = CorrelationRow(ruleId: string, severity: string, narrative: string, links: seq<string>)

  /** The slug of each tenant; no two tenants share one. */
  /**
   The slug an imported tenant is given holds a digest of its id, which is taken to be injective: the id stands for
   all of it. A tenant from elsewhere may have that slug, or any other text.
   */
  datatype Slug = Text(text: string) | LegacySlug(digested: string)

  type TenantTable = map<string, Slug>

  type JobTable = map<string, JobRow>
  type EventTable = map<EventKey, Jobs.Event>
  type FindingTable = map<FindingKey, FindingStore.Row>
  type CorrelationTable = map<CorrelationKey, CorrelationRow>

  datatype Counts = Counts(tenants: nat, jobs: nat, events: nat, findings: nat, correlations: nat) {
    function Plus(other: Counts): Counts {
      Counts(tenants + other.tenants, jobs + other.jobs, events + other.events, findings + other.findings,
             correlations + other.correlations)
    }
  }

  const ZERO := Counts(0, 0, 0, 0, 0)

  datatype Audit = Audit(source: Counts, imported: Counts)

  datatype Target = Target(
    tenants: TenantTable, jobs: JobTable, events: EventTable, findings: FindingTable, nextRowId: nat,
    correlations: CorrelationTable, audits: map<(string, string), Audit>)

  datatype MigrationError = Refused

  /** A table while rows are copied into it, with the two counters. */
  datatype Tally<T> = Tally(table: T, imported: nat, skipped: nat) {
    function Skip(): Tally<T> { this.(skipped := skipped + 1) }
    function Import(next: T): Tally<T> { Tally(next, imported + 1, skipped) }
  }

  // ---------------------------------------------------------------- tenants

  predicate SlugTaken(tenants: TenantTable, slug: Slug) {
    exists id :: id in tenants && tenants[id] == slug
  }

  function TenantStep(t: Tally<TenantTable>, id: string): Result<Tally<TenantTable>, MigrationError> {
    if id in t.table then Ok(t.Skip())
    else if SlugTaken(t.table, LegacySlug(id)) then Raised(Refused)
    else Ok(t.Import(t.table[id := LegacySlug(id)]))
  }

  function ImportTenants(t: Tally<TenantTable>, ids: seq<string>, k: nat): Result<Tally<TenantTable>, MigrationError>
    requires k <= |ids|
    decreases |ids| - k
  {
    if k == |ids| then Ok(t)
    else
      match TenantStep(t, ids[k])
      case Raised(e) => Raised(e)
      case Ok(next) => ImportTenants(next, ids, k + 1)
  }

  method TenantLoop(tenants: TenantTable, ids: seq<string>) returns (r: Result<Tally<TenantTable>, MigrationError>)
    ensures r == ImportTenants(Tally(tenants, 0, 0), ids, 0)
  {
    var t := Tally(tenants, 0, 0);
    for k := 0 to |ids|
      invariant ImportTenants(t, ids, k) == ImportTenants(Tally(tenants, 0, 0), ids, 0)
    {
      if ids[k] in t.table {
        t := t.Skip();
      } else {
        var slug := LegacySlug(ids[k]);
        if SlugTaken(t.table, slug) { return Raised(Refused); }
        t := t.Import(t.table[ids[k] := slug]);
      }
    }
    r := Ok(t);
  }

  lemma {:induction false} TenantsImported(t: Tally<TenantTable>, ids: seq<string>, k: nat, t': Tally<TenantTable>)
    requires k <= |ids| && ImportTenants(t, ids, k) == Ok(t')
    ensures t'.imported + t'.skipped == t.imported + t.skipped + |ids| - k
    ensures t'.table.Keys == t.table.Keys + set i | k <= i < |ids| :: ids[i]
    ensures forall id :: id in t'.table ==> t'.table[id] == if id in t.table then t.table[id] else LegacySlug(id)
    decreases |ids| - k
  {
    if k < |ids| { TenantsImported(TenantStep(t, ids[k]).value, ids, k + 1, t'); }
  }

  /** The first counter is the number of rows added. */
  lemma {:induction false} TenantsCounted(t: Tally<TenantTable>, ids: seq<string>, k: nat, t': Tally<TenantTable>)
    requires k <= |ids| && ImportTenants(t, ids, k) == Ok(t')
    ensures t'.imported + t'.skipped == t.imported + t.skipped + |ids| - k
    ensures t'.imported + |t.table| == t.imported + |t'.table|
    decreases |ids| - k
  {
    if k < |ids| { TenantsCounted(TenantStep(t, ids[k]).value, ids, k + 1, t'); }
  }

  lemma {:induction false} TenantsAgain(t: Tally<TenantTable>, ids: seq<string>, k: nat)
    requires k <= |ids| && forall i :: k <= i < |ids| ==> ids[i] in t.table
    ensures ImportTenants(t, ids, k) == Ok(t.(skipped := t.skipped + |ids| - k))
    decreases |ids| - k
  {
    if k < |ids| { TenantsAgain(t.Skip(), ids, k + 1); }
  }

  // ---------------------------------------------------------------- jobs

  function Queue(source: Source): string {
    match source
    case Soc => "fast"
    case Lab => "sandbox" case Reverse => "sandbox" case Firmware => "sandbox"
    case Vuln => "analysis" case Code => "analysis" case External => "analysis"
  }

  /** The legacy row in the form the job protocol reads it. */
  function ProtocolRow(row: LegacyJob): Jobs.Row
    requires row.source.Some? && row.payload.Some?
  {
    Jobs.Row(row.tenant, row.source.value, row.payload.value, row.key, row.dispatchId, row.status, row.attempt,
             row.cancelRequested, row.resultCount, row.errorCode, row.errorMessage)
  }

  predicate KeyTaken(jobs: JobTable, row: LegacyJob) {
    && row.key.Some?
    && exists id :: id in jobs && jobs[id].row.tenant == row.tenant && jobs[id].row.idempotencyKey == row.key
  }

  function JobStep(t: Tally<JobTable>, row: LegacyJob): Result<Tally<JobTable>, MigrationError> {
    if row.id in t.table then
      if t.table[row.id].row.tenant != row.tenant then Raised(Refused) else Ok(t.Skip())
    else if row.source.None? || row.payload.None? || KeyTaken(t.table, row) then Raised(Refused)
    else
      var added := JobRow(ProtocolRow(row), Queue(row.source.value), row.status == Jobs.Succeeded);
      Ok(t.Import(t.table[row.id := added]))
  }

  function ImportJobs(t: Tally<JobTable>, rows: seq<LegacyJob>, k: nat): Result<Tally<JobTable>, MigrationError>
    requires k <= |rows|
    decreases |rows| - k
  {
    if k == |rows| then Ok(t)
    else
      match JobStep(t, rows[k])
      case Raised(e) => Raised(e)
      case Ok(next) => ImportJobs(next, rows, k + 1)
  }

  method JobLoop(jobs: JobTable, rows: seq<LegacyJob>) returns (r: Result<Tally<JobTable>, MigrationError>)
    ensures r == ImportJobs(Tally(jobs, 0, 0), rows, 0)
  {
    var t := Tally(jobs, 0, 0);
    for k := 0 to |rows|
      invariant ImportJobs(t, rows, k) == ImportJobs(Tally(jobs, 0, 0), rows, 0)
    {
      var row := rows[k];
      if row.id in t.table {
        if t.table[row.id].row.tenant != row.tenant { return Raised(Refused); }
        t := t.Skip();
        continue;
      }
      if row.source.None? || row.payload.None? { return Raised(Refused); }
      if KeyTaken(t.table, row) { return Raised(Refused); }
      var added := JobRow(ProtocolRow(row), Queue(row.source.value), row.status == Jobs.Succeeded);
      t := t.Import(t.table[row.id := added]);
    }
    r := Ok(t);
  }

  /** The job a source row became, if the import added it: every column is copied. */
  predicate JobFrom(job: JobRow, row: LegacyJob) {
    && row.source == Some(job.row.source) && row.payload == Some(job.row.payload) && job.row.tenant == row.tenant
    && job.row.idempotencyKey == row.key && job.row.dispatchId == row.dispatchId && job.row.status == row.status
    && job.row.attempt == row.attempt && job.row.cancelRequested == row.cancelRequested
    && job.row.resultCount == row.resultCount && job.row.errorCode == row.errorCode
    && job.row.errorMessage == row.errorMessage
    && job.queue == (match job.row.source
                     case Soc => "fast"
                     case Vuln => "analysis" case Code => "analysis" case External => "analysis"
                     case Lab => "sandbox" case Reverse => "sandbox" case Firmware => "sandbox")
    && (job.finished <==> row.status == Jobs.Succeeded)
  }

  lemma {:induction false} JobsImported(t: Tally<JobTable>, rows: seq<LegacyJob>, k: nat, t': Tally<JobTable>)
    requires k <= |rows| && ImportJobs(t, rows, k) == Ok(t')
    ensures t'.imported + t'.skipped == t.imported + t.skipped + |rows| - k
    ensures forall id :: id in t.table ==> id in t'.table && t'.table[id] == t.table[id]
    ensures forall i :: k <= i < |rows| ==> rows[i].id in t'.table && t'.table[rows[i].id].row.tenant == rows[i].tenant
    decreases |rows| - k
  {
    if k < |rows| {
      var next := JobStep(t, rows[k]).value;
      JobsImported(next, rows, k + 1, t');
    }
  }

  lemma JobStepAdds(t: Tally<JobTable>, row: LegacyJob, next: Tally<JobTable>, id: string)
    requires JobStep(t, row) == Ok(next) && id in next.table && id !in t.table
    ensures row.id == id && JobFrom(next.table[id], row)
  {
  }

  /** Every job the import added is a copy of a source row with its id. */
  lemma {:induction false} JobsArrive(t: Tally<JobTable>, rows: seq<LegacyJob>, k: nat, t': Tally<JobTable>, id: string)
    requires k <= |rows| && ImportJobs(t, rows, k) == Ok(t') && id in t'.table && id !in t.table
    ensures exists i :: k <= i < |rows| && rows[i].id == id && JobFrom(t'.table[id], rows[i])
    decreases |rows| - k
  {
    var next := JobStep(t, rows[k]).value;
    if id in next.table {
      JobStepAdds(t, rows[k], next, id);
      JobsImported(next, rows, k + 1, t');
    } else {
      JobsArrive(next, rows, k + 1, t', id);
    }
  }

  lemma {:induction false} JobsCounted(t: Tally<JobTable>, rows: seq<LegacyJob>, k: nat, t': Tally<JobTable>)
    requires k <= |rows| && ImportJobs(t, rows, k) == Ok(t')
    ensures t'.imported + t'.skipped == t.imported + t.skipped + |rows| - k
    ensures t'.imported + |t.table| == t.imported + |t'.table|
    decreases |rows| - k
  {
    if k < |rows| { JobsCounted(JobStep(t, rows[k]).value, rows, k + 1, t'); }
  }

  lemma {:induction false} JobsAgain(t: Tally<JobTable>, rows: seq<LegacyJob>, k: nat)
    requires k <= |rows| && forall i :: k <= i < |rows| ==>
        rows[i].id in t.table && t.table[rows[i].id].row.tenant == rows[i].tenant
    ensures ImportJobs(t, rows, k) == Ok(t.(skipped := t.skipped + |rows| - k))
    decreases |rows| - k
  {
    if k < |rows| { JobsAgain(t.Skip(), rows, k + 1); }
  }

  // ---------------------------------------------------------------- job events

  /** An event of a job stored under another tenant passes the lookup and fails on the foreign key. */
  function EventStep(jobs: JobTable, t: Tally<EventTable>, row: LegacyEvent)
    : Result<Tally<EventTable>, MigrationError>
  {
    if row.Key() in t.table then Ok(t.Skip())
    else if row.job !in jobs || jobs[row.job].row.tenant != row.tenant || row.event.None? then Raised(Refused)
    else Ok(t.Import(t.table[row.Key() := row.event.value]))
  }

  function ImportEvents(jobs: JobTable, t: Tally<EventTable>, rows: seq<LegacyEvent>, k: nat)
    : Result<Tally<EventTable>, MigrationError>
    requires k <= |rows|
    decreases |rows| - k
  {
    if k == |rows| then Ok(t)
    else
      match EventStep(jobs, t, rows[k])
      case Raised(e) => Raised(e)
      case Ok(next) => ImportEvents(jobs, next, rows, k + 1)
  }

  method EventLoop(jobs: JobTable, events: EventTable, rows: seq<LegacyEvent>)
    returns (r: Result<Tally<EventTable>, MigrationError>)
    ensures r == ImportEvents(jobs, Tally(events, 0, 0), rows, 0)
  {
    var t := Tally(events, 0, 0);
    for k := 0 to |rows|
      invariant ImportEvents(jobs, t, rows, k) == ImportEvents(jobs, Tally(events, 0, 0), rows, 0)
    {
      var row := rows[k];
      if row.Key() in t.table {
        t := t.Skip();
        continue;
      }
      if row.job !in jobs { return Raised(Refused); }
      if row.event.None? || jobs[row.job].row.tenant != row.tenant { return Raised(Refused); }
      t := t.Import(t.table[row.Key() := row.event.value]);
    }
    r := Ok(t);
  }

  /** Entry `key` of the table comes from the first source row with that key. */
  predicate EventFrom(event: Jobs.Event, key: EventKey, rows: seq<LegacyEvent>, i: int)
    requires 0 <= i < |rows|
  {
    rows[i].Key() == key && rows[i].event == Some(event)
  }

  lemma {:induction false} EventsImported(
      jobs: JobTable, t: Tally<EventTable>, rows: seq<LegacyEvent>, k: nat, t': Tally<EventTable>)
    requires k <= |rows| && ImportEvents(jobs, t, rows, k) == Ok(t')
    ensures t'.imported + t'.skipped == t.imported + t.skipped + |rows| - k
    ensures forall key :: key in t.table ==> key in t'.table && t'.table[key] == t.table[key]
    ensures forall i :: k <= i < |rows| ==> rows[i].Key() in t'.table
    ensures forall key :: key in t'.table && key !in t.table ==>
        exists i :: k <= i < |rows| && EventFrom(t'.table[key], key, rows, i)
    decreases |rows| - k
  {
    if k < |rows| {
      var next := EventStep(jobs, t, rows[k]).value;
      EventsImported(jobs, next, rows, k + 1, t');
      if rows[k].Key() !in t.table { assert EventFrom(t'.table[rows[k].Key()], rows[k].Key(), rows, k); }
    }
  }

  lemma {:induction false} EventsCounted(
      jobs: JobTable, t: Tally<EventTable>, rows: seq<LegacyEvent>, k: nat, t': Tally<EventTable>)
    requires k <= |rows| && ImportEvents(jobs, t, rows, k) == Ok(t')
    ensures t'.imported + t'.skipped == t.imported + t.skipped + |rows| - k
    ensures t'.imported + |t.table| == t.imported + |t'.table|
    decreases |rows| - k
  {
    if k < |rows| { EventsCounted(jobs, EventStep(jobs, t, rows[k]).value, rows, k + 1, t'); }
  }

  lemma {:induction false} EventsAgain(jobs: JobTable, t: Tally<EventTable>, rows: seq<LegacyEvent>, k: nat)
    requires k <= |rows| && forall i :: k <= i < |rows| ==> rows[i].Key() in t.table
    ensures ImportEvents(jobs, t, rows, k) == Ok(t.(skipped := t.skipped + |rows| - k))
    decreases |rows| - k
  {
    if k < |rows| { EventsAgain(jobs, t.Skip(), rows, k + 1); }
  }

  // ---------------------------------------------------------------- findings

  /** The finding table, the next row id, and the target id under which each source finding is known. */
  datatype FindingImport = FindingImport(rows: FindingTable, nextRowId: nat, ids: map<(string, string), string>)

  predicate IdTaken(rows: FindingTable, tenant: string, id: string) {
    exists key :: key in rows && key.0 == tenant && rows[key].findingId == id
  }

  function KeyOf(tenant: string, f: Finding): FindingKey {
    (tenant, FingerprintOf(f))
  }

  /** A finding without a time was seen when the import runs. */
  function Imported(f: Finding, rowId: nat, now: int): FindingStore.Row {
    FindingStore.NewRow(rowId, FindingStore.Sighting(f, if f.ts.Some? then f.ts.value else now, None))
  }

  function FindingStep(t: Tally<FindingImport>, row: LegacyFinding, now: int)
    : Result<Tally<FindingImport>, MigrationError>
  {
    if row.finding.None? then Raised(Refused)
    else
      var f, s := row.finding.value, t.table;
      var key := KeyOf(row.tenant, f);
      if key in s.rows then Ok(t.(table := s.(ids := s.ids[(row.tenant, f.id) := s.rows[key].findingId])).Skip())
      else if IdTaken(s.rows, row.tenant, f.id) then Raised(Refused)
      else
        var rows := s.rows[key := Imported(f, s.nextRowId, now)];
        Ok(t.Import(FindingImport(rows, s.nextRowId + 1, s.ids[(row.tenant, f.id) := f.id])))
  }

  function ImportFindings(t: Tally<FindingImport>, rows: seq<LegacyFinding>, k: nat, now: int)
    : Result<Tally<FindingImport>, MigrationError>
    requires k <= |rows|
    decreases |rows| - k
  {
    if k == |rows| then Ok(t)
    else
      match FindingStep(t, rows[k], now)
      case Raised(e) => Raised(e)
      case Ok(next) => ImportFindings(next, rows, k + 1, now)
  }

  method FindingLoop(findings: FindingTable, nextRowId: nat, rows: seq<LegacyFinding>, now: int)
    returns (r: Result<Tally<FindingImport>, MigrationError>)
    ensures r == ImportFindings(Tally(FindingImport(findings, nextRowId, map[]), 0, 0), rows, 0, now)
  {
    var t := Tally(FindingImport(findings, nextRowId, map[]), 0, 0);
    ghost var start := t;
    for k := 0 to |rows|
      invariant ImportFindings(t, rows, k, now) == ImportFindings(start, rows, 0, now)
    {
      var row := rows[k];
      if row.finding.None? { return Raised(Refused); }
      var f, s := row.finding.value, t.table;
      var key := KeyOf(row.tenant, f);
      if key in s.rows {
        t := t.(table := s.(ids := s.ids[(row.tenant, f.id) := s.rows[key].findingId])).Skip();
        continue;
      }
      if IdTaken(s.rows, row.tenant, f.id) { return Raised(Refused); }
      var added := s.rows[key := Imported(f, s.nextRowId, now)];
      t := t.Import(FindingImport(added, s.nextRowId + 1, s.ids[(row.tenant, f.id) := f.id]));
    }
    r := Ok(t);
  }

  /** Source row `i` is the last one from `k` on with this tenant and id. */
  predicate LastNamed(rows: seq<LegacyFinding>, k: nat, i: nat, tenant: string, id: string)
    requires k <= i < |rows|
  {
    && Named(rows[i], tenant, id)
    && forall j :: i < j < |rows| ==> !Named(rows[j], tenant, id)
  }

  predicate Named(row: LegacyFinding, tenant: string, id: string) {
    row.tenant == tenant && row.finding.Some? && row.finding.value.id == id
  }

  /** No two rows of a tenant share a finding id. */
  predicate FindingIdsUnique(rows: FindingTable) {
    forall a, b :: a in rows && b in rows && a.0 == b.0 && rows[a].findingId == rows[b].findingId ==> a == b
  }

  lemma FindingStepIs(t: Tally<FindingImport>, row: LegacyFinding, now: int, next: Tally<FindingImport>)
    requires FindingStep(t, row, now) == Ok(next)
    ensures row.finding.Some? && KeyOf(row.tenant, row.finding.value) in next.table.rows
    ensures next.imported + next.skipped == t.imported + t.skipped + 1
    ensures forall key :: key in t.table.rows ==> key in next.table.rows && next.table.rows[key] == t.table.rows[key]
    ensures next.table.ids
         == var f := row.finding.value;
            t.table.ids[(row.tenant, f.id) := next.table.rows[KeyOf(row.tenant, f)].findingId]
  {
  }

  lemma FindingStepUnique(t: Tally<FindingImport>, row: LegacyFinding, now: int, next: Tally<FindingImport>)
    requires FindingStep(t, row, now) == Ok(next) && FindingIdsUnique(t.table.rows)
    ensures FindingIdsUnique(next.table.rows)
  {
  }

  lemma {:induction false} FindingsImported(
      t: Tally<FindingImport>, rows: seq<LegacyFinding>, k: nat, now: int, t': Tally<FindingImport>)
    requires k <= |rows| && ImportFindings(t, rows, k, now) == Ok(t')
    ensures t'.imported + t'.skipped == t.imported + t.skipped + |rows| - k
    ensures forall key :: key in t.table.rows ==> key in t'.table.rows && t'.table.rows[key] == t.table.rows[key]
    ensures forall i :: k <= i < |rows| ==>
        rows[i].finding.Some? && KeyOf(rows[i].tenant, rows[i].finding.value) in t'.table.rows
    decreases |rows| - k
  {
    if k < |rows| {
      var next := FindingStep(t, rows[k], now).value;
      FindingStepIs(t, rows[k], now, next);
      FindingsImported(next, rows, k + 1, now, t');
    }
  }

  /** A row the import added is the first sighting of a source finding with its fingerprint. */
  predicate FindingFrom(stored: FindingStore.Row, key: FindingKey, row: LegacyFinding, now: int) {
    && row.finding.Some? && KeyOf(row.tenant, row.finding.value) == key
    && var f := row.finding.value;
    && stored.fingerprint == key.1 && stored.payload == f && stored.findingId == f.id && stored.occurrences == 1
    && stored.source == f.source && stored.severity == f.severity && stored.confidence == f.confidence
    && stored.asset == f.host && stored.cve == f.cve && stored.title == f.title && stored.description == f.description
    && stored.status == FindingStore.Open && stored.jobId == None && stored.assignedTo == None
    && stored.firstSeen == stored.lastSeen == (match f.ts case Some(t) => t case None => now)
  }

  lemma {:induction false} FindingsArrive(
      t: Tally<FindingImport>, rows: seq<LegacyFinding>, k: nat, now: int, t': Tally<FindingImport>, key: FindingKey)
    requires k <= |rows| && ImportFindings(t, rows, k, now) == Ok(t') && key in t'.table.rows && key !in t.table.rows
    ensures exists i :: k <= i < |rows| && FindingFrom(t'.table.rows[key], key, rows[i], now)
    decreases |rows| - k
  {
    var next := FindingStep(t, rows[k], now).value;
    FindingsImported(next, rows, k + 1, now, t');
    if key in next.table.rows {
      assert FindingFrom(next.table.rows[key], key, rows[k], now);
    } else {
      FindingsArrive(next, rows, k + 1, now, t', key);
    }
  }

  lemma {:induction false} FindingsStayUnique(
      t: Tally<FindingImport>, rows: seq<LegacyFinding>, k: nat, now: int, t': Tally<FindingImport>)
    requires k <= |rows| && ImportFindings(t, rows, k, now) == Ok(t') && FindingIdsUnique(t.table.rows)
    ensures FindingIdsUnique(t'.table.rows)
    decreases |rows| - k
  {
    if k < |rows| {
      var next := FindingStep(t, rows[k], now).value;
      FindingStepUnique(t, rows[k], now, next);
      FindingsStayUnique(next, rows, k + 1, now, t');
    }
  }

  lemma {:induction false} IdsUntouched(
      t: Tally<FindingImport>, rows: seq<LegacyFinding>, k: nat, now: int, t': Tally<FindingImport>, tenant: string,
      id: string)
    requires k <= |rows| && ImportFindings(t, rows, k, now) == Ok(t')
    requires forall i :: k <= i < |rows| ==> !Named(rows[i], tenant, id)
    ensures (tenant, id) in t'.table.ids <==> (tenant, id) in t.table.ids
    ensures (tenant, id) in t.table.ids ==> t'.table.ids[(tenant, id)] == t.table.ids[(tenant, id)]
    decreases |rows| - k
  {
    if k < |rows| {
      var next := FindingStep(t, rows[k], now).value;
      FindingStepIs(t, rows[k], now, next);
      assert !Named(rows[k], tenant, id);
      IdsUntouched(next, rows, k + 1, now, t', tenant, id);
    }
  }

  /** Each source id is known by the id of the row that holds the fingerprint of its last source finding. */
  lemma {:induction false} IdsImported(
      t: Tally<FindingImport>, rows: seq<LegacyFinding>, k: nat, now: int, t': Tally<FindingImport>, i: nat,
      tenant: string, id: string)
    requires k <= i < |rows| && ImportFindings(t, rows, k, now) == Ok(t') && LastNamed(rows, k, i, tenant, id)
    ensures (tenant, id) in t'.table.ids && KeyOf(tenant, rows[i].finding.value) in t'.table.rows
    ensures t'.table.ids[(tenant, id)] == t'.table.rows[KeyOf(tenant, rows[i].finding.value)].findingId
    decreases |rows| - k
  {
    var next := FindingStep(t, rows[k], now).value;
    if k < i {
      IdsImported(next, rows, k + 1, now, t', i, tenant, id);
    } else {
      FindingStepIs(t, rows[k], now, next);
      IdsUntouched(next, rows, k + 1, now, t', tenant, id);
      FindingsImported(next, rows, k + 1, now, t');
    }
  }

  lemma {:induction false} FindingsCounted(
      t: Tally<FindingImport>, rows: seq<LegacyFinding>, k: nat, now: int, t': Tally<FindingImport>)
    requires k <= |rows| && ImportFindings(t, rows, k, now) == Ok(t')
    ensures t'.imported + t'.skipped == t.imported + t.skipped + |rows| - k
    ensures t'.imported + |t.table.rows| == t.imported + |t'.table.rows|
    decreases |rows| - k
  {
    if k < |rows| { FindingsCounted(FindingStep(t, rows[k], now).value, rows, k + 1, now, t'); }
  }

  lemma {:induction false} FindingsAgain(t: Tally<FindingImport>, rows: seq<LegacyFinding>, k: nat, now: int)
    requires k <= |rows|
    requires forall i :: k <= i < |rows| ==>
        rows[i].finding.Some? && KeyOf(rows[i].tenant, rows[i].finding.value) in t.table.rows
    ensures var r := ImportFindings(t, rows, k, now);
      && r.Ok? && r.value.table.rows == t.table.rows && r.value.table.nextRowId == t.table.nextRowId
      && r.value.imported == t.imported && r.value.skipped == t.skipped + |rows| - k
    decreases |rows| - k
  {
    if k < |rows| { FindingsAgain(FindingStep(t, rows[k], now).value, rows, k + 1, now); }
  }

  // ---------------------------------------------------------------- correlations

  /** Each named finding under the id the target knows it by, or its own where the source has no such finding. */
  function Mapped(ids: map<(string, string), string>, tenant: string, names: seq<string>): seq<string> {
    seq(|names|, i requires 0 <= i < |names| => if (tenant, names[i]) in ids then ids[(tenant, names[i])] else names[i])
  }

  function CorrelationStep(ids: map<(string, string), string>, t: Tally<CorrelationTable>, row: LegacyCorrelation)
    : Result<Tally<CorrelationTable>, MigrationError>
  {
    if row.payload.None? then Raised(Refused)
    else
      var p := row.payload.value;
      var key := (row.tenant, row.sequence, p);
      if key in t.table then Ok(t.Skip())
      else if p.findings.None? || p.ruleId.None? || p.severity.None? || p.narrative.None? then Raised(Refused)
      else
        var added := CorrelationRow(p.ruleId.value, p.severity.value, p.narrative.value,
            Dedup(Mapped(ids, row.tenant, p.findings.value)));
        Ok(t.Import(t.table[key := added]))
  }

  function ImportCorrelations(
      ids: map<(string, string), string>, t: Tally<CorrelationTable>, rows: seq<LegacyCorrelation>, k: nat)
    : Result<Tally<CorrelationTable>, MigrationError>
    requires k <= |rows|
    decreases |rows| - k
  {
    if k == |rows| then Ok(t)
    else
      match CorrelationStep(ids, t, rows[k])
      case Raised(e) => Raised(e)
      case Ok(next) => ImportCorrelations(ids, next, rows, k + 1)
  }

  method CorrelationLoop(
      ids: map<(string, string), string>, correlations: CorrelationTable, rows: seq<LegacyCorrelation>)
    returns (r: Result<Tally<CorrelationTable>, MigrationError>)
    ensures r == ImportCorrelations(ids, Tally(correlations, 0, 0), rows, 0)
  {
    var t := Tally(correlations, 0, 0);
    for k := 0 to |rows|
      invariant ImportCorrelations(ids, t, rows, k) == ImportCorrelations(ids, Tally(correlations, 0, 0), rows, 0)
    {
      var row := rows[k];
      if row.payload.None? { return Raised(Refused); }
      var p := row.payload.value;
      var key := (row.tenant, row.sequence, p);
      if key in t.table {
        t := t.Skip();
        continue;
      }
      if p.findings.None? { return Raised(Refused); }
      var mapped := Mapped(ids, row.tenant, p.findings.value);
      if p.ruleId.None? || p.severity.None? || p.narrative.None? { return Raised(Refused); }
      t := t.Import(t.table[key := CorrelationRow(p.ruleId.value, p.severity.value, p.narrative.value, Dedup(mapped))]);
    }
    r := Ok(t);
  }

  lemma {:induction false} CorrelationsImported(
      ids: map<(string, string), string>, t: Tally<CorrelationTable>, rows: seq<LegacyCorrelation>, k: nat,
      t': Tally<CorrelationTable>)
    requires k <= |rows| && ImportCorrelations(ids, t, rows, k) == Ok(t')
    ensures t'.imported + t'.skipped == t.imported + t.skipped + |rows| - k
    ensures forall key :: key in t.table ==> key in t'.table && t'.table[key] == t.table[key]
    ensures forall i :: k <= i < |rows| ==>
        rows[i].payload.Some? && (rows[i].tenant, rows[i].sequence, rows[i].payload.value) in t'.table
    ensures forall key :: key in t'.table && key !in t.table ==>
              key.2.findings.Some? && t'.table[key].links == Dedup(Mapped(ids, key.0, key.2.findings.value))
    decreases |rows| - k
  {
    if k < |rows| { CorrelationsImported(ids, CorrelationStep(ids, t, rows[k]).value, rows, k + 1, t'); }
  }

  /** A correlation the import added has the rule, severity and narrative of its payload. */
  lemma {:induction false} CorrelationsCopied(
      ids: map<(string, string), string>, t: Tally<CorrelationTable>, rows: seq<LegacyCorrelation>, k: nat,
      t': Tally<CorrelationTable>, key: CorrelationKey)
    requires k <= |rows| && ImportCorrelations(ids, t, rows, k) == Ok(t') && key in t'.table && key !in t.table
    ensures key.2.ruleId == Some(t'.table[key].ruleId) && key.2.severity == Some(t'.table[key].severity)
    ensures key.2.narrative == Some(t'.table[key].narrative)
    decreases |rows| - k
  {
    var next := CorrelationStep(ids, t, rows[k]).value;
    if key in next.table {
      CorrelationsImported(ids, next, rows, k + 1, t');
    } else {
      CorrelationsCopied(ids, next, rows, k + 1, t', key);
    }
  }

  lemma {:induction false} CorrelationsCounted(
      ids: map<(string, string), string>, t: Tally<CorrelationTable>, rows: seq<LegacyCorrelation>, k: nat,
      t': Tally<CorrelationTable>)
    requires k <= |rows| && ImportCorrelations(ids, t, rows, k) == Ok(t')
    ensures t'.imported + t'.skipped == t.imported + t.skipped + |rows| - k
    ensures t'.imported + |t.table| == t.imported + |t'.table|
    decreases |rows| - k
  {
    if k < |rows| { CorrelationsCounted(ids, CorrelationStep(ids, t, rows[k]).value, rows, k + 1, t'); }
  }

  lemma {:induction false} CorrelationsAgain(
      ids: map<(string, string), string>, t: Tally<CorrelationTable>, rows: seq<LegacyCorrelation>, k: nat)
    requires k <= |rows|
    requires forall i :: k <= i < |rows| ==>
        rows[i].payload.Some? && (rows[i].tenant, rows[i].sequence, rows[i].payload.value) in t.table
    ensures ImportCorrelations(ids, t, rows, k) == Ok(t.(skipped := t.skipped + |rows| - k))
    decreases |rows| - k
  {
    if k < |rows| { CorrelationsAgain(ids, t.Skip(), rows, k + 1); }
  }

  // ---------------------------------------------------------------- importing a table twice

  lemma TenantsTwice(tenants: TenantTable, ids: seq<string>, once: Tally<TenantTable>)
    requires ImportTenants(Tally(tenants, 0, 0), ids, 0) == Ok(once)
    ensures ImportTenants(Tally(once.table, 0, 0), ids, 0) == Ok(Tally(once.table, 0, |ids|))
  {
    TenantsImported(Tally(tenants, 0, 0), ids, 0, once);
    TenantsAgain(Tally(once.table, 0, 0), ids, 0);
  }

  lemma JobsTwice(jobs: JobTable, rows: seq<LegacyJob>, once: Tally<JobTable>)
    requires ImportJobs(Tally(jobs, 0, 0), rows, 0) == Ok(once)
    ensures ImportJobs(Tally(once.table, 0, 0), rows, 0) == Ok(Tally(once.table, 0, |rows|))
  {
    JobsImported(Tally(jobs, 0, 0), rows, 0, once);
    JobsAgain(Tally(once.table, 0, 0), rows, 0);
  }

  lemma EventsTwice(jobs: JobTable, events: EventTable, rows: seq<LegacyEvent>, once: Tally<EventTable>)
    requires ImportEvents(jobs, Tally(events, 0, 0), rows, 0) == Ok(once)
    ensures ImportEvents(jobs, Tally(once.table, 0, 0), rows, 0) == Ok(Tally(once.table, 0, |rows|))
  {
    EventsImported(jobs, Tally(events, 0, 0), rows, 0, once);
    EventsAgain(jobs, Tally(once.table, 0, 0), rows, 0);
  }

  lemma FindingsTwice(
      start: Tally<FindingImport>, rows: seq<LegacyFinding>, now: int, once: Tally<FindingImport>,
      again: Tally<FindingImport>, now': int)
    requires ImportFindings(start, rows, 0, now) == Ok(once)
    requires again == Tally(FindingImport(once.table.rows, once.table.nextRowId, map[]), 0, 0)
    ensures var r := ImportFindings(again, rows, 0, now');
      && r.Ok? && r.value.table.rows == once.table.rows && r.value.table.nextRowId == once.table.nextRowId
      && r.value.imported == 0 && r.value.skipped == |rows|
  {
    FindingsImported(start, rows, 0, now, once);
    FindingsAgain(again, rows, 0, now');
  }

  lemma CorrelationsTwice(
      ids: map<(string, string), string>, correlations: CorrelationTable, rows: seq<LegacyCorrelation>,
      once: Tally<CorrelationTable>, ids': map<(string, string), string>)
    requires ImportCorrelations(ids, Tally(correlations, 0, 0), rows, 0) == Ok(once)
    ensures ImportCorrelations(ids', Tally(once.table, 0, 0), rows, 0) == Ok(Tally(once.table, 0, |rows|))
  {
    CorrelationsImported(ids, Tally(correlations, 0, 0), rows, 0, once);
    CorrelationsAgain(ids', Tally(once.table, 0, 0), rows, 0);
  }
}
