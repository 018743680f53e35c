/** One whole run of the legacy migrator, and what holds of it for every source and target. */
module MigrationRun {
  import opened Prelude
  import opened Findings
  import opened Migration

  // ---------------------------------------------------------------- the run

  function TenantColumns(src: Legacy): seq<string> {
    seq(|src.jobs|, i requires 0 <= i < |src.jobs| => src.jobs[i].tenant)
    + seq(|src.events|, i requires 0 <= i < |src.events| => src.events[i].tenant)
    + seq(|src.findings|, i requires 0 <= i < |src.findings| => src.findings[i].tenant)
    + seq(|src.correlations|, i requires 0 <= i < |src.correlations| => src.correlations[i].tenant)
  }

  /** Each tenant once. The source sorts them, which decides only in which order they are added. */
  function SourceTenants(src: Legacy): seq<string> {
    Dedup(TenantColumns(src))
  }

  function SourceCounts(src: Legacy): Counts {
    Counts(|SourceTenants(src)|, |src.jobs|, |src.events|, |src.findings|, |src.correlations|)
  }

  type AuditTable = map<(string, string), Audit>

  /** One audit entry per source file and tenant; an entry already there stays. */
  function AddAudits(audits: AuditTable, path: string, tenants: seq<string>, audit: Audit, k: nat): AuditTable
    requires k <= |tenants|
    decreases |tenants| - k
  {
    if k == |tenants| then audits
    else
      var next := if (path, tenants[k]) in audits then audits else audits[(path, tenants[k]) := audit];
      AddAudits(next, path, tenants, audit, k + 1)
  }

  /** What the transaction has done when it commits. */
  datatype Done = Done(target: Target, imported: Counts, skipped: Counts)

  /** The four fallible imports, each seeing what the ones before it added. */
  datatype Parts = Parts(
    tenants: Tally<TenantTable>, jobs: Tally<JobTable>, events: Tally<EventTable>, findings: Tally<FindingImport>,
    correlations: Tally<CorrelationTable>)

  /** The finding import before its first row. */
  function Start(target: Target): Tally<FindingImport> {
    Tally(FindingImport(target.findings, target.nextRowId, map[]), 0, 0)
  }

  function Copy(src: Legacy, target: Target, now: int): Result<Parts, MigrationError> {
    var tenants := ImportTenants(Tally(target.tenants, 0, 0), SourceTenants(src), 0);
    if tenants.Raised? then Raised(Refused) else
    var jobs := ImportJobs(Tally(target.jobs, 0, 0), src.jobs, 0);
    if jobs.Raised? then Raised(Refused) else
    var events := ImportEvents(jobs.value.table, Tally(target.events, 0, 0), src.events, 0);
    if events.Raised? then Raised(Refused) else
    var findings := ImportFindings(Start(target), src.findings, 0, now);
    if findings.Raised? then Raised(Refused) else
    var ids := findings.value.table.ids;
    var correlations := ImportCorrelations(ids, Tally(target.correlations, 0, 0), src.correlations, 0);
    if correlations.Raised? then Raised(Refused) else
    Ok(Parts(tenants.value, jobs.value, events.value, findings.value, correlations.value))
  }

  function ImportedCounts(p: Parts): Counts {
    Counts(p.tenants.imported, p.jobs.imported, p.events.imported, p.findings.imported, p.correlations.imported)
  }

  function SkippedCounts(p: Parts): Counts {
    Counts(p.tenants.skipped, p.jobs.skipped, p.events.skipped, p.findings.skipped, p.correlations.skipped)
  }

  function Finish(src: Legacy, target: Target, path: string, p: Parts): Done {
    Done(Target(p.tenants.table, p.jobs.table, p.events.table, p.findings.table.rows, p.findings.table.nextRowId,
        p.correlations.table,
                AddAudits(target.audits, path, SourceTenants(src), Audit(SourceCounts(src), ImportedCounts(p)), 0)),
         ImportedCounts(p), SkippedCounts(p))
  }

  function Migrate(src: Legacy, target: Target, path: string, now: int): Result<Done, MigrationError> {
    var p := Copy(src, target, now);
    if p.Raised? then Raised(Refused) else Ok(Finish(src, target, path, p.value))
  }

  datatype Report = Report(dryRun: bool, source: Counts, imported: Counts, skipped: Counts)

  /** The product database, behind one transaction. */
  class Database {
    var target: Target

    constructor (initial: Target)
      ensures target == initial
    {
      target := initial;
    }

    /** `run`: a refusal rolls the transaction back; a dry run only counts. */
    method Run(src: Legacy, path: string, now: int, apply: bool) returns (r: Result<Report, MigrationError>)
      modifies this
      ensures !src.recognised ==> r == Raised(Refused)
      ensures src.recognised && !apply ==> r == Ok(Report(true, SourceCounts(src), ZERO, ZERO))
      ensures !src.recognised || !apply || r.Raised? ==> target == old(target)
      ensures src.recognised && apply ==>
                var done := Migrate(src, old(target), path, now);
                if done.Raised? then r == Raised(Refused)
                else
                  && target == done.value.target
                  && r == Ok(Report(false, SourceCounts(src), done.value.imported, done.value.skipped))
    {
      if !src.recognised { return Raised(Refused); }
      var counts := SourceCounts(src);
      if !apply { return Ok(Report(true, counts, ZERO, ZERO)); }
      var tenantIds := SourceTenants(src);
      var tenants := TenantLoop(target.tenants, tenantIds);
      if tenants.Raised? { return Raised(Refused); }
      var jobs := JobLoop(target.jobs, src.jobs);
      if jobs.Raised? { return Raised(Refused); }
      var events := EventLoop(jobs.value.table, target.events, src.events);
      if events.Raised? { return Raised(Refused); }
      var findings := FindingLoop(target.findings, target.nextRowId, src.findings, now);
      if findings.Raised? { return Raised(Refused); }
      var correlations := CorrelationLoop(findings.value.table.ids, target.correlations, src.correlations);
      if correlations.Raised? { return Raised(Refused); }
      var parts := Parts(tenants.value, jobs.value, events.value, findings.value, correlations.value);
      var audits := AuditLoop(target.audits, path, tenantIds, Audit(counts, ImportedCounts(parts)));
      target := Target(tenants.value.table, jobs.value.table, events.value.table, findings.value.table.rows,
                       findings.value.table.nextRowId, correlations.value.table, audits);
      r := Ok(Report(false, counts, ImportedCounts(parts), SkippedCounts(parts)));
    }

    method AuditLoop(audits: AuditTable, path: string, tenants: seq<string>, audit: Audit) returns (result: AuditTable)
      ensures result == AddAudits(audits, path, tenants, audit, 0)
    {
      result := audits;
      for k := 0 to |tenants|
        invariant AddAudits(result, path, tenants, audit, k) == AddAudits(audits, path, tenants, audit, 0)
      {
        if (path, tenants[k]) in result { continue; }
        result := result[(path, tenants[k]) := audit];
      }
    }
  }

  // ---------------------------------------------------------------- conservation

  /** The five imports of a run that went through. */
  predicate CopiedFrom(src: Legacy, target: Target, now: int, p: Parts) {
    && ImportTenants(Tally(target.tenants, 0, 0), SourceTenants(src), 0) == Ok(p.tenants)
    && ImportJobs(Tally(target.jobs, 0, 0), src.jobs, 0) == Ok(p.jobs)
    && ImportEvents(p.jobs.table, Tally(target.events, 0, 0), src.events, 0) == Ok(p.events)
    && ImportFindings(Start(target), src.findings, 0, now) == Ok(p.findings)
    && ImportCorrelations(p.findings.table.ids, Tally(target.correlations, 0, 0), src.correlations, 0)
       == Ok(p.correlations)
  }

  lemma CopyIs(src: Legacy, target: Target, now: int, p: Parts)
    requires Copy(src, target, now) == Ok(p)
    ensures CopiedFrom(src, target, now, p)
  {
  }

  lemma EachCountedOnce(src: Legacy, target: Target, now: int, p: Parts)
    requires CopiedFrom(src, target, now, p)
    ensures p.tenants.imported + p.tenants.skipped == |SourceTenants(src)|
    ensures p.jobs.imported + p.jobs.skipped == |src.jobs|
    ensures p.events.imported + p.events.skipped == |src.events|
    ensures p.findings.imported + p.findings.skipped == |src.findings|
    ensures p.correlations.imported + p.correlations.skipped == |src.correlations|
  {
    TenantsCounted(Tally(target.tenants, 0, 0), SourceTenants(src), 0, p.tenants);
    JobsCounted(Tally(target.jobs, 0, 0), src.jobs, 0, p.jobs);
    EventsCounted(p.jobs.table, Tally(target.events, 0, 0), src.events, 0, p.events);
    FindingsCounted(Start(target), src.findings, 0, now, p.findings);
    CorrelationsCounted(p.findings.table.ids, Tally(target.correlations, 0, 0), src.correlations, 0, p.correlations);
  }

  lemma EachAdded(src: Legacy, target: Target, now: int, p: Parts)
    requires CopiedFrom(src, target, now, p)
    ensures |target.tenants| + p.tenants.imported == |p.tenants.table|
    ensures |target.jobs| + p.jobs.imported == |p.jobs.table|
    ensures |target.events| + p.events.imported == |p.events.table|
    ensures |target.findings| + p.findings.imported == |p.findings.table.rows|
    ensures |target.correlations| + p.correlations.imported == |p.correlations.table|
  {
    TenantsCounted(Tally(target.tenants, 0, 0), SourceTenants(src), 0, p.tenants);
    JobsCounted(Tally(target.jobs, 0, 0), src.jobs, 0, p.jobs);
    EventsCounted(p.jobs.table, Tally(target.events, 0, 0), src.events, 0, p.events);
    FindingsCounted(Start(target), src.findings, 0, now, p.findings);
    CorrelationsCounted(p.findings.table.ids, Tally(target.correlations, 0, 0), src.correlations, 0, p.correlations);
  }

  /** Every source row is counted once, as imported or as skipped, in each of the five counts. */
  lemma Conserved(src: Legacy, target: Target, path: string, now: int)
    ensures var r := Migrate(src, target, path, now);
      r.Ok? ==> r.value.imported.Plus(r.value.skipped) == SourceCounts(src)
  {
    var copy := Copy(src, target, now);
    if copy.Ok? {
      CopyIs(src, target, now, copy.value);
      EachCountedOnce(src, target, now, copy.value);
    }
  }

  function Sizes(target: Target): Counts {
    Counts(|target.tenants|, |target.jobs|, |target.events|, |target.findings|, |target.correlations|)
  }

  /** What is counted as imported is, in each of the five counts, the number of rows the target gained. */
  lemma ImportedIsAdded(src: Legacy, target: Target, path: string, now: int)
    ensures var r := Migrate(src, target, path, now);
      r.Ok? ==> Sizes(target).Plus(r.value.imported) == Sizes(r.value.target)
  {
    var copy := Copy(src, target, now);
    if copy.Ok? {
      CopyIs(src, target, now, copy.value);
      EachAdded(src, target, now, copy.value);
    }
  }

  /** Every row the target had before the run is still there, unchanged. */
  lemma TargetKept(src: Legacy, target: Target, path: string, now: int)
    ensures var r := Migrate(src, target, path, now);
      r.Ok? ==>
        && (forall id :: id in target.tenants ==>
            id in r.value.target.tenants && r.value.target.tenants[id] == target.tenants[id])
        && (forall id :: id in target.jobs ==> id in r.value.target.jobs && r.value.target.jobs[id] == target.jobs[id])
        && (forall key :: key in target.events ==>
            key in r.value.target.events && r.value.target.events[key] == target.events[key])
        && (forall key :: key in target.findings ==>
            key in r.value.target.findings && r.value.target.findings[key] == target.findings[key])
        && (forall key :: key in target.correlations ==>
              key in r.value.target.correlations && r.value.target.correlations[key] == target.correlations[key])
        && (FindingIdsUnique(target.findings) ==> FindingIdsUnique(r.value.target.findings))
  {
    if Copy(src, target, now).Ok? {
      var p := Copy(src, target, now).value;
      if FindingIdsUnique(target.findings) {
        FindingsStayUnique(Start(target), src.findings, 0, now, p.findings);
      }
      TenantsImported(Tally(target.tenants, 0, 0), SourceTenants(src), 0, p.tenants);
      JobsImported(Tally(target.jobs, 0, 0), src.jobs, 0, p.jobs);
      EventsImported(p.jobs.table, Tally(target.events, 0, 0), src.events, 0, p.events);
      FindingsImported(Start(target), src.findings, 0, now, p.findings);
      CorrelationsImported(p.findings.table.ids, Tally(target.correlations, 0, 0), src.correlations, 0, p.correlations);
    }
  }

  // ---------------------------------------------------------------- a second run

  lemma {:induction false} AuditsAdded(audits: AuditTable, path: string, tenants: seq<string>, audit: Audit, k: nat)
    requires k <= |tenants|
    ensures forall key :: key in audits ==> key in AddAudits(audits, path, tenants, audit, k)
    ensures forall i :: k <= i < |tenants| ==> (path, tenants[i]) in AddAudits(audits, path, tenants, audit, k)
    decreases |tenants| - k
  {
    if k < |tenants| {
      var next := if (path, tenants[k]) in audits then audits else audits[(path, tenants[k]) := audit];
      AuditsAdded(next, path, tenants, audit, k + 1);
    }
  }

  lemma {:induction false} AuditsAgain(audits: AuditTable, path: string, tenants: seq<string>, audit: Audit, k: nat)
    requires k <= |tenants| && forall i :: k <= i < |tenants| ==> (path, tenants[i]) in audits
    ensures AddAudits(audits, path, tenants, audit, k) == audits
    decreases |tenants| - k
  {
    if k < |tenants| { AuditsAgain(audits, path, tenants, audit, k + 1); }
  }

  lemma CopyAgain(src: Legacy, target: Target, now: int, p: Parts, target': Target, now': int)
    requires Copy(src, target, now) == Ok(p)
    requires target'.tenants == p.tenants.table && target'.jobs == p.jobs.table && target'.events == p.events.table
    requires target'.findings == p.findings.table.rows && target'.nextRowId == p.findings.table.nextRowId
    requires target'.correlations == p.correlations.table
    ensures Copy(src, target', now').Ok?
    ensures var q := Copy(src, target', now').value;
      && q.tenants == Tally(target'.tenants, 0, |SourceTenants(src)|)
      && q.jobs == Tally(target'.jobs, 0, |src.jobs|) && q.events == Tally(target'.events, 0, |src.events|)
      && q.findings.table.rows == target'.findings && q.findings.table.nextRowId == target'.nextRowId
      && q.findings.imported == 0 && q.findings.skipped == |src.findings|
      && q.correlations == Tally(target'.correlations, 0, |src.correlations|)
  {
    TenantsTwice(target.tenants, SourceTenants(src), p.tenants);
    JobsTwice(target.jobs, src.jobs, p.jobs);
    EventsTwice(p.jobs.table, target.events, src.events, p.events);
    FindingsTwice(Start(target), src.findings, now, p.findings, Start(target'), now');
    var again := ImportFindings(Start(target'), src.findings, 0, now').value;
    CorrelationsTwice(p.findings.table.ids, target.correlations, src.correlations, p.correlations, again.table.ids);
  }

  /** Running the same source again, at any later time, imports nothing, skips everything and changes nothing. */
  lemma SecondRunChangesNothing(src: Legacy, target: Target, path: string, now: int, now': int)
    ensures var r := Migrate(src, target, path, now);
      r.Ok? ==> Migrate(src, r.value.target, path, now') == Ok(Done(r.value.target, ZERO, SourceCounts(src)))
  {
    if Copy(src, target, now).Ok? {
      var p := Copy(src, target, now).value;
      var target' := Finish(src, target, path, p).target;
      CopyAgain(src, target, now, p, target', now');
      var q := Copy(src, target', now').value;
      AuditsAdded(target.audits, path, SourceTenants(src), Audit(SourceCounts(src), ImportedCounts(p)), 0);
      AuditsAgain(target'.audits, path, SourceTenants(src), Audit(SourceCounts(src), ImportedCounts(q)), 0);
    }
  }

  // ---------------------------------------------------------------- links

  /** The target row with the fingerprint of finding `f` has this id. */
  predicate HoldsAs(target: Target, tenant: string, f: Finding, id: string) {
    KeyOf(tenant, f) in target.findings && target.findings[KeyOf(tenant, f)].findingId == id
  }

  /**
   `link` is what a name in a correlation of `tenant` becomes: the row of its last source finding, or the name
   itself.
   */
  predicate LinkFor(src: Legacy, target: Target, tenant: string, name: string, link: string) {
    if exists i :: 0 <= i < |src.findings| && Named(src.findings[i], tenant, name) then
      exists i :: 0 <= i < |src.findings| && LastNamed(src.findings, 0, i, tenant, name)
                  && HoldsAs(target, tenant, src.findings[i].finding.value, link)
    else
      link == name
  }

  lemma {:induction false} LastExists(rows: seq<LegacyFinding>, k: nat, tenant: string, name: string) returns (i: nat)
    requires k < |rows| && Named(rows[k], tenant, name)
    ensures i < |rows| && LastNamed(rows, 0, i, tenant, name)
    decreases |rows| - k
  {
    if j: nat :| k < j < |rows| && Named(rows[j], tenant, name) {
      i := LastExists(rows, j, tenant, name);
    } else {
      i := k;
    }
  }

  lemma MappedLink(
      src: Legacy, target: Target, now: int, target': Target, p: Parts, tenant: string, names: seq<string>, n: nat)
    requires Copy(src, target, now) == Ok(p) && target'.findings == p.findings.table.rows && n < |names|
    ensures LinkFor(src, target', tenant, names[n], Mapped(p.findings.table.ids, tenant, names)[n])
  {
    var start := Start(target);
    if k: nat :| k < |src.findings| && Named(src.findings[k], tenant, names[n]) {
      var i := LastExists(src.findings, k, tenant, names[n]);
      IdsImported(start, src.findings, 0, now, p.findings, i, tenant, names[n]);
      assert HoldsAs(target', tenant, src.findings[i].finding.value, Mapped(p.findings.table.ids, tenant, names)[n]);
    } else {
      IdsUntouched(start, src.findings, 0, now, p.findings, tenant, names[n]);
    }
  }

  /**
   The links of an imported correlation are distinct, and they are exactly what its names become: for a name
   the source knows, the target row with the fingerprint of the last source finding of that id.
   */
  lemma LinksFollowFindings(src: Legacy, target: Target, path: string, now: int, key: CorrelationKey)
    requires Migrate(src, target, path, now).Ok?
    requires key in Migrate(src, target, path, now).value.target.correlations && key !in target.correlations
    ensures key.2.findings.Some?
    ensures var target' := Migrate(src, target, path, now).value.target;
      var names, links := key.2.findings.value, target'.correlations[key].links;
      && (forall a, b :: 0 <= a < b < |links| ==> links[a] != links[b])
      && (forall name :: name in names ==> exists link :: link in links && LinkFor(src, target', key.0, name, link))
      && (forall link :: link in links ==> exists name :: name in names && LinkFor(src, target', key.0, name, link))
  {
    var p := Copy(src, target, now).value;
    var target' := Migrate(src, target, path, now).value.target;
    CorrelationsImported(p.findings.table.ids, Tally(target.correlations, 0, 0), src.correlations, 0, p.correlations);
    var names := key.2.findings.value;
    var mapped := Mapped(p.findings.table.ids, key.0, names);
    DedupIs(mapped);
    forall name | name in names ensures exists link :: link in mapped && LinkFor(src, target', key.0, name, link) {
      var n: nat :| n < |names| && names[n] == name;
      MappedLink(src, target, now, target', p, key.0, names, n);
      assert mapped[n] in mapped;
    }
    forall link | link in mapped ensures exists name :: name in names && LinkFor(src, target', key.0, name, link) {
      var n: nat :| n < |mapped| && mapped[n] == link;
      MappedLink(src, target, now, target', p, key.0, names, n);
      assert names[n] in names;
    }
  }

  /** The legacy schema holds each finding id of a tenant once. */
  predicate SourceIdsUnique(src: Legacy) {
    forall i, j :: 0 <= i < |src.findings| && 0 <= j < |src.findings| && SameName(src.findings[i], src.findings[j]) ==>
        i == j
  }

  predicate SameName(a: LegacyFinding, b: LegacyFinding) {
    a.finding.Some? && Named(b, a.tenant, a.finding.value.id)
  }

  lemma UniqueLink(src: Legacy, target: Target, i: nat, link: string)
    requires SourceIdsUnique(src) && i < |src.findings| && src.findings[i].finding.Some?
    requires LinkFor(src, target, src.findings[i].tenant, src.findings[i].finding.value.id, link)
    ensures HoldsAs(target, src.findings[i].tenant, src.findings[i].finding.value, link)
  {
    var tenant, name := src.findings[i].tenant, src.findings[i].finding.value.id;
    assert Named(src.findings[i], tenant, name);
    var j :| 0 <= j < |src.findings| && LastNamed(src.findings, 0, j, tenant, name)
      && HoldsAs(target, tenant, src.findings[j].finding.value, link);
    assert SameName(src.findings[i], src.findings[j]);
  }

  /** Then every name of a finding in the source is linked to the target row with that finding's fingerprint. */
  lemma KnownFindingsLinked(src: Legacy, target: Target, path: string, now: int, key: CorrelationKey, i: nat)
    requires SourceIdsUnique(src) && Migrate(src, target, path, now).Ok?
    requires key in Migrate(src, target, path, now).value.target.correlations && key !in target.correlations
    requires i < |src.findings| && src.findings[i].finding.Some? && src.findings[i].tenant == key.0
    requires key.2.findings.Some? && src.findings[i].finding.value.id in key.2.findings.value
    ensures var target' := Migrate(src, target, path, now).value.target;
      exists link :: link in target'.correlations[key].links
          && HoldsAs(target', key.0, src.findings[i].finding.value, link)
  {
    LinksFollowFindings(src, target, path, now, key);
    var target' := Migrate(src, target, path, now).value.target;
    var link :| link in target'.correlations[key].links
        && LinkFor(src, target', key.0, src.findings[i].finding.value.id, link);
    UniqueLink(src, target', i, link);
  }

  // ---------------------------------------------------------------- jobs and their logs

  /** `log` is the job's log in the legacy file, numbered from one. */
  predicate IsSourceLog(rows: seq<LegacyEvent>, tenant: string, job: string, log: Jobs.Log) {
    && Jobs.Numbered(log)
    && (forall i :: 0 <= i < |rows| && rows[i].tenant == tenant && rows[i].job == job ==>
          1 <= rows[i].sequence <= |log| && rows[i].event == Some(log[rows[i].sequence - 1].event))
    && (forall n :: 0 <= n < |log| ==> HasKey(rows, (tenant, job, log[n].sequence)))
  }

  predicate HasKey(rows: seq<LegacyEvent>, key: EventKey) {
    exists i :: 0 <= i < |rows| && rows[i].Key() == key
  }

  /** `log` is the job's log in the target. */
  ghost predicate IsTargetLog(events: EventTable, tenant: string, job: string, log: Jobs.Log) {
    && Jobs.Numbered(log)
    && (forall sequence: int :: (tenant, job, sequence) in events <==> 1 <= sequence <= |log|)
    && (forall sequence: int :: (tenant, job, sequence) in events ==>
        events[(tenant, job, sequence)] == log[sequence - 1].event)
  }

  lemma LogCarried(
      jobs: JobTable, events: EventTable, rows: seq<LegacyEvent>, t': Tally<EventTable>, tenant: string, job: string,
      log: Jobs.Log)
    requires ImportEvents(jobs, Tally(events, 0, 0), rows, 0) == Ok(t')
    requires IsSourceLog(rows, tenant, job, log) && forall sequence: int :: (tenant, job, sequence) !in events
    ensures IsTargetLog(t'.table, tenant, job, log)
  {
    forall sequence: int
      ensures (tenant, job, sequence) in t'.table <==> 1 <= sequence <= |log|
      ensures (tenant, job, sequence) in t'.table ==> t'.table[(tenant, job, sequence)] == log[sequence - 1].event
    {
      EntryCarried(jobs, events, rows, t', tenant, job, log, sequence);
    }
  }

  lemma EntryCarried(
      jobs: JobTable, events: EventTable, rows: seq<LegacyEvent>, t': Tally<EventTable>, tenant: string, job: string,
      log: Jobs.Log, sequence: int)
    requires ImportEvents(jobs, Tally(events, 0, 0), rows, 0) == Ok(t')
    requires IsSourceLog(rows, tenant, job, log) && (tenant, job, sequence) !in events
    ensures (tenant, job, sequence) in t'.table <==> 1 <= sequence <= |log|
    ensures (tenant, job, sequence) in t'.table ==> t'.table[(tenant, job, sequence)] == log[sequence - 1].event
  {
    if 1 <= sequence <= |log| {
      assert HasKey(rows, (tenant, job, log[sequence - 1].sequence));
      KeyArrives(jobs, events, rows, t', (tenant, job, sequence));
    }
    if (tenant, job, sequence) in t'.table {
      EntryArrives(jobs, events, rows, t', (tenant, job, sequence));
      EventCarried(rows, tenant, job, log, sequence, t'.table[(tenant, job, sequence)]);
    }
  }

  lemma KeyArrives(jobs: JobTable, events: EventTable, rows: seq<LegacyEvent>, t': Tally<EventTable>, key: EventKey)
    requires ImportEvents(jobs, Tally(events, 0, 0), rows, 0) == Ok(t') && HasKey(rows, key)
    ensures key in t'.table
  {
    EventsImported(jobs, Tally(events, 0, 0), rows, 0, t');
  }

  lemma EntryArrives(jobs: JobTable, events: EventTable, rows: seq<LegacyEvent>, t': Tally<EventTable>, key: EventKey)
    requires ImportEvents(jobs, Tally(events, 0, 0), rows, 0) == Ok(t') && key in t'.table && key !in events
    ensures exists i :: 0 <= i < |rows| && EventFrom(t'.table[key], key, rows, i)
  {
    EventsImported(jobs, Tally(events, 0, 0), rows, 0, t');
  }

  lemma EventCarried(
      rows: seq<LegacyEvent>, tenant: string, job: string, log: Jobs.Log, sequence: int, event: Jobs.Event)
    requires IsSourceLog(rows, tenant, job, log)
    requires exists i :: 0 <= i < |rows| && EventFrom(event, (tenant, job, sequence), rows, i)
    ensures 1 <= sequence <= |log| && event == log[sequence - 1].event
  {
  }

  /** Replaying the log reproduces the columns of the legacy row. */
  ghost predicate LegacyAgrees(row: LegacyJob, log: Jobs.Log) {
    && log != [] && Jobs.Numbered(log)
    && row.status == Jobs.LastStatus(log)
    && row.attempt == Jobs.RunningCount(log)
    && (row.cancelRequested <==> Jobs.CancelIn(log))
    && match Jobs.LastFault(log)
       case None => row.errorCode == None || row.errorCode == Some("")
       case Some(fault) => fault.code != "" && row.errorCode == Some(fault.code) && row.errorMessage == fault.message
  }

  /**
   A job the target did not have arrives with the row and the log it had in the legacy file: if its log
   replays to its row there, it does so in the target.
   */
  lemma ReplayCarriesOver(src: Legacy, target: Target, path: string, now: int, a: nat, log: Jobs.Log)
    requires Migrate(src, target, path, now).Ok? && a < |src.jobs|
    requires forall b :: 0 <= b < |src.jobs| && src.jobs[b].id == src.jobs[a].id ==> b == a
    requires src.jobs[a].id !in target.jobs
    requires forall sequence: int :: (src.jobs[a].tenant, src.jobs[a].id, sequence) !in target.events
    requires IsSourceLog(src.events, src.jobs[a].tenant, src.jobs[a].id, log)
    ensures var row, target' := src.jobs[a], Migrate(src, target, path, now).value.target;
      && row.id in target'.jobs && JobFrom(target'.jobs[row.id], row)
      && IsTargetLog(target'.events, row.tenant, row.id, log)
      && (LegacyAgrees(row, log) ==> Jobs.Agrees(Jobs.Job(target'.jobs[row.id].row, log)))
  {
    var p := Copy(src, target, now).value;
    RowCarried(src, target.jobs, p.jobs, a);
    LogCarried(p.jobs.table, target.events, src.events, p.events, src.jobs[a].tenant, src.jobs[a].id, log);
    if LegacyAgrees(src.jobs[a], log) { CopyAgrees(src.jobs[a], p.jobs.table[src.jobs[a].id], log); }
  }

  lemma RowCarried(src: Legacy, jobs: JobTable, t': Tally<JobTable>, a: nat)
    requires a < |src.jobs| && ImportJobs(Tally(jobs, 0, 0), src.jobs, 0) == Ok(t') && src.jobs[a].id !in jobs
    requires forall b :: 0 <= b < |src.jobs| && src.jobs[b].id == src.jobs[a].id ==> b == a
    ensures src.jobs[a].id in t'.table && JobFrom(t'.table[src.jobs[a].id], src.jobs[a])
  {
    JobsImported(Tally(jobs, 0, 0), src.jobs, 0, t');
    JobsArrive(Tally(jobs, 0, 0), src.jobs, 0, t', src.jobs[a].id);
  }

  /** A copy of a legacy row replays from every log the row replays from. */
  lemma CopyAgrees(row: LegacyJob, job: JobRow, log: Jobs.Log)
    requires JobFrom(job, row) && LegacyAgrees(row, log)
    ensures Jobs.Agrees(Jobs.Job(job.row, log))
  {
  }
}
