/**
 Sequences of calls on the job repository (src/shared_integration/sql_jobs.py): what each leaves of the jobs, and
 what holds of a key over every history.
 */
module JobCalls {
  import opened Prelude
  import opened Findings
  import opened Jobs
  import JobRepository

  type JobMap = map<string, Job>

  /** The arguments of the state-changing calls; `freshId` is the identifier that `uuid4` draws. */
  datatype Call =
    | CreateCall(tenant: string, source: Source, payload: string, key: Option<string>, freshId: string)
    | ClaimCall(tenant: string, id: string, requireQueued: bool)
    | SetCall(tenant: string, id: string, status: Status, count: Option<nat>, code: Option<string>,
        message: Option<string>)
    | EventCall(tenant: string, id: string, event: Event)
    | CancelCall(tenant: string, id: string)

  predicate Matches(jobs: JobMap, tenant: string, key: Option<string>, id: string) {
    key.Some? && id in jobs && jobs[id].row.tenant == tenant && jobs[id].row.idempotencyKey == key
  }

  /** The job `find_by_idempotency_key` finds, if a key is given. */
  ghost function Match(jobs: JobMap, tenant: string, key: Option<string>): (found: Option<string>)
    ensures found.Some? ==> Matches(jobs, tenant, key, found.value)
    ensures found.None? ==> forall id :: !Matches(jobs, tenant, key, id)
  {
    if id :| Matches(jobs, tenant, key, id) then Some(id) else None
  }

  ghost function CreateAnswer(jobs: JobMap, tenant: string, key: Option<string>, freshId: string): (string, bool) {
    var found := Match(jobs, tenant, key);
    if found.Some? then (found.value, false) else (freshId, true)
  }

  predicate Has(jobs: JobMap, tenant: string, id: string) {
    id in jobs && jobs[id].row.tenant == tenant
  }

  /** The jobs after a call; one that raises or matches nothing changes none. */
  ghost function Apply(jobs: JobMap, call: Call): JobMap {
    match call
    case CreateCall(tenant, source, payload, key, freshId) =>
      if Match(jobs, tenant, key).Some? then jobs else jobs[freshId := Create(tenant, source, payload, key)]
    case ClaimCall(tenant, id, requireQueued) =>
      if Has(jobs, tenant, id) && MarkRunning(jobs[id], requireQueued).Some?
      then jobs[id := MarkRunning(jobs[id], requireQueued).value] else jobs
    case SetCall(tenant, id, status, count, code, message) =>
      if Has(jobs, tenant, id) then jobs[id := Transition(jobs[id], status, count, code, message)] else jobs
    case EventCall(tenant, id, event) =>
      if Has(jobs, tenant, id) then jobs[id := AppendEvent(jobs[id], event)] else jobs
    case CancelCall(tenant, id) =>
      if Has(jobs, tenant, id) then jobs[id := RequestCancel(jobs[id])] else jobs
  }

  ghost function After(calls: seq<Call>, n: nat): JobMap
    requires n <= |calls|
  {
    if n == 0 then map[] else Apply(After(calls, n - 1), calls[n - 1])
  }

  /** No identifier is drawn twice. */
  predicate Fresh(calls: seq<Call>) {
    forall i, j :: 0 <= i < |calls| && 0 <= j < |calls| && SameDraw(calls[i], calls[j]) ==> i == j
  }

  predicate SameDraw(a: Call, b: Call) {
    a.CreateCall? && b.CreateCall? && a.freshId == b.freshId
  }

  predicate IsCreate(call: Call, tenant: string, key: Option<string>) {
    call.CreateCall? && call.tenant == tenant && call.key == key
  }

  /** What the repository answers to the create call `i` of a history. */
  ghost function AnswerAt(calls: seq<Call>, i: nat): (string, bool)
    requires i < |calls| && calls[i].CreateCall?
  {
    CreateAnswer(After(calls, i), calls[i].tenant, calls[i].key, calls[i].freshId)
  }

  // ---------------------------------------------------------------- what no call changes

  lemma Kept(jobs: JobMap, call: Call, jobs': JobMap, id: string)
    requires jobs' == Apply(jobs, call) && id in jobs && (call.CreateCall? ==> call.freshId != id)
    ensures id in jobs' && SameJob(jobs[id].row, jobs'[id].row)
  {
  }

  lemma Arrives(jobs: JobMap, call: Call, jobs': JobMap, id: string)
    requires jobs' == Apply(jobs, call) && id in jobs' && id !in jobs
    ensures call.CreateCall? && call.freshId == id && Match(jobs, call.tenant, call.key).None?
    ensures IsNew(jobs'[id], call.tenant, call.source, call.payload, call.key)
  {
    CreateIs(call.tenant, call.source, call.payload, call.key);
  }

  /** Every job was created by one call, and keeps that call's tenant, source, payload and key. */
  predicate ComesFrom(row: Row, call: Call) {
    && call.CreateCall? && row.tenant == call.tenant && row.source == call.source && row.payload == call.payload
    && row.idempotencyKey == call.key
  }

  lemma {:induction false} Origin(calls: seq<Call>, k: nat, jobs: JobMap, id: string) returns (j: nat)
    requires Fresh(calls) && k <= |calls| && jobs == After(calls, k) && id in jobs
    ensures j < k && calls[j].CreateCall? && calls[j].freshId == id && AnswerAt(calls, j) == (id, true)
    ensures ComesFrom(jobs[id].row, calls[j])
  {
    var last: nat := k - 1;
    var before := After(calls, last);
    if id in before {
      j := Origin(calls, last, before, id);
      assert SameDraw(calls[j], calls[last]) ==> j == last;
      Kept(before, calls[last], jobs, id);
    } else {
      Arrives(before, calls[last], jobs, id);
      j := last;
    }
  }

  lemma {:induction false} Stays(calls: seq<Call>, j: nat, k: nat, jobs: JobMap)
    requires Fresh(calls) && j < k <= |calls| && jobs == After(calls, k)
    requires calls[j].CreateCall? && AnswerAt(calls, j).1
    ensures calls[j].freshId in jobs && ComesFrom(jobs[calls[j].freshId].row, calls[j])
  {
    var last: nat := k - 1;
    var before := After(calls, last);
    if j == last {
      CreateIs(calls[j].tenant, calls[j].source, calls[j].payload, calls[j].key);
    } else {
      Stays(calls, j, last, before);
      assert SameDraw(calls[j], calls[last]) ==> j == last;
      Kept(before, calls[last], jobs, calls[j].freshId);
    }
  }

  /** No two jobs of a tenant share a key. */
  lemma OneMatch(calls: seq<Call>, k: nat, jobs: JobMap, tenant: string, key: Option<string>, a: string, b: string)
    requires Fresh(calls) && k <= |calls| && jobs == After(calls, k)
    requires Matches(jobs, tenant, key, a) && Matches(jobs, tenant, key, b)
    ensures a == b
  {
    var i := Origin(calls, k, jobs, a);
    var j := Origin(calls, k, jobs, b);
    if i < j { EarlierMatch(calls, i, j); }
    if j < i { EarlierMatch(calls, j, i); }
  }

  /** A create call whose tenant and key an earlier call has used is answered without a new job. */
  lemma EarlierMatch(calls: seq<Call>, i: nat, j: nat)
    requires Fresh(calls) && i < j < |calls| && calls[i].CreateCall? && calls[i].key.Some?
    requires AnswerAt(calls, i).1 && IsCreate(calls[j], calls[i].tenant, calls[i].key)
    ensures !AnswerAt(calls, j).1
  {
    Stays(calls, i, j, After(calls, j));
    assert Matches(After(calls, j), calls[j].tenant, calls[j].key, calls[i].freshId);
  }

  // ---------------------------------------------------------------- keys over histories

  /** Over any history, a create makes a job exactly if no key is given or no earlier call gave it for the tenant. */
  lemma CreatedIff(calls: seq<Call>, j: nat)
    requires Fresh(calls) && j < |calls| && calls[j].CreateCall?
    ensures AnswerAt(calls, j).1 <==>
      calls[j].key.None? || forall i :: 0 <= i < j ==> !IsCreate(calls[i], calls[j].tenant, calls[j].key)
  {
    var tenant, key, jobs := calls[j].tenant, calls[j].key, After(calls, j);
    if AnswerAt(calls, j).1 {
      if key.Some? {
        forall i | 0 <= i < j ensures !IsCreate(calls[i], tenant, key) {
          if IsCreate(calls[i], tenant, key) { Used(calls, i, j); }
        }
      }
    } else {
      var i := Origin(calls, j, jobs, Match(jobs, tenant, key).value);
      assert IsCreate(calls[i], tenant, key);
    }
  }

  lemma Used(calls: seq<Call>, i: nat, j: nat)
    requires Fresh(calls) && i < j < |calls| && calls[i].CreateCall? && calls[i].key.Some?
    requires IsCreate(calls[j], calls[i].tenant, calls[i].key)
    ensures Matches(After(calls, j), calls[i].tenant, calls[i].key, AnswerAt(calls, i).0)
  {
    var c: nat := i;
    if !AnswerAt(calls, i).1 {
      c := Origin(calls, i, After(calls, i), AnswerAt(calls, i).0);
    }
    Stays(calls, c, j, After(calls, j));
  }

  /**
   Whatever other calls come in between, a second create with the same tenant and key is answered with the first
   one's job and makes none.
   */
  lemma SecondCreateSame(calls: seq<Call>, i: nat, j: nat)
    requires Fresh(calls) && i < j < |calls| && calls[i].CreateCall? && calls[i].key.Some?
    requires IsCreate(calls[j], calls[i].tenant, calls[i].key)
    ensures AnswerAt(calls, j) == (AnswerAt(calls, i).0, false)
  {
    var tenant, key, jobs := calls[i].tenant, calls[i].key, After(calls, j);
    Used(calls, i, j);
    OneMatch(calls, j, jobs, tenant, key, AnswerAt(calls, i).0, Match(jobs, tenant, key).value);
  }

  // ---------------------------------------------------------------- the repository's two tables, as jobs

  type Rows = map<string, Row>
  type Events = seq<JobRepository.EventRow>

  ghost function JobsIn(rows: Rows, events: Events): JobMap {
    map id | id in rows :: JobRepository.JobAt(rows, events, id)
  }

  lemma WriteSeen(rows: Rows, events: Events, rows': Rows, events': Events, id: string, row: Row, event: Event)
    requires rows' == rows[id := row]
    requires events'
        == events + [JobRepository.EventRow(id, Entry(MaxSequence(JobRepository.LogOf(events, id)) + 1, event))]
    ensures JobsIn(rows', events')
        == JobsIn(rows, events)[id := Job(row, Append(JobRepository.LogOf(events, id), event))]
  {
    JobRepository.LogsGrow(events, events'[|events|]);
  }

  lemma NextNumber(rows: Rows, events: Events, id: string)
    requires JobRepository.TableOk(rows, events) && id in rows
    ensures MaxSequence(JobRepository.LogOf(events, id)) == |JobRepository.LogOf(events, id)|
  {
    assert Agrees(JobRepository.JobAt(rows, events, id));
    NumberedMax(JobRepository.LogOf(events, id));
  }

  function EventAt(events: Events, id: string, event: Event): JobRepository.EventRow {
    JobRepository.EventRow(id, Entry(|JobRepository.LogOf(events, id)| + 1, event))
  }

  predicate RowOf(rows: Rows, tenant: string, id: string) {
    id in rows && rows[id].tenant == tenant
  }

  /** What `CreateJob` leaves of the tables is what the call leaves of the jobs, and its answer is the call's. */
  lemma CreateSeen(rows: Rows, events: Events, rows': Rows, events': Events, call: Call, id: string, created: bool)
    requires JobRepository.TableOk(rows, events) && call.CreateCall? && call.freshId !in rows
    requires created <==> call.key.None? || forall other :: other in rows ==>
               rows[other].tenant != call.tenant || rows[other].idempotencyKey != call.key
    requires created ==>
      && id == call.freshId
      && rows'
          == rows[id := Row(call.tenant, call.source, call.payload, call.key, None, Queued, 0, false, 0, None, None)]
      && events' == events + [JobRepository.EventRow(id, Entry(1, StatusEvent(Queued, None)))]
    requires !created ==> rows' == rows && events' == events && id in rows
    requires !created ==> rows[id].tenant == call.tenant && rows[id].idempotencyKey == call.key
    ensures JobsIn(rows', events') == Apply(JobsIn(rows, events), call)
    ensures (id, created) == CreateAnswer(JobsIn(rows, events), call.tenant, call.key, call.freshId)
  {
    var jobs := JobsIn(rows, events);
    if created {
      JobRepository.LogOfStrange(events, id);
      WriteSeen(rows, events, rows', events', id, rows'[id], StatusEvent(Queued, None));
      assert Match(jobs, call.tenant, call.key).None?;
    } else {
      assert Matches(jobs, call.tenant, call.key, id);
    }
  }

  lemma ClaimSeen(rows: Rows, events: Events, rows': Rows, events': Events, call: Call)
    requires JobRepository.TableOk(rows, events) && call.ClaimCall?
    requires if RowOf(rows, call.tenant, call.id) && Claimable(rows[call.id], call.requireQueued) then
               && rows' == rows[call.id := rows[call.id].(status := Running, attempt := rows[call.id].attempt + 1,
                                                          errorCode := None, errorMessage := None)]
               && events' == events + [EventAt(events, call.id, StatusEvent(Running, None))]
             else rows' == rows && events' == events
    ensures JobsIn(rows', events') == Apply(JobsIn(rows, events), call)
  {
    if RowOf(rows, call.tenant, call.id) && Claimable(rows[call.id], call.requireQueued) {
      NextNumber(rows, events, call.id);
      WriteSeen(rows, events, rows', events', call.id, rows'[call.id], StatusEvent(Running, None));
    }
  }

  lemma SetSeen(rows: Rows, events: Events, rows': Rows, events': Events, call: Call)
    requires JobRepository.TableOk(rows, events) && call.SetCall?
    requires if RowOf(rows, call.tenant, call.id) then
               && rows' == rows[call.id := rows[call.id].(
                             status := call.status, errorCode := call.code, errorMessage := call.message,
                             resultCount := if call.count.Some? then call.count.value else rows[call.id].resultCount)]
               && events' == events + [EventAt(events, call.id, StatusEvent(call.status,
                    if call.code.Some?
                        && call.code.value != "" then Some(Fault(call.code.value, call.message)) else None))]
             else rows' == rows && events' == events
    ensures JobsIn(rows', events') == Apply(JobsIn(rows, events), call)
  {
    if RowOf(rows, call.tenant, call.id) {
      NextNumber(rows, events, call.id);
      WriteSeen(rows, events, rows', events', call.id, rows'[call.id],
                StatusEvent(call.status, FaultOf(call.code, call.message)));
    }
  }

  lemma EventSeen(rows: Rows, events: Events, events': Events, call: Call)
    requires JobRepository.TableOk(rows, events) && call.EventCall?
    requires if RowOf(rows, call.tenant, call.id) then events' == events + [EventAt(events, call.id, call.event)]
             else events' == events
    ensures JobsIn(rows, events') == Apply(JobsIn(rows, events), call)
  {
    if RowOf(rows, call.tenant, call.id) {
      NextNumber(rows, events, call.id);
      assert rows[call.id := rows[call.id]] == rows;
      WriteSeen(rows, events, rows, events', call.id, rows[call.id], call.event);
    }
  }

  lemma CancelSeen(rows: Rows, events: Events, rows': Rows, events': Events, call: Call)
    requires JobRepository.TableOk(rows, events) && call.CancelCall?
    requires if !RowOf(rows, call.tenant, call.id) then rows' == rows && events' == events
             else match rows[call.id].status
               case Queued =>
                 && rows' == rows[call.id := rows[call.id].(status := Cancelled, cancelRequested := true)]
                 && events' == events + [EventAt(events, call.id, CancelEvent(Cancelled))]
               case Running =>
                 && rows' == rows[call.id := rows[call.id].(cancelRequested := true)]
                 && events' == events + [EventAt(events, call.id, CancelEvent(Running))]
               case _ => rows' == rows && events' == events
    ensures JobsIn(rows', events') == Apply(JobsIn(rows, events), call)
  {
    if RowOf(rows, call.tenant, call.id) {
      NextNumber(rows, events, call.id);
      if rows[call.id].status.Terminal() {
        var jobs := JobsIn(rows, events);
        assert jobs[call.id := jobs[call.id]] == jobs;
      } else {
        WriteSeen(rows, events, rows', events', call.id, rows'[call.id], CancelEvent(rows'[call.id].status));
      }
    }
  }
}
