/**
 The persisted scan job: one row and its event log, and the transactions the job repositories offer
 on them (src/shared_integration/sql_jobs.py, src/shared_integration/jobs.py).
 Each transaction is a function on the pair, so that the same definition serves the repository class
 and the concurrent protocol.
 */
module Jobs {
  import opened Prelude
  import opened Findings

  datatype Status = Queued | Running | Succeeded | Failed | Cancelled | TimedOut {
    predicate Terminal() {
      this in {Succeeded, Failed, Cancelled, TimedOut}
    }
  }

  /** The `error` object of a status event and of a job's external form. */
  datatype Fault = Fault(code: string, message: Option<string>)

  datatype Event =
    | StatusEvent(status: Status, error: Option<Fault>)
    | CancelEvent(status: Status)
    | FindingEvent(finding: Finding)
    | CorrelationEvent(correlation: Correlation)
    | RetryEvent(attempt: nat, nextAttempt: nat, code: string)

  datatype Entry = Entry(sequence: nat, event: Event)

  datatype Row = Row(
    tenant: string,
    source: Source,
    payload: string,
    idempotencyKey: Option<string>,
    dispatchId: Option<string>,
    status: Status,
    attempt: nat,
    cancelRequested: bool,
    resultCount: nat,
    errorCode: Option<string>,
    errorMessage: Option<string>)

  type Log = seq<Entry>

  datatype Job = Job(row: Row, log: Log)

  // ---------------------------------------------------------------- transactions

  /** An empty code counts as no error, as the sources' truth test does. */
  function FaultOf(code: Option<string>, message: Option<string>): Option<Fault> {
    if code.Some? && code.value != "" then Some(Fault(code.value, message)) else None
  }

  function MaxSequence(log: Log): nat {
    if log == [] then 0
    else
      var rest := MaxSequence(log[..|log| - 1]);
      var last := log[|log| - 1].sequence;
      if last > rest then last else rest
  }

  function Append(log: Log, event: Event): Log {
    log + [Entry(MaxSequence(log) + 1, event)]
  }

  function Create(tenant: string, source: Source, payload: string, key: Option<string>): Job {
    Job(Row(tenant, source, payload, key, None, Queued, 0, false, 0, None, None),
        Append([], StatusEvent(Queued, None)))
  }

  /** `mark_running`: a guarded update; `None` when no row matched the guard. */
  function MarkRunning(job: Job, requireQueued: bool): Option<Job> {
    var expected := if requireQueued then Queued else Running;
    if job.row.status == expected && !job.row.cancelRequested then
      Some(Job(job.row.(status := Running, attempt := job.row.attempt + 1, errorCode := None, errorMessage := None),
               Append(job.log, StatusEvent(Running, None))))
    else
      None
  }

  /** `transition`: unguarded; it overwrites whatever status the row has. */
  function Transition(job: Job, status: Status, resultCount: Option<nat>,
                      code: Option<string>, message: Option<string>): Job {
    Job(job.row.(status := status,
                 resultCount := if resultCount.Some? then resultCount.value else job.row.resultCount,
                 errorCode := code,
                 errorMessage := message),
        Append(job.log, StatusEvent(status, FaultOf(code, message))))
  }

  function AppendEvent(job: Job, event: Event): Job {
    job.(log := Append(job.log, event))
  }

  /** `request_cancel`: nothing on a terminal job; a queued job ends at once, a running one keeps running. */
  function RequestCancel(job: Job): Job {
    if job.row.status.Terminal() then job
    else
      var next := if job.row.status == Queued then Cancelled else job.row.status;
      Job(job.row.(status := next, cancelRequested := true), Append(job.log, CancelEvent(next)))
  }

  // ---------------------------------------------------------------- what a log says

  predicate Numbered(log: Log) {
    forall i :: 0 <= i < |log| ==> log[i].sequence == i + 1
  }

  /** The status carried by the last status-bearing event. */
  function LastStatus(log: Log): Status {
    if log == [] then Queued
    else match log[|log| - 1].event
      case StatusEvent(status, _) => status
      case CancelEvent(status) => status
      case _ => LastStatus(log[..|log| - 1])
  }

  /** The error carried by the last status event. */
  function LastFault(log: Log): Option<Fault> {
    if log == [] then None
    else match log[|log| - 1].event
      case StatusEvent(_, error) => error
      case _ => LastFault(log[..|log| - 1])
  }

  function RunningCount(log: Log): nat {
    if log == [] then 0
    else RunningCount(log[..|log| - 1]) + if IsStatus(log[|log| - 1].event, Running) then 1 else 0
  }

  /** The findings of the finding events, in log order. */
  function FindingsOf(log: Log): seq<Finding> {
    if log == [] then []
    else FindingsOf(log[..|log| - 1]) +
         if log[|log| - 1].event.FindingEvent? then [log[|log| - 1].event.finding] else []
  }

  predicate IsStatus(event: Event, status: Status) {
    event.StatusEvent? && event.status == status
  }

  predicate CancelIn(log: Log) {
    exists i :: 0 <= i < |log| && log[i].event.CancelEvent?
  }

  predicate StatusIn(log: Log, status: Status) {
    exists i :: 0 <= i < |log| && IsStatus(log[i].event, status)
  }

  /** Replaying the log reproduces the row. */
  ghost predicate Agrees(job: Job) {
    && job.log != []
    && Numbered(job.log)
    && job.row.status == LastStatus(job.log)
    && FaultOf(job.row.errorCode, job.row.errorMessage) == LastFault(job.log)
    && job.row.attempt == RunningCount(job.log)
    && (job.row.cancelRequested <==> CancelIn(job.log))
  }

  // ---------------------------------------------------------------- what a new job is, and what stays of an old one

  /** The log after a write: as before, and one entry with the next number. */
  predicate Logged(before: Log, after: Log, event: Event) {
    && |after| == |before| + 1 && after[..|before|] == before
    && after[|before|].sequence == |before| + 1 && after[|before|].event == event
  }

  /** The columns no transaction on an existing job touches. */
  predicate SameJob(before: Row, after: Row) {
    && after.tenant == before.tenant && after.source == before.source && after.payload == before.payload
    && after.idempotencyKey == before.idempotencyKey && after.dispatchId == before.dispatchId
  }

  predicate IsNew(job: Job, tenant: string, source: Source, payload: string, key: Option<string>) {
    && job.row.tenant == tenant && job.row.source == source && job.row.payload == payload
    && job.row.idempotencyKey == key && job.row.dispatchId == None
    && job.row.status == Queued && job.row.attempt == 0 && !job.row.cancelRequested && job.row.resultCount == 0
    && job.row.errorCode == None && job.row.errorMessage == None
    && Logged([], job.log, StatusEvent(Queued, None))
  }

  /** A claim is due for a job in the expected status that nobody asked to cancel. */
  predicate Claimable(row: Row, requireQueued: bool) {
    !row.cancelRequested && (if requireQueued then row.status == Queued else row.status == Running)
  }

  lemma CreateIs(tenant: string, source: Source, payload: string, key: Option<string>)
    ensures IsNew(Create(tenant, source, payload, key), tenant, source, payload, key)
  {
    AppendReads([], StatusEvent(Queued, None));
  }

  // ---------------------------------------------------------------- every transaction keeps the agreement

  lemma AppendReads(log: Log, event: Event)
    ensures var log' := Append(log, event);
      && |log'| == |log| + 1 && log'[..|log|] == log && log'[|log|].event == event
      && (Numbered(log) ==> Numbered(log'))
      && LastStatus(log')
          == (match event case StatusEvent(s, _) => s case CancelEvent(s) => s case _ => LastStatus(log))
      && LastFault(log') == (if event.StatusEvent? then event.error else LastFault(log))
      && RunningCount(log') == RunningCount(log) + (if IsStatus(event, Running) then 1 else 0)
      && FindingsOf(log') == FindingsOf(log) + (if event.FindingEvent? then [event.finding] else [])
      && (CancelIn(log') <==> CancelIn(log) || event.CancelEvent?)
      && (forall status :: StatusIn(log', status) <==> StatusIn(log, status) || IsStatus(event, status))
      && (forall k :: 0 <= k <= |log| ==> log'[..k] == log[..k])
  {
    var log' := Append(log, event);
    assert log'[..|log|] == log;
    if Numbered(log) { NumberedMax(log); }
    assert CancelIn(log) ==> CancelIn(log') by {
      if i :| 0 <= i < |log| && log[i].event.CancelEvent? { assert log'[i].event.CancelEvent?; }
    }
    assert event.CancelEvent? ==> log'[|log|].event.CancelEvent?;
    forall status ensures StatusIn(log', status) <==> StatusIn(log, status) || IsStatus(event, status) {
      if i :| 0 <= i < |log| && IsStatus(log[i].event, status) { assert IsStatus(log'[i].event, status); }
      assert IsStatus(event, status) ==> IsStatus(log'[|log|].event, status);
    }
  }

  lemma {:induction false} NumberedMax(log: Log)
    requires Numbered(log)
    ensures MaxSequence(log) == |log|
  {
    if log != [] { NumberedMax(log[..|log| - 1]); }
  }

  /** A new job agrees with its one-event log. */
  lemma CreateAgrees(tenant: string, source: Source, payload: string, key: Option<string>)
    ensures Agrees(Create(tenant, source, payload, key))
  {
    AppendReads([], StatusEvent(Queued, None));
  }

  lemma MarkRunningAgrees(job: Job, requireQueued: bool)
    requires Agrees(job)
    ensures MarkRunning(job, requireQueued).Some? ==> Agrees(MarkRunning(job, requireQueued).value)
  {
    AppendReads(job.log, StatusEvent(Running, None));
  }

  /** The unguarded write agrees for every status but `Running`, which counts attempts and belongs to the claim. */
  lemma TransitionAgrees(job: Job, status: Status, count: Option<nat>, code: Option<string>, message: Option<string>)
    requires Agrees(job)
    ensures Agrees(Transition(job, status, count, code, message)) <==> status != Running
  {
    AppendReads(job.log, StatusEvent(status, FaultOf(code, message)));
  }

  /** Appending says nothing new of the row: not a status or cancel event, or one that repeats what the row has. */
  predicate Repeats(row: Row, event: Event) {
    match event
    case StatusEvent(status, error) =>
      status == row.status && status != Running && error == FaultOf(row.errorCode, row.errorMessage)
    case CancelEvent(status) => status == row.status && row.cancelRequested
    case _ => true
  }

  /** `append_event` leaves the row alone: the log still replays to it exactly if the event does not contradict it. */
  lemma AppendEventAgrees(job: Job, event: Event)
    requires Agrees(job)
    ensures Agrees(AppendEvent(job, event)) <==> Repeats(job.row, event)
  {
    AppendReads(job.log, event);
  }

  lemma RequestCancelAgrees(job: Job)
    requires Agrees(job)
    ensures Agrees(RequestCancel(job))
  {
    var next := if job.row.status == Queued then Cancelled else job.row.status;
    AppendReads(job.log, CancelEvent(next));
  }
}
