/**
 The scan-job protocol: one job shared by its creator, by any number of executors and by any number of
 cancellers (src/shared_integration/execution.py, src/shared_integration/api_v1.py).
 Every repository call is one atomic step. A step label carries the choices the environment makes, so a
 run is a sequence of labels and `Apply` is a function.
 */
module Protocol {
  import opened Prelude
  import opened Findings
  import opened Jobs

  /** What a product scan delivers. */
  datatype Outcome =
    | Found(findings: seq<Finding>)
    | ProductError(code: string, message: string, retryable: bool, timeout: bool)
    | OtherError(text: string)

  /** Where an executor is: the name says which call comes next. */
  datatype Pc =
    | Start
    | NoAdapter
    | Read(attempt: nat)
    | Claim(attempt: nat, seen: nat)
    | Scanning(attempt: nat)
    | Scanned(attempt: nat, outcome: Outcome)
    | Storing(attempt: nat, findings: seq<Finding>, added: nat, emitted: nat)
    | Retrying(attempt: nat, code: string)
    | Finishing(status: Status, fault: Option<string>, detail: Option<string>)
    | Returned

  /** `polled` is the length the log had at the last poll read, `last` what the last finished scan delivered. */
  datatype Executor = Executor(maxAttempts: nat, pc: Pc, polled: nat, last: Option<Outcome>)

  datatype Creator = Submitting | DispatchFailed | Submitted | Abandoned

  /**
   `owner` records who last claimed the job, `stored` the findings handed to the registry for it.
   `Claim.seen`, `polled`, `last` and `owner` are history: no branch reads them.
   */
  datatype State = State(
    job: Job,
    hasAdapter: bool,
    creator: Creator,
    executors: map<nat, Executor>,
    owner: Option<nat>,
    stored: seq<Finding>)

  /** A step of an executor. */
  datatype Action =
    | ReadJob
    | FailUnknownSource(text: string)
    | ReadCurrent
    | ClaimJob
    | ScanEnds(outcome: Outcome)
    | Poll(late: Option<Outcome>)
    | AddFinding
    | EmitFinding
    | EmitCorrelation(correlation: Correlation)
    | StoreRaises(reason: string)
    | Succeed
    | AppendRetry
    | Finish

  datatype Step =
    | SubmitOk
    | SubmitRaises
    | RecordDispatchFailure(reason: string)
    | Deliver(e: nat, maxAttempts: nat)
    | Cancel
    | By(e: nat, action: Action)

  function Initial(tenant: string, source: Source, payload: string, key: Option<string>, hasAdapter: bool): State {
    State(Create(tenant, source, payload, key), hasAdapter, Submitting, map[], None, [])
  }

  predicate CanDo(pc: Pc, action: Action) {
    match action
    case ReadJob => pc.Start?
    case FailUnknownSource(_) => pc.NoAdapter?
    case ReadCurrent => pc.Read?
    case ClaimJob => pc.Claim?
    case ScanEnds(_) => pc.Scanning?
    case Poll(_) => pc.Scanning? || pc.Scanned?
    case AddFinding => pc.Storing? && pc.added == pc.emitted < |pc.findings|
    case EmitFinding => pc.Storing? && pc.emitted < pc.added <= |pc.findings|
    case EmitCorrelation(_) => pc.Storing? && 0 < pc.emitted == pc.added
    case StoreRaises(_) => pc.Storing? && pc.emitted == pc.added
    case Succeed => pc.Storing? && pc.emitted == |pc.findings|
    case AppendRetry => pc.Retrying?
    case Finish => pc.Finishing?
  }

  predicate Enabled(s: State, step: Step) {
    match step
    case SubmitOk => s.creator == Submitting
    case SubmitRaises => s.creator == Submitting
    case RecordDispatchFailure(_) => s.creator == DispatchFailed
    case Deliver(e, maxAttempts) => s.creator == Submitted && e !in s.executors && maxAttempts >= 1
    case Cancel => true
    case By(e, action) => e in s.executors && CanDo(s.executors[e].pc, action)
  }

  /** The `except` clauses of `execute` for what a scan raised. */
  function AfterError(attempt: nat, maxAttempts: nat, outcome: Outcome): Pc
    requires !outcome.Found?
  {
    match outcome
    case ProductError(code, message, retryable, timeout) =>
      if retryable && attempt < maxAttempts then Retrying(attempt, code)
      else Finishing(if timeout then TimedOut else Failed, Some(code), Some(message))
    case OtherError(text) => Finishing(Failed, Some("INTERNAL_ERROR"), Some(text))
  }

  const CANCELLING := Finishing(Cancelled, None, None)

  /** The read at the head of the attempt loop. */
  function AfterRead(job: Job, attempt: nat): Pc {
    if job.row.cancelRequested || job.row.status == Cancelled then
      if job.row.status != Cancelled then CANCELLING else Returned
    else Claim(attempt, |job.log|)
  }

  /**
   One poll of the cancel flag. When the flag is up the scan is cancelled and awaited; an error the scan
   already holds, or raises while being cancelled, comes out of that await instead of the cancellation.
   When the flag is down a finished scan leaves the loop.
   */
  function AfterPoll(x: Executor, cancelled: bool, late: Option<Outcome>): Pc
    requires x.pc.Scanning? || x.pc.Scanned?
  {
    var held := if x.pc.Scanned? then Some(x.pc.outcome) else late;
    if cancelled then
      if held.None? || held.value.Found? then CANCELLING else AfterError(x.pc.attempt, x.maxAttempts, held.value)
    else if x.pc.Scanning? then x.pc
    else if x.pc.outcome.Found? then Storing(x.pc.attempt, x.pc.outcome.findings, 0, 0)
    else AfterError(x.pc.attempt, x.maxAttempts, x.pc.outcome)
  }

  function Goto(s: State, e: nat, pc: Pc): State
    requires e in s.executors
  {
    s.(executors := s.executors[e := s.executors[e].(pc := pc)])
  }

  function Apply(s: State, step: Step): State
    requires Enabled(s, step)
  {
    match step
    case SubmitOk => s.(creator := Submitted)
    case SubmitRaises => s.(creator := DispatchFailed)
    case RecordDispatchFailure(reason) =>
      s.(creator := Abandoned, job := Transition(s.job, Failed, None, Some("DISPATCH_FAILED"), Some(reason)))
    case Deliver(e, maxAttempts) => s.(executors := s.executors[e := Executor(maxAttempts, Start, 0, None)])
    case Cancel => s.(job := RequestCancel(s.job))
    case By(e, action) => Act(s, e, action)
  }

  function Act(s: State, e: nat, action: Action): State
    requires e in s.executors && CanDo(s.executors[e].pc, action)
  {
    var x := s.executors[e];
    match action
    case ReadJob =>
      Goto(s, e, if s.job.row.status.Terminal() then Returned else if s.hasAdapter then Read(1) else NoAdapter)
    case FailUnknownSource(text) =>
      Goto(s, e, Returned).(job := Transition(s.job, Failed, None, Some("UNKNOWN_SOURCE"), Some(text)))
    case ReadCurrent => Goto(s, e, AfterRead(s.job, x.pc.attempt))
    case ClaimJob =>
      (match MarkRunning(s.job, x.pc.attempt == 1)
       case None => Goto(s, e, Returned)
       case Some(job) => Goto(s, e, Scanning(x.pc.attempt)).(job := job, owner := Some(e)))
    case ScanEnds(outcome) =>
      s.(executors := s.executors[e := x.(pc := Scanned(x.pc.attempt, outcome), last := Some(outcome))])
    case Poll(late) =>
      s.(executors := s.executors[e :=
           x.(pc := AfterPoll(x, s.job.row.cancelRequested, late), polled := |s.job.log|)])
    case AddFinding =>
      Goto(s, e, x.pc.(added := x.pc.added + 1)).(stored := s.stored + [x.pc.findings[x.pc.added]])
    case EmitFinding =>
      Goto(s, e, x.pc.(emitted := x.pc.emitted + 1))
        .(job := AppendEvent(s.job, FindingEvent(x.pc.findings[x.pc.emitted])))
    case EmitCorrelation(correlation) => s.(job := AppendEvent(s.job, CorrelationEvent(correlation)))
    case StoreRaises(reason) => Goto(s, e, Finishing(Failed, Some("INTERNAL_ERROR"), Some(reason)))
    case Succeed =>
      Goto(s, e, Returned).(job := Transition(s.job, Succeeded, Some(|x.pc.findings|), None, None))
    case AppendRetry =>
      Goto(s, e, Read(x.pc.attempt + 1))
        .(job := AppendEvent(s.job, RetryEvent(x.pc.attempt, x.pc.attempt + 1, x.pc.code)))
    case Finish =>
      Goto(s, e, Returned).(job := Transition(s.job, x.pc.status, None, x.pc.fault, x.pc.detail))
  }

  // ---------------------------------------------------------------- the invariant

  predicate Owns(s: State, e: nat) {
    s.owner == Some(e)
  }

  predicate Untouched(s: State) {
    s.stored == [] && FindingsOf(s.job.log) == []
  }

  /** What holds of the job while nobody has claimed it. */
  predicate UnclaimedOk(s: State) {
    var row := s.job.row;
    && Untouched(s) && row.attempt == 0 && row.resultCount == 0 && !StatusIn(s.job.log, Succeeded)
    && row.status != Running && row.status != Succeeded
    && (s.creator != Submitted ==> s.executors == map[])
    && (s.creator == Abandoned ==> row.status == Failed)
    && (!row.cancelRequested && s.creator != Abandoned ==>
          row.status == Queued || (row.status == Failed && s.creator == Submitted && !s.hasAdapter))
  }

  /** What holds of the job once `e` has claimed it. */
  predicate ClaimedOk(s: State, e: nat) {
    var row := s.job.row;
    && s.creator == Submitted && s.hasAdapter && e in s.executors
    && s.executors[e].polled <= |s.job.log|
    && row.status != Queued && 1 <= row.attempt <= s.executors[e].maxAttempts
    && (row.status == Succeeded ==> StatusIn(s.job.log, Succeeded))
    && (StatusIn(s.job.log, Succeeded) ==>
          && s.executors[e].pc.Returned?
          && s.stored == FindingsOf(s.job.log) && row.resultCount == |s.stored|)
    && (s.executors[e].pc.Returned? ==> row.status.Terminal() || row.cancelRequested)
    && (!s.executors[e].pc.Returned? && !row.cancelRequested ==> row.status == Running)
    && FindingsOf(s.job.log) <= s.stored
    && (s.stored != [] || StatusIn(s.job.log, Succeeded) ==> !CancelIn(s.job.log[..s.executors[e].polled]))
  }

  /** Local assertions, one for each program point. */
  predicate ExecutorOk(s: State, e: nat)
    requires e in s.executors
  {
    && s.executors[e].maxAttempts >= 1 && s.executors[e].polled <= |s.job.log|
    && PcOk(s, e)
  }

  predicate PcOk(s: State, e: nat)
    requires e in s.executors && s.executors[e].polled <= |s.job.log|
  {
    match s.executors[e].pc
    case Start => !Owns(s, e)
    case NoAdapter => !Owns(s, e) && !s.hasAdapter
    case Read(a) => s.hasAdapter && LoopHead(s, e, a)
    case Claim(a, seen) => s.hasAdapter && LoopHead(s, e, a) && seen <= |s.job.log| && !CancelIn(s.job.log[..seen])
    case Scanning(a) => Owns(s, e) && a == s.job.row.attempt && Untouched(s)
    case Scanned(a, _) => Owns(s, e) && a == s.job.row.attempt && Untouched(s)
    case Retrying(a, _) => Owns(s, e) && a == s.job.row.attempt < s.executors[e].maxAttempts && Untouched(s)
    case Storing(a, findings, added, emitted) =>
      && Owns(s, e) && a == s.job.row.attempt
      && emitted <= added <= emitted + 1 && added <= |findings|
      && s.stored == findings[..added] && FindingsOf(s.job.log) == findings[..emitted]
      && !CancelIn(s.job.log[..s.executors[e].polled])
    case Finishing(status, fault, detail) =>
      && status in {Cancelled, Failed, TimedOut}
      && (status == Cancelled ==> s.job.row.cancelRequested)
      && (if status == Cancelled then fault == None && detail == None else fault.Some? && detail.Some?)
      && (!Owns(s, e) ==> status == Cancelled)
    case Returned => true
  }

  predicate LoopHead(s: State, e: nat, a: nat)
    requires e in s.executors
  {
    if Owns(s, e) then 2 <= a <= s.executors[e].maxAttempts && s.job.row.attempt == a - 1 && Untouched(s)
    else a == 1
  }

  /** An error stands on failed and timed-out rows, and on no others. */
  predicate ErrorOk(row: Row) {
    if row.status == Failed || row.status == TimedOut then row.errorCode.Some? && row.errorMessage.Some?
    else row.errorCode == None && row.errorMessage == None
  }

  ghost predicate JobOk(s: State) {
    && Agrees(s.job) && ErrorOk(s.job.row)
    && (if s.owner.None? then UnclaimedOk(s) else ClaimedOk(s, s.owner.value))
  }

  ghost predicate Inv(s: State) {
    && JobOk(s)
    && forall e :: e in s.executors ==> ExecutorOk(s, e)
  }

  // ---------------------------------------------------------------- every step keeps it

  lemma InitialInv(tenant: string, source: Source, payload: string, key: Option<string>, hasAdapter: bool)
    ensures Inv(Initial(tenant, source, payload, key, hasAdapter))
  {
    CreateAgrees(tenant, source, payload, key);
    AppendReads([], StatusEvent(Queued, None));
  }

  lemma PrefixKept(log: Log, log': Log, k: nat)
    requires log <= log' && k <= |log|
    ensures log'[..k] == log[..k]
  {
  }

  /** What a step of `e` may change, as the other executors see it. */
  predicate Frame(s: State, s': State, e: nat) {
    && s'.hasAdapter == s.hasAdapter
    && s.job.log <= s'.job.log
    && (s.job.row.cancelRequested ==> s'.job.row.cancelRequested)
    && (s'.owner == s.owner || s'.owner == Some(e))
    && (s.owner.Some? && s.owner != Some(e) ==>
          && s'.owner == s.owner && s'.job.row.attempt == s.job.row.attempt
          && s'.stored == s.stored && FindingsOf(s'.job.log) == FindingsOf(s.job.log))
    && forall f :: f in s'.executors && f != e ==> f in s.executors && s'.executors[f] == s.executors[f]
  }

  lemma OtherExecutorOk(s: State, s': State, e: nat, f: nat)
    requires f in s.executors && ExecutorOk(s, f) && f != e && f in s'.executors
    requires Frame(s, s', e)
    ensures ExecutorOk(s', f)
  {
    PrefixKept(s.job.log, s'.job.log, s.executors[f].polled);
    if s.executors[f].pc.Claim? { PrefixKept(s.job.log, s'.job.log, s.executors[f].pc.seen); }
  }

  /** Puts a step's invariant together from what the job and the moving executor satisfy afterwards. */
  lemma Assemble(s: State, s': State, e: nat)
    requires Inv(s) && JobOk(s') && Frame(s, s', e)
    requires e in s'.executors ==> ExecutorOk(s', e)
    ensures Inv(s')
  {
    forall f | f in s'.executors ensures ExecutorOk(s', f) {
      if f != e { OtherExecutorOk(s, s', e, f); }
    }
  }

  lemma SubmittingInv(s: State, s': State)
    requires Inv(s) && s.creator == Submitting
    requires s' == s.(creator := Submitted) || s' == s.(creator := DispatchFailed)
    ensures Inv(s')
  {
    Assemble(s, s', 0) by { if 0 in s.executors { assert ExecutorOk(s, 0); } }
  }

  lemma DeliverInv(s: State, s': State, e: nat, maxAttempts: nat)
    requires Inv(s) && s.creator == Submitted && e !in s.executors && maxAttempts >= 1
    requires s' == s.(executors := s.executors[e := Executor(maxAttempts, Start, 0, None)])
    ensures Inv(s')
  {
    Assemble(s, s', e);
  }

  lemma DispatchFailureInv(s: State, s': State, reason: string)
    requires Inv(s) && s.creator == DispatchFailed
    requires s' ==
      s.(creator := Abandoned, job := Transition(s.job, Failed, None, Some("DISPATCH_FAILED"), Some(reason)))
    ensures Inv(s')
  {
    var code := Some("DISPATCH_FAILED");
    TransitionAgrees(s.job, Failed, None, code, Some(reason));
    AppendReads(s.job.log, StatusEvent(Failed, FaultOf(code, Some(reason))));
  }

  lemma CancelStepInv(s: State, s': State)
    requires Inv(s) && s' == s.(job := RequestCancel(s.job))
    ensures Inv(s')
  {
    CancelFrame(s, s', 0);
    CancelFrame(s, s', 1);
    CancelJobOk(s, s');
    if 0 in s.executors { OtherExecutorOk(s, s', 1, 0); }
    Assemble(s, s', 0);
  }

  lemma CancelFrame(s: State, s': State, e: nat)
    requires s' == s.(job := RequestCancel(s.job))
    ensures Frame(s, s', e)
  {
    AppendReads(s.job.log, CancelEvent(if s.job.row.status == Queued then Cancelled else s.job.row.status));
  }

  lemma CancelJobOk(s: State, s': State)
    requires Inv(s) && s' == s.(job := RequestCancel(s.job))
    ensures JobOk(s')
  {
    RequestCancelAgrees(s.job);
    if !s.job.row.status.Terminal() { CancelKeepsOwner(s, s'); }
  }

  lemma CancelKeepsOwner(s: State, s': State)
    requires Inv(s) && s' == s.(job := RequestCancel(s.job)) && !s.job.row.status.Terminal()
    ensures if s.owner.None? then UnclaimedOk(s') else ClaimedOk(s', s.owner.value)
  {
    AppendReads(s.job.log, CancelEvent(if s.job.row.status == Queued then Cancelled else s.job.row.status));
    if s.owner.Some? { PrefixKept(s.job.log, s'.job.log, s.executors[s.owner.value].polled); }
  }

  /** A step of `e` that leaves the job alone. */
  lemma MoveInv(s: State, s': State, e: nat)
    requires Inv(s) && e in s.executors && e in s'.executors
    requires s' == s.(executors := s.executors[e := s'.executors[e]], stored := s'.stored)
    requires Owns(s, e) || s'.stored == s.stored
    requires JobOk(s') && ExecutorOk(s', e)
    ensures Inv(s')
  {
    Assemble(s, s', e);
  }

  lemma ReadJobInv(s: State, s': State, e: nat)
    requires Inv(s) && e in s.executors && s.executors[e].pc.Start?
    requires s' ==
      Goto(s, e, if s.job.row.status.Terminal() then Returned else if s.hasAdapter then Read(1) else NoAdapter)
    ensures Inv(s')
  {
    assert ExecutorOk(s, e);
    MoveInv(s, s', e);
  }

  lemma ReadCurrentInv(s: State, s': State, e: nat)
    requires Inv(s) && e in s.executors && s.executors[e].pc.Read?
    requires s' == Goto(s, e, AfterRead(s.job, s.executors[e].pc.attempt))
    ensures Inv(s')
  {
    assert ExecutorOk(s, e);
    assert s.job.log[..|s.job.log|] == s.job.log;
    MoveInv(s, s', e);
  }

  lemma ScanEndsInv(s: State, s': State, e: nat, outcome: Outcome)
    requires Inv(s) && e in s.executors && s.executors[e].pc.Scanning?
    requires var x := s.executors[e];
      s' == s.(executors := s.executors[e := x.(pc := Scanned(x.pc.attempt, outcome), last := Some(outcome))])
    ensures Inv(s')
  {
    assert ExecutorOk(s, e);
    MoveInv(s, s', e);
  }

  lemma PollInv(s: State, s': State, e: nat, late: Option<Outcome>)
    requires Inv(s) && e in s.executors && (s.executors[e].pc.Scanning? || s.executors[e].pc.Scanned?)
    requires var x := s.executors[e];
      s' == s.(executors := s.executors[e :=
                 x.(pc := AfterPoll(x, s.job.row.cancelRequested, late), polled := |s.job.log|)])
    ensures Inv(s')
  {
    assert ExecutorOk(s, e);
    assert s.job.log[..|s.job.log|] == s.job.log;
    MoveInv(s, s', e);
  }

  lemma AddFindingInv(s: State, s': State, e: nat)
    requires Inv(s) && e in s.executors
    requires var pc := s.executors[e].pc;
      && pc.Storing? && pc.added == pc.emitted < |pc.findings|
      && s' == Goto(s, e, pc.(added := pc.added + 1)).(stored := s.stored + [pc.findings[pc.added]])
    ensures Inv(s')
  {
    var pc := s.executors[e].pc;
    assert ExecutorOk(s, e);
    assert pc.findings[..pc.added + 1] == pc.findings[..pc.added] + [pc.findings[pc.added]];
    MoveInv(s, s', e);
  }

  lemma StoreRaisesInv(s: State, s': State, e: nat, text: string)
    requires Inv(s) && e in s.executors && s.executors[e].pc.Storing?
    requires s' == Goto(s, e, Finishing(Failed, Some("INTERNAL_ERROR"), Some(text)))
    ensures Inv(s')
  {
    assert ExecutorOk(s, e);
    MoveInv(s, s', e);
  }

  lemma ClaimInv(s: State, s': State, e: nat)
    requires Inv(s) && e in s.executors && s.executors[e].pc.Claim?
    requires var a := s.executors[e].pc.attempt;
      s' == match MarkRunning(s.job, a == 1)
            case None => Goto(s, e, Returned)
            case Some(job) => Goto(s, e, Scanning(a)).(job := job, owner := Some(e))
    ensures Inv(s')
  {
    var a := s.executors[e].pc.attempt;
    assert ExecutorOk(s, e);
    if MarkRunning(s.job, a == 1).None? {
      MoveInv(s, s', e);
    } else {
      MarkRunningAgrees(s.job, a == 1);
      ClaimedJobOk(s, s', e);
      Assemble(s, s', e);
    }
  }

  lemma ClaimedJobOk(s: State, s': State, e: nat)
    requires Inv(s) && e in s.executors && s.executors[e].pc.Claim?
    requires var a := s.executors[e].pc.attempt;
      && MarkRunning(s.job, a == 1).Some?
      && s' == Goto(s, e, Scanning(a)).(job := MarkRunning(s.job, a == 1).value, owner := Some(e))
    ensures ClaimedOk(s', e) && Frame(s, s', e) && ExecutorOk(s', e)
  {
    assert ExecutorOk(s, e);
    AppendReads(s.job.log, StatusEvent(Running, None));
    PrefixKept(s.job.log, s'.job.log, s.executors[e].polled);
  }

  /** The owner appends an event that carries no status. */
  lemma AppendInv(s: State, s': State, e: nat, pc: Pc, event: Event)
    requires Inv(s) && e in s.executors && Owns(s, e)
    requires event.FindingEvent? || event.CorrelationEvent? || event.RetryEvent?
    requires s' == Goto(s, e, pc).(job := AppendEvent(s.job, event))
    requires !pc.Returned? && !s.executors[e].pc.Returned?
    requires FindingsOf(s'.job.log) <= s.stored
    requires PcOk(s', e)
    ensures Inv(s')
  {
    AppendEventAgrees(s.job, event);
    AppendJobOk(s, s', e, pc, event);
    Assemble(s, s', e);
  }

  lemma AppendJobOk(s: State, s': State, e: nat, pc: Pc, event: Event)
    requires Inv(s) && e in s.executors && Owns(s, e)
    requires event.FindingEvent? || event.CorrelationEvent? || event.RetryEvent?
    requires s' == Goto(s, e, pc).(job := AppendEvent(s.job, event))
    requires !pc.Returned? && !s.executors[e].pc.Returned?
    requires FindingsOf(s'.job.log) <= s.stored
    ensures ClaimedOk(s', e) && Frame(s, s', e)
  {
    AppendReads(s.job.log, event);
    PrefixKept(s.job.log, s'.job.log, s.executors[e].polled);
  }

  lemma EmitFindingInv(s: State, s': State, e: nat)
    requires Inv(s) && e in s.executors
    requires var pc := s.executors[e].pc;
      && pc.Storing? && pc.emitted < pc.added <= |pc.findings|
      && s' == Goto(s, e, pc.(emitted := pc.emitted + 1))
                 .(job := AppendEvent(s.job, FindingEvent(pc.findings[pc.emitted])))
    ensures Inv(s')
  {
    var pc := s.executors[e].pc;
    var event := FindingEvent(pc.findings[pc.emitted]);
    assert ExecutorOk(s, e);
    AppendReads(s.job.log, event);
    assert pc.findings[..pc.emitted + 1] == pc.findings[..pc.emitted] + [pc.findings[pc.emitted]];
    AppendInv(s, s', e, pc.(emitted := pc.emitted + 1), event);
  }

  lemma EmitCorrelationInv(s: State, s': State, e: nat, correlation: Correlation)
    requires Inv(s) && e in s.executors && s.executors[e].pc.Storing?
    requires s' == s.(job := AppendEvent(s.job, CorrelationEvent(correlation)))
    ensures Inv(s')
  {
    assert ExecutorOk(s, e);
    AppendReads(s.job.log, CorrelationEvent(correlation));
    assert s'.executors == s.executors[e := s.executors[e]];
    AppendInv(s, s', e, s.executors[e].pc, CorrelationEvent(correlation));
  }

  lemma AppendRetryInv(s: State, s': State, e: nat)
    requires Inv(s) && e in s.executors && s.executors[e].pc.Retrying?
    requires var pc := s.executors[e].pc;
      s' == Goto(s, e, Read(pc.attempt + 1))
              .(job := AppendEvent(s.job, RetryEvent(pc.attempt, pc.attempt + 1, pc.code)))
    ensures Inv(s')
  {
    var pc := s.executors[e].pc;
    var event := RetryEvent(pc.attempt, pc.attempt + 1, pc.code);
    assert ExecutorOk(s, e);
    AppendReads(s.job.log, event);
    AppendInv(s, s', e, Read(pc.attempt + 1), event);
  }

  lemma UnknownSourceInv(s: State, s': State, e: nat, text: string)
    requires Inv(s) && e in s.executors && s.executors[e].pc.NoAdapter?
    requires s' == Goto(s, e, Returned).(job := Transition(s.job, Failed, None, Some("UNKNOWN_SOURCE"), Some(text)))
    ensures Inv(s')
  {
    assert ExecutorOk(s, e);
    var code := Some("UNKNOWN_SOURCE");
    TransitionAgrees(s.job, Failed, None, code, Some(text));
    AppendReads(s.job.log, StatusEvent(Failed, FaultOf(code, Some(text))));
    Assemble(s, s', e);
  }

  lemma SucceedInv(s: State, s': State, e: nat)
    requires Inv(s) && e in s.executors && s.executors[e].pc.Storing?
    requires var findings := s.executors[e].pc.findings;
      && s.executors[e].pc.emitted == |findings|
      && s' == Goto(s, e, Returned).(job := Transition(s.job, Succeeded, Some(|findings|), None, None))
    ensures Inv(s')
  {
    TransitionAgrees(s.job, Succeeded, Some(|s.executors[e].pc.findings|), None, None);
    SucceedJobOk(s, s', e);
    Assemble(s, s', e);
  }

  lemma SucceedJobOk(s: State, s': State, e: nat)
    requires Inv(s) && e in s.executors && s.executors[e].pc.Storing?
    requires var findings := s.executors[e].pc.findings;
      && s.executors[e].pc.emitted == |findings|
      && s' == Goto(s, e, Returned).(job := Transition(s.job, Succeeded, Some(|findings|), None, None))
    ensures s.owner == Some(e) && ClaimedOk(s', e) && Frame(s, s', e) && ExecutorOk(s', e)
  {
    assert ExecutorOk(s, e);
    var findings := s.executors[e].pc.findings;
    assert findings[..|findings|] == findings;
    AppendReads(s.job.log, StatusEvent(Succeeded, None));
    assert FindingsOf(s'.job.log) == FindingsOf(s.job.log);
    PrefixKept(s.job.log, s'.job.log, s.executors[e].polled);
  }

  lemma FinishInv(s: State, s': State, e: nat)
    requires Inv(s) && e in s.executors && s.executors[e].pc.Finishing?
    requires var pc := s.executors[e].pc;
      s' == Goto(s, e, Returned).(job := Transition(s.job, pc.status, None, pc.fault, pc.detail))
    ensures Inv(s')
  {
    var pc := s.executors[e].pc;
    assert ExecutorOk(s, e);
    TransitionAgrees(s.job, pc.status, None, pc.fault, pc.detail);
    FinishJobOk(s, s', e);
    Assemble(s, s', e);
  }

  lemma FinishJobOk(s: State, s': State, e: nat)
    requires Inv(s) && e in s.executors && s.executors[e].pc.Finishing?
    requires var pc := s.executors[e].pc;
      s' == Goto(s, e, Returned).(job := Transition(s.job, pc.status, None, pc.fault, pc.detail))
    ensures Frame(s, s', e) && ExecutorOk(s', e)
    ensures if s.owner.None? then UnclaimedOk(s') else ClaimedOk(s', s.owner.value)
  {
    var pc := s.executors[e].pc;
    assert ExecutorOk(s, e);
    AppendReads(s.job.log, StatusEvent(pc.status, FaultOf(pc.fault, pc.detail)));
    if s.owner.Some? { PrefixKept(s.job.log, s'.job.log, s.executors[s.owner.value].polled); }
  }

  lemma ActInv(s: State, e: nat, action: Action, s': State)
    requires Inv(s) && e in s.executors && CanDo(s.executors[e].pc, action)
    requires s' == Act(s, e, action)
    ensures Inv(s')
  {
    match action
    case ReadJob => ReadJobInv(s, s', e);
    case ReadCurrent => ReadCurrentInv(s, s', e);
    case ClaimJob => ClaimInv(s, s', e);
    case ScanEnds(outcome) => ScanEndsInv(s, s', e, outcome);
    case Poll(late) => PollInv(s, s', e, late);
    case AddFinding => AddFindingInv(s, s', e);
    case StoreRaises(reason) => StoreRaisesInv(s, s', e, reason);
    case EmitFinding => EmitFindingInv(s, s', e);
    case EmitCorrelation(correlation) => EmitCorrelationInv(s, s', e, correlation);
    case AppendRetry => AppendRetryInv(s, s', e);
    case FailUnknownSource(text) => UnknownSourceInv(s, s', e, text);
    case Succeed => SucceedInv(s, s', e);
    case Finish => FinishInv(s, s', e);
  }

  /** Every step of every participant keeps the invariant. */
  lemma StepInv(s: State, step: Step)
    requires Inv(s) && Enabled(s, step)
    ensures Inv(Apply(s, step))
  {
    var s' := Apply(s, step);
    match step
    case SubmitOk => SubmittingInv(s, s');
    case SubmitRaises => SubmittingInv(s, s');
    case Deliver(e, maxAttempts) => DeliverInv(s, s', e, maxAttempts);
    case RecordDispatchFailure(reason) => DispatchFailureInv(s, s', reason);
    case Cancel => CancelStepInv(s, s');
    case By(e, action) => ActInv(s, e, action, s');
  }
}
