/** What the scan-job protocol guarantees over whole runs, for every interleaving of its participants. */
module ProtocolRuns {
  import opened Prelude
  import opened Findings
  import opened Jobs
  import opened Protocol

  datatype Setup = Setup(tenant: string, source: Source, payload: string, key: Option<string>, hasAdapter: bool)

  /** `steps[i]` leads from `states[i]` to `states[i + 1]`. */
  datatype Run = Run(setup: Setup, states: seq<State>, steps: seq<Step>) {
    predicate Valid() {
      && |states| == |steps| + 1
      && states[0] == Initial(setup.tenant, setup.source, setup.payload, setup.key, setup.hasAdapter)
      && forall i :: 0 <= i < |steps| ==> StepAt(i)
    }

    predicate StepAt(i: int)
      requires |states| == |steps| + 1 && 0 <= i < |steps|
    {
      Enabled(states[i], steps[i]) && states[i + 1] == Apply(states[i], steps[i])
    }

    /** Executor `e` starts an adapter scan in step `i`: its claim succeeds. */
    predicate StartsScan(i: int, e: nat)
      requires |states| == |steps| + 1 && 0 <= i < |steps|
    {
      && steps[i] == By(e, ClaimJob)
      && e in states[i + 1].executors && states[i + 1].executors[e].pc.Scanning?
    }

    /** Executor `e`, which has claimed the job, returns in step `i`. */
    predicate ClaimerReturns(i: int, e: nat)
      requires |states| == |steps| + 1 && 0 <= i < |steps|
    {
      && Owns(states[i], e)
      && e in states[i].executors && !states[i].executors[e].pc.Returned?
      && e in states[i + 1].executors && states[i + 1].executors[e].pc.Returned?
    }
  }

  lemma {:induction false} InvAt(r: Run, i: nat)
    requires r.Valid() && i < |r.states|
    ensures Inv(r.states[i])
  {
    if i == 0 {
      InitialInv(r.setup.tenant, r.setup.source, r.setup.payload, r.setup.key, r.setup.hasAdapter);
    } else {
      InvAt(r, i - 1);
      assert r.StepAt(i - 1);
      StepInv(r.states[i - 1], r.steps[i - 1]);
    }
  }

  // ---------------------------------------------------------------- replay

  /**
   In every state of every run the event log reproduces the row, and a job that ends succeeded counts
   exactly the findings of its finding events, which are those handed to the registry.
   */
  lemma ReplayAgreement(r: Run, i: nat)
    requires r.Valid() && i < |r.states|
    ensures Agrees(r.states[i].job)
    ensures r.states[i].job.row.status == Succeeded ==>
              && r.states[i].job.row.resultCount == |FindingsOf(r.states[i].job.log)|
              && r.states[i].stored == FindingsOf(r.states[i].job.log)
  {
    InvAt(r, i);
  }

  // ---------------------------------------------------------------- what never goes back

  function Phase(status: Status): nat {
    if status == Queued then 0 else if status == Running then 1 else 2
  }

  /** The order in which the states of a run follow each other. */
  predicate Later(s: State, s': State) {
    && s.job.log <= s'.job.log
    && s.stored <= s'.stored
    && |FindingsOf(s.job.log)| <= |FindingsOf(s'.job.log)|
    && (s.job.row.cancelRequested ==> s'.job.row.cancelRequested)
    && (s.owner.Some? ==> s'.owner == s.owner)
    && Phase(s.job.row.status) <= Phase(s'.job.row.status)
    && (s.job.row.status.Terminal() && s'.job.row.status != s.job.row.status ==> s'.job.row.cancelRequested)
    && forall e :: e in s.executors ==>
         && e in s'.executors && s'.executors[e].maxAttempts == s.executors[e].maxAttempts
         && s.executors[e].polled <= s'.executors[e].polled
  }

  lemma QuietLater(s: State, s': State)
    requires s'.job == s.job && s.stored <= s'.stored && s'.owner == s.owner
    requires forall e :: e in s.executors ==>
         && e in s'.executors && s'.executors[e].maxAttempts == s.executors[e].maxAttempts
         && s.executors[e].polled <= s'.executors[e].polled
    ensures Later(s, s')
  {
  }

  /** A step that writes the job: the row it writes may not go back. */
  lemma WriteLater(s: State, s': State, event: Event)
    requires s'.job.log == Append(s.job.log, event) && s'.stored == s.stored
    requires s.owner.Some? ==> s'.owner == s.owner
    requires s.job.row.cancelRequested ==> s'.job.row.cancelRequested
    requires Phase(s.job.row.status) <= Phase(s'.job.row.status)
    requires s.job.row.status.Terminal() && s'.job.row.status != s.job.row.status ==> s'.job.row.cancelRequested
    requires forall e :: e in s.executors ==>
         && e in s'.executors && s'.executors[e].maxAttempts == s.executors[e].maxAttempts
         && s.executors[e].polled <= s'.executors[e].polled
    ensures Later(s, s')
  {
    AppendReads(s.job.log, event);
  }

  lemma ClaimLater(s: State, s': State, e: nat)
    requires Inv(s) && e in s.executors && s.executors[e].pc.Claim? && s' == Act(s, e, ClaimJob)
    ensures Later(s, s')
  {
    assert ExecutorOk(s, e);
    if s'.job == s.job { QuietLater(s, s'); } else { WriteLater(s, s', StatusEvent(Running, None)); }
  }

  lemma StatusLater(s: State, s': State, e: nat, action: Action)
    requires Inv(s) && e in s.executors && CanDo(s.executors[e].pc, action) && s' == Act(s, e, action)
    requires action.FailUnknownSource? || action.Succeed? || action.Finish?
    ensures Later(s, s')
  {
    assert ExecutorOk(s, e);
    WriteLater(s, s', s'.job.log[|s.job.log|].event);
  }

  lemma EventLater(s: State, s': State, e: nat, action: Action)
    requires Inv(s) && e in s.executors && CanDo(s.executors[e].pc, action) && s' == Act(s, e, action)
    requires action.EmitFinding? || action.EmitCorrelation? || action.AppendRetry?
    ensures Later(s, s')
  {
    WriteLater(s, s', s'.job.log[|s.job.log|].event);
  }

  lemma PollLater(s: State, s': State, e: nat, action: Action)
    requires Inv(s) && e in s.executors && CanDo(s.executors[e].pc, action) && s' == Act(s, e, action)
    requires action.Poll? || action.AddFinding?
    ensures Later(s, s')
  {
    assert ExecutorOk(s, e);
    QuietLater(s, s');
  }

  lemma ActLater(s: State, s': State, e: nat, action: Action)
    requires Inv(s) && e in s.executors && CanDo(s.executors[e].pc, action) && s' == Act(s, e, action)
    ensures Later(s, s')
  {
    match action
    case ClaimJob => ClaimLater(s, s', e);
    case FailUnknownSource(_) => StatusLater(s, s', e, action);
    case Succeed => StatusLater(s, s', e, action);
    case Finish => StatusLater(s, s', e, action);
    case EmitFinding => EventLater(s, s', e, action);
    case EmitCorrelation(_) => EventLater(s, s', e, action);
    case AppendRetry => EventLater(s, s', e, action);
    case Poll(_) => PollLater(s, s', e, action);
    case AddFinding => PollLater(s, s', e, action);
    case _ => QuietLater(s, s');
  }

  lemma StepLater(s: State, step: Step)
    requires Inv(s) && Enabled(s, step)
    ensures Later(s, Apply(s, step))
  {
    var s' := Apply(s, step);
    match step
    case RecordDispatchFailure(_) => WriteLater(s, s', s'.job.log[|s.job.log|].event);
    case Cancel =>
      if s'.job == s.job { QuietLater(s, s'); } else { WriteLater(s, s', s'.job.log[|s.job.log|].event); }
    case By(e, action) => ActLater(s, s', e, action);
    case _ => QuietLater(s, s');
  }

  lemma LaterTransitive(a: State, b: State, c: State)
    requires Later(a, b) && Later(b, c)
    ensures Later(a, c)
  {
  }

  lemma StepOfRunLater(r: Run, k: nat)
    requires r.Valid() && 0 < k < |r.states|
    ensures Later(r.states[k - 1], r.states[k])
  {
    assert r.StepAt(k - 1);
    InvAt(r, k - 1);
    StepLater(r.states[k - 1], r.steps[k - 1]);
  }

  lemma {:induction false} RunLater(r: Run, i: nat, k: nat)
    requires r.Valid() && i <= k < |r.states|
    ensures Later(r.states[i], r.states[k])
    decreases k - i
  {
    if i < k {
      RunLater(r, i, k - 1);
      StepOfRunLater(r, k);
      LaterTransitive(r.states[i], r.states[k - 1], r.states[k]);
    }
  }

  /**
   Status only moves queued, running, terminal: a terminal job never becomes non-terminal again, and one
   terminal status gives way to another only on a job whose cancellation was requested.
   */
  lemma StatusOrder(r: Run, i: nat, k: nat)
    requires r.Valid() && i <= k < |r.states|
    ensures var before, after := r.states[i].job.row, r.states[k].job.row;
      && (before.status.Terminal() ==> after.status.Terminal())
      && (before.status == Running ==> after.status != Queued)
      && (before.status.Terminal() && after.status != before.status ==> after.cancelRequested)
  {
    RunLater(r, i, k);
  }

  // ---------------------------------------------------------------- one claimer

  function ScanStarts(r: Run, n: nat): nat
    requires r.Valid() && n <= |r.steps|
  {
    if n == 0 then 0
    else ScanStarts(r, n - 1) +
         if r.steps[n - 1].By? && r.StartsScan(n - 1, r.steps[n - 1].e) then 1 else 0
  }

  lemma ScannerOwns(r: Run, i: nat, e: nat, k: nat)
    requires r.Valid() && i < |r.steps| && r.StartsScan(i, e) && i < k < |r.states|
    ensures r.states[k].owner == Some(e)
  {
    assert r.StepAt(i);
    InvAt(r, i + 1);
    assert ExecutorOk(r.states[i + 1], e);
    RunLater(r, i + 1, k);
  }

  /** Adapter scans of a job are all started by one executor. */
  lemma SingleScanner(r: Run, i: nat, j: nat, e: nat, f: nat)
    requires r.Valid() && i < |r.steps| && j < |r.steps|
    requires r.StartsScan(i, e) && r.StartsScan(j, f)
    ensures e == f
  {
    ScannerOwns(r, i, e, |r.steps|);
    ScannerOwns(r, j, f, |r.steps|);
  }

  lemma StepAttempt(s: State, s': State, step: Step)
    requires Enabled(s, step) && s' == Apply(s, step)
    ensures s'.job.row.attempt == s.job.row.attempt +
      if step.By? && step.action.ClaimJob? && s'.executors[step.e].pc.Scanning? then 1 else 0
  {
  }

  /** `attempt` counts the scans that were started, and never exceeds the limit of the executor that started them. */
  lemma {:induction false} AttemptsCounted(r: Run, n: nat)
    requires r.Valid() && n <= |r.steps|
    ensures r.states[n].job.row.attempt == ScanStarts(r, n)
    ensures forall i, e :: 0 <= i < n && r.StartsScan(i, e) ==>
              && e in r.states[n].executors
              && r.states[n].job.row.attempt <= r.states[n].executors[e].maxAttempts
  {
    if n > 0 {
      AttemptsCounted(r, n - 1);
      assert r.StepAt(n - 1);
      StepAttempt(r.states[n - 1], r.states[n], r.steps[n - 1]);
    }
    forall i, e | 0 <= i < n && r.StartsScan(i, e)
      ensures e in r.states[n].executors
      ensures r.states[n].job.row.attempt <= r.states[n].executors[e].maxAttempts
    {
      ScannerOwns(r, i, e, n);
      InvAt(r, n);
    }
  }

  // ---------------------------------------------------------------- cancellation

  /**
   A cancel committed before a poll read of the claiming executor, on whichever attempt, wins: the job
   never stores a finding, never emits one and never ends succeeded, at any point of the run.
   */
  lemma CancelBeforePollWins(r: Run, i: nat, j: nat, e: nat, late: Option<Outcome>, k: nat)
    requires r.Valid() && i <= j < |r.steps| && k < |r.states|
    requires r.states[i].job.row.cancelRequested
    requires r.steps[j] == By(e, Poll(late))
    ensures r.states[k].stored == [] && FindingsOf(r.states[k].job.log) == []
    ensures !StatusIn(r.states[k].job.log, Succeeded) && r.states[k].job.row.status != Succeeded
  {
    var last := |r.steps|;
    assert r.StepAt(j);
    InvAt(r, j);
    assert ExecutorOk(r.states[j], e);
    RunLater(r, i, j);
    var seen := r.states[j].job.log;
    assert CancelIn(seen);
    RunLater(r, j + 1, last);
    assert r.states[j + 1].executors[e].polled == |seen|;
    InvAt(r, last);
    var s := r.states[last];
    assert ExecutorOk(s, e);
    CancelInLonger(seen, s.job.log, s.executors[e].polled);
    RunLater(r, k, last);
    InvAt(r, k);
    StatusInLonger(r.states[k].job.log, s.job.log, Succeeded);
  }

  lemma CancelInLonger(seen: Log, log: Log, n: nat)
    requires CancelIn(seen) && seen <= log && |seen| <= n <= |log|
    ensures CancelIn(log[..n])
  {
    var i :| 0 <= i < |seen| && seen[i].event.CancelEvent?;
    assert log[..n][i].event.CancelEvent?;
  }

  lemma StatusInLonger(seen: Log, log: Log, status: Status)
    requires seen <= log
    ensures StatusIn(seen, status) ==> StatusIn(log, status)
  {
    if m :| 0 <= m < |seen| && IsStatus(seen[m].event, status) { assert IsStatus(log[m].event, status); }
  }

  // ---------------------------------------------------------------- how `execute` returns

  lemma ClaimOnlyByRead(s: State, step: Step, e: nat)
    requires Enabled(s, step) && step != By(e, ReadCurrent)
    requires var s' := Apply(s, step); e in s'.executors && s'.executors[e].pc.Claim?
    ensures e in s.executors && s.executors[e].pc == Apply(s, step).executors[e].pc
  {
  }

  /** `Claim.seen` is where the log stood at the executor's preceding read, which saw no cancellation. */
  lemma {:induction false} SeenAtRead(r: Run, k: nat, e: nat) returns (m: nat)
    requires r.Valid() && k < |r.states| && e in r.states[k].executors && r.states[k].executors[e].pc.Claim?
    ensures m < k && r.steps[m] == By(e, ReadCurrent)
    ensures r.states[k].executors[e].pc == Claim(r.states[k].executors[e].pc.attempt, |r.states[m].job.log|)
    ensures !r.states[m].job.row.cancelRequested
    ensures forall n :: m < n <= k ==>
        e in r.states[n].executors && r.states[n].executors[e].pc == r.states[k].executors[e].pc
    ensures forall n :: m < n < k ==> r.steps[n] != By(e, ReadCurrent)
  {
    assert k > 0;
    assert r.StepAt(k - 1);
    if r.steps[k - 1] == By(e, ReadCurrent) {
      m := k - 1;
    } else {
      ClaimOnlyByRead(r.states[k - 1], r.steps[k - 1], e);
      m := SeenAtRead(r, k - 1, e);
    }
  }

  /** Step `m` is the executor's last read at the head of its attempt loop before step `k`. */
  predicate LastReadOf(r: Run, m: nat, k: nat, e: nat)
    requires r.Valid() && m < k < |r.states|
  {
    r.steps[m] == By(e, ReadCurrent) && forall n :: m < n < k ==> r.steps[n] != By(e, ReadCurrent)
  }

  /** Step `c` is a cancel that raises the flag. */
  predicate CancelCommits(r: Run, c: nat)
    requires r.Valid() && c < |r.steps|
  {
    r.steps[c] == Cancel && !r.states[c].job.row.cancelRequested && r.states[c + 1].job.row.cancelRequested
  }

  /** Some cancel step committed between positions `m` and `k`. */
  predicate CancelledBetween(r: Run, m: nat, k: nat)
    requires r.Valid() && m <= k < |r.states|
  {
    exists c :: m <= c < k && CancelCommits(r, c)
  }

  lemma {:induction false} FlagRaisedBetween(r: Run, m: nat, k: nat)
    requires r.Valid() && m <= k < |r.states|
    requires !r.states[m].job.row.cancelRequested
    ensures r.states[k].job.row.cancelRequested <==> CancelledBetween(r, m, k)
    decreases k
  {
    if m < k {
      FlagRaisedBetween(r, m, k - 1);
      assert r.StepAt(k - 1);
      if c :| m <= c < k - 1 && CancelCommits(r, c) {
        assert CancelledBetween(r, m, k);
        RunLater(r, c + 1, k);
      } else if r.states[k].job.row.cancelRequested {
        FlagStep(r.states[k - 1], r.steps[k - 1]);
        assert CancelCommits(r, k - 1);
      }
    }
  }

  /** Only a cancel raises the flag. */
  lemma FlagStep(s: State, step: Step)
    requires Enabled(s, step)
    ensures Apply(s, step).job.row.cancelRequested ==> s.job.row.cancelRequested || step == Cancel
  {
  }

  lemma OwnSteps(s: State, step: Step, e: nat)
    requires Enabled(s, step) && e in s.executors
    ensures (step.By? && step.e == e)
        || (e in Apply(s, step).executors && Apply(s, step).executors[e] == s.executors[e])
  {
  }

  lemma ReturnAct(s: State, s': State, e: nat, action: Action)
    requires Inv(s) && e in s.executors && CanDo(s.executors[e].pc, action) && s' == Act(s, e, action)
    requires Owns(s, e) && !s.executors[e].pc.Returned? && s'.executors[e].pc.Returned?
    requires !action.ClaimJob?
    ensures s'.job.row.status.Terminal()
  {
    assert ExecutorOk(s, e);
  }

  lemma ReturnClaim(s: State, s': State, e: nat)
    requires Inv(s) && e in s.executors && s.executors[e].pc.Claim? && s' == Act(s, e, ClaimJob)
    requires Owns(s, e) && s'.executors[e].pc.Returned?
    ensures s'.job == s.job && s.executors[e].pc.attempt >= 2
    ensures s.job.row.status.Terminal() || (s.job.row.status == Running && s.job.row.cancelRequested)
  {
    assert ExecutorOk(s, e);
  }

  /** `Returned` is reached by the claimer on a terminal job, or by a retry's claim that found the flag up. */
  lemma ReturnStep(s: State, s': State, e: nat, step: Step)
    requires Inv(s) && Enabled(s, step) && s' == Apply(s, step)
    requires Owns(s, e) && e in s.executors && !s.executors[e].pc.Returned?
    requires e in s'.executors && s'.executors[e].pc.Returned?
    ensures s'.job.row.status.Terminal() ||
      (step == By(e, ClaimJob) && s'.job == s.job && s.job.row.status == Running && s.job.row.cancelRequested)
    ensures step == By(e, ClaimJob) ==> s'.job == s.job && s.executors[e].pc.attempt >= 2
  {
    OwnSteps(s, step, e);
    if step.action.ClaimJob? { ReturnClaim(s, s', e); } else { ReturnAct(s, s', e, step.action); }
  }

  /**
   When the claiming `execute` returns, its job is terminal, except exactly when the return is a retry's
   failed claim that finds the job still running; then a cancel has committed since that retry's own read,
   the last one of the executor before the claim.
   */
  lemma ClaimerReturn(r: Run, k: nat, e: nat)
    requires r.Valid() && k < |r.steps| && r.ClaimerReturns(k, e)
    ensures !r.states[k + 1].job.row.status.Terminal() <==>
              r.steps[k] == By(e, ClaimJob) && r.states[k].job.row.status == Running
    ensures !r.states[k + 1].job.row.status.Terminal() ==>
              && r.states[k + 1].job.row.status == Running && r.states[k + 1].job.row.cancelRequested
              && r.states[k].executors[e].pc.Claim? && r.states[k].executors[e].pc.attempt >= 2
              && exists m :: 0 <= m < k && LastReadOf(r, m, k, e) && !r.states[m].job.row.cancelRequested
                  && CancelledBetween(r, m, k)
  {
    assert r.StepAt(k);
    InvAt(r, k);
    ReturnStep(r.states[k], r.states[k + 1], e, r.steps[k]);
    if !r.states[k + 1].job.row.status.Terminal() {
      var m := SeenAtRead(r, k, e);
      FlagRaisedBetween(r, m, k);
    }
  }

  /** Conversely, a cancel between a retry's read and its claim makes `execute` return on the job as it then is. */
  lemma CancelBeforeRetryClaim(r: Run, m: nat, k: nat, e: nat)
    requires r.Valid() && m < k < |r.steps| && r.steps[k] == By(e, ClaimJob) && Owns(r.states[k], e)
    requires CancelledBetween(r, m, k)
    ensures r.ClaimerReturns(k, e) && r.states[k + 1].job == r.states[k].job
  {
    assert r.StepAt(k);
    var c :| m <= c < k && CancelCommits(r, c);
    RunLater(r, c + 1, k);
  }

  /** Steps interleave only at an `await`: no other step falls between an executor's read and its claim. */
  predicate AwaitGranular(r: Run)
    requires r.Valid()
  {
    forall i, e :: 0 <= i < |r.steps| && e in r.states[i].executors && r.states[i].executors[e].pc.Claim? ==>
      r.steps[i] == By(e, ClaimJob)
  }

  /** With the inline dispatcher the exception cannot happen. */
  lemma AwaitGranularReturn(r: Run, k: nat, e: nat)
    requires r.Valid() && AwaitGranular(r) && k < |r.steps| && r.ClaimerReturns(k, e)
    ensures r.states[k + 1].job.row.status.Terminal()
  {
    ClaimerReturn(r, k, e);
    if !r.states[k + 1].job.row.status.Terminal() {
      var _ := SeenAtRead(r, k, e);
    }
  }

  // ---------------------------------------------------------------- a run that meets the exception

  function Start0(setup: Setup): Run {
    Run(setup, [Initial(setup.tenant, setup.source, setup.payload, setup.key, setup.hasAdapter)], [])
  }

  /** The run one step longer. */
  lemma Extended(r: Run, step: Step) returns (r': Run)
    requires r.Valid() && Enabled(r.states[|r.steps|], step)
    ensures r'.Valid() && r'.setup == r.setup && r'.steps == r.steps + [step] && r'.states[..|r.states|] == r.states
    ensures r'.states[|r'.steps|] == Apply(r.states[|r.steps|], step)
  {
    r' := Run(r.setup, r.states + [Apply(r.states[|r.steps|], step)], r.steps + [step]);
    forall i | 0 <= i < |r'.steps| ensures r'.StepAt(i) {
      if i < |r.steps| { assert r.StepAt(i); }
    }
  }

  /** No store of the run raises. */
  predicate NoneRaises(r: Run) {
    forall i :: 0 <= i < |r.steps| && r.steps[i].By? ==> !r.steps[i].action.StoreRaises?
  }

  /** Executor 0, with `limit` attempts, has claimed a job nobody cancelled and is at `pc`. */
  predicate At(s: State, limit: nat, attempt: nat, pc: Pc) {
    && 0 in s.executors && s.executors[0].maxAttempts == limit && s.executors[0].pc == pc
    && s.owner == Some(0) && s.job.row.status == Running && !s.job.row.cancelRequested && s.job.row.attempt == attempt
  }

  predicate Again(error: Outcome) {
    error.ProductError? && error.retryable
  }

  lemma ClaimedOnce(setup: Setup, limit: nat) returns (r: Run)
    requires setup.hasAdapter && limit >= 1
    ensures r.Valid() && r.setup == setup && NoneRaises(r) && At(r.states[|r.steps|], limit, 1, Scanning(1))
  {
    r := Start0(setup);
    r := Extended(r, SubmitOk);
    r := Extended(r, Deliver(0, limit));
    r := Extended(r, By(0, ReadJob));
    r := Extended(r, By(0, ReadCurrent));
    r := Extended(r, By(0, ClaimJob));
  }

  /** A scan that ends with a retryable error before the last attempt leads to the head of the next one. */
  lemma RetriedOnce(r: Run, limit: nat, a: nat, error: Outcome) returns (r': Run)
    requires r.Valid() && NoneRaises(r) && At(r.states[|r.steps|], limit, a, Scanning(a)) && a < limit && Again(error)
    ensures r'.Valid() && r'.setup == r.setup && NoneRaises(r') && At(r'.states[|r'.steps|], limit, a, Read(a + 1))
  {
    r' := Erred(r, limit, a, error);
    r' := Extended(r', By(0, AppendRetry));
  }

  lemma Erred(r: Run, limit: nat, a: nat, error: Outcome) returns (r': Run)
    requires r.Valid() && NoneRaises(r) && At(r.states[|r.steps|], limit, a, Scanning(a)) && a < limit && Again(error)
    ensures r'.Valid() && r'.setup == r.setup && NoneRaises(r')
    ensures At(r'.states[|r'.steps|], limit, a, Retrying(a, error.code))
  {
    r' := Extended(r, By(0, ScanEnds(error)));
    r' := Extended(r', By(0, Poll(None)));
  }

  /**
   A run in which the claimer returns on a job still running: its first scan times out, and the cancel
   lands between the read and the claim of its second attempt.
   */
  lemma UnfinishedReturnHappens(setup: Setup) returns (r: Run)
    requires setup.hasAdapter
    ensures r.Valid() && |r.steps| > 0 && r.ClaimerReturns(|r.steps| - 1, 0)
    ensures r.states[|r.steps|].job.row.status == Running
  {
    r := ClaimedOnce(setup, 2);
    r := RetriedOnce(r, 2, 1, ProductError("ADAPTER_TIMEOUT", "timed out", true, true));
    r := Extended(r, By(0, ReadCurrent));
    r := Extended(r, Cancel);
    r := Extended(r, By(0, ClaimJob));
  }
}
