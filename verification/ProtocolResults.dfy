/** What a job ends with, for every run: the scan's own result, the cancellation, or the failure to start it. */
module ProtocolResults {
  import opened Prelude
  import opened Findings
  import opened Jobs
  import opened Protocol
  import opened ProtocolRuns

  // ---------------------------------------------------------------- what the job reports

  /** In one of the first `k` steps storing the findings raised in `e`. */
  predicate RaisedIn(r: Run, k: nat, e: nat, reason: string)
    requires r.Valid() && k <= |r.steps|
  {
    exists i :: 0 <= i < k && r.steps[i] == By(e, StoreRaises(reason))
  }

  function RaisedBy(r: Run, k: nat, e: nat): Option<string>
    requires r.Valid() && k <= |r.steps|
  {
    if k == 0 then None else RaisedNow(r.steps[k - 1], e, RaisedBy(r, k - 1, e))
  }

  function RaisedNow(step: Step, e: nat, raised: Option<string>): Option<string> {
    if step.By? && step.e == e && step.action.StoreRaises? then Some(step.action.reason) else raised
  }

  lemma {:induction false} RaisedByIs(r: Run, k: nat, e: nat)
    requires r.Valid() && k <= |r.steps|
    ensures RaisedBy(r, k, e).Some? ==> RaisedIn(r, k, e, RaisedBy(r, k, e).value)
    ensures RaisedBy(r, k, e).None? ==> forall reason :: !RaisedIn(r, k, e, reason)
  {
    if k > 0 {
      RaisedByIs(r, k - 1, e);
      assert forall reason :: RaisedIn(r, k, e, reason) <==>
          RaisedIn(r, k - 1, e, reason) || r.steps[k - 1] == By(e, StoreRaises(reason));
    }
  }

  /**
   The result a scan outcome calls for when nobody asks for cancellation. `raised` is what storing the findings
   raised, if it did; `emitted` are the findings of the event log.
   */
  predicate Verdict(outcome: Outcome, exhausted: bool, raised: Option<string>, stored: seq<Finding>,
                    emitted: seq<Finding>, count: nat, status: Status, code: Option<string>, message: Option<string>)
  {
    match outcome
    case Found(findings) =>
      emitted == stored &&
      (match raised
       case None => status == Succeeded && stored == findings && count == |findings| && code == None && message == None
       case Some(reason) =>
         status == Failed && stored <= findings && count == 0
         && code == Some("INTERNAL_ERROR") && message == Some(reason))
    case ProductError(c, text, retryable, timeout) =>
      && status == (if timeout then TimedOut else Failed) && code == Some(c) && message == Some(text)
      && stored == emitted == [] && count == 0 && raised == None && (retryable ==> exhausted)
    case OtherError(text) =>
      && status == Failed && code == Some("INTERNAL_ERROR") && message == Some(text)
      && stored == emitted == [] && count == 0 && raised == None
  }

  predicate VerdictOf(s: State, x: Executor, raised: Option<string>,
                      status: Status, code: Option<string>, message: Option<string>)
  {
    var row := s.job.row;
    && x.last.Some?
    && Verdict(x.last.value, row.attempt == x.maxAttempts, raised, s.stored, FindingsOf(s.job.log),
               row.resultCount, status, code, message)
  }

  predicate Reports(s: State, x: Executor, raised: Option<string>) {
    match x.pc
    case Scanned(_, outcome) => x.last == Some(outcome) && raised == None && s.job.row.resultCount == 0
    case Storing(_, findings, _, _) => x.last == Some(Found(findings)) && raised == None && s.job.row.resultCount == 0
    case Retrying(a, code) =>
      && x.last.Some? && x.last.value.ProductError? && x.last.value.retryable && x.last.value.code == code
      && raised == None && s.job.row.resultCount == 0
    case Finishing(status, fault, detail) => VerdictOf(s, x, raised, status, fault, detail)
    case Returned => VerdictOf(s, x, raised, s.job.row.status, s.job.row.errorCode, s.job.row.errorMessage)
    case _ => raised == None && s.job.row.resultCount == 0
  }

  /** Nothing was raised by an executor that does not own the job; the owner's state explains the row. */
  predicate Faithful(s: State, e: nat, raised: Option<string>) {
    if Owns(s, e) then e in s.executors && !s.job.row.cancelRequested ==> Reports(s, s.executors[e], raised)
    else raised == None
  }

  /** A step of an executor that does not own the job writes nothing while no cancellation is requested. */
  lemma StrangerWritesNothing(s: State, s': State, f: nat, action: Action)
    requires Inv(s) && f in s.executors && CanDo(s.executors[f].pc, action) && s' == Act(s, f, action)
    requires s.owner.Some? && !Owns(s, f) && !s.job.row.cancelRequested
    ensures s'.job == s.job && s'.stored == s.stored && s'.owner == s.owner
    ensures forall e :: e in s.executors && e != f ==> e in s'.executors && s'.executors[e] == s.executors[e]
  {
    assert ExecutorOk(s, f);
  }

  lemma OwnerReports(s: State, s': State, e: nat, action: Action, raised: Option<string>)
    requires Inv(s) && e in s.executors && CanDo(s.executors[e].pc, action) && s' == Act(s, e, action)
    requires Faithful(s, e, raised) && Owns(s, e)
    ensures Faithful(s', e, RaisedNow(By(e, action), e, raised))
  {
    assert ExecutorOk(s, e);
    match action
    case Succeed => OwnerSucceeds(s, s', e, raised);
    case Finish => OwnerFinishes(s, s', e, raised);
    case _ =>
  }

  lemma OwnerSucceeds(s: State, s': State, e: nat, raised: Option<string>)
    requires Inv(s) && e in s.executors && CanDo(s.executors[e].pc, Succeed) && s' == Act(s, e, Succeed)
    requires Faithful(s, e, raised) && Owns(s, e)
    ensures Faithful(s', e, raised)
  {
    assert ExecutorOk(s, e);
    var findings := s.executors[e].pc.findings;
    assert findings[..|findings|] == findings;
    AppendReads(s.job.log, StatusEvent(Succeeded, None));
  }

  lemma OwnerFinishes(s: State, s': State, e: nat, raised: Option<string>)
    requires Inv(s) && e in s.executors && CanDo(s.executors[e].pc, Finish) && s' == Act(s, e, Finish)
    requires Faithful(s, e, raised) && Owns(s, e)
    ensures Faithful(s', e, raised)
  {
    var pc := s.executors[e].pc;
    AppendReads(s.job.log, StatusEvent(pc.status, FaultOf(pc.fault, pc.detail)));
  }

  /** A step of anyone while `e` does not own the job: only its claim can make it the owner. */
  lemma UnownedAct(s: State, s': State, e: nat, f: nat, action: Action)
    requires Inv(s) && f in s.executors && CanDo(s.executors[f].pc, action) && s' == Act(s, f, action)
    requires !Owns(s, e)
    ensures Faithful(s', e, RaisedNow(By(f, action), e, None))
  {
    assert ExecutorOk(s, f);
  }

  lemma FaithfulStep(s: State, s': State, e: nat, step: Step, raised: Option<string>)
    requires Inv(s) && Enabled(s, step) && s' == Apply(s, step) && Faithful(s, e, raised)
    ensures Faithful(s', e, RaisedNow(step, e, raised))
  {
    match step
    case By(f, action) =>
      if !Owns(s, e) {
        UnownedAct(s, s', e, f, action);
      } else if f == e {
        OwnerReports(s, s', e, action, raised);
      } else if !s.job.row.cancelRequested {
        StrangerWritesNothing(s, s', f, action);
      } else {
        StepKeepsOwner(s, s', e, step);
      }
    case RecordDispatchFailure(_) => assert Owns(s, e) ==> ClaimedOk(s, e);
    case _ =>
  }

  lemma StepKeepsOwner(s: State, s': State, e: nat, step: Step)
    requires Inv(s) && Enabled(s, step) && s' == Apply(s, step) && Owns(s, e)
    ensures Owns(s', e) && (s.job.row.cancelRequested ==> s'.job.row.cancelRequested)
  {
    StepLater(s, step);
  }

  lemma {:induction false} FaithfulAt(r: Run, i: nat, e: nat)
    requires r.Valid() && i < |r.states|
    ensures Faithful(r.states[i], e, RaisedBy(r, i, e))
  {
    if i > 0 {
      FaithfulAt(r, i - 1, e);
      InvAt(r, i - 1);
      assert r.StepAt(i - 1);
      FaithfulStep(r.states[i - 1], r.states[i], e, r.steps[i - 1], RaisedBy(r, i - 1, e));
    }
  }

  /**
   A job that was never cancelled ends, once its claimer has returned, with what the claimer's last scan delivered.
   Found findings are all stored, emitted and counted and the job succeeds, unless the run has a step in which
   storing them raised. A scan error gives its own status, code and message, a retryable one only after the last
   allowed attempt.
   */
  lemma UncancelledResult(r: Run, k: nat, e: nat) returns (raised: Option<string>)
    requires r.Valid() && k < |r.states| && Owns(r.states[k], e)
    requires e in r.states[k].executors && r.states[k].executors[e].pc.Returned?
    requires !r.states[k].job.row.cancelRequested
    ensures raised.Some? ==> RaisedIn(r, k, e, raised.value)
    ensures raised.None? ==> forall reason :: !RaisedIn(r, k, e, reason)
    ensures var s := r.states[k];
      && s.executors[e].last.Some?
      && Verdict(s.executors[e].last.value, s.job.row.attempt == s.executors[e].maxAttempts, raised, s.stored,
                 FindingsOf(s.job.log), s.job.row.resultCount,
                 s.job.row.status, s.job.row.errorCode, s.job.row.errorMessage)
  {
    FaithfulAt(r, k, e);
    RaisedByIs(r, k, e);
    raised := RaisedBy(r, k, e);
  }

  // ---------------------------------------------------------------- and every result happens

  /** `errors` end the first attempts; `last` ends the one after them and is not retried. */
  predicate Script(limit: nat, errors: seq<Outcome>, last: Outcome) {
    && |errors| < limit && (forall i :: 0 <= i < |errors| ==> Again(errors[i]))
    && (Again(last) ==> |errors| + 1 == limit)
  }

  lemma {:induction false} Attempts(setup: Setup, limit: nat, errors: seq<Outcome>) returns (r: Run)
    requires setup.hasAdapter && |errors| < limit && forall i :: 0 <= i < |errors| ==> Again(errors[i])
    ensures r.Valid() && r.setup == setup && NoneRaises(r)
    ensures At(r.states[|r.steps|], limit, |errors| + 1, Scanning(|errors| + 1))
  {
    if errors == [] {
      r := ClaimedOnce(setup, limit);
    } else {
      var a: nat := |errors| - 1;
      r := Attempts(setup, limit, errors[..a]);
      r := RetriedOnce(r, limit, a + 1, errors[a]);
      r := Reclaimed(r, limit, a + 1);
    }
  }

  lemma Reclaimed(r: Run, limit: nat, a: nat) returns (r': Run)
    requires r.Valid() && NoneRaises(r) && At(r.states[|r.steps|], limit, a, Read(a + 1)) && a >= 1
    ensures r'.Valid() && r'.setup == r.setup && NoneRaises(r')
    ensures At(r'.states[|r'.steps|], limit, a + 1, Scanning(a + 1))
  {
    r' := Extended(r, By(0, ReadCurrent));
    r' := Extended(r', By(0, ClaimJob));
  }

  lemma StoresOne(r: Run, limit: nat, a: nat, findings: seq<Finding>, n: nat) returns (r': Run)
    requires r.Valid() && NoneRaises(r) && n < |findings|
    requires At(r.states[|r.steps|], limit, a, Storing(a, findings, n, n))
    requires r.states[|r.steps|].executors[0].last == Some(Found(findings))
    ensures r'.Valid() && r'.setup == r.setup && NoneRaises(r')
    ensures At(r'.states[|r'.steps|], limit, a, Storing(a, findings, n + 1, n + 1))
    ensures r'.states[|r'.steps|].executors[0].last == Some(Found(findings))
  {
    r' := Extended(r, By(0, AddFinding));
    r' := Extended(r', By(0, EmitFinding));
  }

  lemma {:induction false} StoresFirst(r: Run, limit: nat, a: nat, findings: seq<Finding>, n: nat) returns (r': Run)
    requires r.Valid() && NoneRaises(r) && At(r.states[|r.steps|], limit, a, Scanned(a, Found(findings)))
    requires r.states[|r.steps|].executors[0].last == Some(Found(findings)) && n <= |findings|
    ensures r'.Valid() && r'.setup == r.setup && NoneRaises(r')
    ensures At(r'.states[|r'.steps|], limit, a, Storing(a, findings, n, n))
    ensures r'.states[|r'.steps|].executors[0].last == Some(Found(findings))
    decreases n
  {
    if n == 0 {
      r' := Extended(r, By(0, Poll(None)));
    } else {
      var m: nat := n - 1;
      r' := StoresFirst(r, limit, a, findings, m);
      r' := StoresOne(r', limit, a, findings, m);
    }
  }

  /** Whatever a scan delivers, after whatever retried errors, there is a run that ends with it. */
  lemma ResultHappens(setup: Setup, limit: nat, errors: seq<Outcome>, last: Outcome) returns (r: Run)
    requires setup.hasAdapter && Script(limit, errors, last)
    ensures r.Valid() && r.setup == setup
    ensures var s := r.states[|r.steps|];
      && 0 in s.executors && s.executors[0].pc.Returned?
      && s.job.row.attempt == |errors| + 1 && s.executors[0].maxAttempts == limit
      && Verdict(last, |errors| + 1 == limit, None, s.stored, FindingsOf(s.job.log), s.job.row.resultCount,
                 s.job.row.status, s.job.row.errorCode, s.job.row.errorMessage)
  {
    var a := |errors| + 1;
    r := Attempts(setup, limit, errors);
    r := Extended(r, By(0, ScanEnds(last)));
    if last.Found? {
      r := StoresFirst(r, limit, a, last.findings, |last.findings|);
      r := Extended(r, By(0, Succeed));
    } else {
      r := Extended(r, By(0, Poll(None)));
      r := Extended(r, By(0, Finish));
    }
    var raised := UncancelledResult(r, |r.steps|, 0);
  }

  /** Any findings a scan may deliver are stored by some run, which succeeds. */
  lemma EveryFindingsStored(setup: Setup, findings: seq<Finding>) returns (r: Run)
    requires setup.hasAdapter
    ensures r.Valid() && r.setup == setup
    ensures var s := r.states[|r.steps|];
      && s.stored == findings && s.job.row.status == Succeeded && s.job.row.resultCount == |findings|
  {
    r := ResultHappens(setup, 1, [], Found(findings));
  }

  // ---------------------------------------------------------------- a cancel the claimer sees

  predicate Ends(row: Row, status: Status, code: Option<string>, message: Option<string>) {
    row.status == status && row.errorCode == code && row.errorMessage == message
  }

  predicate EndsCancelled(row: Row) {
    Ends(row, Cancelled, None, None)
  }

  predicate EndsWith(row: Row, error: Outcome)
    requires !error.Found?
  {
    match error
    case ProductError(code, text, _, timeout) => Ends(row, if timeout then TimedOut else Failed, Some(code), Some(text))
    case OtherError(text) => Ends(row, Failed, Some("INTERNAL_ERROR"), Some(text))
  }

  /**
   Whatever else happens, `e` will leave the job with this result, or has left it so; a stranger's finish, as
   `overruled` says, may then have cancelled it.
   */
  predicate Bound(s: State, e: nat, status: Status, code: Option<string>, message: Option<string>, overruled: bool) {
    && Owns(s, e) && e in s.executors && s.job.row.cancelRequested
    && match s.executors[e].pc
       case Finishing(st, c, m) => st == status && c == code && m == message
       case Retrying(_, _) => status == Cancelled && code == None && message == None
       case Read(_) => status == Cancelled && code == None && message == None
       case Returned => Ends(s.job.row, status, code, message) || (overruled && EndsCancelled(s.job.row))
       case _ => false
  }

  predicate Overrules(step: Step, e: nat) {
    step.By? && step.e != e && step.action.Finish?
  }

  /** From step `j` on, an executor other than `e` has finished. */
  predicate OverruledIn(r: Run, j: nat, k: nat, e: nat)
    requires r.Valid() && j <= k <= |r.steps|
  {
    exists i :: j <= i < k && Overrules(r.steps[i], e)
  }

  lemma BoundOwnStep(s: State, s': State, e: nat, action: Action,
                     status: Status, code: Option<string>, message: Option<string>, overruled: bool)
    requires Inv(s) && Bound(s, e, status, code, message, overruled)
    requires CanDo(s.executors[e].pc, action) && s' == Act(s, e, action)
    ensures Bound(s', e, status, code, message, overruled)
  {
  }

  lemma BoundOtherStep(s: State, s': State, e: nat, f: nat, action: Action,
                       status: Status, code: Option<string>, message: Option<string>, overruled: bool)
    requires Inv(s) && Bound(s, e, status, code, message, overruled) && f != e
    requires f in s.executors && CanDo(s.executors[f].pc, action) && s' == Act(s, f, action)
    ensures Bound(s', e, status, code, message, overruled || action.Finish?)
  {
    assert ExecutorOk(s, f);
  }

  lemma BoundStep(s: State, s': State, e: nat, step: Step,
                  status: Status, code: Option<string>, message: Option<string>, overruled: bool)
    requires Inv(s) && Enabled(s, step) && s' == Apply(s, step) && Bound(s, e, status, code, message, overruled)
    ensures Bound(s', e, status, code, message, overruled || Overrules(step, e))
  {
    assert ClaimedOk(s, e);
    match step
    case By(f, action) =>
      if f == e {
        BoundOwnStep(s, s', e, action, status, code, message, overruled);
      } else {
        BoundOtherStep(s, s', e, f, action, status, code, message, overruled);
      }
    case _ =>
  }

  lemma {:induction false} BoundAt(r: Run, j: nat, k: nat, e: nat,
                                   status: Status, code: Option<string>, message: Option<string>)
    requires r.Valid() && j <= k < |r.states| && Bound(r.states[j], e, status, code, message, false)
    ensures Bound(r.states[k], e, status, code, message, OverruledIn(r, j, k, e))
    decreases k
  {
    if j < k {
      var last: nat := k - 1;
      BoundAt(r, j, last, e, status, code, message);
      BoundNext(r, last, e, status, code, message, OverruledIn(r, j, last, e));
      OverruledNext(r, j, last, e);
    }
  }

  lemma BoundNext(r: Run, i: nat, e: nat, status: Status, code: Option<string>, message: Option<string>,
                  overruled: bool)
    requires r.Valid() && i < |r.steps| && Bound(r.states[i], e, status, code, message, overruled)
    ensures Bound(r.states[i + 1], e, status, code, message, overruled || Overrules(r.steps[i], e))
  {
    InvAt(r, i);
    assert r.StepAt(i);
    BoundStep(r.states[i], r.states[i + 1], e, r.steps[i], status, code, message, overruled);
  }

  lemma OverruledNext(r: Run, j: nat, k: nat, e: nat)
    requires r.Valid() && j <= k < |r.steps|
    ensures OverruledIn(r, j, k + 1, e) <==> OverruledIn(r, j, k, e) || Overrules(r.steps[k], e)
  {
  }

  /** What a poll finds the scan to have delivered: its result, or the error raised while it was being cancelled. */
  function Held(x: Executor, late: Option<Outcome>): Option<Outcome> {
    if x.pc.Scanned? then Some(x.pc.outcome) else late
  }

  /** The poll ends the attempt with this error, which is not retried. */
  predicate FinalError(held: Option<Outcome>, attempt: nat, limit: nat) {
    held.Some? && !held.value.Found? && (Again(held.value) ==> attempt >= limit)
  }

  /**
   A poll that sees the cancel request decides the job. If the scan holds no error, or one that would be retried,
   the job is cancelled once the claimer has returned. Any other error is the job's result, unless a second
   delivery, finishing in between, cancels it.
   */
  lemma FlaggedPollDecides(r: Run, j: nat, e: nat, late: Option<Outcome>, k: nat)
    requires r.Valid() && j < k < |r.states| && r.steps[j] == By(e, Poll(late))
    requires r.states[j].job.row.cancelRequested
    requires e in r.states[k].executors && r.states[k].executors[e].pc.Returned?
    ensures e in r.states[j].executors
    ensures var x, row := r.states[j].executors[e], r.states[k].job.row;
            var held := Held(x, late);
            if FinalError(held, r.states[j].job.row.attempt, x.maxAttempts)
            then EndsWith(row, held.value) || (EndsCancelled(row) && OverruledIn(r, j + 1, k, e))
            else EndsCancelled(row)
  {
    assert r.StepAt(j);
    InvAt(r, j);
    var s, s' := r.states[j], r.states[j + 1];
    assert ExecutorOk(s, e);
    var x := s.executors[e];
    var held := Held(x, late);
    if FinalError(held, s.job.row.attempt, x.maxAttempts) {
      var pc := s'.executors[e].pc;
      BoundAt(r, j + 1, k, e, pc.status, pc.fault, pc.detail);
    } else {
      BoundAt(r, j + 1, k, e, Cancelled, None, None);
    }
  }

  /** So does a read at the head of a later attempt: the job is cancelled once the claimer has returned. */
  lemma FlaggedReadDecides(r: Run, j: nat, e: nat, k: nat)
    requires r.Valid() && j < k < |r.states| && r.steps[j] == By(e, ReadCurrent) && Owns(r.states[j], e)
    requires r.states[j].job.row.cancelRequested
    requires e in r.states[k].executors && r.states[k].executors[e].pc.Returned?
    ensures EndsCancelled(r.states[k].job.row)
  {
    assert r.StepAt(j);
    InvAt(r, j);
    BoundAt(r, j + 1, k, e, Cancelled, None, None);
  }

  // ---------------------------------------------------------------- retries

  /**
   A retry event repeats the code of the retryable error the attempt ended with, numbers that attempt and the
   next, and is written before the last allowed attempt only.
   */
  lemma RetryRecorded(r: Run, i: nat, e: nat) returns (j: nat, late: Option<Outcome>)
    requires r.Valid() && i < |r.steps| && r.steps[i] == By(e, AppendRetry)
    ensures j < i && r.steps[j] == By(e, Poll(late)) && e in r.states[j].executors
    ensures var x, a := r.states[j].executors[e], r.states[i].job.row.attempt;
      var held := Held(x, late);
      && held.Some? && Again(held.value) && a < x.maxAttempts && a == r.states[j].job.row.attempt
      && Logged(r.states[i].job.log, r.states[i + 1].job.log, RetryEvent(a, a + 1, held.value.code))
  {
    assert r.StepAt(i);
    InvAt(r, i);
    RetryLogged(r.states[i], r.states[i + 1], e);
    j, late := RetryingSince(r, i, e);
  }

  lemma RetryLogged(s: State, s': State, e: nat)
    requires Inv(s) && e in s.executors && s.executors[e].pc.Retrying? && s' == Act(s, e, AppendRetry)
    ensures var a := s.job.row.attempt;
      Logged(s.job.log, s'.job.log, RetryEvent(a, a + 1, s.executors[e].pc.code))
  {
    assert ExecutorOk(s, e);
    var pc := s.executors[e].pc;
    AppendReads(s.job.log, RetryEvent(pc.attempt, pc.attempt + 1, pc.code));
    NumberedMax(s.job.log);
  }

  lemma RetryingOnlyByPoll(s: State, s': State, step: Step, e: nat)
    requires Enabled(s, step) && s' == Apply(s, step) && e in s'.executors && s'.executors[e].pc.Retrying?
    requires !(step.By? && step.e == e && step.action.Poll?)
    ensures e in s.executors && s.executors[e].pc == s'.executors[e].pc
  {
    if step.By? && step.e == e { NoOtherRetry(s, s', e, step.action); }
  }

  lemma NoOtherRetry(s: State, s': State, e: nat, action: Action)
    requires e in s.executors && CanDo(s.executors[e].pc, action) && s' == Act(s, e, action) && !action.Poll?
    ensures e in s'.executors && !s'.executors[e].pc.Retrying?
  {
  }

  lemma PollRetries(s: State, s': State, e: nat, late: Option<Outcome>)
    requires Inv(s) && Enabled(s, By(e, Poll(late))) && s' == Act(s, e, Poll(late)) && s'.executors[e].pc.Retrying?
    ensures var held := Held(s.executors[e], late);
      && held.Some? && Again(held.value) && s.job.row.attempt < s.executors[e].maxAttempts
      && s'.executors[e].pc == Retrying(s.job.row.attempt, held.value.code)
  {
    assert ExecutorOk(s, e);
  }

  lemma {:induction false} RetryingSince(r: Run, i: nat, e: nat) returns (j: nat, late: Option<Outcome>)
    requires r.Valid() && i < |r.states| && e in r.states[i].executors && r.states[i].executors[e].pc.Retrying?
    ensures j < i && r.steps[j] == By(e, Poll(late)) && e in r.states[j].executors
    ensures var x, held := r.states[j].executors[e], Held(r.states[j].executors[e], late);
      && held.Some? && Again(held.value) && r.states[j].job.row.attempt < x.maxAttempts
      && r.states[i].executors[e].pc == Retrying(r.states[j].job.row.attempt, held.value.code)
  {
    assert i > 0;
    var last: nat := i - 1;
    assert r.StepAt(last);
    InvAt(r, last);
    if r.steps[last].By? && r.steps[last].e == e && r.steps[last].action.Poll? {
      j, late := last, r.steps[last].action.late;
      PollRetries(r.states[last], r.states[i], e, late);
    } else {
      RetryingOnlyByPoll(r.states[last], r.states[i], r.steps[last], e);
      j, late := RetryingSince(r, last, e);
    }
  }

  // ---------------------------------------------------------------- jobs that are never scanned

  /** A job whose dispatch failed stays failed with that error, and nobody executes it. */
  lemma {:induction false} DispatchFailureStays(r: Run, i: nat, reason: string, k: nat)
    requires r.Valid() && i < k < |r.states| && r.steps[i] == RecordDispatchFailure(reason)
    ensures Ends(r.states[k].job.row, Failed, Some("DISPATCH_FAILED"), Some(reason))
    ensures r.states[k].executors == map[] && r.states[k].creator == Abandoned
    decreases k
  {
    var last: nat := k - 1;
    assert r.StepAt(last);
    InvAt(r, last);
    if i < last { DispatchFailureStays(r, i, reason, last); }
  }

  predicate Unscanned(s: State) {
    && s.owner == None
    && (s.creator == Submitted ==> s.job.row.status == Queued || EndsCancelled(s.job.row) || UnknownSource(s.job.row))
    && (s.creator != Submitted ==> s.executors == map[])
    && (s.creator in {Submitting, DispatchFailed} ==> s.job.row.status == Queued || EndsCancelled(s.job.row))
    && (s.job.row.status == Queued ==> s.job.row.errorCode == None && s.job.row.errorMessage == None)
    && forall e :: e in s.executors ==>
      s.executors[e].pc.Start? || s.executors[e].pc.NoAdapter?
      || (s.executors[e].pc.Returned? && s.job.row.status.Terminal())
  }

  predicate UnknownSource(row: Row) {
    row.status == Failed && row.errorCode == Some("UNKNOWN_SOURCE") && row.errorMessage.Some?
  }

  lemma UnscannedStep(s: State, s': State, step: Step)
    requires Enabled(s, step) && s' == Apply(s, step) && !s.hasAdapter && Unscanned(s)
    ensures Unscanned(s')
  {
  }

  lemma {:induction false} UnscannedAt(r: Run, k: nat)
    requires r.Valid() && k < |r.states| && !r.setup.hasAdapter
    ensures Unscanned(r.states[k]) && !r.states[k].hasAdapter
  {
    if k > 0 {
      UnscannedAt(r, k - 1);
      assert r.StepAt(k - 1);
      UnscannedStep(r.states[k - 1], r.states[k], r.steps[k - 1]);
    }
  }

  /**
   Without an adapter for its source a job is never claimed, and ends failed for that reason unless it was cancelled.
   */
  lemma UnknownSourceFails(r: Run, k: nat, e: nat)
    requires r.Valid() && k < |r.states| && !r.setup.hasAdapter
    requires e in r.states[k].executors && r.states[k].executors[e].pc.Returned?
    ensures r.states[k].job.row.attempt == 0
    ensures UnknownSource(r.states[k].job.row)
        || (EndsCancelled(r.states[k].job.row) && r.states[k].job.row.cancelRequested)
  {
    UnscannedAt(r, k);
    InvAt(r, k);
  }

  /** An executor delivered to a terminal job does nothing but return. */
  lemma {:induction false} TerminalSkipped(r: Run, i: nat, k: nat, e: nat)
    requires r.Valid() && i <= k < |r.states| && r.states[i].job.row.status.Terminal()
    requires e !in r.states[i].executors
    ensures e in r.states[k].executors ==> r.states[k].executors[e].pc in {Start, Returned}
    ensures forall j :: i <= j < k && r.steps[j].By? && r.steps[j].e == e ==> r.steps[j].action == ReadJob
    decreases k
  {
    if i < k {
      var last: nat := k - 1;
      TerminalSkipped(r, i, last, e);
      RunLater(r, i, last);
      assert r.StepAt(last);
      SkippedStep(r.states[last], r.states[k], r.steps[last], e);
    }
  }

  lemma SkippedStep(s: State, s': State, step: Step, e: nat)
    requires Enabled(s, step) && s' == Apply(s, step) && s.job.row.status.Terminal()
    requires e in s.executors ==> s.executors[e].pc in {Start, Returned}
    ensures e in s'.executors ==> s'.executors[e].pc in {Start, Returned}
    ensures step.By? && step.e == e ==> step.action == ReadJob
  {
    if step.By? {
      if step.e == e { ReturnsAtOnce(s, s', e, step.action); } else { OthersAct(s, s', step.e, step.action, e); }
    }
  }

  lemma ReturnsAtOnce(s: State, s': State, e: nat, action: Action)
    requires e in s.executors && CanDo(s.executors[e].pc, action) && s' == Act(s, e, action)
    requires s.job.row.status.Terminal() && s.executors[e].pc in {Start, Returned}
    ensures action == ReadJob && e in s'.executors && s'.executors[e].pc.Returned?
  {
  }

  lemma OthersAct(s: State, s': State, f: nat, action: Action, e: nat)
    requires f in s.executors && CanDo(s.executors[f].pc, action) && s' == Act(s, f, action) && e != f
    ensures if e in s.executors then e in s'.executors && s'.executors[e] == s.executors[e] else e !in s'.executors
  {
  }

  /** No participant is ever stuck: an executor that has not returned has a next step. */
  lemma NeverStuck(r: Run, k: nat, e: nat) returns (action: Action)
    requires r.Valid() && k < |r.states| && e in r.states[k].executors && !r.states[k].executors[e].pc.Returned?
    ensures Enabled(r.states[k], By(e, action))
  {
    InvAt(r, k);
    assert ExecutorOk(r.states[k], e);
    action := match r.states[k].executors[e].pc
      case Start => ReadJob
      case NoAdapter => FailUnknownSource("")
      case Read(_) => ReadCurrent
      case Claim(_, _) => ClaimJob
      case Scanning(_) => Poll(None)
      case Scanned(_, _) => Poll(None)
      case Storing(_, findings, added, emitted) =>
        if emitted < added then EmitFinding else if emitted < |findings| then AddFinding else Succeed
      case Retrying(_, _) => AppendRetry
      case _ => Finish;
  }
}
