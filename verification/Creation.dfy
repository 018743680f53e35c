/**
 Concurrent idempotent creation of jobs: look the key up, insert, and on a unique conflict look it up
 again; the caller that inserted submits the job (src/shared_integration/sql_jobs.py,
 src/shared_integration/api_v1.py). Each read and each transaction is one atomic step.
 `uuid4` is fresh, so the job a creator inserts is named after that creator.
 */
module Creation {
  import opened Prelude

  datatype Pc =
    | Lookup
    | CheckTenant
    | Insert(tenantSeen: bool)
    | Relookup
    | Submit
    | Replied(job: nat, created: bool)
    | Failed

  datatype Key = Key(tenant: string, idempotencyKey: Option<string>)

  datatype Creator = Creator(key: Key, pc: Pc)

  /**
   `known` are the tenants that existed before the run, `slugs` the slugs that tenants have now;
   `submitted` is what the dispatcher accepted.
   */
  datatype State = State(
    jobs: map<nat, Key>,
    tenants: set<string>,
    slugs: set<string>,
    known: set<string>,
    creators: map<nat, Creator>,
    submitted: seq<nat>)

  /** `Found`: another part of the system inserts a tenant under a slug of its choice. */
  datatype Step = Arrive(c: nat, key: Key) | Act(c: nat, submitOk: bool) | Found(tenant: string, slug: string)

  predicate Enabled(s: State, step: Step) {
    match step
    case Arrive(c, _) => c !in s.creators
    case Act(c, _) => c in s.creators && !s.creators[c].pc.Replied? && !s.creators[c].pc.Failed?
    case Found(tenant, slug) => tenant !in s.tenants && slug !in s.slugs
  }

  predicate Holds(s: State, job: nat, key: Key) {
    job in s.jobs && s.jobs[job] == key
  }

  ghost function Find(s: State, key: Key): (found: Option<nat>)
    ensures found.Some? ==> Holds(s, found.value, key)
    ensures found.None? ==> forall job :: !Holds(s, job, key)
  {
    if job :| Holds(s, job, key) then Some(job) else None
  }

  function Goto(s: State, c: nat, pc: Pc): State
    requires c in s.creators
  {
    s.(creators := s.creators[c := s.creators[c].(pc := pc)])
  }

  /**
   The insert transaction fails on the tenant's primary key, on the tenant's slug, for which it takes the
   tenant's id, or on the unique idempotency key.
   */
  ghost predicate Conflicts(s: State, key: Key, tenantSeen: bool) {
    || (!tenantSeen && (key.tenant in s.tenants || key.tenant in s.slugs))
    || (key.idempotencyKey.Some? && Find(s, key).Some?)
  }

  ghost function Apply(s: State, step: Step): State
    requires Enabled(s, step)
  {
    match step
    case Arrive(c, key) => s.(creators := s.creators[c := Creator(key, Lookup)])
    case Found(tenant, slug) => s.(tenants := s.tenants + {tenant}, slugs := s.slugs + {slug})
    case Act(c, submitOk) =>
      var key := s.creators[c].key;
      match s.creators[c].pc
      case Lookup =>
        if key.idempotencyKey.Some? && Find(s, key).Some? then Goto(s, c, Replied(Find(s, key).value, false))
        else Goto(s, c, CheckTenant)
      case CheckTenant => Goto(s, c, Insert(key.tenant in s.tenants))
      case Insert(tenantSeen) =>
        if Conflicts(s, key, tenantSeen) then Goto(s, c, if key.idempotencyKey.None? then Failed else Relookup)
        else Goto(s, c, Submit).(
               jobs := s.jobs[c := key], tenants := s.tenants + {key.tenant},
               slugs := if tenantSeen then s.slugs else s.slugs + {key.tenant})
      case Relookup =>
        Goto(s, c, if Find(s, key).Some? then Replied(Find(s, key).value, false) else Failed)
      case Submit =>
        Goto(s, c, Replied(c, true)).(submitted := if submitOk then s.submitted + [c] else s.submitted)
  }

  /** The tenants and their slugs before the run, and whether other parts of the system insert tenants during it. */
  datatype World = World(known: set<string>, slugs: set<string>, others: bool)

  function Initial(w: World): State {
    State(map[], w.known, w.slugs, w.known, map[], [])
  }

  // ---------------------------------------------------------------- invariant

  predicate Inserted(pc: Pc, c: nat) {
    pc == Submit || pc == Replied(c, true)
  }

  ghost predicate CreatorOk(s: State, c: nat)
    requires c in s.creators
  {
    var x := s.creators[c];
    && (c in s.jobs <==> Inserted(x.pc, c))
    && (c in s.jobs ==> s.jobs[c] == x.key)
    && (x.pc.Replied? && x.pc.created ==> x.pc.job == c)
    && (x.pc.Replied? && !x.pc.created ==> x.key.idempotencyKey.Some? && Holds(s, x.pc.job, x.key))
    && (x.pc.Relookup? ==> x.key.idempotencyKey.Some?)
    && (x.key.tenant in s.known ==>
          && !x.pc.Failed? && (x.pc.Insert? ==> x.pc.tenantSeen)
          && (x.pc.Relookup? ==> exists job :: Holds(s, job, x.key)))
  }

  predicate KeysUnique(jobs: map<nat, Key>) {
    forall a, b :: a in jobs && b in jobs && jobs[a].idempotencyKey.Some? && jobs[a] == jobs[b] ==> a == b
  }

  ghost predicate Inv(s: State) {
    && s.known <= s.tenants
    && (forall job :: job in s.jobs ==> job in s.creators)
    && KeysUnique(s.jobs)
    && (forall c :: c in s.creators ==> CreatorOk(s, c))
    && SubmittedOk(s)
  }

  predicate SubmittedOk(s: State) {
    && (forall i :: 0 <= i < |s.submitted| ==>
          s.submitted[i] in s.creators && s.creators[s.submitted[i]].pc == Replied(s.submitted[i], true))
    && (forall i, j :: 0 <= i < j < |s.submitted| ==> s.submitted[i] != s.submitted[j])
  }

  lemma OthersOk(s: State, s': State, c: nat)
    requires forall d :: d in s.creators ==> CreatorOk(s, d)
    requires forall d :: d != c ==> (d in s'.creators <==> d in s.creators)
    requires forall d :: d != c && d in s.creators ==> s'.creators[d] == s.creators[d]
    requires forall d :: d != c ==> (d in s'.jobs <==> d in s.jobs)
    requires forall d :: d in s.jobs ==> d in s'.jobs && s'.jobs[d] == s.jobs[d]
    requires s'.known == s.known
    ensures forall d :: d in s'.creators && d != c ==> CreatorOk(s', d)
  {
    forall d | d in s'.creators && d != c ensures CreatorOk(s', d) {
      assert CreatorOk(s, d);
      var x := s.creators[d];
      if x.pc.Relookup? && x.key.tenant in s.known {
        var job :| Holds(s, job, x.key);
        assert Holds(s', job, x.key);
      }
    }
  }

  lemma InsertUnique(s: State, c: nat, key: Key)
    requires KeysUnique(s.jobs) && c !in s.jobs
    requires key.idempotencyKey.Some? ==> Find(s, key).None?
    ensures KeysUnique(s.jobs[c := key])
  {
    forall a | a in s.jobs && key.idempotencyKey.Some? ensures s.jobs[a] != key {
      assert !Holds(s, a, key);
    }
  }

  lemma ActorOk(s: State, step: Step, s': State)
    requires Inv(s) && Enabled(s, step) && !step.Found? && s' == Apply(s, step)
    ensures CreatorOk(s', step.c)
  {
    if step.Act? {
      assert CreatorOk(s, step.c);
      var key := s.creators[step.c].key;
      if Find(s, key).Some? { assert Holds(s', Find(s, key).value, key); }
    }
  }

  lemma JobsKept(s: State, step: Step, s': State)
    requires Inv(s) && Enabled(s, step) && s' == Apply(s, step)
    ensures s'.known <= s'.tenants && KeysUnique(s'.jobs) && (forall job :: job in s'.jobs ==> job in s'.creators)
  {
    if step.Act? {
      assert CreatorOk(s, step.c);
      if s'.jobs != s.jobs { InsertUnique(s, step.c, s.creators[step.c].key); }
    }
  }

  lemma SubmittedKept(s: State, step: Step, s': State)
    requires Inv(s) && Enabled(s, step) && s' == Apply(s, step)
    ensures SubmittedOk(s')
  {
  }

  lemma FoundOk(s: State, s': State, d: nat)
    requires d in s.creators && CreatorOk(s, d) && s' == s.(tenants := s'.tenants, slugs := s'.slugs)
    ensures CreatorOk(s', d)
  {
    var x := s.creators[d];
    if x.pc.Relookup? && x.key.tenant in s.known {
      var job :| Holds(s, job, x.key);
      assert Holds(s', job, x.key);
    }
  }

  lemma StepInv(s: State, step: Step)
    requires Inv(s) && Enabled(s, step)
    ensures Inv(Apply(s, step))
  {
    var s' := Apply(s, step);
    JobsKept(s, step, s');
    SubmittedKept(s, step, s');
    if step.Found? {
      forall d | d in s'.creators ensures CreatorOk(s', d) { FoundOk(s, s', d); }
    } else {
      ActorOk(s, step, s');
      if step.Act? { assert CreatorOk(s, step.c); }
      OthersOk(s, s', step.c);
    }
  }

  // ---------------------------------------------------------------- runs

  datatype Run = Run(world: World, states: seq<State>, steps: seq<Step>) {
    ghost predicate Valid() {
      && |states| == |steps| + 1 && states[0] == Initial(world)
      && forall i :: 0 <= i < |steps| ==> StepAt(i)
    }

    ghost predicate StepAt(i: int)
      requires |states| == |steps| + 1 && 0 <= i < |steps|
    {
      Enabled(states[i], steps[i]) && states[i + 1] == Apply(states[i], steps[i])
    }
  }

  lemma {:induction false} InvAt(r: Run, i: nat)
    requires r.Valid() && i < |r.states|
    ensures Inv(r.states[i])
  {
    if i > 0 {
      InvAt(r, i - 1);
      assert r.StepAt(i - 1);
      StepInv(r.states[i - 1], r.steps[i - 1]);
    }
  }

  /**
   All callers that return for one tenant and idempotency key get the same job. It was inserted by
   exactly one of the callers with that key, and no other caller sees `created`.
   */
  lemma SameJob(r: Run, i: nat, c: nat, d: nat)
    requires r.Valid() && i < |r.states| && c in r.states[i].creators && d in r.states[i].creators
    requires var s := r.states[i];
      && s.creators[c].key == s.creators[d].key && s.creators[c].key.idempotencyKey.Some?
      && s.creators[c].pc.Replied? && s.creators[d].pc.Replied?
    ensures var s := r.states[i];
      && s.creators[c].pc.job == s.creators[d].pc.job
      && (s.creators[c].pc.created && s.creators[d].pc.created ==> c == d)
      && s.creators[c].pc.job in s.creators
      && s.creators[s.creators[c].pc.job].key == s.creators[c].key
      && Inserted(s.creators[s.creators[c].pc.job].pc, s.creators[c].pc.job)
  {
    InvAt(r, i);
    var s := r.states[i];
    assert CreatorOk(s, c) && CreatorOk(s, d) && CreatorOk(s, s.creators[c].pc.job);
  }

  /** The dispatcher is given a job at most once, and only by the caller that created it. */
  lemma SubmittedOnce(r: Run, i: nat)
    requires r.Valid() && i < |r.states|
    ensures var s := r.states[i];
      && (forall a, b :: 0 <= a < b < |s.submitted| ==> s.submitted[a] != s.submitted[b])
      && (forall a :: 0 <= a < |s.submitted| ==>
            s.submitted[a] in s.creators && s.creators[s.submitted[a]].pc == Replied(s.submitted[a], true))
  {
    InvAt(r, i);
  }

  /** Step `i` is a submit that the dispatcher accepts from creator `c`, whose insert has committed. */
  ghost predicate Accepts(r: Run, i: nat, c: nat)
    requires r.Valid() && i < |r.steps|
  {
    r.steps[i] == Act(c, true) && c in r.states[i].creators && r.states[i].creators[c].pc == Submit
  }

  lemma SubmitStep(s: State, step: Step, s': State, c: nat)
    requires Inv(s) && Enabled(s, step) && s' == Apply(s, step)
    ensures c in s'.submitted <==>
      c in s.submitted || (step == Act(c, true) && s.creators[c].pc == Submit)
  {
  }

  /** The dispatcher has a job exactly if it accepted the submit of the caller that inserted it. */
  lemma {:induction false} SubmittedIff(r: Run, k: nat, c: nat)
    requires r.Valid() && k < |r.states|
    ensures c in r.states[k].submitted <==> exists i :: 0 <= i < k && Accepts(r, i, c)
  {
    if k > 0 {
      var last: nat := k - 1;
      SubmittedIff(r, last, c);
      InvAt(r, last);
      assert r.StepAt(last);
      SubmitStep(r.states[last], r.steps[last], r.states[k], c);
      if c in r.states[k].submitted && c !in r.states[last].submitted { assert Accepts(r, last, c); }
    }
  }

  /** A caller without a key, and one whose key no other caller has, gets a job of its own, unless its call raises. */
  lemma OwnJob(r: Run, k: nat, c: nat)
    requires r.Valid() && k < |r.states| && c in r.states[k].creators
    requires var s := r.states[k];
      && s.creators[c].pc.Replied?
      && (s.creators[c].key.idempotencyKey.Some? ==>
            forall d :: d in s.creators && d != c ==> s.creators[d].key != s.creators[c].key)
    ensures r.states[k].creators[c].pc == Replied(c, true) && c in r.states[k].jobs
  {
    InvAt(r, k);
    assert CreatorOk(r.states[k], c);
    var job := r.states[k].creators[c].pc.job;
    if job in r.states[k].creators { assert CreatorOk(r.states[k], job); }
  }

  /** How many steps of its own a creator has left at most. */
  function Left(pc: Pc): nat {
    match pc case Lookup => 4 case CheckTenant => 3 case Insert(_) => 2 case Relookup => 1 case Submit => 1 case _ => 0
  }

  /** A call that has neither replied nor raised can go on, and is done after at most four steps of its own. */
  lemma CreatorGoesOn(s: State, c: nat, submitOk: bool)
    requires c in s.creators && !s.creators[c].pc.Replied? && !s.creators[c].pc.Failed?
    ensures Enabled(s, Act(c, submitOk))
    ensures Left(Apply(s, Act(c, submitOk)).creators[c].pc) < Left(s.creators[c].pc)
    ensures Left(Apply(s, Act(c, submitOk)).creators[c].pc) == 0 ==>
      Apply(s, Act(c, submitOk)).creators[c].pc.Replied? || Apply(s, Act(c, submitOk)).creators[c].pc.Failed?
  {
  }

  lemma {:induction false} KnownAt(r: Run, i: nat)
    requires r.Valid() && i < |r.states|
    ensures r.states[i].known == r.world.known
  {
    if i > 0 {
      KnownAt(r, i - 1);
      assert r.StepAt(i - 1);
    }
  }

  // ---------------------------------------------------------------- when a creation raises

  /** The run serves the given calls only, each at most once; tenants are inserted from outside only if `others`. */
  predicate Serves(r: Run, calls: seq<Key>) {
    forall i :: 0 <= i < |r.steps| ==> Allowed(r.steps[i], r.world, calls)
  }

  predicate Allowed(step: Step, w: World, calls: seq<Key>) {
    && (step.Arrive? ==> step.c < |calls| && step.key == calls[step.c])
    && (step.Found? ==> w.others)
  }

  ghost predicate Fails(r: Run, c: nat) {
    r.Valid() && c in r.states[|r.steps|].creators && r.states[|r.steps|].creators[c].pc.Failed?
  }

  ghost predicate SomeCreationFails(w: World, calls: seq<Key>) {
    exists r, c: nat :: Serves(r, calls) && r.world == w && Fails(r, c)
  }

  /** Two calls for one tenant that cannot both insert it, the second of which will not find a job of its own. */
  predicate Collide(calls: seq<Key>, c: nat, d: nat) {
    && c < |calls| && d < |calls| && c != d
    && calls[c].tenant == calls[d].tenant && (calls[d].idempotencyKey.None? || calls[c] != calls[d])
  }

  /**
   Every call is for a known tenant; or nothing else inserts tenants, no unknown tenant's id is another
   tenant's slug, and no two calls for an unknown tenant collide.
   */
  ghost predicate Safe(w: World, calls: seq<Key>) {
    if w.others then forall c :: 0 <= c < |calls| ==> calls[c].tenant in w.known
    else
      && (forall c :: 0 <= c < |calls| ==> calls[c].tenant in w.known || calls[c].tenant !in w.slugs)
      && (forall c: nat, d: nat :: Collide(calls, c, d) ==> calls[d].tenant in w.known)
  }

  ghost predicate HasJob(s: State, tenant: string) {
    exists job :: job in s.jobs && s.jobs[job].tenant == tenant
  }

  /** Every tenant that was not known came with a job, and every slug that was not taken with a tenant of that id. */
  ghost predicate Grown(s: State, w: World) {
    && s.known == w.known
    && (forall tenant :: tenant in s.tenants && tenant !in w.known ==> HasJob(s, tenant))
    && (forall slug :: slug in s.slugs && slug !in w.slugs ==> slug in s.tenants)
  }

  /** Creator `c` has not failed, and if it looks its key up again, there is a job to find. */
  ghost predicate Untroubled(s: State, calls: seq<Key>, c: nat)
    requires c in s.creators
  {
    var x := s.creators[c];
    && c < |calls| && x.key == calls[c] && !x.pc.Failed?
    && (x.pc.Relookup? ==> exists job :: Holds(s, job, x.key))
  }

  lemma UntroubledLater(s: State, calls: seq<Key>, s': State, c: nat)
    requires c in s.creators && c in s'.creators && s'.creators[c] == s.creators[c] && Untroubled(s, calls, c)
    requires forall job :: job in s.jobs ==> job in s'.jobs && s'.jobs[job] == s.jobs[job]
    ensures Untroubled(s', calls, c)
  {
    var x := s.creators[c];
    if x.pc.Relookup? {
      var job :| Holds(s, job, x.key);
      assert Holds(s', job, x.key);
    }
  }

  /** The conflict of creator `c` is over its own key, or with a call it does not collide with. */
  lemma ConflictFound(s: State, w: World, calls: seq<Key>, c: nat)
    requires Inv(s) && Grown(s, w) && !w.others && Safe(w, calls)
    requires forall d :: d in s.creators ==> Untroubled(s, calls, d)
    requires c < |calls| && c in s.creators && s.creators[c].pc.Insert?
    requires Conflicts(s, calls[c], s.creators[c].pc.tenantSeen)
    ensures calls[c].idempotencyKey.Some? && exists job :: Holds(s, job, calls[c])
  {
    var key := calls[c];
    assert CreatorOk(s, c) && Untroubled(s, calls, c);
    if key.idempotencyKey.Some? && Find(s, key).Some? {
      assert Holds(s, Find(s, key).value, key);
    } else {
      assert key.tenant in s.tenants && HasJob(s, key.tenant);
      var job :| job in s.jobs && s.jobs[job].tenant == key.tenant;
      assert CreatorOk(s, job) && Untroubled(s, calls, job);
      assert !Collide(calls, job, c);
      assert Holds(s, job, key);
    }
  }

  lemma ActUntroubled(s: State, w: World, calls: seq<Key>, step: Step, s': State)
    requires Inv(s) && Grown(s, w) && !w.others && Safe(w, calls)
    requires forall d :: d in s.creators ==> Untroubled(s, calls, d)
    requires step.Act? && Enabled(s, step) && s' == Apply(s, step)
    ensures Untroubled(s', calls, step.c)
  {
    var c := step.c;
    assert Untroubled(s, calls, c);
    var x := s.creators[c];
    if x.pc.Insert? && Conflicts(s, x.key, x.pc.tenantSeen) {
      ConflictFound(s, w, calls, c);
      var job :| Holds(s, job, x.key);
      assert Holds(s', job, x.key);
    } else if x.pc.Relookup? {
      var job :| Holds(s, job, x.key);
      assert Find(s, x.key).Some?;
    }
  }

  lemma JobsStay(s: State, step: Step, s': State)
    requires Inv(s) && Enabled(s, step) && s' == Apply(s, step)
    ensures s'.known == s.known && forall job :: job in s.jobs ==> job in s'.jobs && s'.jobs[job] == s.jobs[job]
  {
    if step.Act? { assert CreatorOk(s, step.c); }
  }

  lemma StepGrown(s: State, w: World, step: Step, s': State)
    requires Inv(s) && Grown(s, w) && Enabled(s, step) && !step.Found? && s' == Apply(s, step)
    ensures Grown(s', w)
  {
    JobsStay(s, step, s');
    if step.Act? { assert CreatorOk(s, step.c); }
    forall tenant | tenant in s'.tenants && tenant !in w.known ensures HasJob(s', tenant) {
      if tenant in s.tenants {
        assert HasJob(s, tenant);
        var job :| job in s.jobs && s.jobs[job].tenant == tenant;
        assert job in s'.jobs;
      } else {
        assert step.c in s'.jobs && s'.jobs[step.c].tenant == tenant;
      }
    }
  }

  lemma StepUntroubled(s: State, w: World, calls: seq<Key>, step: Step, s': State, d: nat)
    requires Inv(s) && Grown(s, w) && !w.others && Safe(w, calls)
    requires forall d :: d in s.creators ==> Untroubled(s, calls, d)
    requires Enabled(s, step) && Allowed(step, w, calls) && s' == Apply(s, step) && d in s'.creators
    ensures Untroubled(s', calls, d)
  {
    if step.Act? && step.c == d {
      ActUntroubled(s, w, calls, step, s');
    } else if d in s.creators {
      JobsStay(s, step, s');
      UntroubledLater(s, calls, s', d);
    }
  }

  lemma {:induction false} UntroubledAt(r: Run, calls: seq<Key>, i: nat)
    requires r.Valid() && Serves(r, calls) && !r.world.others && Safe(r.world, calls) && i < |r.states|
    ensures Grown(r.states[i], r.world)
    ensures forall d :: d in r.states[i].creators ==> Untroubled(r.states[i], calls, d)
  {
    if i > 0 {
      var s, step, s' := r.states[i - 1], r.steps[i - 1], r.states[i];
      UntroubledAt(r, calls, i - 1);
      InvAt(r, i - 1);
      assert r.StepAt(i - 1) && Allowed(step, r.world, calls);
      StepGrown(s, r.world, step, s');
      forall d | d in s'.creators ensures Untroubled(s', calls, d) { StepUntroubled(s, r.world, calls, step, s', d); }
    }
  }

  /** For a tenant that existed beforehand no creation raises. */
  lemma KnownTenantNeverRaises(r: Run, i: nat, c: nat)
    requires r.Valid() && i < |r.states| && c in r.states[i].creators
    requires r.states[i].creators[c].key.tenant in r.world.known
    ensures !r.states[i].creators[c].pc.Failed?
  {
    InvAt(r, i);
    KnownAt(r, i);
    assert CreatorOk(r.states[i], c);
  }

  lemma {:induction false} KeyAt(r: Run, calls: seq<Key>, i: nat, c: nat)
    requires r.Valid() && Serves(r, calls) && i < |r.states| && c in r.states[i].creators
    ensures c < |calls| && r.states[i].creators[c].key == calls[c]
  {
    assert r.StepAt(i - 1) && Allowed(r.steps[i - 1], r.world, calls);
    if c in r.states[i - 1].creators { KeyAt(r, calls, i - 1, c); }
  }

  lemma SafeNeverRaises(w: World, calls: seq<Key>)
    requires Safe(w, calls)
    ensures !SomeCreationFails(w, calls)
  {
    forall r, c: nat | Serves(r, calls) && r.world == w && r.Valid() && c in r.states[|r.steps|].creators
      ensures !r.states[|r.steps|].creators[c].pc.Failed?
    {
      if w.others {
        KeyAt(r, calls, |r.steps|, c);
        KnownTenantNeverRaises(r, |r.steps|, c);
      } else {
        UntroubledAt(r, calls, |r.steps|);
        assert Untroubled(r.states[|r.steps|], calls, c);
      }
    }
  }

  // ---------------------------------------------------------------- runs in which one does

  lemma Begin(w: World, calls: seq<Key>) returns (r: Run)
    ensures Leads(r, w, calls, Initial(w))
  {
    r := Run(w, [Initial(w)], []);
  }

  ghost predicate Leads(r: Run, w: World, calls: seq<Key>, s: State) {
    r.Valid() && r.world == w && Serves(r, calls) && s == r.states[|r.steps|]
  }

  lemma Extend(r: Run, w: World, calls: seq<Key>, s: State, step: Step) returns (r': Run)
    requires Leads(r, w, calls, s) && Enabled(s, step) && Allowed(step, w, calls)
    ensures Leads(r', w, calls, Apply(s, step))
  {
    r' := Run(w, r.states + [Apply(s, step)], r.steps + [step]);
    forall i | 0 <= i < |r'.steps| ensures r'.StepAt(i) && Allowed(r'.steps[i], w, calls) {
      if i < |r.steps| { assert r.StepAt(i) && Allowed(r.steps[i], w, calls); }
    }
  }

  /** A caller on its way to insert a job of a tenant it did not see. */
  lemma AboutToInsert(r: Run, w: World, calls: seq<Key>, s: State, c: nat) returns (r': Run)
    requires Leads(r, w, calls, s) && c < |calls| && c !in s.creators
    requires s.jobs == map[] && calls[c].tenant !in s.tenants
    ensures Leads(r', w, calls, s.(creators := s.creators[c := Creator(calls[c], Insert(false))]))
  {
    r' := Extend(r, w, calls, s, Arrive(c, calls[c]));
    var s1 := Apply(s, Arrive(c, calls[c]));
    r' := Extend(r', w, calls, s1, Act(c, true));
    var s2 := Apply(s1, Act(c, true));
    r' := Extend(r', w, calls, s2, Act(c, true));
    assert Apply(s2, Act(c, true)) == s.(creators := s.creators[c := Creator(calls[c], Insert(false))]);
  }

  /** A caller whose insert meets a tenant that has appeared, or its slug, and that has no job of its own to find. */
  lemma Raises(r: Run, w: World, calls: seq<Key>, s: State, c: nat) returns (r': Run)
    requires Leads(r, w, calls, s) && c < |calls| && (calls[c].tenant in s.tenants || calls[c].tenant in s.slugs)
    requires c in s.creators && s.creators[c] == Creator(calls[c], Insert(false))
    requires calls[c].idempotencyKey.None? || forall job :: !Holds(s, job, calls[c])
    ensures r'.world == w && Serves(r', calls) && Fails(r', c)
  {
    r' := Extend(r, w, calls, s, Act(c, true));
    var s1 := Apply(s, Act(c, true));
    if calls[c].idempotencyKey.Some? {
      assert s1 == Goto(s, c, Relookup);
      assert forall job :: Holds(s1, job, calls[c]) ==> Holds(s, job, calls[c]);
      r' := Extend(r', w, calls, s1, Act(c, true));
    }
  }

  /**
   Two first creations of a tenant, under different keys or without, collide on the tenant row: the second
   caller has no job of its own to find after the conflict, and raises.
   */
  lemma FirstCreationsCollide(w: World, calls: seq<Key>, c: nat, d: nat) returns (r: Run)
    requires Collide(calls, c, d) && calls[d].tenant !in w.known && calls[d].tenant !in w.slugs
    ensures r.world == w && Serves(r, calls) && Fails(r, d)
  {
    r := Begin(w, calls);
    var s0 := Initial(w);
    r := AboutToInsert(r, w, calls, s0, c);
    var s1 := s0.(creators := map[c := Creator(calls[c], Insert(false))]);
    r := AboutToInsert(r, w, calls, s1, d);
    var s2 := s1.(creators := s1.creators[d := Creator(calls[d], Insert(false))]);
    assert !Conflicts(s2, calls[c], false);
    r := Extend(r, w, calls, s2, Act(c, true));
    var s3 := Apply(s2, Act(c, true));
    assert s3.jobs == map[c := calls[c]];
    r := Raises(r, w, calls, s3, d);
  }

  /** One caller alone raises, with no race at all, if its tenant does not exist and its id is another tenant's slug. */
  lemma SlugRaises(w: World, calls: seq<Key>, c: nat) returns (r: Run)
    requires c < |calls| && calls[c].tenant !in w.known && calls[c].tenant in w.slugs
    ensures r.world == w && Serves(r, calls) && Fails(r, c)
  {
    r := Begin(w, calls);
    r := AboutToInsert(r, w, calls, Initial(w), c);
    r := Raises(r, w, calls, Initial(w).(creators := map[c := Creator(calls[c], Insert(false))]), c);
  }

  /** One caller alone raises, if another part of the system inserts its tenant in between. */
  lemma FoundRaises(w: World, calls: seq<Key>, c: nat) returns (r: Run)
    requires c < |calls| && calls[c].tenant !in w.known && calls[c].tenant !in w.slugs && w.others
    ensures r.world == w && Serves(r, calls) && Fails(r, c)
  {
    r := Begin(w, calls);
    var s0, found := Initial(w), Found(calls[c].tenant, calls[c].tenant);
    r := AboutToInsert(r, w, calls, s0, c);
    var s1 := s0.(creators := map[c := Creator(calls[c], Insert(false))]);
    r := Extend(r, w, calls, s1, found);
    r := Raises(r, w, calls, Apply(s1, found), c);
  }

  /**
   No interleaving of the calls makes a creation raise if and only if every call is for a tenant that exists
   beforehand; or, when nothing but these calls inserts tenants, the id of a tenant that does not exist is no
   other tenant's slug and all calls for it are a single one or share one idempotency key.
   */
  lemma NoCreationRaisesIff(w: World, calls: seq<Key>)
    ensures !SomeCreationFails(w, calls) <==> Safe(w, calls)
  {
    if Safe(w, calls) {
      SafeNeverRaises(w, calls);
    } else if c: nat :| c < |calls| && calls[c].tenant !in w.known && calls[c].tenant in w.slugs {
      var r := SlugRaises(w, calls, c);
    } else if w.others {
      var c: nat :| c < |calls| && calls[c].tenant !in w.known;
      var r := FoundRaises(w, calls, c);
    } else {
      var c: nat, d: nat :| Collide(calls, c, d) && calls[d].tenant !in w.known;
      var r := FirstCreationsCollide(w, calls, c, d);
    }
  }
}
