/**
 The exchange rate limiter (src/shared_integration/auth.py): a sliding-window log per key, kept in bounded
 memory by dropping old attempts, evicting idle keys and sharing one overflow bucket.
 Time is a real number; the lock makes each check one atomic step.
 */
module RateLimiter {
  import opened Prelude

  /** The window is in seconds; the source takes a whole number, which nothing below depends on. */
  datatype Config = Config(maxAttempts: nat, window: real, maxKeys: nat) {
    predicate Valid() {
      maxAttempts >= 1 && window >= 1.0 && maxKeys >= 2
    }

    function Cutoff(now: real): real {
      now - window
    }
  }

  type Table = map<string, seq<real>>

  const OVERFLOW := "overflow"

  /** The outcome of one check: the new table, the bucket charged and the answer. */
  datatype Decision = Decision(table: Table, bucket: string, allowed: bool)

  // ---------------------------------------------------------------- one check

  predicate Stale(key: string, stored: seq<real>, cutoff: real) {
    key != OVERFLOW && (stored == [] || stored[|stored| - 1] <= cutoff)
  }

  function Evicted(table: Table, cutoff: real): Table {
    map key | key in table && !Stale(key, table[key], cutoff) :: table[key]
  }

  /** The table after any eviction, and the bucket the attempt is charged to. */
  function Assign(cfg: Config, table: Table, key: string, now: real): (Table, string) {
    if key in table || |table| < cfg.maxKeys then (table, key)
    else
      var kept := Evicted(table, cfg.Cutoff(now));
      (kept, if |kept| >= cfg.maxKeys then OVERFLOW else key)
  }

  /** The attempts a table or a history holds for a bucket. */
  function In(table: map<string, seq<real>>, bucket: string): seq<real> {
    if bucket in table then table[bucket] else []
  }

  /** How many attempts at the front are at or before the cutoff. */
  function Expired(attempts: seq<real>, cutoff: real, from: nat := 0): (n: nat)
    requires from <= |attempts|
    ensures from <= n <= |attempts|
    ensures forall i :: from <= i < n ==> attempts[i] <= cutoff
    ensures n < |attempts| ==> attempts[n] > cutoff
    decreases |attempts| - from
  {
    if from < |attempts| && attempts[from] <= cutoff then Expired(attempts, cutoff, from + 1) else from
  }

  function Live(attempts: seq<real>, cutoff: real): seq<real> {
    attempts[Expired(attempts, cutoff)..]
  }

  function Check(cfg: Config, table: Table, key: string, now: real): Decision
    requires cfg.Valid()
  {
    var (kept, bucket) := Assign(cfg, table, key, now);
    var live := Live(In(kept, bucket), cfg.Cutoff(now));
    if |live| >= cfg.maxAttempts then Decision(kept[bucket := live], bucket, false)
    else Decision(kept[bucket := live + [now]], bucket, true)
  }

  /** The whole seconds until an attempt leaves the window, at least one. */
  function Wait(window: real, now: real, oldest: real): int {
    var left := (window - (now - oldest)).Floor;
    if left > 1 then left else 1
  }

  /** `retry_after`: zero when allowed, else the wait for the oldest live attempt. */
  function RetryAfter(cfg: Config, d: Decision, now: real): int {
    var attempts := In(d.table, d.bucket);
    if d.allowed || attempts == [] then 0 else Wait(cfg.window, now, attempts[0])
  }

  class ExchangeRateLimiter {
    const cfg: Config
    var attempts: Table

    predicate Valid()
      reads this
    {
      cfg.Valid() && OVERFLOW in attempts && |attempts| <= cfg.maxKeys
    }

    constructor (maxAttempts: nat, windowSeconds: nat, maxKeys: nat)
      requires maxAttempts >= 1 && windowSeconds >= 1 && maxKeys >= 2
      ensures Valid() && attempts == map[OVERFLOW := []] && cfg == Config(maxAttempts, windowSeconds as real, maxKeys)
    {
      cfg := Config(maxAttempts, windowSeconds as real, maxKeys);
      attempts := map[OVERFLOW := []];
    }

    method Evict(cutoff: real)
      modifies this
      ensures attempts == Evicted(old(attempts), cutoff)
    {
      var rest := attempts.Keys;
      while rest != {}
        invariant rest <= old(attempts).Keys
        invariant attempts ==
          map key | key in old(attempts) && (key in rest || !Stale(key, old(attempts)[key], cutoff)) ::
            old(attempts)[key]
        decreases |rest|
      {
        var key :| key in rest;
        if key != OVERFLOW && (attempts[key] == [] || attempts[key][|attempts[key]| - 1] <= cutoff) {
          attempts := attempts - {key};
        }
        rest := rest - {key};
      }
    }

    /** Records an attempt; the answer, `retry_after` and the new table are those of the function `Check`. */
    method Attempt(key: string, now: real) returns (allowed: bool, retryAfter: int)
      requires Valid()
      modifies this
      ensures Valid()
      ensures var d := Check(cfg, old(attempts), key, now);
        attempts == d.table && allowed == d.allowed && retryAfter == RetryAfter(cfg, d, now)
      ensures if allowed then retryAfter == 0 else retryAfter >= 1
    {
      CheckBounded(cfg, attempts, key, now);
      var cutoff := cfg.Cutoff(now);
      var bucket := key;
      if key !in attempts && |attempts| >= cfg.maxKeys {
        Evict(cutoff);
        if |attempts| >= cfg.maxKeys { bucket := OVERFLOW; }
      }
      var deque := PopExpired(In(attempts, bucket), cutoff);
      if |deque| >= cfg.maxAttempts {
        attempts := attempts[bucket := deque];
        return false, Wait(cfg.window, now, deque[0]);
      }
      attempts := attempts[bucket := deque + [now]];
      return true, 0;
    }
  }

  datatype LimitError = ValueError

  /** The source's constructor, which refuses limits that are not positive and a table without room for a client. */
  method NewLimiter(maxAttempts: int, windowSeconds: int, maxKeys: int)
    returns (r: Result<ExchangeRateLimiter, LimitError>)
    ensures r.Ok? <==> maxAttempts >= 1 && windowSeconds >= 1 && maxKeys >= 2
    ensures r.Ok? ==> fresh(r.value) && r.value.Valid() && r.value.attempts == map[OVERFLOW := []]
                      && r.value.cfg == Config(maxAttempts, windowSeconds as real, maxKeys)
  {
    if maxAttempts < 1 || windowSeconds < 1 || maxKeys < 2 { return Raised(ValueError); }
    var limiter := new ExchangeRateLimiter(maxAttempts, windowSeconds, maxKeys);
    r := Ok(limiter);
  }

  method PopExpired(attempts: seq<real>, cutoff: real) returns (deque: seq<real>)
    ensures deque == Live(attempts, cutoff)
  {
    deque := attempts;
    while deque != [] && deque[0] <= cutoff
      invariant |deque| <= |attempts| && deque == attempts[|attempts| - |deque|..]
      invariant Expired(attempts, cutoff, |attempts| - |deque|) == Expired(attempts, cutoff)
    {
      deque := deque[1..];
    }
  }

  lemma EvictedSmaller(table: Table, cutoff: real)
    ensures |Evicted(table, cutoff)| <= |table|
    ensures OVERFLOW in table ==> OVERFLOW in Evicted(table, cutoff)
  {
    var kept := Evicted(table, cutoff);
    Subset(kept.Keys, table.Keys);
  }

  lemma {:induction false} Subset(a: set<string>, b: set<string>)
    requires a <= b
    ensures |a| <= |b|
  {
    if a != {} {
      var x :| x in a;
      Subset(a - {x}, b - {x});
    }
  }

  /** No check makes the limiter hold more than `max_keys` buckets. */
  lemma CheckBounded(cfg: Config, table: Table, key: string, now: real)
    requires cfg.Valid() && OVERFLOW in table && |table| <= cfg.maxKeys
    ensures var d := Check(cfg, table, key, now); OVERFLOW in d.table && |d.table| <= cfg.maxKeys
  {
    EvictedSmaller(table, cfg.Cutoff(now));
    var (kept, bucket) := Assign(cfg, table, key, now);
    var d := Check(cfg, table, key, now);
    assert d.table.Keys == kept.Keys + {bucket};
  }

  // ---------------------------------------------------------------- the limiter that remembers everything

  predicate Sorted(h: seq<real>) {
    forall i, j :: 0 <= i < j < |h| ==> h[i] <= h[j]
  }

  /** How many of the first `n` admissions of a bucket lie in (lo, hi]. */
  function Within(h: seq<real>, n: nat, lo: real, hi: real): nat
    requires n <= |h|
  {
    if n == 0 then 0 else Within(h, n - 1, lo, hi) + if lo < h[n - 1] <= hi then 1 else 0
  }

  datatype Call = Call(key: string, now: real)

  /** Every admitted time of every bucket, forever. */
  type History = map<string, seq<real>>

  /** The reference answer: fewer than `max_attempts` admissions of the bucket within the window. */
  predicate ReferenceAllows(cfg: Config, history: History, bucket: string, now: real) {
    var h := In(history, bucket);
    Within(h, |h|, now - cfg.window, now) < cfg.maxAttempts
  }

  function Remember(cfg: Config, history: History, bucket: string, now: real): History {
    if ReferenceAllows(cfg, history, bucket, now) then history[bucket := In(history, bucket) + [now]] else history
  }

  /** The limiter and the reference side by side after the first `n` calls. */
  function After(cfg: Config, calls: seq<Call>, n: nat): (Table, History)
    requires cfg.Valid() && n <= |calls|
  {
    if n == 0 then (map[OVERFLOW := []], map[])
    else
      var (table, history) := After(cfg, calls, n - 1);
      var d := Check(cfg, table, calls[n - 1].key, calls[n - 1].now);
      (d.table, Remember(cfg, history, d.bucket, calls[n - 1].now))
  }

  function Answer(cfg: Config, calls: seq<Call>, i: nat): Decision
    requires cfg.Valid() && i < |calls|
  {
    Check(cfg, After(cfg, calls, i).0, calls[i].key, calls[i].now)
  }

  predicate Monotonic(calls: seq<Call>) {
    forall i, j :: 0 <= i < j < |calls| ==> calls[i].now <= calls[j].now
  }

  // ---------------------------------------------------------------- what the bounded table keeps

  /** Admissions `max_attempts` apart in number are a whole window apart in time. */
  predicate Spread(cfg: Config, h: seq<real>) {
    forall i, j :: 0 <= i && i + cfg.maxAttempts <= j < |h| ==> h[i] <= h[j] - cfg.window
  }

  /** The stored deque is what remains of the bucket's history after dropping attempts no window can see again. */
  predicate Remembers(cfg: Config, stored: seq<real>, h: seq<real>, last: real) {
    && Sorted(h) && (forall i :: 0 <= i < |h| ==> h[i] <= last)
    && |stored| <= |h| && |stored| <= cfg.maxAttempts
    && stored == h[|h| - |stored|..]
    && (forall i :: 0 <= i < |h| - |stored| ==> h[i] <= cfg.Cutoff(last))
    && Spread(cfg, h)
  }

  ghost predicate Sim(cfg: Config, table: Table, history: History, last: real) {
    && OVERFLOW in table && |table| <= cfg.maxKeys
    && AllRemembered(cfg, table, history, last)
  }

  ghost predicate AllRemembered(cfg: Config, table: Table, history: History, now: real) {
    forall bucket :: Remembers(cfg, In(table, bucket), In(history, bucket), now)
  }

  lemma RemembersLater(cfg: Config, stored: seq<real>, h: seq<real>, last: real, now: real)
    requires Remembers(cfg, stored, h, last) && last <= now
    ensures Remembers(cfg, stored, h, now)
  {
  }

  lemma LiveRemembers(cfg: Config, stored: seq<real>, h: seq<real>, now: real)
    requires Remembers(cfg, stored, h, now)
    ensures Remembers(cfg, Live(stored, cfg.Cutoff(now)), h, now)
  {
    var n := Expired(stored, cfg.Cutoff(now));
    var kept := |h| - |stored|;
    forall i | 0 <= i < kept + n ensures h[i] <= cfg.Cutoff(now) {
      if i >= kept { assert h[i] == stored[i - kept]; }
    }
  }

  /** Dropping what is at or before the cutoff loses nothing, and what remains is what the reference counts. */
  lemma LiveCounts(cfg: Config, stored: seq<real>, h: seq<real>, now: real)
    requires Remembers(cfg, stored, h, now)
    ensures Within(h, |h|, cfg.Cutoff(now), now) == |Live(stored, cfg.Cutoff(now))|
  {
    var cutoff := cfg.Cutoff(now);
    var dropped := |h| - |Live(stored, cutoff)|;
    LiveRemembers(cfg, stored, h, now);
    if dropped < |h| {
      assert h[dropped] == Live(stored, cutoff)[0] > cutoff;
    }
    WithinSuffix(h, |h|, dropped, cutoff, now);
  }

  lemma {:induction false} WithinSuffix(h: seq<real>, n: nat, m: nat, lo: real, hi: real)
    requires n <= |h| && m <= |h|
    requires forall i :: 0 <= i < n && i < m ==> h[i] <= lo
    requires forall i :: m <= i < n ==> lo < h[i] <= hi
    ensures Within(h, n, lo, hi) == if n <= m then 0 else n - m
  {
    if n > 0 { WithinSuffix(h, n - 1, m, lo, hi); }
  }

  /** Evicting an idle key forgets nothing that a window at or after `now` can see. */
  lemma EvictionForgetsNothing(cfg: Config, stored: seq<real>, h: seq<real>, now: real, key: string)
    requires Remembers(cfg, stored, h, now) && Stale(key, stored, cfg.Cutoff(now))
    ensures Remembers(cfg, [], h, now)
  {
  }

  /** An admission leaves the last `max_attempts` admissions a whole window apart. */
  lemma AdmitRemembers(cfg: Config, live: seq<real>, h: seq<real>, now: real)
    requires cfg.Valid() && Remembers(cfg, live, h, now) && |live| < cfg.maxAttempts
    ensures Remembers(cfg, live + [now], h + [now], now)
  {
  }

  lemma AssignRemembers(cfg: Config, table: Table, history: History, last: real, key: string, now: real, bucket: string)
    requires cfg.Valid() && Sim(cfg, table, history, last) && last <= now
    ensures var kept := Assign(cfg, table, key, now).0;
      Remembers(cfg, In(kept, bucket), In(history, bucket), now)
  {
    var stored := In(table, bucket);
    assert Remembers(cfg, stored, In(history, bucket), last);
    RemembersLater(cfg, stored, In(history, bucket), last, now);
    var kept := Assign(cfg, table, key, now).0;
    if bucket in table && bucket !in kept {
      EvictionForgetsNothing(cfg, stored, In(history, bucket), now, bucket);
    }
  }

  lemma ChargedBucket(cfg: Config, stored: seq<real>, h: seq<real>, now: real)
    requires cfg.Valid() && Remembers(cfg, stored, h, now)
    ensures var live := Live(stored, cfg.Cutoff(now));
      && (|live| < cfg.maxAttempts <==> Within(h, |h|, cfg.Cutoff(now), now) < cfg.maxAttempts)
      && if |live| < cfg.maxAttempts then Remembers(cfg, live + [now], h + [now], now) else Remembers(cfg, live, h, now)
  {
    LiveRemembers(cfg, stored, h, now);
    LiveCounts(cfg, stored, h, now);
    var live := Live(stored, cfg.Cutoff(now));
    if |live| < cfg.maxAttempts { AdmitRemembers(cfg, live, h, now); }
  }

  lemma AssignKeeps(cfg: Config, table: Table, history: History, last: real, key: string, now: real)
    requires cfg.Valid() && Sim(cfg, table, history, last) && last <= now
    ensures AllRemembered(cfg, Assign(cfg, table, key, now).0, history, now)
  {
    forall b ensures Remembers(cfg, In(Assign(cfg, table, key, now).0, b), In(history, b), now) {
      AssignRemembers(cfg, table, history, last, key, now, b);
    }
  }

  lemma ChargeKeeps(cfg: Config, kept: Table, history: History, bucket: string, now: real)
    requires cfg.Valid() && AllRemembered(cfg, kept, history, now)
    ensures var live := Live(In(kept, bucket), cfg.Cutoff(now));
      if |live| < cfg.maxAttempts
      then ReferenceAllows(cfg, history, bucket, now) &&
           AllRemembered(cfg, kept[bucket := live + [now]], history[bucket := In(history, bucket) + [now]], now)
      else !ReferenceAllows(cfg, history, bucket, now) && AllRemembered(cfg, kept[bucket := live], history, now)
  {
    assert Remembers(cfg, In(kept, bucket), In(history, bucket), now);
    ChargedBucket(cfg, In(kept, bucket), In(history, bucket), now);
    var live := Live(In(kept, bucket), cfg.Cutoff(now));
    var table' := kept[bucket := if |live| < cfg.maxAttempts then live + [now] else live];
    var history' := if |live| < cfg.maxAttempts then history[bucket := In(history, bucket) + [now]] else history;
    forall b ensures Remembers(cfg, In(table', b), In(history', b), now) {
      if b != bucket {
        assert In(table', b) == In(kept, b) && In(history', b) == In(history, b);
        assert Remembers(cfg, In(kept, b), In(history, b), now);
      }
    }
  }

  lemma CheckAgrees(cfg: Config, table: Table, history: History, key: string, now: real)
    requires cfg.Valid() && AllRemembered(cfg, Assign(cfg, table, key, now).0, history, now)
    ensures var d := Check(cfg, table, key, now);
      && d.allowed == ReferenceAllows(cfg, history, d.bucket, now)
      && AllRemembered(cfg, d.table, Remember(cfg, history, d.bucket, now), now)
  {
    var (kept, bucket) := Assign(cfg, table, key, now);
    ChargeKeeps(cfg, kept, history, bucket, now);
  }

  /** One check answers as the reference does, and keeps the simulation. */
  lemma CheckSimulates(cfg: Config, table: Table, history: History, last: real, key: string, now: real)
    requires cfg.Valid() && Sim(cfg, table, history, last) && last <= now
    ensures var d := Check(cfg, table, key, now);
      && d.allowed == ReferenceAllows(cfg, history, d.bucket, now)
      && Sim(cfg, d.table, Remember(cfg, history, d.bucket, now), now)
  {
    CheckBounded(cfg, table, key, now);
    AssignKeeps(cfg, table, history, last, key, now);
    CheckAgrees(cfg, table, history, key, now);
  }

  lemma {:induction false} SimAfter(cfg: Config, calls: seq<Call>, n: nat, last: real)
    requires cfg.Valid() && Monotonic(calls) && n <= |calls|
    requires n > 0 ==> calls[n - 1].now <= last
    ensures var (table, history) := After(cfg, calls, n); Sim(cfg, table, history, last)
  {
    if n > 0 {
      var call := calls[n - 1];
      var (table, history) := After(cfg, calls, n - 1);
      SimAfter(cfg, calls, n - 1, call.now);
      CheckSimulates(cfg, table, history, call.now, call.key, call.now);
      var (table', history') := After(cfg, calls, n);
      forall b ensures Remembers(cfg, In(table', b), In(history', b), last) {
        assert Remembers(cfg, In(table', b), In(history', b), call.now);
        RemembersLater(cfg, In(table', b), In(history', b), call.now, last);
      }
    }
  }

  // ---------------------------------------------------------------- main results

  /**
   For every sequence of calls with a non-decreasing clock, each answer is that of the limiter that keeps
   every admitted attempt forever, and the table never exceeds `max_keys` buckets.
   */
  lemma AgreesWithReference(cfg: Config, calls: seq<Call>, i: nat)
    requires cfg.Valid() && Monotonic(calls) && i < |calls|
    ensures var d := Answer(cfg, calls, i);
      && (d.allowed <==> ReferenceAllows(cfg, After(cfg, calls, i).1, d.bucket, calls[i].now))
      && |d.table| <= cfg.maxKeys
  {
    var (table, history) := After(cfg, calls, i);
    SimAfter(cfg, calls, i, calls[i].now);
    CheckSimulates(cfg, table, history, calls[i].now, calls[i].key, calls[i].now);
  }

  /** The bucket's last admission lies within the window. */
  predicate InWindow(cfg: Config, h: seq<real>, now: real) {
    h != [] && now - cfg.window < h[|h| - 1] <= now
  }

  /**
   The shared bucket serves another key only when at least `max_keys - 1` further keys each have an
   admitted attempt inside the window.
   */
  lemma OverflowOnlyWhenFull(cfg: Config, calls: seq<Call>, i: nat) returns (busy: set<string>)
    requires cfg.Valid() && Monotonic(calls) && i < |calls|
    requires Answer(cfg, calls, i).bucket != calls[i].key
    ensures Answer(cfg, calls, i).bucket == OVERFLOW
    ensures |busy| >= cfg.maxKeys - 1 && calls[i].key !in busy && OVERFLOW !in busy
    ensures forall key :: key in busy ==> InWindow(cfg, In(After(cfg, calls, i).1, key), calls[i].now)
  {
    var (table, history) := After(cfg, calls, i);
    var now := calls[i].now;
    SimAfter(cfg, calls, i, now);
    busy := BusyKeys(cfg, table, history, now);
  }

  lemma BusyKeys(cfg: Config, table: Table, history: History, now: real) returns (busy: set<string>)
    requires Sim(cfg, table, history, now)
    ensures busy <= table.Keys - {OVERFLOW} && |busy| == |Evicted(table, cfg.Cutoff(now))| - 1
    ensures forall key :: key in busy ==> InWindow(cfg, In(history, key), now)
  {
    var kept := Evicted(table, cfg.Cutoff(now));
    busy := kept.Keys - {OVERFLOW};
    assert kept.Keys == busy + {OVERFLOW};
    forall key | key in busy ensures InWindow(cfg, In(history, key), now) {
      LiveKeySeen(cfg, table[key], In(history, key), now, key);
    }
  }

  lemma LiveKeySeen(cfg: Config, stored: seq<real>, h: seq<real>, now: real, key: string)
    requires Remembers(cfg, stored, h, now) && key != OVERFLOW && !Stale(key, stored, cfg.Cutoff(now))
    ensures InWindow(cfg, h, now)
  {
  }

  /** Admissions of one client key among the first `n` calls, with times in (lo, hi]. */
  function AdmittedIn(cfg: Config, calls: seq<Call>, n: nat, key: string, lo: real, hi: real): nat
    requires cfg.Valid() && n <= |calls|
  {
    if n == 0 then 0
    else
      var counted := calls[n - 1].key == key && Answer(cfg, calls, n - 1).allowed && lo < calls[n - 1].now <= hi;
      AdmittedIn(cfg, calls, n - 1, key, lo, hi) + if counted then 1 else 0
  }

  lemma {:induction false} WindowHoldsFew(cfg: Config, h: seq<real>, n: nat, hi: real)
    requires cfg.Valid() && n <= |h| && Sorted(h)
    requires Spread(cfg, h)
    ensures Within(h, n, cfg.Cutoff(hi), hi) <= cfg.maxAttempts
  {
    if n > 0 {
      if h[n - 1] > hi || n <= cfg.maxAttempts {
        WindowHoldsFew(cfg, h, n - 1, hi);
        WithinAtMost(h, n, 0, cfg.Cutoff(hi), hi);
      } else {
        assert h[n - 1 - cfg.maxAttempts] <= cfg.Cutoff(h[n - 1]);
        WithinAtMost(h, n, n - cfg.maxAttempts, cfg.Cutoff(hi), hi);
      }
    }
  }

  lemma {:induction false} WithinAtMost(h: seq<real>, n: nat, m: nat, lo: real, hi: real)
    requires n <= |h| && forall i :: 0 <= i < m && i < n ==> h[i] <= lo
    ensures Within(h, n, lo, hi) <= if n <= m then 0 else n - m
  {
    if n > 0 { WithinAtMost(h, n - 1, m, lo, hi); }
  }

  lemma {:induction false} WithinAppend(h: seq<real>, t: real, n: nat, lo: real, hi: real)
    requires n <= |h|
    ensures Within(h + [t], n, lo, hi) == Within(h, n, lo, hi)
  {
    if n > 0 { WithinAppend(h, t, n - 1, lo, hi); }
  }

  /** How many admissions in (lo, hi] a history can hold against one client key. */
  function Charged(history: History, key: string, lo: real, hi: real): nat {
    var own, shared := In(history, key), In(history, OVERFLOW);
    Within(own, |own|, lo, hi) + Within(shared, |shared|, lo, hi)
  }

  lemma ChargedGrows(history: History, bucket: string, now: real, key: string, lo: real, hi: real)
    ensures var history' := history[bucket := In(history, bucket) + [now]];
      && Charged(history', key, lo, hi) >= Charged(history, key, lo, hi)
      && ((bucket == key || bucket == OVERFLOW) && lo < now <= hi ==>
            Charged(history', key, lo, hi) >= Charged(history, key, lo, hi) + 1)
  {
    var own, shared := In(history, key), In(history, OVERFLOW);
    WithinAppend(own, now, |own|, lo, hi);
    WithinAppend(shared, now, |shared|, lo, hi);
  }

  lemma CallCharged(
      cfg: Config, table: Table, history: History, last: real, call: Call, key: string, lo: real, hi: real)
    requires cfg.Valid() && Sim(cfg, table, history, last) && last <= call.now
    ensures var d := Check(cfg, table, call.key, call.now);
      Charged(Remember(cfg, history, d.bucket, call.now), key, lo, hi) >=
        Charged(history, key, lo, hi) + if call.key == key && d.allowed && lo < call.now <= hi then 1 else 0
  {
    CheckSimulates(cfg, table, history, last, call.key, call.now);
    BucketIs(cfg, table, call.key, call.now);
    ChargedGrows(history, Check(cfg, table, call.key, call.now).bucket, call.now, key, lo, hi);
  }

  lemma BucketIs(cfg: Config, table: Table, key: string, now: real)
    requires cfg.Valid()
    ensures Check(cfg, table, key, now).bucket in {key, OVERFLOW}
  {
  }

  lemma {:induction false} AdmissionsAreCharged(cfg: Config, calls: seq<Call>, n: nat, key: string, lo: real, hi: real)
    requires cfg.Valid() && Monotonic(calls) && n <= |calls|
    ensures AdmittedIn(cfg, calls, n, key, lo, hi) <= Charged(After(cfg, calls, n).1, key, lo, hi)
  {
    if n > 0 {
      AdmissionsAreCharged(cfg, calls, n - 1, key, lo, hi);
      var (table, history) := After(cfg, calls, n - 1);
      SimAfter(cfg, calls, n - 1, calls[n - 1].now);
      CallCharged(cfg, table, history, calls[n - 1].now, calls[n - 1], key, lo, hi);
    }
  }

  /**
   Any client key gets at most twice `max_attempts` admissions in any window: its own bucket's and the shared one's.
   */
  lemma AtMostTwice(cfg: Config, calls: seq<Call>, key: string, hi: real)
    requires cfg.Valid() && Monotonic(calls)
    ensures AdmittedIn(cfg, calls, |calls|, key, hi - cfg.window, hi) <= 2 * cfg.maxAttempts
  {
    var n := |calls|;
    var last := if n == 0 then 0.0 else calls[n - 1].now;
    SimAfter(cfg, calls, n, last);
    AdmissionsAreCharged(cfg, calls, n, key, cfg.Cutoff(hi), hi);
    var (table, history) := After(cfg, calls, n);
    assert Remembers(cfg, In(table, key), In(history, key), last);
    assert Remembers(cfg, table[OVERFLOW], In(history, OVERFLOW), last);
    WindowHoldsFew(cfg, In(history, key), |In(history, key)|, hi);
    WindowHoldsFew(cfg, In(history, OVERFLOW), |In(history, OVERFLOW)|, hi);
  }

  /**
   After a refusal `retry_after` lies in 1..window. If nothing else touches the bucket and the key still
   maps to it, a later attempt is admitted exactly from one window after the oldest live attempt on; one
   second more than `retry_after` always reaches that.
   */
  lemma RetrySuffices(cfg: Config, calls: seq<Call>, i: nat, table: Table, later: real)
    requires cfg.Valid() && Monotonic(calls) && i < |calls| && calls[i].now <= later
    requires var d := Answer(cfg, calls, i);
      && !d.allowed
      && Assign(cfg, table, calls[i].key, later).1 == d.bucket
      && d.bucket in table && table[d.bucket] == d.table[d.bucket]
    ensures var d := Answer(cfg, calls, i);
      var wait := RetryAfter(cfg, d, calls[i].now);
      var again := Check(cfg, table, calls[i].key, later);
      && 1.0 <= wait as real <= cfg.window && d.table[d.bucket] != []
      && WholeSeconds(wait, cfg.window - (calls[i].now - d.table[d.bucket][0]))
      && (again.allowed <==> later >= d.table[d.bucket][0] + cfg.window)
      && (later >= calls[i].now + wait as real + 1.0 ==> again.allowed)
  {
    var d := Answer(cfg, calls, i);
    RefusedAnswer(cfg, calls, i);
    RetryAdmits(cfg, d.table[d.bucket], table, calls[i].key, later);
    WaitBounds(cfg.window, calls[i].now, d.table[d.bucket][0]);
  }

  /** The seconds without their fraction, but at least one. */
  predicate WholeSeconds(wait: int, left: real) {
    if left < 1.0 then wait == 1 else wait as real <= left < wait as real + 1.0
  }

  lemma RefusedAnswer(cfg: Config, calls: seq<Call>, i: nat)
    requires cfg.Valid() && Monotonic(calls) && i < |calls| && !Answer(cfg, calls, i).allowed
    ensures var d := Answer(cfg, calls, i);
      && d.bucket in {calls[i].key, OVERFLOW}
      && d.bucket in d.table && |d.table[d.bucket]| == cfg.maxAttempts
      && Sorted(d.table[d.bucket]) && cfg.Cutoff(calls[i].now) < d.table[d.bucket][0] <= calls[i].now
  {
    var (before, history) := After(cfg, calls, i);
    var now := calls[i].now;
    SimAfter(cfg, calls, i, now);
    CheckSimulates(cfg, before, history, now, calls[i].key, now);
    var d := Check(cfg, before, calls[i].key, now);
    RefusedDeque(cfg, before, calls[i].key, now, In(Remember(cfg, history, d.bucket, now), d.bucket));
    BucketIs(cfg, before, calls[i].key, now);
  }

  lemma RetryAdmits(cfg: Config, deque: seq<real>, table: Table, key: string, later: real)
    requires cfg.Valid() && |deque| == cfg.maxAttempts && Sorted(deque)
    requires var bucket := Assign(cfg, table, key, later).1;
      bucket in {key, OVERFLOW} && bucket in table && table[bucket] == deque
    ensures Check(cfg, table, key, later).allowed <==> later >= deque[0] + cfg.window
  {
    KeptBucket(cfg, table, key, later);
    FullDeque(cfg, deque, later);
  }

  lemma RefusedDeque(cfg: Config, table: Table, key: string, now: real, h: seq<real>)
    requires cfg.Valid() && !Check(cfg, table, key, now).allowed
    requires var d := Check(cfg, table, key, now); Remembers(cfg, In(d.table, d.bucket), h, now)
    ensures var d := Check(cfg, table, key, now);
      && d.bucket in d.table && |d.table[d.bucket]| == cfg.maxAttempts
      && Sorted(d.table[d.bucket]) && cfg.Cutoff(now) < d.table[d.bucket][0] <= now
  {
    var d := Check(cfg, table, key, now);
    var live := d.table[d.bucket];
    assert forall i :: 0 <= i < |live| ==> live[i] == h[|h| - |live| + i];
  }

  /** A full deque admits again exactly when its oldest attempt has left the window. */
  lemma FullDeque(cfg: Config, deque: seq<real>, later: real)
    requires cfg.Valid() && |deque| == cfg.maxAttempts && Sorted(deque)
    ensures |Live(deque, cfg.Cutoff(later))| < cfg.maxAttempts <==> deque[0] <= cfg.Cutoff(later)
  {
  }

  lemma WaitBounds(window: real, now: real, oldest: real)
    requires window >= 1.0 && now - window < oldest <= now
    ensures 1.0 <= Wait(window, now, oldest) as real <= window
    ensures now + Wait(window, now, oldest) as real + 1.0 >= oldest + window
    ensures WholeSeconds(Wait(window, now, oldest), window - (now - oldest))
  {
  }

  lemma KeptBucket(cfg: Config, table: Table, key: string, now: real)
    requires var bucket := Assign(cfg, table, key, now).1; bucket in table && (bucket == key || bucket == OVERFLOW)
    ensures var (kept, bucket) := Assign(cfg, table, key, now); bucket in kept && kept[bucket] == table[bucket]
  {
  }

  /** Waiting `retry_after` alone may not be enough: the fraction of a second is cut off. */
  lemma RetryAloneMayFail()
    ensures var cfg := Config(1, 60.0, 10);
      var first := Check(cfg, map[OVERFLOW := []], "client", 0.5);
      var second := Check(cfg, first.table, "client", 1.0);
      && first.allowed && !second.allowed && RetryAfter(cfg, second, 1.0) == 59
      && !Check(cfg, second.table, "client", 1.0 + 59.0).allowed
  {
    var cfg := Config(1, 60.0, 10);
    var start: Table := map[OVERFLOW := []];
    assert |start| == 1 && "client"[0] != OVERFLOW[0];
    FirstAttempt(cfg, start, 0.5);
    Refused(cfg, start["client" := [0.5]], 1.0);
    Refused(cfg, start["client" := [0.5]], 60.0);
  }

  lemma FirstAttempt(cfg: Config, table: Table, now: real)
    requires cfg.Valid() && "client" !in table && |table| < cfg.maxKeys
    ensures Check(cfg, table, "client", now) == Decision(table["client" := [now]], "client", true)
  {
    assert Live([], cfg.Cutoff(now)) == [];
    assert [] + [now] == [now];
  }

  lemma Refused(cfg: Config, table: Table, now: real)
    requires cfg.Valid() && cfg.maxAttempts == 1 && "client" in table && table["client"] == [0.5]
    requires cfg.Cutoff(now) < 0.5
    ensures Check(cfg, table, "client", now) == Decision(table, "client", false)
  {
    assert table["client" := [0.5]] == table;
    RefusedCheck(cfg, table, now);
  }

  lemma RefusedCheck(cfg: Config, table: Table, now: real)
    requires cfg.Valid() && cfg.maxAttempts == 1 && "client" in table && table["client"] == [0.5]
    requires cfg.Cutoff(now) < 0.5
    ensures Check(cfg, table, "client", now) == Decision(table["client" := [0.5]], "client", false)
  {
    assert Live([0.5], cfg.Cutoff(now)) == [0.5];
  }
}
