/**
 Correlating the findings of a job with each other and with what the registry already holds
 (src/shared_integration/correlations.py, src/shared_integration/execution.py).
 */
module Correlations {
  import opened Findings

  const RULE_ID := "integ-same-host-multi-source"

  function Name(source: Source): string {
    match source
    case Soc => "soc" case Vuln => "vuln" case Lab => "lab" case Code => "code"
    case Reverse => "reverse" case Firmware => "firmware" case External => "external"
  }

  // ---------------------------------------------------------------- the rule

  /** A finding without a time is within every window. */
  predicate WithinWindow(a: Finding, b: Finding, window: nat) {
    a.ts.Some? && b.ts.Some? ==> a.ts.value - b.ts.value <= window && b.ts.value - a.ts.value <= window
  }

  /** An earlier finding that the rule ties to `f`, whose host is known. */
  predicate Ties(f: Finding, other: Finding, window: nat) {
    other.id != f.id && other.host == f.host && other.source != f.source && WithinWindow(f, other, window)
  }

  function Tied(f: Finding, existing: seq<Finding>, window: nat): seq<Finding> {
    if existing == [] then []
    else
      var front, last := existing[..|existing| - 1], existing[|existing| - 1];
      Tied(f, front, window) + if Ties(f, last, window) then [last] else []
  }

  function Ids(fs: seq<Finding>): seq<string> {
    seq(|fs|, i requires 0 <= i < |fs| => fs[i].id)
  }

  /** `max` by rank keeps the first of equal ones. */
  function Worst(fs: seq<Finding>): Severity
    requires fs != []
  {
    if |fs| == 1 then fs[0].severity else MaxSeverity(Worst(fs[..|fs| - 1]), fs[|fs| - 1].severity)
  }

  function SourceList(fs: seq<Finding>): string {
    if fs == [] then ""
    else if |fs| == 1 then Name(fs[0].source)
    else SourceList(fs[..|fs| - 1]) + ", " + Name(fs[|fs| - 1].source)
  }

  function Correlate(f: Finding, existing: seq<Finding>, window: nat): seq<Correlation> {
    if f.host.None? || f.host.value == "" then []
    else
      var related := Tied(f, existing, window);
      if related == [] then []
      else
        var members := [f] + related;
        var narrative := "Multi-source findings on " + f.host.value + ": " + SourceList(members);
        [Correlation(RULE_ID, Ids(members), Worst(members), narrative)]
  }

  // ---------------------------------------------------------------- the storing loop

  datatype Emitted = FindingEmitted(finding: Finding) | CorrelationEmitted(correlation: Correlation)

  function AsEmitted(cs: seq<Correlation>): seq<Emitted> {
    seq(|cs|, i requires 0 <= i < |cs| => CorrelationEmitted(cs[i]))
  }

  /** What storing one finding emits: its own event, then one for each correlation it heads. */
  function EventsOf(f: Finding, existing: seq<Finding>, window: nat): seq<Emitted> {
    [FindingEmitted(f)] + AsEmitted(Correlate(f, existing, window))
  }

  /** The events for the first `n` findings of a batch, each correlated with all findings before it. */
  function Sweep(registered: seq<Finding>, batch: seq<Finding>, n: nat, window: nat): seq<Emitted>
    requires n <= |batch|
  {
    if n == 0 then []
    else Sweep(registered, batch, n - 1, window) + EventsOf(batch[n - 1], registered + batch[..n - 1], window)
  }

  /** `_store_results`: what it adds to the registry is what it emits. */
  method StoreResults(registered: seq<Finding>, batch: seq<Finding>, window: nat) returns (emitted: seq<Emitted>)
    ensures emitted == Sweep(registered, batch, |batch|, window)
  {
    var existing := registered;
    emitted := [];
    for k := 0 to |batch|
      invariant existing == registered + batch[..k]
      invariant emitted == Sweep(registered, batch, k, window)
    {
      emitted := StoreOne(emitted, batch[k], existing, window);
      existing := existing + [batch[k]];
    }
  }

  method StoreOne(before: seq<Emitted>, f: Finding, existing: seq<Finding>, window: nat) returns (emitted: seq<Emitted>)
    ensures emitted == before + EventsOf(f, existing, window)
  {
    emitted := before + [FindingEmitted(f)];
    var correlations := Correlate(f, existing, window);
    for i := 0 to |correlations|
      invariant emitted == before + ([FindingEmitted(f)] + AsEmitted(correlations)[..i])
    {
      emitted := emitted + [CorrelationEmitted(correlations[i])];
    }
    assert AsEmitted(correlations)[..|correlations|] == AsEmitted(correlations);
  }

  // ---------------------------------------------------------------- every pair, once

  /** No two findings share an id. */
  predicate DistinctIds(all: seq<Finding>) {
    forall i, j :: 0 <= i < j < |all| ==> all[i].id != all[j].id
  }

  /** The rule's relation between a finding and an earlier one. */
  predicate Related(f: Finding, earlier: Finding, window: nat) {
    && f.host.Some? && f.host.value != ""
    && earlier.host == f.host
    && earlier.source != f.source
    && (f.ts.Some? && earlier.ts.Some? ==> Close(f.ts.value, earlier.ts.value, window))
  }

  /** Neither time is more than the window after the other. */
  predicate Close(a: int, b: int, window: nat) {
    a <= b + window && b <= a + window
  }

  /** The correlation is headed by `head` and has `member` in its tail. */
  predicate Joins(e: Emitted, head: string, member: string) {
    e.CorrelationEmitted? && e.correlation.findings != []
    && e.correlation.findings[0] == head && member in e.correlation.findings[1..]
  }

  function Joined(es: seq<Emitted>, head: string, member: string): nat {
    if es == [] then 0
    else Joined(es[..|es| - 1], head, member) + if Joins(es[|es| - 1], head, member) then 1 else 0
  }

  lemma {:induction false} JoinedConcat(a: seq<Emitted>, b: seq<Emitted>, head: string, member: string)
    ensures Joined(a + b, head, member) == Joined(a, head, member) + Joined(b, head, member)
  {
    if b == [] {
      assert a + b == a;
    } else {
      var front := b[..|b| - 1];
      assert (a + b)[..|a + b| - 1] == a + front;
      JoinedConcat(a, front, head, member);
    }
  }

  lemma {:induction false} TiedAre(f: Finding, existing: seq<Finding>, window: nat)
    ensures forall x :: x in Tied(f, existing, window) <==> x in existing && Ties(f, x, window)
  {
    if existing != [] {
      var front, last := existing[..|existing| - 1], existing[|existing| - 1];
      TiedAre(f, front, window);
      assert existing == front + [last];
    }
  }

  lemma {:induction false} WorstIsMax(fs: seq<Finding>)
    requires fs != []
    ensures forall x :: x in fs ==> x.severity.Rank() <= Worst(fs).Rank()
    ensures exists x :: x in fs && x.severity == Worst(fs)
  {
    var front, last := fs[..|fs| - 1], fs[|fs| - 1];
    assert fs == front + [last];
    if front != [] { WorstIsMax(front); }
  }

  lemma IdsAre(fs: seq<Finding>, id: string)
    ensures id in Ids(fs) <==> exists x :: x in fs && x.id == id
  {
    if id in Ids(fs) {
      var i :| 0 <= i < |fs| && Ids(fs)[i] == id;
      assert fs[i] in fs;
    }
    if x :| x in fs && x.id == id {
      var i :| 0 <= i < |fs| && fs[i] == x;
      assert Ids(fs)[i] == id;
    }
  }

  /** What finding `m` contributes: one joint correlation with each related earlier finding, none with any other. */
  lemma CorrelateJoins(all: seq<Finding>, m: nat, window: nat, head: string, i: nat)
    requires DistinctIds(all) && m < |all| && i < |all|
    ensures Joined(AsEmitted(Correlate(all[m], all[..m], window)), head, all[i].id)
         == if head == all[m].id && i < m && Related(all[m], all[i], window) then 1 else 0
  {
    var f, existing := all[m], all[..m];
    var related := Tied(f, existing, window);
    TiedAre(f, existing, window);
    assert all[i] in existing <==> i < m;
    forall x | x in existing && x.id == all[i].id ensures x == all[i] {
      var k :| 0 <= k < m && all[k] == x;
    }
    IdsAre(related, all[i].id);
    assert Ids([f] + related)[1..] == Ids(related);
    var cs := Correlate(f, existing, window);
    if cs != [] {
      var e := CorrelationEmitted(cs[0]);
      assert AsEmitted(cs) == [e] && [e][..0] == [];
    }
  }

  lemma EventsJoin(all: seq<Finding>, m: nat, window: nat, head: string, i: nat)
    requires DistinctIds(all) && m < |all| && i < |all|
    ensures Joined(EventsOf(all[m], all[..m], window), head, all[i].id)
         == if head == all[m].id && i < m && Related(all[m], all[i], window) then 1 else 0
  {
    var own := [FindingEmitted(all[m])];
    JoinedConcat(own, AsEmitted(Correlate(all[m], all[..m], window)), head, all[i].id);
    assert own[..0] == [];
    CorrelateJoins(all, m, window, head, i);
  }

  lemma Earlier(registered: seq<Finding>, batch: seq<Finding>, k: nat)
    requires k < |batch|
    ensures (registered + batch)[|registered| + k] == batch[k]
    ensures (registered + batch)[..|registered| + k] == registered + batch[..k]
  {
  }

  /** One turn of the loop, over the findings so far. */
  lemma TurnJoin(all: seq<Finding>, f: Finding, existing: seq<Finding>, k: nat, window: nat, m: nat, i: nat)
    requires DistinctIds(all) && k < |all| && f == all[k] && existing == all[..k] && m < |all| && i < |all|
    ensures Joined(EventsOf(f, existing, window), all[m].id, all[i].id)
         == if m == k && i < m && Related(all[m], all[i], window) then 1 else 0
  {
    SameId(all, m, k);
    EventsJoin(all, k, window, all[m].id, i);
  }

  lemma SameId(all: seq<Finding>, m: nat, k: nat)
    requires DistinctIds(all) && m < |all| && k < |all|
    ensures all[m].id == all[k].id <==> m == k
  {
  }

  lemma SweepJoin(registered: seq<Finding>, batch: seq<Finding>, k: nat, window: nat, head: string, member: string)
    requires k < |batch|
    ensures Joined(Sweep(registered, batch, k + 1, window), head, member)
         == Joined(Sweep(registered, batch, k, window), head, member)
          + Joined(EventsOf(batch[k], registered + batch[..k], window), head, member)
  {
    var own := EventsOf(batch[k], registered + batch[..k], window);
    JoinedConcat(Sweep(registered, batch, k, window), own, head, member);
  }

  /**
   Each finding of the batch, with each earlier one, is head and tail member of exactly one correlation if the
   rule relates them, and of none otherwise; a later finding is never in the tail.
   */
  lemma {:induction false} EachPairOnce(
      registered: seq<Finding>, batch: seq<Finding>, all: seq<Finding>, n: nat, window: nat, m: nat, i: nat)
    requires all == registered + batch && DistinctIds(all) && n <= |batch| && |registered| <= m < |all| && i < |all|
    ensures Joined(Sweep(registered, batch, n, window), all[m].id, all[i].id)
         == if m < |registered| + n && i < m && Related(all[m], all[i], window) then 1 else 0
  {
    if n > 0 {
      EachPairOnce(registered, batch, all, n - 1, window, m, i);
      Earlier(registered, batch, n - 1);
      TurnJoin(all, batch[n - 1], registered + batch[..n - 1], |registered| + n - 1, window, m, i);
      SweepJoin(registered, batch, n - 1, window, all[m].id, all[i].id);
    }
  }

  /** The severity is that of the worst finding the correlation names. */
  predicate SeverityFits(c: Correlation, all: seq<Finding>) {
    && (forall k :: 0 <= k < |all| && all[k].id in c.findings ==> all[k].severity.Rank() <= c.severity.Rank())
    && (exists k :: 0 <= k < |all| && all[k].id in c.findings && all[k].severity == c.severity)
  }

  lemma CorrelateSeverity(all: seq<Finding>, m: nat, window: nat)
    requires DistinctIds(all) && m < |all|
    ensures forall c :: c in Correlate(all[m], all[..m], window) ==> SeverityFits(c, all)
  {
    var f, existing := all[m], all[..m];
    var cs := Correlate(f, existing, window);
    if cs != [] {
      var members := [f] + Tied(f, existing, window);
      TiedAre(f, existing, window);
      WorstIsMax(members);
      forall k | 0 <= k < |all| && all[k].id in Ids(members) ensures all[k].severity.Rank() <= Worst(members).Rank() {
        IdsAre(members, all[k].id);
        var x :| x in members && x.id == all[k].id;
        MemberAt(all, m, k, x);
      }
      var x :| x in members && x.severity == Worst(members);
      var k :| 0 <= k < |all| && all[k] == x;
      IdsAre(members, x.id);
      assert SeverityFits(cs[0], all);
    }
  }

  lemma MemberAt(all: seq<Finding>, m: nat, k: nat, x: Finding)
    requires DistinctIds(all) && m < |all| && k < |all| && (x == all[m] || x in all[..m]) && x.id == all[k].id
    ensures x == all[k]
  {
    var j :| 0 <= j < |all| && all[j] == x;
  }

  lemma EventsSeverity(all: seq<Finding>, m: nat, window: nat, e: Emitted)
    requires DistinctIds(all) && m < |all| && e in EventsOf(all[m], all[..m], window) && e.CorrelationEmitted?
    ensures SeverityFits(e.correlation, all)
  {
    CorrelateSeverity(all, m, window);
    var cs := Correlate(all[m], all[..m], window);
    var i :| 0 <= i < |cs| && AsEmitted(cs)[i] == e;
    assert cs[i] in cs;
  }

  lemma {:induction false} WorstSeverity(registered: seq<Finding>, batch: seq<Finding>, n: nat, window: nat, e: Emitted)
    requires DistinctIds(registered + batch) && n <= |batch|
    requires e in Sweep(registered, batch, n, window) && e.CorrelationEmitted?
    ensures SeverityFits(e.correlation, registered + batch)
  {
    assert (registered + batch)[..|registered| + n - 1] == registered + batch[..n - 1];
    if e in Sweep(registered, batch, n - 1, window) {
      WorstSeverity(registered, batch, n - 1, window, e);
    } else {
      EventsSeverity(registered + batch, |registered| + n - 1, window, e);
    }
  }

  // ---------------------------------------------------------------- every pair by position, whatever ids recur

  /** The earlier finding at position `p` has another id than `f`, and the rule relates them. */
  predicate PartnerAt(f: Finding, earlier: seq<Finding>, p: nat, window: nat)
    requires p < |earlier|
  {
    earlier[p].id != f.id && Related(f, earlier[p], window)
  }

  /** The positions before `n` that hold a partner of `f`, in order. */
  function Partners(f: Finding, earlier: seq<Finding>, n: nat, window: nat): (ps: seq<nat>)
    requires n <= |earlier|
    ensures forall p :: p in ps ==> p < n
  {
    if n == 0 then []
    else Partners(f, earlier, n - 1, window) + if PartnerAt(f, earlier, n - 1, window) then [n - 1] else []
  }

  predicate Ascending(ps: seq<nat>) {
    forall j, k :: 0 <= j < k < |ps| ==> ps[j] < ps[k]
  }

  lemma {:induction false} PartnersAre(f: Finding, earlier: seq<Finding>, n: nat, window: nat)
    requires n <= |earlier|
    ensures forall p: nat :: p in Partners(f, earlier, n, window) <==> p < n && PartnerAt(f, earlier, p, window)
    ensures Ascending(Partners(f, earlier, n, window))
  {
    if n > 0 {
      var front := Partners(f, earlier, n - 1, window);
      PartnersAre(f, earlier, n - 1, window);
      forall k | 0 <= k < |front| ensures front[k] < n - 1 { assert front[k] in front; }
    }
  }

  lemma {:induction false} NoHostNoPartners(f: Finding, earlier: seq<Finding>, n: nat, window: nat)
    requires n <= |earlier| && (f.host.None? || f.host.value == "")
    ensures Partners(f, earlier, n, window) == []
  {
    if n > 0 { NoHostNoPartners(f, earlier, n - 1, window); }
  }

  function At(earlier: seq<Finding>, ps: seq<nat>): seq<Finding>
    requires forall p :: p in ps ==> p < |earlier|
  {
    seq(|ps|, k requires 0 <= k < |ps| => assert ps[k] in ps; earlier[ps[k]])
  }

  /** The severity is that of the worst of `f` and the findings at the given positions. */
  predicate WorstAmong(severity: Severity, f: Finding, earlier: seq<Finding>, ps: seq<nat>)
    requires forall p :: p in ps ==> p < |earlier|
  {
    && f.severity.Rank() <= severity.Rank()
    && (forall p :: p in ps ==> earlier[p].severity.Rank() <= severity.Rank())
    && (severity == f.severity || exists p :: p in ps && earlier[p].severity == severity)
  }

  /** The correlations headed by a finding id. */
  function Headed(es: seq<Emitted>, head: string): seq<Correlation> {
    if es == [] then []
    else
      var last := es[|es| - 1];
      Headed(es[..|es| - 1], head)
      + if last.CorrelationEmitted? && last.correlation.findings != [] && last.correlation.findings[0] == head
        then [last.correlation] else []
  }

  lemma {:induction false} HeadedConcat(a: seq<Emitted>, b: seq<Emitted>, head: string)
    ensures Headed(a + b, head) == Headed(a, head) + Headed(b, head)
  {
    if b == [] {
      assert a + b == a;
    } else {
      assert (a + b)[..|a + b| - 1] == a + b[..|b| - 1];
      HeadedConcat(a, b[..|b| - 1], head);
    }
  }

  lemma EventsHeaded(f: Finding, existing: seq<Finding>, window: nat, head: string)
    ensures Headed(EventsOf(f, existing, window), head) == if head == f.id then Correlate(f, existing, window) else []
  {
    var own, cs := [FindingEmitted(f)], Correlate(f, existing, window);
    HeadedConcat(own, AsEmitted(cs), head);
    assert own[..0] == [];
    if cs != [] {
      var e := CorrelationEmitted(cs[0]);
      assert AsEmitted(cs) == [e] && [e][..0] == [];
    }
  }

  lemma {:induction false} TiedAt(f: Finding, earlier: seq<Finding>, n: nat, window: nat)
    requires n <= |earlier| && f.host.Some? && f.host.value != ""
    ensures Tied(f, earlier[..n], window) == At(earlier, Partners(f, earlier, n, window))
  {
    if n > 0 {
      TiedAt(f, earlier, n - 1, window);
      assert earlier[..n][..n - 1] == earlier[..n - 1];
    }
  }

  lemma WorstAtPartners(f: Finding, earlier: seq<Finding>, ps: seq<nat>)
    requires forall p :: p in ps ==> p < |earlier|
    ensures WorstAmong(Worst([f] + At(earlier, ps)), f, earlier, ps)
  {
    var members := [f] + At(earlier, ps);
    WorstIsMax(members);
    forall p | p in ps ensures earlier[p] in members {
      var k :| 0 <= k < |ps| && ps[k] == p;
      assert members[k + 1] == earlier[p];
    }
    var x :| x in members && x.severity == Worst(members);
    if x != f {
      var k :| 0 <= k < |ps| && At(earlier, ps)[k] == x;
      assert ps[k] in ps;
    }
  }

  lemma IdsConcat(f: Finding, rest: seq<Finding>)
    ensures Ids([f] + rest) == [f.id] + Ids(rest)
  {
  }

  /** Texts one after the other with a separator between them. */
  function Join(separator: string, texts: seq<string>): string {
    if texts == [] then "" else if |texts| == 1 then texts[0] else texts[0] + separator + Join(separator, texts[1..])
  }

  function Names(fs: seq<Finding>): seq<string> {
    seq(|fs|, i requires 0 <= i < |fs| => Name(fs[i].source))
  }

  lemma {:induction false} JoinAppend(separator: string, texts: seq<string>, text: string)
    requires texts != []
    ensures Join(separator, texts + [text]) == Join(separator, texts) + separator + text
  {
    if |texts| > 1 {
      assert (texts + [text])[1..] == texts[1..] + [text];
      JoinAppend(separator, texts[1..], text);
    } else {
      assert (texts + [text])[1..] == [text];
    }
  }

  lemma {:induction false} SourcesListed(fs: seq<Finding>)
    ensures SourceList(fs) == Join(", ", Names(fs))
  {
    if |fs| > 1 {
      var front := fs[..|fs| - 1];
      SourcesListed(front);
      assert Names(fs) == Names(front) + [Name(fs[|fs| - 1].source)];
      JoinAppend(", ", Names(front), Name(fs[|fs| - 1].source));
    }
  }

  /** One correlation with exactly the partners, in order, as its tail; none if there are no partners. */
  predicate NamesPartners(cs: seq<Correlation>, f: Finding, earlier: seq<Finding>, window: nat) {
    var ps := Partners(f, earlier, |earlier|, window);
    if ps == [] then cs == []
    else
      && |cs| == 1 && cs[0].findings == [f.id] + Ids(At(earlier, ps)) && WorstAmong(cs[0].severity, f, earlier, ps)
      && cs[0].ruleId == "integ-same-host-multi-source" && f.host.Some?
      && cs[0].narrative
          == "Multi-source findings on " + f.host.value + ": " + Join(", ", Names([f] + At(earlier, ps)))
  }

  lemma CorrelateNames(f: Finding, earlier: seq<Finding>, window: nat)
    ensures NamesPartners(Correlate(f, earlier, window), f, earlier, window)
  {
    if f.host.None? || f.host.value == "" {
      NoHostNoPartners(f, earlier, |earlier|, window);
    } else {
      assert earlier[..|earlier|] == earlier;
      TiedAt(f, earlier, |earlier|, window);
      WorstAtPartners(f, earlier, Partners(f, earlier, |earlier|, window));
      IdsConcat(f, At(earlier, Partners(f, earlier, |earlier|, window)));
      SourcesListed([f] + At(earlier, Partners(f, earlier, |earlier|, window)));
    }
  }

  /** What turn `k` of the loop contributes to the correlations headed by the batch's finding `m`. */
  lemma TurnHeaded(registered: seq<Finding>, batch: seq<Finding>, k: nat, window: nat, m: nat)
    requires DistinctIds(batch) && k < |batch| && m < |batch|
    ensures Headed(Sweep(registered, batch, k + 1, window), batch[m].id)
         == Headed(Sweep(registered, batch, k, window), batch[m].id)
          + if k == m then Correlate(batch[m], registered + batch[..m], window) else []
  {
    HeadedConcat(Sweep(registered, batch, k, window), EventsOf(batch[k], registered + batch[..k], window), batch[m].id);
    EventsHeaded(batch[k], registered + batch[..k], window, batch[m].id);
    SameId(batch, m, k);
  }

  lemma {:induction false} SweepHeaded(registered: seq<Finding>, batch: seq<Finding>, n: nat, window: nat, m: nat)
    requires DistinctIds(batch) && n <= |batch| && m < |batch|
    ensures Headed(Sweep(registered, batch, n, window), batch[m].id)
         == if m < n then Correlate(batch[m], registered + batch[..m], window) else []
  {
    if n > 0 {
      SweepHeaded(registered, batch, n - 1, window, m);
      TurnHeaded(registered, batch, n - 1, window, m);
    }
  }

  /**
   Whatever ids the registry holds, and even if the batch brings some of them again: each finding of the batch
   heads exactly one correlation if some earlier position holds a partner, else none. Its tail names each
   partner's position once, in order, and its severity is the worst of them all.
   */
  lemma EachPositionOnce(registered: seq<Finding>, batch: seq<Finding>, window: nat, m: nat, earlier: seq<Finding>)
    requires DistinctIds(batch) && m < |batch| && earlier == registered + batch[..m]
    ensures forall p: nat :: p in Partners(batch[m], earlier, |earlier|, window) <==>
              p < |earlier| && PartnerAt(batch[m], earlier, p, window)
    ensures Ascending(Partners(batch[m], earlier, |earlier|, window))
    ensures NamesPartners(Headed(Sweep(registered, batch, |batch|, window), batch[m].id), batch[m], earlier, window)
  {
    PartnersAre(batch[m], earlier, |earlier|, window);
    SweepHeaded(registered, batch, |batch|, window, m);
    CorrelateNames(batch[m], earlier, window);
  }

  /** The findings are emitted once each, in order. */
  lemma {:induction false} FindingsEmitted(registered: seq<Finding>, batch: seq<Finding>, n: nat, window: nat)
    requires n <= |batch|
    ensures Stored(Sweep(registered, batch, n, window)) == batch[..n]
  {
    if n > 0 {
      FindingsEmitted(registered, batch, n - 1, window);
      StoredNext(registered, batch, n - 1, window);
      Prefix(batch, n - 1);
    }
  }

  lemma StoredNext(registered: seq<Finding>, batch: seq<Finding>, k: nat, window: nat)
    requires k < |batch|
    ensures Stored(Sweep(registered, batch, k + 1, window)) == Stored(Sweep(registered, batch, k, window)) + [batch[k]]
  {
    StoredStep(Sweep(registered, batch, k, window), batch[k], registered + batch[..k], window);
  }

  lemma Prefix(fs: seq<Finding>, k: nat)
    requires k < |fs|
    ensures fs[..k + 1] == fs[..k] + [fs[k]]
  {
  }

  lemma StoredStep(rest: seq<Emitted>, f: Finding, existing: seq<Finding>, window: nat)
    ensures Stored(rest + EventsOf(f, existing, window)) == Stored(rest) + [f]
  {
    var own := [FindingEmitted(f)];
    StoredConcat(rest, EventsOf(f, existing, window));
    StoredConcat(own, AsEmitted(Correlate(f, existing, window)));
    assert own[..0] == [];
    NoneStored(AsEmitted(Correlate(f, existing, window)));
  }

  function Stored(es: seq<Emitted>): seq<Finding> {
    if es == [] then []
    else Stored(es[..|es| - 1]) + if es[|es| - 1].FindingEmitted? then [es[|es| - 1].finding] else []
  }

  lemma {:induction false} StoredConcat(a: seq<Emitted>, b: seq<Emitted>)
    ensures Stored(a + b) == Stored(a) + Stored(b)
  {
    if b == [] {
      assert a + b == a;
    } else {
      assert (a + b)[..|a + b| - 1] == a + b[..|b| - 1];
      StoredConcat(a, b[..|b| - 1]);
    }
  }

  lemma {:induction false} NoneStored(es: seq<Emitted>)
    requires forall e :: e in es ==> e.CorrelationEmitted?
    ensures Stored(es) == []
  {
    if es != [] {
      assert es[|es| - 1] in es;
      NoneStored(es[..|es| - 1]);
    }
  }
}
