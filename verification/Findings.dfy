/**
 The security finding and the identity that two sightings of it share
 (src/shared_integration/finding_lifecycle.py, src/shared_integration/correlations.py).
 */
module Findings {
  import opened Prelude

  datatype Source = Soc | Vuln | Lab | Code | Reverse | Firmware | External

  datatype Severity = Info | Low | Medium | High | Critical {
    function Rank(): nat {
      match this case Info => 0 case Low => 1 case Medium => 2 case High => 3 case Critical => 4
    }
  }

  const SEVERITIES := [Info, Low, Medium, High, Critical]

  /** From harmless to critical. */
  lemma RankIs(severity: Severity)
    ensures severity.Rank() < 5 && SEVERITIES[severity.Rank()] == severity
  {
  }

  datatype Finding = Finding(
    id: string,
    source: Source,
    severity: Severity,
    confidence: real,
    title: string,
    description: string,
    host: Option<string>,
    cve: Option<string>,
    ts: Option<int>,
    evidence: seq<string>,
    related: seq<string>,
    tags: set<string>,
    metadata: map<string, string>)

  datatype Correlation = Correlation(ruleId: string, findings: seq<string>, severity: Severity, narrative: string)

  // ---------------------------------------------------------------- identity

  predicate IsSpace(c: char) {
    c == ' ' || '\t' <= c <= '\r' || 28 as char <= c <= 31 as char
  }

  function Strip(s: string): string {
    if s != [] && IsSpace(s[0]) then Strip(s[1..])
    else if s != [] && IsSpace(s[|s| - 1]) then Strip(s[..|s| - 1])
    else s
  }

  function Lower(s: string): string {
    seq(|s|, i requires 0 <= i < |s| => if 'A' <= s[i] <= 'Z' then s[i] - 'A' + 'a' else s[i])
  }

  function Upper(s: string): string {
    seq(|s|, i requires 0 <= i < |s| => if 'a' <= s[i] <= 'z' then s[i] - 'a' + 'A' else s[i])
  }

  const LOCATORS := {"asset", "component", "file", "line", "path", "rule_id", "symbol"}

  /** What `finding_fingerprint` hashes. The digest is taken to be injective, so the record stands for it. */
  datatype Fingerprint = Fingerprint(
    source: Source, title: string, host: string, cve: string, locators: map<string, string>)

  function TextOf(value: Option<string>): string {
    if value.Some? then value.value else ""
  }

  function FingerprintOf(f: Finding): Fingerprint {
    Fingerprint(f.source, Lower(Strip(f.title)), Lower(Strip(TextOf(f.host))), Upper(Strip(TextOf(f.cve))),
                map key | key in f.metadata && key in LOCATORS :: f.metadata[key])
  }

  // ---------------------------------------------------------------- when two findings are one

  /** The same letter in either case, or the same character. */
  predicate SameLetter(a: char, b: char) {
    || a == b
    || ('A' <= a <= 'Z' && b == a - 'A' + 'a')
    || ('A' <= b <= 'Z' && a == b - 'A' + 'a')
  }

  predicate Blank(s: string) {
    forall i :: 0 <= i < |s| ==> s[i] in BLANKS
  }

  const BLANKS := {' ', '\t', '\n', 11 as char, 12 as char, '\r', 28 as char, 29 as char, 30 as char, 31 as char}

  /** `core` is what is left of `text` between blanks: it begins and ends with something else. */
  predicate CoreOf(text: string, left: string, core: string, right: string) {
    && text == left + core + right && Blank(left) && Blank(right)
    && (core != [] ==> core[0] !in BLANKS && core[|core| - 1] !in BLANKS)
  }

  predicate SameLetters(a: string, b: string) {
    |a| == |b| && forall i :: 0 <= i < |a| ==> SameLetter(a[i], b[i])
  }

  /** Two texts are the same up to surrounding blanks and letter case. */
  ghost predicate SameText(a: string, b: string) {
    exists p: string, c: string, q: string, p': string, c': string, q': string ::
      CoreOf(a, p, c, q) && CoreOf(b, p', c', q') && SameLetters(c, c')
  }

  /** A locator is in both findings with one value, or in neither. */
  predicate SameLocator(a: Finding, b: Finding, key: string) {
    && (key in a.metadata <==> key in b.metadata)
    && (key in a.metadata ==> a.metadata[key] == b.metadata[key])
  }

  lemma SpaceIs(c: char)
    ensures IsSpace(c) <==> c in BLANKS
  {
  }

  lemma LowerIs(a: string, b: string)
    ensures Lower(a) == Lower(b) <==> SameLetters(a, b)
  {
    if Lower(a) == Lower(b) {
      assert |Lower(a)| == |a| && |Lower(b)| == |b|;
      forall i | 0 <= i < |a| ensures SameLetter(a[i], b[i]) { assert Lower(a)[i] == Lower(b)[i]; }
    }
  }

  lemma UpperIs(a: string, b: string)
    ensures Upper(a) == Upper(b) <==> SameLetters(a, b)
  {
    if Upper(a) == Upper(b) {
      assert |Upper(a)| == |a| && |Upper(b)| == |b|;
      forall i | 0 <= i < |a| ensures SameLetter(a[i], b[i]) { assert Upper(a)[i] == Upper(b)[i]; }
    }
  }

  lemma {:induction false} StripIs(s: string) returns (left: string, right: string)
    ensures CoreOf(s, left, Strip(s), right)
    decreases |s|
  {
    if s != [] && IsSpace(s[0]) {
      SpaceIs(s[0]);
      var inner;
      inner, right := StripIs(s[1..]);
      left := [s[0]] + inner;
      assert s == [s[0]] + (inner + Strip(s[1..]) + right);
    } else if s != [] && IsSpace(s[|s| - 1]) {
      SpaceIs(s[|s| - 1]);
      var inner;
      left, inner := StripIs(s[..|s| - 1]);
      right := inner + [s[|s| - 1]];
      assert s == (left + Strip(s[..|s| - 1]) + inner) + [s[|s| - 1]];
    } else {
      left, right := [], [];
      if s != [] {
        SpaceIs(s[0]);
        SpaceIs(s[|s| - 1]);
      }
    }
  }

  /** There is only one core. */
  lemma {:induction false} CoreIsStrip(s: string, left: string, core: string, right: string)
    requires CoreOf(s, left, core, right)
    ensures Strip(s) == core
    decreases |s|
  {
    if left != [] {
      assert s[0] == left[0];
      SpaceIs(s[0]);
      assert s[1..] == left[1..] + core + right;
      CoreIsStrip(s[1..], left[1..], core, right);
    } else if core == [] {
      assert s == right;
      BlankStrips(right);
    } else {
      SpaceIs(s[0]);
      if right != [] {
        assert s[|s| - 1] == right[|right| - 1];
        SpaceIs(s[|s| - 1]);
        assert s[..|s| - 1] == left + core + right[..|right| - 1];
        CoreIsStrip(s[..|s| - 1], left, core, right[..|right| - 1]);
      } else {
        assert s == core;
        SpaceIs(s[|s| - 1]);
      }
    }
  }

  lemma {:induction false} BlankStrips(s: string)
    requires Blank(s)
    ensures Strip(s) == []
  {
    if s != [] {
      SpaceIs(s[0]);
      BlankStrips(s[1..]);
    }
  }

  /** Stripped texts agree letter by letter exactly if the texts are the same up to blanks and case. */
  lemma SameTextIs(a: string, b: string)
    ensures SameLetters(Strip(a), Strip(b)) <==> SameText(a, b)
  {
    if SameLetters(Strip(a), Strip(b)) {
      var p, q := StripIs(a);
      var p', q' := StripIs(b);
      assert CoreOf(a, p, Strip(a), q) && CoreOf(b, p', Strip(b), q');
    }
    if SameText(a, b) {
      var p: string, c: string, q: string, p': string, c': string, q': string :|
        CoreOf(a, p, c, q) && CoreOf(b, p', c', q') && SameLetters(c, c');
      CoreIsStrip(a, p, c, q);
      CoreIsStrip(b, p', c', q');
    }
  }

  predicate SameLocators(a: Finding, b: Finding) {
    && SameLocator(a, b, "asset") && SameLocator(a, b, "component") && SameLocator(a, b, "file")
    && SameLocator(a, b, "line") && SameLocator(a, b, "path") && SameLocator(a, b, "rule_id")
    && SameLocator(a, b, "symbol")
  }

  lemma LocatorsAre(a: Finding, b: Finding)
    ensures FingerprintOf(a).locators == FingerprintOf(b).locators <==> SameLocators(a, b)
  {
    var la, lb := FingerprintOf(a).locators, FingerprintOf(b).locators;
    assert forall key :: key in la <==> key in a.metadata && key in LOCATORS;
    assert forall key :: key in lb <==> key in b.metadata && key in LOCATORS;
    if la == lb {
      forall key | key in LOCATORS ensures SameLocator(a, b, key) {
        assert key in la <==> key in lb;
      }
    }
    if SameLocators(a, b) {
      assert forall key :: key in LOCATORS ==> SameLocator(a, b, key);
    }
  }

  /**
   Two findings have one fingerprint exactly if their sources are equal, their titles, hosts and CVEs are the
   same up to surrounding blanks and letter case, a missing one counting as empty, and each of the seven
   locators is in both with one value or in neither.
   */
  lemma FingerprintSame(a: Finding, b: Finding)
    ensures FingerprintOf(a) == FingerprintOf(b) <==>
      && a.source == b.source
      && SameText(a.title, b.title)
      && SameText(match a.host case None => "" case Some(h) => h, match b.host case None => "" case Some(h) => h)
      && SameText(match a.cve case None => "" case Some(c) => c, match b.cve case None => "" case Some(c) => c)
      && SameLocators(a, b)
  {
    SameTextIs(a.title, b.title);
    SameTextIs(TextOf(a.host), TextOf(b.host));
    SameTextIs(TextOf(a.cve), TextOf(b.cve));
    LowerIs(Strip(a.title), Strip(b.title));
    LowerIs(Strip(TextOf(a.host)), Strip(TextOf(b.host)));
    UpperIs(Strip(TextOf(a.cve)), Strip(TextOf(b.cve)));
    LocatorsAre(a, b);
  }

  // ---------------------------------------------------------------- merging two sightings

  function MaxSeverity(a: Severity, b: Severity): Severity {
    if b.Rank() > a.Rank() then b else a
  }

  function MaxReal(a: real, b: real): real {
    if b > a then b else a
  }

  /** First occurrences, in order. */
  function Dedup(s: seq<string>): seq<string> {
    if s == [] then []
    else
      var front := Dedup(s[..|s| - 1]);
      if s[|s| - 1] in front then front else front + [s[|s| - 1]]
  }

  /** `_merge_findings`: the incoming text and metadata under the existing id, with accumulated evidence. */
  function Merge(existing: Finding, incoming: Finding): Finding {
    incoming.(
      id := existing.id,
      severity := MaxSeverity(existing.severity, incoming.severity),
      confidence := MaxReal(existing.confidence, incoming.confidence),
      evidence := Dedup(existing.evidence + incoming.evidence),
      related := Dedup(existing.related + incoming.related),
      tags := existing.tags + incoming.tags)
  }

  /** Merging keeps the identity: the payload of a row re-fingerprints to the fingerprint of its last sighting. */
  lemma MergeKeepsFingerprint(existing: Finding, incoming: Finding)
    ensures FingerprintOf(Merge(existing, incoming)) == FingerprintOf(incoming)
  {
  }

  lemma DedupAppend(s: seq<string>, x: string)
    ensures Dedup(s + [x]) == if x in Dedup(s) then Dedup(s) else Dedup(s) + [x]
  {
    assert (s + [x])[..|s|] == s;
  }

  /** Same members, each once, and ordered by first occurrence. */
  lemma {:induction false} DedupIs(s: seq<string>)
    ensures forall x :: x in Dedup(s) <==> x in s
    ensures forall i, j :: 0 <= i < j < |Dedup(s)| ==> Dedup(s)[i] != Dedup(s)[j]
    ensures forall i :: 0 <= i <= |s| ==> Dedup(s[..i]) <= Dedup(s)
  {
    if s == [] {
      assert s[..0] == s;
    } else {
      var front := s[..|s| - 1];
      DedupIs(front);
      assert s == front + [s[|s| - 1]];
      forall i | 0 <= i <= |s| ensures Dedup(s[..i]) <= Dedup(s) {
        if i == |s| { assert s[..i] == s; } else { assert s[..i] == front[..i]; }
      }
    }
  }

  /** Removing repeats early does not change what later removal keeps. */
  lemma {:induction false} DedupTwice(a: seq<string>, b: seq<string>)
    ensures Dedup(Dedup(a) + b) == Dedup(a + b)
  {
    if b == [] {
      assert Dedup(a) + b == Dedup(a) && a + b == a;
      DedupStable(a);
    } else {
      var front, x := b[..|b| - 1], b[|b| - 1];
      DedupTwice(a, front);
      assert Dedup(a) + b == (Dedup(a) + front) + [x];
      assert a + b == (a + front) + [x];
      DedupAppend(Dedup(a) + front, x);
      DedupAppend(a + front, x);
    }
  }

  lemma {:induction false} DedupStable(s: seq<string>)
    ensures Dedup(Dedup(s)) == Dedup(s)
  {
    if s != [] {
      var front, x := s[..|s| - 1], s[|s| - 1];
      DedupStable(front);
      if x !in Dedup(front) { DedupAppend(Dedup(front), x); }
    }
  }
}
