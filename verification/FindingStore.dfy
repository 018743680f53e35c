/**
 The tenant's finding table: one row per fingerprint, stores that race to insert it, and the recovery path
 of the store that lost (src/shared_integration/finding_lifecycle.py). `SELECT ... FOR UPDATE` holds the
 row until commit, so a transaction that finds its row is one atomic step; one that does not find it holds
 nothing, and another store may insert before it does.
 */
module FindingStore {
  import opened Prelude
  import opened Findings

  datatype FindingStatus = Open | Confirmed | Resolved | FalsePositive | AcceptedRisk

  datatype Row = Row(
    rowId: nat,
    findingId: string,
    fingerprint: Fingerprint,
    source: Source,
    severity: Severity,
    confidence: real,
    status: FindingStatus,
    asset: Option<string>,
    cve: Option<string>,
    title: string,
    description: string,
    firstSeen: int,
    lastSeen: int,
    occurrences: nat,
    jobId: Option<string>,
    assignedTo: Option<string>,
    payload: Finding)

  type Table = map<Fingerprint, Row>

  /** One call of `_store_finding`: `seenAt` is the finding's time, or the clock where it has none. */
  datatype Sighting = Sighting(finding: Finding, seenAt: int, jobId: Option<string>)

  function Min(a: int, b: int): int {
    if b < a then b else a
  }

  function Max(a: int, b: int): int {
    if b > a then b else a
  }

  // ---------------------------------------------------------------- the three writes

  function NewRow(rowId: nat, s: Sighting): Row {
    var f := s.finding;
    Row(rowId, f.id, FingerprintOf(f), f.source, f.severity, f.confidence, Open, f.host, f.cve, f.title, f.description,
        s.seenAt, s.seenAt, 1, s.jobId, None, f)
  }

  /** The ordinary path: every accumulated column follows the merged payload. */
  function MergedRow(row: Row, s: Sighting): Row {
    var merged := Merge(row.payload, s.finding);
    row.(severity := merged.severity,
         confidence := merged.confidence,
         description := merged.description,
         lastSeen := Max(row.lastSeen, s.seenAt),
         firstSeen := Min(row.firstSeen, s.seenAt),
         occurrences := row.occurrences + 1,
         jobId := if s.jobId.Some? && s.jobId.value != "" then s.jobId else row.jobId,
         payload := merged)
  }

  /** The path after an insert conflict: severity, confidence, description, first_seen and job_id stay. */
  function RecoveredRow(row: Row, s: Sighting): Row {
    row.(occurrences := row.occurrences + 1,
         lastSeen := Max(row.lastSeen, s.seenAt),
         payload := Merge(row.payload, s.finding))
  }

  predicate IdTaken(rows: Table, id: string) {
    exists fp :: fp in rows && rows[fp].findingId == id
  }

  // ---------------------------------------------------------------- the table as an object

  datatype StoreError = IntegrityError

  class FindingTable {
    var rows: Table
    var nextRowId: nat

    constructor ()
      ensures rows == map[] && nextRowId == 1
    {
      rows, nextRowId := map[], 1;
    }

    /** The first transaction: merge into the locked row, or insert; `None` stands for an integrity error. */
    method StoreFirst(s: Sighting) returns (stored: Option<Finding>)
      modifies this
      ensures FingerprintOf(s.finding) !in old(rows) && !IdTaken(old(rows), s.finding.id) ==>
        var fp, f := FingerprintOf(s.finding), s.finding;
        rows == old(rows)[fp := Row(old(nextRowId), f.id, fp, f.source, f.severity, f.confidence, Open, f.host, f.cve,
                                    f.title, f.description, s.seenAt, s.seenAt, 1, s.jobId, None, f)]
      ensures var fp := FingerprintOf(s.finding);
        if fp in old(rows) then
          rows == old(rows)[fp := MergedRow(old(rows)[fp], s)] && stored == Some(rows[fp].payload)
          && nextRowId == old(nextRowId)
        else if IdTaken(old(rows), s.finding.id) then
          rows == old(rows) && stored == None && nextRowId == old(nextRowId)
        else
          rows == old(rows)[fp := NewRow(old(nextRowId), s)] && stored == Some(s.finding)
          && nextRowId == old(nextRowId) + 1
    {
      var fp := FingerprintOf(s.finding);
      if fp in rows {
        var row := rows[fp];
        var merged := Merge(row.payload, s.finding);
        row := row.(severity := merged.severity, confidence := merged.confidence, description := merged.description);
        row := row.(lastSeen := Max(row.lastSeen, s.seenAt), firstSeen := Min(row.firstSeen, s.seenAt));
        row := row.(occurrences := row.occurrences + 1);
        if s.jobId.Some? && s.jobId.value != "" { row := row.(jobId := s.jobId); }
        row := row.(payload := merged);
        rows := rows[fp := row];
        return Some(merged);
      }
      if IdTaken(rows, s.finding.id) { return None; }
      rows := rows[fp := NewRow(nextRowId, s)];
      nextRowId := nextRowId + 1;
      stored := Some(s.finding);
    }

    /** The second transaction, after an integrity error. */
    method StoreRecovered(s: Sighting) returns (stored: Result<Finding, StoreError>)
      modifies this`rows
      ensures var fp := FingerprintOf(s.finding);
        if fp in old(rows) then
          rows == old(rows)[fp := RecoveredRow(old(rows)[fp], s)] && stored == Ok(rows[fp].payload)
        else
          rows == old(rows) && stored == Raised(IntegrityError)
    {
      var fp := FingerprintOf(s.finding);
      if fp !in rows { return Raised(IntegrityError); }
      var row := rows[fp];
      var merged := Merge(row.payload, s.finding);
      row := row.(occurrences := row.occurrences + 1);
      row := row.(lastSeen := Max(row.lastSeen, s.seenAt), payload := merged);
      rows := rows[fp := row];
      stored := Ok(merged);
    }

    /** `update_lifecycle`: triage touches the status and the assignee of the row with that finding id only. */
    method UpdateLifecycle(findingId: string, status: Option<FindingStatus>, assignedTo: Option<Option<string>>)
      returns (updated: Option<Row>)
      requires IdsUnique(rows)
      modifies this`rows
      ensures updated.Some? <==> IdTaken(old(rows), findingId)
      ensures updated.None? ==> rows == old(rows)
      ensures forall fp :: fp in old(rows) && old(rows)[fp].findingId == findingId ==>
                updated == Some(Triaged(old(rows)[fp], status, assignedTo)) && rows == old(rows)[fp := updated.value]
      ensures forall fp :: fp in old(rows) && old(rows)[fp].findingId == findingId ==>
                var before, after := old(rows)[fp], rows[fp];
                && after == before.(status := after.status, assignedTo := after.assignedTo)
                && after.status == (match status case Some(given) => given case None => before.status)
                && after.assignedTo == (match assignedTo case Some(given) => given case None => before.assignedTo)
    {
      if !IdTaken(rows, findingId) { return None; }
      var fp :| fp in rows && rows[fp].findingId == findingId;
      var row := rows[fp];
      if status.Some? && status.value != row.status { row := row.(status := status.value); }
      if assignedTo.Some? && assignedTo.value != row.assignedTo { row := row.(assignedTo := assignedTo.value); }
      rows := rows[fp := row];
      updated := Some(row);
    }
  }

  /** The unique constraint on finding ids. */
  predicate IdsUnique(rows: Table) {
    forall a, b :: a in rows && b in rows && rows[a].findingId == rows[b].findingId ==> a == b
  }

  function Triaged(row: Row, status: Option<FindingStatus>, assignedTo: Option<Option<string>>): Row {
    row.(status := if status.Some? then status.value else row.status,
         assignedTo := if assignedTo.Some? then assignedTo.value else row.assignedTo)
  }

  // ---------------------------------------------------------------- what a history of sightings accumulates

  datatype Path = Inserted | Merged | Recovered

  /** A completed store: who made it, what it saw, and which write it ended with. */
  datatype Done = Done(store: nat, sighting: Sighting, path: Path)

  type History = seq<Done>

  /** The payload after merging the first `n` sightings in commit order. */
  function Fold(h: History, n: nat): Finding
    requires 0 < n <= |h|
  {
    if n == 1 then h[0].sighting.finding else Merge(Fold(h, n - 1), h[n - 1].sighting.finding)
  }

  /** The two ordered lists of a finding that merging deduplicates. */
  datatype Field = EvidenceField | RelatedField {
    function Of(f: Finding): seq<string> { if this == EvidenceField then f.evidence else f.related }
  }

  /** One list of the first `n` sightings, concatenated in commit order. */
  function Gathered(h: History, n: nat, field: Field): seq<string>
    requires n <= |h|
  {
    if n == 0 then [] else Gathered(h, n - 1, field) + field.Of(h[n - 1].sighting.finding)
  }

  predicate SeverityIsMax(s: Severity, h: History, n: nat)
    requires n <= |h|
  {
    && (forall i :: 0 <= i < n ==> h[i].sighting.finding.severity.Rank() <= s.Rank())
    && (exists i :: 0 <= i < n && h[i].sighting.finding.severity == s)
  }

  predicate ConfidenceIsMax(c: real, h: History, n: nat)
    requires n <= |h|
  {
    && (forall i :: 0 <= i < n ==> h[i].sighting.finding.confidence <= c)
    && (exists i :: 0 <= i < n && h[i].sighting.finding.confidence == c)
  }

  predicate TagsAreUnion(tags: set<string>, h: History, n: nat)
    requires n <= |h|
  {
    && (forall i :: 0 <= i < n ==> h[i].sighting.finding.tags <= tags)
    && (forall tag :: tag in tags ==> exists i :: 0 <= i < n && tag in h[i].sighting.finding.tags)
  }

  lemma {:induction false} FoldMaxima(h: History, n: nat)
    requires 0 < n <= |h|
    ensures SeverityIsMax(Fold(h, n).severity, h, n)
    ensures ConfidenceIsMax(Fold(h, n).confidence, h, n)
  {
    if n > 1 { FoldMaxima(h, n - 1); }
  }

  lemma {:induction false} FoldTags(h: History, n: nat)
    requires 0 < n <= |h|
    ensures TagsAreUnion(Fold(h, n).tags, h, n)
  {
    if n > 1 { FoldTags(h, n - 1); }
  }

  lemma {:induction false} FoldLists(h: History, n: nat, field: Field)
    requires 0 < n <= |h|
    ensures field.Of(Fold(h, n)) == if n == 1 then Gathered(h, 1, field) else Dedup(Gathered(h, n, field))
  {
    if n == 1 {
      assert Gathered(h, 0, field) == [];
    } else {
      FoldLists(h, n - 1, field);
      assert field.Of(Fold(h, n)) == Dedup(field.Of(Fold(h, n - 1)) + field.Of(h[n - 1].sighting.finding));
      if n > 2 { DedupTwice(Gathered(h, n - 1, field), field.Of(h[n - 1].sighting.finding)); }
    }
  }

  lemma {:induction false} GatheredMembers(h: History, n: nat, field: Field)
    requires n <= |h|
    ensures forall x :: x in Gathered(h, n, field) <==> exists i :: 0 <= i < n && x in field.Of(h[i].sighting.finding)
  {
    if n > 0 { GatheredMembers(h, n - 1, field); }
  }

  lemma {:induction false} FoldId(h: History, n: nat)
    requires 0 < n <= |h|
    ensures Fold(h, n).id == h[0].sighting.finding.id
  {
    if n > 1 { FoldId(h, n - 1); }
  }

  /**
   The merged payload of one or more sightings: severity and confidence are the maxima, tags the union,
   the id that of the first, and, from two sightings on, evidence and related findings the first-occurrence
   deduplication of all of them in commit order.
   */
  lemma FoldIs(h: History, n: nat)
    requires 0 < n <= |h|
    ensures SeverityIsMax(Fold(h, n).severity, h, n)
    ensures ConfidenceIsMax(Fold(h, n).confidence, h, n)
    ensures TagsAreUnion(Fold(h, n).tags, h, n)
    ensures Fold(h, n).id == h[0].sighting.finding.id
    ensures forall field: Field ::
              field.Of(Fold(h, n)) == if n == 1 then Gathered(h, 1, field) else Dedup(Gathered(h, n, field))
  {
    FoldMaxima(h, n);
    FoldTags(h, n);
    FoldId(h, n);
    forall field: Field
      ensures field.Of(Fold(h, n)) == if n == 1 then Gathered(h, 1, field) else Dedup(Gathered(h, n, field))
    {
      FoldLists(h, n, field);
    }
  }

  // ---------------------------------------------------------------- the row a history leaves behind

  /** The row after the first `n` completed stores of a history, triage aside. */
  function RowAfter(h: History, n: nat, rowId: nat): Row
    requires 0 < n <= |h|
  {
    if n == 1 then NewRow(rowId, h[0].sighting) else Updated(RowAfter(h, n - 1, rowId), h[n - 1])
  }

  function Updated(row: Row, d: Done): Row {
    if d.path == Recovered then RecoveredRow(row, d.sighting) else MergedRow(row, d.sighting)
  }

  /** How many of the first `n` stores come up to and including the last one that did not take the recovery path. */
  function Solid(h: History, n: nat): (m: nat)
    requires 0 < n <= |h|
    ensures 0 < m <= n
  {
    if n > 1 && h[n - 1].path == Recovered then Solid(h, n - 1) else n
  }

  /** The least time over the stores whose path updates `first_seen`. */
  predicate SeenIsFirst(t: int, h: History, n: nat)
    requires 0 < n <= |h|
  {
    && (forall i :: 0 <= i < n && (i == 0 || h[i].path != Recovered) ==> t <= h[i].sighting.seenAt)
    && (exists i :: 0 <= i < n && (i == 0 || h[i].path != Recovered) && h[i].sighting.seenAt == t)
  }

  predicate SeenIsLast(t: int, h: History, n: nat)
    requires n <= |h|
  {
    && (forall i :: 0 <= i < n ==> h[i].sighting.seenAt <= t)
    && (exists i :: 0 <= i < n && h[i].sighting.seenAt == t)
  }

  /** The row's job is that of the last ordinary store that names one, else of the store that inserted. */
  predicate JobIsLast(job: Option<string>, h: History, n: nat)
    requires 0 < n <= |h|
  {
    exists i :: 0 <= i < n && JobFrom(i, job, h, n)
  }

  predicate JobFrom(i: nat, job: Option<string>, h: History, n: nat)
    requires i < n <= |h|
  {
    h[i].sighting.jobId == job && (i == 0 || NamesJob(h[i])) && forall k :: i < k < n ==> !NamesJob(h[k])
  }

  predicate NamesJob(d: Done) {
    d.path != Recovered && d.sighting.jobId.Some? && d.sighting.jobId.value != ""
  }

  /** Counter, identity and payload of the row, whatever paths the stores took. */
  lemma {:induction false} RowIs(h: History, n: nat, rowId: nat)
    requires 0 < n <= |h|
    ensures var row := RowAfter(h, n, rowId);
      && row.occurrences == n && row.payload == Fold(h, n) && row.rowId == rowId
      && row.findingId == h[0].sighting.finding.id && row.fingerprint == FingerprintOf(h[0].sighting.finding)
  {
    if n > 1 { RowIs(h, n - 1, rowId); }
  }

  /** The columns that no later store touches are those of the sighting that inserted. */
  lemma {:induction false} RowFixed(h: History, n: nat, rowId: nat)
    requires 0 < n <= |h|
    ensures var row, f := RowAfter(h, n, rowId), h[0].sighting.finding;
      && row.source == f.source && row.asset == f.host && row.cve == f.cve && row.title == f.title
      && row.status == Open && row.assignedTo == None
  {
    if n > 1 { RowFixed(h, n - 1, rowId); }
  }

  /** What merging does not accumulate is taken from the last sighting. */
  lemma FoldLatest(h: History, n: nat)
    requires 0 < n <= |h|
    ensures var f, last := Fold(h, n), h[n - 1].sighting.finding;
      && f.source == last.source && f.title == last.title && f.description == last.description && f.host == last.host
      && f.cve == last.cve && f.ts == last.ts && f.metadata == last.metadata
  {
  }

  lemma {:induction false} RowTimes(h: History, n: nat, rowId: nat)
    requires 0 < n <= |h|
    ensures SeenIsLast(RowAfter(h, n, rowId).lastSeen, h, n)
    ensures SeenIsFirst(RowAfter(h, n, rowId).firstSeen, h, n)
  {
    if n > 1 { RowTimes(h, n - 1, rowId); }
  }

  lemma {:induction false} RowJob(h: History, n: nat, rowId: nat)
    requires 0 < n <= |h|
    ensures JobIsLast(RowAfter(h, n, rowId).jobId, h, n)
  {
    if n > 1 {
      RowJob(h, n - 1, rowId);
      JobNext(RowAfter(h, n - 1, rowId).jobId, h, n);
    } else {
      assert JobFrom(0, h[0].sighting.jobId, h, 1);
    }
  }

  lemma JobNext(job: Option<string>, h: History, n: nat)
    requires 1 < n <= |h| && JobIsLast(job, h, n - 1)
    ensures JobIsLast(if NamesJob(h[n - 1]) then h[n - 1].sighting.jobId else job, h, n)
  {
    if NamesJob(h[n - 1]) {
      assert JobFrom(n - 1, h[n - 1].sighting.jobId, h, n);
    } else {
      var i: nat :| i < n - 1 && JobFrom(i, job, h, n - 1);
      assert JobFrom(i, job, h, n);
    }
  }

  /** The severity, confidence and description columns stand where the last ordinary store left them. */
  lemma {:induction false} ColumnsAre(h: History, n: nat, rowId: nat)
    requires 0 < n <= |h|
    ensures var row, solid := RowAfter(h, n, rowId), Fold(h, Solid(h, n));
      row.severity == solid.severity && row.confidence == solid.confidence && row.description == solid.description
  {
    if n > 1 {
      if h[n - 1].path == Recovered { ColumnsAre(h, n - 1, rowId); } else { RowIs(h, n - 1, rowId); }
    }
  }

  lemma {:induction false} FoldFingerprint(h: History, n: nat)
    requires 0 < n <= |h| && forall i :: 0 <= i < n ==>
        FingerprintOf(h[i].sighting.finding) == FingerprintOf(h[0].sighting.finding)
    ensures FingerprintOf(Fold(h, n)) == FingerprintOf(h[0].sighting.finding)
  {
    if n > 1 { MergeKeepsFingerprint(Fold(h, n - 1), h[n - 1].sighting.finding); }
  }

  /**
   On every row the store can leave behind the payload re-fingerprints to the row's fingerprint and
   carries its finding id, the severity and confidence columns never exceed the payload's, and
   `first_seen <= last_seen`.
   */
  lemma RowConsistent(h: History, n: nat, rowId: nat)
    requires 0 < n <= |h| && forall i :: 0 <= i < n ==>
        FingerprintOf(h[i].sighting.finding) == FingerprintOf(h[0].sighting.finding)
    ensures var row := RowAfter(h, n, rowId);
      && FingerprintOf(row.payload) == row.fingerprint && row.payload.id == row.findingId
      && row.severity.Rank() <= row.payload.severity.Rank() && row.confidence <= row.payload.confidence
      && row.firstSeen <= row.lastSeen
  {
    RowIs(h, n, rowId);
    RowTimes(h, n, rowId);
    ColumnsAre(h, n, rowId);
    FoldFingerprint(h, n);
    FoldIs(h, n);
    FoldIs(h, Solid(h, n));
  }

  // ---------------------------------------------------------------- what the recovery path leaves out

  /** The same sightings, had every one taken the ordinary path. */
  function Ordinary(h: History): History {
    seq(|h|, i requires 0 <= i < |h| => h[i].(path := Merged))
  }

  lemma {:induction false} OrdinaryFold(h: History, n: nat)
    requires 0 < n <= |h|
    ensures Fold(Ordinary(h), n) == Fold(h, n)
  {
    if n > 1 { OrdinaryFold(h, n - 1); }
  }

  lemma OrdinaryColumns(h: History, n: nat, rowId: nat)
    requires 0 < n <= |h|
    ensures var row := RowAfter(Ordinary(h), n, rowId);
      row.severity == Fold(h, n).severity && row.confidence == Fold(h, n).confidence
          && row.description == Fold(h, n).description
  {
    ColumnsAre(Ordinary(h), n, rowId);
    OrdinaryFold(h, n);
  }

  lemma {:induction false} FoldDescription(h: History, n: nat)
    requires 0 < n <= |h|
    ensures Fold(h, n).description == h[n - 1].sighting.finding.description
  {
  }

  predicate NamesAny(d: Done) {
    d.sighting.jobId.Some? && d.sighting.jobId.value != ""
  }

  /** Store `i` is a recovered one, and the last of the first `n` to name a job. */
  predicate RecoveredNamesLast(h: History, n: nat, i: nat)
    requires i < n <= |h|
  {
    0 < i && h[i].path == Recovered && NamesAny(h[i]) && forall k :: i < k < n ==> !NamesAny(h[k])
  }

  /**
   When each column of a row is what the ordinary path alone would have left: severity and confidence if no
   store recovered since the last ordinary one exceeds them, the description if the last store repeats it,
   `first_seen` if no recovered store was earlier, the job if no recovered store was the last to name another.
   */
  predicate ColumnsAgree(row: Row, ideal: Row, h: History, n: nat)
    requires 0 < n <= |h|
  {
    var solid := Solid(h, n);
    && (row.severity == ideal.severity <==>
          forall i :: solid <= i < n ==> h[i].sighting.finding.severity.Rank() <= row.severity.Rank())
    && (row.confidence == ideal.confidence <==>
          forall i :: solid <= i < n ==> h[i].sighting.finding.confidence <= row.confidence)
    && (row.description == ideal.description <==>
          h[n - 1].sighting.finding.description == h[solid - 1].sighting.finding.description)
    && (row.firstSeen == ideal.firstSeen <==>
          forall i :: 0 < i < n && h[i].path == Recovered ==> row.firstSeen <= h[i].sighting.seenAt)
    && (row.jobId == ideal.jobId <==>
          forall i: nat :: i < n && RecoveredNamesLast(h, n, i) ==> h[i].sighting.jobId == row.jobId)
  }

  /** The other columns never differ. */
  predicate SameElsewhere(row: Row, ideal: Row) {
    row == ideal.(severity := row.severity, confidence := row.confidence, description := row.description,
                  firstSeen := row.firstSeen, jobId := row.jobId)
  }

  lemma {:induction false} ElsewhereSame(h: History, n: nat, rowId: nat)
    requires 0 < n <= |h|
    ensures SameElsewhere(RowAfter(h, n, rowId), RowAfter(Ordinary(h), n, rowId))
  {
    if n > 1 { ElsewhereSame(h, n - 1, rowId); }
  }

  lemma SeverityAgrees(solid: Severity, all: Severity, h: History, n: nat, m: nat)
    requires m <= n <= |h| && SeverityIsMax(solid, h, m) && SeverityIsMax(all, h, n)
    ensures solid == all <==> forall i :: m <= i < n ==> h[i].sighting.finding.severity.Rank() <= solid.Rank()
  {
  }

  lemma ConfidenceAgrees(solid: real, all: real, h: History, n: nat, m: nat)
    requires m <= n <= |h| && ConfidenceIsMax(solid, h, m) && ConfidenceIsMax(all, h, n)
    ensures solid == all <==> forall i :: m <= i < n ==> h[i].sighting.finding.confidence <= solid
  {
  }

  lemma EarliestOfAll(t: int, h: History, n: nat)
    requires 0 < n <= |h| && SeenIsFirst(t, Ordinary(h), n)
    ensures (forall i :: 0 <= i < n ==> t <= h[i].sighting.seenAt)
    ensures exists i :: 0 <= i < n && h[i].sighting.seenAt == t
  {
    forall i | 0 <= i < n ensures t <= h[i].sighting.seenAt { assert Ordinary(h)[i].sighting == h[i].sighting; }
    var i :| 0 <= i < n && Ordinary(h)[i].sighting.seenAt == t;
    assert h[i].sighting.seenAt == t;
  }

  lemma FirstSeenAgrees(first: int, ideal: int, h: History, n: nat)
    requires 0 < n <= |h| && SeenIsFirst(first, h, n) && SeenIsFirst(ideal, Ordinary(h), n)
    ensures first == ideal <==> forall i :: 0 < i < n && h[i].path == Recovered ==> first <= h[i].sighting.seenAt
  {
    EarliestOfAll(ideal, h, n);
  }

  lemma JobsAgree(job: Option<string>, ideal: Option<string>, h: History, n: nat)
    requires 0 < n <= |h| && JobIsLast(job, h, n) && JobIsLast(ideal, Ordinary(h), n)
    ensures job == ideal <==> forall i: nat :: i < n && RecoveredNamesLast(h, n, i) ==> h[i].sighting.jobId == job
  {
    var a: nat :| a < n && JobFrom(a, job, h, n);
    var b: nat :| b < n && JobFrom(b, ideal, Ordinary(h), n);
    assert forall k :: b < k < n ==> !NamesAny(h[k]) by {
      forall k | b < k < n ensures !NamesAny(h[k]) { assert !NamesJob(Ordinary(h)[k]); }
    }
    if b > 0 {
      assert NamesJob(Ordinary(h)[b]) && NamesAny(h[b]);
      if h[b].path == Recovered { assert RecoveredNamesLast(h, n, b); }
    }
  }

  /** The exact condition for each column the recovery path leaves alone. */
  lemma ColumnsExact(h: History, n: nat, rowId: nat)
    requires 0 < n <= |h|
    ensures ColumnsAgree(RowAfter(h, n, rowId), RowAfter(Ordinary(h), n, rowId), h, n)
    ensures SameElsewhere(RowAfter(h, n, rowId), RowAfter(Ordinary(h), n, rowId))
  {
    var row, ideal := RowAfter(h, n, rowId), RowAfter(Ordinary(h), n, rowId);
    ColumnsAre(h, n, rowId);
    OrdinaryColumns(h, n, rowId);
    FoldMaxima(h, n);
    FoldMaxima(h, Solid(h, n));
    SeverityAgrees(row.severity, ideal.severity, h, n, Solid(h, n));
    ConfidenceAgrees(row.confidence, ideal.confidence, h, n, Solid(h, n));
    FoldDescription(h, n);
    FoldDescription(h, Solid(h, n));
    RowTimes(h, n, rowId);
    RowTimes(Ordinary(h), n, rowId);
    FirstSeenAgrees(row.firstSeen, ideal.firstSeen, h, n);
    RowJob(h, n, rowId);
    RowJob(Ordinary(h), n, rowId);
    JobsAgree(row.jobId, ideal.jobId, h, n);
    ElsewhereSame(h, n, rowId);
  }
}
