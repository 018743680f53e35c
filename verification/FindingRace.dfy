/**
 Any number of stores of one tenant's findings, interleaved transaction by transaction, with triage in
 between (src/shared_integration/finding_lifecycle.py). A run is any sequence of steps; a step that is not
 possible in its state changes nothing.
 */
module FindingRace {
  import opened Prelude
  import opened Findings
  import opened FindingStore

  /**
   `Founding` is a store that found no row for its tenant and inserts one first. That insert keeps other
   inserts of the tenant out until commit, so the rest of its transaction is one atomic step.
   */
  datatype Pc = Start | Looking | Founding | Inserting | Recovering | Stored(result: Finding) | Failed

  datatype Store = Store(sighting: Sighting, pc: Pc) {
    function Key(): Fingerprint { FingerprintOf(sighting.finding) }
  }

  /** `histories` records, for each row, the stores completed on it in commit order; no step reads it. */
  datatype State = State(
    tenantKnown: bool, slugTaken: bool, rows: Table, nextRowId: nat, stores: map<nat, Store>,
    histories: map<Fingerprint, History>)

  /**
   `Found`: another part of the system inserts the tenant. `TakeSlug`: it gives the tenant's id to another as slug.
   */
  datatype Step =
    | Arrive(c: nat, sighting: Sighting)
    | Act(c: nat)
    | Found
    | TakeSlug
    | Triage(fp: Fingerprint, status: Option<FindingStatus>, assignedTo: Option<Option<string>>)

  /**
   Whether the tenant exists beforehand, whether its id is another tenant's slug, and whether other parts of
   the system insert tenants meanwhile.
   */
  datatype World = World(tenantKnown: bool, slugTaken: bool, others: bool)

  function Initial(w: World): State {
    State(w.tenantKnown, w.slugTaken, map[], 1, map[], map[])
  }

  function HistoryOf(s: State, fp: Fingerprint): History {
    if fp in s.histories then s.histories[fp] else []
  }

  function Goto(s: State, c: nat, pc: Pc): State
    requires c in s.stores
  {
    s.(stores := s.stores[c := s.stores[c].(pc := pc)])
  }

  /** Store `c` commits `row` along `path`. */
  function Commit(s: State, c: nat, row: Row, path: Path): State
    requires c in s.stores
  {
    var fp := s.stores[c].Key();
    Goto(s, c, Stored(row.payload)).(
      tenantKnown := true,
      rows := s.rows[fp := row],
      histories := s.histories[fp := HistoryOf(s, fp) + [Done(c, s.stores[c].sighting, path)]])
  }

  function Apply(s: State, step: Step): State {
    match step
    case Arrive(c, sighting) =>
      if c in s.stores then s else s.(stores := s.stores[c := Store(sighting, Start)])
    case Act(c) =>
      if c in s.stores then Advance(s, c) else s
    case Found => s.(tenantKnown := true)
    case TakeSlug => s.(slugTaken := true)
    case Triage(fp, status, assignedTo) =>
      if fp in s.rows then s.(rows := s.rows[fp := Triaged(s.rows[fp], status, assignedTo)]) else s
  }

  function Advance(s: State, c: nat): State
    requires c in s.stores
  {
    var sighting, fp := s.stores[c].sighting, s.stores[c].Key();
    match s.stores[c].pc
    case Start => Goto(s, c, if s.tenantKnown then Looking else Founding)
    case Looking =>
      if fp in s.rows then Commit(s, c, MergedRow(s.rows[fp], sighting), Merged) else Goto(s, c, Inserting)
    case Founding => if s.tenantKnown || s.slugTaken then Goto(s, c, Recovering) else Insert(s, c)
    case Inserting => Insert(s, c)
    case Recovering =>
      if fp in s.rows then Commit(s, c, RecoveredRow(s.rows[fp], sighting), Recovered) else Goto(s, c, Failed)
    case _ => s
  }

  /** The insert commits unless it breaks one of the two unique constraints of the table. */
  function Insert(s: State, c: nat): State
    requires c in s.stores
  {
    var sighting, fp := s.stores[c].sighting, s.stores[c].Key();
    if fp in s.rows || IdTaken(s.rows, sighting.finding.id) then Goto(s, c, Recovering)
    else Commit(s, c, NewRow(s.nextRowId, sighting), Inserted).(nextRowId := s.nextRowId + 1)
  }

  /** The state after the first `n` steps. */
  function After(w: World, steps: seq<Step>, n: nat): State
    requires n <= |steps|
  {
    if n == 0 then Initial(w) else Apply(After(w, steps, n - 1), steps[n - 1])
  }

  /** Some interleaving leads to `s`. */
  ghost predicate Reachable(s: State) {
    exists w, steps :: s == After(w, steps, |steps|)
  }

  // ---------------------------------------------------------------- what every step keeps

  function Untriaged(row: Row): Row {
    row.(status := Open, assignedTo := None)
  }

  /** The completed stores of a history are distinct, share its fingerprint and have returned. */
  predicate HistoryOk(h: History, fp: Fingerprint, stores: map<nat, Store>) {
    && h != [] && h[0].path == Inserted
    && (forall i :: 0 <= i < |h| ==>
          && h[i].store in stores && stores[h[i].store].pc.Stored?
          && stores[h[i].store].sighting == h[i].sighting && FingerprintOf(h[i].sighting.finding) == fp)
    && (forall i, j :: 0 <= i < j < |h| ==> h[i].store != h[j].store)
  }

  /** The row is what its history leaves behind, triage aside. */
  predicate RowOk(s: State, fp: Fingerprint)
    requires fp in s.rows && fp in s.histories
  {
    && HistoryOk(s.histories[fp], fp, s.stores)
    && Untriaged(s.rows[fp]) == RowAfter(s.histories[fp], |s.histories[fp]|, s.rows[fp].rowId)
    && 1 <= s.rows[fp].rowId < s.nextRowId
  }

  /** Store `c` made entry `i` of its row's history and returned the merge of all sightings up to its own. */
  predicate Recorded(s: State, c: nat, i: nat)
    requires c in s.stores && s.stores[c].pc.Stored?
  {
    var h := HistoryOf(s, s.stores[c].Key());
    i < |h| && h[i].store == c && s.stores[c].pc.result == Fold(h, i + 1)
  }

  ghost predicate StoreOk(s: State, c: nat)
    requires c in s.stores
  {
    s.stores[c].pc.Stored? ==> exists i: nat :: Recorded(s, c, i)
  }

  predicate Distinct(rows: Table) {
    forall a, b :: a in rows && b in rows && a != b ==>
      rows[a].findingId != rows[b].findingId && rows[a].rowId != rows[b].rowId
  }

  ghost predicate Inv(s: State) {
    && s.rows.Keys == s.histories.Keys && s.nextRowId >= 1
    && (forall fp {:trigger RowOk(s, fp)} :: fp in s.rows ==> RowOk(s, fp))
    && (forall c {:trigger StoreOk(s, c)} :: c in s.stores ==> StoreOk(s, c))
    && Distinct(s.rows)
  }

  lemma {:induction false} FoldPrefix(h: History, h': History, n: nat)
    requires h <= h' && 0 < n <= |h|
    ensures Fold(h', n) == Fold(h, n)
  {
    if n > 1 { FoldPrefix(h, h', n - 1); }
  }

  lemma {:induction false} RowAfterPrefix(h: History, h': History, n: nat, rowId: nat)
    requires h <= h' && 0 < n <= |h|
    ensures RowAfter(h', n, rowId) == RowAfter(h, n, rowId)
  {
    if n > 1 { RowAfterPrefix(h, h', n - 1, rowId); }
  }

  /** What a commit may write: a first row for the fingerprint, or the update its path makes to the row there. */
  predicate Writes(s: State, c: nat, row: Row, path: Path)
    requires c in s.stores
  {
    var sighting, fp := s.stores[c].sighting, s.stores[c].Key();
    if fp in s.rows then
      path != Inserted && row == Updated(s.rows[fp], Done(c, sighting, path))
    else
      path == Inserted && row == NewRow(s.nextRowId, sighting) && !IdTaken(s.rows, sighting.finding.id)
  }

  lemma HistoryExtends(h: History, fp: Fingerprint, d: Done, stores: map<nat, Store>, stores': map<nat, Store>)
    requires if h == [] then d.path == Inserted else HistoryOk(h, fp, stores)
    requires d.store in stores ==> !stores[d.store].pc.Stored?
    requires forall c :: c in stores && c != d.store ==> c in stores' && stores'[c] == stores[c]
    requires d.store in stores' && stores'[d.store].pc.Stored? && stores'[d.store].sighting == d.sighting
    requires FingerprintOf(d.sighting.finding) == fp
    ensures HistoryOk(h + [d], fp, stores')
  {
  }

  lemma RowAfterNext(h: History, d: Done, rowId: nat)
    requires h != [] && d.path != Inserted
    ensures RowAfter(h + [d], |h| + 1, rowId) == Updated(RowAfter(h, |h|, rowId), d)
  {
    RowAfterPrefix(h, h + [d], |h|, rowId);
    assert (h + [d])[|h|] == d;
  }

  lemma UntriagedLater(row: Row, d: Done)
    ensures Untriaged(Updated(row, d)) == Updated(Untriaged(row), d)
  {
  }

  /** The row a commit writes, as the history it extends leaves it. */
  lemma CommitRow(row: Row, row': Row, h: History, d: Done)
    requires h != [] && d.path != Inserted && Untriaged(row) == RowAfter(h, |h|, row.rowId)
    requires row' == Updated(row, d)
    ensures Untriaged(row') == RowAfter(h + [d], |h| + 1, row'.rowId) && row'.payload == Fold(h + [d], |h| + 1)
  {
    UntriagedLater(row, d);
    RowAfterNext(h, d, row.rowId);
    RowIs(h + [d], |h| + 1, row.rowId);
  }

  lemma CommitOwn(s: State, c: nat, row: Row, path: Path, s': State)
    requires Inv(s) && c in s.stores && !s.stores[c].pc.Stored? && Writes(s, c, row, path)
    requires s' == Commit(s, c, row, path).(nextRowId := if path == Inserted then s.nextRowId + 1 else s.nextRowId)
    ensures RowOk(s', s.stores[c].Key()) && Recorded(s', c, |HistoryOf(s, s.stores[c].Key())|)
  {
    var fp := s.stores[c].Key();
    if fp in s.rows { assert RowOk(s, fp); }
    HistoryExtends(HistoryOf(s, fp), fp, Done(c, s.stores[c].sighting, path), s.stores, s'.stores);
    if fp in s.rows {
      CommitRow(s.rows[fp], row, s.histories[fp], Done(c, s.stores[c].sighting, path));
    }
  }

  lemma CommitOthers(s: State, c: nat, row: Row, path: Path, s': State, fp: Fingerprint)
    requires Inv(s) && c in s.stores && !s.stores[c].pc.Stored? && Writes(s, c, row, path)
    requires s' == Commit(s, c, row, path).(nextRowId := if path == Inserted then s.nextRowId + 1 else s.nextRowId)
    requires fp in s.rows && fp != s.stores[c].Key()
    ensures RowOk(s', fp)
  {
    assert RowOk(s, fp);
  }

  lemma RecordedLater(s: State, s': State, d: nat, i: nat)
    requires d in s.stores && d in s'.stores && s'.stores[d] == s.stores[d] && s.stores[d].pc.Stored?
    requires HistoryOf(s, s.stores[d].Key()) <= HistoryOf(s', s.stores[d].Key()) && Recorded(s, d, i)
    ensures Recorded(s', d, i)
  {
    FoldPrefix(HistoryOf(s, s.stores[d].Key()), HistoryOf(s', s.stores[d].Key()), i + 1);
  }

  lemma CommitStore(s: State, c: nat, row: Row, path: Path, s': State, d: nat)
    requires Inv(s) && c in s.stores && !s.stores[c].pc.Stored? && Writes(s, c, row, path)
    requires s' == Commit(s, c, row, path).(nextRowId := if path == Inserted then s.nextRowId + 1 else s.nextRowId)
    requires d in s.stores && d != c
    ensures StoreOk(s', d)
  {
    assert StoreOk(s, d);
    if s.stores[d].pc.Stored? {
      var i: nat :| Recorded(s, d, i);
      RecordedLater(s, s', d, i);
    }
  }

  lemma CommitDistinct(s: State, c: nat, row: Row, path: Path)
    requires Inv(s) && c in s.stores && Writes(s, c, row, path)
    ensures Distinct(s.rows[s.stores[c].Key() := row])
  {
    var fp := s.stores[c].Key();
    forall a | a in s.rows && a != fp ensures s.rows[a].findingId != row.findingId && s.rows[a].rowId != row.rowId {
      assert RowOk(s, a);
    }
  }

  lemma CommitInv(s: State, c: nat, row: Row, path: Path, s': State)
    requires Inv(s) && c in s.stores && !s.stores[c].pc.Stored? && Writes(s, c, row, path)
    requires s' == Commit(s, c, row, path).(nextRowId := if path == Inserted then s.nextRowId + 1 else s.nextRowId)
    ensures Inv(s')
  {
    CommitOwn(s, c, row, path, s');
    CommitDistinct(s, c, row, path);
    forall fp | fp in s'.rows ensures RowOk(s', fp) {
      if fp != s.stores[c].Key() { CommitOthers(s, c, row, path, s', fp); }
    }
    forall d | d in s'.stores ensures StoreOk(s', d) {
      if d != c { CommitStore(s, c, row, path, s', d); }
    }
  }

  lemma StoreKept(s: State, s': State, d: nat)
    requires d in s.stores && d in s'.stores && s'.stores[d] == s.stores[d] && s'.histories == s.histories
    requires StoreOk(s, d)
    ensures StoreOk(s', d)
  {
    if s.stores[d].pc.Stored? {
      var i: nat :| Recorded(s, d, i);
      assert Recorded(s', d, i);
    }
  }

  /** A step that leaves rows and histories alone and completes no store. */
  lemma QuietInv(s: State, s': State, c: nat)
    requires Inv(s) && s'.rows == s.rows && s'.histories == s.histories && s'.nextRowId == s.nextRowId
    requires s'.stores.Keys == s.stores.Keys + {c}
    requires forall d :: d in s.stores && d != c ==> s'.stores[d] == s.stores[d]
    requires !s'.stores[c].pc.Stored? && (c in s.stores ==> !s.stores[c].pc.Stored?)
    ensures Inv(s')
  {
    forall fp | fp in s'.rows ensures RowOk(s', fp) { assert RowOk(s, fp); }
    forall d | d in s'.stores ensures StoreOk(s', d) {
      if d != c {
        assert StoreOk(s, d);
        StoreKept(s, s', d);
      }
    }
  }

  lemma TriageInv(s: State, fp: Fingerprint, row: Row, s': State)
    requires Inv(s) && fp in s.rows && Untriaged(row) == Untriaged(s.rows[fp]) && s' == s.(rows := s.rows[fp := row])
    ensures Inv(s')
  {
    assert s.rows[fp].findingId == row.findingId && s.rows[fp].rowId == row.rowId;
    TriageDistinct(s.rows, fp, row);
    forall a | a in s'.rows ensures RowOk(s', a) { TriageRow(s, fp, row, s', a); }
    forall d | d in s'.stores ensures StoreOk(s', d) {
      assert StoreOk(s, d);
      StoreKept(s, s', d);
    }
  }

  lemma TriageRow(s: State, fp: Fingerprint, row: Row, s': State, a: Fingerprint)
    requires Inv(s) && fp in s.rows && Untriaged(row) == Untriaged(s.rows[fp]) && s' == s.(rows := s.rows[fp := row])
    requires a in s.rows
    ensures RowOk(s', a)
  {
    assert RowOk(s, a);
  }

  lemma TriageDistinct(rows: Table, fp: Fingerprint, row: Row)
    requires Distinct(rows) && fp in rows && rows[fp].findingId == row.findingId && rows[fp].rowId == row.rowId
    ensures Distinct(rows[fp := row])
  {
  }

  lemma InsertInv(s: State, c: nat)
    requires Inv(s) && c in s.stores && !s.stores[c].pc.Stored?
    ensures Inv(Insert(s, c))
  {
    var sighting, fp := s.stores[c].sighting, s.stores[c].Key();
    if fp in s.rows || IdTaken(s.rows, sighting.finding.id) { QuietInv(s, Insert(s, c), c); }
    else { CommitInv(s, c, NewRow(s.nextRowId, sighting), Inserted, Insert(s, c)); }
  }

  lemma UpdateInv(s: State, c: nat, path: Path, s': State)
    requires Inv(s) && c in s.stores && !s.stores[c].pc.Stored? && path != Inserted && s.stores[c].Key() in s.rows
    requires s' == Commit(s, c, Updated(s.rows[s.stores[c].Key()], Done(c, s.stores[c].sighting, path)), path)
    ensures Inv(s')
  {
    CommitInv(s, c, Updated(s.rows[s.stores[c].Key()], Done(c, s.stores[c].sighting, path)), path, s');
  }

  lemma AdvanceInv(s: State, c: nat)
    requires Inv(s) && c in s.stores
    ensures Inv(Advance(s, c))
  {
    var sighting, fp, s' := s.stores[c].sighting, s.stores[c].Key(), Advance(s, c);
    match s.stores[c].pc
    case Start => QuietInv(s, s', c);
    case Looking => if fp in s.rows { UpdateInv(s, c, Merged, s'); } else { QuietInv(s, s', c); }
    case Founding => if s.tenantKnown || s.slugTaken { QuietInv(s, s', c); } else { InsertInv(s, c); }
    case Inserting => InsertInv(s, c);
    case Recovering => if fp in s.rows { UpdateInv(s, c, Recovered, s'); } else { QuietInv(s, s', c); }
    case _ =>
  }

  lemma FoundInv(s: State, s': State)
    requires Inv(s) && s' == s.(tenantKnown := s'.tenantKnown, slugTaken := s'.slugTaken)
    ensures Inv(s')
  {
    forall fp | fp in s'.rows ensures RowOk(s', fp) { assert RowOk(s, fp); }
    forall d | d in s'.stores ensures StoreOk(s', d) {
      assert StoreOk(s, d);
      StoreKept(s, s', d);
    }
  }

  lemma {:induction false} InvAt(w: World, steps: seq<Step>, n: nat)
    requires n <= |steps|
    ensures Inv(After(w, steps, n))
  {
    if n > 0 {
      InvAt(w, steps, n - 1);
      var s, s' := After(w, steps, n - 1), After(w, steps, n);
      match steps[n - 1]
      case Arrive(c, _) => if c !in s.stores { QuietInv(s, s', c); }
      case Act(c) => if c in s.stores { AdvanceInv(s, c); }
      case Found => FoundInv(s, s');
      case TakeSlug => FoundInv(s, s');
      case Triage(fp, status, assignedTo) => if fp in s.rows { TriageInv(s, fp, s'.rows[fp], s'); }
    }
  }

  lemma ReachableInv(s: State)
    requires Reachable(s)
    ensures Inv(s)
  {
    var w, steps :| s == After(w, steps, |steps|);
    InvAt(w, steps, |steps|);
  }

  // ---------------------------------------------------------------- the stores that completed

  /** The stores of a fingerprint that have returned. */
  function Completed(s: State, fp: Fingerprint): set<nat> {
    set c | c in s.stores && s.stores[c].pc.Stored? && s.stores[c].Key() == fp
  }

  function StoresOf(h: History, n: nat): set<nat>
    requires n <= |h|
  {
    set i | 0 <= i < n :: h[i].store
  }

  lemma {:induction false} StoresCounted(h: History, n: nat)
    requires n <= |h| && forall i, j :: 0 <= i < j < |h| ==> h[i].store != h[j].store
    ensures |StoresOf(h, n)| == n
  {
    if n > 0 {
      StoresCounted(h, n - 1);
      assert StoresOf(h, n) == StoresOf(h, n - 1) + {h[n - 1].store};
    }
  }

  /** The history of a row names exactly the stores that returned, each once. */
  lemma HistoryComplete(s: State, fp: Fingerprint)
    requires Inv(s)
    ensures fp in s.rows <==> Completed(s, fp) != {}
    ensures fp in s.rows ==> StoresOf(s.histories[fp], |s.histories[fp]|) == Completed(s, fp)
  {
    if fp in s.rows {
      var h := s.histories[fp];
      assert RowOk(s, fp);
      assert h[0].store in Completed(s, fp);
      forall c | c in Completed(s, fp) ensures c in StoresOf(h, |h|) {
        assert StoreOk(s, c);
        var i: nat :| Recorded(s, c, i);
        assert h[i].store == c;
      }
    } else {
      forall c ensures c !in Completed(s, fp) {
        if c in s.stores && s.stores[c].Key() == fp { assert StoreOk(s, c) && HistoryOf(s, fp) == []; }
      }
    }
  }

  /** What the payload of a row says about the stores that have returned. */
  ghost predicate PayloadIs(payload: Finding, done: set<nat>, stores: map<nat, Store>)
    requires done <= stores.Keys
  {
    && (forall c :: c in done ==> stores[c].sighting.finding.severity.Rank() <= payload.severity.Rank())
    && (exists c :: c in done && stores[c].sighting.finding.severity == payload.severity)
    && (forall c :: c in done ==> stores[c].sighting.finding.confidence <= payload.confidence)
    && (exists c :: c in done && stores[c].sighting.finding.confidence == payload.confidence)
    && (forall tag :: tag in payload.tags <==> exists c :: c in done && tag in stores[c].sighting.finding.tags)
    && (forall field: Field :: ListIs(field, payload, done, stores))
  }

  /** The evidence, or the related findings, are those of the stores that have returned. */
  ghost predicate ListIs(field: Field, payload: Finding, done: set<nat>, stores: map<nat, Store>)
    requires done <= stores.Keys
  {
    forall x :: x in field.Of(payload) <==> exists c :: c in done && x in field.Of(stores[c].sighting.finding)
  }

  ghost predicate Accumulates(row: Row, done: set<nat>, stores: map<nat, Store>)
    requires done <= stores.Keys
  {
    && row.occurrences == |done|
    && PayloadIs(row.payload, done, stores)
    && (forall c :: c in done ==> stores[c].sighting.seenAt <= row.lastSeen)
    && (exists c :: c in done && stores[c].sighting.seenAt == row.lastSeen)
  }

  /** Every entry of a history is one of the stores `done`, and conversely. */
  predicate Covers(h: History, done: set<nat>, stores: map<nat, Store>)
    requires done <= stores.Keys
  {
    && (forall i :: 0 <= i < |h| ==> h[i].store in done && stores[h[i].store].sighting == h[i].sighting)
    && (forall c :: c in done ==> exists i :: 0 <= i < |h| && h[i].store == c)
  }

  lemma CoversPayload(h: History, done: set<nat>, stores: map<nat, Store>)
    requires h != [] && done <= stores.Keys && Covers(h, done, stores)
    ensures PayloadIs(Fold(h, |h|), done, stores)
  {
    FoldIs(h, |h|);
    var f := Fold(h, |h|);
    var a :| 0 <= a < |h| && h[a].sighting.finding.severity == f.severity;
    assert h[a].store in done;
    var b :| 0 <= b < |h| && h[b].sighting.finding.confidence == f.confidence;
    assert h[b].store in done;
    forall tag | tag in f.tags ensures exists c :: c in done && tag in stores[c].sighting.finding.tags {
      var i :| 0 <= i < |h| && tag in h[i].sighting.finding.tags;
      assert h[i].store in done;
    }
    forall field: Field ensures ListIs(field, f, done, stores) { CoversList(h, done, stores, field); }
  }

  lemma CoversTimes(t: int, h: History, done: set<nat>, stores: map<nat, Store>)
    requires h != [] && done <= stores.Keys && Covers(h, done, stores) && SeenIsLast(t, h, |h|)
    ensures (forall c :: c in done ==> stores[c].sighting.seenAt <= t)
    ensures exists c :: c in done && stores[c].sighting.seenAt == t
  {
    var i :| 0 <= i < |h| && h[i].sighting.seenAt == t;
    assert h[i].store in done;
  }

  lemma CoversList(h: History, done: set<nat>, stores: map<nat, Store>, field: Field)
    requires h != [] && done <= stores.Keys && Covers(h, done, stores)
    ensures ListIs(field, Fold(h, |h|), done, stores)
  {
    FoldLists(h, |h|, field);
    GatheredMembers(h, |h|, field);
    DedupIs(Gathered(h, |h|, field));
    forall x | x in field.Of(Fold(h, |h|)) ensures exists c :: c in done && x in field.Of(stores[c].sighting.finding) {
      var i :| 0 <= i < |h| && x in field.Of(h[i].sighting.finding);
      assert h[i].store in done;
    }
  }

  lemma RowAccumulates(s: State, fp: Fingerprint)
    requires Inv(s) && fp in s.rows
    ensures Accumulates(s.rows[fp], Completed(s, fp), s.stores)
  {
    var h, row := s.histories[fp], s.rows[fp];
    assert RowOk(s, fp);
    HistoryComplete(s, fp);
    StoresCounted(h, |h|);
    RowIs(h, |h|, row.rowId);
    RowTimes(h, |h|, row.rowId);
    assert Covers(h, Completed(s, fp), s.stores) by {
      forall c | c in Completed(s, fp) ensures exists i :: 0 <= i < |h| && h[i].store == c {
        assert c in StoresOf(h, |h|);
      }
    }
    CoversPayload(h, Completed(s, fp), s.stores);
    CoversTimes(row.lastSeen, h, Completed(s, fp), s.stores);
  }

  /**
   At every point of every run a fingerprint has a row exactly if some store of it has returned; the row
   counts the returned stores and accumulates exactly what they saw; and no two rows share a finding id
   or a row id.
   */
  lemma StoresAccumulate(s: State, fp: Fingerprint)
    requires Reachable(s)
    ensures fp in s.rows <==> Completed(s, fp) != {}
    ensures fp in s.rows ==> Accumulates(s.rows[fp], Completed(s, fp), s.stores)
    ensures Distinct(s.rows)
  {
    ReachableInv(s);
    HistoryComplete(s, fp);
    if fp in s.rows { RowAccumulates(s, fp); }
  }

  /**
   From two completed stores on, evidence and related findings are first-occurrence deduplications in commit order.
   */
  lemma ListsInCommitOrder(s: State, fp: Fingerprint, field: Field)
    requires Reachable(s) && fp in s.rows
    ensures var h := HistoryOf(s, fp);
      && h != [] && |Completed(s, fp)| == |h| && StoresOf(h, |h|) == Completed(s, fp)
      && field.Of(s.rows[fp].payload) == if |h| == 1 then Gathered(h, 1, field) else Dedup(Gathered(h, |h|, field))
  {
    ReachableInv(s);
    var h := s.histories[fp];
    assert RowOk(s, fp);
    HistoryComplete(s, fp);
    StoresCounted(h, |h|);
    RowIs(h, |h|, s.rows[fp].rowId);
    FoldLists(h, |h|, field);
  }

  /**
   When each column of a reachable row is what the ordinary path alone would have left, in terms of the stores
   that completed; all other columns always are.
   */
  lemma ColumnsExactly(s: State, fp: Fingerprint)
    requires Reachable(s) && fp in s.rows
    ensures var h, row := HistoryOf(s, fp), Untriaged(s.rows[fp]);
      && h != []
      && ColumnsAgree(row, RowAfter(Ordinary(h), |h|, row.rowId), h, |h|)
      && SameElsewhere(row, RowAfter(Ordinary(h), |h|, row.rowId))
  {
    ReachableInv(s);
    assert RowOk(s, fp);
    ColumnsExact(s.histories[fp], |s.histories[fp]|, s.rows[fp].rowId);
  }

  /** Every row in every reachable table is consistent with its own payload. */
  lemma RowsConsistent(s: State, fp: Fingerprint)
    requires Reachable(s) && fp in s.rows
    ensures var row := s.rows[fp];
      && row.fingerprint == fp && FingerprintOf(row.payload) == fp && row.payload.id == row.findingId
      && row.severity.Rank() <= row.payload.severity.Rank() && row.confidence <= row.payload.confidence
      && row.firstSeen <= row.lastSeen
  {
    ReachableInv(s);
    assert RowOk(s, fp);
    RowConsistent(s.histories[fp], |s.histories[fp]|, s.rows[fp].rowId);
    RowIs(s.histories[fp], |s.histories[fp]|, s.rows[fp].rowId);
  }

  /**
   A reachable row keeps source, host, CVE and title of the sighting that inserted it in its columns, and its
   payload has those, the time and the metadata of the sighting merged last.
   */
  lemma FixedColumns(s: State, fp: Fingerprint)
    requires Reachable(s) && fp in s.rows
    ensures var h, row := HistoryOf(s, fp), s.rows[fp];
      && h != []
      && var first, last := h[0].sighting.finding, h[|h| - 1].sighting.finding;
      && row.source == first.source && row.asset == first.host && row.cve == first.cve && row.title == first.title
      && row.payload.title == last.title && row.payload.host == last.host && row.payload.cve == last.cve
      && row.payload.ts == last.ts && row.payload.metadata == last.metadata
  {
    ReachableInv(s);
    assert RowOk(s, fp);
    RowFixedly(s.rows[fp], s.histories[fp]);
  }

  lemma RowFixedly(row: Row, h: History)
    requires h != [] && Untriaged(row) == RowAfter(h, |h|, row.rowId)
    ensures var first, last := h[0].sighting.finding, h[|h| - 1].sighting.finding;
      && row.source == first.source && row.asset == first.host && row.cve == first.cve && row.title == first.title
      && row.payload.title == last.title && row.payload.host == last.host && row.payload.cve == last.cve
      && row.payload.ts == last.ts && row.payload.metadata == last.metadata
  {
    RowFixed(h, |h|, row.rowId);
    RowIs(h, |h|, row.rowId);
    FoldLatest(h, |h|);
  }

  ghost predicate SameButListOrder(x: Row, y: Row) {
    && x.occurrences == y.occurrences && x.lastSeen == y.lastSeen
    && x.payload.severity == y.payload.severity && x.payload.confidence == y.payload.confidence
    && x.payload.tags == y.payload.tags && forall field: Field :: SameMembers(field.Of(x.payload), field.Of(y.payload))
  }

  ghost predicate SameMembers(a: seq<string>, b: seq<string>) {
    forall x :: x in a <==> x in b
  }

  /**
   Two runs in which the same stores of a fingerprint have returned agree on all but the order of evidence and
   related findings.
   */
  lemma OrderIrrelevant(a: State, b: State, fp: Fingerprint)
    requires Reachable(a) && Reachable(b) && fp in a.rows && Completed(a, fp) == Completed(b, fp)
    requires forall c :: c in Completed(a, fp) ==> a.stores[c].sighting == b.stores[c].sighting
    ensures fp in b.rows && SameButListOrder(a.rows[fp], b.rows[fp])
  {
    StoresAccumulate(a, fp);
    StoresAccumulate(b, fp);
    forall field: Field ensures SameMembers(field.Of(a.rows[fp].payload), field.Of(b.rows[fp].payload)) {
      assert ListIs(field, a.rows[fp].payload, Completed(a, fp), a.stores);
      assert ListIs(field, b.rows[fp].payload, Completed(b, fp), b.stores);
    }
  }

  lemma UpdatedKeeps(row: Row, d: Done)
    ensures Named(Updated(row, d), row)
  {
  }

  predicate Named(row: Row, before: Row) {
    && row.rowId == before.rowId && row.findingId == before.findingId && row.fingerprint == before.fingerprint
    && row.source == before.source && row.asset == before.asset && row.cve == before.cve && row.title == before.title
    && row.status == before.status && row.assignedTo == before.assignedTo
  }

  /** Where a store can go, and that its step at most adds or updates the row of its own fingerprint. */
  ghost predicate Moves(s: State, c: nat, s': State)
    requires c in s.stores
  {
    var fp, pc := s.stores[c].Key(), s.stores[c].pc;
    && c in s'.stores && s'.stores == s.stores[c := s.stores[c].(pc := s'.stores[c].pc)]
    && s'.slugTaken == s.slugTaken && (s.tenantKnown ==> s'.tenantKnown)
        && (s'.tenantKnown ==> s.tenantKnown || fp in s'.rows)
    && (s'.rows == s.rows || (fp in s'.rows && s'.rows == s.rows[fp := s'.rows[fp]]))
    && (fp in s.rows ==> s'.rows[fp] == s.rows[fp] || exists d :: s'.rows[fp] == Updated(s.rows[fp], d))
    && match s'.stores[c].pc
       case Founding => pc.Start? && !s.tenantKnown
       case Recovering =>
         || (pc.Founding? && (s.tenantKnown || s.slugTaken)) || fp in s.rows
         || IdTaken(s.rows, s.stores[c].sighting.finding.id)
       case Failed => pc.Failed? || (pc.Recovering? && fp !in s.rows)
       case _ => true
  }

  lemma InsertMoves(s: State, c: nat, s': State)
    requires c in s.stores && s' == Insert(s, c) && (s.stores[c].pc.Founding? || s.stores[c].pc.Inserting?)
    requires s.stores[c].pc.Founding? ==> !s.tenantKnown && !s.slugTaken
    ensures Moves(s, c, s')
  {
  }

  lemma AdvanceMoves(s: State, c: nat, s': State)
    requires c in s.stores && s' == Advance(s, c)
    ensures Moves(s, c, s')
  {
    var fp := s.stores[c].Key();
    match s.stores[c].pc
    case Looking => if fp in s.rows { UpdateMoves(s, c, Merged, s'); }
    case Founding => if !s.tenantKnown && !s.slugTaken { InsertMoves(s, c, s'); }
    case Inserting => InsertMoves(s, c, s');
    case Recovering => if fp in s.rows { UpdateMoves(s, c, Recovered, s'); }
    case _ =>
  }

  lemma UpdateMoves(s: State, c: nat, path: Path, s': State)
    requires c in s.stores && s.stores[c].Key() in s.rows
    requires s' == Commit(s, c, Updated(s.rows[s.stores[c].Key()], Done(c, s.stores[c].sighting, path)), path)
    ensures Moves(s, c, s')
  {
    var fp := s.stores[c].Key();
    assert s'.rows[fp] == Updated(s.rows[fp], Done(c, s.stores[c].sighting, path));
  }

  /** No store removes a row or changes the columns that name it. */
  lemma RowKept(s: State, c: nat, fp: Fingerprint)
    requires c in s.stores && fp in s.rows
    ensures fp in Advance(s, c).rows && Named(Advance(s, c).rows[fp], s.rows[fp])
  {
    AdvanceMoves(s, c, Advance(s, c));
    MovesKeeps(s, c, Advance(s, c), fp);
  }

  lemma MovesKeeps(s: State, c: nat, s': State, fp: Fingerprint)
    requires c in s.stores && Moves(s, c, s') && fp in s.rows
    ensures fp in s'.rows && Named(s'.rows[fp], s.rows[fp])
  {
    if s'.rows[fp] != s.rows[fp] {
      var d :| s'.rows[fp] == Updated(s.rows[fp], d);
      UpdatedKeeps(s.rows[fp], d);
    }
  }

  // ---------------------------------------------------------------- when a store fails

  /** The run brings in the given arrivals only, each at most once; tenants come from outside only if `others`. */
  predicate Among(steps: seq<Step>, w: World, arrivals: seq<Sighting>) {
    forall i :: 0 <= i < |steps| ==> Allowed(steps[i], w, arrivals)
  }

  predicate Allowed(step: Step, w: World, arrivals: seq<Sighting>) {
    && (step.Arrive? ==> step.c < |arrivals| && step.sighting == arrivals[step.c])
    && (step.Found? || step.TakeSlug? ==> w.others)
  }

  /** Some interleaving of the arrivals leads from an empty table to `s`. */
  ghost predicate Leads(w: World, arrivals: seq<Sighting>, s: State) {
    exists steps :: Among(steps, w, arrivals) && s == After(w, steps, |steps|)
  }

  ghost predicate SomeStoreFails(w: World, arrivals: seq<Sighting>) {
    exists s, c :: Leads(w, arrivals, s) && c in s.stores && s.stores[c].pc.Failed?
  }

  function Print(sighting: Sighting): Fingerprint {
    FingerprintOf(sighting.finding)
  }

  /** No two arrivals share a finding id under different fingerprints. */
  predicate IdsConsistent(arrivals: seq<Sighting>) {
    forall i, j :: 0 <= i < |arrivals| && 0 <= j < |arrivals| && arrivals[i].finding.id == arrivals[j].finding.id
      ==> Print(arrivals[i]) == Print(arrivals[j])
  }

  predicate AllAlike(arrivals: seq<Sighting>) {
    forall i, j :: 0 <= i < |arrivals| && 0 <= j < |arrivals| ==> Print(arrivals[i]) == Print(arrivals[j])
  }

  /** What keeps every store from failing: checkable before any of them is called. */
  predicate Safe(w: World, arrivals: seq<Sighting>) {
    if w.tenantKnown then IdsConsistent(arrivals)
    else if w.others || w.slugTaken then arrivals == []
    else AllAlike(arrivals)
  }

  /** Store `c` has not failed, and if it is recovering, or is bound to lose its tenant's row, its own row is there. */
  predicate Untroubled(s: State, arrivals: seq<Sighting>, c: nat)
    requires c in s.stores
  {
    var store := s.stores[c];
    && c < |arrivals| && store.sighting == arrivals[c] && !store.pc.Failed?
    && (store.pc.Recovering? || (store.pc.Founding? && (s.tenantKnown || s.slugTaken)) ==> store.Key() in s.rows)
  }

  /** The tenant is there from the start; or its slug is free, and it came with a row that serves every arrival. */
  predicate Ready(s: State, w: World, arrivals: seq<Sighting>) {
    if w.tenantKnown then s.tenantKnown
    else
      && (s.slugTaken ==> arrivals == [])
      && (s.tenantKnown ==> forall i :: 0 <= i < |arrivals| ==> Print(arrivals[i]) in s.rows)
  }

  predicate Calm(s: State, w: World, arrivals: seq<Sighting>) {
    && (forall c {:trigger Untroubled(s, arrivals, c)} :: c in s.stores ==> Untroubled(s, arrivals, c))
    && Ready(s, w, arrivals)
    && (w.tenantKnown ==> forall c :: c in s.stores ==> !s.stores[c].pc.Founding?)
  }

  lemma IdTakenByOwn(s: State, arrivals: seq<Sighting>, c: nat)
    requires Inv(s) && IdsConsistent(arrivals) && (forall d :: d in s.stores ==> Untroubled(s, arrivals, d))
    requires c in s.stores
    requires IdTaken(s.rows, s.stores[c].sighting.finding.id)
    ensures s.stores[c].Key() in s.rows
  {
    var fp :| fp in s.rows && s.rows[fp].findingId == s.stores[c].sighting.finding.id;
    assert RowOk(s, fp);
    var h := s.histories[fp];
    RowIs(h, |h|, s.rows[fp].rowId);
    assert Untroubled(s, arrivals, h[0].store) && Untroubled(s, arrivals, c);
  }

  lemma SafeIds(w: World, arrivals: seq<Sighting>)
    requires Safe(w, arrivals)
    ensures IdsConsistent(arrivals)
  {
  }

  lemma MoveReady(s: State, w: World, arrivals: seq<Sighting>, c: nat, s': State)
    requires Safe(w, arrivals) && Calm(s, w, arrivals) && c in s.stores && Moves(s, c, s')
    ensures Ready(s', w, arrivals)
  {
    assert Untroubled(s, arrivals, c);
  }

  lemma MoveUntroubled(s: State, w: World, arrivals: seq<Sighting>, c: nat, s': State, d: nat)
    requires Inv(s) && IdsConsistent(arrivals) && Calm(s, w, arrivals) && c in s.stores && Moves(s, c, s')
    requires d in s.stores && Ready(s', w, arrivals)
    ensures d in s'.stores && Untroubled(s', arrivals, d) && (w.tenantKnown ==> !s'.stores[d].pc.Founding?)
  {
    assert Untroubled(s, arrivals, c) && Untroubled(s, arrivals, d);
    if IdTaken(s.rows, s.stores[c].sighting.finding.id) { IdTakenByOwn(s, arrivals, c); }
  }

  lemma MoveCalm(s: State, w: World, arrivals: seq<Sighting>, c: nat, s': State)
    requires Inv(s) && Safe(w, arrivals) && Calm(s, w, arrivals) && c in s.stores && Moves(s, c, s')
    ensures Calm(s', w, arrivals)
  {
    SafeIds(w, arrivals);
    MoveReady(s, w, arrivals, c, s');
    forall d | d in s'.stores ensures Untroubled(s', arrivals, d) && (w.tenantKnown ==> !s'.stores[d].pc.Founding?) {
      MoveUntroubled(s, w, arrivals, c, s', d);
    }
  }

  /** Steps other than a store's own. */
  lemma OutsideCalm(s: State, w: World, arrivals: seq<Sighting>, step: Step, s': State)
    requires Safe(w, arrivals) && Calm(s, w, arrivals) && Allowed(step, w, arrivals)
    requires !step.Act? && s' == Apply(s, step)
    ensures Calm(s', w, arrivals)
  {
    forall d | d in s'.stores ensures Untroubled(s', arrivals, d) && (w.tenantKnown ==> !s'.stores[d].pc.Founding?) {
      assert d in s.stores ==> Untroubled(s, arrivals, d);
    }
  }

  lemma {:induction false} CalmAfter(w: World, arrivals: seq<Sighting>, steps: seq<Step>, n: nat, s: State)
    requires Safe(w, arrivals) && Among(steps, w, arrivals) && n <= |steps| && s == After(w, steps, n)
    ensures Calm(s, w, arrivals)
  {
    if n > 0 {
      var before, step := After(w, steps, n - 1), steps[n - 1];
      CalmAfter(w, arrivals, steps, n - 1, before);
      InvAt(w, steps, n - 1);
      assert Allowed(step, w, arrivals);
      if !step.Act? {
        OutsideCalm(before, w, arrivals, step, s);
      } else if step.c in before.stores {
        AdvanceMoves(before, step.c, s);
        MoveCalm(before, w, arrivals, step.c, s);
      }
    }
  }

  lemma Begin(w: World, arrivals: seq<Sighting>) returns (s: State)
    ensures s == Initial(w) && Leads(w, arrivals, s)
  {
    s := Initial(w);
    var none: seq<Step> := [];
    assert Among(none, w, arrivals) && s == After(w, none, |none|);
  }

  lemma Extend(w: World, arrivals: seq<Sighting>, s: State, step: Step) returns (s': State)
    requires Leads(w, arrivals, s) && Allowed(step, w, arrivals)
    ensures Leads(w, arrivals, s') && s' == Apply(s, step)
  {
    var steps :| Among(steps, w, arrivals) && s == After(w, steps, |steps|);
    AfterPrefix(w, steps, step, |steps|);
    s' := Apply(s, step);
    assert Among(steps + [step], w, arrivals);
    assert s' == After(w, steps + [step], |steps + [step]|);
  }

  lemma {:induction false} AfterPrefix(w: World, steps: seq<Step>, step: Step, n: nat)
    requires n <= |steps|
    ensures After(w, steps + [step], n) == After(w, steps, n)
  {
    if n > 0 { AfterPrefix(w, steps, step, n - 1); }
  }

  lemma Arrived(w: World, arrivals: seq<Sighting>, i: nat, j: nat) returns (s: State)
    requires i < |arrivals| && j < |arrivals| && i != j
    ensures Leads(w, arrivals, s)
    ensures s == Initial(w).(stores := map[i := Store(arrivals[i], Start), j := Store(arrivals[j], Start)])
  {
    s := Begin(w, arrivals);
    s := Extend(w, arrivals, s, Arrive(i, arrivals[i]));
    s := Extend(w, arrivals, s, Arrive(j, arrivals[j]));
  }

  /** A store that finds its tenant but no row for its finding. */
  lemma Look(w: World, arrivals: seq<Sighting>, s: State, i: nat) returns (s': State)
    requires Leads(w, arrivals, s) && i in s.stores && s.stores[i].pc.Start? && s.tenantKnown
    requires s.stores[i].Key() !in s.rows
    ensures Leads(w, arrivals, s') && s' == Goto(s, i, Inserting)
  {
    s' := Extend(w, arrivals, s, Act(i));
    s' := Extend(w, arrivals, s', Act(i));
  }

  /** The insert that comes first. */
  lemma InsertFirst(w: World, arrivals: seq<Sighting>, s: State, i: nat) returns (s': State)
    requires Leads(w, arrivals, s) && i in s.stores && s.rows == map[]
    requires s.stores[i].pc.Inserting? || (s.stores[i].pc.Founding? && !s.tenantKnown && !s.slugTaken)
    ensures Leads(w, arrivals, s') && s'.tenantKnown
    ensures s'.stores == s.stores[i := s.stores[i].(pc := Stored(s.stores[i].sighting.finding))]
    ensures s'.rows == map[s.stores[i].Key() := NewRow(s.nextRowId, s.stores[i].sighting)]
  {
    s' := Extend(w, arrivals, s, Act(i));
  }

  /** A store whose insert conflicts with something other than its own fingerprint. */
  lemma Lose(w: World, arrivals: seq<Sighting>, s: State, j: nat) returns (s': State)
    requires Leads(w, arrivals, s) && j in s.stores && s.stores[j].Key() !in s.rows
    requires (s.stores[j].pc.Founding? && (s.tenantKnown || s.slugTaken))
          || (s.stores[j].pc.Inserting? && IdTaken(s.rows, s.stores[j].sighting.finding.id))
    ensures Leads(w, arrivals, s') && s' == Goto(s, j, Failed)
  {
    s' := Conflict(w, arrivals, s, j);
    s' := Extend(w, arrivals, s', Act(j));
  }

  lemma Conflict(w: World, arrivals: seq<Sighting>, s: State, j: nat) returns (s': State)
    requires Leads(w, arrivals, s) && j in s.stores && s.stores[j].Key() !in s.rows
    requires (s.stores[j].pc.Founding? && (s.tenantKnown || s.slugTaken))
          || (s.stores[j].pc.Inserting? && IdTaken(s.rows, s.stores[j].sighting.finding.id))
    ensures Leads(w, arrivals, s') && s' == Goto(s, j, Recovering)
  {
    s' := Extend(w, arrivals, s, Act(j));
  }

  /** Of two arrivals under one id, the later finds the id taken, and then no row of its own. */
  lemma ClashFails(w: World, arrivals: seq<Sighting>, i: nat, j: nat) returns (s: State)
    requires w.tenantKnown && i < |arrivals| && j < |arrivals|
    requires arrivals[i].finding.id == arrivals[j].finding.id && Print(arrivals[i]) != Print(arrivals[j])
    ensures Leads(w, arrivals, s) && j in s.stores && s.stores[j].pc.Failed?
    ensures Print(arrivals[j]) !in s.rows
  {
    s := Arrived(w, arrivals, i, j);
    s := Look(w, arrivals, s, i);
    s := Look(w, arrivals, s, j);
    s := InsertFirst(w, arrivals, s, i);
    assert s.rows[Print(arrivals[i])].findingId == arrivals[j].finding.id;
    s := Lose(w, arrivals, s, j);
  }

  /**
   A store that must insert its tenant fails alone if the tenant's id is another tenant's slug, or if another
   part of the system inserts the tenant in between.
   */
  lemma LoneStoreFails(w: World, arrivals: seq<Sighting>, i: nat) returns (s: State)
    requires !w.tenantKnown && (w.slugTaken || w.others) && i < |arrivals|
    ensures Leads(w, arrivals, s) && i in s.stores && s.stores[i].pc.Failed? && s.rows == map[]
  {
    s := Begin(w, arrivals);
    s := Extend(w, arrivals, s, Arrive(i, arrivals[i]));
    s := Extend(w, arrivals, s, Act(i));
    if !w.slugTaken { s := Extend(w, arrivals, s, Found); }
    s := Lose(w, arrivals, s, i);
  }

  /**
   Two first stores of a tenant collide on the tenant's row. The recovery assumes the conflict was over the
   fingerprint: the loser finds no row of its own, raises, and its finding is lost.
   */
  lemma FirstStoresCollide(w: World, arrivals: seq<Sighting>, i: nat, j: nat) returns (s: State)
    requires !w.tenantKnown && !w.slugTaken
    requires i < |arrivals| && j < |arrivals| && Print(arrivals[i]) != Print(arrivals[j])
    ensures Leads(w, arrivals, s) && j in s.stores && s.stores[j].pc.Failed?
    ensures Print(arrivals[j]) !in s.rows
  {
    s := Arrived(w, arrivals, i, j);
    s := Extend(w, arrivals, s, Act(i));
    s := Extend(w, arrivals, s, Act(j));
    s := InsertFirst(w, arrivals, s, i);
    s := Lose(w, arrivals, s, j);
  }

  lemma ConflictsRecovered(w: World, arrivals: seq<Sighting>)
    requires Safe(w, arrivals)
    ensures !SomeStoreFails(w, arrivals)
  {
    forall s, c | Leads(w, arrivals, s) && c in s.stores ensures !s.stores[c].pc.Failed? {
      var steps :| Among(steps, w, arrivals) && s == After(w, steps, |steps|);
      CalmAfter(w, arrivals, steps, |steps|, s);
      assert Untroubled(s, arrivals, c);
    }
  }

  /**
   No interleaving of the arrivals fails a store if and only if the tenant exists beforehand and no two
   arrivals share an id under different fingerprints; or it does not, its id is no other tenant's slug, nothing
   else inserts tenants, and all arrivals have one fingerprint; or there are none.
   */
  lemma NoStoreFailsIff(w: World, arrivals: seq<Sighting>)
    ensures !SomeStoreFails(w, arrivals) <==> Safe(w, arrivals)
  {
    if Safe(w, arrivals) {
      ConflictsRecovered(w, arrivals);
    } else if w.tenantKnown {
      var i: nat, j: nat :| i < |arrivals| && j < |arrivals| && arrivals[i].finding.id == arrivals[j].finding.id
        && Print(arrivals[i]) != Print(arrivals[j]);
      var s := ClashFails(w, arrivals, i, j);
    } else if w.others || w.slugTaken {
      var s := LoneStoreFails(w, arrivals, 0);
    } else {
      var i: nat, j: nat :| i < |arrivals| && j < |arrivals| && Print(arrivals[i]) != Print(arrivals[j]);
      var s := FirstStoresCollide(w, arrivals, i, j);
    }
  }

  // ---------------------------------------------------------------- the recovery path is reached

  /**
   Any two sightings of one fingerprint can leave a row whose columns are the first one's and whose payload
   is merged: both look before either inserts.
   */
  lemma RecoveryLeavesColumns(a: Sighting, b: Sighting) returns (s: State)
    requires Print(a) == Print(b)
    ensures Reachable(s) && Print(a) in s.rows
    ensures var row := s.rows[Print(a)];
      && row.payload == Merge(a.finding, b.finding)
      && row.severity == a.finding.severity && row.confidence == a.finding.confidence
          && row.description == a.finding.description
      && row.firstSeen == a.seenAt && row.jobId == a.jobId && row.occurrences == 2
  {
    var w, arrivals := World(true, false, false), [a, b];
    s := Arrived(w, arrivals, 0, 1);
    s := Look(w, arrivals, s, 0);
    s := Look(w, arrivals, s, 1);
    s := InsertFirst(w, arrivals, s, 0);
    s := Recover(w, arrivals, s, 1);
    LeadsReachable(w, arrivals, s);
  }

  /** A store whose insert conflicts with its own fingerprint. */
  lemma Recover(w: World, arrivals: seq<Sighting>, s: State, j: nat) returns (s': State)
    requires Leads(w, arrivals, s) && j in s.stores && s.stores[j].Key() in s.rows && s.stores[j].pc.Inserting?
    ensures Leads(w, arrivals, s') && s.stores[j].Key() in s'.rows
    ensures s'.rows[s.stores[j].Key()] == RecoveredRow(s.rows[s.stores[j].Key()], s.stores[j].sighting)
  {
    s' := Extend(w, arrivals, s, Act(j));
    s' := Extend(w, arrivals, s', Act(j));
  }

  lemma LeadsReachable(w: World, arrivals: seq<Sighting>, s: State)
    requires Leads(w, arrivals, s)
    ensures Reachable(s)
  {
    var steps :| Among(steps, w, arrivals) && s == After(w, steps, |steps|);
  }
}
