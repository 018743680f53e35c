/**
 The job repository itself: a table of rows and one table of events for all jobs, both updated in place
 (src/shared_integration/sql_jobs.py, src/shared_integration/jobs.py). Each method is one transaction.
 */
module JobRepository {
  import opened Prelude
  import opened Findings
  import opened Jobs

  datatype EventRow = EventRow(jobId: string, entry: Entry)

  datatype Error = KeyError | IntegrityError

  /** The events of one job, in insertion order. */
  function LogOf(events: seq<EventRow>, id: string): Log {
    if events == [] then []
    else
      var last := events[|events| - 1];
      LogOf(events[..|events| - 1], id) + if last.jobId == id then [last.entry] else []
  }

  /** What `list_events` selects from a numbered log. */
  function EventsAfter(log: Log, after: nat, limit: nat): Log {
    if after >= |log| then [] else if |log| - after <= limit then log[after..] else log[after..after + limit]
  }

  /** The page holds the entries with the next sequences, and all of them unless the limit cuts it. */
  lemma EventsAfterIs(log: Log, after: nat, limit: nat)
    requires Numbered(log)
    ensures var page := EventsAfter(log, after, limit);
      && |page| <= limit
      && (forall i :: 0 <= i < |page| ==> page[i].sequence == after + 1 + i && page[i] in log)
      && (|page| < limit ==> forall entry :: entry in log && entry.sequence > after ==> entry in page)
  {
    var page := EventsAfter(log, after, limit);
    if |page| < limit {
      forall entry | entry in log && entry.sequence > after ensures entry in page {
        var i :| 0 <= i < |log| && log[i] == entry;
        assert page[i - after] == entry;
      }
    }
  }

  lemma LogOfAppend(events: seq<EventRow>, row: EventRow, id: string)
    ensures LogOf(events + [row], id) == LogOf(events, id) + if row.jobId == id then [row.entry] else []
  {
    assert (events + [row])[..|events|] == events;
  }

  lemma MaxSequenceAppend(log: Log, entry: Entry)
    ensures MaxSequence(log + [entry]) == if entry.sequence > MaxSequence(log) then entry.sequence else MaxSequence(log)
    ensures MaxSequence(log + []) == MaxSequence(log)
  {
    assert (log + [entry])[..|log|] == log;
    assert log + [] == log;
  }

  lemma {:induction false} LogOfPrefix(events: seq<EventRow>, n: nat, id: string)
    requires n <= |events|
    ensures LogOf(events[..n], id) <= LogOf(events, id)
  {
    if n == |events| {
      assert events[..n] == events;
    } else {
      LogOfPrefix(events[..|events| - 1], n, id);
      assert events[..|events| - 1][..n] == events[..n];
    }
  }

  lemma EventsAfterGrows(log: Log, entry: Entry, after: nat, limit: nat)
    requires Numbered(log + [entry]) && Numbered(log)
    ensures EventsAfter(log + [entry], after, limit) ==
      EventsAfter(log, after, limit) +
      if entry.sequence > after && |EventsAfter(log, after, limit)| < limit then [entry] else []
  {
    assert (log + [entry])[|log|].sequence == |log| + 1;
  }

  lemma {:induction false} LogOfStrange(events: seq<EventRow>, id: string)
    requires forall i :: 0 <= i < |events| ==> events[i].jobId != id
    ensures LogOf(events, id) == []
  {
    if events != [] { LogOfStrange(events[..|events| - 1], id); }
  }

  /** `page` is what the first `n` events contribute to `list_events`. */
  predicate PageOf(page: Log, events: seq<EventRow>, n: nat, id: string, after: nat, limit: nat) {
    && n <= |events| && Numbered(LogOf(events[..n], id))
    && page == EventsAfter(LogOf(events[..n], id), after, limit)
  }

  lemma PageGrows(page: Log, events: seq<EventRow>, n: nat, id: string, after: nat, limit: nat)
    requires n < |events| && Numbered(LogOf(events, id)) && PageOf(page, events, n, id, after, limit)
    ensures PageOf(if events[n].jobId == id && events[n].entry.sequence > after && |page| < limit
                   then page + [events[n].entry] else page,
                   events, n + 1, id, after, limit)
  {
    assert events[..n + 1] == events[..n] + [events[n]];
    LogOfAppend(events[..n], events[n], id);
    LogOfPrefix(events, n + 1, id);
    if events[n].jobId == id {
      EventsAfterGrows(LogOf(events[..n], id), events[n].entry, after, limit);
    }
  }

  /** One job as the transactions on single jobs see it. */
  function JobAt(rows: map<string, Row>, events: seq<EventRow>, id: string): Job
    requires id in rows
  {
    Job(rows[id], LogOf(events, id))
  }

  predicate KeysUnique(rows: map<string, Row>) {
    forall a, b :: a in rows && b in rows && a != b && rows[a].idempotencyKey.Some? ==>
      rows[a].tenant != rows[b].tenant || rows[a].idempotencyKey != rows[b].idempotencyKey
  }

  /** The keys are unique, events belong to rows, and every log replays to its row. */
  ghost predicate TableOk(rows: map<string, Row>, events: seq<EventRow>) {
    && KeysUnique(rows)
    && (forall i :: 0 <= i < |events| ==> events[i].jobId in rows)
    && (forall id {:trigger JobAt(rows, events, id)} :: id in rows ==> Agrees(JobAt(rows, events, id)))
  }

  lemma LogsGrow(events: seq<EventRow>, added: EventRow)
    ensures LogOf(events + [added], added.jobId) == LogOf(events, added.jobId) + [added.entry]
    ensures forall other :: other != added.jobId ==> LogOf(events + [added], other) == LogOf(events, other)
  {
    LogOfAppend(events, added, added.jobId);
    forall other | other != added.jobId ensures LogOf(events + [added], other) == LogOf(events, other) {
      LogOfAppend(events, added, other);
    }
  }

  lemma KeysKept(rows: map<string, Row>, id: string, row: Row)
    requires KeysUnique(rows)
    requires if id in rows then row.tenant == rows[id].tenant && row.idempotencyKey == rows[id].idempotencyKey
             else row.idempotencyKey.Some? ==> forall other :: other in rows ==>
                    rows[other].tenant != row.tenant || rows[other].idempotencyKey != row.idempotencyKey
    ensures KeysUnique(rows[id := row])
  {
  }

  /** Adding one event and its job's new row keeps the table, given that the job agrees afterwards. */
  lemma TableKept(rows: map<string, Row>, events: seq<EventRow>, row: Row, added: EventRow)
    requires TableOk(rows, events) && KeysUnique(rows[added.jobId := row])
    requires Agrees(Job(row, LogOf(events, added.jobId) + [added.entry]))
    ensures TableOk(rows[added.jobId := row], events + [added])
    ensures JobAt(rows[added.jobId := row], events + [added], added.jobId)
        == Job(row, LogOf(events, added.jobId) + [added.entry])
    ensures forall other :: other in rows && other != added.jobId ==>
      JobAt(rows[added.jobId := row], events + [added], other) == JobAt(rows, events, other)
  {
    var rows', events' := rows[added.jobId := row], events + [added];
    LogsGrow(events, added);
    forall id | id in rows' ensures Agrees(JobAt(rows', events', id)) {
      if id != added.jobId {
        assert Agrees(JobAt(rows, events, id));
        assert JobAt(rows', events', id) == JobAt(rows, events, id);
      }
    }
  }

  /** The write keeps the row's keys, and the written job agrees. */
  ghost predicate Writable(rows: map<string, Row>, events: seq<EventRow>, id: string, row: Row, event: Event) {
    && TableOk(rows, events) && id in rows
    && row.tenant == rows[id].tenant && row.idempotencyKey == rows[id].idempotencyKey
    && Agrees(Job(row, Append(LogOf(events, id), event)))
  }

  /** The table after the write: one job has its new row and one more event, the others are unchanged. */
  ghost predicate Written(rows: map<string, Row>, events: seq<EventRow>,
                          rows': map<string, Row>, events': seq<EventRow>, id: string, row: Row, event: Event)
  {
    && TableOk(rows', events') && rows'.Keys == rows.Keys && id in rows
    && JobAt(rows', events', id) == Job(row, Append(LogOf(events, id), event))
    && forall other :: other in rows && other != id ==> JobAt(rows', events', other) == JobAt(rows, events, other)
  }

  lemma WritableWritten(rows: map<string, Row>, events: seq<EventRow>,
                        rows': map<string, Row>, events': seq<EventRow>, id: string, row: Row, event: Event)
    requires Writable(rows, events, id, row, event) && rows' == rows[id := row]
    requires events' == events + [EventRow(id, Entry(MaxSequence(LogOf(events, id)) + 1, event))]
    ensures Written(rows, events, rows', events', id, row, event)
  {
    KeysKept(rows, id, row);
    TableKept(rows, events, row, EventRow(id, Entry(MaxSequence(LogOf(events, id)) + 1, event)));
  }

  /** What a write leaves of each job. */
  lemma JobsRewritten(rows: map<string, Row>, events: seq<EventRow>, rows': map<string, Row>, events': seq<EventRow>,
                      id: string, row: Row, event: Event)
    requires id in rows && rows' == rows[id := row]
    requires events' == events + [EventRow(id, Entry(MaxSequence(LogOf(events, id)) + 1, event))]
    ensures JobAt(rows', events', id) == Job(row, Append(LogOf(events, id), event))
    ensures forall other :: other in rows && other != id ==> JobAt(rows', events', other) == JobAt(rows, events, other)
  {
    LogsGrow(events, events'[|events|]);
  }

  /** A write that keeps the row's keys keeps the table exactly if the job it leaves agrees with its log. */
  lemma Rewritten(rows: map<string, Row>, events: seq<EventRow>, rows': map<string, Row>, events': seq<EventRow>,
                  id: string, row: Row, event: Event)
    requires TableOk(rows, events) && id in rows && rows' == rows[id := row]
    requires row.tenant == rows[id].tenant && row.idempotencyKey == rows[id].idempotencyKey
    requires events' == events + [EventRow(id, Entry(MaxSequence(LogOf(events, id)) + 1, event))]
    ensures TableOk(rows', events') <==> Agrees(Job(row, Append(LogOf(events, id), event)))
  {
    JobsRewritten(rows, events, rows', events', id, row, event);
    if Agrees(JobAt(rows', events', id)) {
      WritableWritten(rows, events, rows', events', id, row, event);
    }
  }

  lemma StatusWritten(rows: map<string, Row>, events: seq<EventRow>, rows': map<string, Row>, events': seq<EventRow>,
                      id: string, status: Status, resultCount: Option<nat>, code: Option<string>,
                      message: Option<string>)
    requires TableOk(rows, events) && id in rows
    requires var job := Transition(JobAt(rows, events, id), status, resultCount, code, message);
      && rows' == rows[id := job.row]
      && events' == events + [EventRow(id, job.log[|job.log| - 1])]
    ensures TableOk(rows', events') <==> status != Running
    ensures JobAt(rows', events', id) == Transition(JobAt(rows, events, id), status, resultCount, code, message)
    ensures forall other :: other in rows && other != id ==> JobAt(rows', events', other) == JobAt(rows, events, other)
  {
    var job := JobAt(rows, events, id);
    assert Agrees(job);
    TransitionAgrees(job, status, resultCount, code, message);
    JobsRewritten(rows, events, rows', events', id, rows'[id], StatusEvent(status, FaultOf(code, message)));
    Rewritten(rows, events, rows', events', id, rows'[id], StatusEvent(status, FaultOf(code, message)));
  }

  /** Appending an event of any kind: the tables stay in agreement exactly if the event does not contradict its row. */
  lemma EventAdded(rows: map<string, Row>, events: seq<EventRow>, events': seq<EventRow>, id: string, event: Event)
    requires TableOk(rows, events) && id in rows
    requires events' == events + [EventRow(id, Entry(MaxSequence(LogOf(events, id)) + 1, event))]
    ensures MaxSequence(LogOf(events, id)) == |LogOf(events, id)|
    ensures TableOk(rows, events') <==> Repeats(rows[id], event)
    ensures JobAt(rows, events', id) == AppendEvent(JobAt(rows, events, id), event)
    ensures forall other :: other in rows && other != id ==> JobAt(rows, events', other) == JobAt(rows, events, other)
  {
    var job := JobAt(rows, events, id);
    assert Agrees(job);
    AppendEventAgrees(job, event);
    NumberedMax(job.log);
    assert rows[id := rows[id]] == rows;
    JobsRewritten(rows, events, rows, events', id, rows[id], event);
    Rewritten(rows, events, rows, events', id, rows[id], event);
  }

  method SelectEvents(events: seq<EventRow>, id: string, after: nat, limit: nat) returns (page: Log)
    requires Numbered(LogOf(events, id))
    ensures page == EventsAfter(LogOf(events, id), after, limit)
  {
    page := [];
    var n := 0;
    while n < |events|
      invariant PageOf(page, events, n, id, after, limit)
    {
      PageGrows(page, events, n, id, after, limit);
      if events[n].jobId == id && events[n].entry.sequence > after && |page| < limit {
        page := page + [events[n].entry];
      }
      n := n + 1;
    }
    assert events[..n] == events;
  }

  class Repository {
    var rows: map<string, Row>
    var events: seq<EventRow>

    ghost function JobOf(id: string): Job
      requires id in rows
      reads this
    {
      JobAt(rows, events, id)
    }

    ghost predicate Valid()
      reads this
    {
      TableOk(rows, events)
    }

    constructor ()
      ensures Valid() && rows == map[] && events == []
    {
      rows, events := map[], [];
    }

    predicate Has(tenant: string, id: string)
      reads this
    {
      id in rows && rows[id].tenant == tenant
    }

    /** `COALESCE(MAX(sequence), 0) + 1` over the events of one job. */
    method NextSequence(id: string) returns (next: nat)
      ensures next == MaxSequence(LogOf(events, id)) + 1
    {
      var max, n := 0, 0;
      while n < |events|
        invariant 0 <= n <= |events|
        invariant max == MaxSequence(LogOf(events[..n], id))
      {
        assert events[..n + 1] == events[..n] + [events[n]];
        LogOfAppend(events[..n], events[n], id);
        MaxSequenceAppend(LogOf(events[..n], id), events[n].entry);
        if events[n].jobId == id && events[n].entry.sequence > max { max := events[n].entry.sequence; }
        n := n + 1;
      }
      assert events[..n] == events;
      next := max + 1;
    }

    /** The bare write, which keeps no invariant by itself. */
    method Put(id: string, row: Row, event: Event) returns (entry: Entry)
      modifies this
      ensures entry == Entry(MaxSequence(LogOf(old(events), id)) + 1, event)
      ensures rows == old(rows)[id := row] && events == old(events) + [EventRow(id, entry)]
    {
      var next := NextSequence(id);
      entry := Entry(next, event);
      rows, events := rows[id := row], events + [EventRow(id, entry)];
    }

    /** Writes one row and appends one event to its log; every other job stays as it was. */
    method Write(id: string, row: Row, event: Event) returns (entry: Entry)
      requires Writable(rows, events, id, row, event)
      modifies this
      ensures entry == Entry(MaxSequence(old(JobOf(id)).log) + 1, event)
      ensures events == old(events) + [EventRow(id, entry)]
      ensures rows == old(rows)[id := row]
      ensures Written(old(rows), old(events), rows, events, id, row, event)
    {
      ghost var before, log := rows, events;
      entry := Put(id, row, event);
      WritableWritten(before, log, rows, events, id, row, event);
    }

    method Get(tenant: string, id: string) returns (row: Option<Row>)
      ensures row == if Has(tenant, id) then Some(rows[id]) else None
    {
      row := if Has(tenant, id) then Some(rows[id]) else None;
    }

    method FindByIdempotencyKey(tenant: string, key: string) returns (found: Option<string>)
      requires Valid()
      ensures found.Some? ==> Has(tenant, found.value) && rows[found.value].idempotencyKey == Some(key)
      ensures found.None? <==> forall id :: id in rows ==>
          rows[id].tenant != tenant || rows[id].idempotencyKey != Some(key)
    {
      found := None;
      var rest := rows.Keys;
      while rest != {}
        invariant rest <= rows.Keys && found.None?
        invariant forall id :: id in rows.Keys - rest ==>
            rows[id].tenant != tenant || rows[id].idempotencyKey != Some(key)
        decreases |rest|
      {
        var id :| id in rest;
        if rows[id].tenant == tenant && rows[id].idempotencyKey == Some(key) { return Some(id); }
        rest := rest - {id};
      }
    }

    /**
     `create` when no other creator interferes: the tenant's match for the key, or a queued job under
     the fresh id. `fresh` is the identifier that `uuid4` supplies.
     */
    method CreateJob(tenant: string, source: Source, payload: string, key: Option<string>, freshId: string)
      returns (id: string, created: bool)
      requires Valid() && freshId !in rows
      modifies this
      ensures Valid() && Has(tenant, id)
      ensures created <==> key.None? || forall other :: other in old(rows) ==>
                old(rows)[other].tenant != tenant || old(rows)[other].idempotencyKey != key
      ensures rows[id].tenant == tenant && rows[id].idempotencyKey == key
      ensures created ==>
        && id == freshId
        && rows == old(rows)[id := Row(tenant, source, payload, key, None, Queued, 0, false, 0, None, None)]
        && events == old(events) + [EventRow(id, Entry(1, StatusEvent(Queued, None)))]
      ensures created ==> JobOf(id) == Create(tenant, source, payload, key)
      ensures !created ==> rows == old(rows) && events == old(events) && id in old(rows)
      ensures forall other :: other in old(rows) ==> JobOf(other) == old(JobOf(other))
    {
      if key.Some? {
        var existing := FindByIdempotencyKey(tenant, key.value);
        if existing.Some? {
          return existing.value, false;
        }
      }
      CreateAgrees(tenant, source, payload, key);
      var row := Row(tenant, source, payload, key, None, Queued, 0, false, 0, None, None);
      var entry := Entry(1, StatusEvent(Queued, None));
      LogOfStrange(events, freshId);
      KeysKept(rows, freshId, row);
      TableKept(rows, events, row, EventRow(freshId, entry));
      rows := rows[freshId := row];
      events := events + [EventRow(freshId, entry)];
      id, created := freshId, true;
    }

    /** `mark_running`: false when no row matched the guard. */
    method Claim(tenant: string, id: string, requireQueued: bool) returns (claimed: bool)
      requires Valid()
      modifies this
      ensures Valid() && rows.Keys == old(rows.Keys)
      ensures claimed <==> old(Has(tenant, id)) && Claimable(old(rows)[id], requireQueued)
      ensures claimed ==>
        var row := old(rows)[id];
        && rows == old(rows)[id := row.(status := Running, attempt := row.attempt + 1,
                                        errorCode := None, errorMessage := None)]
        && events == old(events) + [EventRow(id, Entry(|old(JobOf(id)).log| + 1, StatusEvent(Running, None)))]
      ensures claimed ==> MarkRunning(old(JobOf(id)), requireQueued) == Some(JobOf(id))
      ensures !claimed ==> rows == old(rows) && events == old(events)
      ensures forall other :: other in old(rows) && other != id ==> JobOf(other) == old(JobOf(other))
    {
      var expected := if requireQueued then Queued else Running;
      if !Has(tenant, id) || rows[id].status != expected || rows[id].cancelRequested { return false; }
      MarkRunningAgrees(JobOf(id), requireQueued);
      NumberedMax(JobOf(id).log);
      var row := rows[id];
      var _ := Write(id, row.(status := Running, attempt := row.attempt + 1, errorCode := None, errorMessage := None),
            StatusEvent(Running, None));
      claimed := true;
    }

    /**
     `transition` overwrites the status whatever it was. Writing `Running` this way would break the replay
     of the attempt count; every other status keeps it.
     */
    method SetStatus(tenant: string, id: string, status: Status, resultCount: Option<nat>,
                     code: Option<string>, message: Option<string>) returns (result: Result<(), Error>)
      requires Valid()
      modifies this
      ensures Valid() <==> result.Raised? || status != Running
      ensures rows.Keys == old(rows.Keys)
      ensures result.Ok? <==> old(Has(tenant, id))
      ensures result.Ok? ==> JobOf(id) == Transition(old(JobOf(id)), status, resultCount, code, message)
      ensures result.Ok? ==>
        var row := old(rows)[id];
        && rows == old(rows)[id := row.(
                     status := status, errorCode := code, errorMessage := message,
                     resultCount := if resultCount.Some? then resultCount.value else row.resultCount)]
        && events == old(events) + [EventRow(id, Entry(|old(JobOf(id)).log| + 1, StatusEvent(status,
                       if code.Some? && code.value != "" then Some(Fault(code.value, message)) else None)))]
      ensures result.Raised? ==> result.error == KeyError && rows == old(rows) && events == old(events)
      ensures forall other :: other in old(rows) && other != id ==> JobOf(other) == old(JobOf(other))
    {
      if !Has(tenant, id) { return Raised(KeyError); }
      NumberedMax(JobOf(id).log);
      var row := rows[id].(status := status,
                           resultCount := if resultCount.Some? then resultCount.value else rows[id].resultCount,
                           errorCode := code, errorMessage := message);
      var entry := Put(id, row, StatusEvent(status, FaultOf(code, message)));
      assert rows[id] == Transition(old(JobOf(id)), status, resultCount, code, message).row;
      StatusWritten(old(rows), old(events), rows, events, id, status, resultCount, code, message);
      result := Ok(());
    }

    /** `append_event` takes any kind of event; one that contradicts the row breaks the replay of its log. */
    method AddEvent(tenant: string, id: string, event: Event) returns (result: Result<Entry, Error>)
      requires Valid()
      modifies this`events
      ensures result.Ok? <==> old(Has(tenant, id))
      ensures Valid() <==> result.Raised? || Repeats(rows[id], event)
      ensures result.Ok? ==> JobOf(id) == AppendEvent(old(JobOf(id)), event)
                             && result.value == Entry(|old(JobOf(id)).log| + 1, event)
      ensures result.Raised? ==> result.error == KeyError && events == old(events)
      ensures result.Ok? ==> events == old(events) + [EventRow(id, result.value)] && result.value.event == event
      ensures forall other :: other in old(rows) && other != id ==> JobOf(other) == old(JobOf(other))
    {
      if !Has(tenant, id) { return Raised(KeyError); }
      var next := NextSequence(id);
      var entry := Entry(next, event);
      EventAdded(rows, events, events + [EventRow(id, entry)], id, event);
      events := events + [EventRow(id, entry)];
      result := Ok(entry);
    }

    /** Events of one job with a greater sequence, in order, at most `limit` of them. */
    method ListEvents(tenant: string, id: string, after: nat, limit: nat) returns (page: Log)
      requires Valid()
      ensures page == if Has(tenant, id) then EventsAfter(JobOf(id).log, after, limit) else []
    {
      if !Has(tenant, id) { return []; }
      assert Agrees(JobOf(id));
      page := SelectEvents(events, id, after, limit);
    }

    method Cancel(tenant: string, id: string) returns (result: Result<Row, Error>)
      requires Valid()
      modifies this
      ensures Valid() && rows.Keys == old(rows.Keys)
      ensures result.Ok? <==> old(Has(tenant, id))
      ensures result.Ok? ==> JobOf(id) == RequestCancel(old(JobOf(id))) && result.value == rows[id]
      ensures result.Ok? ==>
        var row, number := old(rows)[id], |old(JobOf(id)).log| + 1;
        match row.status
        case Queued =>
          && rows == old(rows)[id := row.(status := Cancelled, cancelRequested := true)]
          && events == old(events) + [EventRow(id, Entry(number, CancelEvent(Cancelled)))]
        case Running =>
          && rows == old(rows)[id := row.(cancelRequested := true)]
          && events == old(events) + [EventRow(id, Entry(number, CancelEvent(Running)))]
        case _ => rows == old(rows) && events == old(events)
      ensures result.Raised? ==> result.error == KeyError && rows == old(rows) && events == old(events)
      ensures forall other :: other in old(rows) && other != id ==> JobOf(other) == old(JobOf(other))
    {
      if !Has(tenant, id) { return Raised(KeyError); }
      var row := rows[id];
      NumberedMax(JobOf(id).log);
      if !row.status.Terminal() {
        RequestCancelAgrees(JobOf(id));
        var next := if row.status == Queued then Cancelled else row.status;
        var _ := Write(id, row.(status := next, cancelRequested := true), CancelEvent(next));
      }
      result := Ok(rows[id]);
    }
  }
}
