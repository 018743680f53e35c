/**
 The server-sent event stream of one job (src/shared_integration/api_v1.py). Each pass of its loop makes
 two separate reads of the repository, the events and then the job, and writers act in between.
 */
module EventStream {
  import opened Prelude
  import opened Jobs
  import opened JobRepository

  /** What one pass reads: the log when it lists events, then the job, whose log may have grown to `later`. */
  datatype Reading = Reading(log: Log, status: Option<Status>, ghost later: Log)

  datatype Item = Data(entry: Entry) | Heartbeat

  const PAGE := 1000
  const IDLE_TICKS := 60

  /** The repository only appends to a log. */
  ghost predicate Growing(readings: seq<Reading>) {
    && (forall i :: 0 <= i < |readings| ==> Numbered(readings[i].log) && readings[i].log <= readings[i].later)
    && (forall i :: 0 < i < |readings| ==> readings[i - 1].later <= readings[i].log)
  }

  function Entries(items: seq<Item>): Log {
    if items == [] then []
    else
      var last := items[|items| - 1];
      Entries(items[..|items| - 1]) + if last.Data? then [last.entry] else []
  }

  lemma {:induction false} EntriesAppend(items: seq<Item>, more: seq<Item>)
    ensures Entries(items + more) == Entries(items) + Entries(more)
  {
    if more == [] {
      assert items + more == items;
    } else {
      EntriesAppend(items, more[..|more| - 1]);
      assert (items + more)[..|items + more| - 1] == items + more[..|more| - 1];
    }
  }

  function ItemsOf(page: Log): seq<Item> {
    seq(|page|, i requires 0 <= i < |page| => Data(page[i]))
  }

  lemma {:induction false} EntriesOfItems(page: Log)
    ensures Entries(ItemsOf(page)) == page
  {
    if page != [] {
      EntriesOfItems(page[..|page| - 1]);
      assert ItemsOf(page)[..|page| - 1] == ItemsOf(page[..|page| - 1]);
    }
  }

  /** The sequence number reached after the first `n` passes. */
  function Reached(after: nat, readings: seq<Reading>, n: nat): nat
    requires n <= |readings|
  {
    if n == 0 then after
    else
      var before := Reached(after, readings, n - 1);
      before + |EventsAfter(readings[n - 1].log, before, PAGE)|
  }

  /** A pass ends the stream when the job is gone, or terminal with nothing new to send. */
  predicate Ends(sequence: nat, reading: Reading) {
    reading.status.None? || (reading.status.value.Terminal() && EventsAfter(reading.log, sequence, PAGE) == [])
  }

  predicate EndsAt(after: nat, readings: seq<Reading>, i: nat)
    requires i < |readings|
  {
    Ends(Reached(after, readings, i), readings[i])
  }

  /** Pass `i` finds no new event. */
  predicate Quiet(after: nat, readings: seq<Reading>, i: nat)
    requires i < |readings|
  {
    |readings[i].log| <= Reached(after, readings, i)
  }

  /** How many of the first `n` passes, counted back from the last of them, are quiet without interruption. */
  function QuietRun(after: nat, readings: seq<Reading>, n: nat): (run: nat)
    requires n <= |readings|
    ensures run <= n
  {
    if n == 0 || !Quiet(after, readings, n - 1) then 0 else QuietRun(after, readings, n - 1) + 1
  }

  /**
   A heartbeat follows pass `i` at the end of each full sixty quiet passes in a row, unless that pass ends the
   stream.
   */
  predicate BeatsAt(after: nat, readings: seq<Reading>, i: nat)
    requires i < |readings|
  {
    var run := QuietRun(after, readings, i + 1);
    run > 0 && run % 60 == 0 && !EndsAt(after, readings, i)
  }

  /** All that the first `n` passes send. */
  function Transcript(after: nat, readings: seq<Reading>, n: nat): seq<Item>
    requires n <= |readings|
  {
    if n == 0 then []
    else
      Transcript(after, readings, n - 1)
      + ItemsOf(EventsAfter(readings[n - 1].log, Reached(after, readings, n - 1), PAGE))
      + if BeatsAt(after, readings, n - 1) then [Heartbeat] else []
  }

  /** The run of quiet passes before pass `n` reaches back as far as no pass listed an event, and no further. */
  lemma {:induction false} QuietRunIs(after: nat, readings: seq<Reading>, n: nat)
    requires n <= |readings|
    ensures var run := QuietRun(after, readings, n);
      && (forall i :: n - run <= i < n ==> Quiet(after, readings, i))
      && (run < n ==> !Quiet(after, readings, n - run - 1))
  {
    if n > 0 { QuietRunIs(after, readings, n - 1); }
  }

  /** So a heartbeat follows a pass that does not end the stream and closes a full number of sixty quiet ones. */
  lemma BeatsIff(after: nat, readings: seq<Reading>, i: nat)
    requires i < |readings|
    ensures BeatsAt(after, readings, i) <==>
      !EndsAt(after, readings, i) && exists m: nat :: ClosesSixties(after, readings, i, m)
  {
    var run := QuietRun(after, readings, i + 1);
    QuietRunIs(after, readings, i + 1);
    if run > 0 && run % 60 == 0 { assert ClosesSixties(after, readings, i, run / 60); }
    if m: nat :| ClosesSixties(after, readings, i, m) { assert run == 60 * m; }
  }

  /** The `60 * m` passes up to `i` are quiet, and none or a pass with events comes before them. */
  predicate ClosesSixties(after: nat, readings: seq<Reading>, i: nat, m: nat)
    requires i < |readings|
  {
    && 1 <= m && 60 * m <= i + 1
    && (forall k :: i + 1 - 60 * m <= k <= i ==> Quiet(after, readings, k))
    && (60 * m < i + 1 ==> !Quiet(after, readings, i - 60 * m))
  }

  /** The part of `log` with sequence numbers above `after`, up to `end`. */
  function Block(log: Log, after: nat, end: nat): Log {
    if after <= end <= |log| then log[after..end] else []
  }

  lemma BlockGrows(log: Log, log': Log, after: nat, end: nat)
    requires log <= log' && (after == end || after <= end <= |log|)
    ensures var page := EventsAfter(log', end, PAGE);
      && Block(log', after, end + |page|) == Block(log, after, end) + page
      && (after == end + |page| || after <= end + |page| <= |log'|)
  {
    var page := EventsAfter(log', end, PAGE);
    if after <= end <= |log| {
      assert log'[after..end] == log[after..end];
      assert page == [] || log'[after..end + |page|] == log'[after..end] + page;
    }
  }

  /** What has been sent after `passes` passes: a contiguous block of the log, in order, right after `after`. */
  ghost predicate Sent(items: seq<Item>, after: nat, readings: seq<Reading>, passes: nat)
    requires passes <= |readings|
  {
    && (passes == 0 ==> items == [])
    && (passes > 0 ==>
          var log, sequence := readings[passes - 1].log, Reached(after, readings, passes);
          && Entries(items) == Block(log, after, sequence)
          && (sequence == after || after <= sequence <= |log|))
  }

  /**
   The stream after `Last-Event-ID`, over the readings its passes make. It sends what `Sent` says, and
   ends at the first pass that finds the job gone, or terminal with nothing new to send.
   */
  method Stream(after: nat, readings: seq<Reading>) returns (items: seq<Item>, passes: nat, ended: bool)
    requires Growing(readings)
    ensures passes <= |readings| && Sent(items, after, readings, passes)
    ensures items == Transcript(after, readings, passes)
    ensures !ended ==> passes == |readings|
    ensures forall i :: 0 <= i < passes ==> (EndsAt(after, readings, i) <==> ended && i == passes - 1)
  {
    items, passes, ended := [], 0, false;
    var sequence: nat, idle: nat := after, 0;
    while passes < |readings| && !ended
      invariant passes <= |readings| && Sent(items, after, readings, passes)
      invariant sequence == Reached(after, readings, passes)
      invariant items == Transcript(after, readings, passes)
      invariant !ended ==> idle == QuietRun(after, readings, passes) % 60
      invariant StoppedAt(after, readings, passes, ended)
    {
      items, sequence, idle, ended := Pass(readings[passes], items, sequence, idle, after, readings, passes);
      passes := passes + 1;
    }
    EndsExactly(after, readings, passes, ended);
  }

  /** One turn of the loop: send what is new, then look at the job, then count idle turns. */
  method Pass(reading: Reading, sent: seq<Item>, sequence: nat, idle: nat,
              ghost after: nat, ghost readings: seq<Reading>, ghost passes: nat)
    returns (items: seq<Item>, reached: nat, ticks: nat, ended: bool)
    requires Growing(readings) && passes < |readings| && reading == readings[passes]
    requires Sent(sent, after, readings, passes) && sequence == Reached(after, readings, passes)
    requires sent == Transcript(after, readings, passes) && idle == QuietRun(after, readings, passes) % 60
    ensures items == Transcript(after, readings, passes + 1)
    ensures !ended ==> ticks == QuietRun(after, readings, passes + 1) % 60
    ensures Sent(items, after, readings, passes + 1) && reached == Reached(after, readings, passes + 1)
    ensures ended <==> EndsAt(after, readings, passes)
    ensures ended <==> reading.status in {None, Some(Succeeded), Some(Failed), Some(Cancelled), Some(TimedOut)}
                       && (reading.status == None || |reading.log| <= sequence)
  {
    var events := EventsAfter(reading.log, sequence, PAGE);
    items := sent + ItemsOf(events);
    reached := sequence + |events|;
    ticks := idle;
    ended := reading.status.None? || (reading.status.value.Terminal() && events == []);
    PassBeats(after, readings, passes, idle);
    if !ended { items, ticks := Beat(items, if events != [] then 0 else idle + 1); }
    PassDone(sent, after, readings, passes, items);
  }

  /** Counting quiet passes up to sixty and starting again keeps their number modulo sixty. */
  lemma PassBeats(after: nat, readings: seq<Reading>, passes: nat, idle: nat)
    requires passes < |readings| && idle == QuietRun(after, readings, passes) % 60
    ensures var events := EventsAfter(readings[passes].log, Reached(after, readings, passes), PAGE);
      var ticks := if events != [] then 0 else idle + 1;
      && (BeatsAt(after, readings, passes) <==> ticks >= IDLE_TICKS && !EndsAt(after, readings, passes))
      && QuietRun(after, readings, passes + 1) % 60 == (if ticks >= IDLE_TICKS then 0 else ticks)
      && Transcript(after, readings, passes + 1)
          == Transcript(after, readings, passes) + ItemsOf(events)
             + if BeatsAt(after, readings, passes) then [Heartbeat] else []
  {
    Wraps(QuietRun(after, readings, passes));
  }

  lemma Wraps(run: nat)
    ensures (run + 1) % 60 == if run % 60 + 1 >= 60 then 0 else run % 60 + 1
  {
  }

  /** One of the first `n` passes ends the stream. */
  predicate EndsBefore(after: nat, readings: seq<Reading>, n: nat)
    requires n <= |readings|
  {
    n > 0 && (EndsBefore(after, readings, n - 1) || EndsAt(after, readings, n - 1))
  }

  lemma {:induction false} EndsBeforeIs(after: nat, readings: seq<Reading>, n: nat)
    requires n <= |readings|
    ensures EndsBefore(after, readings, n) <==> exists i :: 0 <= i < n && EndsAt(after, readings, i)
  {
    if n > 0 { EndsBeforeIs(after, readings, n - 1); }
  }

  /** `ended` says whether the last of the first `passes` passes ends the stream; none before it does. */
  predicate StoppedAt(after: nat, readings: seq<Reading>, passes: nat, ended: bool)
    requires passes <= |readings|
  {
    if ended then passes > 0 && EndsAt(after, readings, passes - 1) && !EndsBefore(after, readings, passes - 1)
    else !EndsBefore(after, readings, passes)
  }

  lemma EndsExactly(after: nat, readings: seq<Reading>, passes: nat, ended: bool)
    requires passes <= |readings| && StoppedAt(after, readings, passes, ended)
    ensures forall i :: 0 <= i < passes ==> (EndsAt(after, readings, i) <==> ended && i == passes - 1)
  {
    EndsBeforeIs(after, readings, if ended then passes - 1 else passes);
  }

  /** One pass, with or without a heartbeat after its events. */
  lemma PassDone(items: seq<Item>, after: nat, readings: seq<Reading>, passes: nat, items': seq<Item>)
    requires Growing(readings) && passes < |readings| && Sent(items, after, readings, passes)
    requires var sent := items + ItemsOf(EventsAfter(readings[passes].log, Reached(after, readings, passes), PAGE));
      items' == sent || items' == sent + [Heartbeat]
    ensures Sent(items', after, readings, passes + 1)
    ensures var sequence := Reached(after, readings, passes);
      Reached(after, readings, passes + 1) == sequence + |EventsAfter(readings[passes].log, sequence, PAGE)|
  {
    PassSends(items, after, readings, passes);
    var sent := items + ItemsOf(EventsAfter(readings[passes].log, Reached(after, readings, passes), PAGE));
    HeartbeatSends(sent, after, readings, passes + 1);
  }

  /** After enough idle passes a heartbeat is sent and the count starts again. */
  method Beat(sent: seq<Item>, ticks: nat) returns (items: seq<Item>, idle: nat)
    ensures items == if ticks >= IDLE_TICKS then sent + [Heartbeat] else sent
    ensures idle == if ticks >= IDLE_TICKS then 0 else ticks
  {
    items, idle := sent, ticks;
    if idle >= IDLE_TICKS {
      idle := 0;
      items := items + [Heartbeat];
    }
  }

  lemma PassSends(items: seq<Item>, after: nat, readings: seq<Reading>, passes: nat)
    requires Growing(readings) && passes < |readings| && Sent(items, after, readings, passes)
    ensures var sequence := Reached(after, readings, passes);
      var events := EventsAfter(readings[passes].log, sequence, PAGE);
      && Reached(after, readings, passes + 1) == sequence + |events|
      && Sent(items + ItemsOf(events), after, readings, passes + 1)
  {
    var sequence := Reached(after, readings, passes);
    var log := readings[passes].log;
    var before := if passes == 0 then [] else readings[passes - 1].log;
    var events := EventsAfter(log, sequence, PAGE);
    assert before <= log && Entries(items) == Block(before, after, sequence);
    BlockGrows(before, log, after, sequence);
    assert Entries(items + ItemsOf(events)) == Entries(items) + events by {
      EntriesAppend(items, ItemsOf(events));
      EntriesOfItems(events);
    }
  }

  lemma HeartbeatSends(items: seq<Item>, after: nat, readings: seq<Reading>, passes: nat)
    requires 0 < passes <= |readings| && Sent(items, after, readings, passes)
    ensures Sent(items + [Heartbeat], after, readings, passes)
  {
    EntriesAppend(items, [Heartbeat]);
    assert Entries([Heartbeat]) == [];
  }

  /**
   A stream that ends on a terminal job has sent everything its last pass listed. It is complete exactly
   when no event was appended between the two reads of that pass, or the client already had them all.
   */
  lemma EndedStream(items: seq<Item>, after: nat, readings: seq<Reading>, passes: nat)
    requires Growing(readings) && 0 < passes <= |readings| && readings[passes - 1].status.Some?
    requires Sent(items, after, readings, passes) && EndsAt(after, readings, passes - 1)
    ensures var last := readings[passes - 1];
      && Entries(items) == Block(last.log, after, |last.log|)
      && (Entries(items) == Block(last.later, after, |last.later|) <==> last.later == last.log || |last.later| <= after)
  {
  }

  /**
   The case the code allows: the job succeeds between the two reads of a pass that had nothing to send.
   The stream ends, and its client never receives the final status event.
   */
  lemma FinalEventMissed(job: Job, count: nat)
    requires Agrees(job) && job.row.status == Running
    ensures var done := Transition(job, Succeeded, Some(count), None, None);
      var pass := Reading(job.log, Some(done.row.status), done.log);
      && Growing([pass]) && Ends(|job.log|, pass)
      && |done.log| == |job.log| + 1 && IsStatus(done.log[|job.log|].event, Succeeded)
      && Block(pass.log, |job.log|, Reached(|job.log|, [pass], 1)) == []
  {
    AppendReads(job.log, StatusEvent(Succeeded, None));
    var done := Transition(job, Succeeded, Some(count), None, None);
  }
}
