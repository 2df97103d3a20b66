/**
 The outbox of the payment service (outbox.worker.ts, outbox.service.ts): rows are published to a stream and then
 marked, and a row whose attempt failed waits longer before each new one.  A row's id is its index, which is also
 its order of creation; times are in milliseconds.
 */
module Outbox {
  import opened Prelude

  const SELECT_ATTEMPTS: int := 5
  const BATCH: nat := 10

  datatype RowStatus = Pending | Published | PermanentlyFailed

  datatype Row = Row(stream: string, payload: string, status: RowStatus, attempts: int, maxAttempts: int, nextRetry: int)

  datatype StreamEntry = StreamEntry(stream: string, payload: string, outboxId: nat)

  /** An attempt; recorded if the row afterwards says how it ended. */
  datatype Try = Try(id: nat, at: int, recorded: bool)

  /** log is every stream's entries in order; tries is the history of publish attempts. */
  datatype State = State(rows: seq<Row>, log: seq<StreamEntry>, tries: seq<Try>)

  /**
   How one attempt ends: no publisher; xadd throws; xadd succeeds but the row cannot be marked (a crash in between looks
   the same, with marked == false); or all goes well.  `marked` says whether the failure itself could be recorded.
   */
  datatype Fate = Unavailable | XaddFails(marked: bool) | MarkFails(marked: bool) | Done

  predicate Eligible(r: Row, now: int) {
    r.status == Pending && r.nextRetry <= now && r.attempts < SELECT_ATTEMPTS
  }

  function Delay(attempts: nat): int {
    Min(1000 * Pow2(attempts), 60000)
  }

  /** markEventFailed, with the counter as it was read. */
  function MarkedFailed(r: Row, at: int): Row {
    r.(status := if r.attempts >= r.maxAttempts then PermanentlyFailed else Pending,
       attempts := r.attempts + 1,
       nextRetry := at + Delay(if r.attempts >= 0 then r.attempts else 0))
  }

  predicate Recorded(fate: Fate) {
    fate.Done? || (!fate.Unavailable? && fate.marked)
  }

  function Tried(s: State, id: nat, row: Row, appended: bool, at: int, recorded: bool): State
    requires id < |s.rows|
  {
    State(s.rows[id := row],
          if appended then s.log + [StreamEntry(s.rows[id].stream, s.rows[id].payload, id)] else s.log,
          s.tries + [Try(id, at, recorded)])
  }

  datatype Event =
    | Save(stream: string, payload: string, maxAttempts: int, now: int)
    | Process(id: nat, fate: Fate, readAt: int, at: int)

  function Step(s: State, e: Event): State {
    match e
    case Save(stream, payload, maxAttempts, now) => s.(rows := s.rows + [Row(stream, payload, Pending, 0, maxAttempts, now)])
    case Process(id, fate, readAt, at) =>
      if id >= |s.rows| || !Eligible(s.rows[id], readAt) || at < readAt then s
      else
        match fate
        case Unavailable => s
        case XaddFails(marked) => Tried(s, id, if marked then MarkedFailed(s.rows[id], at) else s.rows[id], false, at, marked)
        case MarkFails(marked) => Tried(s, id, if marked then MarkedFailed(s.rows[id], at) else s.rows[id], true, at, marked)
        case Done => Tried(s, id, s.rows[id].(status := Published), true, at, true)
  }

  function Run(es: seq<Event>): State {
    if |es| == 0 then State([], [], []) else Step(Run(es[..|es| - 1]), es[|es| - 1])
  }

  // ---- The worker -----------------------------------------------------------------------------

  /** The ids of the eligible rows, oldest first. */
  function EligibleIds(rows: seq<Row>, now: int): (ids: seq<nat>)
    ensures forall i :: 0 <= i < |ids| ==> ids[i] < |rows| && Eligible(rows[ids[i]], now)
    ensures forall id: nat :: id in ids <==> id < |rows| && rows[id].status == Pending && rows[id].nextRetry <= now && rows[id].attempts < 5
    ensures forall i, j :: 0 <= i < j < |ids| ==> ids[i] < ids[j]
  {
    if |rows| == 0 then []
    else
      var n := |rows| - 1;
      var rest := EligibleIds(rows[..n], now);
      assert forall id: nat :: id < n ==> rows[..n][id] == rows[id];
      if Eligible(rows[n], now) then
        assert forall id: nat :: id in rest + [n] <==> id in rest || id == n;
        rest + [n]
      else rest
  }

  function FateAt(fates: seq<Fate>, k: nat): Fate {
    if k < |fates| then fates[k] else Unavailable
  }

  /** The rows that are attempted: up to the first one that finds no publisher. */
  function Attempted(fates: seq<Fate>, n: nat): (k: nat)
    ensures k <= n
    ensures forall i :: 0 <= i < k ==> !FateAt(fates, i).Unavailable?
    ensures k < n ==> FateAt(fates, k).Unavailable?
  {
    if n == 0 then 0
    else
      var k := Attempted(fates, n - 1);
      if k == n - 1 && !FateAt(fates, k).Unavailable? then n else k
  }

  function ProcessAll(s: State, ids: seq<nat>, fates: seq<Fate>, now: int): State {
    if |ids| == 0 then s
    else
      var n := |ids| - 1;
      Step(ProcessAll(s, ids[..n], fates, now), Process(ids[n], FateAt(fates, n), now, now))
  }

  /**
   The given rows have been tried: those that went all well are Published, no other is; what was added to a stream is
   there; and a row that was not tried is as before.
   */
  ghost predicate Handled(before: seq<Row>, ids: seq<nat>, fates: seq<Fate>, after: seq<Row>, log: seq<StreamEntry>)
    requires |after| == |before|
  {
    && (forall k :: 0 <= k < |ids| ==> ids[k] < |before|)
    && (forall k :: 0 <= k < |ids| ==> (after[ids[k]].status == Published <==> FateAt(fates, k).Done?))
    && (forall k :: 0 <= k < |ids| && !FateAt(fates, k).XaddFails? ==>
          StreamEntry(before[ids[k]].stream, before[ids[k]].payload, ids[k]) in log)
    && (forall id: nat :: id < |before| && id !in ids ==> after[id] == before[id])
  }

  lemma HandledGrows(before: seq<Row>, ids: seq<nat>, k: nat, fates: seq<Fate>, rows: seq<Row>, log: seq<StreamEntry>, rows': seq<Row>,
                     log': seq<StreamEntry>)
    requires k < |ids| && ids[k] < |before| == |rows| == |rows'| && forall i, j :: 0 <= i < j < |ids| ==> ids[i] < ids[j]
    requires Handled(before, ids[..k], fates, rows, log)
    requires rows' == rows[ids[k] := rows'[ids[k]]] && (rows'[ids[k]].status == Published <==> FateAt(fates, k).Done?)
    requires log' == log + if FateAt(fates, k).XaddFails? then [] else [StreamEntry(before[ids[k]].stream, before[ids[k]].payload, ids[k])]
    ensures Handled(before, ids[..k + 1], fates, rows', log')
  {
    assert ids[..k + 1] == ids[..k] + [ids[k]];
    assert forall i :: 0 <= i < k ==> ids[..k][i] == ids[i] != ids[k];
  }

  class OutboxWorker {
    var isRunning: bool
    var rows: seq<Row>
    var log: seq<StreamEntry>
    ghost var tries: seq<Try>

    ghost function Snapshot(): State
      reads this
    {
      State(rows, log, tries)
    }

    constructor ()
      ensures Snapshot() == Run([]) && !isRunning
    {
      isRunning, rows, log, tries := false, [], [], [];
    }

    method SaveOutboxEvent(stream: string, payload: string, maxAttempts: int, now: int)
      modifies this`rows
      ensures Snapshot() == Step(old(Snapshot()), Save(stream, payload, maxAttempts, now))
      ensures rows == old(rows) + [Row(stream, payload, Pending, 0, maxAttempts, now)]
    {
      rows := rows + [Row(stream, payload, Pending, 0, maxAttempts, now)];
    }

    method MarkEventPublished(id: nat)
      requires id < |rows|
      modifies this`rows
      ensures rows == old(rows)[id := old(rows)[id].(status := Published)]
    {
      rows := rows[id := rows[id].(status := Published)];
    }

    method MarkEventFailed(id: nat, attempts: nat, maxAttempts: int, now: int)
      requires id < |rows| && rows[id].attempts == attempts && rows[id].maxAttempts == maxAttempts
      modifies this`rows
      ensures rows == old(rows)[id := MarkedFailed(old(rows)[id], now)]
      ensures rows == old(rows)[id := old(rows)[id].(status := if attempts >= maxAttempts then PermanentlyFailed else Pending,
                                                     attempts := attempts + 1, nextRetry := now + Min(1000 * Pow2(attempts), 60000))]
    {
      var isFinal := attempts >= maxAttempts;
      var delayMs := Min(1000 * Pow2(attempts), 60000);
      rows := rows[id := rows[id].(status := if isFinal then PermanentlyFailed else Pending,
                                   attempts := attempts + 1, nextRetry := now + delayMs)];
    }

    /** The body of the loop for one event, given a publisher: publish, then mark; on any exception record the failure. */
    method PublishAndMark(id: nat, fate: Fate, now: int)
      requires id < |rows| && Eligible(rows[id], now) && rows[id].attempts >= 0 && !fate.Unavailable?
      modifies this`rows, this`log, this`tries
      ensures Snapshot() == Step(old(Snapshot()), Process(id, fate, now, now))
      ensures |rows| == |old(rows)| && rows == old(rows)[id := rows[id]]
      ensures log == old(log) + if fate.XaddFails? then [] else [StreamEntry(old(rows)[id].stream, old(rows)[id].payload, id)]
      ensures fate.Done? ==> rows[id] == old(rows)[id].(status := Published)
      ensures !fate.Done? && fate.marked ==>
                rows[id] == old(rows)[id].(
                              status := if old(rows)[id].attempts >= old(rows)[id].maxAttempts then PermanentlyFailed else Pending,
                              attempts := old(rows)[id].attempts + 1,
                              nextRetry := now + Min(1000 * Pow2(old(rows)[id].attempts), 60000))
      ensures !fate.Done? && !fate.marked ==> rows[id] == old(rows)[id]
    {
      var event := rows[id];
      assert rows[id := rows[id]] == rows;
      tries := tries + [Try(id, now, Recorded(fate))];
      if !fate.XaddFails? {
        log := log + [StreamEntry(event.stream, event.payload, id)];
      }
      if fate.Done? {
        MarkEventPublished(id);
      } else if fate.marked {
        MarkEventFailed(id, event.attempts, event.maxAttempts, now);
      }
    }

    /** The loop over the selected events; it stops at the first that finds no publisher. */
    method ProcessEvents(events: seq<nat>, now: int, fates: seq<Fate>)
      requires forall i :: 0 <= i < |events| ==> events[i] < |rows| && Eligible(rows[events[i]], now) && rows[events[i]].attempts >= 0
      requires forall i, j :: 0 <= i < j < |events| ==> events[i] < events[j]
      modifies this`rows, this`log, this`tries
      ensures Snapshot() == ProcessAll(old(Snapshot()), events[..Attempted(fates, |events|)], fates, now)
      ensures |rows| == |old(rows)| && Handled(old(rows), events[..Attempted(fates, |events|)], fates, rows, log)
    {
      var k := 0;
      ghost var before := rows;
      while k < |events| && !FateAt(fates, k).Unavailable?
        invariant 0 <= k <= |events|
        invariant forall i :: 0 <= i < k ==> !FateAt(fates, i).Unavailable?
        invariant |rows| == |before|
        invariant forall i :: k <= i < |events| ==> rows[events[i]] == before[events[i]]
        invariant Snapshot() == ProcessAll(old(Snapshot()), events[..k], fates, now)
        invariant Handled(before, events[..k], fates, rows, log)
      {
        ghost var done := events[..k + 1];
        assert done[..k] == events[..k] && done[k] == events[k];
        ghost var held, written := rows, log;
        PublishAndMark(events[k], FateAt(fates, k), now);
        HandledGrows(before, events, k, fates, held, written, rows, log);
        k := k + 1;
      }
    }

    /** One poll: at most ten eligible rows, oldest first; a poll that finds another one running does nothing. */
    method ProcessOutboxEvents(now: int, fates: seq<Fate>)
      requires forall i :: 0 <= i < |rows| ==> rows[i].attempts >= 0
      modifies this
      ensures isRunning == old(isRunning)
      ensures old(isRunning) ==> Snapshot() == old(Snapshot())
      ensures !old(isRunning) ==>
                var ids := EligibleIds(old(rows), now);
                var batch := ids[..Min(|ids|, BATCH)];
                && Snapshot() == ProcessAll(old(Snapshot()), batch[..Attempted(fates, |batch|)], fates, now)
                && |rows| == |old(rows)| && Handled(old(rows), batch[..Attempted(fates, |batch|)], fates, rows, log)
    {
      if isRunning {
        return;
      }
      isRunning := true;
      var ids := EligibleIds(rows, now);
      ProcessEvents(ids[..Min(|ids|, BATCH)], now, fates);
      isRunning := false;
    }
  }

  // ---- Published means published ----------------------------------------------------------------

  ghost predicate OnStream(s: State, id: nat)
    requires id < |s.rows|
  {
    StreamEntry(s.rows[id].stream, s.rows[id].payload, id) in s.log
  }

  /** Whatever fails or crashes in between, a row marked published has an entry with its id and payload on its stream. */
  lemma {:induction false} PublishedIsOnStream(es: seq<Event>)
    ensures forall id: nat :: id < |Run(es).rows| && Run(es).rows[id].status == Published ==> OnStream(Run(es), id)
  {
    if |es| > 0 {
      var s, e := Run(es[..|es| - 1]), es[|es| - 1];
      PublishedIsOnStream(es[..|es| - 1]);
      forall id: nat | id < |Run(es).rows| && Run(es).rows[id].status == Published ensures OnStream(Run(es), id) {
        if e.Process? && e.id == id && e.fate.Done? && Run(es) != s {
          assert Run(es).log[|s.log|] == StreamEntry(s.rows[id].stream, s.rows[id].payload, id);
        } else {
          assert OnStream(s, id);
        }
      }
    }
  }

  // ---- Termination and timing -------------------------------------------------------------------

  ghost function Remaining(): Row -> int {
    (r: Row) => if r.status == Pending && r.attempts < SELECT_ATTEMPTS then SELECT_ATTEMPTS - r.attempts else 0
  }

  /** Every recorded attempt brings the work left strictly down: the sum of 5 - attempts over the rows still to be tried. */
  lemma ProcessingTerminates(s: State, e: Event)
    requires e.Process? && Recorded(e.fate)
    requires e.id < |s.rows| && Eligible(s.rows[e.id], e.readAt) && e.readAt <= e.at
    ensures 0 <= Sum(Step(s, e).rows, Remaining()) < Sum(s.rows, Remaining())
  {
    SumUpdate(s.rows, e.id, Step(s, e).rows[e.id], Remaining());
    SumNonNegative(Step(s, e).rows, Remaining());
  }

  ghost function TryOf(id: nat): Try -> int {
    (t: Try) => if t.id == id then 1 else 0
  }

  ghost function RecordedTryOf(id: nat): Try -> int {
    (t: Try) => if t.id == id && t.recorded then 1 else 0
  }

  /** When the first recorded attempt of the row was made. */
  ghost function FirstRecorded(tries: seq<Try>, id: nat): Option<int> {
    if |tries| == 0 then None
    else
      var earlier := FirstRecorded(tries[..|tries| - 1], id);
      var last := tries[|tries| - 1];
      if earlier.Some? then earlier else if last.id == id && last.recorded then Some(last.at) else None
  }

  /**
   What a row's counter means: it is the number of recorded attempts, the next attempt waits until 1000 * (2^n - 1) ms
   after the first recorded one, and the row is permanently failed iff the last one found the counter at its maximum.
   */
  ghost predicate RowInv(s: State, id: nat)
    requires id < |s.rows|
  {
    var r := s.rows[id];
    var n := Sum(s.tries, RecordedTryOf(id));
    var first := FirstRecorded(s.tries, id);
    && 0 <= r.attempts <= SELECT_ATTEMPTS
    && 0 <= n <= SELECT_ATTEMPTS
    && (r.status != Published ==> n == r.attempts)
    && (first.Some? <==> n > 0)
    && (r.status == Pending && first.Some? ==> r.nextRetry >= first.value + 1000 * (Pow2(r.attempts) - 1))
    && (r.status == Pending && r.attempts > 0 ==> r.attempts - 1 < r.maxAttempts)
    && (r.status == PermanentlyFailed ==> r.attempts > 0 && r.attempts - 1 >= r.maxAttempts)
  }

  lemma DelayUncapped(attempts: nat)
    requires attempts < SELECT_ATTEMPTS
    ensures Delay(attempts) == 1000 * Pow2(attempts)
    ensures Pow2(attempts + 1) == 2 * Pow2(attempts)
  {
    assert Pow2(0) == 1 && Pow2(1) == 2 && Pow2(2) == 4 && Pow2(3) == 8 && Pow2(4) == 16;
  }

  lemma {:induction false} NoTriesYet(tries: seq<Try>, id: nat)
    requires forall i :: 0 <= i < |tries| ==> tries[i].id != id
    ensures Sum(tries, RecordedTryOf(id)) == 0 && FirstRecorded(tries, id).None?
  {
    if |tries| > 0 {
      NoTriesYet(tries[..|tries| - 1], id);
    }
  }

  lemma TriedKeepsRow(s: State, e: Event, id: nat)
    requires e.Process? && Step(s, e) != s && id < |s.rows| && RowInv(s, id)
    ensures RowInv(Step(s, e), id)
  {
    if id == e.id {
      DelayUncapped(s.rows[id].attempts);
    }
  }

  /** In every run, whatever fails and whatever failure cannot be recorded. */
  lemma {:induction false} RunKeepsRows(es: seq<Event>)
    ensures forall i :: 0 <= i < |Run(es).tries| ==> Run(es).tries[i].id < |Run(es).rows|
    ensures forall id: nat :: id < |Run(es).rows| ==> RowInv(Run(es), id)
  {
    if |es| > 0 {
      var s, e := Run(es[..|es| - 1]), es[|es| - 1];
      RunKeepsRows(es[..|es| - 1]);
      if Step(s, e) != s {
        forall id: nat | id < |Run(es).rows| ensures RowInv(Run(es), id) {
          if e.Save? {
            if id == |s.rows| {
              NoTriesYet(s.tries, id);
            } else {
              assert RowInv(s, id);
            }
          } else {
            TriedKeepsRow(s, e, id);
          }
        }
      }
    }
  }

  /**
   In every run at most five attempts of a row are recorded, and an attempt that follows k recorded ones comes at least
   1000 * (2^k - 1) ms after the first of them.
   */
  lemma RetriesBackOff(es: seq<Event>, e: Event)
    requires e.Process? && e.id < |Run(es).rows| && Step(Run(es), e) != Run(es)
    ensures var s := Run(es);
            var k, first := Sum(s.tries, RecordedTryOf(e.id)), FirstRecorded(s.tries, e.id);
            && 0 <= k < SELECT_ATTEMPTS
            && (k > 0 ==> first.Some? && e.at >= first.value + 1000 * (Pow2(k) - 1))
  {
    RunKeepsRows(es);
    assert RowInv(Run(es), e.id);
  }

  /** The step tries row id, and neither its success nor its failure can be recorded. */
  predicate Unrecorded(s: State, e: Event, id: nat) {
    && e.Process? && e.id == id < |s.rows| && Eligible(s.rows[id], e.readAt) && e.readAt <= e.at
    && (e.fate.XaddFails? || e.fate.MarkFails?) && !e.fate.marked
  }

  /** How often that happens to the row in a run. */
  function UnrecordedTries(es: seq<Event>, id: nat): nat {
    if |es| == 0 then 0
    else UnrecordedTries(es[..|es| - 1], id) + if Unrecorded(Run(es[..|es| - 1]), es[|es| - 1], id) then 1 else 0
  }

  ghost predicate TriesAccounted(s: State, id: nat, lost: nat) {
    var n := Sum(s.tries, TryOf(id));
    if id >= |s.rows| then n == 0 && lost == 0
    else
      && 0 <= s.rows[id].attempts <= SELECT_ATTEMPTS && n <= SELECT_ATTEMPTS + lost
      && (s.rows[id].status != Published ==> n == s.rows[id].attempts + lost)
  }

  lemma StepAccounts(s: State, e: Event, id: nat, lost: nat)
    requires TriesAccounted(s, id, lost)
    ensures TriesAccounted(Step(s, e), id, lost + if Unrecorded(s, e, id) then 1 else 0)
  {
    if e.Process? && Step(s, e) != s {
      SumAppend(s.tries, Try(e.id, e.at, Recorded(e.fate)), TryOf(id));
    }
  }

  /**
   In every run, whatever writes fail, a row's tries are those its counter records and those that could not be recorded,
   and there are at most five more of them than of the latter.
   */
  lemma {:induction false} TriesBounded(es: seq<Event>, id: nat)
    ensures TriesAccounted(Run(es), id, UnrecordedTries(es, id))
  {
    if |es| > 0 {
      TriesBounded(es[..|es| - 1], id);
      StepAccounts(Run(es[..|es| - 1]), es[|es| - 1], id, UnrecordedTries(es[..|es| - 1], id));
    }
  }

  /**
   A row that has used up its attempts without success is marked permanently failed if and only if its maxAttempts is
   at most 4.  With the schema's default of 5 it stays pending for ever, and no poll selects it again.
   */
  lemma ExhaustedIsFailedIff(es: seq<Event>, id: nat)
    requires id < |Run(es).rows| && Run(es).rows[id].status != Published
    requires forall now :: !Eligible(Run(es).rows[id], now)
    ensures Run(es).rows[id].status == PermanentlyFailed <==> Run(es).rows[id].maxAttempts < SELECT_ATTEMPTS
    ensures Run(es).rows[id].maxAttempts >= SELECT_ATTEMPTS ==>
              Run(es).rows[id].status == Pending && Run(es).rows[id].attempts == SELECT_ATTEMPTS
  {
    RunKeepsRows(es);
    assert RowInv(Run(es), id);
    assert !Eligible(Run(es).rows[id], Run(es).rows[id].nextRetry);
  }
}
