/**
 payment.completed from the stream to the wallet.  Any number of consumer processes share the group's pending
 entries (they all use the consumer name wallet-consumer-1, so a restarted process takes over its predecessor's);
 each handles its batch one entry at a time, and may crash between any two steps.  An entry's id is its index.
 */
module PaymentStream {
  import opened Prelude
  import opened WalletLedger

  /** Malformed: no `data` field, or one that does not parse. */
  datatype Entry = Malformed | Message(event: PaymentEvent)

  /** The progress of a process on the head of its batch. */
  datatype Stage = Ready | Handling(sawKey: bool) | Handled

  datatype Proc = Down | Up(batch: seq<nat>, stage: Stage)

  /** committed lists the events whose handler transaction wrote a credit, in commit order. */
  datatype State = State(
    log: seq<Entry>,
    start: nat,
    next: nat,
    pending: seq<nat>,
    acked: set<nat>,
    db: Db,
    committed: seq<PaymentEvent>,
    procs: map<nat, Proc>)

  datatype Event =
    | Publish(entry: Entry)
    | Start(proc: nat)
    | Read(proc: nat, count: nat)
    | Look(proc: nat)
    | CommitTx(proc: nat)
    | AbortTx(proc: nat)
    | Ack(proc: nat)
    | AckLost(proc: nat)
    | Crash(proc: nat)

  const REPLAY_COUNT: nat := 100
  const BATCH_SIZE: nat := 10

  function ProcOf(s: State, p: nat): Proc {
    if p in s.procs then s.procs[p] else Down
  }

  predicate Deliverable(e: Entry) {
    e.Message? && ValidEvent(e.event)
  }

  /** The group is created at `$`: entries appended before that are never delivered. */
  function Init(before: seq<Entry>): State {
    State(before, |before|, |before|, [], {}, EMPTY_DB, [], map[])
  }

  function FirstReplayed(pending: seq<nat>): seq<nat> {
    pending[..Min(|pending|, REPLAY_COUNT)]
  }

  function Range(from: nat, to: nat): (r: seq<nat>)
    requires from <= to
    ensures |r| == to - from
    ensures forall k :: 0 <= k < |r| ==> r[k] == from + k
  {
    seq(to - from, (k: nat) => from + k)
  }

  function Remove(ids: seq<nat>, id: nat): seq<nat> {
    if |ids| == 0 then []
    else
      var rest := Remove(ids[..|ids| - 1], id);
      if ids[|ids| - 1] == id then rest else rest + [ids[|ids| - 1]]
  }

  /** p moves past the head of its batch. */
  function Advance(s: State, p: nat, batch: seq<nat>): State
    requires |batch| > 0
  {
    s.(procs := s.procs[p := Up(batch[1..], Ready)])
  }

  function Step(s: State, e: Event): State {
    match e
    case Publish(entry) => s.(log := s.log + [entry])
    case Start(p) =>
      if ProcOf(s, p).Down? then s.(procs := s.procs[p := Up(FirstReplayed(s.pending), Ready)]) else s
    case Read(p, n) =>
      if ProcOf(s, p) == Up([], Ready) && n <= BATCH_SIZE && s.next + n <= |s.log| then
        var ids := Range(s.next, s.next + n);
        s.(next := s.next + n, pending := s.pending + ids, procs := s.procs[p := Up(ids, Ready)])
      else s
    case Crash(p) => s.(procs := s.procs[p := Down])
    case Look(p) =>
      (match ProcOf(s, p)
       case Up(batch, Ready) =>
         if |batch| == 0 then s
         else if batch[0] < |s.log| && Deliverable(s.log[batch[0]]) then
           var saw := EventKey(s.log[batch[0]].event.paymentId) in s.db.processed;
           s.(procs := s.procs[p := Up(batch, Handling(saw))])
         else Advance(s, p, batch)
       case _ => s)
    case CommitTx(p) =>
      (match ProcOf(s, p)
       case Up(batch, Handling(saw)) =>
         if |batch| == 0 || batch[0] >= |s.log| || !s.log[batch[0]].Message? then s
         else
           var ev := s.log[batch[0]].event;
           if saw then s.(procs := s.procs[p := Up(batch, Handled)])
           else if EventKey(ev.paymentId) in s.db.processed then Advance(s, p, batch)  // unique event_key violated
           else s.(db := CreditEvent(s.db, ev), committed := s.committed + [ev], procs := s.procs[p := Up(batch, Handled)])
       case _ => s)
    case AbortTx(p) =>
      (match ProcOf(s, p)
       case Up(batch, Handling(_)) => if |batch| == 0 then s else Advance(s, p, batch)
       case _ => s)
    case Ack(p) =>
      (match ProcOf(s, p)
       case Up(batch, Handled) =>
         if |batch| == 0 then s
         else Advance(s.(pending := Remove(s.pending, batch[0]), acked := s.acked + {batch[0]}), p, batch)
       case _ => s)
    case AckLost(p) =>
      (match ProcOf(s, p)
       case Up(batch, Handled) => if |batch| == 0 then s else Advance(s, p, batch)
       case _ => s)
  }

  function Run(before: seq<Entry>, es: seq<Event>): State {
    if |es| == 0 then Init(before) else Step(Run(before, es[..|es| - 1]), es[|es| - 1])
  }

  /** A process that crashes and starts again is handed the first hundred pending entries, those it had not acked among them. */
  lemma RestartReplays(s: State, p: nat)
    ensures ProcOf(Step(Step(s, Crash(p)), Start(p)), p) == Up(s.pending[..Min(|s.pending|, 100)], Ready)
  {
  }

  // ---- Invariants ---------------------------------------------------------------------------

  ghost predicate Tracked(s: State) {
    && s.start <= s.next <= |s.log|
    && (forall id :: id in s.pending ==> s.start <= id < s.next)
    && (forall id :: id in s.acked ==> s.start <= id < s.next)
    && (forall id :: s.start <= id < s.next ==> (id in s.pending <==> id !in s.acked))
  }

  ghost predicate KeyStored(s: State, id: nat) {
    id < |s.log| && Deliverable(s.log[id]) && EventKey(s.log[id].event.paymentId) in s.db.processed
  }

  ghost predicate AckedAreStored(s: State) {
    forall id :: id in s.acked ==> KeyStored(s, id)
  }

  ghost predicate ProcInv(s: State, p: nat) {
    match ProcOf(s, p)
    case Down => true
    case Up(batch, stage) =>
      && |batch| <= 100 && (forall k :: 0 <= k < |batch| ==> s.start <= batch[k] < s.next)
      && (stage.Handling? ==> |batch| > 0 && batch[0] < |s.log| && Deliverable(s.log[batch[0]]))
      && (stage.Handled? || stage == Handling(true) ==> |batch| > 0 && KeyStored(s, batch[0]))
  }

  ghost function AmountFor(userId: string, currency: string): PaymentEvent -> int {
    (e: PaymentEvent) => if e.userId == userId && currency == (if e.currency == "" then "PI" else e.currency) then e.amount else 0
  }

  ghost predicate DistinctPayments(committed: seq<PaymentEvent>) {
    forall i, j :: 0 <= i < j < |committed| ==> committed[i].paymentId != committed[j].paymentId
  }

  ghost predicate CommittedIsProcessed(s: State) {
    && (forall e :: e in s.committed ==> ValidEvent(e) && EventKey(e.paymentId) in s.db.processed && Message(e) in s.log)
    && (forall key :: key in s.db.processed ==> exists e :: e in s.committed && EventKey(e.paymentId) == key)
  }

  ghost predicate BalancesAreCommitted(s: State) {
    forall u, c :: GetBalance(s.db, u, c) == Sum(s.committed, AmountFor(u, c))
  }

  ghost predicate Inv(s: State) {
    && Tracked(s)
    && AckedAreStored(s)
    && (forall p: nat :: ProcInv(s, p))
    && WalletLedger.Inv(s.db)
    && DistinctPayments(s.committed)
    && CommittedIsProcessed(s)
    && BalancesAreCommitted(s)
  }

  // ---- Preservation -------------------------------------------------------------------------

  lemma {:induction false} RemoveIsExact(ids: seq<nat>, id: nat)
    ensures forall x :: x in Remove(ids, id) <==> x in ids && x != id
  {
    if |ids| > 0 {
      RemoveIsExact(ids[..|ids| - 1], id);
      assert ids == ids[..|ids| - 1] + [ids[|ids| - 1]];
    }
  }

  /** The part of CommitTx that writes: the state after p's transaction credits its event. */
  lemma CreditKeepsCommitted(s: State, s': State, ev: PaymentEvent)
    requires Inv(s) && ValidEvent(ev) && Message(ev) in s.log && EventKey(ev.paymentId) !in s.db.processed
    requires s'.log == s.log && s'.db == CreditEvent(s.db, ev) && s'.committed == s.committed + [ev]
    ensures DistinctPayments(s'.committed) && CommittedIsProcessed(s') && BalancesAreCommitted(s')
  {
    forall u, c ensures GetBalance(s'.db, u, c) == Sum(s'.committed, AmountFor(u, c)) {
      CreditMovesOneBalance(s.db, ev, u, c);
      SumAppend(s.committed, ev, AmountFor(u, c));
    }
    forall i | 0 <= i < |s.committed| ensures s.committed[i].paymentId != ev.paymentId {
      assert s.committed[i] in s.committed;
    }
    assert s'.committed[|s.committed|] == ev;
    forall key | key in s'.db.processed ensures exists e :: e in s'.committed && EventKey(e.paymentId) == key {
      if key in s.db.processed {
        var e :| e in s.committed && EventKey(e.paymentId) == key;
        assert e in s'.committed;
      } else {
        assert ev in s'.committed;
      }
    }
  }

  /** Stored keys are never removed, so what the acked entries and the other processes rely on survives a commit. */
  lemma StoringKeyKeepsProcesses(s: State, s': State, p: nat, batch: seq<nat>)
    requires Inv(s)
    requires s' == s.(db := s'.db, committed := s'.committed, procs := s.procs[p := Up(batch, Handled)])
    requires |batch| > 0 && ProcOf(s, p).Up? && ProcOf(s, p).batch == batch && KeyStored(s', batch[0])
    requires forall key :: key in s.db.processed ==> key in s'.db.processed
    ensures Tracked(s') && AckedAreStored(s') && forall q: nat :: ProcInv(s', q)
  {
    forall q: nat ensures ProcInv(s', q) {
      assert ProcInv(s, q);
    }
    forall id | id in s'.acked ensures KeyStored(s', id) {
      assert KeyStored(s, id);
    }
  }

  lemma CommitKeepsInv(s: State, p: nat)
    requires Inv(s)
    ensures Inv(Step(s, CommitTx(p)))
  {
    var s' := Step(s, CommitTx(p));
    assert ProcInv(s, p);
    if s' != s {
      var Up(batch, stage) := s.procs[p];
      var ev := s.log[batch[0]].event;
      if stage.sawKey {
        StoringKeyKeepsProcesses(s, s', p, batch);
      } else if EventKey(ev.paymentId) in s.db.processed {
        AdvanceKeepsInv(s, p);
      } else {
        assert Message(ev) in s.log;
        CreditEventKeepsInv(s.db, ev);
        CreditKeepsCommitted(s, s', ev);
        StoringKeyKeepsProcesses(s, s', p, batch);
      }
    }
  }

  lemma AdvanceKeepsInv(s: State, p: nat)
    requires Inv(s) && ProcOf(s, p).Up? && |s.procs[p].batch| > 0
    ensures Inv(Advance(s, p, s.procs[p].batch))
  {
    var s' := Advance(s, p, s.procs[p].batch);
    forall q: nat ensures ProcInv(s', q) {
      assert ProcInv(s, q);
    }
  }

  lemma PublishKeepsInv(s: State, entry: Entry)
    requires Inv(s)
    ensures Inv(Step(s, Publish(entry)))
  {
    var s' := Step(s, Publish(entry));
    forall p: nat ensures ProcInv(s', p) {
      assert ProcInv(s, p);
    }
    forall c | c in s.committed ensures Message(c) in s'.log {
      var i :| 0 <= i < |s.log| && s.log[i] == Message(c);
      assert s'.log[i] == Message(c);
    }
  }

  lemma ReadKeepsInv(s: State, p: nat, n: nat)
    requires Inv(s)
    ensures Inv(Step(s, Read(p, n)))
  {
    var s' := Step(s, Read(p, n));
    forall q: nat ensures ProcInv(s', q) {
      assert ProcInv(s, q);
    }
    if s' != s {
      forall id | s.next <= id < s'.next ensures id in s'.pending && id !in s.acked {
        assert s'.pending[|s.pending| + (id - s.next)] == id;
      }
    }
  }

  /** Start, Look, AbortTx, AckLost and Crash change nothing but the process's own progress. */
  lemma ProgressKeepsInv(s: State, e: Event)
    requires Inv(s)
    requires e.Start? || e.Look? || e.AbortTx? || e.AckLost? || e.Crash?
    ensures Inv(Step(s, e))
  {
    var s' := Step(s, e);
    assert s' == s.(procs := s'.procs);
    assert forall k :: 0 <= k < |FirstReplayed(s.pending)| ==> FirstReplayed(s.pending)[k] in s.pending;
    forall q: nat ensures ProcInv(s', q) {
      assert ProcInv(s, q);
    }
  }

  lemma AckKeepsInv(s: State, p: nat)
    requires Inv(s)
    ensures Inv(Step(s, Ack(p)))
  {
    var s' := Step(s, Ack(p));
    assert ProcInv(s, p);
    if s' != s {
      RemoveIsExact(s.pending, s.procs[p].batch[0]);
    }
    forall q: nat ensures ProcInv(s', q) {
      assert ProcInv(s, q);
    }
  }

  lemma {:induction false} RunKeepsInv(before: seq<Entry>, es: seq<Event>)
    ensures Inv(Run(before, es))
  {
    if |es| == 0 {
      var s := Init(before);
      assert forall p :: Sum(s.db.ledger, CreditWeight(p)) == 0;
      assert forall p: nat :: ProcInv(s, p);
    } else {
      var s := Run(before, es[..|es| - 1]);
      var e := es[|es| - 1];
      RunKeepsInv(before, es[..|es| - 1]);
      match e
      case CommitTx(p) => CommitKeepsInv(s, p);
      case Publish(entry) => PublishKeepsInv(s, entry);
      case Read(p, n) => ReadKeepsInv(s, p, n);
      case Ack(p) => AckKeepsInv(s, p);
      case _ => ProgressKeepsInv(s, e);
    }
  }

  // ---- Main results -------------------------------------------------------------------------

  /**
   Exactly once: whatever the interleaving of duplicate publishes, deliveries to any number of processes, aborted and
   overlapping handler transactions, lost acks, crashes and replays, a payment is credited at most once, and
   every balance is the sum over the distinct committed payments of that user and currency.
   */
  lemma CreditedExactlyOnce(before: seq<Entry>, es: seq<Event>)
    ensures var s := Run(before, es);
            && (forall p :: Sum(s.db.ledger, CreditWeight(p)) == if EventKey(p) in s.db.processed then 1 else 0)
            && DistinctPayments(s.committed)
            && (forall e :: e in s.committed ==> Message(e) in s.log)
            && (forall u, c :: GetBalance(s.db, u, c) == Sum(s.committed, AmountFor(u, c)))
  {
    RunKeepsInv(before, es);
  }

  /**
   No loss: an entry appended after the group was created is undelivered, pending or acked, never two of these, and
   an acked entry carries a valid event whose payment has its credit.
   */
  lemma NothingIsLost(before: seq<Entry>, es: seq<Event>, id: nat)
    requires |before| <= id < |Run(before, es).log|
    ensures var s := Run(before, es);
            && (id >= s.next ==> id !in s.pending && id !in s.acked)
            && (id < s.next ==> (id in s.pending <==> id !in s.acked))
            && (id in s.acked ==>
                  Deliverable(s.log[id]) && Sum(s.db.ledger, CreditWeight(s.log[id].event.paymentId)) == 1)
  {
    RunKeepsInv(before, es);
    StartIsFixed(before, es);
    var s := Run(before, es);
    if id in s.acked {
      assert KeyStored(s, id);
    }
  }

  lemma {:induction false} StartIsFixed(before: seq<Entry>, es: seq<Event>)
    ensures Run(before, es).start == |before|
  {
    if |es| > 0 {
      StartIsFixed(before, es[..|es| - 1]);
    }
  }

  /** Once everything published since the group was created is valid, delivered and acked, the credited payments are exactly the published ones. */
  lemma DrainedMeansAllCredited(before: seq<Entry>, es: seq<Event>)
    requires var s := Run(before, es);
             && s.next == |s.log| && s.pending == []
             && forall id :: |before| <= id < |s.log| ==> Deliverable(s.log[id])
    ensures var s := Run(before, es);
            forall p :: p != "" ==>
              (Sum(s.db.ledger, CreditWeight(p)) == 1 <==>
                (exists id :: |before| <= id < |s.log| && s.log[id].event.paymentId == p))
  {
    var s := Run(before, es);
    RunKeepsInv(before, es);
    StartIsFixed(before, es);
    CommittedAfterStart(before, es);
    forall p | p != ""
      ensures EventKey(p) in s.db.processed <==>
                exists id :: |before| <= id < |s.log| && s.log[id].event.paymentId == p
    {
      if EventKey(p) in s.db.processed {
        var e :| e in s.committed && EventKey(e.paymentId) == EventKey(p);
        EventKeyInjective(e.paymentId, p);
        var id :| |before| <= id < |s.log| && s.log[id] == Message(e);
      }
      if id :| |before| <= id < |s.log| && s.log[id].event.paymentId == p {
        assert id in s.acked;
        assert KeyStored(s, id);
      }
    }
  }

  /** Only entries appended after the group was created are ever credited. */
  lemma {:induction false} CommittedAfterStart(before: seq<Entry>, es: seq<Event>)
    ensures var s := Run(before, es);
            forall e :: e in s.committed ==> exists id :: |before| <= id < |s.log| && s.log[id] == Message(e)
  {
    if |es| > 0 {
      var s := Run(before, es[..|es| - 1]);
      var s' := Run(before, es);
      var last := es[|es| - 1];
      CommittedAfterStart(before, es[..|es| - 1]);
      RunKeepsInv(before, es[..|es| - 1]);
      StartIsFixed(before, es[..|es| - 1]);
      if last.CommitTx? {
        assert ProcInv(s, last.proc);
      }
      StepCommits(s, last);
      forall e | e in s'.committed ensures exists id :: |before| <= id < |s'.log| && s'.log[id] == Message(e) {
        if e in s.committed {
          var id :| |before| <= id < |s.log| && s.log[id] == Message(e);
          assert s'.log[id] == Message(e);
        } else {
          var id := s.procs[last.proc].batch[0];
          assert s'.log[id] == Message(e);
        }
      }
    }
  }

  /** The log only grows, and the only new committed event is the one at the head of the committing process's batch. */
  lemma StepCommits(s: State, e: Event)
    ensures var s' := Step(s, e);
            && |s.log| <= |s'.log| && s'.log[..|s.log|] == s.log
            && forall c :: c in s'.committed && c !in s.committed ==>
                 && e.CommitTx? && ProcOf(s, e.proc).Up? && |ProcOf(s, e.proc).batch| > 0
                 && ProcOf(s, e.proc).batch[0] < |s.log| && s.log[ProcOf(s, e.proc).batch[0]] == Message(c)
  {
  }
}
