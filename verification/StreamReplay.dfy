/**
 The consumer loop of event-bus.ts, and how many restarts it takes to work off the entries that a crashed process
 left pending: the start-up pass reads the first 100 of them, and an entry that can never be handled stays in front.
 */
module StreamReplay {
  import opened Prelude
  import opened WalletLedger
  import opened PaymentStream
  import Machine = PaymentStream
  import opened WalletService

  predicate DeliverableAt(log: seq<Entry>, id: nat) {
    id < |log| && Deliverable(log[id])
  }

  /** Entries whose handler succeeds when the transactions of `fails` abort. */
  predicate Settles(log: seq<Entry>, fails: set<nat>, id: nat) {
    DeliverableAt(log, id) && id !in fails
  }

  function Minus(ids: seq<nat>, gone: set<nat>): seq<nat> {
    if |ids| == 0 then []
    else
      var rest := Minus(ids[..|ids| - 1], gone);
      if ids[|ids| - 1] in gone then rest else rest + [ids[|ids| - 1]]
  }

  function Settled(log: seq<Entry>, fails: set<nat>, ids: seq<nat>): set<nat> {
    set id | id in ids && Settles(log, fails, id)
  }

  function Handle(db: Db, log: seq<Entry>, fails: set<nat>, id: nat): Db {
    if Settles(log, fails, id) then HandleSpec(db, log[id].event).db else db
  }

  function HandleAll(db: Db, log: seq<Entry>, fails: set<nat>, ids: seq<nat>): Db {
    if |ids| == 0 then db
    else
      Handle(HandleAll(db, log, fails, ids[..|ids| - 1]), log, fails, ids[|ids| - 1])
  }

  /** The pending entries after a start-up pass in which the handlers of `fails` abort. */
  function AfterReplay(log: seq<Entry>, fails: set<nat>, pending: seq<nat>): seq<nat> {
    Minus(pending, Settled(log, fails, FirstReplayed(pending)))
  }

  // ---- The same as scripts of the consumer-group machine ------------------------------------

  function Exec(s: State, es: seq<Event>): State {
    if |es| == 0 then s else Machine.Step(Exec(s, es[..|es| - 1]), es[|es| - 1])
  }

  /** What process p does with the entry at the head of its batch. */
  function HandleScript(log: seq<Entry>, fails: set<nat>, p: nat, id: nat): seq<Event> {
    if Settles(log, fails, id) then [Look(p), CommitTx(p), Ack(p)]
    else if DeliverableAt(log, id) then [Look(p), AbortTx(p)]
    else [Look(p)]
  }

  /** And with the first n entries of its batch. */
  function BatchScript(log: seq<Entry>, fails: set<nat>, p: nat, batch: seq<nat>, n: nat): seq<Event>
    requires n <= |batch|
  {
    if n == 0 then []
    else BatchScript(log, fails, p, batch, n - 1) + HandleScript(log, fails, p, batch[n - 1])
  }

  /** The start-up pass of process p, and one turn of its loop. */
  function ReplayScript(s: State, fails: set<nat>, p: nat): seq<Event> {
    var batch := FirstReplayed(s.pending);
    [Start(p)] + BatchScript(s.log, fails, p, batch, |batch|)
  }

  function ReadScript(s: State, fails: set<nat>, p: nat): seq<Event>
    requires s.next <= |s.log|
  {
    var upTo := Min(|s.log|, s.next + BATCH_SIZE);
    [Read(p, upTo - s.next)] + BatchScript(s.log, fails, p, Range(s.next, upTo), upTo - s.next)
  }

  /** What process p and the wallets show of a state. */
  datatype View = View(log: seq<Entry>, next: nat, pending: seq<nat>, db: Db, proc: Proc)

  function ViewOf(s: State, p: nat): View {
    View(s.log, s.next, s.pending, s.db, ProcOf(s, p))
  }

  /** How far process p has come: log and position as they were, so much settled, and this batch still to do. */
  ghost predicate Progress(s: State, t: State, p: nat, pending: seq<nat>, db: Db, batch: seq<nat>) {
    ViewOf(t, p) == View(s.log, s.next, pending, db, Up(batch, Ready))
  }

  lemma ExecThen(s: State, es: seq<Event>, e: Event)
    ensures Exec(s, es + [e]) == Machine.Step(Exec(s, es), e)
  {
    assert (es + [e])[..|es|] == es;
  }

  lemma {:induction false} ExecConcat(s: State, a: seq<Event>, b: seq<Event>)
    ensures Exec(s, a + b) == Exec(Exec(s, a), b)
  {
    if |b| == 0 {
      assert a + b == a;
    } else {
      assert (a + b)[..|a + b| - 1] == a + b[..|b| - 1];
      ExecConcat(s, a, b[..|b| - 1]);
    }
  }

  lemma SettleIsScript(s: State, p: nat, batch: seq<nat>)
    requires ProcOf(s, p) == Up(batch, Ready) && |batch| > 0 && DeliverableAt(s.log, batch[0])
    ensures Progress(s, Machine.Step(Machine.Step(Machine.Step(s, Look(p)), CommitTx(p)), Ack(p)), p, Remove(s.pending, batch[0]),
                     HandleSpec(s.db, s.log[batch[0]].event).db, batch[1..])
  {
    var saw := EventKey(s.log[batch[0]].event.paymentId) in s.db.processed;
    assert ProcOf(Machine.Step(s, Look(p)), p) == Up(batch, Handling(saw));
    assert ProcOf(Machine.Step(Machine.Step(s, Look(p)), CommitTx(p)), p) == Up(batch, Handled);
  }

  lemma Exec1(s: State, a: Event)
    ensures Exec(s, [a]) == Machine.Step(s, a)
  {
    ExecThen(s, [], a);
    assert [] + [a] == [a];
  }

  lemma Exec2(s: State, a: Event, b: Event)
    ensures Exec(s, [a, b]) == Machine.Step(Machine.Step(s, a), b)
  {
    Exec1(s, a);
    ExecThen(s, [a], b);
    assert [a] + [b] == [a, b];
  }

  lemma Exec3(s: State, a: Event, b: Event, c: Event)
    ensures Exec(s, [a, b, c]) == Machine.Step(Machine.Step(Machine.Step(s, a), b), c)
  {
    Exec2(s, a, b);
    ExecThen(s, [a, b], c);
    assert [a, b] + [c] == [a, b, c];
  }

  lemma HandleIsScript(s: State, fails: set<nat>, p: nat, batch: seq<nat>)
    requires ProcOf(s, p) == Up(batch, Ready) && |batch| > 0
    ensures var id := batch[0];
            Progress(s, Exec(s, HandleScript(s.log, fails, p, id)), p,
                     if Settles(s.log, fails, id) then Remove(s.pending, id) else s.pending, Handle(s.db, s.log, fails, id), batch[1..])
  {
    if Settles(s.log, fails, batch[0]) {
      Exec3(s, Look(p), CommitTx(p), Ack(p));
      SettleIsScript(s, p, batch);
    } else if DeliverableAt(s.log, batch[0]) {
      Exec2(s, Look(p), AbortTx(p));
    } else {
      Exec1(s, Look(p));
    }
  }

  lemma BatchStep(s: State, t: State, fails: set<nat>, p: nat, batch: seq<nat>, i: nat)
    requires i < |batch|
    requires Progress(s, t, p, Minus(s.pending, Settled(s.log, fails, batch[..i])), HandleAll(s.db, s.log, fails, batch[..i]), batch[i..])
    ensures Progress(s, Exec(t, HandleScript(s.log, fails, p, batch[i])), p,
                     Minus(s.pending, Settled(s.log, fails, batch[..i + 1])), HandleAll(s.db, s.log, fails, batch[..i + 1]), batch[i + 1..])
  {
    var gone := Settled(s.log, fails, batch[..i]);
    assert batch[i..][1..] == batch[i + 1..];
    HandleIsScript(t, fails, p, batch[i..]);
    BatchGrows(s.db, s.log, fails, batch, i);
    RemoveExtendsMinus(s.pending, gone, batch[i]);
    assert gone + {} == gone;
  }

  lemma {:induction false} BatchIsScript(s: State, fails: set<nat>, p: nat, batch: seq<nat>, n: nat)
    requires ProcOf(s, p) == Up(batch, Ready) && n <= |batch|
    ensures Progress(s, Exec(s, BatchScript(s.log, fails, p, batch, n)), p,
                     Minus(s.pending, Settled(s.log, fails, batch[..n])), HandleAll(s.db, s.log, fails, batch[..n]), batch[n..])
  {
    if n == 0 {
      MinusNothing(s.pending);
      assert Settled(s.log, fails, batch[..0]) == {} && batch[0..] == batch;
    } else {
      var before := BatchScript(s.log, fails, p, batch, n - 1);
      BatchIsScript(s, fails, p, batch, n - 1);
      BatchStep(s, Exec(s, before), fails, p, batch, n - 1);
      ExecConcat(s, before, HandleScript(s.log, fails, p, batch[n - 1]));
    }
  }

  /** The start-up pass is a run of the machine: Start, then Look, CommitTx and Ack (or less) for each of the first hundred. */
  lemma ReplayIsScript(s: State, fails: set<nat>, p: nat)
    requires ProcOf(s, p).Down?
    ensures Progress(s, Exec(s, ReplayScript(s, fails, p)), p,
                     AfterReplay(s.log, fails, s.pending), HandleAll(s.db, s.log, fails, FirstReplayed(s.pending)), [])
  {
    var batch := FirstReplayed(s.pending);
    var started := Machine.Step(s, Start(p));
    StartThen(s, Start(p), BatchScript(s.log, fails, p, batch, |batch|));
    WholeBatchIsScript(started, fails, p, batch);
  }

  lemma WholeBatchIsScript(s: State, fails: set<nat>, p: nat, batch: seq<nat>)
    requires ProcOf(s, p) == Up(batch, Ready)
    ensures Progress(s, Exec(s, BatchScript(s.log, fails, p, batch, |batch|)), p,
                     Minus(s.pending, Settled(s.log, fails, batch)), HandleAll(s.db, s.log, fails, batch), [])
  {
    BatchIsScript(s, fails, p, batch, |batch|);
    assert batch[..|batch|] == batch && batch[|batch|..] == [];
  }

  lemma StartThen(s: State, e: Event, es: seq<Event>)
    ensures Exec(s, [e] + es) == Exec(Machine.Step(s, e), es)
  {
    ExecConcat(s, [e], es);
    ExecThen(s, [], e);
    assert [] + [e] == [e];
  }

  /** So is a turn of the loop: Read, then the same for each entry read. */
  lemma ReadIsScript(s: State, fails: set<nat>, p: nat)
    requires ProcOf(s, p) == Up([], Ready) && s.next <= |s.log|
    ensures var upTo := Min(|s.log|, s.next + BATCH_SIZE);
            var read := Range(s.next, upTo);
            Progress(s.(next := upTo), Exec(s, ReadScript(s, fails, p)), p,
                     Minus(s.pending + read, Settled(s.log, fails, read)), HandleAll(s.db, s.log, fails, read), [])
  {
    var upTo := Min(|s.log|, s.next + BATCH_SIZE);
    var batch := Range(s.next, upTo);
    var e := Read(p, upTo - s.next);
    var t := Machine.Step(s, e);
    StartThen(s, e, BatchScript(s.log, fails, p, batch, |batch|));
    WholeBatchIsScript(t, fails, p, batch);
  }

  /** The entry has data of a payment with an id, a user and a positive amount, and its transaction does not abort. */
  predicate Accepted(log: seq<Entry>, fails: set<nat>, id: nat) {
    && id < |log| && log[id].Message? && id !in fails
    && log[id].event.paymentId != "" && log[id].event.userId != "" && log[id].event.amount > 0
  }

  class WalletConsumer {
    const wallet: WalletStore
    var log: seq<Entry>
    var groupExists: bool
    var next: nat
    var pending: seq<nat>

    ghost predicate Valid()
      reads this
    {
      next <= |log|
    }

    /** The fields are those of a state of the consumer-group machine. */
    ghost predicate Represents(s: State)
      reads this, wallet
    {
      log == s.log && next == s.next && pending == s.pending && wallet.Snapshot() == s.db
    }

    constructor (wallet: WalletStore)
      ensures Valid() && this.wallet == wallet && log == [] && pending == [] && !groupExists
    {
      this.wallet := wallet;
      log, groupExists, next, pending := [], false, 0, [];
    }

    method PublishEvent(entry: Entry) returns (id: nat)
      requires Valid()
      modifies this`log
      ensures Valid() && log == old(log) + [entry] && id == old(|log|)
    {
      id := |log|;
      log := log + [entry];
    }

    /** XGROUP CREATE at `$`; an existing group (BUSYGROUP) keeps its position and its pending entries. */
    method EnsureConsumerGroup()
      requires Valid()
      modifies this`groupExists, this`next, this`pending
      ensures Valid() && groupExists
      ensures if old(groupExists) then next == old(next) && pending == old(pending) else next == |log| && pending == []
    {
      if !groupExists {
        groupExists, next, pending := true, |log|, [];
      }
    }

    /** One message: if it has data that parses, call the handler; if that returns, ack. */
    method HandleMessage(id: nat, fails: set<nat>) returns (acked: bool)
      modifies this`pending, wallet
      ensures acked <==> Settles(log, fails, id)
      ensures acked <==> Accepted(log, fails, id)
      ensures forall key :: key in old(wallet.processedEvents) ==> key in wallet.processedEvents
      ensures acked ==> "payment:" + log[id].event.paymentId in wallet.processedEvents
      ensures !acked ==> wallet.Snapshot() == old(wallet.Snapshot())
      ensures pending == if acked then Remove(old(pending), id) else old(pending)
      ensures wallet.Snapshot() == Handle(old(wallet.Snapshot()), log, fails, id)
    {
      if id >= |log| || log[id].Malformed? || id in fails {
        return false;
      }
      var error := wallet.HandlePaymentCompleted(log[id].event);
      acked := error.None?;
      if acked {
        pending := Remove(pending, id);
      }
    }

    /** The loop both readers share: hand each message to the handler, and ack it only if that returned. */
    method HandleMessages(batch: seq<nat>, fails: set<nat>) returns (count: nat)
      modifies this`pending, wallet
      ensures pending == Minus(old(pending), Settled(log, fails, batch))
      ensures wallet.Snapshot() == HandleAll(old(wallet.Snapshot()), log, fails, batch)
      ensures count == |batch| - |Minus(batch, Settled(log, fails, batch))|
      ensures forall id :: id in pending <==> id in old(pending) && !(id in batch && Accepted(log, fails, id))
      ensures forall i :: 0 <= i < |batch| && Accepted(log, fails, batch[i]) ==>
                "payment:" + log[batch[i]].event.paymentId in wallet.processedEvents
    {
      MinusMembers(pending, Settled(log, fails, batch));
      count := 0;
      MinusNothing(pending);
      assert Settled(log, fails, batch[..0]) == {};
      for i := 0 to |batch|
        invariant pending == Minus(old(pending), Settled(log, fails, batch[..i]))
        invariant wallet.Snapshot() == HandleAll(old(wallet.Snapshot()), log, fails, batch[..i])
        invariant count == i - |Minus(batch[..i], Settled(log, fails, batch))|
        invariant forall j :: 0 <= j < i && Accepted(log, fails, batch[j]) ==>
                    "payment:" + log[batch[j]].event.paymentId in wallet.processedEvents
      {
        var id := batch[i];
        ghost var gone := Settled(log, fails, batch[..i]);
        BatchGrows(old(wallet.Snapshot()), log, fails, batch, i);
        RemoveExtendsMinus(old(pending), gone, id);
        assert gone + {} == gone;
        var acked := HandleMessage(id, fails);
        if acked {
          count := count + 1;
        }
      }
      assert batch[..|batch|] == batch;
    }

    /** The start-up pass over this consumer's pending entries. */
    method ProcessPendingMessages(fails: set<nat>) returns (count: nat)
      modifies this`pending, wallet
      ensures pending == AfterReplay(log, fails, old(pending))
      ensures forall id :: id in pending <==> id in old(pending) && !(id in old(pending)[..Min(|old(pending)|, 100)] && Accepted(log, fails, id))
      ensures wallet.Snapshot() == HandleAll(old(wallet.Snapshot()), log, fails, FirstReplayed(old(pending)))
      ensures forall s: State, p: nat :: old(Represents(s)) && ProcOf(s, p).Down? ==> Represents(Exec(s, ReplayScript(s, fails, p)))
    {
      count := HandleMessages(FirstReplayed(pending), fails);
      forall s: State, p: nat | old(Represents(s)) && ProcOf(s, p).Down?
        ensures Represents(Exec(s, ReplayScript(s, fails, p)))
      {
        ReplayIsScript(s, fails, p);
      }
    }

    /** One turn of the consumer loop: read up to ten new entries, which become pending, and handle them. */
    method ReadAndHandle(fails: set<nat>)
      requires Valid()
      modifies this`next, this`pending, wallet
      ensures Valid() && next == Min(|log|, old(next) + BATCH_SIZE)
      ensures var read := Range(old(next), next);
              && pending == Minus(old(pending) + read, Settled(log, fails, read))
              && wallet.Snapshot() == HandleAll(old(wallet.Snapshot()), log, fails, read)
      ensures forall s: State, p: nat :: old(Represents(s)) && ProcOf(s, p) == Up([], Ready) ==>
                Represents(Exec(s, ReadScript(s, fails, p)))
    {
      var upTo := Min(|log|, next + BATCH_SIZE);
      var messages := Range(next, upTo);
      next, pending := upTo, pending + messages;
      var _ := HandleMessages(messages, fails);
      forall s: State, p: nat | old(Represents(s)) && ProcOf(s, p) == Up([], Ready)
        ensures Represents(Exec(s, ReadScript(s, fails, p)))
      {
        ReadIsScript(s, fails, p);
      }
    }
  }

  /** What the i-th message of a batch adds to what is settled, handled and left over. */
  lemma BatchGrows(db: Db, log: seq<Entry>, fails: set<nat>, batch: seq<nat>, i: nat)
    requires i < |batch|
    ensures var id := batch[i];
            && Settled(log, fails, batch[..i + 1]) == Settled(log, fails, batch[..i]) + (if Settles(log, fails, id) then {id} else {})
            && HandleAll(db, log, fails, batch[..i + 1]) == Handle(HandleAll(db, log, fails, batch[..i]), log, fails, id)
            && |Minus(batch[..i + 1], Settled(log, fails, batch))|
               == |Minus(batch[..i], Settled(log, fails, batch))| + if Settles(log, fails, id) then 0 else 1
  {
    assert batch[..i + 1][..i] == batch[..i];
    assert batch[..i + 1] == batch[..i] + [batch[i]];
    assert batch[i] in batch;
  }

  lemma {:induction false} MinusNothing(ids: seq<nat>)
    ensures Minus(ids, {}) == ids
  {
    if |ids| > 0 {
      MinusNothing(ids[..|ids| - 1]);
    }
  }

  lemma {:induction false} RemoveExtendsMinus(ids: seq<nat>, gone: set<nat>, id: nat)
    ensures Remove(Minus(ids, gone), id) == Minus(ids, gone + {id})
  {
    if |ids| > 0 {
      var rest := Minus(ids[..|ids| - 1], gone);
      var last := ids[|ids| - 1];
      RemoveExtendsMinus(ids[..|ids| - 1], gone, id);
      assert (rest + [last])[..|rest|] == rest;
    }
  }

  lemma {:induction false} MinusConcat(a: seq<nat>, b: seq<nat>, gone: set<nat>)
    ensures Minus(a + b, gone) == Minus(a, gone) + Minus(b, gone)
  {
    if |b| == 0 {
      assert a + b == a;
    } else {
      assert (a + b)[..|a + b| - 1] == a + b[..|b| - 1];
      MinusConcat(a, b[..|b| - 1], gone);
    }
  }

  lemma {:induction false} MinusDisjoint(ids: seq<nat>, gone: set<nat>)
    requires forall k :: 0 <= k < |ids| ==> ids[k] !in gone
    ensures Minus(ids, gone) == ids
  {
    if |ids| > 0 {
      MinusDisjoint(ids[..|ids| - 1], gone);
    }
  }

  lemma {:induction false} MinusMembers(ids: seq<nat>, gone: set<nat>)
    ensures forall id :: id in Minus(ids, gone) <==> id in ids && id !in gone
  {
    if |ids| > 0 {
      MinusMembers(ids[..|ids| - 1], gone);
      assert ids == ids[..|ids| - 1] + [ids[|ids| - 1]];
    }
  }

  // ---- How far failure-free restarts get ----------------------------------------------------

  /** Pending entries, split by whether a handler can ever succeed on them. */
  function Poison(log: seq<Entry>, ids: seq<nat>): (r: seq<nat>)
    ensures |r| <= |ids|
  {
    if |ids| == 0 then []
    else
      var rest := Poison(log, ids[..|ids| - 1]);
      if DeliverableAt(log, ids[|ids| - 1]) then rest else rest + [ids[|ids| - 1]]
  }

  function Deliverables(log: seq<Entry>, ids: seq<nat>): nat {
    if |ids| == 0 then 0
    else Deliverables(log, ids[..|ids| - 1]) + if DeliverableAt(log, ids[|ids| - 1]) then 1 else 0
  }

  ghost predicate Distinct(ids: seq<nat>) {
    forall i, j :: 0 <= i < j < |ids| ==> ids[i] != ids[j]
  }

  /** k restarts, each with a start-up pass in which no handler aborts. */
  function Restarts(log: seq<Entry>, pending: seq<nat>, k: nat): seq<nat>
    decreases k
  {
    if k == 0 then pending else Restarts(log, AfterReplay(log, {}, pending), k - 1)
  }

  /** Some deliverable entry has a hundred undeliverable ones pending in front of it. */
  ghost predicate Blocked(log: seq<Entry>, pending: seq<nat>) {
    exists j: nat :: BlockedAt(log, pending, j)
  }

  lemma {:induction false} PoisonConcat(log: seq<Entry>, a: seq<nat>, b: seq<nat>)
    ensures Poison(log, a + b) == Poison(log, a) + Poison(log, b)
    ensures Deliverables(log, a + b) == Deliverables(log, a) + Deliverables(log, b)
  {
    if |b| == 0 {
      assert a + b == a;
    } else {
      assert (a + b)[..|a + b| - 1] == a + b[..|b| - 1];
      PoisonConcat(log, a, b[..|b| - 1]);
    }
  }

  lemma {:induction false} PoisonCounts(log: seq<Entry>, ids: seq<nat>)
    ensures |Poison(log, ids)| + Deliverables(log, ids) == |ids|
    ensures Poison(log, Poison(log, ids)) == Poison(log, ids) && Deliverables(log, Poison(log, ids)) == 0
  {
    if |ids| > 0 {
      PoisonCounts(log, ids[..|ids| - 1]);
      PoisonConcat(log, Poison(log, ids[..|ids| - 1]), [ids[|ids| - 1]]);
    }
  }

  lemma {:induction false} PoisonOnly(log: seq<Entry>, ids: seq<nat>, k: nat)
    requires k < |Poison(log, ids)|
    ensures !DeliverableAt(log, Poison(log, ids)[k])
  {
    if k < |Poison(log, ids[..|ids| - 1])| {
      PoisonOnly(log, ids[..|ids| - 1], k);
    }
  }

  lemma {:induction false} NoneDeliverable(log: seq<Entry>, ids: seq<nat>)
    ensures Deliverables(log, ids) == 0 <==> forall k :: 0 <= k < |ids| ==> !DeliverableAt(log, ids[k])
  {
    if |ids| > 0 {
      NoneDeliverable(log, ids[..|ids| - 1]);
    }
  }

  lemma {:induction false} PoisonIsMinus(log: seq<Entry>, ids: seq<nat>, gone: set<nat>)
    requires forall k :: 0 <= k < |ids| ==> (ids[k] in gone <==> DeliverableAt(log, ids[k]))
    ensures Minus(ids, gone) == Poison(log, ids)
  {
    if |ids| > 0 {
      PoisonIsMinus(log, ids[..|ids| - 1], gone);
    }
  }

  /** A failure-free pass removes exactly the deliverable entries among the first hundred, and keeps the order. */
  lemma ReplaySplits(log: seq<Entry>, pending: seq<nat>)
    requires Distinct(pending)
    ensures var n := Min(|pending|, REPLAY_COUNT);
            AfterReplay(log, {}, pending) == Poison(log, pending[..n]) + pending[n..]
  {
    var n := Min(|pending|, REPLAY_COUNT);
    var first := pending[..n];
    var gone := Settled(log, {}, first);
    assert pending == first + pending[n..];
    MinusConcat(first, pending[n..], gone);
    PoisonIsMinus(log, first, gone);
    MinusDisjoint(pending[n..], gone);
  }

  lemma ReplayKeepsDistinct(log: seq<Entry>, fails: set<nat>, pending: seq<nat>)
    requires Distinct(pending)
    ensures Distinct(AfterReplay(log, fails, pending))
  {
    MinusKeepsDistinct(pending, Settled(log, fails, FirstReplayed(pending)));
  }

  lemma {:induction false} MinusKeepsDistinct(ids: seq<nat>, gone: set<nat>)
    requires Distinct(ids)
    ensures Distinct(Minus(ids, gone))
  {
    if |ids| > 0 {
      var rest := ids[..|ids| - 1];
      MinusKeepsDistinct(rest, gone);
      MinusMembers(rest, gone);
      forall k | 0 <= k < |Minus(rest, gone)| ensures Minus(rest, gone)[k] != ids[|ids| - 1] {
        assert Minus(rest, gone)[k] in rest;
      }
    }
  }

  /** Dropping the deliverable entries of the front leaves the undeliverable ones as they were. */
  lemma PurgedFront(log: seq<Entry>, first: seq<nat>, rest: seq<nat>)
    ensures Poison(log, Poison(log, first) + rest) == Poison(log, first + rest)
    ensures Deliverables(log, Poison(log, first) + rest) == Deliverables(log, first + rest) - Deliverables(log, first)
    ensures Deliverables(log, first) == |first| - |Poison(log, first)|
    ensures |Poison(log, first)| <= |Poison(log, first + rest)|
  {
    PoisonConcat(log, first, rest);
    PoisonConcat(log, Poison(log, first), rest);
    PoisonCounts(log, first);
  }

  lemma PoisonPurged(log: seq<Entry>, first: seq<nat>, rest: seq<nat>)
    ensures |Poison(log, Poison(log, first) + rest)| == |Poison(log, first + rest)|
  {
    PurgedFront(log, first, rest);
  }

  lemma PurgedFrontProgress(log: seq<Entry>, first: seq<nat>, rest: seq<nat>)
    requires |first| == REPLAY_COUNT || rest == []
    ensures Deliverables(log, Poison(log, first) + rest)
            <= Max(0, Deliverables(log, first + rest) - (REPLAY_COUNT - |Poison(log, first + rest)|))
  {
    if |first| == REPLAY_COUNT {
      PurgedFront(log, first, rest);
    } else {
      PurgedAll(log, first);
      assert Poison(log, first) + rest == Poison(log, first);
    }
  }

  lemma PurgedAll(log: seq<Entry>, first: seq<nat>)
    ensures Deliverables(log, Poison(log, first)) == 0
  {
    PoisonCounts(log, first);
  }

  /** One failure-free pass works off every deliverable entry, or as many as the undeliverable ones leave room for. */
  lemma ReplayProgress(log: seq<Entry>, pending: seq<nat>)
    requires Distinct(pending)
    ensures var after := AfterReplay(log, {}, pending);
            && |Poison(log, after)| == |Poison(log, pending)|
            && Deliverables(log, after) <= Max(0, Deliverables(log, pending) - (REPLAY_COUNT - |Poison(log, pending)|))
  {
    ReplaySplits(log, pending);
    var n := Min(|pending|, REPLAY_COUNT);
    assert pending == pending[..n] + pending[n..];
    PoisonPurged(log, pending[..n], pending[n..]);
    PurgedFrontProgress(log, pending[..n], pending[n..]);
  }

  /** A backlog that falls by pace k times, to no less than zero. */
  function Paced(backlog: nat, pace: nat, k: nat): nat
    decreases k
  {
    if k == 0 then backlog else Paced(Max(0, backlog - pace), pace, k - 1)
  }

  lemma {:induction false} PacedIs(backlog: nat, pace: nat, k: nat)
    ensures Paced(backlog, pace, k) == Max(0, backlog - k * pace)
    decreases k
  {
    if k > 0 {
      PacedIs(Max(0, backlog - pace), pace, k - 1);
      assert k * pace == (k - 1) * pace + pace;
      assert (k - 1) * pace >= 0;
    }
  }

  lemma {:induction false} PacedMonotone(less: nat, more: nat, pace: nat, k: nat)
    requires less <= more
    ensures Paced(less, pace, k) <= Paced(more, pace, k)
    decreases k
  {
    if k > 0 {
      PacedMonotone(Max(0, less - pace), Max(0, more - pace), pace, k - 1);
    }
  }

  /** With b undeliverable entries, b < 100, every restart works off 100 - b more: n pending valid entries need ceil(n / 100) restarts. */
  lemma DrainBound(log: seq<Entry>, pending: seq<nat>, k: nat)
    requires Distinct(pending) && |Poison(log, pending)| < REPLAY_COUNT
    ensures Deliverables(log, Restarts(log, pending, k))
            <= Max(0, Deliverables(log, pending) - k * (REPLAY_COUNT - |Poison(log, pending)|))
  {
    DrainPaced(log, pending, REPLAY_COUNT - |Poison(log, pending)|, k);
    PacedIs(Deliverables(log, pending), REPLAY_COUNT - |Poison(log, pending)|, k);
  }

  lemma {:induction false} DrainPaced(log: seq<Entry>, pending: seq<nat>, pace: nat, k: nat)
    requires Distinct(pending) && |Poison(log, pending)| + pace == REPLAY_COUNT
    ensures Deliverables(log, Restarts(log, pending, k)) <= Paced(Deliverables(log, pending), pace, k)
    decreases k
  {
    if k > 0 {
      var after := AfterReplay(log, {}, pending);
      ReplayAtPace(log, pending, pace);
      DrainPaced(log, after, pace, k - 1);
      PacedStep(Deliverables(log, pending), Deliverables(log, after), pace, k);
    }
  }

  lemma ReplayAtPace(log: seq<Entry>, pending: seq<nat>, pace: nat)
    requires Distinct(pending) && |Poison(log, pending)| + pace == REPLAY_COUNT
    ensures var after := AfterReplay(log, {}, pending);
            && Distinct(after) && |Poison(log, after)| + pace == REPLAY_COUNT
            && Deliverables(log, after) <= Max(0, Deliverables(log, pending) - pace)
  {
    ReplayKeepsDistinct(log, {}, pending);
    ReplayProgress(log, pending);
  }

  lemma PacedStep(backlog: nat, left: nat, pace: nat, k: nat)
    requires k > 0 && left <= Max(0, backlog - pace)
    ensures Paced(left, pace, k - 1) <= Paced(backlog, pace, k)
  {
    PacedMonotone(left, Max(0, backlog - pace), pace, k - 1);
  }

  ghost predicate BlockedAt(log: seq<Entry>, pending: seq<nat>, j: nat) {
    j < |pending| && DeliverableAt(log, pending[j]) && |Poison(log, pending[..j])| >= REPLAY_COUNT
  }

  lemma PrefixOfConcat(first: seq<nat>, rest: seq<nat>, i: nat)
    requires i < |rest|
    ensures (first + rest)[..|first| + i] == first + rest[..i]
    ensures |first| + i < |first + rest| && (first + rest)[|first| + i] == rest[i]
  {
  }

  /** An entry behind the front keeps the undeliverable entries ahead of it, n - |Poison(first)| places further up. */
  lemma ShiftedPosition(log: seq<Entry>, first: seq<nat>, rest: seq<nat>, i: nat)
    requires i < |rest|
    ensures BlockedAt(log, Poison(log, first) + rest, |Poison(log, first)| + i) <==> BlockedAt(log, first + rest, |first| + i)
  {
    PrefixOfConcat(first, rest, i);
    PrefixOfConcat(Poison(log, first), rest, i);
    PoisonPurged(log, first, rest[..i]);
  }

  lemma PurgedPartNotBlocked(log: seq<Entry>, first: seq<nat>, rest: seq<nat>, i: nat)
    requires i < |Poison(log, first)|
    ensures !BlockedAt(log, Poison(log, first) + rest, i)
  {
    PoisonOnly(log, first, i);
  }

  lemma ReplayKeepsBlocked(log: seq<Entry>, pending: seq<nat>)
    requires Distinct(pending)
    ensures Blocked(log, AfterReplay(log, {}, pending)) <==> Blocked(log, pending)
  {
    ReplaySplits(log, pending);
    var n := Min(|pending|, REPLAY_COUNT);
    assert pending == pending[..n] + pending[n..];
    PurgedFrontKeepsBlocked(log, pending[..n], pending[n..]);
  }

  lemma PurgedFrontKeepsBlocked(log: seq<Entry>, first: seq<nat>, rest: seq<nat>)
    requires |first| <= REPLAY_COUNT
    ensures Blocked(log, Poison(log, first) + rest) <==> Blocked(log, first + rest)
  {
    if j: nat :| BlockedAt(log, first + rest, j) {
      var i := j - |first|;
      assert |first| + i == j;
      ShiftedPosition(log, first, rest, i);
    }
    if i: nat :| BlockedAt(log, Poison(log, first) + rest, i) {
      BlockedBefore(log, first, rest, i);
    }
  }

  lemma BlockedBefore(log: seq<Entry>, first: seq<nat>, rest: seq<nat>, i: nat)
    requires BlockedAt(log, Poison(log, first) + rest, i)
    ensures Blocked(log, first + rest)
  {
    var m := |Poison(log, first)|;
    if i < m {
      PurgedPartNotBlocked(log, first, rest, i);
    } else {
      var k := i - m;
      ShiftedPosition(log, first, rest, k);
      assert BlockedAt(log, first + rest, |first| + k);
    }
  }

  lemma PoisonedFrontBlocks(log: seq<Entry>, first: seq<nat>, rest: seq<nat>)
    requires |first| == REPLAY_COUNT && Deliverables(log, first) == 0 && Deliverables(log, first + rest) > 0
    ensures Blocked(log, first + rest)
  {
    NoneDeliverable(log, first + rest);
    NoneDeliverable(log, first);
    var j: nat :| j < |first + rest| && DeliverableAt(log, (first + rest)[j]);
    assert (first + rest)[..j] == first + rest[..j - |first|];
    PoisonConcat(log, first, rest[..j - |first|]);
    PoisonCounts(log, first);
    assert BlockedAt(log, first + rest, j);
  }

  lemma UnblockedProgresses(log: seq<Entry>, pending: seq<nat>)
    requires Distinct(pending) && !Blocked(log, pending) && Deliverables(log, pending) > 0
    ensures Deliverables(log, AfterReplay(log, {}, pending)) < Deliverables(log, pending)
  {
    ReplaySplits(log, pending);
    var n := Min(|pending|, REPLAY_COUNT);
    var first, rest := pending[..n], pending[n..];
    assert pending == first + rest;
    PurgedFront(log, first, rest);
    if n == |pending| {
      assert first == pending;
    } else if Deliverables(log, first) == 0 {
      PoisonedFrontBlocks(log, first, rest);
    }
  }

  lemma {:induction false} RestartsKeepBlocked(log: seq<Entry>, pending: seq<nat>, k: nat)
    requires Distinct(pending)
    ensures Distinct(Restarts(log, pending, k))
    ensures Blocked(log, Restarts(log, pending, k)) <==> Blocked(log, pending)
    decreases k
  {
    if k > 0 {
      ReplayKeepsDistinct(log, {}, pending);
      ReplayKeepsBlocked(log, pending);
      RestartsKeepBlocked(log, AfterReplay(log, {}, pending), k - 1);
    }
  }

  lemma {:induction false} UnblockedDrains(log: seq<Entry>, pending: seq<nat>) returns (k: nat)
    requires Distinct(pending) && !Blocked(log, pending)
    ensures Deliverables(log, Restarts(log, pending, k)) == 0
    decreases Deliverables(log, pending)
  {
    if Deliverables(log, pending) == 0 {
      k := 0;
    } else {
      UnblockedProgresses(log, pending);
      ReplayKeepsDistinct(log, {}, pending);
      ReplayKeepsBlocked(log, pending);
      var n := UnblockedDrains(log, AfterReplay(log, {}, pending));
      k := n + 1;
    }
  }

  /**
   Restarting works off every deliverable pending entry if and only if no such entry has 100 undeliverable ones in
   front of it; when one has, no number of restarts ever reaches it.
   */
  lemma DrainsIffNotBlocked(log: seq<Entry>, pending: seq<nat>)
    requires Distinct(pending)
    ensures (exists k: nat :: Deliverables(log, Restarts(log, pending, k)) == 0) <==> !Blocked(log, pending)
  {
    if !Blocked(log, pending) {
      var k := UnblockedDrains(log, pending);
    }
    if k: nat :| Deliverables(log, Restarts(log, pending, k)) == 0 {
      RestartsKeepBlocked(log, pending, k);
      NoneDeliverable(log, Restarts(log, pending, k));
      assert forall j: nat :: !BlockedAt(log, Restarts(log, pending, k), j);
    }
  }
}
