/**
 The whole money path: the payment handlers, the stream between the services and the wallet's consumers, as one
 machine.  A published event may reach the stream never (a failed or crashed publish), once, or many times.
 */
module Settlement {
  import opened Prelude
  import opened WalletLedger
  import Lifecycle = PaymentLifecycle
  import Stream = PaymentStream
  import Payments
  import Republication

  datatype State = State(pay: Lifecycle.State, stream: Stream.State)

  /** Emit(k) appends the k-th published event to the stream, for the first time or again. */
  datatype Event = Pay(p: Lifecycle.Event) | Emit(k: nat) | Consume(c: Stream.Event)

  /** Stands for the UUID of payment number id: what matters is that it is not empty and different for every payment. */
  function PaymentId(id: nat): string {
    seq(id + 1, _ => 'p')
  }

  /** publishEvent's arguments for a completed payment. */
  function ToEvent(p: Lifecycle.Published): PaymentEvent {
    PaymentEvent(PaymentId(p.id), p.userId, p.amount, p.currency)
  }

  /** Nothing but the payment service appends to the stream. */
  function StreamEvents(s: State, e: Event): seq<Stream.Event> {
    match e
    case Pay(_) => []
    case Emit(k) => if k < |s.pay.published| then [Stream.Publish(Stream.Message(ToEvent(s.pay.published[k])))] else []
    case Consume(c) => if c.Publish? then [] else [c]
  }

  function PayEvents(e: Event): seq<Lifecycle.Event> {
    if e.Pay? then [e.p] else []
  }

  function Step(s: State, e: Event): State {
    var cs := StreamEvents(s, e);
    State(if e.Pay? then Lifecycle.Step(s.pay, e.p) else s.pay,
          if |cs| == 0 then s.stream else Stream.Step(s.stream, cs[0]))
  }

  function Run(es: seq<Event>): State {
    if |es| == 0 then State(Lifecycle.START, Stream.Init([]))
    else Step(Run(es[..|es| - 1]), es[|es| - 1])
  }

  // ---- Both halves are runs of their own machines ---------------------------------------------

  function AllPayEvents(es: seq<Event>): seq<Lifecycle.Event> {
    if |es| == 0 then [] else AllPayEvents(es[..|es| - 1]) + PayEvents(es[|es| - 1])
  }

  function AllStreamEvents(es: seq<Event>): seq<Stream.Event> {
    if |es| == 0 then []
    else AllStreamEvents(es[..|es| - 1]) + StreamEvents(Run(es[..|es| - 1]), es[|es| - 1])
  }

  lemma {:induction false} RunProjects(es: seq<Event>)
    ensures Run(es).pay == Lifecycle.Run(AllPayEvents(es))
    ensures Run(es).stream == Stream.Run([], AllStreamEvents(es))
  {
    if |es| > 0 {
      var rest, e := es[..|es| - 1], es[|es| - 1];
      RunProjects(rest);
      var cs := StreamEvents(Run(rest), e);
      if !e.Pay? {
        assert AllPayEvents(es) == AllPayEvents(rest);
      }
      if |cs| == 0 {
        assert AllStreamEvents(es) == AllStreamEvents(rest);
      }
    }
  }

  // ---- What is on the stream was published, and what is published is the payment's own --------

  ghost predicate Matched(s: Lifecycle.State, p: Lifecycle.Published) {
    p.id < |s.payments| && s.payments[p.id].isPi && p == Lifecycle.PublishedEvent(p.id, s.payments[p.id])
  }

  ghost predicate PublishedMatch(s: Lifecycle.State) {
    && (forall k :: 0 <= k < |s.published| ==> Matched(s, s.published[k]))
    && (forall h :: 0 <= h < |s.handlers| && s.handlers[h].Publishing? ==>
          s.handlers[h].id < |s.payments| && s.payments[s.handlers[h].id].isPi)
  }

  /** Payments are never removed, and their user, amount and currency never change. */
  ghost predicate Kept(s: Lifecycle.State, s': Lifecycle.State) {
    && |s.payments| <= |s'.payments|
    && forall i :: 0 <= i < |s.payments| ==>
         && s'.payments[i].userId == s.payments[i].userId
         && s'.payments[i].amount == s.payments[i].amount
         && s'.payments[i].currency == s.payments[i].currency
         && s'.payments[i].isPi == s.payments[i].isPi
  }

  lemma PayStepKeeps(s: Lifecycle.State, e: Lifecycle.Event)
    ensures Kept(s, Lifecycle.Step(s, e))
  {
    if e.Create? {
      assert Lifecycle.Step(s, e).payments[..|s.payments|] == s.payments;
    }
  }

  lemma PayStepHandlers(s: Lifecycle.State, e: Lifecycle.Event)
    requires PublishedMatch(s)
    ensures var s' := Lifecycle.Step(s, e);
            forall h :: 0 <= h < |s'.handlers| && s'.handlers[h].Publishing? ==>
              s'.handlers[h].id < |s.payments| && s.payments[s'.handlers[h].id].isPi
  {
  }

  lemma PayStepPublishes(s: Lifecycle.State, e: Lifecycle.Event)
    requires PublishedMatch(s)
    ensures var s' := Lifecycle.Step(s, e);
            forall k :: 0 <= k < |s'.published| ==> Matched(s, s'.published[k])
  {
  }

  lemma {:induction false} PublishedAreMatched(es: seq<Lifecycle.Event>)
    ensures PublishedMatch(Lifecycle.Run(es))
  {
    if |es| > 0 {
      var s := Lifecycle.Run(es[..|es| - 1]);
      PublishedAreMatched(es[..|es| - 1]);
      PayStepKeeps(s, es[|es| - 1]);
      PayStepHandlers(s, es[|es| - 1]);
      PayStepPublishes(s, es[|es| - 1]);
    }
  }

  lemma PublishedMatchAlways(es: seq<Event>)
    ensures PublishedMatch(Run(es).pay)
  {
    RunProjects(es);
    PublishedAreMatched(AllPayEvents(es));
  }

  ghost predicate WasPublished(s: Lifecycle.State, entry: Stream.Entry) {
    exists k :: 0 <= k < |s.published| && entry == Stream.Message(ToEvent(s.published[k]))
  }

  lemma {:induction false} StreamIsPublished(es: seq<Event>)
    ensures forall i :: 0 <= i < |Run(es).stream.log| ==> WasPublished(Run(es).pay, Run(es).stream.log[i])
  {
    if |es| > 0 {
      var rest, e := es[..|es| - 1], es[|es| - 1];
      var s := Run(rest);
      StreamIsPublished(rest);
      if e.Pay? {
        forall i | 0 <= i < |s.stream.log| ensures WasPublished(Run(es).pay, s.stream.log[i]) {
          var k :| 0 <= k < |s.pay.published| && s.stream.log[i] == Stream.Message(ToEvent(s.pay.published[k]));
          assert Run(es).pay.published[k] == s.pay.published[k];
        }
      }
    }
  }

  // ---- Balances in terms of payments ------------------------------------------------------------

  ghost predicate Credited(db: Db, id: nat) {
    EventKey(PaymentId(id)) in db.processed
  }

  ghost function AmountOf(p: Payments.Payment, u: string, c: string): int {
    if p.userId == u && c == (if p.currency == "" then "PI" else p.currency) then p.amount else 0
  }

  /** The amounts of those of the first n payments whose number is in ids. */
  ghost function Paid(payments: seq<Payments.Payment>, ids: set<nat>, n: nat, u: string, c: string): int
    requires n <= |payments|
  {
    if n == 0 then 0
    else Paid(payments, ids, n - 1, u, c) + if n - 1 in ids then AmountOf(payments[n - 1], u, c) else 0
  }

  lemma {:induction false} PaidGains(payments: seq<Payments.Payment>, ids: set<nat>, id: nat, n: nat, u: string, c: string)
    requires n <= |payments| && id < |payments| && id !in ids
    ensures Paid(payments, ids + {id}, n, u, c)
            == Paid(payments, ids, n, u, c) + if id < n then AmountOf(payments[id], u, c) else 0
  {
    if n > 0 {
      PaidGains(payments, ids, id, n - 1, u, c);
    }
  }

  lemma {:induction false} PaidNothing(payments: seq<Payments.Payment>, n: nat, u: string, c: string)
    requires n <= |payments|
    ensures Paid(payments, {}, n, u, c) == 0
  {
    if n > 0 {
      PaidNothing(payments, n - 1, u, c);
    }
  }

  /** The payment number a committed event stands for. */
  ghost function Number(e: PaymentEvent): nat {
    if |e.paymentId| == 0 then 0 else |e.paymentId| - 1
  }

  ghost function Numbers(committed: seq<PaymentEvent>): set<nat> {
    if |committed| == 0 then {} else Numbers(committed[..|committed| - 1]) + {Number(committed[|committed| - 1])}
  }

  ghost predicate IsOf(e: PaymentEvent, payments: seq<Payments.Payment>) {
    var id := Number(e);
    id < |payments| && e == PaymentEvent(PaymentId(id), payments[id].userId, payments[id].amount, payments[id].currency)
  }

  lemma {:induction false} NumbersAre(committed: seq<PaymentEvent>, id: nat)
    ensures id in Numbers(committed) <==> exists i :: 0 <= i < |committed| && Number(committed[i]) == id
  {
    if |committed| > 0 {
      var rest := committed[..|committed| - 1];
      NumbersAre(rest, id);
      if i :| 0 <= i < |rest| && Number(rest[i]) == id {
        assert committed[i] == rest[i];
      }
    }
  }

  lemma {:induction false} CommittedSumIsPaid(committed: seq<PaymentEvent>, payments: seq<Payments.Payment>, u: string, c: string)
    requires Stream.DistinctPayments(committed)
    requires forall i :: 0 <= i < |committed| ==> IsOf(committed[i], payments)
    ensures Sum(committed, Stream.AmountFor(u, c)) == Paid(payments, Numbers(committed), |payments|, u, c)
  {
    if |committed| == 0 {
      PaidNothing(payments, |payments|, u, c);
    } else {
      var rest, last := committed[..|committed| - 1], committed[|committed| - 1];
      CommittedSumIsPaid(rest, payments, u, c);
      NumbersAre(rest, Number(last));
      forall i | 0 <= i < |rest| ensures Number(rest[i]) != Number(last) {
        assert committed[i].paymentId != last.paymentId;
        assert IsOf(committed[i], payments);
      }
      PaidGains(payments, Numbers(rest), Number(last), |payments|, u, c);
    }
  }

  ghost function CreditedIds(s: State): set<nat> {
    set id | 0 <= id < |s.pay.payments| && Credited(s.stream.db, id)
  }

  ghost predicate Committed(s: State, e: PaymentEvent) {
    && IsOf(e, s.pay.payments)
    && exists k :: 0 <= k < |s.pay.published| && e == ToEvent(s.pay.published[k])
  }

  /** What the consumers' half guarantees, without the details of its processes. */
  lemma ConsumerFacts(es: seq<Event>)
    ensures var s := Run(es).stream;
            && Stream.DistinctPayments(s.committed)
            && Stream.CommittedIsProcessed(s)
            && Stream.BalancesAreCommitted(s)
  {
    RunProjects(es);
    Stream.RunKeepsInv([], AllStreamEvents(es));
  }

  lemma LogEntryIsOf(es: seq<Event>, e: PaymentEvent)
    requires Stream.Message(e) in Run(es).stream.log
    ensures Committed(Run(es), e)
  {
    var s := Run(es);
    PublishedMatchAlways(es);
    StreamIsPublished(es);
    var i :| 0 <= i < |s.stream.log| && s.stream.log[i] == Stream.Message(e);
    assert WasPublished(s.pay, s.stream.log[i]);
    var k :| 0 <= k < |s.pay.published| && s.stream.log[i] == Stream.Message(ToEvent(s.pay.published[k]));
  }

  lemma CommittedAreOf(es: seq<Event>)
    ensures forall e :: e in Run(es).stream.committed ==> Committed(Run(es), e)
  {
    ConsumerFacts(es);
    forall e | e in Run(es).stream.committed ensures Committed(Run(es), e) {
      LogEntryIsOf(es, e);
    }
  }

  lemma CreditedIffCommitted(es: seq<Event>, id: nat)
    ensures Credited(Run(es).stream.db, id) <==> id in Numbers(Run(es).stream.committed)
  {
    var s := Run(es);
    ConsumerFacts(es);
    CommittedAreOf(es);
    NumbersAre(s.stream.committed, id);
    if Credited(s.stream.db, id) {
      var e :| e in s.stream.committed && EventKey(e.paymentId) == EventKey(PaymentId(id));
      EventKeyInjective(e.paymentId, PaymentId(id));
      var i :| 0 <= i < |s.stream.committed| && s.stream.committed[i] == e;
    }
    if i :| 0 <= i < |s.stream.committed| && Number(s.stream.committed[i]) == id {
      assert s.stream.committed[i] in s.stream.committed;
    }
  }

  lemma NumbersAreCredited(es: seq<Event>)
    ensures Numbers(Run(es).stream.committed) == CreditedIds(Run(es))
  {
    var s := Run(es);
    CommittedAreOf(es);
    forall id: nat ensures id in Numbers(s.stream.committed) <==> id in CreditedIds(s) {
      CreditedIffCommitted(es, id);
      NumbersAre(s.stream.committed, id);
      if i :| 0 <= i < |s.stream.committed| && Number(s.stream.committed[i]) == id {
        assert s.stream.committed[i] in s.stream.committed;
      }
    }
  }

  // ---- Main results --------------------------------------------------------------------------------

  /**
   Whatever the interleaving of handlers, publishes, deliveries and crashes, a balance is exactly the amounts of that
   user's and currency's credited payments, each counted once - even where stale writes publish a payment twice.
   */
  lemma BalanceIsCreditedPayments(es: seq<Event>, u: string, c: string)
    ensures var s := Run(es);
            GetBalance(s.stream.db, u, c) == Paid(s.pay.payments, CreditedIds(s), |s.pay.payments|, u, c)
  {
    var s := Run(es);
    ConsumerFacts(es);
    CommittedAreOf(es);
    assert forall i :: 0 <= i < |s.stream.committed| ==> s.stream.committed[i] in s.stream.committed;
    CommittedSumIsPaid(s.stream.committed, s.pay.payments, u, c);
    NumbersAreCredited(es);
  }

  /**
   A credited payment is a Pi payment that completePayment moved to Completed; it is Completed now if no stale write
   intervened.
   */
  lemma CreditedWasCompleted(es: seq<Event>, id: nat)
    requires Credited(Run(es).stream.db, id)
    ensures var pay := Run(es).pay;
            && id < |pay.payments| && pay.payments[id].isPi
            && Sum(pay.writes, Lifecycle.CompletionOf(id)) >= 1
            && (Lifecycle.BlindWritesFresh(AllPayEvents(es)) ==> pay.payments[id].status == Payments.Completed)
  {
    var s, ps := Run(es), AllPayEvents(es);
    RunProjects(es);
    CreditedWasPublished(es, id);
    var k :| 0 <= k < |s.pay.published| && s.pay.published[k].id == id;
    PublishedAreMatched(ps);
    assert Matched(s.pay, s.pay.published[k]);
    PublishedWasCompleted(ps, k);
    if Lifecycle.BlindWritesFresh(ps) {
      Lifecycle.OneTerminalOutcome(ps, id);
    }
  }

  lemma PublishedWasCompleted(ps: seq<Lifecycle.Event>, k: nat)
    requires k < |Lifecycle.Run(ps).published|
    ensures var s := Lifecycle.Run(ps);
            1 <= Sum(s.published, Lifecycle.PublishedOf(s.published[k].id)) <= Sum(s.writes, Lifecycle.CompletionOf(s.published[k].id))
  {
    var s := Lifecycle.Run(ps);
    var id := s.published[k].id;
    Lifecycle.PublishedAtMostPerCompletion(ps, id);
    SumAtLeastTerm(s.published, k, Lifecycle.PublishedOf(id));
    SumNonNegative(s.handlers, Lifecycle.AboutToPublish(id));
  }

  lemma CreditedWasPublished(es: seq<Event>, id: nat)
    requires Credited(Run(es).stream.db, id)
    ensures exists k :: 0 <= k < |Run(es).pay.published| && Run(es).pay.published[k].id == id
  {
    var s := Run(es);
    CreditedIffCommitted(es, id);
    NumbersAre(s.stream.committed, id);
    CommittedAreOf(es);
    var i :| 0 <= i < |s.stream.committed| && Number(s.stream.committed[i]) == id;
    var e := s.stream.committed[i];
    assert e in s.stream.committed;
    var k :| 0 <= k < |s.pay.published| && e == ToEvent(s.pay.published[k]);
  }

  lemma DrainedIsStored(es: seq<Event>, i: nat)
    requires Run(es).stream.next == |Run(es).stream.log| && Run(es).stream.pending == [] && i < |Run(es).stream.log|
    ensures Stream.KeyStored(Run(es).stream, i)
  {
    RunProjects(es);
    Stream.RunKeepsInv([], AllStreamEvents(es));
    Stream.StartIsFixed([], AllStreamEvents(es));
    assert i in Run(es).stream.acked;
  }

  /** Every published event reached the stream, and every entry was delivered, handled and acked. */
  ghost predicate Drained(s: State) {
    && (forall k :: 0 <= k < |s.pay.published| ==> Stream.Message(ToEvent(s.pay.published[k])) in s.stream.log)
    && s.stream.next == |s.stream.log| && s.stream.pending == []
  }

  /** Once everything published is drained, the credited payments are exactly the published ones. */
  lemma DrainedCreditsPublished(es: seq<Event>, id: nat)
    requires Drained(Run(es))
    ensures Credited(Run(es).stream.db, id) <==> exists k :: 0 <= k < |Run(es).pay.published| && Run(es).pay.published[k].id == id
  {
    var s := Run(es);
    if Credited(s.stream.db, id) {
      CreditedWasPublished(es, id);
    }
    if k :| 0 <= k < |s.pay.published| && s.pay.published[k].id == id {
      var i :| 0 <= i < |s.stream.log| && s.stream.log[i] == Stream.Message(ToEvent(s.pay.published[k]));
      DrainedIsStored(es, i);
    }
  }

  // ---- Which completed payments are credited ----------------------------------------------------------

  /** No publish of the payment is given up in the run, or still in progress at its end. */
  ghost predicate PublishesKept(ps: seq<Lifecycle.Event>, id: nat) {
    && (forall k :: 0 <= k < |ps| && ps[k].GiveUp? ==>
          Lifecycle.HandlerAt(Lifecycle.Run(ps[..k]), ps[k].h) != Lifecycle.Publishing(id))
    && !Republication.PublishPending(Lifecycle.Run(ps), id)
  }

  lemma {:induction false} NothingUnpublished(ps: seq<Lifecycle.Event>, id: nat)
    requires id < |Lifecycle.Run(ps).payments| ==> Lifecycle.Run(ps).payments[id].isPi
    requires forall k :: 0 <= k < |ps| && ps[k].GiveUp? ==>
               Lifecycle.HandlerAt(Lifecycle.Run(ps[..k]), ps[k].h) != Lifecycle.Publishing(id)
    ensures Lifecycle.Unpublished(Lifecycle.Run(ps), id) == 0
  {
    if |ps| > 0 {
      var rest, e := ps[..|ps| - 1], ps[|ps| - 1];
      var s := Lifecycle.Run(rest);
      assert forall k :: 0 <= k < |rest| ==> rest[..k] == ps[..k] && rest[k] == ps[k];
      PayStepKeeps(s, e);
      NothingUnpublished(rest, id);
      Lifecycle.StepUnpublished(s, e, id);
    }
  }

  /** Without a lost publish, the published Pi payments are those that completePayment completed. */
  lemma PublishedIffCompleted(ps: seq<Lifecycle.Event>, id: nat)
    requires id < |Lifecycle.Run(ps).payments| && Lifecycle.Run(ps).payments[id].isPi && PublishesKept(ps, id)
    ensures var s := Lifecycle.Run(ps);
            Republication.Completions(s, id) >= 1 <==> exists k :: 0 <= k < |s.published| && s.published[k].id == id
  {
    var s := Lifecycle.Run(ps);
    NothingUnpublished(ps, id);
    Republication.NonePending(s, id);
    if forall k :: 0 <= k < |s.published| ==> s.published[k].id != id {
      SumZero(s.published, Lifecycle.PublishedOf(id));
    } else {
      var k :| 0 <= k < |s.published| && s.published[k].id == id;
      SumAtLeastTerm(s.published, k, Lifecycle.PublishedOf(id));
    }
  }

  /**
   Once everything is drained and no publish of it was lost, a Pi payment is credited if and only if completePayment
   completed it - in every run, stale updates or not.
   */
  lemma CreditedIffCompletePayment(es: seq<Event>, id: nat)
    requires Drained(Run(es)) && PublishesKept(AllPayEvents(es), id)
    requires id < |Run(es).pay.payments| && Run(es).pay.payments[id].isPi
    ensures Credited(Run(es).stream.db, id) <==> Republication.Completions(Run(es).pay, id) >= 1
  {
    RunProjects(es);
    DrainedCreditsPublished(es, id);
    PublishedIffCompleted(AllPayEvents(es), id);
  }

  /**
   Only completePayment's completions are credited, not the webhook's and not resolve's: a payment that is Completed and
   was approved only once is credited if and only if completePayment completed it, and, where resolve did not, if and
   only if the webhook did not either.
   */
  lemma CompletedIsCreditedIff(es: seq<Event>, id: nat)
    requires Drained(Run(es)) && PublishesKept(AllPayEvents(es), id)
    requires Republication.Has(Run(es).pay, id, Payments.Completed) && Run(es).pay.payments[id].isPi
    requires Republication.Approvals(Run(es).pay, id) <= 1
    ensures var s := Run(es);
            && (Credited(s.stream.db, id) <==> Republication.Completions(s.pay, id) == 1)
            && (Republication.ResolveCompletions(s.pay, id) == 0 ==>
                  (Credited(s.stream.db, id) <==> Republication.WebhookCompletions(s.pay, id) == 0))
  {
    RunProjects(es);
    CreditedIffCompletePayment(es, id);
    Republication.SuccessesNeedApprovals(AllPayEvents(es), id);
  }

  /** With no stale write in the run: credited if and only if neither the webhook nor resolve completed it. */
  lemma FreshCompletedIsCreditedIff(es: seq<Event>, id: nat)
    requires Drained(Run(es)) && PublishesKept(AllPayEvents(es), id) && Lifecycle.BlindWritesFresh(AllPayEvents(es))
    requires Republication.Has(Run(es).pay, id, Payments.Completed) && Run(es).pay.payments[id].isPi
    ensures var s := Run(es);
            Credited(s.stream.db, id)
            <==> Republication.WebhookCompletions(s.pay, id) == 0 && Republication.ResolveCompletions(s.pay, id) == 0
  {
    var ps := AllPayEvents(es);
    RunProjects(es);
    CreditedIffCompletePayment(es, id);
    Republication.SuccessesNeedApprovals(ps, id);
    Lifecycle.TableObeyedIffBlindWritesFresh(ps);
    Republication.FreshCompletesOnce(ps, id);
  }

  /**
   The webhook completes a payment without publishing, so a payment it completed is never credited if it was approved
   only once: the webhook won the race with completePayment, which then does not publish either.
   */
  lemma WebhookCompletionIsNeverCredited(es: seq<Event>, id: nat)
    requires Republication.Approvals(Run(es).pay, id) <= 1
    requires Republication.WebhookCompletions(Run(es).pay, id) >= 1
    ensures !Credited(Run(es).stream.db, id)
  {
    var ps := AllPayEvents(es);
    RunProjects(es);
    Republication.SuccessesNeedApprovals(ps, id);
    if Credited(Run(es).stream.db, id) {
      CreditedWasCompleted(es, id);
    }
  }

  /** A payment is approved only once if no stale update intervenes, or if no two approvals of it are in flight together. */
  lemma ApprovedOnce(es: seq<Event>, id: nat)
    requires Lifecycle.BlindWritesFresh(AllPayEvents(es)) || Republication.AtMostInFlight(AllPayEvents(es), id, 1)
    ensures Republication.Approvals(Run(es).pay, id) <= 1
  {
    var ps := AllPayEvents(es);
    RunProjects(es);
    if Lifecycle.BlindWritesFresh(ps) {
      Lifecycle.TableObeyedIffBlindWritesFresh(ps);
      Republication.FreshApprovesOnce(ps, id);
    } else {
      Republication.ApprovalsBounded(ps, id, 1);
      SumNonNegative(Lifecycle.Run(ps).handlers, Republication.ApprovingOf(id));
    }
  }

  // ---- Both ways it can go -------------------------------------------------------------------------------

  lemma RunSnoc(es: seq<Event>, e: Event)
    ensures Run(es + [e]) == Step(Run(es), e)
  {
    assert (es + [e])[..|es|] == es;
  }

  /** A run of the payment handlers alone. */
  function PayOnly(ps: seq<Lifecycle.Event>): seq<Event> {
    if |ps| == 0 then [] else PayOnly(ps[..|ps| - 1]) + [Pay(ps[|ps| - 1])]
  }

  lemma PaySnoc(es: seq<Event>, p: Lifecycle.Event)
    ensures (Run(es + [Pay(p)]), AllPayEvents(es + [Pay(p)])) == (Step(Run(es), Pay(p)), AllPayEvents(es) + [p])
  {
    assert (es + [Pay(p)])[..|es|] == es;
  }

  lemma {:induction false} PayOnlyDoes(ps: seq<Lifecycle.Event>)
    ensures (Run(PayOnly(ps)), AllPayEvents(PayOnly(ps))) == (State(Lifecycle.Run(ps), Stream.Init([])), ps)
  {
    if |ps| > 0 {
      var rest, p := ps[..|ps| - 1], ps[|ps| - 1];
      PayOnlyDoes(rest);
      PaySnoc(PayOnly(rest), p);
      assert rest + [p] == ps;
    }
  }

  /** The credit can be missing for good: a completed Pi payment, everything drained, no publish lost, and no credit. */
  lemma CompletedNotCredited(writer: Lifecycle.Writer)
    requires writer.ByWebhook? || writer.ByResolve?
    ensures var s := Run(PayOnly(Republication.CompletedElsewhere(writer, false)));
            && Drained(s) && s.pay.payments == [Republication.WithPiId(Payments.Completed, Republication.PI_ID, 1)]
            && !Republication.PublishPending(s.pay, 0) && !Credited(s.stream.db, 0)
  {
    var ps := Republication.CompletedElsewhere(writer, false);
    Republication.CompletedElsewhereDoes(writer, false);
    PayOnlyDoes(ps);
    SumZero(Run(PayOnly(ps)).pay.writes, Lifecycle.CompletionOf(0));
    if Credited(Run(PayOnly(ps)).stream.db, 0) {
      CreditedWasCompleted(PayOnly(ps), 0);
    }
  }

  const EVENT: PaymentEvent := PaymentEvent(PaymentId(0), "u", 1, "PI")

  /** The published event is appended, read and handled. */
  function ThenCredit(es: seq<Event>): seq<Event> {
    es + [Emit(0)] + [Consume(Stream.Start(0))] + [Consume(Stream.Read(0, 1))] + [Consume(Stream.Look(0))] + [Consume(Stream.CommitTx(0))]
  }

  lemma Delivered(es: seq<Event>)
    requires var s := Run(es).stream;
             && s.log == [Stream.Message(EVENT)] && s.next == 0 && s.db == EMPTY_DB && Stream.ProcOf(s, 0) == Stream.Up([], Stream.Ready)
    ensures var credited := Run(es + [Consume(Stream.Read(0, 1))] + [Consume(Stream.Look(0))] + [Consume(Stream.CommitTx(0))]);
            credited.pay == Run(es).pay && Credited(credited.stream.db, 0)
  {
    var read := es + [Consume(Stream.Read(0, 1))];
    RunSnoc(es, Consume(Stream.Read(0, 1)));
    assert Stream.ProcOf(Run(read).stream, 0) == Stream.Up([0], Stream.Ready);
    RunSnoc(read, Consume(Stream.Look(0)));
    assert Stream.ProcOf(Run(read + [Consume(Stream.Look(0))]).stream, 0) == Stream.Up([0], Stream.Handling(false));
    RunSnoc(read + [Consume(Stream.Look(0))], Consume(Stream.CommitTx(0)));
  }

  lemma CreditedAfter(ps: seq<Lifecycle.Event>)
    requires Lifecycle.Run(ps).published == [Lifecycle.Published(0, "u", 1, "PI")]
    ensures Run(ThenCredit(PayOnly(ps))).pay == Lifecycle.Run(ps) && Credited(Run(ThenCredit(PayOnly(ps))).stream.db, 0)
  {
    var es := PayOnly(ps);
    PayOnlyDoes(ps);
    RunSnoc(es, Emit(0));
    RunSnoc(es + [Emit(0)], Consume(Stream.Start(0)));
    var started := es + [Emit(0)] + [Consume(Stream.Start(0))];
    var s := Run(started).stream;
    assert s.log == [Stream.Message(EVENT)] && s.next == 0 && s.db == EMPTY_DB && Stream.ProcOf(s, 0) == Stream.Up([], Stream.Ready);
    Delivered(started);
  }

  /** The single approval is needed: revived by a stale approval, a payment that the webhook completed is credited after all. */
  lemma WebhookCompletedYetCredited()
    ensures var s := Run(ThenCredit(PayOnly(Republication.RevivedAndPublished())));
            Republication.WebhookCompletions(s.pay, 0) >= 1 && Credited(s.stream.db, 0)
  {
    var ps := Republication.RevivedAndPublished();
    Republication.RevivedAndPublishedDoes();
    CreditedAfter(ps);
    SumAtLeastTerm(Lifecycle.Run(ps).writes, 1, Republication.WebhookOf(0));
  }

  /** Freshness is needed: a published payment that a stale fail overwrites and resolve completes again is credited. */
  lemma ResolvedYetCredited()
    ensures var s := Run(ThenCredit(PayOnly(Republication.ResolvedAfterPublish())));
            Republication.ResolveCompletions(s.pay, 0) >= 1 && Credited(s.stream.db, 0)
  {
    var ps := Republication.ResolvedAfterPublish();
    Republication.ResolvedAfterPublishDoes();
    CreditedAfter(ps);
    SumAtLeastTerm(Lifecycle.Run(ps).writes, 3, Republication.ResolveOf(0));
  }
}
