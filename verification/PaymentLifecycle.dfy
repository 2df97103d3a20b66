/**
 The payment handlers interleaved.  Each handler is split at its database calls: the read before the Pi call,
 the Pi call itself, and the write after it.  complete, cancel and the webhook's success path read again inside
 the transaction that writes; approve, fail, the webhook's failure path, the reconciliation cron and
 resolveIncompletePayment do not.
 A payment's id is its index, a handler's id is the order of its start.
 */
module PaymentLifecycle {
  import opened Prelude
  import opened Payments

  datatype Published = Published(id: nat, userId: string, amount: int, currency: string)

  datatype Writer = ByApprove | ByComplete | ByCancel | ByFail | ByWebhook | ByWebhookFailure | ByReconcile | ByResolve

  /** One status update, with the status it replaced. */
  datatype Write = Write(id: nat, from: Status, to: Status, writer: Writer)

  datatype Handler =
    | Idle
    | Approving(id: nat, piId: Option<string>)
    | Completing(id: nat)
    | Publishing(id: nat)
    | WebhookCompleting(id: nat)
    | Failing(id: nat)
    | Reconciling(id: nat)
    | Resolving(id: nat, done: bool)

  datatype State = State(payments: seq<Payment>, handlers: seq<Handler>, published: seq<Published>, writes: seq<Write>)

  datatype Event =
    | Create(payment: Payment)
    | ApproveRead(id: nat, piId: Option<string>)
    | ApproveWrite(h: nat, now: int)
    | CompleteRead(id: nat)
    | CompleteTx(h: nat)
    | Publish(h: nat)
    | CancelTx(id: nat)
    | FailRead(id: nat)
    | FailWrite(h: nat)
    | WebhookRead(id: nat)
    | WebhookTx(h: nat)
    | WebhookFailure(h: nat)
    | ReconcileRead(id: nat)
    | ReconcileWrite(h: nat)
    | ResolveRead(id: nat, done: bool)
    | ResolveWrite(h: nat)
    | GiveUp(h: nat)

  const START := State([], [], [], [])

  function HandlerAt(s: State, h: nat): Handler {
    if h < |s.handlers| then s.handlers[h] else Idle
  }

  function Spawn(s: State, handler: Handler): State {
    s.(handlers := s.handlers + [handler])
  }

  function Finish(s: State, h: nat): State {
    if h < |s.handlers| then s.(handlers := s.handlers[h := Idle]) else s
  }

  function SetStatus(s: State, id: nat, to: Status, writer: Writer): State {
    if id < |s.payments| then
      s.(payments := s.payments[id := s.payments[id].(status := to)],
         writes := s.writes + [Write(id, s.payments[id].status, to, writer)])
    else s
  }

  function SetApproved(s: State, id: nat, piId: Option<string>, now: int): State {
    var t := SetStatus(s, id, Approved, ByApprove);
    if id < |s.payments| then
      t.(payments := t.payments[id := t.payments[id].(piId := if piId.Some? then piId else t.payments[id].piId, approvedAt := Some(now))])
    else t
  }

  /** The unique index on pi_payment_id. */
  predicate PiIdTaken(s: State, id: nat, piId: Option<string>) {
    piId.Some? && exists i :: 0 <= i < |s.payments| && i != id && s.payments[i].piId == piId
  }

  predicate Allows(s: State, id: nat, to: Status) {
    id < |s.payments| && IsTransitionAllowed(s.payments[id].status, to)
  }

  /** A Pi payment id that JavaScript treats as true; the webhook and resolve find a payment by nothing else. */
  predicate Given(piId: Option<string>) {
    piId.Some? && piId.value != ""
  }

  predicate Findable(s: State, id: nat) {
    id < |s.payments| && Given(s.payments[id].piId)
  }

  /** What resolve makes of a payment that is done in Pi, and of one that is not. */
  function ResolvedTo(done: bool): Status {
    if done then Completed else Cancelled
  }

  function PublishedEvent(id: nat, p: Payment): Published {
    Published(id, p.userId, p.amount, p.currency)
  }

  function Step(s: State, e: Event): State {
    match e
    case Create(p) => s.(payments := s.payments + [p.(status := Created, approvedAt := None, piId := None)])
    case ApproveRead(id, piId) => if Allows(s, id, Approved) then Spawn(s, Approving(id, piId)) else s
    case ApproveWrite(h, now) =>
      (match HandlerAt(s, h)
       case Approving(id, piId) =>
         if PiIdTaken(s, id, piId) then Finish(s, h) else Finish(SetApproved(s, id, piId, now), h)
       case _ => s)
    case CompleteRead(id) => if Allows(s, id, Completed) then Spawn(s, Completing(id)) else s
    case CompleteTx(h) =>
      (match HandlerAt(s, h)
       case Completing(id) =>
         if !Allows(s, id, Completed) then Finish(s, h)
         else
           var written := SetStatus(s, id, Completed, ByComplete);
           if s.payments[id].isPi then written.(handlers := s.handlers[h := Publishing(id)]) else Finish(written, h)
       case _ => s)
    case Publish(h) =>
      (match HandlerAt(s, h)
       case Publishing(id) =>
         if id < |s.payments| then Finish(s.(published := s.published + [PublishedEvent(id, s.payments[id])]), h)
         else s
       case _ => s)
    case CancelTx(id) => if Allows(s, id, Cancelled) then SetStatus(s, id, Cancelled, ByCancel) else s
    case FailRead(id) => if Allows(s, id, Failed) then Spawn(s, Failing(id)) else s
    case FailWrite(h) =>
      (match HandlerAt(s, h)
       case Failing(id) => Finish(SetStatus(s, id, Failed, ByFail), h)
       case _ => s)
    case WebhookRead(id) =>
      if Findable(s, id) && s.payments[id].status == Approved then Spawn(s, WebhookCompleting(id)) else s
    case WebhookTx(h) =>
      (match HandlerAt(s, h)
       case WebhookCompleting(id) =>
         if id < |s.payments| && s.payments[id].status == Approved
         then Finish(SetStatus(s, id, Completed, ByWebhook), h) else Finish(s, h)
       case _ => s)
    case WebhookFailure(h) =>
      (match HandlerAt(s, h)
       case WebhookCompleting(id) => Finish(SetStatus(s, id, Failed, ByWebhookFailure), h)
       case _ => s)
    case ReconcileRead(id) => if Allows(s, id, Failed) then Spawn(s, Reconciling(id)) else s
    case ReconcileWrite(h) =>
      (match HandlerAt(s, h)
       case Reconciling(id) => Finish(SetStatus(s, id, Failed, ByReconcile), h)
       case _ => s)
    case ResolveRead(id, done) =>
      if Findable(s, id) && s.payments[id].status != ResolvedTo(done) then Spawn(s, Resolving(id, done)) else s
    case ResolveWrite(h) =>
      (match HandlerAt(s, h)
       case Resolving(id, done) => Finish(SetStatus(s, id, ResolvedTo(done), ByResolve), h)
       case _ => s)
    case GiveUp(h) => Finish(s, h)
  }

  function Exec(s: State, es: seq<Event>): State {
    if |es| == 0 then s else Step(Exec(s, es[..|es| - 1]), es[|es| - 1])
  }

  function Run(es: seq<Event>): State {
    Exec(START, es)
  }

  // ---- The transition table in a run --------------------------------------------------------

  predicate Rechecked(writer: Writer) {
    writer.ByComplete? || writer.ByCancel? || writer.ByWebhook?
  }

  ghost predicate AllAllowed(writes: seq<Write>) {
    forall i :: 0 <= i < |writes| ==> IsTransitionAllowed(writes[i].from, writes[i].to)
  }

  /** The id a handler is about to write without reading again, and what it writes. */
  function BlindTarget(s: State, e: Event): Option<(nat, Status)> {
    match e
    case ApproveWrite(h, _) =>
      (match HandlerAt(s, h)
       case Approving(id, piId) => if PiIdTaken(s, id, piId) then None else Some((id, Approved))
       case _ => None)
    case FailWrite(h) => (match HandlerAt(s, h) case Failing(id) => Some((id, Failed)) case _ => None)
    case WebhookFailure(h) => (match HandlerAt(s, h) case WebhookCompleting(id) => Some((id, Failed)) case _ => None)
    case ReconcileWrite(h) => (match HandlerAt(s, h) case Reconciling(id) => Some((id, Failed)) case _ => None)
    case ResolveWrite(h) => (match HandlerAt(s, h) case Resolving(id, done) => Some((id, ResolvedTo(done))) case _ => None)
    case _ => None
  }

  /** A write without a second read is fresh if the status it replaces still allows it. */
  predicate Fresh(s: State, e: Event) {
    var t := BlindTarget(s, e);
    t.Some? && t.value.0 < |s.payments| ==> Allows(s, t.value.0, t.value.1)
  }

  ghost predicate BlindWritesFresh(es: seq<Event>) {
    forall k :: 0 <= k < |es| ==> Fresh(Run(es[..k]), es[k])
  }

  /** Every write that is not re-checked comes directly after the read of its own handler. */
  predicate BlindWritesFollowReads(es: seq<Event>) {
    |es| > 0 ==>
      BlindWritesFollowReads(es[..|es| - 1]) && FollowsItsRead(es[..|es| - 1], es[|es| - 1])
  }

  predicate FollowsItsRead(rest: seq<Event>, e: Event) {
    BlindTarget(Run(rest), e).Some? ==> |rest| > 0 && ReadOf(Run(rest[..|rest| - 1]), rest[|rest| - 1], e)
  }

  /** The read e starts the handler whose write is f. */
  predicate ReadOf(s: State, e: Event, f: Event) {
    match f
    case ApproveWrite(h, _) => e.ApproveRead? && Allows(s, e.id, Approved) && h == |s.handlers|
    case FailWrite(h) => e.FailRead? && Allows(s, e.id, Failed) && h == |s.handlers|
    case WebhookFailure(h) => e.WebhookRead? && Findable(s, e.id) && s.payments[e.id].status == Approved && h == |s.handlers|
    case ReconcileWrite(h) => e.ReconcileRead? && Allows(s, e.id, Failed) && h == |s.handlers|
    case ResolveWrite(h) =>
      e.ResolveRead? && Findable(s, e.id) && Allows(s, e.id, ResolvedTo(e.done)) && h == |s.handlers|
    case _ => false
  }

  lemma ReadThenWriteIsFresh(s: State, e: Event, f: Event)
    requires ReadOf(s, e, f)
    ensures Fresh(Step(s, e), f)
  {
  }

  lemma FollowingIsFresh(rest: seq<Event>, e: Event)
    requires FollowsItsRead(rest, e)
    ensures Fresh(Run(rest), e)
  {
    if BlindTarget(Run(rest), e).Some? {
      ReadThenWriteIsFresh(Run(rest[..|rest| - 1]), rest[|rest| - 1], e);
    }
  }

  /** So complete, cancel and webhook-success invocations may race freely: only a read and its blind write must not be torn apart. */
  lemma {:induction false} AdjacentBlindWritesAreFresh(es: seq<Event>)
    requires BlindWritesFollowReads(es)
    ensures BlindWritesFresh(es)
  {
    if |es| > 0 {
      var rest, e := es[..|es| - 1], es[|es| - 1];
      AdjacentBlindWritesAreFresh(rest);
      FollowingIsFresh(rest, e);
      assert es == rest + [e];
      BlindWritesFreshSplits(rest, e);
    }
  }

  /** s' differs from s by the status update w. */
  ghost predicate WritesOnce(s: State, s': State, w: Write) {
    && s'.writes == s.writes + [w]
    && w.id < |s.payments| == |s'.payments|
    && w.from == s.payments[w.id].status
    && w.to == s'.payments[w.id].status
    && forall i :: 0 <= i < |s.payments| && i != w.id ==> s'.payments[i] == s.payments[i]
  }

  /** s' has the same status updates as s, and possibly one new payment. */
  ghost predicate WritesNothing(s: State, s': State) {
    && s'.writes == s.writes
    && |s.payments| <= |s'.payments|
    && (forall i :: 0 <= i < |s.payments| ==> s'.payments[i] == s.payments[i])
    && (forall i :: |s.payments| <= i < |s'.payments| ==> s'.payments[i].status == Created)
  }

  ghost predicate Moves(s: State, s': State) {
    WritesNothing(s, s') || exists w :: WritesOnce(s, s', w)
  }

  lemma SetStatusWritesOnce(s: State, id: nat, to: Status, writer: Writer)
    requires id < |s.payments|
    ensures WritesOnce(s, SetStatus(s, id, to, writer), Write(id, s.payments[id].status, to, writer))
  {
  }

  /** At most one status is updated; an update outside the table is never a re-checked one, and is exactly a stale blind one. */
  ghost predicate Accounted(s: State, e: Event, s': State) {
    if s'.writes == s.writes then WritesNothing(s, s') && Fresh(s, e)
    else
      && |s'.writes| > 0
      && var w := s'.writes[|s'.writes| - 1];
         && WritesOnce(s, s', w)
         && (IsTransitionAllowed(w.from, w.to) <==> Fresh(s, e))
         && (Rechecked(w.writer) ==> Fresh(s, e))
  }

  lemma ApproveWriteAccounted(s: State, h: nat, now: int)
    ensures Accounted(s, ApproveWrite(h, now), Step(s, ApproveWrite(h, now)))
  {
    var handler := HandlerAt(s, h);
    if handler.Approving? && handler.id < |s.payments| && !PiIdTaken(s, handler.id, handler.piId) {
      SetStatusWritesOnce(s, handler.id, Approved, ByApprove);
    }
  }

  lemma RecheckedAccounted(s: State, e: Event)
    requires e.CompleteTx? || e.CancelTx? || e.WebhookTx?
    ensures Accounted(s, e, Step(s, e))
  {
    match e
    case CompleteTx(h) =>
      if HandlerAt(s, h).Completing? && s.handlers[h].id < |s.payments| {
        SetStatusWritesOnce(s, s.handlers[h].id, Completed, ByComplete);
      }
    case CancelTx(id) =>
      if id < |s.payments| {
        SetStatusWritesOnce(s, id, Cancelled, ByCancel);
      }
    case WebhookTx(h) =>
      if HandlerAt(s, h).WebhookCompleting? && s.handlers[h].id < |s.payments| {
        SetStatusWritesOnce(s, s.handlers[h].id, Completed, ByWebhook);
      }
  }

  lemma FailuresAccounted(s: State, e: Event)
    requires e.FailWrite? || e.WebhookFailure? || e.ReconcileWrite?
    ensures Accounted(s, e, Step(s, e))
  {
    var handler := HandlerAt(s, e.h);
    if !handler.Idle? && handler.id < |s.payments| {
      SetStatusWritesOnce(s, handler.id, Failed, if e.FailWrite? then ByFail else if e.WebhookFailure? then ByWebhookFailure else ByReconcile);
    }
  }

  lemma ResolveAccounted(s: State, h: nat)
    ensures Accounted(s, ResolveWrite(h), Step(s, ResolveWrite(h)))
  {
    var handler := HandlerAt(s, h);
    if handler.Resolving? && handler.id < |s.payments| {
      SetStatusWritesOnce(s, handler.id, ResolvedTo(handler.done), ByResolve);
    }
  }

  lemma StepWrites(s: State, e: Event)
    ensures Accounted(s, e, Step(s, e)) && Moves(s, Step(s, e))
  {
    match e
    case ApproveWrite(h, now) => ApproveWriteAccounted(s, h, now);
    case CompleteTx(_) => RecheckedAccounted(s, e);
    case CancelTx(_) => RecheckedAccounted(s, e);
    case WebhookTx(_) => RecheckedAccounted(s, e);
    case FailWrite(_) => FailuresAccounted(s, e);
    case WebhookFailure(_) => FailuresAccounted(s, e);
    case ReconcileWrite(_) => FailuresAccounted(s, e);
    case ResolveWrite(h) => ResolveAccounted(s, h);
    case _ =>
  }

  /** complete, cancel and the webhook's success path obey the table whatever runs between their reads and writes. */
  lemma {:induction false} RecheckedWritesObeyTable(es: seq<Event>)
    ensures forall i :: 0 <= i < |Run(es).writes| && Rechecked(Run(es).writes[i].writer) ==>
              IsTransitionAllowed(Run(es).writes[i].from, Run(es).writes[i].to)
  {
    if |es| > 0 {
      var s, e := Run(es[..|es| - 1]), es[|es| - 1];
      RecheckedWritesObeyTable(es[..|es| - 1]);
      StepWrites(s, e);
      if w :| WritesOnce(s, Step(s, e), w) {
        assert Run(es).writes[|s.writes|] == w;
      }
    }
  }

  lemma BlindWritesFreshSplits(rest: seq<Event>, e: Event)
    ensures BlindWritesFresh(rest + [e]) <==> BlindWritesFresh(rest) && Fresh(Run(rest), e)
  {
    var es := rest + [e];
    assert forall k :: 0 <= k < |rest| ==> es[..k] == rest[..k] && es[k] == rest[k];
    assert es[..|rest|] == rest && es[|rest|] == e;
    if BlindWritesFresh(es) {
      assert Fresh(Run(es[..|rest|]), es[|rest|]);
      forall k | 0 <= k < |rest| ensures Fresh(Run(rest[..k]), rest[k]) {
        assert Fresh(Run(es[..k]), es[k]);
      }
    }
  }

  lemma AllAllowedSplits(writes: seq<Write>, w: Write)
    ensures AllAllowed(writes + [w]) <==> AllAllowed(writes) && IsTransitionAllowed(w.from, w.to)
  {
    var longer := writes + [w];
    assert longer[|writes|] == w;
    assert forall i :: 0 <= i < |writes| ==> longer[i] == writes[i];
  }

  /** A run obeys the transition table if and only if every write that is not re-checked finds its status still allowed. */
  lemma {:induction false} TableObeyedIffBlindWritesFresh(es: seq<Event>)
    ensures AllAllowed(Run(es).writes) <==> BlindWritesFresh(es)
  {
    if |es| > 0 {
      var rest, e := es[..|es| - 1], es[|es| - 1];
      assert es == rest + [e];
      TableObeyedIffBlindWritesFresh(rest);
      BlindWritesFreshSplits(rest, e);
      var s := Run(rest);
      StepWrites(s, e);
      if w :| WritesOnce(s, Step(s, e), w) {
        AllAllowedSplits(s.writes, w);
      }
    }
  }

  // ---- One terminal outcome -----------------------------------------------------------------

  ghost function ExitOf(id: nat): Write -> int {
    (w: Write) => if w.id == id && !Terminal(w.from) && Terminal(w.to) then 1 else 0
  }

  ghost function CompletionOf(id: nat): Write -> int {
    (w: Write) => if w.id == id && w.writer.ByComplete? then 1 else 0
  }

  ghost function PublishedOf(id: nat): Published -> int {
    (p: Published) => if p.id == id then 1 else 0
  }

  ghost function AboutToPublish(id: nat): Handler -> int {
    (h: Handler) => if h == Publishing(id) then 1 else 0
  }

  /** completePayment's own commits for a payment that are not matched by a published event or a publish in progress. */
  ghost function Unpublished(s: State, id: nat): int {
    Sum(s.writes, CompletionOf(id)) - Sum(s.published, PublishedOf(id)) - Sum(s.handlers, AboutToPublish(id))
  }

  /** The step gives up a publish of the payment, or completes a payment that is not in Pi. */
  predicate LosesPublish(s: State, e: Event, id: nat) {
    match e
    case GiveUp(h) => HandlerAt(s, h) == Publishing(id)
    case CompleteTx(h) => HandlerAt(s, h) == Completing(id) && Allows(s, id, Completed) && !s.payments[id].isPi
    case _ => false
  }

  /** Only CompleteTx starts a publish, Publish makes one and GiveUp drops one. */
  lemma OtherEventsDoNotPublish(s: State, e: Event, id: nat)
    requires !e.CompleteTx? && !e.Publish? && !e.GiveUp?
    ensures Step(s, e).published == s.published
    ensures Sum(Step(s, e).handlers, AboutToPublish(id)) == Sum(s.handlers, AboutToPublish(id))
  {
    var s' := Step(s, e);
    if |s'.handlers| > |s.handlers| {
      var spawned := s'.handlers[|s.handlers|];
      assert s'.handlers == s.handlers + [spawned];
      SumAppend(s.handlers, spawned, AboutToPublish(id));
    } else if s'.handlers != s.handlers {
      assert s'.handlers == s.handlers[e.h := Idle];
      SumUpdate(s.handlers, e.h, Idle, AboutToPublish(id));
    }
  }

  lemma OtherEventsDoNotComplete(s: State, e: Event, id: nat)
    requires !e.CompleteTx?
    ensures Sum(Step(s, e).writes, CompletionOf(id)) == Sum(s.writes, CompletionOf(id))
  {
    StepWrites(s, e);
    if w :| WritesOnce(s, Step(s, e), w) {
      assert Step(s, e).writes[|s.writes|] == w;
    }
  }

  lemma CompleteTxUnpublished(s: State, h: nat, id: nat)
    ensures Unpublished(Step(s, CompleteTx(h)), id) == Unpublished(s, id) + if LosesPublish(s, CompleteTx(h), id) then 1 else 0
  {
    if HandlerAt(s, h).Completing? {
      var x := s.handlers[h].id;
      SumUpdate(s.handlers, h, Idle, AboutToPublish(id));
      SumUpdate(s.handlers, h, Publishing(x), AboutToPublish(id));
      if x < |s.payments| {
        SumAppend(s.writes, Write(x, s.payments[x].status, Completed, ByComplete), CompletionOf(id));
      }
    }
  }

  lemma PublishUnpublished(s: State, h: nat, id: nat)
    ensures Unpublished(Step(s, Publish(h)), id) == Unpublished(s, id)
  {
    if HandlerAt(s, h).Publishing? && s.handlers[h].id < |s.payments| {
      var x := s.handlers[h].id;
      SumUpdate(s.handlers, h, Idle, AboutToPublish(id));
      SumAppend(s.published, PublishedEvent(x, s.payments[x]), PublishedOf(id));
    }
  }

  lemma StepUnpublished(s: State, e: Event, id: nat)
    ensures Unpublished(Step(s, e), id) == Unpublished(s, id) + if LosesPublish(s, e, id) then 1 else 0
  {
    if e.CompleteTx? {
      CompleteTxUnpublished(s, e.h, id);
    } else if e.Publish? {
      PublishUnpublished(s, e.h, id);
    } else if e.GiveUp? {
      if e.h < |s.handlers| {
        SumUpdate(s.handlers, e.h, Idle, AboutToPublish(id));
      }
    } else {
      OtherEventsDoNotPublish(s, e, id);
      OtherEventsDoNotComplete(s, e, id);
    }
  }

  /** In every run, obeying the table or not, completePayment publishes at most once per status update it committed. */
  lemma {:induction false} PublishedAtMostPerCompletion(es: seq<Event>, id: nat)
    ensures Sum(Run(es).published, PublishedOf(id)) + Sum(Run(es).handlers, AboutToPublish(id)) <= Sum(Run(es).writes, CompletionOf(id))
  {
    if |es| > 0 {
      PublishedAtMostPerCompletion(es[..|es| - 1], id);
      StepUnpublished(Run(es[..|es| - 1]), es[|es| - 1], id);
    }
  }

  /** A payment has left {Created, Approved} once if it is terminal, else never; completions are exits, and leave it Completed. */
  ghost predicate ExitsMatchStatus(s: State, id: nat) {
    && 0 <= Sum(s.writes, CompletionOf(id)) <= Sum(s.writes, ExitOf(id))
    && Sum(s.writes, ExitOf(id)) == (if id < |s.payments| && Terminal(s.payments[id].status) then 1 else 0)
    && (Sum(s.writes, CompletionOf(id)) == 1 ==> s.payments[id].status == Completed)
  }

  /** completePayment and the webhook's success path write nothing but Completed. */
  ghost predicate CompletionsComplete(writes: seq<Write>) {
    forall i :: 0 <= i < |writes| && (writes[i].writer.ByComplete? || writes[i].writer.ByWebhook?) ==> writes[i].to == Completed
  }

  lemma StepKeepsCompletions(s: State, e: Event)
    requires CompletionsComplete(s.writes)
    ensures CompletionsComplete(Step(s, e).writes)
  {
  }

  lemma AllowedPrefix(s: State, s': State)
    requires Moves(s, s') && AllAllowed(s'.writes)
    ensures AllAllowed(s.writes)
  {
    if w :| WritesOnce(s, s', w) {
      AllAllowedSplits(s.writes, w);
    }
  }

  lemma {:induction false} CompletionsAlwaysComplete(es: seq<Event>)
    ensures CompletionsComplete(Run(es).writes)
  {
    if |es| > 0 {
      CompletionsAlwaysComplete(es[..|es| - 1]);
      StepKeepsCompletions(Run(es[..|es| - 1]), es[|es| - 1]);
    }
  }

  lemma {:induction false} RunKeepsExits(es: seq<Event>, id: nat)
    requires AllAllowed(Run(es).writes)
    ensures ExitsMatchStatus(Run(es), id)
  {
    if |es| > 0 {
      var s, s' := Run(es[..|es| - 1]), Run(es);
      StepWrites(s, es[|es| - 1]);
      AllowedPrefix(s, s');
      RunKeepsExits(es[..|es| - 1], id);
      CompletionsAlwaysComplete(es);
    }
  }

  /**
   One terminal outcome: if every write that is not re-checked lands on a status that still allows it - see
   AdjacentBlindWritesAreFresh for when that is - then, whatever the interleaving, a payment leaves {Created, Approved}
   at most once, and at most one payment.completed is published for it, by the completePayment that committed.
   What holds of publishing without the condition is in module Republication.
   */
  lemma OneTerminalOutcome(es: seq<Event>, id: nat)
    requires BlindWritesFresh(es)
    ensures var s := Run(es);
            && Sum(s.writes, ExitOf(id)) <= 1
            && Sum(s.published, PublishedOf(id)) <= Sum(s.writes, CompletionOf(id)) <= 1
            && (Sum(s.published, PublishedOf(id)) == 1 ==> id < |s.payments| && s.payments[id].status == Completed)
  {
    TableObeyedIffBlindWritesFresh(es);
    RunKeepsExits(es, id);
    PublishedAtMostPerCompletion(es, id);
    SumNonNegative(Run(es).handlers, AboutToPublish(id));
  }

  /** Terminal statuses are absorbing under the same condition. */
  lemma {:induction false} TerminalIsFinal(es: seq<Event>, k: nat, id: nat)
    requires k <= |es| && AllAllowed(Run(es).writes)
    requires id < |Run(es[..k]).payments| && Terminal(Run(es[..k]).payments[id].status)
    ensures id < |Run(es).payments| && Run(es).payments[id].status == Run(es[..k]).payments[id].status
  {
    if k == |es| {
      assert es[..k] == es;
    } else {
      var rest := es[..|es| - 1];
      StepWrites(Run(rest), es[|es| - 1]);
      AllowedPrefix(Run(rest), Run(es));
      assert es[..k] == rest[..k];
      TerminalIsFinal(rest, k, id);
    }
  }

  // ---- Every write was read -------------------------------------------------------------------

  predicate HasStatus(s: State, id: nat, status: Status) {
    id < |s.payments| && s.payments[id].status == status
  }

  predicate HasPiId(s: State, id: nat) {
    id < |s.payments| && s.payments[id].piId.Some? && s.payments[id].piId != Some("")
  }

  /** What the read of a handler in flight found. */
  predicate Found(s: State, h: Handler) {
    match h
    case Idle => true
    case Publishing(_) => true
    case Approving(id, _) => HasStatus(s, id, Created)
    case Completing(id) => HasStatus(s, id, Approved)
    case WebhookCompleting(id) => HasStatus(s, id, Approved) && HasPiId(s, id)
    case Failing(id) => HasStatus(s, id, Created) || HasStatus(s, id, Approved)
    case Reconciling(id) => HasStatus(s, id, Created) || HasStatus(s, id, Approved)
    case Resolving(id, done) => HasPiId(s, id) && !HasStatus(s, id, if done then Completed else Cancelled)
  }

  /** The handler a status update belongs to; a cancellation reads and writes at once. */
  predicate WriterOf(h: Handler, w: Write) {
    match w.writer
    case ByApprove => h.Approving? && h.id == w.id && w.to == Approved
    case ByComplete => h == Completing(w.id) && w.to == Completed
    case ByCancel => h.Idle? && w.to == Cancelled
    case ByFail => h == Failing(w.id) && w.to == Failed
    case ByWebhook => h == WebhookCompleting(w.id) && w.to == Completed
    case ByWebhookFailure => h == WebhookCompleting(w.id) && w.to == Failed
    case ByReconcile => h == Reconciling(w.id) && w.to == Failed
    case ByResolve => h == Resolving(w.id, w.to == Completed) && (w.to == Completed || w.to == Cancelled)
  }

  /** At some time in the run the read of the handler was in order. */
  ghost predicate WasRead(es: seq<Event>, h: Handler) {
    exists k :: 0 <= k <= |es| && Found(Run(es[..k]), h)
  }

  ghost predicate WriteWasRead(es: seq<Event>, w: Write) {
    exists h :: WriterOf(h, w) && WasRead(es, h)
  }

  /** A step starts no handler whose read is not in order, */
  lemma StepReads(s: State, e: Event)
    ensures var s' := Step(s, e);
            forall h :: 0 <= h < |s'.handlers| ==> s'.handlers[h] in s.handlers || Found(s, s'.handlers[h])
  {
  }

  function WritingHandler(s: State, e: Event): Handler {
    if e.ApproveWrite? || e.CompleteTx? || e.FailWrite? || e.WebhookTx? || e.WebhookFailure? || e.ReconcileWrite? || e.ResolveWrite?
    then HandlerAt(s, e.h) else Idle
  }

  /** and writes only for a handler in flight. */
  lemma StepWritesFor(s: State, e: Event)
    ensures var w := Step(s, e).writes;
            w == s.writes || (|w| == |s.writes| + 1 && w[..|s.writes|] == s.writes && WriterOf(WritingHandler(s, e), w[|s.writes|]))
  {
  }

  lemma LastRead(es: seq<Event>, h: Handler)
    requires |es| > 0 && (WasRead(es[..|es| - 1], h) || Found(Run(es[..|es| - 1]), h))
    ensures WasRead(es, h)
  {
    if WasRead(es[..|es| - 1], h) {
      var k :| 0 <= k <= |es| - 1 && Found(Run(es[..|es| - 1][..k]), h);
      assert es[..|es| - 1][..k] == es[..k];
    } else {
      assert es[..|es| - 1] == es[..|es| - 1][..|es| - 1];
    }
  }

  lemma {:induction false} HandlersWereRead(es: seq<Event>)
    ensures forall h :: 0 <= h < |Run(es).handlers| ==> WasRead(es, Run(es).handlers[h])
  {
    if |es| > 0 {
      var rest, e := es[..|es| - 1], es[|es| - 1];
      HandlersWereRead(rest);
      StepReads(Run(rest), e);
      forall h | 0 <= h < |Run(es).handlers| ensures WasRead(es, Run(es).handlers[h]) {
        LastRead(es, Run(es).handlers[h]);
      }
    }
  }

  lemma WrittenWasRead(es: seq<Event>, w: Write)
    requires |es| > 0 && (WriteWasRead(es[..|es| - 1], w) || WriterOf(WritingHandler(Run(es[..|es| - 1]), es[|es| - 1]), w))
    ensures WriteWasRead(es, w)
  {
    var rest, e := es[..|es| - 1], es[|es| - 1];
    var h := WritingHandler(Run(rest), e);
    if WriteWasRead(rest, w) {
      h :| WriterOf(h, w) && WasRead(rest, h);
    } else {
      HandlersWereRead(rest);
      assert Found(Run(rest), Idle);
    }
    LastRead(es, h);
  }

  /**
   In every run, torn apart or not, a status update is one whose handler had read the payment in a status that allows it:
   Created for an approval, a live one for a failure, Approved and with a Pi payment id for the webhook, any other than
   the new one and with a Pi payment id for resolve.
   */
  lemma {:induction false} EveryWriteWasRead(es: seq<Event>)
    ensures forall i :: 0 <= i < |Run(es).writes| ==> WriteWasRead(es, Run(es).writes[i])
  {
    if |es| > 0 {
      var rest, e := es[..|es| - 1], es[|es| - 1];
      var before := Run(rest).writes;
      EveryWriteWasRead(rest);
      StepWritesFor(Run(rest), e);
      forall i | 0 <= i < |Run(es).writes| ensures WriteWasRead(es, Run(es).writes[i]) {
        assert i < |before| ==> Run(es).writes[i] == before[i];
        WrittenWasRead(es, Run(es).writes[i]);
      }
    }
  }

  // ---- Concrete runs -----------------------------------------------------------------

  lemma ExecSnoc(s: State, es: seq<Event>, e: Event)
    ensures Exec(s, es + [e]) == Step(Exec(s, es), e)
  {
    assert (es + [e])[..|es|] == es;
  }

  const SAMPLE: Payment := Payment("u", 1, "PI", true, None, Created, 0, None, false)

  function Sample(status: Status, approvedAt: Option<int>): Payment {
    SAMPLE.(status := status, approvedAt := approvedAt)
  }
}
