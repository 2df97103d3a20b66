/**
 The payment handlers as they run when nothing interferes.  Each is proved to be a script of the interleaved
 model's events, so that what PaymentLifecycle proves of every interleaving covers these bodies.
 */
module PaymentController {
  import opened Prelude
  import opened Payments
  import opened PaymentLifecycle

  datatype Response =
    | Success
    | ValidationFailed
    | PaymentNotFound
    | InvalidStatus(from: Status)
    | DuplicatePiPayment
    | NotConfigured
    | PiFailed
    | CompleteFailed
    | Ignored

  /** What the environment contributes: the configuration, and how the Pi call and the publish turn out. */
  datatype World = World(configured: bool, sandbox: bool, piOk: bool, publishOk: bool, maxAmount: int)

  /** Pi's own account of a payment. */
  datatype PiStatus = PiStatus(approved: bool, verified: bool, completed: bool, cancelled: bool, userCancelled: bool, hasTxid: bool)

  function Quiet(s: State): State {
    s.(handlers := [])
  }

  lemma Exec2(s: State, a: Event, b: Event)
    ensures Exec(s, [a, b]) == Step(Step(s, a), b)
  {
    assert [a, b][..1] == [a];
    assert Exec(s, [a]) == Step(Exec(s, [a][..0]), a);
  }

  predicate NeedsPiToComplete(p: Payment, w: World) {
    p.isPi && Given(p.piId) && !w.sandbox
  }

  predicate Completes(s: State, id: nat, w: World) {
    Allows(s, id, Completed) && (NeedsPiToComplete(s.payments[id], w) ==> w.configured && w.piOk)
  }

  function CompleteScript(s: State, id: nat, w: World): seq<Event> {
    if !Completes(s, id, w) then []
    else if s.payments[id].isPi && w.publishOk then [CompleteRead(id), CompleteTx(0), Publish(0)]
    else [CompleteRead(id), CompleteTx(0)]
  }

  predicate Approves(s: State, id: nat, piId: Option<string>, w: World) {
    && (Given(piId) ==> w.configured)
    && Allows(s, id, Approved)
    && (s.payments[id].isPi && Given(piId) && !w.sandbox ==> w.piOk)
    && !PiIdTaken(s, id, piId)
  }

  /** What the script of completePayment comes to: one status update, and the publish of a Pi payment. */
  lemma CompleteScriptDoes(s: State, id: nat, w: World)
    requires s.handlers == []
    ensures Completes(s, id, w) ==>
              var t := SetStatus(s, id, Completed, ByComplete);
              Quiet(Exec(s, CompleteScript(s, id, w)))
              == if s.payments[id].isPi && w.publishOk then t.(published := t.published + [PublishedEvent(id, t.payments[id])]) else t
    ensures !Completes(s, id, w) ==> Quiet(Exec(s, CompleteScript(s, id, w))) == s
  {
    if Completes(s, id, w) {
      var read := Step(s, CompleteRead(id));
      assert read.handlers == [Completing(id)];
      var written := Step(read, CompleteTx(0));
      if s.payments[id].isPi && w.publishOk {
        Exec2(s, CompleteRead(id), CompleteTx(0));
        assert [CompleteRead(id), CompleteTx(0), Publish(0)][..2] == [CompleteRead(id), CompleteTx(0)];
        assert written.handlers == [Publishing(id)];
      } else {
        Exec2(s, CompleteRead(id), CompleteTx(0));
      }
    }
  }

  /** Payment id is the first with this Pi payment id; by the unique index there is no other. */
  predicate Finds(payments: seq<Payment>, piId: string, id: nat) {
    id < |payments| && payments[id].piId == Some(piId) && forall i :: 0 <= i < id ==> payments[i].piId != Some(piId)
  }

  /** The payment with this Pi payment id. */
  function FindByPiId(payments: seq<Payment>, piId: string): (r: Option<nat>)
    ensures r.Some? ==> Finds(payments, piId, r.value)
    ensures r.None? ==> forall i :: 0 <= i < |payments| ==> payments[i].piId != Some(piId)
  {
    if |payments| == 0 then None
    else
      var n := |payments| - 1;
      var r := FindByPiId(payments[..n], piId);
      if r.Some? then r else if payments[n].piId == Some(piId) then Some(n) else None
  }

  function WebhookScript(s: State, piId: string, w: World): seq<Event> {
    match FindByPiId(s.payments, piId)
    case None => []
    case Some(id) =>
      if piId == "" || s.payments[id].status != Approved then []
      else if w.piOk then [WebhookRead(id), WebhookTx(0)]
      else [WebhookRead(id), WebhookFailure(0)]
  }

  lemma WebhookReads(s: State, id: nat)
    requires s.handlers == [] && Findable(s, id) && s.payments[id].status == Approved
    ensures Step(s, WebhookRead(id)) == s.(handlers := [WebhookCompleting(id)])
  {
    assert Step(s, WebhookRead(id)).handlers == [WebhookCompleting(id)];
  }

  lemma WebhookCompletes(s: State, id: nat)
    requires s.handlers == [] && Findable(s, id) && s.payments[id].status == Approved
    ensures Quiet(Exec(s, [WebhookRead(id), WebhookTx(0)])) == SetStatus(s, id, Completed, ByWebhook)
  {
    var read := Step(s, WebhookRead(id));
    WebhookReads(s, id);
    Exec2(s, WebhookRead(id), WebhookTx(0));
    assert Quiet(Step(read, WebhookTx(0))) == SetStatus(s, id, Completed, ByWebhook);
  }

  lemma WebhookFails(s: State, id: nat)
    requires s.handlers == [] && Findable(s, id) && s.payments[id].status == Approved
    ensures Quiet(Exec(s, [WebhookRead(id), WebhookFailure(0)])) == SetStatus(s, id, Failed, ByWebhookFailure)
  {
    var read := Step(s, WebhookRead(id));
    WebhookReads(s, id);
    Exec2(s, WebhookRead(id), WebhookFailure(0));
    assert Quiet(Step(read, WebhookFailure(0))) == SetStatus(s, id, Failed, ByWebhookFailure);
  }

  /** What resolve makes of Pi's account: completed (true), cancelled (false), or nothing. */
  function ResolveTarget(pi: PiStatus, completeOk: bool): (r: Option<bool>)
    ensures r == Some(true) <==> pi.completed || (pi.approved && pi.verified && pi.hasTxid && completeOk)
    ensures r == Some(false) <==> !pi.completed && (!pi.verified || (!pi.approved && (pi.cancelled || pi.userCancelled)))
  {
    if pi.approved && pi.verified && !pi.completed then
      if pi.hasTxid && completeOk then Some(true) else None
    else if pi.completed then Some(true)
    else if !pi.verified || pi.cancelled || pi.userCancelled then Some(false)
    else None
  }

  function ResolveScript(s: State, piId: string, pi: PiStatus, completeOk: bool, w: World): seq<Event> {
    var found, target := FindByPiId(s.payments, piId), ResolveTarget(pi, completeOk);
    if piId == "" || !w.configured || !w.piOk || found.None? || target.None? then []
    else if s.payments[found.value].status == ResolvedTo(target.value) then []
    else [ResolveRead(found.value, target.value), ResolveWrite(0)]
  }

  class Controller {
    var payments: seq<Payment>
    var published: seq<Published>
    ghost var writes: seq<Write>

    ghost function Snapshot(): State
      reads this
    {
      State(payments, [], published, writes)
    }

    constructor ()
      ensures Snapshot() == START
    {
      payments, published, writes := [], [], [];
    }

    method UpdateStatus(id: nat, to: Status, ghost writer: Writer)
      requires id < |payments|
      modifies this`payments, this`writes
      ensures Snapshot() == SetStatus(old(Snapshot()), id, to, writer)
      ensures payments == old(payments)[id := old(payments)[id].(status := to)]
    {
      writes := writes + [Write(id, payments[id].status, to, writer)];
      payments := payments[id := payments[id].(status := to)];
    }

    method CreatePayment(userId: string, amount: int, currency: string, isPi: bool, now: int, w: World)
      returns (r: Response)
      modifies this
      ensures r == if amount <= w.maxAmount then Success else ValidationFailed
      ensures r.Success? ==>
                && Snapshot() == Step(old(Snapshot()), Create(Payment(userId, amount, currency, isPi, None, Created, now, None, false)))
                && payments == old(payments) + [Payment(userId, amount, currency, isPi, None, Created, now, None, false)]
      ensures !r.Success? ==> Snapshot() == old(Snapshot())
      ensures published == old(published)
    {
      if amount > w.maxAmount {
        return ValidationFailed;
      }
      payments := payments + [Payment(userId, amount, currency, isPi, None, Created, now, None, false)];
      r := Success;
    }

    method ApprovePayment(id: nat, piId: Option<string>, now: int, w: World) returns (r: Response)
      modifies this
      ensures Snapshot() == Quiet(Exec(old(Snapshot()), if r.Success? then [ApproveRead(id, piId), ApproveWrite(0, now)] else []))
      ensures var given := piId.Some? && piId.value != "";
              r == if given && !w.configured then NotConfigured
                   else if id >= |old(payments)| then PaymentNotFound
                   else if old(payments)[id].status != Created then InvalidStatus(old(payments)[id].status)
                   else if old(payments)[id].isPi && given && !w.sandbox && !w.piOk then PiFailed
                   else if piId.Some? && exists i :: 0 <= i < |old(payments)| && i != id && old(payments)[i].piId == piId
                   then DuplicatePiPayment
                   else Success
      ensures r.Success? ==>
                var p := old(payments)[id];
                payments == old(payments)[id := p.(status := Approved, piId := if piId.Some? then piId else p.piId, approvedAt := Some(now))]
      ensures !r.Success? ==> payments == old(payments)
      ensures published == old(published)
    {
      Exec2(Snapshot(), ApproveRead(id, piId), ApproveWrite(0, now));
      if Given(piId) && !w.configured {
        return NotConfigured;
      }
      if id >= |payments| {
        return PaymentNotFound;
      }
      if !IsTransitionAllowed(payments[id].status, Approved) {
        return InvalidStatus(payments[id].status);
      }
      if payments[id].isPi && Given(piId) && !w.sandbox && !w.piOk {
        return PiFailed;
      }
      if piId.Some? && exists i :: 0 <= i < |payments| && i != id && payments[i].piId == piId {
        return DuplicatePiPayment;
      }
      UpdateStatus(id, Approved, ByApprove);
      var p := payments[id];
      payments := payments[id := p.(piId := if piId.Some? then piId else p.piId, approvedAt := Some(now))];
      r := Success;
    }

    /** The transaction of completePayment: it reads the status again before it writes. */
    method CompleteTransaction(id: nat) returns (r: Response)
      modifies this`payments, this`writes
      ensures r == if id >= |old(payments)| then PaymentNotFound
                   else if old(payments)[id].status != Approved then InvalidStatus(old(payments)[id].status)
                   else Success
      ensures Snapshot() == if r.Success? then SetStatus(old(Snapshot()), id, Completed, ByComplete) else old(Snapshot())
      ensures r.Success? ==> payments == old(payments)[id := old(payments)[id].(status := Completed)]
    {
      if id >= |payments| {
        return PaymentNotFound;
      }
      if !IsTransitionAllowed(payments[id].status, Completed) {
        return InvalidStatus(payments[id].status);
      }
      UpdateStatus(id, Completed, ByComplete);
      r := Success;
    }

    method CompletePayment(id: nat, w: World) returns (r: Response)
      modifies this
      ensures Snapshot() == Quiet(Exec(old(Snapshot()), CompleteScript(old(Snapshot()), id, w)))
      ensures r == if id >= |old(payments)| then PaymentNotFound
                   else
                     var p := old(payments)[id];
                     var needsPi := p.isPi && p.piId.Some? && p.piId != Some("") && !w.sandbox;
                     if p.status != Approved then InvalidStatus(p.status)
                     else if needsPi && !w.configured then NotConfigured
                     else if needsPi && !w.piOk then PiFailed
                     else Success
      ensures r.Success? ==>
                var p := old(payments)[id];
                && payments == old(payments)[id := p.(status := Completed)]
                && published == old(published) + if p.isPi && w.publishOk then [Published(id, p.userId, p.amount, p.currency)] else []
      ensures !r.Success? ==> payments == old(payments) && published == old(published)
    {
      CompleteScriptDoes(Snapshot(), id, w);
      if id >= |payments| {
        return PaymentNotFound;
      }
      var preFlight := payments[id];
      if !IsTransitionAllowed(preFlight.status, Completed) {
        return InvalidStatus(preFlight.status);
      }
      if preFlight.isPi && Given(preFlight.piId) {
        if !w.sandbox {
          if !w.configured {
            return NotConfigured;
          }
          if !w.piOk {
            return PiFailed;
          }
        }
      }
      r := CompleteTransaction(id);
      if !r.Success? {
        return;
      }
      var updated := payments[id];
      if updated.isPi && w.publishOk {
        published := published + [PublishedEvent(id, updated)];
      }
    }

    method CancelPayment(id: nat) returns (r: Response)
      modifies this
      ensures Snapshot() == Step(old(Snapshot()), CancelTx(id))
      ensures r == if id >= |old(payments)| then PaymentNotFound
                   else if old(payments)[id].status == Created || old(payments)[id].status == Approved then Success
                   else InvalidStatus(old(payments)[id].status)
      ensures payments == if r.Success? then old(payments)[id := old(payments)[id].(status := Cancelled)] else old(payments)
      ensures published == old(published)
    {
      if id >= |payments| {
        return PaymentNotFound;
      }
      if !IsTransitionAllowed(payments[id].status, Cancelled) {
        return InvalidStatus(payments[id].status);
      }
      UpdateStatus(id, Cancelled, ByCancel);
      r := Success;
    }

    method FailPayment(id: nat) returns (r: Response)
      modifies this
      ensures Snapshot() == Quiet(Exec(old(Snapshot()), [FailRead(id), FailWrite(0)]))
      ensures r == if id >= |old(payments)| then PaymentNotFound
                   else if old(payments)[id].status == Created || old(payments)[id].status == Approved then Success
                   else InvalidStatus(old(payments)[id].status)
      ensures payments == if r.Success? then old(payments)[id := old(payments)[id].(status := Failed)] else old(payments)
      ensures published == old(published)
    {
      Exec2(Snapshot(), FailRead(id), FailWrite(0));
      if id >= |payments| {
        return PaymentNotFound;
      }
      if !IsTransitionAllowed(payments[id].status, Failed) {
        return InvalidStatus(payments[id].status);
      }
      UpdateStatus(id, Failed, ByFail);
      r := Success;
    }

    /** The webhook, past its signature check; a payload without an identifier counts as one with an empty one. */
    method HandleIncompletePayment(piId: string, w: World) returns (r: Response)
      modifies this
      ensures Snapshot() == Quiet(Exec(old(Snapshot()), WebhookScript(old(Snapshot()), piId, w)))
      ensures r.ValidationFailed? <==> piId == ""
      ensures r.Success? <==> piId != "" && exists id: nat :: Finds(old(payments), piId, id) && old(payments)[id].status == Approved
      ensures forall id: nat :: piId != "" && Finds(old(payments), piId, id) && old(payments)[id].status == Approved ==>
                payments == old(payments)[id := old(payments)[id].(status := if w.piOk then Completed else Failed)]
      ensures !r.Success? ==> payments == old(payments)
      ensures published == old(published)
    {
      if piId == "" {
        return ValidationFailed;
      }
      var found := FindByPiId(payments, piId);
      if found.None? {
        return Ignored;
      }
      var id := found.value;
      assert forall i: nat :: Finds(payments, piId, i) ==> i == id;
      if payments[id].status == Completed || payments[id].status == Cancelled {
        return Ignored;
      }
      if payments[id].status != Approved {
        return Ignored;
      }
      WebhookCompletes(Snapshot(), id);
      WebhookFails(Snapshot(), id);
      if !w.piOk {
        UpdateStatus(id, Failed, ByWebhookFailure);
        return Success;
      }
      r := WebhookTransaction(id);
    }

    method ResolveTo(id: nat, done: bool)
      requires Findable(Snapshot(), id)
      modifies this`payments, this`writes
      ensures Snapshot() == Quiet(Exec(old(Snapshot()), if old(payments)[id].status == ResolvedTo(done) then []
                                                        else [ResolveRead(id, done), ResolveWrite(0)]))
      ensures payments == old(payments)[id := old(payments)[id].(status := if done then Completed else Cancelled)]
    {
      Exec2(Snapshot(), ResolveRead(id, done), ResolveWrite(0));
      if payments[id].status != ResolvedTo(done) {
        UpdateStatus(id, ResolvedTo(done), ByResolve);
      }
    }

    /** Where Pi's account is decisive the payment ends with the status Pi gives it, whatever it was; nothing is published. */
    method ResolveIncompletePayment(piId: string, pi: PiStatus, completeOk: bool, w: World) returns (r: Response)
      modifies this
      ensures Snapshot() == Quiet(Exec(old(Snapshot()), ResolveScript(old(Snapshot()), piId, pi, completeOk, w)))
      ensures r.Success? <==>
                piId != "" && w.configured && w.piOk && !(pi.approved && pi.verified && !pi.completed && !(pi.hasTxid && completeOk))
      ensures forall id: nat :: r.Success? && Finds(old(payments), piId, id) ==>
                payments == old(payments)[id := old(payments)[id].(
                              status := if pi.completed || (pi.approved && pi.verified) then Completed
                                        else if !pi.verified || pi.cancelled || pi.userCancelled then Cancelled
                                        else old(payments)[id].status)]
      ensures !r.Success? || (forall id: nat :: !Finds(old(payments), piId, id)) ==> payments == old(payments)
      ensures published == old(published)
    {
      if piId == "" {
        return ValidationFailed;
      }
      if !w.configured {
        return NotConfigured;
      }
      if !w.piOk {
        return PiFailed;
      }
      var local := FindByPiId(payments, piId);
      assert forall i: nat :: Finds(payments, piId, i) ==> local == Some(i);
      if pi.approved && pi.verified && !pi.completed {
        if !pi.hasTxid {
          return PiFailed;
        }
        if !completeOk {
          return CompleteFailed;
        }
        if local.Some? {
          ResolveTo(local.value, true);
        }
        return Success;
      }
      if pi.completed {
        if local.Some? {
          ResolveTo(local.value, true);
        }
        return Success;
      }
      if !pi.verified || pi.cancelled || pi.userCancelled {
        if local.Some? {
          ResolveTo(local.value, false);
        }
        return Success;
      }
      r := Success;
    }

    method WebhookTransaction(id: nat) returns (r: Response)
      modifies this`payments, this`writes
      ensures r.Success? <==> id < |old(payments)| && old(payments)[id].status == Approved
      ensures Snapshot() == if r.Success? then SetStatus(old(Snapshot()), id, Completed, ByWebhook) else old(Snapshot())
      ensures payments == if r.Success? then old(payments)[id := old(payments)[id].(status := Completed)] else old(payments)
    {
      if id >= |payments| || payments[id].status != Approved {
        return Ignored;
      }
      UpdateStatus(id, Completed, ByWebhook);
      r := Success;
    }
  }
}
