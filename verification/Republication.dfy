/**
 How often completePayment can complete one payment, and so publish it, whatever updates go stale.  Every success uses
 up an approval, and only an approval that read Created before it wrote can bring back a payment that is done.
 */
module Republication {
  import opened Prelude
  import opened Payments
  import opened PaymentLifecycle

  // ---- Successes and approvals ----------------------------------------------------------------

  ghost function ApprovalOf(id: nat): Write -> int {
    (w: Write) => if w.id == id && w.writer.ByApprove? then 1 else 0
  }

  ghost function WebhookOf(id: nat): Write -> int {
    (w: Write) => if w.id == id && w.writer.ByWebhook? then 1 else 0
  }

  ghost function ResolveOf(id: nat): Write -> int {
    (w: Write) => if w.id == id && w.writer.ByResolve? && w.to == Completed then 1 else 0
  }

  ghost function ApprovingOf(id: nat): Handler -> int {
    (h: Handler) => if h.Approving? && h.id == id then 1 else 0
  }

  ghost function Completions(s: State, id: nat): int {
    Sum(s.writes, CompletionOf(id))
  }

  ghost function WebhookCompletions(s: State, id: nat): int {
    Sum(s.writes, WebhookOf(id))
  }

  ghost function ResolveCompletions(s: State, id: nat): int {
    Sum(s.writes, ResolveOf(id))
  }

  ghost function Approvals(s: State, id: nat): int {
    Sum(s.writes, ApprovalOf(id))
  }

  ghost function ApprovalsInFlight(s: State, id: nat): int {
    Sum(s.handlers, ApprovingOf(id))
  }

  ghost predicate Has(s: State, id: nat, status: Status) {
    id < |s.payments| && s.payments[id].status == status
  }

  /** What a status update says of its writer: only approve leads to Approved, and all completions but resolve's start there. */
  predicate WriterSays(w: Write) {
    && (w.writer.ByApprove? <==> w.to == Approved)
    && (w.writer.ByComplete? || w.writer.ByWebhook? ==> w.to == Completed && w.from == Approved)
    && (w.to == Completed ==> w.writer.ByComplete? || w.writer.ByWebhook? || w.writer.ByResolve?)
    && w.to != Created
  }

  lemma StepWriter(s: State, e: Event)
    ensures |s.writes| <= |Step(s, e).writes| <= |s.writes| + 1
    ensures |Step(s, e).writes| > |s.writes| ==> WriterSays(Step(s, e).writes[|s.writes|])
  {
  }

  lemma OneMoreWrite(s: State, s': State, w: Write, id: nat)
    requires WritesOnce(s, s', w)
    ensures Completions(s', id) == Completions(s, id) + CompletionOf(id)(w)
    ensures WebhookCompletions(s', id) == WebhookCompletions(s, id) + WebhookOf(id)(w)
    ensures ResolveCompletions(s', id) == ResolveCompletions(s, id) + ResolveOf(id)(w)
    ensures Approvals(s', id) == Approvals(s, id) + ApprovalOf(id)(w)
  {
    SumAppend(s.writes, w, ResolveOf(id));
    SumAppend(s.writes, w, CompletionOf(id));
    SumAppend(s.writes, w, WebhookOf(id));
    SumAppend(s.writes, w, ApprovalOf(id));
  }

  /** Successes, and the approval a payment may still have to use up, are covered by its approvals. */
  ghost predicate SuccessesCovered(s: State, id: nat) {
    && Completions(s, id) + WebhookCompletions(s, id) + (if Has(s, id, Approved) then 1 else 0) <= Approvals(s, id)
    && Completions(s, id) >= 0 && WebhookCompletions(s, id) >= 0 && ResolveCompletions(s, id) >= 0
    && (Has(s, id, Completed) ==> Completions(s, id) + WebhookCompletions(s, id) + ResolveCompletions(s, id) >= 1)
    && (Has(s, id, Created) || id >= |s.payments| ==> Approvals(s, id) == 0)
  }

  lemma MoveKeepsSuccesses(s: State, s': State, id: nat)
    requires SuccessesCovered(s, id) && Moves(s, s')
    requires |s'.writes| > |s.writes| ==> WriterSays(s'.writes[|s.writes|])
    ensures SuccessesCovered(s', id)
  {
    if w :| WritesOnce(s, s', w) {
      assert s'.writes[|s.writes|] == w;
      OneMoreWrite(s, s', w, id);
    }
  }

  /** In every run, stale updates or not, completePayment and the webhook complete a payment at most once per approval. */
  lemma {:induction false} SuccessesNeedApprovals(es: seq<Event>, id: nat)
    ensures SuccessesCovered(Run(es), id)
  {
    if |es| > 0 {
      var s, e := Run(es[..|es| - 1]), es[|es| - 1];
      SuccessesNeedApprovals(es[..|es| - 1], id);
      StepWrites(s, e);
      StepWriter(s, e);
      MoveKeepsSuccesses(s, Step(s, e), id);
    }
  }

  // ---- How many approvals there can be ----------------------------------------------------------

  ghost function ApprovalsEver(s: State, id: nat): int {
    Approvals(s, id) + ApprovalsInFlight(s, id)
  }

  /** Only the start of an approval adds to those written and those in flight, and it finds the payment Created. */
  lemma StepApproving(s: State, e: Event, id: nat)
    ensures ApprovalsEver(Step(s, e), id) <= ApprovalsEver(s, id) || (Has(s, id, Created) && Step(s, e).writes == s.writes)
  {
    if e.ApproveWrite? {
      ApproveWriteApproving(s, e, id);
    } else if |Step(s, e).handlers| <= |s.handlers| {
      OtherEventsNeverApprove(s, e, id);
    }
  }

  lemma ApproveWriteApproving(s: State, e: Event, id: nat)
    requires e.ApproveWrite?
    ensures ApprovalsEver(Step(s, e), id) <= ApprovalsEver(s, id)
  {
    if HandlerAt(s, e.h).Approving? {
      var x := s.handlers[e.h].id;
      SumUpdate(s.handlers, e.h, Idle, ApprovingOf(id));
      if x < |s.payments| {
        SumAppend(s.writes, Write(x, s.payments[x].status, Approved, ByApprove), ApprovalOf(id));
      }
    }
  }

  /** A step starts one handler, moves the one it names on, or leaves them alone; only the start can be of an approval. */
  lemma HandlersChange(s: State, e: Event)
    ensures var s' := Step(s, e);
            || (|s'.handlers| == |s.handlers| + 1 && s'.handlers[..|s.handlers|] == s.handlers)
            || s'.handlers == s.handlers
            || (!e.Create? && !e.ApproveRead? && !e.CompleteRead? && !e.CancelTx? && !e.FailRead? && !e.WebhookRead? && !e.ReconcileRead?
                && !e.ResolveRead?
                && e.h < |s.handlers| == |s'.handlers| && s'.handlers == s.handlers[e.h := s'.handlers[e.h]]
                && !s'.handlers[e.h].Approving?)
  {
  }

  lemma OtherEventsNeverApprove(s: State, e: Event, id: nat)
    requires !e.ApproveWrite? && |Step(s, e).handlers| <= |s.handlers|
    ensures ApprovalsEver(Step(s, e), id) <= ApprovalsEver(s, id)
  {
    var s' := Step(s, e);
    StepWrites(s, e);
    OnlyApproveWriteApproves(s, e);
    if w :| WritesOnce(s, s', w) {
      assert s'.writes[|s.writes|] == w;
      OneMoreWrite(s, s', w, id);
    }
    HandlersChange(s, e);
    if s'.handlers != s.handlers {
      SumUpdate(s.handlers, e.h, s'.handlers[e.h], ApprovingOf(id));
    }
  }

  /** At no time are more than n approvals of the payment between their read and their write. */
  ghost predicate AtMostInFlight(es: seq<Event>, id: nat, n: int) {
    forall k :: 0 <= k <= |es| ==> ApprovalsInFlight(Run(es[..k]), id) <= n
  }

  lemma {:induction false} ApprovalsBounded(es: seq<Event>, id: nat, n: int)
    requires AtMostInFlight(es, id, n)
    ensures ApprovalsEver(Run(es), id) <= n
  {
    assert es[..|es|] == es;
    if |es| > 0 {
      var rest, e := es[..|es| - 1], es[|es| - 1];
      assert forall k :: 0 <= k <= |rest| ==> rest[..k] == es[..k];
      ApprovalsBounded(rest, id, n);
      SuccessesNeedApprovals(rest, id);
      StepApproving(Run(rest), e, id);
    }
  }

  /**
   If no two approvals of a payment are ever in flight together it is published at most once, whatever else goes stale;
   in general, at most as often as approvals of it were in flight at one time.
   */
  lemma PublishedAtMostInFlight(es: seq<Event>, id: nat, n: int)
    requires AtMostInFlight(es, id, n)
    ensures Sum(Run(es).published, PublishedOf(id)) <= Completions(Run(es), id) <= n
  {
    ApprovalsBounded(es, id, n);
    SuccessesNeedApprovals(es, id);
    SumNonNegative(Run(es).handlers, ApprovingOf(id));
    PublishedAtMostPerCompletion(es, id);
    SumNonNegative(Run(es).handlers, AboutToPublish(id));
  }

  /** Where no stale update intervenes, a payment is approved at most once. */
  lemma {:induction false} FreshApprovesOnce(es: seq<Event>, id: nat)
    requires AllAllowed(Run(es).writes)
    ensures Approvals(Run(es), id) <= if id < |Run(es).payments| && Run(es).payments[id].status != Created then 1 else 0
  {
    if |es| > 0 {
      var s, s' := Run(es[..|es| - 1]), Run(es);
      StepWrites(s, es[|es| - 1]);
      StepWriter(s, es[|es| - 1]);
      AllowedPrefix(s, s');
      FreshApprovesOnce(es[..|es| - 1], id);
      if w :| WritesOnce(s, s', w) {
        assert s'.writes[|s.writes|] == w && IsTransitionAllowed(w.from, w.to);
        OneMoreWrite(s, s', w, id);
      }
    }
  }

  /** And it is completed at most once, by completePayment, the webhook or resolve. */
  lemma {:induction false} FreshCompletesOnce(es: seq<Event>, id: nat)
    requires AllAllowed(Run(es).writes)
    ensures var s := Run(es);
            Completions(s, id) + WebhookCompletions(s, id) + ResolveCompletions(s, id)
            <= if id < |s.payments| && Terminal(s.payments[id].status) then 1 else 0
  {
    if |es| > 0 {
      var s, s' := Run(es[..|es| - 1]), Run(es);
      StepWrites(s, es[|es| - 1]);
      AllowedPrefix(s, s');
      FreshCompletesOnce(es[..|es| - 1], id);
      StepWriter(s, es[|es| - 1]);
      if w :| WritesOnce(s, s', w) {
        assert s'.writes[|s.writes|] == w && IsTransitionAllowed(w.from, w.to);
        OneMoreWrite(s, s', w, id);
      }
    }
  }

  // ---- Which approvals can still be written --------------------------------------------------------

  /** Pi payment ids are unique, belong to payments that have left Created, and approvals are of payments that exist. */
  ghost predicate PiIdsInv(s: State) {
    && (forall i, j :: 0 <= i < j < |s.payments| && s.payments[i].piId.Some? ==> s.payments[i].piId != s.payments[j].piId)
    && (forall i :: 0 <= i < |s.payments| && s.payments[i].piId.Some? ==> s.payments[i].status != Created)
    && (forall h :: 0 <= h < |s.handlers| && s.handlers[h].Approving? ==> s.handlers[h].id < |s.payments|)
  }

  /** Nothing but an approval touches a Pi payment id, and nothing returns a payment to Created. */
  ghost predicate PiIdsKept(s: State, s': State) {
    && |s.payments| <= |s'.payments|
    && (forall i :: 0 <= i < |s.payments| ==>
          s'.payments[i].piId == s.payments[i].piId && (s'.payments[i].status == Created ==> s.payments[i].status == Created))
    && (forall i :: |s.payments| <= i < |s'.payments| ==> s'.payments[i].piId.None?)
  }

  lemma RecheckedKeepPiIds(s: State, e: Event)
    requires e.CompleteTx? || e.CancelTx? || e.WebhookTx?
    ensures PiIdsKept(s, Step(s, e))
  {
  }

  lemma OverwritesKeepPiIds(s: State, e: Event)
    requires e.FailWrite? || e.WebhookFailure? || e.ReconcileWrite? || e.ResolveWrite?
    ensures PiIdsKept(s, Step(s, e))
  {
  }

  lemma StepKeepsPiIds(s: State, e: Event)
    requires !e.ApproveWrite?
    ensures PiIdsKept(s, Step(s, e))
  {
    if e.CompleteTx? || e.CancelTx? || e.WebhookTx? {
      RecheckedKeepPiIds(s, e);
    } else if e.FailWrite? || e.WebhookFailure? || e.ReconcileWrite? || e.ResolveWrite? {
      OverwritesKeepPiIds(s, e);
    }
  }

  lemma StepKeepsApprovers(s: State, e: Event)
    requires PiIdsInv(s)
    ensures var s' := Step(s, e);
            forall h :: 0 <= h < |s'.handlers| && s'.handlers[h].Approving? ==> s'.handlers[h].id < |s.payments|
  {
  }

  lemma ApproveWriteKeepsPiIds(s: State, h: nat, now: int)
    requires PiIdsInv(s)
    ensures PiIdsInv(Step(s, ApproveWrite(h, now)))
  {
  }

  lemma StepKeepsPiIdsInv(s: State, e: Event)
    requires PiIdsInv(s)
    ensures PiIdsInv(Step(s, e))
  {
    if e.ApproveWrite? {
      ApproveWriteKeepsPiIds(s, e.h, e.now);
    } else {
      StepKeepsPiIds(s, e);
      StepKeepsApprovers(s, e);
    }
  }

  lemma {:induction false} RunKeepsPiIds(es: seq<Event>)
    ensures PiIdsInv(Run(es))
  {
    if |es| > 0 {
      RunKeepsPiIds(es[..|es| - 1]);
      StepKeepsPiIdsInv(Run(es[..|es| - 1]), es[|es| - 1]);
    }
  }

  /** An approval in flight whose Pi payment id no other payment holds. */
  ghost predicate Unblocked(s: State, h: nat) {
    HandlerAt(s, h).Approving? && !PiIdTaken(s, s.handlers[h].id, s.handlers[h].piId)
  }

  /** Approval h waits for the Pi payment id that approval k would give up by writing another one. */
  ghost predicate WaitsFor(s: State, h: nat, k: nat) {
    && HandlerAt(s, h).Approving? && HandlerAt(s, k).Approving?
    && var a, b := s.handlers[h], s.handlers[k];
       && b.id != a.id && b.id < |s.payments|
       && a.piId.Some? && s.payments[b.id].piId == a.piId
       && b.piId.Some? && b.piId != a.piId
  }

  /** Each approval of the chain waits for the next, and the last one is unblocked. */
  ghost predicate Chain(s: State, hs: seq<nat>) {
    && |hs| > 0
    && (forall i :: 0 <= i < |hs| - 1 ==> WaitsFor(s, hs[i], hs[i + 1]))
    && Unblocked(s, hs[|hs| - 1])
  }

  /** An approval of the payment is in flight that is unblocked, or can be made so. */
  ghost predicate ApprovalPending(s: State, id: nat) {
    exists hs :: Chain(s, hs) && HandlerAt(s, hs[0]).Approving? && s.handlers[hs[0]].id == id
  }

  // ---- A chain can be worked off from its end ------------------------------------------------------

  lemma WaitingIsBlocked(s: State, h: nat, k: nat)
    requires WaitsFor(s, h, k)
    ensures !Unblocked(s, h)
  {
    assert s.payments[s.handlers[k].id].piId == s.handlers[h].piId;
  }

  lemma ApproveWriteMoves(s: State, k: nat)
    requires PiIdsInv(s) && Unblocked(s, k)
    ensures var s', b := Step(s, ApproveWrite(k, 0)), s.handlers[k];
            && |s'.payments| == |s.payments| && s'.handlers == s.handlers[k := Idle]
            && (forall i :: 0 <= i < |s.payments| && i != b.id ==> s'.payments[i] == s.payments[i])
            && (b.piId.Some? ==> s'.payments[b.id].piId == b.piId)
            && s'.payments[b.id].status == Approved
  {
  }

  /** Who waits for a Pi payment id that the written approval's payment held is unblocked by the write. */
  lemma WriteUnblocks(s: State, h: nat, k: nat)
    requires PiIdsInv(s) && Unblocked(s, k) && HandlerAt(s, h).Approving? && !Unblocked(s, h)
    requires s.handlers[h].piId == s.payments[s.handlers[k].id].piId && s.handlers[h].id != s.handlers[k].id
    requires s.handlers[k].piId.Some? && s.handlers[k].piId != s.handlers[h].piId
    ensures var s' := Step(s, ApproveWrite(k, 0)); HandlerAt(s', h) == s.handlers[h] && Unblocked(s', h)
  {
    ApproveWriteMoves(s, k);
  }

  lemma WriteKeepsWaiting(s: State, h: nat, j: nat, k: nat)
    requires PiIdsInv(s) && Unblocked(s, k) && WaitsFor(s, h, j) && j != k && s.handlers[j].id != s.handlers[k].id
    ensures WaitsFor(Step(s, ApproveWrite(k, 0)), h, j)
  {
    ApproveWriteMoves(s, k);
    WaitingIsBlocked(s, h, j);
  }

  /** Once the last approval has been written, its predecessor, or an earlier one that waits for the same id, is unblocked. */
  lemma ChainShrinks(s: State, hs: seq<nat>)
    requires PiIdsInv(s) && Chain(s, hs) && |hs| > 1
    ensures HandlerAt(Step(s, ApproveWrite(hs[|hs| - 1], 0)), hs[0]) == HandlerAt(s, hs[0])
    ensures exists shorter :: |shorter| < |hs| && Chain(Step(s, ApproveWrite(hs[|hs| - 1], 0)), shorter) && shorter[0] == hs[0]
  {
    var n := |hs| - 1;
    var k := hs[n];
    var s' := Step(s, ApproveWrite(k, 0));
    ApproveWriteMoves(s, k);
    assert WaitsFor(s, hs[n - 1], hs[n]);
    WaitingIsBlocked(s, hs[n - 1], k);
    WriteUnblocks(s, hs[n - 1], k);
    var m := 0;
    while !Unblocked(s', hs[m])
      invariant m < n && forall i :: 0 <= i < m ==> !Unblocked(s', hs[i])
      decreases n - m
    {
      m := m + 1;
    }
    forall i | 0 <= i < m ensures WaitsFor(s', hs[i], hs[i + 1]) {
      ChainLinkKept(s, hs, i);
    }
    assert Chain(s', hs[..m + 1]);
    assert WaitsFor(s, hs[0], hs[1]);
    WaitingIsBlocked(s, hs[0], hs[1]);
  }

  lemma ChainLinkKept(s: State, hs: seq<nat>, i: nat)
    requires PiIdsInv(s) && Chain(s, hs) && i + 1 < |hs| - 1
    requires !Unblocked(Step(s, ApproveWrite(hs[|hs| - 1], 0)), hs[i])
    ensures WaitsFor(Step(s, ApproveWrite(hs[|hs| - 1], 0)), hs[i], hs[i + 1])
  {
    var n := |hs| - 1;
    var k := hs[n];
    assert WaitsFor(s, hs[i], hs[i + 1]) && WaitsFor(s, hs[i + 1], hs[i + 2]) && WaitsFor(s, hs[n - 1], k);
    WaitingIsBlocked(s, hs[i], hs[i + 1]);
    WaitingIsBlocked(s, hs[i + 1], hs[i + 2]);
    if s.handlers[hs[i + 1]].id == s.handlers[k].id {
      WriteUnblocks(s, hs[i], k);
    } else {
      WriteKeepsWaiting(s, hs[i], hs[i + 1], k);
    }
  }

  lemma {:induction false} ExecCons(s: State, e: Event, ds: seq<Event>)
    ensures Exec(s, [e] + ds) == Exec(Step(s, e), ds)
    decreases |ds|
  {
    if |ds| == 0 {
      ExecSnoc(s, [], e);
      assert [e] + ds == [] + [e];
    } else {
      var rest, last := ds[..|ds| - 1], ds[|ds| - 1];
      ExecCons(s, e, rest);
      ExecSnoc(s, [e] + rest, last);
      assert [e] + ds == ([e] + rest) + [last];
    }
  }

  // ---- Completing again -----------------------------------------------------------------------------

  ghost predicate CompletesAgain(s: State, id: nat) {
    exists ds :: Completions(Exec(s, ds), id) > Completions(s, id)
  }

  lemma CompletesAfter(s: State, e: Event, id: nat)
    requires CompletesAgain(Step(s, e), id)
    ensures CompletesAgain(s, id)
  {
    var ds :| Completions(Exec(Step(s, e), ds), id) > Completions(Step(s, e), id);
    ExecCons(s, e, ds);
    StepWrites(s, e);
    if w :| WritesOnce(s, Step(s, e), w) {
      OneMoreWrite(s, Step(s, e), w, id);
    }
  }

  lemma ApprovedCompletes(s: State, id: nat)
    requires Has(s, id, Approved)
    ensures CompletesAgain(s, id)
  {
    var read, h := Step(s, CompleteRead(id)), |s.handlers|;
    assert HandlerAt(read, h) == Completing(id);
    SumAppend(read.writes, Write(id, Approved, Completed, ByComplete), CompletionOf(id));
    assert Exec(read, [CompleteTx(h)]) == Step(read, CompleteTx(h)) by {
      ExecCons(read, CompleteTx(h), []);
      assert [CompleteTx(h)] + [] == [CompleteTx(h)];
    }
    CompletesAfter(s, CompleteRead(id), id);
  }

  lemma UnblockedCompletes(s: State, h: nat)
    requires PiIdsInv(s) && Unblocked(s, h)
    ensures CompletesAgain(s, s.handlers[h].id)
  {
    ApproveWriteMoves(s, h);
    ApprovedCompletes(Step(s, ApproveWrite(h, 0)), s.handlers[h].id);
    CompletesAfter(s, ApproveWrite(h, 0), s.handlers[h].id);
  }

  lemma {:induction false} ChainCompletes(s: State, hs: seq<nat>)
    requires PiIdsInv(s) && Chain(s, hs) && HandlerAt(s, hs[0]).Approving?
    ensures CompletesAgain(s, s.handlers[hs[0]].id)
    decreases |hs|
  {
    if |hs| == 1 {
      UnblockedCompletes(s, hs[0]);
    } else {
      var last := hs[|hs| - 1];
      ChainShrinks(s, hs);
      var shorter :| |shorter| < |hs| && Chain(Step(s, ApproveWrite(last, 0)), shorter) && shorter[0] == hs[0];
      StepKeepsPiIdsInv(s, ApproveWrite(last, 0));
      ChainCompletes(Step(s, ApproveWrite(last, 0)), shorter);
      CompletesAfter(s, ApproveWrite(last, 0), s.handlers[hs[0]].id);
    }
  }

  lemma CreatedCompletes(s: State, id: nat)
    requires PiIdsInv(s) && Has(s, id, Created)
    ensures CompletesAgain(s, id)
  {
    var e := ApproveRead(id, None);
    assert HandlerAt(Step(s, e), |s.handlers|) == Approving(id, None);
    StepKeepsPiIdsInv(s, e);
    UnblockedCompletes(Step(s, e), |s.handlers|);
    CompletesAfter(s, e, id);
  }

  // ---- Knots: approvals that wait for each other for ever ---------------------------------------------

  /** The Pi payment id of h is held by payment b, and whoever could change that is in H too. */
  ghost predicate HeldBy(s: State, h: nat, b: nat, H: set<nat>) {
    && HandlerAt(s, h).Approving? && b < |s.payments| && b != s.handlers[h].id
    && s.handlers[h].piId.Some? && s.payments[b].piId == s.handlers[h].piId
    && forall k: nat :: Frees(s, k, b, s.handlers[h].piId) ==> k in H
  }

  /** Approval k would make payment b give up this Pi payment id. */
  ghost predicate Frees(s: State, k: nat, b: nat, piId: Option<string>) {
    && HandlerAt(s, k).Approving? && s.handlers[k].id == b
    && s.handlers[k].piId.Some? && s.handlers[k].piId != piId
  }

  ghost predicate Knot(s: State, H: set<nat>) {
    forall h: nat :: h in H && HandlerAt(s, h).Approving? ==> exists b: nat :: HeldBy(s, h, b, H)
  }

  /** The payment is done, and every approval of it in flight is in the knot. */
  ghost predicate TiedUp(s: State, id: nat, H: set<nat>) {
    && id < |s.payments| && Terminal(s.payments[id].status)
    && Knot(s, H)
    && (forall h: nat :: h in H ==> h < |s.handlers|)
    && forall h: nat :: HandlerAt(s, h).Approving? && s.handlers[h].id == id ==> h in H
  }

  lemma KnottedIsBlocked(s: State, H: set<nat>, h: nat)
    requires Knot(s, H) && h in H
    ensures !Unblocked(s, h)
  {
    if HandlerAt(s, h).Approving? {
      var b: nat :| HeldBy(s, h, b, H);
    }
  }

  /** An approval in flight was in flight before, or has just been started on a Created payment. */
  lemma ApproversBefore(s: State, e: Event)
    ensures var s' := Step(s, e);
            forall k: nat :: HandlerAt(s', k).Approving? ==>
              HandlerAt(s', k) == HandlerAt(s, k) || (k == |s.handlers| && Has(s, s'.handlers[k].id, Created))
  {
    var s' := Step(s, e);
    HandlersChange(s, e);
    forall k: nat | HandlerAt(s', k).Approving?
      ensures HandlerAt(s', k) == HandlerAt(s, k) || (k == |s.handlers| && Has(s, s'.handlers[k].id, Created))
    {
      if k < |s.handlers| && |s'.handlers| == |s.handlers| + 1 {
        assert s'.handlers[..|s.handlers|][k] == s.handlers[k];
      }
    }
  }

  lemma BlockedWritesNothing(s: State, e: Event)
    requires e.ApproveWrite? && !Unblocked(s, e.h)
    ensures Step(s, e).payments == s.payments && Step(s, e).writes == s.writes
  {
  }

  lemma HolderStays(s: State, e: Event, h: nat, b: nat, H: set<nat>)
    requires PiIdsInv(s) && Knot(s, H) && HeldBy(s, h, b, H) && HandlerAt(Step(s, e), h) == HandlerAt(s, h)
    ensures HeldBy(Step(s, e), h, b, H)
  {
    var s' := Step(s, e);
    if e.ApproveWrite? && Unblocked(s, e.h) && Frees(s, e.h, b, s.payments[b].piId) {
      KnottedIsBlocked(s, H, e.h);
    }
    ApproversBefore(s, e);
    forall k: nat | Frees(s', k, b, s'.handlers[h].piId) ensures k in H {
      assert HandlerAt(s', k) == HandlerAt(s, k);
      assert Frees(s, k, b, s.handlers[h].piId);
    }
  }

  lemma KnotStays(s: State, e: Event, H: set<nat>)
    requires PiIdsInv(s) && Knot(s, H) && forall h: nat :: h in H ==> h < |s.handlers|
    ensures Knot(Step(s, e), H)
  {
    var s' := Step(s, e);
    ApproversBefore(s, e);
    forall h: nat | h in H && HandlerAt(s', h).Approving? ensures exists b: nat :: HeldBy(s', h, b, H) {
      var b: nat :| HeldBy(s, h, b, H);
      HolderStays(s, e, h, b, H);
    }
  }

  /** A payment that is done stays done, uncompleted, unless an unblocked approval of it writes. */
  lemma DoneStays(s: State, e: Event, id: nat)
    requires id < |s.payments| && Terminal(s.payments[id].status)
    requires e.ApproveWrite? && Unblocked(s, e.h) ==> s.handlers[e.h].id != id
    ensures var s' := Step(s, e);
            id < |s'.payments| && Terminal(s'.payments[id].status) && Completions(s', id) == Completions(s, id)
  {
    var s' := Step(s, e);
    StepWrites(s, e);
    StepWriter(s, e);
    if w :| WritesOnce(s, s', w) {
      assert s'.writes[|s.writes|] == w;
      OneMoreWrite(s, s', w, id);
      if w.id == id && w.to == Approved {
        OnlyApproveWriteApproves(s, e);
      }
    }
  }

  lemma OnlyApproveWriteApproves(s: State, e: Event)
    ensures var s' := Step(s, e);
            |s'.writes| > |s.writes| && (s'.writes[|s.writes|].to == Approved || s'.writes[|s.writes|].writer.ByApprove?) ==> e.ApproveWrite?
  {
  }

  lemma StepKeepsTiedUp(s: State, e: Event, id: nat, H: set<nat>)
    requires PiIdsInv(s) && TiedUp(s, id, H)
    ensures TiedUp(Step(s, e), id, H) && Completions(Step(s, e), id) == Completions(s, id)
  {
    if e.ApproveWrite? && Unblocked(s, e.h) && s.handlers[e.h].id == id {
      KnottedIsBlocked(s, H, e.h);
    }
    DoneStays(s, e, id);
    KnotStays(s, e, H);
    ApproversBefore(s, e);
    HandlersChange(s, e);
  }

  lemma {:induction false} TiedUpForEver(s: State, ds: seq<Event>, id: nat, H: set<nat>)
    requires PiIdsInv(s) && TiedUp(s, id, H)
    ensures PiIdsInv(Exec(s, ds)) && TiedUp(Exec(s, ds), id, H) && Completions(Exec(s, ds), id) == Completions(s, id)
  {
    if |ds| > 0 {
      TiedUpForEver(s, ds[..|ds| - 1], id, H);
      StepKeepsPiIdsInv(Exec(s, ds[..|ds| - 1]), ds[|ds| - 1]);
      StepKeepsTiedUp(Exec(s, ds[..|ds| - 1]), ds[|ds| - 1], id, H);
    }
  }

  // ---- Exactly when ----------------------------------------------------------------------------------

  ghost predicate StartsChain(s: State, h: nat) {
    exists hs :: Chain(s, hs) && hs[0] == h
  }

  /** The approvals from which no chain starts are a knot. */
  lemma UnchainedIsKnot(s: State, H: set<nat>)
    requires PiIdsInv(s)
    requires forall h: nat :: h in H <==> h < |s.handlers| && s.handlers[h].Approving? && !StartsChain(s, h)
    ensures Knot(s, H)
  {
    forall h: nat | h in H && HandlerAt(s, h).Approving? ensures exists b: nat :: HeldBy(s, h, b, H) {
      if Unblocked(s, h) {
        assert Chain(s, [h]);
      }
      var b: nat :| b < |s.payments| && b != s.handlers[h].id && s.payments[b].piId == s.handlers[h].piId;
      forall k: nat | Frees(s, k, b, s.handlers[h].piId) ensures k in H {
        if StartsChain(s, k) {
          ChainExtends(s, h, k);
        }
      }
      assert HeldBy(s, h, b, H);
    }
  }

  lemma ChainExtends(s: State, h: nat, k: nat)
    requires StartsChain(s, k) && WaitsFor(s, h, k)
    ensures StartsChain(s, h)
  {
    var hs :| Chain(s, hs) && hs[0] == k;
    var longer := [h] + hs;
    forall i | 0 <= i < |longer| - 1 ensures WaitsFor(s, longer[i], longer[i + 1]) {
      if i > 0 {
        assert longer[i] == hs[i - 1] && longer[i + 1] == hs[i];
      }
    }
    assert Chain(s, longer) && longer[0] == h;
  }

  lemma NoChainTiesUp(s: State, id: nat)
    requires PiIdsInv(s) && id < |s.payments| && Terminal(s.payments[id].status) && !ApprovalPending(s, id)
    ensures exists H :: TiedUp(s, id, H)
  {
    var H := set h: nat | h < |s.handlers| && s.handlers[h].Approving? && !StartsChain(s, h);
    UnchainedIsKnot(s, H);
    forall h: nat | HandlerAt(s, h).Approving? && s.handlers[h].id == id ensures h in H {
      assert !StartsChain(s, h);
    }
    assert TiedUp(s, id, H);
  }

  /**
   Exactly when completePayment can complete a payment once more, in any reachable state and however often it has
   before: if it is not done yet, or an approval of it is in flight that is unblocked or can become so.  A stale fail,
   webhook failure, reconciliation or resolve never matters.
   */
  lemma CompletesAgainIff(es: seq<Event>, id: nat)
    requires id < |Run(es).payments|
    ensures CompletesAgain(Run(es), id) <==> !Terminal(Run(es).payments[id].status) || ApprovalPending(Run(es), id)
  {
    var s := Run(es);
    RunKeepsPiIds(es);
    if s.payments[id].status == Approved {
      ApprovedCompletes(s, id);
    } else if s.payments[id].status == Created {
      CreatedCompletes(s, id);
    } else if ApprovalPending(s, id) {
      var hs :| Chain(s, hs) && HandlerAt(s, hs[0]).Approving? && s.handlers[hs[0]].id == id;
      ChainCompletes(s, hs);
    } else {
      NoChainTiesUp(s, id);
      var H :| TiedUp(s, id, H);
      forall ds ensures Completions(Exec(s, ds), id) == Completions(s, id) {
        TiedUpForEver(s, ds, id, H);
      }
    }
  }

  /** In particular never again, once a payment is done and no approval of it is in flight. */
  lemma DoneForGood(es: seq<Event>, id: nat)
    requires id < |Run(es).payments| && Terminal(Run(es).payments[id].status)
    requires ApprovalsInFlight(Run(es), id) == 0
    ensures !CompletesAgain(Run(es), id)
  {
    var s := Run(es);
    CompletesAgainIff(es, id);
    if hs :| Chain(s, hs) && HandlerAt(s, hs[0]).Approving? && s.handlers[hs[0]].id == id {
      SumAtLeastTerm(s.handlers, hs[0], ApprovingOf(id));
    }
  }

  // ---- Publishing again --------------------------------------------------------------------------------

  ghost function Publications(s: State, id: nat): int {
    Sum(s.published, PublishedOf(id))
  }

  ghost predicate PublishesAgain(s: State, id: nat) {
    exists ds :: Publications(Exec(s, ds), id) > Publications(s, id)
  }

  ghost predicate PublishPending(s: State, id: nat) {
    exists h: nat :: HandlerAt(s, h) == Publishing(id)
  }

  lemma {:induction false} UnpublishedGrows(s: State, ds: seq<Event>, id: nat)
    ensures Unpublished(Exec(s, ds), id) >= Unpublished(s, id)
  {
    if |ds| > 0 {
      UnpublishedGrows(s, ds[..|ds| - 1], id);
      StepUnpublished(Exec(s, ds[..|ds| - 1]), ds[|ds| - 1], id);
    }
  }

  lemma PublishingPublishes(s: State, h: nat)
    requires HandlerAt(s, h).Publishing? && s.handlers[h].id < |s.payments|
    ensures Publications(Step(s, Publish(h)), s.handlers[h].id) > Publications(s, s.handlers[h].id)
  {
    var id := s.handlers[h].id;
    SumAppend(s.published, PublishedEvent(id, s.payments[id]), PublishedOf(id));
  }

  /** The first step that completes a Pi payment leaves a publish of it pending, and nothing is ever unpublished. */
  lemma {:induction false} CompletionCanPublish(s: State, ds: seq<Event>, id: nat)
    requires id < |s.payments| && s.payments[id].isPi && Completions(Exec(s, ds), id) > Completions(s, id)
    ensures PublishesAgain(s, id)
  {
    var rest, e := ds[..|ds| - 1], ds[|ds| - 1];
    var t := Exec(s, rest);
    if Completions(t, id) > Completions(s, id) {
      CompletionCanPublish(s, rest, id);
    } else {
      PaymentsKept(s, rest, id);
      PublicationsGrow(s, rest, id);
      CompletingLeavesPublish(t, e, id);
      PublishingPublishes(Step(t, e), e.h);
      ExecSnoc(s, ds, Publish(e.h));
    }
  }

  lemma CompletingLeavesPublish(s: State, e: Event, id: nat)
    requires id < |s.payments| && s.payments[id].isPi && Completions(Step(s, e), id) > Completions(s, id)
    ensures e.CompleteTx? && HandlerAt(Step(s, e), e.h) == Publishing(id) && id < |Step(s, e).payments|
    ensures Step(s, e).published == s.published
  {
    if !e.CompleteTx? {
      OtherEventsDoNotComplete(s, e, id);
    } else if HandlerAt(s, e.h).Completing? && s.handlers[e.h].id < |s.payments| {
      var x := s.handlers[e.h].id;
      SumAppend(s.writes, Write(x, s.payments[x].status, Completed, ByComplete), CompletionOf(id));
    }
  }

  lemma {:induction false} PaymentsKept(s: State, ds: seq<Event>, id: nat)
    requires id < |s.payments|
    ensures id < |Exec(s, ds).payments| && Exec(s, ds).payments[id].isPi == s.payments[id].isPi
  {
    if |ds| > 0 {
      PaymentsKept(s, ds[..|ds| - 1], id);
      StepKeepsKind(Exec(s, ds[..|ds| - 1]), ds[|ds| - 1], id);
    }
  }

  lemma StepKeepsKind(s: State, e: Event, id: nat)
    requires id < |s.payments|
    ensures id < |Step(s, e).payments| && Step(s, e).payments[id].isPi == s.payments[id].isPi
  {
  }

  lemma {:induction false} PublicationsGrow(s: State, ds: seq<Event>, id: nat)
    ensures Publications(Exec(s, ds), id) >= Publications(s, id)
  {
    if |ds| > 0 {
      PublicationsGrow(s, ds[..|ds| - 1], id);
    }
  }

  /** A Pi payment can be published once more exactly if a publish of it is pending or completePayment can complete it once more. */
  lemma PublishesAgainIff(es: seq<Event>, id: nat)
    requires id < |Run(es).payments| && Run(es).payments[id].isPi
    ensures PublishesAgain(Run(es), id) <==> PublishPending(Run(es), id) || CompletesAgain(Run(es), id)
  {
    var s := Run(es);
    if h: nat :| HandlerAt(s, h) == Publishing(id) {
      PublishingPublishes(s, h);
      FromOneEvent(s, Publish(h));
    }
    if ds :| Completions(Exec(s, ds), id) > Completions(s, id) {
      CompletionCanPublish(s, ds, id);
    }
    if ds :| Publications(Exec(s, ds), id) > Publications(s, id) {
      UnpublishedGrows(s, ds, id);
      SumNonNegative(Exec(s, ds).handlers, AboutToPublish(id));
      if !PublishPending(s, id) {
        NonePending(s, id);
      }
    }
  }

  lemma FromOneEvent(s: State, e: Event)
    ensures Exec(s, [e]) == Step(s, e)
  {
    ExecSnoc(s, [], e);
    assert [] + [e] == [e];
  }

  lemma NonePending(s: State, id: nat)
    requires !PublishPending(s, id)
    ensures Sum(s.handlers, AboutToPublish(id)) == 0
  {
    forall h: nat | h < |s.handlers| ensures AboutToPublish(id)(s.handlers[h]) == 0 {
      assert HandlerAt(s, h) != Publishing(id);
    }
    SumZero(s.handlers, AboutToPublish(id));
  }

  // ---- Runs that show the conditions are needed ---------------------------------------------------------

  const NEW: Payment := SAMPLE
  const PI_ID := "pi-0001"
  const PI := Some(PI_ID)

  function WithPiId(status: Status, piId: string, at: int): Payment {
    SAMPLE.(status := status, piId := Some(piId), approvedAt := Some(at))
  }

  const APPROVAL := Write(0, Created, Approved, ByApprove)
  const SUCCESS := Write(0, Approved, Completed, ByComplete)
  const REVIVAL := Write(0, Completed, Approved, ByApprove)

  lemma RunSnoc(es: seq<Event>, e: Event)
    ensures Run(es + [e]) == Step(Run(es), e)
  {
    ExecSnoc(START, es, e);
  }

  /** One or two approvals of the only payment have read it. */
  function AskedOnce(): seq<Event> {
    [Create(NEW)] + [ApproveRead(0, PI)]
  }

  function Asked(twice: bool): seq<Event> {
    if twice then AskedOnce() + [ApproveRead(0, PI)] else AskedOnce()
  }

  /** The first has been written. */
  function ApprovedRun(twice: bool): seq<Event> {
    Asked(twice) + [ApproveWrite(0, 1)]
  }

  function SecondApproval(twice: bool): seq<Handler> {
    if twice then [Approving(0, PI)] else []
  }

  lemma AskDoes(es: seq<Event>, id: nat, piId: Option<string>)
    requires Allows(Run(es), id, Approved)
    ensures Run(es + [ApproveRead(id, piId)]) == Spawn(Run(es), Approving(id, piId))
  {
    RunSnoc(es, ApproveRead(id, piId));
  }

  lemma CreatedDoes()
    ensures Run([Create(NEW)]) == State([NEW], [], [], [])
  {
    RunSnoc([], Create(NEW));
    assert [] + [Create(NEW)] == [Create(NEW)];
  }

  lemma AskedOnceDoes()
    ensures Run(AskedOnce()) == State([NEW], [Approving(0, PI)], [], [])
  {
    CreatedDoes();
    AskDoes([Create(NEW)], 0, PI);
  }

  lemma AskedDoes(twice: bool)
    ensures Run(Asked(twice)) == State([NEW], [Approving(0, PI)] + SecondApproval(twice), [], [])
  {
    var es := AskedOnce();
    AskedOnceDoes();
    AskDoes(es, 0, PI);
  }

  lemma ApprovedDoes(twice: bool)
    ensures Run(ApprovedRun(twice)) == State([WithPiId(Approved, PI_ID, 1)], [Idle] + SecondApproval(twice), [], [APPROVAL])
  {
    AskedDoes(twice);
    RunSnoc(Asked(twice), ApproveWrite(0, 1));
    var after := Run(ApprovedRun(twice));
    assert after.handlers == [Idle] + SecondApproval(twice) && after.payments == [WithPiId(Approved, PI_ID, 1)];
  }

  /** Then the webhook completes it, alone; or resolve; or completePayment. */
  function ThenWebhook(es: seq<Event>): seq<Event> {
    es + [WebhookRead(0)] + [WebhookTx(|Run(es).handlers|)]
  }

  function ThenResolve(es: seq<Event>): seq<Event> {
    es + [ResolveRead(0, true)] + [ResolveWrite(|Run(es).handlers|)]
  }

  function ThenComplete(es: seq<Event>): seq<Event> {
    var n := |Run(es).handlers|;
    es + [CompleteRead(0)] + [CompleteTx(n)] + [Publish(n)]
  }

  lemma ThenWebhookDoes(es: seq<Event>, p: Payment)
    requires Run(es).payments == [p] && p.status == Approved && Given(p.piId)
    ensures var s := Run(es);
            Run(ThenWebhook(es)) == State([p.(status := Completed)], s.handlers + [Idle], s.published, s.writes + [CompletionBy(ByWebhook)])
  {
    var s, n := Run(es), |Run(es).handlers|;
    RunSnoc(es, WebhookRead(0));
    RunSnoc(es + [WebhookRead(0)], WebhookTx(n));
    assert Run(es + [WebhookRead(0)]) == State([p], s.handlers + [WebhookCompleting(0)], s.published, s.writes);
    var after := Run(ThenWebhook(es));
    assert after.handlers == s.handlers + [Idle] && after.payments == [p.(status := Completed)];
  }

  lemma ThenResolveDoes(es: seq<Event>, p: Payment)
    requires Run(es).payments == [p] && p.status != Completed && Given(p.piId)
    ensures var s := Run(es);
            Run(ThenResolve(es))
            == State([p.(status := Completed)], s.handlers + [Idle], s.published, s.writes + [Write(0, p.status, Completed, ByResolve)])
  {
    var s, n := Run(es), |Run(es).handlers|;
    RunSnoc(es, ResolveRead(0, true));
    RunSnoc(es + [ResolveRead(0, true)], ResolveWrite(n));
    assert Run(es + [ResolveRead(0, true)]) == State([p], s.handlers + [Resolving(0, true)], s.published, s.writes);
    var after := Run(ThenResolve(es));
    assert after.handlers == s.handlers + [Idle] && after.payments == [p.(status := Completed)];
  }

  lemma ThenCompleteDoes(es: seq<Event>, p: Payment)
    requires Run(es).payments == [p] && p.status == Approved && p.isPi
    ensures var s := Run(es);
            Run(ThenComplete(es))
            == State([p.(status := Completed)], s.handlers + [Idle], s.published + [PublishedEvent(0, p)], s.writes + [SUCCESS])
  {
    var s, n := Run(es), |Run(es).handlers|;
    var read, written := es + [CompleteRead(0)], es + [CompleteRead(0)] + [CompleteTx(n)];
    RunSnoc(es, CompleteRead(0));
    assert Run(read) == State([p], s.handlers + [Completing(0)], s.published, s.writes);
    RunSnoc(read, CompleteTx(n));
    assert Run(written).handlers == s.handlers + [Publishing(0)] && Run(written).payments == [p.(status := Completed)];
    RunSnoc(written, Publish(n));
    assert Run(ThenComplete(es)).handlers == s.handlers + [Idle];
  }

  function PublishedTwice(): seq<Event> {
    ThenComplete(ThenComplete(ApprovedRun(true)) + [ApproveWrite(1, 2)])
  }

  /** Without the condition the bound fails: a late approve revives the completed payment, which is then published again. */
  lemma StaleApprovePublishesTwice()
    ensures Publications(Run(PublishedTwice()), 0) == 2
  {
    ApprovedDoes(true);
    ThenCompleteDoes(ApprovedRun(true), WithPiId(Approved, PI_ID, 1));
    ThenCompleteDoes(ThenComplete(ApprovedRun(true)) + [ApproveWrite(1, 2)], WithPiId(Approved, PI_ID, 2));
    var event := Published(0, "u", 1, "PI");
    assert Run(PublishedTwice()).published == ([] + [event]) + [event];
    SumAppend([], event, PublishedOf(0));
    SumAppend([] + [event], event, PublishedOf(0));
  }

  // ---- Completed by the webhook or by resolve -----------------------------------------------------------

  function CompletionBy(writer: Writer): Write {
    Write(0, Approved, Completed, writer)
  }

  /** A Pi payment that the webhook or resolve completes, with or without a second approval still in flight. */
  function CompletedElsewhere(writer: Writer, twice: bool): seq<Event> {
    if writer.ByWebhook? then ThenWebhook(ApprovedRun(twice)) else ThenResolve(ApprovedRun(twice))
  }

  lemma CompletedElsewhereDoes(writer: Writer, twice: bool)
    requires writer.ByWebhook? || writer.ByResolve?
    ensures Run(CompletedElsewhere(writer, twice))
            == State([WithPiId(Completed, PI_ID, 1)], [Idle] + SecondApproval(twice) + [Idle], [], [APPROVAL, CompletionBy(writer)])
  {
    ApprovedDoes(twice);
    if writer.ByWebhook? {
      ThenWebhookDoes(ApprovedRun(twice), WithPiId(Approved, PI_ID, 1));
    } else {
      ThenResolveDoes(ApprovedRun(twice), WithPiId(Approved, PI_ID, 1));
    }
    assert [APPROVAL] + [CompletionBy(writer)] == [APPROVAL, CompletionBy(writer)];
  }

  function RevivedAndPublished(): seq<Event> {
    ThenComplete(CompletedElsewhere(ByWebhook, true) + [ApproveWrite(1, 2)])
  }

  lemma RevivedAndPublishedDoes()
    ensures (Run(RevivedAndPublished()).published, Run(RevivedAndPublished()).writes)
            == ([Published(0, "u", 1, "PI")], [APPROVAL, CompletionBy(ByWebhook), REVIVAL, SUCCESS])
  {
    CompletedElsewhereDoes(ByWebhook, true);
    ThenCompleteDoes(CompletedElsewhere(ByWebhook, true) + [ApproveWrite(1, 2)], WithPiId(Approved, PI_ID, 2));
    var s := Run(RevivedAndPublished());
    assert s.published == [Published(0, "u", 1, "PI")];
    assert s.writes == [APPROVAL, CompletionBy(ByWebhook), REVIVAL, SUCCESS];
  }

  // ---- Every writer that does not read again can break the table -----------------------------------------

  /** The read of a writer that does not read again, the handler it starts, its write, and the status that writes. */
  function BlindRead(writer: Writer): Event {
    match writer
    case ByApprove => ApproveRead(0, PI)
    case ByWebhookFailure => WebhookRead(0)
    case ByReconcile => ReconcileRead(0)
    case ByResolve => ResolveRead(0, false)
    case _ => FailRead(0)
  }

  function BlindHandler(writer: Writer): Handler {
    match writer
    case ByApprove => Approving(0, PI)
    case ByWebhookFailure => WebhookCompleting(0)
    case ByReconcile => Reconciling(0)
    case ByResolve => Resolving(0, false)
    case _ => Failing(0)
  }

  function BlindWrite(writer: Writer, h: nat): Event {
    match writer
    case ByApprove => ApproveWrite(h, 1)
    case ByWebhookFailure => WebhookFailure(h)
    case ByReconcile => ReconcileWrite(h)
    case ByResolve => ResolveWrite(h)
    case _ => FailWrite(h)
  }

  function BlindStatus(writer: Writer): Status {
    if writer.ByApprove? then Approved else if writer.ByResolve? then Cancelled else Failed
  }

  function Overwrite(writer: Writer): Write {
    Write(0, Completed, BlindStatus(writer), writer)
  }

  function ReadWhileApproved(writer: Writer): seq<Event> {
    if writer.ByApprove? then ApprovedRun(true) else ApprovedRun(false) + [BlindRead(writer)]
  }

  /** The writer read before completePayment committed, and overwrites its Completed. */
  function Overwritten(writer: Writer): seq<Event> {
    ThenComplete(ReadWhileApproved(writer)) + [BlindWrite(writer, 1)]
  }

  lemma ReadWhileApprovedDoes(writer: Writer)
    requires !Rechecked(writer)
    ensures Run(ReadWhileApproved(writer)) == State([WithPiId(Approved, PI_ID, 1)], [Idle, BlindHandler(writer)], [], [APPROVAL])
  {
    if writer.ByApprove? {
      ApprovedDoes(true);
    } else {
      var es := ApprovedRun(false);
      ApprovedDoes(false);
      RunSnoc(es, BlindRead(writer));
      assert Run(es + [BlindRead(writer)]).handlers == [Idle] + [BlindHandler(writer)];
    }
  }

  lemma OverwrittenDoes(writer: Writer)
    requires !Rechecked(writer)
    ensures Run(Overwritten(writer)) == State([WithPiId(BlindStatus(writer), PI_ID, 1)], [Idle, Idle, Idle], [Published(0, "u", 1, "PI")],
                                              [APPROVAL, SUCCESS, Overwrite(writer)])
  {
    ReadWhileApprovedDoes(writer);
    OverwritesAfter(ReadWhileApproved(writer), writer);
  }

  lemma BlindWriteDoes(s: State, writer: Writer)
    requires !Rechecked(writer) && s.payments == [WithPiId(Completed, PI_ID, 1)] && HandlerAt(s, 1) == BlindHandler(writer)
    ensures Step(s, BlindWrite(writer, 1))
            == State([WithPiId(BlindStatus(writer), PI_ID, 1)], s.handlers[1 := Idle], s.published, s.writes + [Overwrite(writer)])
  {
    assert Step(s, BlindWrite(writer, 1)).payments == [WithPiId(BlindStatus(writer), PI_ID, 1)];
  }

  lemma OverwritesAfter(read: seq<Event>, writer: Writer)
    requires !Rechecked(writer)
    requires Run(read) == State([WithPiId(Approved, PI_ID, 1)], [Idle, BlindHandler(writer)], [], [APPROVAL])
    ensures Run(ThenComplete(read) + [BlindWrite(writer, 1)])
            == State([WithPiId(BlindStatus(writer), PI_ID, 1)], [Idle, Idle, Idle], [Published(0, "u", 1, "PI")],
                     [APPROVAL, SUCCESS, Overwrite(writer)])
  {
    ThenCompleteDoes(read, WithPiId(Approved, PI_ID, 1));
    var s := Run(ThenComplete(read));
    assert s.payments == [WithPiId(Completed, PI_ID, 1)] && s.writes == [APPROVAL, SUCCESS];
    assert s.handlers == [Idle, BlindHandler(writer), Idle] && s.published == [Published(0, "u", 1, "PI")];
    BlindWriteDoes(s, writer);
    RunSnoc(ThenComplete(read), BlindWrite(writer, 1));
    assert s.writes + [Overwrite(writer)] == [APPROVAL, SUCCESS, Overwrite(writer)];
  }

  /** Re-checked writers always obey the table (RecheckedWritesObeyTable); every other writer has a run in which it does not. */
  lemma StaleWriteBreaksTable(writer: Writer)
    requires !Rechecked(writer)
    ensures !AllAllowed(Run(Overwritten(writer)).writes)
  {
    OverwrittenDoes(writer);
    assert !IsTransitionAllowed(Run(Overwritten(writer)).writes[2].from, Run(Overwritten(writer)).writes[2].to);
  }

  /** A payment that a stale fail overwrote after it was published, and that resolve then completes from Pi. */
  function ResolvedAfterPublish(): seq<Event> {
    ThenResolve(Overwritten(ByFail))
  }

  lemma ResolvedAfterPublishDoes()
    ensures (Run(ResolvedAfterPublish()).published, Run(ResolvedAfterPublish()).writes)
            == ([Published(0, "u", 1, "PI")], [APPROVAL, SUCCESS, Overwrite(ByFail), Write(0, Failed, Completed, ByResolve)])
  {
    OverwrittenDoes(ByFail);
    ThenResolveDoes(Overwritten(ByFail), WithPiId(Failed, PI_ID, 1));
    assert Run(ResolvedAfterPublish()).writes == [APPROVAL, SUCCESS, Overwrite(ByFail), Write(0, Failed, Completed, ByResolve)];
  }

  // ---- Why unblocked is not enough ----------------------------------------------------------------------

  const FIRST := Some("pi-first")
  const SECOND := Some("pi-second")

  /** Two approvals of each of two payments; the second one of payment 0 asks for the Pi payment id that payment 1 will get. */
  function BothAsked(): seq<Event> {
    [Create(NEW)] + [Create(NEW)] + [ApproveRead(0, None)] + [ApproveRead(0, FIRST)] + [ApproveRead(1, FIRST)] + [ApproveRead(1, SECOND)]
  }

  function CompletedWhileBlocked(): seq<Event> {
    BothAsked() + [ApproveWrite(0, 1)] + [CompleteRead(0)] + [CompleteTx(4)] + [ApproveWrite(2, 2)]
  }

  lemma BothAskedDoes()
    ensures Run(BothAsked())
            == State([NEW, NEW], [Approving(0, None), Approving(0, FIRST), Approving(1, FIRST), Approving(1, SECOND)], [], [])
  {
    CreatedDoes();
    RunSnoc([Create(NEW)], Create(NEW));
    AllAsk([Create(NEW)] + [Create(NEW)]);
  }

  lemma AllAsk(es: seq<Event>)
    requires Run(es) == State([NEW, NEW], [], [], [])
    ensures Run(es + [ApproveRead(0, None)] + [ApproveRead(0, FIRST)] + [ApproveRead(1, FIRST)] + [ApproveRead(1, SECOND)])
            == State([NEW, NEW], [Approving(0, None), Approving(0, FIRST), Approving(1, FIRST), Approving(1, SECOND)], [], [])
  {
    AskDoes(es, 0, None);
    AskDoes(es + [ApproveRead(0, None)], 0, FIRST);
    var both := es + [ApproveRead(0, None)] + [ApproveRead(0, FIRST)];
    assert Run(both).handlers == [Approving(0, None), Approving(0, FIRST)];
    AskDoes(both, 1, FIRST);
    AskDoes(both + [ApproveRead(1, FIRST)], 1, SECOND);
  }

  lemma CompletedWhileBlockedDoes()
    ensures (Run(CompletedWhileBlocked()).payments, Run(CompletedWhileBlocked()).handlers)
            == ([Sample(Completed, Some(1)), WithPiId(Approved, "pi-first", 2)],
                [Idle, Approving(0, FIRST), Idle, Approving(1, SECOND), Publishing(0)])
  {
    BothAskedDoes();
    CompletesWhileBlocked(BothAsked());
  }

  lemma CompletesWhileBlocked(asked: seq<Event>)
    requires Run(asked) == State([NEW, NEW], [Approving(0, None), Approving(0, FIRST), Approving(1, FIRST), Approving(1, SECOND)], [], [])
    ensures var s := Run(asked + [ApproveWrite(0, 1)] + [CompleteRead(0)] + [CompleteTx(4)] + [ApproveWrite(2, 2)]);
            (s.payments, s.handlers)
            == ([Sample(Completed, Some(1)), WithPiId(Approved, "pi-first", 2)],
                [Idle, Approving(0, FIRST), Idle, Approving(1, SECOND), Publishing(0)])
  {
    RunSnoc(asked, ApproveWrite(0, 1));
    var es := asked + [ApproveWrite(0, 1)];
    assert Run(es).payments == [Sample(Approved, Some(1)), NEW];
    assert Run(es).handlers == [Idle, Approving(0, FIRST), Approving(1, FIRST), Approving(1, SECOND)];
    RunSnoc(es, CompleteRead(0));
    RunSnoc(es + [CompleteRead(0)], CompleteTx(4));
    es := es + [CompleteRead(0)] + [CompleteTx(4)];
    assert Run(es).payments == [Sample(Completed, Some(1)), NEW];
    assert !PiIdTaken(Run(es), 1, FIRST);
    RunSnoc(es, ApproveWrite(2, 2));
    var s := Run(es + [ApproveWrite(2, 2)]);
    assert s.payments == [Sample(Completed, Some(1)), WithPiId(Approved, "pi-first", 2)];
    assert s.handlers == [Idle, Approving(0, FIRST), Idle, Approving(1, SECOND), Publishing(0)];
  }

  /** The chain is needed: a payment can be completed again although the only approval of it in flight is blocked. */
  lemma BlockedApprovalRevives()
    ensures var s := Run(CompletedWhileBlocked());
            && Has(s, 0, Completed) && CompletesAgain(s, 0)
            && forall h: nat :: HandlerAt(s, h).Approving? && s.handlers[h].id == 0 ==> !Unblocked(s, h)
  {
    CompletedWhileBlockedDoes();
    var s := Run(CompletedWhileBlocked());
    assert WaitsFor(s, 1, 3) && Unblocked(s, 3);
    WaitingIsBlocked(s, 1, 3);
    var hs := [1, 3];
    assert Chain(s, hs) && s.handlers[hs[0]].id == 0;
    CompletesAgainIff(CompletedWhileBlocked(), 0);
  }
}
