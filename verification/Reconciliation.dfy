/** The cron job that fails stale payments (reconciliation.service.ts), and how soon every payment is terminal because of it. */
module Reconciliation {
  import opened Prelude
  import opened Payments

  /** The thresholds of the configuration, in milliseconds. */
  datatype Thresholds = Thresholds(created: int, approved: int)

  predicate Stale(p: Payment, now: int, t: Thresholds) {
    && !p.deleted
    && match p.status
       case Created => p.createdAt < now - t.created
       case Approved => (if p.approvedAt.Some? then p.approvedAt.value else p.createdAt) < now - t.approved
       case _ => false
  }

  /** The ids findMany returns. */
  function StaleIds(ps: seq<Payment>, now: int, t: Thresholds): (ids: seq<nat>)
    ensures forall id: nat :: id in ids <==> id < |ps| && Stale(ps[id], now, t)
    ensures forall i :: 0 <= i < |ids| ==> ids[i] < |ps|
    ensures forall i, j :: 0 <= i < j < |ids| ==> ids[i] < ids[j]
  {
    if |ps| == 0 then []
    else
      var n := |ps| - 1;
      var rest := StaleIds(ps[..n], now, t);
      if Stale(ps[n], now, t) then rest + [n] else rest
  }

  function FailAll(ps: seq<Payment>, now: int, t: Thresholds, refused: set<nat>): (r: seq<Payment>)
    ensures |r| == |ps|
    ensures forall i :: 0 <= i < |ps| ==> r[i] == if Stale(ps[i], now, t) && i !in refused then ps[i].(status := Failed) else ps[i]
  {
    seq(|ps|, i requires 0 <= i < |ps| =>
      if Stale(ps[i], now, t) && i !in refused then ps[i].(status := Failed) else ps[i])
  }

  datatype Detail = Detail(id: nat, originalStatus: Status)

  /** The details name, in order and once each, the ids whose update went through, with the status they had before. */
  ghost predicate Reports(details: seq<Detail>, before: seq<Payment>, ids: seq<nat>, refused: set<nat>) {
    && (forall d :: d in details <==>
          d.id in ids && d.id < |before| && d.id !in refused && d.originalStatus == before[d.id].status)
    && (forall i, j :: 0 <= i < j < |details| ==> details[i].id < details[j].id)
  }

  lemma ReportsGrow(details: seq<Detail>, before: seq<Payment>, ids: seq<nat>, k: nat, refused: set<nat>)
    requires k < |ids| && ids[k] < |before| && forall i, j :: 0 <= i < j < |ids| ==> ids[i] < ids[j]
    requires Reports(details, before, ids[..k], refused)
    ensures var id := ids[k];
            Reports(if id in refused then details else details + [Detail(id, before[id].status)], before, ids[..k + 1], refused)
  {
    PrefixGrows(ids, k);
    forall j | 0 <= j < |details| ensures details[j].id < ids[k] {
      assert details[j] in details;
    }
  }

  /** The payments after the updates of these ids. */
  ghost predicate FailedAmong(after: seq<Payment>, before: seq<Payment>, ids: seq<nat>, refused: set<nat>) {
    && |after| == |before|
    && forall i :: 0 <= i < |before| ==> after[i] == if i in ids && i !in refused then before[i].(status := Failed) else before[i]
  }

  lemma FailedGrow(after: seq<Payment>, before: seq<Payment>, ids: seq<nat>, k: nat, refused: set<nat>)
    requires k < |ids| && ids[k] < |before| && forall i, j :: 0 <= i < j < |ids| ==> ids[i] < ids[j]
    requires FailedAmong(after, before, ids[..k], refused)
    ensures var id := ids[k];
            && after[id] == before[id]
            && FailedAmong(if id in refused then after else after[id := before[id].(status := Failed)], before, ids[..k + 1], refused)
  {
    PrefixGrows(ids, k);
  }

  class ReconciliationService {
    var payments: seq<Payment>

    /** `refused` are the ids whose update throws; the loop logs the error and goes on. */
    method ReconcileStalePayments(now: int, t: Thresholds, refused: set<nat>) returns (details: seq<Detail>)
      modifies this`payments
      ensures payments == FailAll(old(payments), now, t, refused)
      ensures |payments| == |old(payments)|
      ensures forall i :: 0 <= i < |payments| ==>
                var p := old(payments)[i];
                var since := if p.status == Approved && p.approvedAt.Some? then p.approvedAt.value else p.createdAt;
                payments[i] == if !p.deleted && i !in refused
                                  && ((p.status == Created && now - since > t.created) || (p.status == Approved && now - since > t.approved))
                               then p.(status := Failed) else p
      ensures Reports(details, old(payments), StaleIds(old(payments), now, t), refused)
    {
      var stale := StaleIds(payments, now, t);
      details := [];
      ghost var before := payments;
      for k := 0 to |stale|
        invariant FailedAmong(payments, before, stale[..k], refused)
        invariant Reports(details, before, stale[..k], refused)
      {
        var id := stale[k];
        FailedGrow(payments, before, stale, k, refused);
        ReportsGrow(details, before, stale, k, refused);
        if id !in refused {
          details := details + [Detail(id, payments[id].status)];
          payments := payments[id := payments[id].(status := Failed)];
        }
      }
      assert stale[..|stale|] == stale;
    }
  }

  lemma PrefixGrows(ids: seq<nat>, k: nat)
    requires k < |ids| && forall i, j :: 0 <= i < j < |ids| ==> ids[i] < ids[j]
    ensures forall id :: id in ids[..k + 1] <==> id in ids[..k] || id == ids[k]
    ensures forall id :: id in ids[..k] ==> id < ids[k]
    ensures forall id :: id in ids[..k + 1] ==> id in ids
  {
    assert ids[..k + 1] == ids[..k] + [ids[k]];
  }

  /** A run changes exactly the stale payments, and a second run at the same instant finds nothing to change. */
  lemma SecondRunChangesNothing(ps: seq<Payment>, now: int, t: Thresholds)
    ensures forall i :: 0 <= i < |ps| ==> (FailAll(ps, now, t, {})[i] != ps[i] <==> Stale(ps[i], now, t))
    ensures StaleIds(FailAll(ps, now, t, {}), now, t) == []
    ensures FailAll(FailAll(ps, now, t, {}), now, t, {}) == FailAll(ps, now, t, {})
  {
    var once := FailAll(ps, now, t, {});
    if StaleIds(once, now, t) != [] {
      assert StaleIds(once, now, t)[0] in StaleIds(once, now, t);
    }
  }

  // ---- Bounded liveness ---------------------------------------------------------------------

  /** Move is a status update that obeys the table, Overwrite one whose writer did not read again before it wrote. */
  datatype Action =
    | Create(payment: Payment)
    | Move(id: nat, to: Status)
    | Overwrite(id: nat, to: Status)
    | Reconcile(refused: set<nat>)

  datatype Timed = Timed(at: int, action: Action)

  datatype State = State(payments: seq<Payment>, now: int, lastRun: int)

  function WithStatus(p: Payment, to: Status, at: int): Payment {
    if to == Approved then p.(status := to, approvedAt := Some(at)) else p.(status := to)
  }

  function Step(s: State, e: Timed, t: Thresholds): State {
    match e.action
    case Create(p) =>
      State(s.payments + [p.(status := Created, createdAt := e.at, approvedAt := None, deleted := false)], e.at, s.lastRun)
    case Move(id, to) =>
      if id < |s.payments| && IsTransitionAllowed(s.payments[id].status, to) then
        State(s.payments[id := WithStatus(s.payments[id], to, e.at)], e.at, s.lastRun)
      else s.(now := e.at)
    case Overwrite(id, to) =>
      if id < |s.payments| then State(s.payments[id := WithStatus(s.payments[id], to, e.at)], e.at, s.lastRun)
      else s.(now := e.at)
    case Reconcile(refused) => State(FailAll(s.payments, e.at, t, refused), e.at, e.at)
  }

  function Run(es: seq<Timed>, t: Thresholds): State {
    if |es| == 0 then State([], 0, 0) else Step(Run(es[..|es| - 1], t), es[|es| - 1], t)
  }

  /** Time does not run backwards, and the cron job is never more than period overdue. */
  predicate OnSchedule(es: seq<Timed>, t: Thresholds, period: int) {
    |es| > 0 ==>
      && OnSchedule(es[..|es| - 1], t, period)
      && var s := Run(es[..|es| - 1], t);
         s.now <= es[|es| - 1].at <= s.lastRun + period
  }

  ghost predicate Punctual(p: Payment, lastRun: int, t: Thresholds, period: int) {
    && !p.deleted
    && (p.status == Created ==> lastRun <= p.createdAt + t.created)
    && (p.status == Approved ==>
          && p.approvedAt.Some?
          && p.approvedAt.value <= p.createdAt + t.created + period
          && lastRun <= p.approvedAt.value + t.approved)
  }

  /** What can keep a payment alive: its update is refused although it is stale, or it is overwritten with a live status. */
  predicate Disturbs(s: State, e: Timed, t: Thresholds, id: nat) {
    && id < |s.payments|
    && match e.action
       case Reconcile(refused) => id in refused && Stale(s.payments[id], e.at, t)
       case Overwrite(x, to) => x == id && !Terminal(to)
       case _ => false
  }

  ghost predicate Undisturbed(es: seq<Timed>, t: Thresholds, id: nat) {
    |es| > 0 ==> Undisturbed(es[..|es| - 1], t, id) && !Disturbs(Run(es[..|es| - 1], t), es[|es| - 1], t, id)
  }

  ghost predicate Inv(s: State, t: Thresholds, period: int, id: nat) {
    s.lastRun <= s.now && (id < |s.payments| ==> Punctual(s.payments[id], s.lastRun, t, period))
  }

  /** Whatever happens to the other payments, one that is undisturbed is never live past its threshold and a period. */
  lemma {:induction false} RunKeepsInv(es: seq<Timed>, t: Thresholds, period: int, id: nat)
    requires t.created > 0 && t.approved > 0 && OnSchedule(es, t, period) && Undisturbed(es, t, id)
    ensures Inv(Run(es, t), t, period, id)
  {
    if |es| > 0 {
      RunKeepsInv(es[..|es| - 1], t, period, id);
    }
  }

  /**
   If the cron job runs at most `period` apart, then at any instant up to the next run a payment older than
   T_created + T_approved + 2 * period is terminal, unless a run's update of it was refused while it was stale, or a
   write that did not look again gave it a live status.
   */
  lemma OldPaymentsAreTerminal(es: seq<Timed>, t: Thresholds, period: int, instant: int, id: nat)
    requires t.created > 0 && t.approved > 0 && OnSchedule(es, t, period)
    requires Run(es, t).now <= instant <= Run(es, t).lastRun + period
    requires id < |Run(es, t).payments| && Undisturbed(es, t, id)
    requires instant > Run(es, t).payments[id].createdAt + t.created + t.approved + 2 * period
    ensures Terminal(Run(es, t).payments[id].status)
  {
    RunKeepsInv(es, t, period, id);
  }

  /** The state a run on schedule leaves. */
  function Scheduled(es: seq<Timed>, t: Thresholds, period: int): Option<State> {
    if OnSchedule(es, t, period) then Some(Run(es, t)) else None
  }

  lemma ThenDoes(t: Thresholds, period: int, es: seq<Timed>, s: State, e: Timed)
    requires Scheduled(es, t, period) == Some(s) && s.now <= e.at <= s.lastRun + period
    ensures Scheduled(es + [e], t, period) == Some(Step(s, e, t))
  {
    assert (es + [e])[..|es|] == es;
  }

  /** The cron job finds the only payment not stale. */
  lemma NothingStale(t: Thresholds, period: int, es: seq<Timed>, p: Payment, now: int, lastRun: int, at: int)
    requires Scheduled(es, t, period) == Some(State([p], now, lastRun))
    requires now <= at <= lastRun + period && !Stale(p, at, t)
    ensures Scheduled(es + [Timed(at, Reconcile({}))], t, period) == Some(State([p], at, at))
  {
    ThenDoes(t, period, es, State([p], now, lastRun), Timed(at, Reconcile({})));
    assert FailAll([p], at, t, {}) == [p];
  }

  /** Runs of the cron job a period apart, and a last one at `until`. */
  function RunsUntil(es: seq<Timed>, period: int, now: int, until: int): seq<Timed>
    decreases until - now
  {
    if period <= 0 || now >= until then es
    else
      var at := Min(now + period, until);
      RunsUntil(es + [Timed(at, Reconcile({}))], period, at, until)
  }

  lemma {:induction false} RunsUntilDoes(t: Thresholds, period: int, es: seq<Timed>, p: Payment, now: int, until: int)
    requires period > 0 && Scheduled(es, t, period) == Some(State([p], now, now))
    requires now <= until && forall at :: now <= at <= until ==> !Stale(p, at, t)
    ensures Scheduled(RunsUntil(es, period, now, until), t, period) == Some(State([p], until, until))
    decreases until - now
  {
    if now < until {
      var at := Min(now + period, until);
      NothingStale(t, period, es, p, now, now, at);
      RunsUntilDoes(t, period, es + [Timed(at, Reconcile({}))], p, at, until);
    }
  }

  function NewAtZero(p: Payment): Payment {
    p.(status := Created, createdAt := 0, approvedAt := None, deleted := false)
  }

  function LateApproved(p: Payment, at: int): Payment {
    NewAtZero(p).(status := Approved, approvedAt := Some(at))
  }

  /**
   Created at 0, found not stale at T_created, approved a period later just before the run at that instant, and found not
   stale for another T_approved.
   */
  function UntilStale(t: Thresholds, period: int, p: Payment): seq<Timed> {
    RunsUntil([Timed(0, Create(p))], period, 0, t.created)
  }

  function ThenApproved(es: seq<Timed>, at: int): seq<Timed> {
    es + [Timed(at, Move(0, Approved))] + [Timed(at, Reconcile({}))]
  }

  function LongestLife(t: Thresholds, period: int, p: Payment): seq<Timed> {
    var late := t.created + period;
    RunsUntil(ThenApproved(UntilStale(t, period, p), late), period, late, late + t.approved)
  }

  lemma UntilStaleDoes(t: Thresholds, period: int, p: Payment)
    requires period > 0 && t.created > 0
    ensures Scheduled(UntilStale(t, period, p), t, period) == Some(State([NewAtZero(p)], t.created, t.created))
  {
    ThenDoes(t, period, [], State([], 0, 0), Timed(0, Create(p)));
    assert [] + [Timed(0, Create(p))] == [Timed(0, Create(p))];
    assert Step(State([], 0, 0), Timed(0, Create(p)), t).payments == [NewAtZero(p)];
    RunsUntilDoes(t, period, [Timed(0, Create(p))], NewAtZero(p), 0, t.created);
  }

  lemma ApprovedLate(t: Thresholds, period: int, es: seq<Timed>, p: Payment, at: int)
    requires period > 0 && t.approved > 0 && at == t.created + period
    requires Scheduled(es, t, period) == Some(State([NewAtZero(p)], t.created, t.created))
    ensures Scheduled(ThenApproved(es, at), t, period) == Some(State([LateApproved(p, at)], at, at))
  {
    var s := State([NewAtZero(p)], t.created, t.created);
    ThenDoes(t, period, es, s, Timed(at, Move(0, Approved)));
    assert Step(s, Timed(at, Move(0, Approved)), t).payments == [LateApproved(p, at)];
    NothingStale(t, period, es + [Timed(at, Move(0, Approved))], LateApproved(p, at), at, t.created, at);
  }

  /** The bound is sharp for all thresholds and periods: a payment created at 0 can still be Approved at the run a period before it. */
  lemma BoundIsReached(t: Thresholds, period: int, p: Payment)
    requires period > 0 && t.created > 0 && t.approved > 0
    ensures var last := t.created + t.approved + 2 * period - period;
            Scheduled(LongestLife(t, period, p), t, period) == Some(State([LateApproved(p, t.created + period)], last, last))
  {
    var es, late := UntilStale(t, period, p), t.created + period;
    UntilStaleDoes(t, period, p);
    ApprovedLate(t, period, es, p, late);
    RunsUntilDoes(t, period, ThenApproved(es, late), LateApproved(p, late), late, late + t.approved);
  }
}
