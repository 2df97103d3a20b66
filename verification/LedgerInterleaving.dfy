/**
 The balance writers interleaved at the granularity of single row updates.  A transaction reads and
 checks when it begins; its relative balance updates and its ledger inserts then run one at a time, mixed with
 those of any other transaction, until it commits or is rolled back.
 */
module LedgerInterleaving {
  import opened Prelude
  import opened WalletLedger

  datatype Write = AddBalance(id: nat, delta: int) | AddRow(row: LedgerRow)

  datatype Op =
    | CreditOp(id: nat, amount: int)
    | DepositOp(id: nat, amount: int)
    | WithdrawOp(id: nat, amount: int)
    | TransferOp(fromId: nat, toId: nat, amount: int)

  /** The two updates and the two inserts of a transfer are issued together, so each pair may run in either order. */
  datatype Txn = Closed | Open(op: Op, swapUpdates: bool, swapRows: bool, done: seq<Write>, todo: seq<Write>)

  datatype Tagged = Tagged(txn: nat, row: LedgerRow)

  /** settled is the external flow of the committed transactions. */
  datatype State = State(balances: seq<int>, ledger: seq<Tagged>, txns: seq<Txn>, settled: int)

  datatype Event =
    | OpenWallet
    | Begin(op: Op, swapUpdates: bool, swapRows: bool)
    | Exec(txn: nat)
    | Commit(txn: nat)
    | Abort(txn: nat)

  const START := State([], [], [], 0)

  function Pair<T>(first: T, second: T, swap: bool): seq<T> {
    if swap then [second, first] else [first, second]
  }

  function Program(op: Op, swapUpdates: bool, swapRows: bool): seq<Write> {
    match op
    case CreditOp(w, a) => [AddBalance(w, a), AddRow(LedgerRow(w, Credit, a, "PI", None))]
    case DepositOp(w, a) => [AddBalance(w, a), AddRow(LedgerRow(w, Deposit, a, "PI", None))]
    case WithdrawOp(w, a) => [AddBalance(w, -a), AddRow(LedgerRow(w, Withdrawal, a, "PI", None))]
    case TransferOp(f, t, a) =>
      Pair(AddBalance(f, -a), AddBalance(t, a), swapUpdates)
      + Pair(AddRow(LedgerRow(f, Transfer(Outgoing), a, "PI", None)),
             AddRow(LedgerRow(t, Transfer(Incoming), a, "PI", None)), swapRows)
  }

  function Net(op: Op): int {
    match op
    case CreditOp(_, a) => a
    case DepositOp(_, a) => a
    case WithdrawOp(_, a) => -a
    case TransferOp(_, _, _) => 0
  }

  /** What a transaction that begins reads: the balance without the updates that are not committed yet. */
  ghost function CommittedBalance(s: State, w: nat): int {
    if w < |s.balances| then s.balances[w] - Sum(s.txns, DoneDelta(w)) else 0
  }

  /** The reads and checks at the start of the transaction; addFundsInternal deposits any positive amount. */
  ghost predicate Admitted(s: State, op: Op) {
    match op
    case CreditOp(w, a) => w < |s.balances| && a > 0
    case DepositOp(w, a) => w < |s.balances| && a > 0
    case WithdrawOp(w, a) => w < |s.balances| && a >= MIN_AMOUNT && CommittedBalance(s, w) >= a
    case TransferOp(f, t, a) =>
      f < |s.balances| && t < |s.balances| && f != t && a >= MIN_AMOUNT && CommittedBalance(s, f) >= a
  }

  predicate IsOpen(s: State, i: nat) {
    i < |s.txns| && s.txns[i].Open?
  }

  function Apply(balances: seq<int>, w: Write): seq<int> {
    if w.AddBalance? && w.id < |balances| then balances[w.id := balances[w.id] + w.delta] else balances
  }

  function Undo(balances: seq<int>, done: seq<Write>): seq<int>
    decreases |done|
  {
    if |done| == 0 then balances
    else
      var w := done[|done| - 1];
      Undo(if w.AddBalance? then Apply(balances, AddBalance(w.id, -w.delta)) else balances, done[..|done| - 1])
  }

  function WithoutTxn(ledger: seq<Tagged>, i: nat): seq<Tagged> {
    if |ledger| == 0 then []
    else
      var rest := WithoutTxn(ledger[..|ledger| - 1], i);
      if ledger[|ledger| - 1].txn == i then rest else rest + [ledger[|ledger| - 1]]
  }

  ghost function Step(s: State, e: Event): State {
    match e
    case OpenWallet => s.(balances := s.balances + [0])
    case Begin(op, su, sr) =>
      if Admitted(s, op) then s.(txns := s.txns + [Open(op, su, sr, [], Program(op, su, sr))]) else s
    case Exec(i) =>
      if IsOpen(s, i) && |s.txns[i].todo| > 0 then
        var t := s.txns[i];
        var w := t.todo[0];
        State(Apply(s.balances, w),
              if w.AddRow? then s.ledger + [Tagged(i, w.row)] else s.ledger,
              s.txns[i := t.(done := t.done + [w], todo := t.todo[1..])],
              s.settled)
      else s
    case Commit(i) =>
      if IsOpen(s, i) && |s.txns[i].todo| == 0 then
        s.(txns := s.txns[i := Closed], settled := s.settled + Net(s.txns[i].op))
      else s
    case Abort(i) =>
      if IsOpen(s, i) then
        State(Undo(s.balances, s.txns[i].done), WithoutTxn(s.ledger, i), s.txns[i := Closed], s.settled)
      else s
  }

  ghost function Run(es: seq<Event>): State {
    if |es| == 0 then START else Step(Run(es[..|es| - 1]), es[|es| - 1])
  }

  // ---- Weights ------------------------------------------------------------------------------

  ghost function DeltaAt(w: int): Write -> int {
    (x: Write) => if x.AddBalance? && x.id == w then x.delta else 0
  }

  ghost function RowAt(w: int): Write -> int {
    (x: Write) => if x.AddRow? && x.row.walletId == w then Signed(x.row) else 0
  }

  ghost function AnyDelta(): Write -> int {
    (x: Write) => if x.AddBalance? then x.delta else 0
  }

  ghost function DoneDelta(w: int): Txn -> int {
    (t: Txn) => if t.Open? then Sum(t.done, DeltaAt(w)) else 0
  }

  ghost function DoneRows(w: int): Txn -> int {
    (t: Txn) => if t.Open? then Sum(t.done, RowAt(w)) else 0
  }

  ghost function DoneTotal(): Txn -> int {
    (t: Txn) => if t.Open? then Sum(t.done, AnyDelta()) else 0
  }

  ghost function TaggedRow(w: int): Tagged -> int {
    (x: Tagged) => if x.row.walletId == w then Signed(x.row) else 0
  }

  ghost function TaggedRowOf(i: nat, w: int): Tagged -> int {
    (x: Tagged) => if x.txn == i && x.row.walletId == w then Signed(x.row) else 0
  }

  ghost function Itself(): int -> int {
    (b: int) => b
  }

  // ---- Invariant ----------------------------------------------------------------------------

  ghost predicate InRange(op: Op, n: nat) {
    && op.amount > 0
    && match op
       case CreditOp(w, _) => w < n
       case DepositOp(w, _) => w < n
       case WithdrawOp(w, _) => w < n
       case TransferOp(f, t, _) => f < n && t < n && f != t
  }

  ghost predicate TxnInv(s: State, i: nat)
    requires i < |s.txns|
  {
    var t := s.txns[i];
    t.Open? ==>
      && InRange(t.op, |s.balances|)
      && t.done + t.todo == Program(t.op, t.swapUpdates, t.swapRows)
      && forall w: int :: Sum(s.ledger, TaggedRowOf(i, w)) == Sum(t.done, RowAt(w))
  }

  ghost predicate Agrees(s: State, w: nat)
    requires w < |s.balances|
  {
    s.balances[w] - Sum(s.txns, DoneDelta(w)) == Sum(s.ledger, TaggedRow(w)) - Sum(s.txns, DoneRows(w))
  }

  ghost predicate Inv(s: State) {
    && (forall i: nat :: i < |s.txns| ==> TxnInv(s, i))
    && (forall i :: 0 <= i < |s.ledger| ==> s.ledger[i].txn < |s.txns| && s.ledger[i].row.walletId < |s.balances|)
    && (forall w: nat :: w < |s.balances| ==> Agrees(s, w))
    && Sum(s.balances, Itself()) - Sum(s.txns, DoneTotal()) == s.settled
  }

  lemma Sum2<T>(a: T, b: T, f: T -> int)
    ensures Sum([a, b], f) == f(a) + f(b)
  {
    assert [a, b] == ([] + [a]) + [b];
    SumAppend([], a, f);
    SumAppend([] + [a], b, f);
  }

  lemma Sum4<T>(p: seq<T>, f: T -> int)
    requires |p| == 4
    ensures Sum(p, f) == f(p[0]) + f(p[1]) + f(p[2]) + f(p[3])
  {
    assert p[..2] + p[2..] == p;
    assert p[..2] == [p[0], p[1]] && p[2..] == [p[2], p[3]];
    SumConcat(p[..2], p[2..], f);
    Sum2(p[0], p[1], f);
    Sum2(p[2], p[3], f);
  }

  /** A whole program moves a wallet's balance by exactly what its ledger rows say, and the total by its external flow. */
  lemma ProgramBalanced(op: Op, swapUpdates: bool, swapRows: bool, w: int)
    ensures Sum(Program(op, swapUpdates, swapRows), DeltaAt(w)) == Sum(Program(op, swapUpdates, swapRows), RowAt(w))
    ensures Sum(Program(op, swapUpdates, swapRows), AnyDelta()) == Net(op)
  {
    var p := Program(op, swapUpdates, swapRows);
    if op.TransferOp? {
      Sum4(p, DeltaAt(w));
      Sum4(p, RowAt(w));
      Sum4(p, AnyDelta());
    } else {
      Sum2(p[0], p[1], DeltaAt(w));
      Sum2(p[0], p[1], RowAt(w));
      Sum2(p[0], p[1], AnyDelta());
    }
  }

  lemma ProgramInRange(op: Op, swapUpdates: bool, swapRows: bool, n: nat)
    requires InRange(op, n)
    ensures var p := Program(op, swapUpdates, swapRows);
            forall k :: 0 <= k < |p| ==>
              (p[k].AddBalance? ==> p[k].id < n) && (p[k].AddRow? ==> p[k].row.walletId < n)
  {
  }

  // ---- Preservation, event by event ---------------------------------------------------------

  lemma OpenWalletKeeps(s: State)
    requires Inv(s)
    ensures Inv(Step(s, OpenWallet))
  {
    var s' := Step(s, OpenWallet);
    var n := |s.balances|;
    SumAppend(s.balances, 0, Itself());
    forall i: nat | i < |s'.txns| ensures TxnInv(s', i) {
      assert TxnInv(s, i);
    }
    forall w: nat | w < |s'.balances| ensures Agrees(s', w) {
      if w < n {
        assert Agrees(s, w);
      } else {
        FreshWalletUntouched(s, n);
      }
    }
  }

  /** No open transaction and no ledger row names a wallet that does not exist yet. */
  lemma FreshWalletUntouched(s: State, n: nat)
    requires Inv(s) && n == |s.balances|
    ensures Sum(s.txns, DoneDelta(n)) == 0 && Sum(s.txns, DoneRows(n)) == 0 && Sum(s.ledger, TaggedRow(n)) == 0
  {
    SumZero(s.ledger, TaggedRow(n));
    forall i | 0 <= i < |s.txns| ensures DoneDelta(n)(s.txns[i]) == 0 && DoneRows(n)(s.txns[i]) == 0 {
      assert TxnInv(s, i);
      var t := s.txns[i];
      if t.Open? {
        ProgramInRange(t.op, t.swapUpdates, t.swapRows, n);
        assert forall k :: 0 <= k < |t.done| ==> t.done[k] == (t.done + t.todo)[k];
        SumZero(t.done, DeltaAt(n));
        SumZero(t.done, RowAt(n));
      }
    }
    SumZero(s.txns, DoneDelta(n));
    SumZero(s.txns, DoneRows(n));
  }

  lemma BeginKeeps(s: State, op: Op, su: bool, sr: bool)
    requires Inv(s) && Admitted(s, op)
    ensures Inv(Step(s, Begin(op, su, sr)))
  {
    var s' := Step(s, Begin(op, su, sr));
    var t := Open(op, su, sr, [], Program(op, su, sr));
    assert s'.txns == s.txns + [t];
    SumAppend(s.txns, t, DoneTotal());
    forall i: nat | i < |s'.txns| ensures TxnInv(s', i) {
      if i < |s.txns| {
        assert TxnInv(s, i);
      } else {
        forall w: int ensures Sum(s.ledger, TaggedRowOf(i, w)) == 0 {
          SumZero(s.ledger, TaggedRowOf(i, w));
        }
      }
    }
    forall w: nat | w < |s'.balances| ensures Agrees(s', w) {
      assert Agrees(s, w);
      SumAppend(s.txns, t, DoneDelta(w));
      SumAppend(s.txns, t, DoneRows(w));
    }
  }

  lemma ExecAgrees(s: State, i: nat, w: nat)
    requires Inv(s) && IsOpen(s, i) && |s.txns[i].todo| > 0 && w < |s.balances|
    ensures Agrees(Step(s, Exec(i)), w)
  {
    var t := s.txns[i];
    var x := t.todo[0];
    var t' := t.(done := t.done + [x], todo := t.todo[1..]);
    assert Agrees(s, w);
    assert TxnInv(s, i);
    ProgramInRange(t.op, t.swapUpdates, t.swapRows, |s.balances|);
    assert x == (t.done + t.todo)[|t.done|];
    var s' := Step(s, Exec(i));
    assert s'.txns == s.txns[i := t'];
    SumUpdate(s.txns, i, t', DoneDelta(w));
    SumUpdate(s.txns, i, t', DoneRows(w));
    SumAppend(t.done, x, DeltaAt(w));
    SumAppend(t.done, x, RowAt(w));
    if x.AddRow? {
      SumAppend(s.ledger, Tagged(i, x.row), TaggedRow(w));
    }
    assert Sum(s'.ledger, TaggedRow(w)) == Sum(s.ledger, TaggedRow(w)) + RowAt(w)(x);
    assert s'.balances[w] == s.balances[w] + DeltaAt(w)(x);
  }

  lemma ExecTxnInv(s: State, i: nat, j: nat)
    requires Inv(s) && IsOpen(s, i) && |s.txns[i].todo| > 0 && j < |s.txns|
    ensures TxnInv(Step(s, Exec(i)), j)
  {
    var s' := Step(s, Exec(i));
    var t := s.txns[i];
    var x := t.todo[0];
    assert TxnInv(s, j);
    if j == i {
      assert (t.done + [x]) + t.todo[1..] == t.done + t.todo;
    }
    if s.txns[j].Open? {
      forall w: int ensures Sum(s'.ledger, TaggedRowOf(j, w)) == Sum(s'.txns[j].done, RowAt(w)) {
        SumAppend(t.done, x, RowAt(w));
        if x.AddRow? {
          SumAppend(s.ledger, Tagged(i, x.row), TaggedRowOf(j, w));
        }
      }
    }
  }

  lemma ExecKeeps(s: State, i: nat)
    requires Inv(s) && IsOpen(s, i) && |s.txns[i].todo| > 0
    ensures Inv(Step(s, Exec(i)))
  {
    var s' := Step(s, Exec(i));
    var t := s.txns[i];
    var x := t.todo[0];
    var t' := t.(done := t.done + [x], todo := t.todo[1..]);
    assert TxnInv(s, i);
    ProgramInRange(t.op, t.swapUpdates, t.swapRows, |s.balances|);
    assert x == (t.done + t.todo)[|t.done|];
    SumUpdate(s.txns, i, t', DoneTotal());
    SumAppend(t.done, x, AnyDelta());
    if x.AddBalance? {
      SumUpdate(s.balances, x.id, s.balances[x.id] + x.delta, Itself());
    }
    forall j: nat | j < |s'.txns| ensures TxnInv(s', j) {
      ExecTxnInv(s, i, j);
    }
    forall w: nat | w < |s'.balances| ensures Agrees(s', w) {
      ExecAgrees(s, i, w);
    }
  }

  lemma CommitKeeps(s: State, i: nat)
    requires Inv(s) && IsOpen(s, i) && |s.txns[i].todo| == 0
    ensures Inv(Step(s, Commit(i)))
  {
    var s' := Step(s, Commit(i));
    var t := s.txns[i];
    assert TxnInv(s, i);
    assert t.done == t.done + t.todo;
    ProgramBalanced(t.op, t.swapUpdates, t.swapRows, 0);
    SumUpdate(s.txns, i, Closed, DoneTotal());
    forall j: nat | j < |s'.txns| ensures TxnInv(s', j) {
      assert TxnInv(s, j);
    }
    forall w: nat | w < |s'.balances| ensures Agrees(s', w) {
      assert Agrees(s, w);
      ProgramBalanced(t.op, t.swapUpdates, t.swapRows, w);
      SumUpdate(s.txns, i, Closed, DoneDelta(w));
      SumUpdate(s.txns, i, Closed, DoneRows(w));
    }
  }

  /** Rolling back subtracts exactly what the transaction had added so far. */
  lemma {:induction false} UndoSubtracts(balances: seq<int>, done: seq<Write>)
    requires forall k :: 0 <= k < |done| ==> done[k].AddBalance? ==> done[k].id < |balances|
    ensures |Undo(balances, done)| == |balances|
    ensures forall w :: 0 <= w < |balances| ==> Undo(balances, done)[w] == balances[w] - Sum(done, DeltaAt(w))
    ensures Sum(Undo(balances, done), Itself()) == Sum(balances, Itself()) - Sum(done, AnyDelta())
    decreases |done|
  {
    if |done| > 0 {
      var x := done[|done| - 1];
      var rest := done[..|done| - 1];
      if x.AddBalance? {
        var b := balances[x.id := balances[x.id] - x.delta];
        SumUpdate(balances, x.id, balances[x.id] - x.delta, Itself());
        UndoSubtracts(b, rest);
      } else {
        UndoSubtracts(balances, rest);
      }
    }
  }

  lemma {:induction false} WithoutTxnSums(ledger: seq<Tagged>, i: nat, w: int)
    ensures Sum(WithoutTxn(ledger, i), TaggedRow(w)) == Sum(ledger, TaggedRow(w)) - Sum(ledger, TaggedRowOf(i, w))
    ensures forall j: nat :: j != i ==> Sum(WithoutTxn(ledger, i), TaggedRowOf(j, w)) == Sum(ledger, TaggedRowOf(j, w))
  {
    if |ledger| > 0 {
      var rest := ledger[..|ledger| - 1];
      var x := ledger[|ledger| - 1];
      WithoutTxnSums(rest, i, w);
      SumAppend(WithoutTxn(rest, i), x, TaggedRow(w));
      forall j: nat | j != i
        ensures Sum(WithoutTxn(ledger, i), TaggedRowOf(j, w)) == Sum(ledger, TaggedRowOf(j, w))
      {
        SumAppend(WithoutTxn(rest, i), x, TaggedRowOf(j, w));
      }
    }
  }

  lemma {:induction false} WithoutTxnSubset(ledger: seq<Tagged>, i: nat)
    ensures forall k :: 0 <= k < |WithoutTxn(ledger, i)| ==> WithoutTxn(ledger, i)[k] in ledger
  {
    if |ledger| > 0 {
      WithoutTxnSubset(ledger[..|ledger| - 1], i);
    }
  }

  lemma AbortKeeps(s: State, i: nat)
    requires Inv(s) && IsOpen(s, i)
    ensures Inv(Step(s, Abort(i)))
  {
    var s' := Step(s, Abort(i));
    var t := s.txns[i];
    assert TxnInv(s, i);
    ProgramInRange(t.op, t.swapUpdates, t.swapRows, |s.balances|);
    assert forall k :: 0 <= k < |t.done| ==> t.done[k] == (t.done + t.todo)[k];
    UndoSubtracts(s.balances, t.done);
    WithoutTxnSubset(s.ledger, i);
    SumUpdate(s.txns, i, Closed, DoneTotal());
    forall j: nat | j < |s'.txns| ensures TxnInv(s', j) {
      assert TxnInv(s, j);
      forall w: int | j != i ensures Sum(s'.ledger, TaggedRowOf(j, w)) == Sum(s.ledger, TaggedRowOf(j, w)) {
        WithoutTxnSums(s.ledger, i, w);
      }
    }
    forall w: nat | w < |s'.balances| ensures Agrees(s', w) {
      assert Agrees(s, w);
      WithoutTxnSums(s.ledger, i, w);
      SumUpdate(s.txns, i, Closed, DoneDelta(w));
      SumUpdate(s.txns, i, Closed, DoneRows(w));
    }
  }

  lemma StepKeepsInv(s: State, e: Event)
    requires Inv(s)
    ensures Inv(Step(s, e))
  {
    if Step(s, e) != s {
      match e
      case OpenWallet => OpenWalletKeeps(s);
      case Begin(op, su, sr) => BeginKeeps(s, op, su, sr);
      case Exec(i) => ExecKeeps(s, i);
      case Commit(i) => CommitKeeps(s, i);
      case Abort(i) => AbortKeeps(s, i);
    }
  }

  lemma {:induction false} RunKeepsInv(es: seq<Event>)
    ensures Inv(Run(es))
  {
    if |es| > 0 {
      RunKeepsInv(es[..|es| - 1]);
      StepKeepsInv(Run(es[..|es| - 1]), es[|es| - 1]);
    }
  }

  ghost predicate AtRest(s: State) {
    forall i :: 0 <= i < |s.txns| ==> s.txns[i].Closed?
  }

  /**
   For every interleaving of row-level updates, commits and rollbacks: whenever no transaction is in flight, each
   wallet's balance is the signed sum of its ledger rows, and the total over all wallets is the external flow of
   the committed transactions, to which a transfer contributes nothing.
   */
  lemma LedgerAgreesAtRest(es: seq<Event>)
    requires AtRest(Run(es))
    ensures var s := Run(es);
            && (forall w :: 0 <= w < |s.balances| ==> s.balances[w] == Sum(s.ledger, TaggedRow(w)))
            && Sum(s.balances, Itself()) == s.settled
  {
    var s := Run(es);
    RunKeepsInv(es);
    SumZero(s.txns, DoneTotal());
    forall w: nat | w < |s.balances| ensures s.balances[w] == Sum(s.ledger, TaggedRow(w)) {
      assert Agrees(s, w);
      SumZero(s.txns, DoneDelta(w));
      SumZero(s.txns, DoneRows(w));
    }
  }

  const DEPOSITED := Tagged(0, LedgerRow(0, Deposit, 150, "PI", None))

  /** Transaction i would update a row that another open transaction has updated: the database makes it wait. */
  predicate Waits(s: State, i: nat) {
    && IsOpen(s, i) && |s.txns[i].todo| > 0 && s.txns[i].todo[0].AddBalance?
    && exists j :: 0 <= j < |s.txns| && j != i && s.txns[j].Open? && Updated(s.txns[j].done, s.txns[i].todo[0].id)
  }

  predicate Updated(done: seq<Write>, w: nat) {
    exists k :: 0 <= k < |done| && done[k].AddBalance? && done[k].id == w
  }

  /** The state a run leaves, if it keeps to the row locks. */
  ghost function Locked(es: seq<Event>): Option<State> {
    if |es| == 0 then Some(START)
    else
      var before, e := Locked(es[..|es| - 1]), es[|es| - 1];
      if before.None? || (e.Exec? && Waits(before.value, e.txn)) then None else Some(Step(before.value, e))
  }

  lemma {:induction false} LockedIsRun(es: seq<Event>)
    ensures Locked(es).Some? ==> Locked(es) == Some(Run(es))
  {
    if |es| > 0 {
      LockedIsRun(es[..|es| - 1]);
    }
  }

  lemma LockedSnoc(es: seq<Event>, s: State, e: Event)
    requires Locked(es) == Some(s) && (e.Exec? ==> !Waits(s, e.txn))
    ensures Locked(es + [e]) == Some(Step(s, e))
  {
    assert (es + [e])[..|es|] == es;
  }

  /** A wallet with a deposit of 150 in it. */
  function Funded(): seq<Event> {
    [OpenWallet] + [Begin(DEPOSIT, false, false)] + [Exec(0)] + [Exec(0)] + [Commit(0)]
  }

  const DEPOSIT := DepositOp(0, 150)

  function Depositing(done: seq<Write>, todo: seq<Write>): Txn {
    Open(DEPOSIT, false, false, done, todo)
  }

  lemma DepositSteps(s: State)
    requires s == State([0], [], [Depositing([], Program(DEPOSIT, false, false))], 0)
    ensures Step(Step(Step(s, Exec(0)), Exec(0)), Commit(0)) == State([150], [DEPOSITED], [Closed], 150)
  {
    var update, row := AddBalance(0, 150), AddRow(DEPOSITED.row);
    var updated := Step(s, Exec(0));
    assert updated.txns[0].done == [update] && updated.txns[0].todo == [row];
    assert updated.balances == [150] && updated.txns == [Depositing([update], [row])];
    var written := Step(updated, Exec(0));
    assert written.txns[0].done == [update, row] && written.txns[0].todo == [];
    assert written.ledger == [DEPOSITED] && written.txns == [Depositing([update, row], [])];
    assert Step(written, Commit(0)).txns == [Closed];
  }

  lemma DepositDoes(es: seq<Event>)
    requires Locked(es) == Some(State([0], [], [], 0))
    ensures Locked(es + [Begin(DEPOSIT, false, false)] + [Exec(0)] + [Exec(0)] + [Commit(0)])
            == Some(State([150], [DEPOSITED], [Closed], 150))
  {
    var s := State([0], [], [Depositing([], Program(DEPOSIT, false, false))], 0);
    var begun := es + [Begin(DEPOSIT, false, false)];
    LockedSnoc(es, State([0], [], [], 0), Begin(DEPOSIT, false, false));
    assert Step(State([0], [], [], 0), Begin(DEPOSIT, false, false)) == s;
    LockedSnoc(begun, s, Exec(0));
    var updated := Step(s, Exec(0));
    LockedSnoc(begun + [Exec(0)], updated, Exec(0));
    LockedSnoc(begun + [Exec(0)] + [Exec(0)], Step(updated, Exec(0)), Commit(0));
    DepositSteps(s);
  }

  lemma FundedDoes()
    ensures Locked(Funded()) == Some(State([150], [DEPOSITED], [Closed], 150))
  {
    LockedSnoc([], START, OpenWallet);
    assert [] + [OpenWallet] == [OpenWallet];
    assert Step(START, OpenWallet).balances == [0];
    DepositDoes([OpenWallet]);
  }

  const WITHDRAW_100: Op := WithdrawOp(0, 100)
  const ASK := Begin(WITHDRAW_100, false, false)
  const ASKED := Open(WITHDRAW_100, false, false, [], Program(WITHDRAW_100, false, false))
  const DEBITED := Open(WITHDRAW_100, false, false, [AddBalance(0, -100)], [AddRow(WithdrawnBy(0).row)])

  function WithdrawnBy(i: nat): Tagged {
    Tagged(i, LedgerRow(0, Withdrawal, 100, "PI", None))
  }

  lemma BothAsk(es: seq<Event>)
    requires Locked(es) == Some(State([150], [DEPOSITED], [Closed], 150))
    ensures Locked(es + [ASK] + [ASK]) == Some(State([150], [DEPOSITED], [Closed, ASKED, ASKED], 150))
  {
    var s := Locked(es).value;
    SumZero(s.txns, DoneDelta(0));
    LockedSnoc(es, s, ASK);
    var s1 := Step(s, ASK);
    assert s1 == s.(txns := [Closed, ASKED]);
    SumZero(s1.txns, DoneDelta(0));
    LockedSnoc(es + [ASK], s1, ASK);
    assert Step(s1, ASK) == s.(txns := [Closed, ASKED, ASKED]);
  }

  predicate OthersIdle(s: State, i: nat) {
    forall j :: 0 <= j < |s.txns| && j != i ==> s.txns[j] == Closed || s.txns[j] == ASKED
  }

  lemma Debits(s: State, i: nat)
    requires |s.balances| == 1 && i < |s.txns| && s.txns[i] == ASKED
    ensures Step(s, Exec(i)) == s.(balances := [s.balances[0] - 100], txns := s.txns[i := DEBITED])
  {
    assert Step(s, Exec(i)).txns[i].done == DEBITED.done && Step(s, Exec(i)).txns[i].todo == DEBITED.todo;
    assert Step(s, Exec(i)).balances == [s.balances[0] - 100];
  }

  /** A withdrawal that has been admitted, while no other is under way, runs to its commit. */
  lemma RunsToCommit(es: seq<Event>, s: State, i: nat)
    requires Locked(es) == Some(s) && |s.balances| == 1
    requires i < |s.txns| && s.txns[i] == ASKED && OthersIdle(s, i)
    ensures Locked(es + [Exec(i)] + [Exec(i)] + [Commit(i)])
            == Some(State([s.balances[0] - 100], s.ledger + [WithdrawnBy(i)], s.txns[i := Closed], s.settled - 100))
  {
    Debits(s, i);
    LockedSnoc(es, s, Exec(i));
    var debited := Step(s, Exec(i));
    LockedSnoc(es + [Exec(i)], debited, Exec(i));
    var written := Step(debited, Exec(i));
    assert written.txns[i].todo == [] && written.ledger == s.ledger + [WithdrawnBy(i)];
    LockedSnoc(es + [Exec(i)] + [Exec(i)], written, Commit(i));
    assert Step(written, Commit(i)).txns == s.txns[i := Closed];
  }

  /** Both withdrawals begin, then each runs to its commit. */
  function Overdraft(): seq<Event> {
    Funded() + [ASK] + [ASK] + [Exec(1)] + [Exec(1)] + [Commit(1)] + [Exec(2)] + [Exec(2)] + [Commit(2)]
  }

  lemma BothRun(es: seq<Event>)
    requires Locked(es) == Some(State([150], [DEPOSITED], [Closed, ASKED, ASKED], 150))
    ensures var s := Locked(es + [Exec(1)] + [Exec(1)] + [Commit(1)] + [Exec(2)] + [Exec(2)] + [Commit(2)]);
            s.Some? && (s.value.balances, s.value.txns) == ([-50], [Closed, Closed, Closed])
  {
    var first := es + [Exec(1)] + [Exec(1)] + [Commit(1)];
    RunsToCommit(es, Locked(es).value, 1);
    var s := Locked(first).value;
    assert s.txns == [Closed, Closed, ASKED] && s.balances == [50];
    RunsToCommit(first, s, 2);
    assert s.txns[2 := Closed] == [Closed, Closed, Closed];
  }

  /** Solvency, in contrast, needs whole transactions: two withdrawals that both read 150 overdraw the wallet, row locks or not. */
  lemma InterleavedWithdrawalsOverdraw()
    ensures Locked(Overdraft()) == Some(Run(Overdraft())) && AtRest(Run(Overdraft())) && Run(Overdraft()).balances == [-50]
  {
    FundedDoes();
    BothAsk(Funded());
    BothRun(Funded() + [ASK] + [ASK]);
    LockedIsRun(Overdraft());
  }

  // ---- Exactly how far the balance check may be trusted ---------------------------------------

  ghost function CreditAt(w: int): Write -> int {
    (x: Write) => if x.AddBalance? && x.id == w && x.delta > 0 then x.delta else 0
  }

  ghost function DebitAt(w: int): Write -> int {
    (x: Write) => if x.AddBalance? && x.id == w && x.delta < 0 then -x.delta else 0
  }

  /** What an open transaction can still take from wallet w: credits it may roll back, and debits it has yet to make. */
  ghost function AtRisk(w: int): Txn -> int {
    (t: Txn) => if t.Open? then Sum(t.done, CreditAt(w)) + Sum(t.todo, DebitAt(w)) else 0
  }

  /** The balance of w if every transaction in flight goes the worst way for it. */
  ghost function Floor(s: State, w: nat): int
    requires w < |s.balances|
  {
    s.balances[w] - Sum(s.txns, AtRisk(w))
  }

  /** What an operation takes from wallet w. */
  function Debit(op: Op, w: nat): int {
    match op
    case WithdrawOp(x, a) => if x == w then a else 0
    case TransferOp(f, _, a) => if f == w then a else 0
    case _ => 0
  }

  lemma SumsNonNegative(writes: seq<Write>, w: int)
    ensures Sum(writes, CreditAt(w)) >= 0 && Sum(writes, DebitAt(w)) >= 0
    ensures Sum(writes, DeltaAt(w)) == Sum(writes, CreditAt(w)) - Sum(writes, DebitAt(w))
    decreases |writes|
  {
    if |writes| > 0 {
      SumsNonNegative(writes[..|writes| - 1], w);
    }
  }

  lemma RiskNonNegative(s: State, w: int)
    ensures forall i :: 0 <= i < |s.txns| ==> AtRisk(w)(s.txns[i]) >= 0
    ensures Sum(s.txns, AtRisk(w)) >= 0
  {
    forall i | 0 <= i < |s.txns| ensures AtRisk(w)(s.txns[i]) >= 0 {
      if s.txns[i].Open? {
        SumsNonNegative(s.txns[i].done, w);
        SumsNonNegative(s.txns[i].todo, w);
      }
    }
    SumNonNegative(s.txns, AtRisk(w));
  }

  /** A transaction either credits a wallet or debits it: its program's debits are what Debit says, and rule out credits. */
  lemma ProgramSides(op: Op, su: bool, sr: bool, w: nat, n: nat)
    requires InRange(op, n)
    ensures Sum(Program(op, su, sr), DebitAt(w)) == Debit(op, w)
    ensures Sum(Program(op, su, sr), CreditAt(w)) == 0 || Debit(op, w) == 0
  {
    var p := Program(op, su, sr);
    if op.TransferOp? {
      Sum4(p, DebitAt(w));
      Sum4(p, CreditAt(w));
    } else {
      Sum2(p[0], p[1], DebitAt(w));
      Sum2(p[0], p[1], CreditAt(w));
    }
  }

  /** Executing a write moves it from the risk to the balance or back: the floor stays. */
  lemma ExecKeepsFloor(s: State, i: nat, w: nat)
    requires Inv(s) && IsOpen(s, i) && |s.txns[i].todo| > 0 && w < |s.balances|
    ensures Floor(Step(s, Exec(i)), w) == Floor(s, w)
  {
    var t := s.txns[i];
    var x := t.todo[0];
    var t' := t.(done := t.done + [x], todo := t.todo[1..]);
    assert t.todo == [x] + t.todo[1..];
    SumConcat([x], t.todo[1..], DebitAt(w));
    assert [x] == [] + [x];
    SumAppend([], x, DebitAt(w));
    SumAppend(t.done, x, CreditAt(w));
    SumUpdate(s.txns, i, t', AtRisk(w));
  }

  lemma {:induction false} UndoLength(balances: seq<int>, done: seq<Write>)
    ensures |Undo(balances, done)| == |balances|
    decreases |done|
  {
    if |done| > 0 {
      var x := done[|done| - 1];
      UndoLength(if x.AddBalance? then Apply(balances, AddBalance(x.id, -x.delta)) else balances, done[..|done| - 1]);
    }
  }

  lemma BalancesGrow(s: State, e: Event)
    ensures |Step(s, e).balances| >= |s.balances|
    ensures !e.OpenWallet? ==> |Step(s, e).balances| == |s.balances|
  {
    if e.Abort? && IsOpen(s, e.txn) {
      UndoLength(s.balances, s.txns[e.txn].done);
    }
  }

  lemma CloseRaisesFloor(s: State, e: Event, w: nat)
    requires Inv(s) && w < |s.balances|
    requires (e.Commit? && IsOpen(s, e.txn) && |s.txns[e.txn].todo| == 0) || (e.Abort? && IsOpen(s, e.txn))
    ensures |Step(s, e).balances| == |s.balances|
    ensures Floor(Step(s, e), w) == Floor(s, w) + (
              if e.Commit? then Sum(s.txns[e.txn].done, CreditAt(w))
              else Sum(s.txns[e.txn].done, DebitAt(w)) + Sum(s.txns[e.txn].todo, DebitAt(w)))
  {
    var t := s.txns[e.txn];
    BalancesGrow(s, e);
    assert TxnInv(s, e.txn);
    SumUpdate(s.txns, e.txn, Closed, AtRisk(w));
    SumsNonNegative(t.done, w);
    if e.Abort? {
      ProgramInRange(t.op, t.swapUpdates, t.swapRows, |s.balances|);
      assert forall k :: 0 <= k < |t.done| ==> t.done[k] == (t.done + t.todo)[k];
      UndoSubtracts(s.balances, t.done);
    }
  }

  lemma BeginLowersFloor(s: State, e: Event, w: nat)
    requires Inv(s) && e.Begin? && Admitted(s, e.op) && w < |s.balances|
    ensures Floor(Step(s, e), w) == Floor(s, w) - Debit(e.op, w)
  {
    ProgramSides(e.op, e.swapUpdates, e.swapRows, w, |s.balances|);
    SumAppend(s.txns, Open(e.op, e.swapUpdates, e.swapRows, [], Program(e.op, e.swapUpdates, e.swapRows)), AtRisk(w));
  }

  /** Nothing but the start of a debit lowers a wallet's floor. */
  lemma StepFloor(s: State, e: Event, w: nat)
    requires Inv(s) && w < |s.balances|
    ensures w < |Step(s, e).balances|
    ensures Floor(Step(s, e), w) >= Floor(s, w) - if e.Begin? && Admitted(s, e.op) then Debit(e.op, w) else 0
  {
    BalancesGrow(s, e);
    if Step(s, e) != s {
      match e
      case OpenWallet =>
      case Begin(op, su, sr) => BeginLowersFloor(s, e, w);
      case Exec(i) => ExecKeepsFloor(s, i, w);
      case Commit(i) =>
        CloseRaisesFloor(s, e, w);
        SumsNonNegative(s.txns[i].done, w);
      case Abort(i) =>
        CloseRaisesFloor(s, e, w);
        SumsNonNegative(s.txns[i].done, w);
        SumsNonNegative(s.txns[i].todo, w);
    }
  }

  /** Every debit starts with the floor of its wallet, and not only its balance, at least the amount. */
  ghost predicate Guarded(es: seq<Event>) {
    forall k :: 0 <= k < |es| && es[k].Begin? && Admitted(Run(es[..k]), es[k].op) ==> Covered(Run(es[..k]), es[k].op)
  }

  ghost predicate Covered(s: State, op: Op) {
    forall w: nat :: w < |s.balances| && Debit(op, w) > 0 ==> Floor(s, w) >= Debit(op, w)
  }

  ghost predicate Solvent(s: State) {
    forall w: nat :: w < |s.balances| ==> Floor(s, w) >= 0
  }

  lemma FloorIsLow(s: State, w: nat)
    requires w < |s.balances|
    ensures s.balances[w] >= Floor(s, w)
  {
    RiskNonNegative(s, w);
  }

  lemma NewWalletFloor(s: State)
    requires Inv(s)
    ensures Floor(Step(s, OpenWallet), |s.balances|) == 0
  {
    var n := |s.balances|;
    forall i | 0 <= i < |s.txns| ensures AtRisk(n)(s.txns[i]) == 0 {
      assert TxnInv(s, i);
      var t := s.txns[i];
      if t.Open? {
        ProgramInRange(t.op, t.swapUpdates, t.swapRows, n);
        assert forall k :: 0 <= k < |t.done| ==> t.done[k] == (t.done + t.todo)[k];
        assert forall k :: 0 <= k < |t.todo| ==> t.todo[k] == (t.done + t.todo)[|t.done| + k];
        SumZero(t.done, CreditAt(n));
        SumZero(t.todo, DebitAt(n));
      }
    }
    SumZero(s.txns, AtRisk(n));
  }

  lemma StepKeepsSolvent(s: State, e: Event)
    requires Inv(s) && Solvent(s)
    requires e.Begin? && Admitted(s, e.op) ==> Covered(s, e.op)
    ensures Solvent(Step(s, e))
  {
    BalancesGrow(s, e);
    forall w: nat | w < |Step(s, e).balances| ensures Floor(Step(s, e), w) >= 0 {
      if w < |s.balances| {
        StepFloor(s, e, w);
      } else {
        NewWalletFloor(s);
      }
    }
  }

  /** If debits check the floor instead of the balance, no interleaving ever overdraws a wallet. */
  lemma {:induction false} GuardedIsSolvent(es: seq<Event>)
    requires Guarded(es)
    ensures Solvent(Run(es)) && forall w :: 0 <= w < |Run(es).balances| ==> Run(es).balances[w] >= 0
  {
    if |es| > 0 {
      var rest, e := es[..|es| - 1], es[|es| - 1];
      assert forall k :: 0 <= k < |rest| ==> rest[..k] == es[..k] && rest[k] == es[k];
      assert es[..|rest|] == rest;
      GuardedIsSolvent(rest);
      RunKeepsInv(rest);
      StepKeepsSolvent(Run(rest), e);
    }
    forall w: nat | w < |Run(es).balances| ensures Run(es).balances[w] >= 0 {
      FloorIsLow(Run(es), w);
    }
  }

  // ---- The floor is reached ---------------------------------------------------------------------

  ghost predicate NothingNew(ds: seq<Event>) {
    forall k :: 0 <= k < |ds| ==> ds[k].Exec? || ds[k].Abort? || ds[k].Commit?
  }

  ghost function From(s: State, ds: seq<Event>): State {
    if |ds| == 0 then s else Step(From(s, ds[..|ds| - 1]), ds[|ds| - 1])
  }

  lemma {:induction false} FromConcat(s: State, a: seq<Event>, b: seq<Event>)
    ensures From(s, a + b) == From(From(s, a), b)
  {
    if |b| == 0 {
      assert a + b == a;
    } else {
      assert (a + b)[..|a + b| - 1] == a + b[..|b| - 1];
      FromConcat(s, a, b[..|b| - 1]);
    }
  }

  lemma {:induction false} RunIsFrom(es: seq<Event>, ds: seq<Event>)
    ensures Run(es + ds) == From(Run(es), ds)
  {
    if |ds| == 0 {
      assert es + ds == es;
    } else {
      assert (es + ds)[..|es + ds| - 1] == es + ds[..|ds| - 1];
      RunIsFrom(es, ds[..|ds| - 1]);
    }
  }

  lemma {:induction false} FloorOutlasts(s: State, ds: seq<Event>, w: nat)
    requires Inv(s) && NothingNew(ds) && w < |s.balances|
    ensures Inv(From(s, ds)) && w < |From(s, ds).balances| && Floor(From(s, ds), w) >= Floor(s, w)
  {
    if |ds| > 0 {
      var rest := ds[..|ds| - 1];
      FloorOutlasts(s, rest, w);
      StepFloor(From(s, rest), ds[|ds| - 1], w);
      StepKeepsInv(From(s, rest), ds[|ds| - 1]);
    }
  }

  /** Only transaction i has moved, and the floor of w is what it was. */
  ghost predicate SameElsewhere(s: State, s': State, i: nat, w: nat) {
    && |s'.txns| == |s.txns| && w < |s.balances| && w < |s'.balances|
    && (forall j :: 0 <= j < |s.txns| && j != i ==> s'.txns[j] == s.txns[j])
    && Floor(s', w) == Floor(s, w)
  }

  /** A transaction that debits w credits it nowhere, one that does not has no debit of w to make. */
  lemma OneSide(s: State, i: nat, w: nat)
    requires IsOpen(s, i) && TxnInv(s, i)
    ensures Debit(s.txns[i].op, w) > 0 ==> Sum(s.txns[i].done, CreditAt(w)) == 0
    ensures Debit(s.txns[i].op, w) <= 0 ==> Sum(s.txns[i].todo, DebitAt(w)) == 0 && Sum(s.txns[i].done, DebitAt(w)) == 0
  {
    var t := s.txns[i];
    ProgramSides(t.op, t.swapUpdates, t.swapRows, w, |s.balances|);
    SumConcat(t.done, t.todo, DebitAt(w));
    SumConcat(t.done, t.todo, CreditAt(w));
    SumsNonNegative(t.done, w);
    SumsNonNegative(t.todo, w);
  }

  lemma OneExec(s: State, i: nat, w: nat)
    requires Inv(s) && IsOpen(s, i) && |s.txns[i].todo| > 0 && w < |s.balances|
    ensures var s' := Step(s, Exec(i));
            && SameElsewhere(s, s', i, w) && IsOpen(s', i)
            && s'.txns[i].op == s.txns[i].op && |s'.txns[i].todo| < |s.txns[i].todo|
  {
    BalancesGrow(s, Exec(i));
    ExecKeepsFloor(s, i, w);
  }

  /** A way for transaction i alone to go on, after which it can take nothing more from w, and has not changed the floor. */
  ghost predicate EndsThreat(s: State, ds: seq<Event>, i: nat, w: nat) {
    i < |s.txns| && NothingNew(ds) && SameElsewhere(s, From(s, ds), i, w) && AtRisk(w)(From(s, ds).txns[i]) == 0
  }

  /** A transaction that debits w runs until it has no such debit left to make. */
  lemma {:induction false} RunDebits(s: State, i: nat, w: nat)
    requires Inv(s) && IsOpen(s, i) && w < |s.balances| && Debit(s.txns[i].op, w) > 0
    ensures exists ds :: EndsThreat(s, ds, i, w)
    decreases |s.txns[i].todo|
  {
    OneSide(s, i, w);
    if |s.txns[i].todo| == 0 {
      assert From(s, []) == s && EndsThreat(s, [], i, w);
    } else {
      var next := Step(s, Exec(i));
      OneExec(s, i, w);
      StepKeepsInv(s, Exec(i));
      RunDebits(next, i, w);
      var ds :| EndsThreat(next, ds, i, w);
      FromConcat(s, [Exec(i)], ds);
      assert EndsThreat(s, [Exec(i)] + ds, i, w);
    }
  }

  /** Each transaction in flight can go the worst way for w, independently of the others. */
  lemma WorstOfOne(s: State, i: nat, w: nat)
    requires Inv(s) && i < |s.txns| && w < |s.balances|
    ensures exists ds :: EndsThreat(s, ds, i, w)
  {
    if s.txns[i].Closed? {
      assert From(s, []) == s && EndsThreat(s, [], i, w);
    } else if Debit(s.txns[i].op, w) > 0 {
      RunDebits(s, i, w);
    } else {
      OneSide(s, i, w);
      CloseRaisesFloor(s, Abort(i), w);
      assert EndsThreat(s, [Abort(i)], i, w);
    }
  }

  /** As far as w is concerned, last has the floor of s, and its first n transactions can take nothing more from w. */
  ghost predicate Harmless(s: State, last: State, n: nat, w: nat) {
    && n <= |s.txns| == |last.txns| && w < |s.balances| && w < |last.balances| && Floor(last, w) == Floor(s, w)
    && forall j :: 0 <= j < n ==> AtRisk(w)(last.txns[j]) == 0
  }

  /** A way for the first n transactions to go on to such a state. */
  ghost predicate EndsThreats(s: State, ds: seq<Event>, n: nat, w: nat) {
    NothingNew(ds) && Harmless(s, From(s, ds), n, w)
  }

  lemma OneMoreHarmless(s: State, before: State, last: State, n: nat, w: nat)
    requires n > 0 && Harmless(s, before, n - 1, w) && n <= |s.txns|
    requires SameElsewhere(before, last, n - 1, w) && AtRisk(w)(last.txns[n - 1]) == 0
    ensures Harmless(s, last, n, w)
  {
  }

  lemma {:induction false} WorstOfAll(s: State, n: nat, w: nat)
    requires Inv(s) && n <= |s.txns| && w < |s.balances|
    ensures exists ds :: EndsThreats(s, ds, n, w)
  {
    if n == 0 {
      assert From(s, []) == s && EndsThreats(s, [], n, w);
    } else {
      WorstOfAll(s, n - 1, w);
      var first :| EndsThreats(s, first, n - 1, w);
      var before := From(s, first);
      FloorOutlasts(s, first, w);
      WorstOfOne(before, n - 1, w);
      var ds :| EndsThreat(before, ds, n - 1, w);
      FromConcat(s, first, ds);
      OneMoreHarmless(s, before, From(before, ds), n, w);
      assert EndsThreats(s, first + ds, n, w);
    }
  }

  ghost predicate ReachesFloor(s: State, ds: seq<Event>, w: nat) {
    NothingNew(ds) && w < |s.balances| && w < |From(s, ds).balances| && From(s, ds).balances[w] == Floor(s, w)
  }

  lemma FloorIsReached(s: State, w: nat)
    requires Inv(s) && w < |s.balances|
    ensures exists ds :: ReachesFloor(s, ds, w)
  {
    WorstOfAll(s, |s.txns|, w);
    var ds :| EndsThreats(s, ds, |s.txns|, w);
    SumZero(From(s, ds).txns, AtRisk(w));
    assert ReachesFloor(s, ds, w);
  }

  /** However the transactions in flight end, w is not overdrawn. */
  ghost predicate NeverOverdrawn(s: State, w: nat) {
    forall ds :: NothingNew(ds) && w < |From(s, ds).balances| ==> From(s, ds).balances[w] >= 0
  }

  lemma NeverOverdrawnIffFloor(s: State, w: nat)
    requires Inv(s) && w < |s.balances|
    ensures NeverOverdrawn(s, w) <==> Floor(s, w) >= 0
  {
    if Floor(s, w) >= 0 {
      forall ds | NothingNew(ds) && w < |From(s, ds).balances| ensures From(s, ds).balances[w] >= 0 {
        FloorOutlasts(s, ds, w);
        FloorIsLow(From(s, ds), w);
      }
    } else {
      FloorIsReached(s, w);
      var ds :| ReachesFloor(s, ds, w);
    }
  }

  /**
   Exactly when a debit may start: with it in flight, no way for the transactions to go on overdraws its wallet if and
   only if the wallet's floor, not just its balance, covered the amount.
   */
  lemma DebitSafeIffFloorCovers(es: seq<Event>, e: Event, w: nat)
    requires e.Begin? && Admitted(Run(es), e.op) && w < |Run(es).balances|
    ensures (forall ds :: NothingNew(ds) && w < |Run(es + [e] + ds).balances| ==> Run(es + [e] + ds).balances[w] >= 0)
            <==> Floor(Run(es), w) >= Debit(e.op, w)
  {
    var longer, s := es + [e], Step(Run(es), e);
    RunKeepsInv(es);
    RunKeepsInv(longer);
    BeginLowersFloor(Run(es), e, w);
    NeverOverdrawnIffFloor(s, w);
    forall ds ensures Run(es + [e] + ds) == From(s, ds) {
      RunIsFrom(longer, ds);
    }
  }

  // ---- One at a time -----------------------------------------------------------------------------

  /** The operation run alone: its start, its updates and inserts, its commit. */
  function Alone(s: State, op: Op, su: bool, sr: bool): seq<Event> {
    var i := |s.txns|;
    [Begin(op, su, sr)] + Execs(i, |Program(op, su, sr)|) + [Commit(i)]
  }

  function Execs(i: nat, n: nat): seq<Event> {
    if n == 0 then [] else Execs(i, n - 1) + [Exec(i)]
  }

  function ApplyAll(balances: seq<int>, writes: seq<Write>): seq<int> {
    if |writes| == 0 then balances else Apply(ApplyAll(balances, writes[..|writes| - 1]), writes[|writes| - 1])
  }

  lemma FromSnoc(s: State, ds: seq<Event>, e: Event)
    ensures From(s, ds + [e]) == Step(From(s, ds), e)
  {
    assert (ds + [e])[..|ds|] == ds;
  }

  lemma {:induction false} NotOpenDoesNothing(s: State, i: nat, n: nat)
    requires !IsOpen(s, i)
    ensures From(s, Execs(i, n)) == s
  {
    if n > 0 {
      NotOpenDoesNothing(s, i, n - 1);
      FromSnoc(s, Execs(i, n - 1), Exec(i));
    }
  }

  lemma {:induction false} ExecsApply(s: State, i: nat, n: nat)
    requires IsOpen(s, i) && s.txns[i].done == [] && n <= |s.txns[i].todo|
    ensures var s', p := From(s, Execs(i, n)), s.txns[i].todo;
            IsOpen(s', i) && s'.txns[i].todo == p[n..] && s'.balances == ApplyAll(s.balances, p[..n])
  {
    var p := s.txns[i].todo;
    if n > 0 {
      ExecsApply(s, i, n - 1);
      FromSnoc(s, Execs(i, n - 1), Exec(i));
      assert p[n - 1..][1..] == p[n..] && p[..n][..n - 1] == p[..n - 1];
    }
  }

  lemma ApplyAppend(b: seq<int>, writes: seq<Write>, x: Write)
    ensures ApplyAll(b, writes + [x]) == Apply(ApplyAll(b, writes), x)
  {
    assert (writes + [x])[..|writes|] == writes;
  }

  lemma ApplyTwo(b: seq<int>, x: Write, y: Write)
    ensures ApplyAll(b, [x, y]) == Apply(Apply(b, x), y)
  {
    ApplyAppend(b, [], x);
    ApplyAppend(b, [] + [x], y);
    assert [x, y] == ([] + [x]) + [y];
  }

  lemma RowsChangeNothing(b: seq<int>, p: seq<Write>)
    requires |p| == 4 && p[2].AddRow? && p[3].AddRow?
    ensures ApplyAll(b, p) == Apply(Apply(b, p[0]), p[1])
  {
    ApplyTwo(b, p[0], p[1]);
    ApplyAppend(b, [p[0], p[1]], p[2]);
    ApplyAppend(b, [p[0], p[1]] + [p[2]], p[3]);
    assert p == [p[0], p[1]] + [p[2]] + [p[3]];
  }

  lemma BothUpdates(b: seq<int>, f: nat, t: nat, a: int)
    requires f < |b| && t < |b| && f != t
    ensures Apply(Apply(b, AddBalance(f, -a)), AddBalance(t, a)) == b[f := b[f] - a][t := b[t] + a]
    ensures Apply(Apply(b, AddBalance(t, a)), AddBalance(f, -a)) == b[f := b[f] - a][t := b[t] + a]
  {
    assert b[t := b[t] + a][f := b[f] - a] == b[f := b[f] - a][t := b[t] + a];
  }

  lemma TransferApplied(b: seq<int>, p: seq<Write>, f: nat, t: nat, a: int)
    requires f < |b| && t < |b| && f != t
    requires |p| == 4 && p[2].AddRow? && p[3].AddRow?
    requires (p[0], p[1]) == (AddBalance(f, -a), AddBalance(t, a)) || (p[0], p[1]) == (AddBalance(t, a), AddBalance(f, -a))
    ensures ApplyAll(b, p) == b[f := b[f] - a][t := b[t] + a]
  {
    RowsChangeNothing(b, p);
    BothUpdates(b, f, t, a);
  }

  lemma OneUpdateApplied(b: seq<int>, p: seq<Write>, w: nat, delta: int)
    requires w < |b| && |p| == 2 && p[0] == AddBalance(w, delta) && p[1].AddRow?
    ensures ApplyAll(b, p) == b[w := b[w] + delta]
  {
    ApplyTwo(b, p[0], p[1]);
    assert p == [p[0], p[1]];
  }

  lemma AdmittedAtRest(s: State, op: Op)
    requires AtRest(s)
    ensures var b := s.balances;
            Admitted(s, op) <==>
              if op.TransferOp? then
                op.fromId < |b| && op.toId < |b| && op.fromId != op.toId && op.amount >= MIN_AMOUNT && b[op.fromId] >= op.amount
              else if op.WithdrawOp? then op.id < |b| && op.amount >= MIN_AMOUNT && b[op.id] >= op.amount
              else op.id < |b| && op.amount > 0
  {
    forall w: nat ensures Sum(s.txns, DoneDelta(w)) == 0 {
      SumZero(s.txns, DoneDelta(w));
    }
  }

  lemma AloneRuns(s: State, op: Op, su: bool, sr: bool, p: seq<Write>)
    requires p == Program(op, su, sr)
    ensures From(s, Alone(s, op, su, sr)).balances == if Admitted(s, op) then ApplyAll(s.balances, p) else s.balances
  {
    var i, begin := |s.txns|, Begin(op, su, sr);
    var begun := Step(s, begin);
    FromOneEvent(s, begin);
    FromConcat(s, [begin], Execs(i, |p|));
    FromSnoc(s, [begin] + Execs(i, |p|), Commit(i));
    if Admitted(s, op) {
      assert begun.txns[i] == Open(op, su, sr, [], p) && begun.balances == s.balances;
      ExecsApply(begun, i, |p|);
      assert p[..|p|] == p;
    } else {
      NotOpenDoesNothing(s, i, |p|);
    }
  }

  lemma AppliedAlone(s: State, op: Op, su: bool, sr: bool, p: seq<Write>)
    requires p == Program(op, su, sr)
    ensures From(s, Alone(s, op, su, sr)).balances
            == if !Admitted(s, op) then s.balances
               else if op.TransferOp?
               then s.balances[op.fromId := s.balances[op.fromId] - op.amount][op.toId := s.balances[op.toId] + op.amount]
               else s.balances[op.id := s.balances[op.id] + if op.WithdrawOp? then -op.amount else op.amount]
  {
    AloneRuns(s, op, su, sr, p);
    if Admitted(s, op) {
      if op.TransferOp? {
        TransferApplied(s.balances, p, op.fromId, op.toId, op.amount);
      } else {
        OneUpdateApplied(s.balances, p, op.id, if op.WithdrawOp? then -op.amount else op.amount);
      }
    }
  }

  /** Run alone on a ledger at rest, an operation does what its handler does as one transaction: its checks, then its updates. */
  lemma AloneIsAtomic(s: State, op: Op, su: bool, sr: bool)
    requires AtRest(s)
    ensures var b := s.balances;
            From(s, Alone(s, op, su, sr)).balances
            == if op.TransferOp? then
                 if op.fromId < |b| && op.toId < |b| && op.fromId != op.toId && op.amount >= MIN_AMOUNT && b[op.fromId] >= op.amount
                 then b[op.fromId := b[op.fromId] - op.amount][op.toId := b[op.toId] + op.amount] else b
               else if op.WithdrawOp? then
                 if op.id < |b| && op.amount >= MIN_AMOUNT && b[op.id] >= op.amount then b[op.id := b[op.id] - op.amount] else b
               else if op.id < |b| && op.amount > 0 then b[op.id := b[op.id] + op.amount] else b
  {
    AdmittedAtRest(s, op);
    AppliedAlone(s, op, su, sr, Program(op, su, sr));
  }

  lemma FromOneEvent(s: State, e: Event)
    ensures From(s, [e]) == Step(s, e)
  {
    FromSnoc(s, [], e);
    assert [] + [e] == [e];
  }
}
