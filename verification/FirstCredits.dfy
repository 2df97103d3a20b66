/**
 The first credit of a user in a currency, with the wallet lookup and the write of the handler's transaction apart.  No
 unique index stops two transactions that both found no wallet from each creating a primary one.
 */
module FirstCredits {
  import opened Prelude
  import opened WalletLedger
  import PaymentStream

  /** A transaction in flight, with the wallet its lookup found. */
  datatype Txn = Done | InFlight(event: PaymentEvent, saw: Option<nat>)

  /** committed are the events whose transactions committed, created those of them that created the wallet. */
  datatype State = State(wallets: seq<Wallet>, txns: seq<Txn>, committed: seq<PaymentEvent>, created: seq<PaymentEvent>)

  datatype Event = Begin(event: PaymentEvent) | Commit(txn: nat) | Abort(txn: nat)

  const START := State([], [], [], [])

  function QueryOf(e: PaymentEvent): WalletQuery {
    PrimaryOf(e.userId, ResolveCurrency(e.currency))
  }

  function NewWallet(e: PaymentEvent): Wallet {
    Wallet(e.userId, ResolveCurrency(e.currency), e.amount, true, None)
  }

  predicate IsOpen(s: State, h: nat) {
    h < |s.txns| && s.txns[h].InFlight?
  }

  function Step(s: State, e: Event): State {
    match e
    case Begin(event) =>
      if ValidEvent(event) then s.(txns := s.txns + [InFlight(event, FindFirst(s.wallets, QueryOf(event)))]) else s
    case Commit(h) =>
      if !IsOpen(s, h) then s
      else
        var InFlight(event, saw) := s.txns[h];
        var closed := s.(txns := s.txns[h := Done], committed := s.committed + [event]);
        (match saw
         case Some(i) =>
           if i < |s.wallets| then closed.(wallets := s.wallets[i := s.wallets[i].(balance := s.wallets[i].balance + event.amount)])
           else closed
         case None =>
           closed.(wallets := s.wallets + [NewWallet(event)],
                   created := s.created + [event]))
    case Abort(h) => if IsOpen(s, h) then s.(txns := s.txns[h := Done]) else s
  }

  function Run(es: seq<Event>): State {
    if |es| == 0 then START else Step(Run(es[..|es| - 1]), es[|es| - 1])
  }

  // ---- What the wallets of a query hold together ----------------------------------------------

  ghost function BalanceOf(q: WalletQuery): Wallet -> int {
    (w: Wallet) => if Matches(w, q) then w.balance else 0
  }

  ghost function OneOf(q: WalletQuery): Wallet -> int {
    (w: Wallet) => if Matches(w, q) then 1 else 0
  }

  ghost function CreatedFor(userId: string, currency: string): PaymentEvent -> int {
    (e: PaymentEvent) => if QueryOf(e) == PrimaryOf(userId, currency) then 1 else 0
  }

  ghost predicate Inv(s: State) {
    && WellFormed(s)
    && (forall u, c :: Held(s, u, c))
  }

  /** Wallets are primary and hold something; what a transaction in flight saw is a wallet it asked for. */
  ghost predicate WellFormed(s: State) {
    && (forall i :: 0 <= i < |s.wallets| ==> s.wallets[i].primary && s.wallets[i].balance > 0)
    && (forall h :: 0 <= h < |s.txns| && s.txns[h].InFlight? ==>
          && ValidEvent(s.txns[h].event)
          && (s.txns[h].saw.Some? ==> s.txns[h].saw.value < |s.wallets| && Matches(s.wallets[s.txns[h].saw.value], QueryOf(s.txns[h].event))))
  }

  /** All the user's primary wallets in the currency together hold what was committed, and there is one for each that was created. */
  ghost predicate Held(s: State, u: string, c: string) {
    && Sum(s.wallets, BalanceOf(PrimaryOf(u, c))) == Sum(s.committed, PaymentStream.AmountFor(u, c))
    && Sum(s.wallets, OneOf(PrimaryOf(u, c))) == Sum(s.created, CreatedFor(u, c))
  }

  lemma IncrementHeld(s: State, h: nat, u: string, c: string)
    requires Inv(s) && IsOpen(s, h) && s.txns[h].saw.Some?
    ensures Held(Step(s, Commit(h)), u, c)
  {
    var s', event, i := Step(s, Commit(h)), s.txns[h].event, s.txns[h].saw.value;
    assert Held(s, u, c);
    assert s'.wallets == s.wallets[i := s.wallets[i].(balance := s.wallets[i].balance + event.amount)];
    assert s'.created == s.created && s'.committed == s.committed + [event];
    IncrementKeeps(s, s', event, i, u, c);
  }

  lemma IncrementKeeps(s: State, s': State, event: PaymentEvent, i: nat, u: string, c: string)
    requires i < |s.wallets| && s.wallets[i].primary && Matches(s.wallets[i], QueryOf(event)) && Held(s, u, c)
    requires s'.wallets == s.wallets[i := s.wallets[i].(balance := s.wallets[i].balance + event.amount)]
    requires s'.created == s.created && s'.committed == s.committed + [event]
    ensures Held(s', u, c)
  {
    SumAppend(s.committed, event, PaymentStream.AmountFor(u, c));
    SumUpdate(s.wallets, i, s'.wallets[i], BalanceOf(PrimaryOf(u, c)));
    SumUpdate(s.wallets, i, s'.wallets[i], OneOf(PrimaryOf(u, c)));
    SawItsQuery(s.wallets[i], event, u, c);
  }

  /** A wallet that matches an event's query matches that of user u and currency c exactly if the event is of u and c. */
  lemma SawItsQuery(w: Wallet, e: PaymentEvent, u: string, c: string)
    requires Matches(w, QueryOf(e)) && w.primary
    ensures Matches(w, PrimaryOf(u, c)) <==> e.userId == u && c == (if e.currency == "" then "PI" else e.currency)
  {
  }

  lemma CreationHeld(s: State, h: nat, u: string, c: string)
    requires Inv(s) && IsOpen(s, h) && s.txns[h].saw.None?
    ensures Held(Step(s, Commit(h)), u, c)
  {
    var event := s.txns[h].event;
    var w := NewWallet(event);
    assert Held(s, u, c);
    SumAppend(s.committed, event, PaymentStream.AmountFor(u, c));
    SumAppend(s.wallets, w, BalanceOf(PrimaryOf(u, c)));
    SumAppend(s.wallets, w, OneOf(PrimaryOf(u, c)));
    SumAppend(s.created, event, CreatedFor(u, c));
  }

  lemma StepHeld(s: State, e: Event, u: string, c: string)
    requires Inv(s)
    ensures Held(Step(s, e), u, c)
  {
    assert Held(s, u, c);
    if e.Commit? && IsOpen(s, e.txn) {
      if s.txns[e.txn].saw.Some? {
        IncrementHeld(s, e.txn, u, c);
      } else {
        CreationHeld(s, e.txn, u, c);
      }
    }
  }

  lemma StepKeepsInv(s: State, e: Event)
    requires Inv(s)
    ensures Inv(Step(s, e))
  {
    forall u, c ensures Held(Step(s, e), u, c) {
      StepHeld(s, e, u, c);
    }
  }

  lemma {:induction false} RunKeepsInv(es: seq<Event>)
    ensures Inv(Run(es))
  {
    if |es| == 0 {
      assert forall u, c :: Held(START, u, c);
    } else {
      RunKeepsInv(es[..|es| - 1]);
      StepKeepsInv(Run(es[..|es| - 1]), es[|es| - 1]);
    }
  }

  // ---- What getBalance reads ---------------------------------------------------------------------

  /** The first of the matching wallets holds all that they hold together if and only if it is the only one. */
  lemma {:induction false} FirstHoldsAllIff(ws: seq<Wallet>, q: WalletQuery)
    requires forall i :: 0 <= i < |ws| ==> ws[i].balance > 0
    ensures FirstBalance(ws, q) <= Sum(ws, BalanceOf(q)) && Sum(ws, OneOf(q)) >= 0
    ensures FindFirst(ws, q).None? <==> Sum(ws, OneOf(q)) == 0
    ensures FirstBalance(ws, q) == Sum(ws, BalanceOf(q)) <==> Sum(ws, OneOf(q)) <= 1
  {
    if |ws| > 0 {
      var rest, w := ws[..|ws| - 1], ws[|ws| - 1];
      assert ws == rest + [w];
      FirstHoldsAllIff(rest, q);
      FirstAppended(rest, w, q);
    }
  }

  /** A balance is the sum of the committed credits if and only if at most one of them created the wallet. */
  lemma BalanceIsCommittedIffOneCreated(es: seq<Event>, u: string, c: string)
    ensures var s := Run(es);
            FirstBalance(s.wallets, PrimaryOf(u, c)) == Sum(s.committed, PaymentStream.AmountFor(u, c))
            <==> Sum(s.created, CreatedFor(u, c)) <= 1
  {
    RunKeepsInv(es);
    assert Held(Run(es), u, c);
    FirstHoldsAllIff(Run(es).wallets, PrimaryOf(u, c));
  }

  // ---- When a second wallet is created -------------------------------------------------------------

  /** The transaction that the k-th event commits, if it commits one. */
  ghost function Committing(es: seq<Event>, k: nat): Txn {
    if k < |es| && es[k].Commit? && IsOpen(Run(es[..k]), es[k].txn) then Run(es[..k]).txns[es[k].txn] else Done
  }

  /** The k-th event commits a credit of q. */
  ghost predicate Commits(es: seq<Event>, k: nat, q: WalletQuery) {
    Committing(es, k).InFlight? && QueryOf(Committing(es, k).event) == q
  }

  /** and that transaction creates the wallet. */
  ghost predicate Creates(es: seq<Event>, k: nat, q: WalletQuery) {
    Commits(es, k, q) && Committing(es, k).saw.None?
  }

  /** Transactions of q that began once its wallet was there have all seen it. */
  ghost predicate LaterOnesSee(s: State, n: nat, q: WalletQuery) {
    && n <= |s.txns| && FindFirst(s.wallets, q).Some?
    && forall h :: n <= h < |s.txns| && s.txns[h].InFlight? && QueryOf(s.txns[h].event) == q ==> s.txns[h].saw.Some?
  }

  lemma {:induction false} WalletStaysSeen(es: seq<Event>, k: nat, n: nat, q: WalletQuery)
    requires k <= |es| && LaterOnesSee(Run(es[..k]), n, q)
    ensures LaterOnesSee(Run(es), n, q)
  {
    if k == |es| {
      assert es[..k] == es;
    } else {
      var rest := es[..|es| - 1];
      assert rest[..k] == es[..k];
      WalletStaysSeen(rest, k, n, q);
      StepStaysSeen(Run(rest), es[|es| - 1], n, q);
    }
  }

  lemma StepStaysSeen(s: State, e: Event, n: nat, q: WalletQuery)
    requires LaterOnesSee(s, n, q)
    ensures LaterOnesSee(Step(s, e), n, q)
  {
    var i, after := FindFirst(s.wallets, q).value, Step(s, e).wallets;
    assert i < |after| && Matches(after[i], q);
  }

  lemma CreationIsSeen(es: seq<Event>, k: nat, q: WalletQuery)
    requires Creates(es, k, q) && q.primaryOnly && q.currency.Some?
    ensures LaterOnesSee(Run(es[..k + 1]), |Run(es[..k]).txns|, q)
  {
    var s := Run(es[..k]);
    assert es[..k + 1][..k] == es[..k];
    var s' := Run(es[..k + 1]);
    assert s' == Step(s, es[k]);
    assert Matches(s'.wallets[|s.wallets|], q);
  }

  /**
   Two credits both create the wallet of one user and currency only if they overlap: the later one had already looked
   when the earlier one committed.  First credits one after the other never do.
   */
  lemma SecondCreationOverlaps(es: seq<Event>, i: nat, j: nat, q: WalletQuery)
    requires i < j && Creates(es, i, q) && Creates(es, j, q) && q.primaryOnly && q.currency.Some?
    ensures es[j].txn < |Run(es[..i]).txns|
  {
    CreationIsSeen(es, i, q);
    assert es[..j][..i + 1] == es[..i + 1];
    WalletStaysSeen(es[..j], i + 1, |Run(es[..i]).txns|, q);
  }

  lemma CreatesInPrefix(es: seq<Event>, k: nat, q: WalletQuery)
    requires k < |es| - 1
    ensures Creates(es, k, q) <==> Creates(es[..|es| - 1], k, q)
  {
    assert es[..|es| - 1][..k] == es[..k] && es[..|es| - 1][k] == es[k];
  }

  lemma LastCreates(es: seq<Event>, u: string, c: string)
    requires |es| > 0
    ensures Sum(Run(es).created, CreatedFor(u, c))
            == Sum(Run(es[..|es| - 1]).created, CreatedFor(u, c)) + if Creates(es, |es| - 1, PrimaryOf(u, c)) then 1 else 0
  {
    var s, e := Run(es[..|es| - 1]), es[|es| - 1];
    assert Committing(es, |es| - 1) == if e.Commit? && IsOpen(s, e.txn) then s.txns[e.txn] else Done;
    StepCreates(s, e, u, c);
  }

  lemma StepCreates(s: State, e: Event, u: string, c: string)
    ensures Sum(Step(s, e).created, CreatedFor(u, c))
            == Sum(s.created, CreatedFor(u, c))
               + if e.Commit? && IsOpen(s, e.txn) && s.txns[e.txn].saw.None? && QueryOf(s.txns[e.txn].event) == PrimaryOf(u, c) then 1 else 0
  {
    if e.Commit? && IsOpen(s, e.txn) && s.txns[e.txn].saw.None? {
      SumAppend(s.created, s.txns[e.txn].event, CreatedFor(u, c));
    }
  }

  /** The positions of the commits that create the wallet of q. */
  ghost function Creations(es: seq<Event>, q: WalletQuery): seq<nat> {
    if |es| == 0 then []
    else Creations(es[..|es| - 1], q) + if Creates(es, |es| - 1, q) then [|es| - 1] else []
  }

  lemma {:induction false} CreationsCounted(es: seq<Event>, u: string, c: string)
    ensures |Creations(es, PrimaryOf(u, c))| == Sum(Run(es).created, CreatedFor(u, c))
  {
    if |es| > 0 {
      CreationsCounted(es[..|es| - 1], u, c);
      LastCreates(es, u, c);
    }
  }

  lemma {:induction false} CreationsInOrder(es: seq<Event>, q: WalletQuery)
    ensures forall x :: x in Creations(es, q) ==> x < |es|
    ensures forall a, b :: 0 <= a < b < |Creations(es, q)| ==> Creations(es, q)[a] < Creations(es, q)[b]
  {
    if |es| > 0 {
      CreationsInOrder(es[..|es| - 1], q);
      var rest := Creations(es[..|es| - 1], q);
      forall a | 0 <= a < |rest| ensures rest[a] < |es| - 1 {
        assert rest[a] in rest;
      }
    }
  }

  lemma {:induction false} CreationsAreAll(es: seq<Event>, k: nat, q: WalletQuery)
    requires k < |es|
    ensures k in Creations(es, q) <==> Creates(es, k, q)
  {
    var rest, last := Creations(es[..|es| - 1], q), if Creates(es, |es| - 1, q) then [|es| - 1] else [];
    assert k in rest + last <==> k in rest || k in last;
    if k < |es| - 1 {
      CreationsAreAll(es[..|es| - 1], k, q);
      CreatesInPrefix(es, k, q);
      assert k != |es| - 1;
    } else {
      CreationsInOrder(es[..|es| - 1], q);
    }
  }

  // ---- Overlap, by the order of the events ---------------------------------------------------------

  ghost predicate NoCommitOf(es: seq<Event>, q: WalletQuery) {
    |es| > 0 ==> NoCommitOf(es[..|es| - 1], q) && !Commits(es, |es| - 1, q)
  }

  /** The i-th event is the first that commits a credit of q, the j-th commits another one that had begun before. */
  ghost predicate OverlapAt(es: seq<Event>, i: nat, j: nat, q: WalletQuery) {
    FirstCommit(es, i, q) && i < j && Commits(es, j, q) && BegunBy(es, i, es[j].txn)
  }

  /** Transaction h began before the i-th event. */
  ghost predicate BegunBy(es: seq<Event>, i: nat, h: nat) {
    i <= |es| && h < |Run(es[..i]).txns|
  }

  ghost predicate FirstsOverlap(es: seq<Event>, q: WalletQuery) {
    exists i: nat, j: nat :: OverlapAt(es, i, j, q)
  }

  /** There is no wallet of q, and no transaction has seen one. */
  ghost predicate NoneYet(s: State, q: WalletQuery) {
    && FindFirst(s.wallets, q).None?
    && forall h :: 0 <= h < |s.txns| && s.txns[h].InFlight? && QueryOf(s.txns[h].event) == q ==> s.txns[h].saw.None?
  }

  lemma WalletsStayUnmatched(s: State, e: Event, u: string, c: string)
    requires forall i :: 0 <= i < |s.wallets| ==> !Matches(s.wallets[i], PrimaryOf(u, c))
    requires e.Commit? && IsOpen(s, e.txn) ==> QueryOf(s.txns[e.txn].event) != PrimaryOf(u, c)
    ensures forall i :: 0 <= i < |Step(s, e).wallets| ==> !Matches(Step(s, e).wallets[i], PrimaryOf(u, c))
  {
    var ws, after := s.wallets, Step(s, e).wallets;
    if e.Commit? && IsOpen(s, e.txn) {
      var InFlight(event, saw) := s.txns[e.txn];
      if saw.None? {
        assert after == ws + [NewWallet(event)];
      } else if saw.value < |ws| {
        assert after == ws[saw.value := ws[saw.value].(balance := ws[saw.value].balance + event.amount)];
      }
    }
  }

  lemma StepStaysNone(s: State, e: Event, u: string, c: string)
    requires NoneYet(s, PrimaryOf(u, c))
    requires e.Commit? && IsOpen(s, e.txn) ==> QueryOf(s.txns[e.txn].event) != PrimaryOf(u, c)
    ensures NoneYet(Step(s, e), PrimaryOf(u, c))
  {
    WalletsStayUnmatched(s, e, u, c);
  }

  lemma {:induction false} NoneBeforeFirst(es: seq<Event>, u: string, c: string)
    requires NoCommitOf(es, PrimaryOf(u, c))
    ensures NoneYet(Run(es), PrimaryOf(u, c))
  {
    if |es| > 0 {
      NoneBeforeFirst(es[..|es| - 1], u, c);
      StepStaysNone(Run(es[..|es| - 1]), es[|es| - 1], u, c);
    }
  }

  /** A transaction that began before the k-th event is the same as long as it is open. */
  lemma {:induction false} TxnStays(es: seq<Event>, k: nat, h: nat)
    requires BegunBy(es, k, h)
    ensures h < |Run(es).txns| && (Run(es).txns[h].InFlight? ==> Run(es).txns[h] == Run(es[..k]).txns[h])
  {
    if k == |es| {
      assert es[..k] == es;
    } else {
      var rest := es[..|es| - 1];
      assert rest[..k] == es[..k];
      TxnStays(rest, k, h);
    }
  }

  /** The first commit creates the wallet, and so does every commit of a transaction that overlaps it. */
  lemma OverlapMakesTwo(es: seq<Event>, i: nat, j: nat, u: string, c: string)
    requires OverlapAt(es, i, j, PrimaryOf(u, c))
    ensures |Creations(es, PrimaryOf(u, c))| > 1
  {
    var q := PrimaryOf(u, c);
    NoneBeforeFirst(es[..i], u, c);
    assert es[..j][..i] == es[..i];
    TxnStays(es[..j], i, es[j].txn);
    CreationsAreAll(es, i, q);
    CreationsAreAll(es, j, q);
    assert i in Creations(es, q) && j in Creations(es, q);
  }

  /** The i-th event is the first that commits a credit of q. */
  ghost predicate FirstCommit(es: seq<Event>, i: nat, q: WalletQuery) {
    Commits(es, i, q) && NoCommitOf(es[..i], q)
  }

  lemma {:induction false} FindFirstCommit(es: seq<Event>, k: nat, q: WalletQuery)
    requires Commits(es, k, q)
    ensures exists i: nat :: i <= k && FirstCommit(es, i, q)
    decreases k
  {
    if NoCommitOf(es[..k], q) {
      assert FirstCommit(es, k, q);
    } else {
      SomeCommit(es[..k], q);
      var earlier: nat :| Commits(es[..k], earlier, q);
      assert es[..k][..earlier] == es[..earlier] && es[..k][earlier] == es[earlier];
      FindFirstCommit(es, earlier, q);
    }
  }

  lemma {:induction false} SomeCommit(es: seq<Event>, q: WalletQuery)
    requires !NoCommitOf(es, q)
    ensures exists k: nat :: Commits(es, k, q)
  {
    var rest := es[..|es| - 1];
    if !Commits(es, |es| - 1, q) {
      SomeCommit(rest, q);
      var k: nat :| Commits(rest, k, q);
      assert rest[..k] == es[..k] && rest[k] == es[k];
      assert Commits(es, k, q);
    }
  }

  lemma TwoCreationsOverlap(es: seq<Event>, u: string, c: string)
    requires |Creations(es, PrimaryOf(u, c))| > 1
    ensures FirstsOverlap(es, PrimaryOf(u, c))
  {
    var q := PrimaryOf(u, c);
    var k, j := Creations(es, q)[0], Creations(es, q)[1];
    CreationsInOrder(es, q);
    assert k in Creations(es, q) && j in Creations(es, q);
    CreationsAreAll(es, k, q);
    CreationsAreAll(es, j, q);
    FindFirstCommit(es, k, q);
    var i: nat :| i <= k && FirstCommit(es, i, q);
    NoneBeforeFirst(es[..i], u, c);
    SecondCreationOverlaps(es, i, j, q);
    assert OverlapAt(es, i, j, q);
  }

  /**
   Exactly when getBalance is the sum of the user's committed credits in the currency: if and only if no credit that had
   begun before the first of them committed was committed later.
   */
  lemma BalanceIsCommittedIff(es: seq<Event>, u: string, c: string)
    ensures var s := Run(es);
            FirstBalance(s.wallets, PrimaryOf(u, c)) == Sum(s.committed, PaymentStream.AmountFor(u, c))
            <==> !FirstsOverlap(es, PrimaryOf(u, c))
  {
    var q := PrimaryOf(u, c);
    BalanceIsCommittedIffOneCreated(es, u, c);
    CreationsCounted(es, u, c);
    if |Creations(es, q)| > 1 {
      TwoCreationsOverlap(es, u, c);
    } else if i: nat, j: nat :| OverlapAt(es, i, j, q) {
      OverlapMakesTwo(es, i, j, u, c);
    }
  }

  lemma RunSnoc(es: seq<Event>, e: Event)
    ensures Run(es + [e]) == Step(Run(es), e)
  {
    assert (es + [e])[..|es|] == es;
  }

  /** Two credits that both look before either commits. */
  function Overlapping(a: PaymentEvent, b: PaymentEvent): seq<Event> {
    [Begin(a)] + [Begin(b)] + [Commit(0)] + [Commit(1)]
  }

  lemma BothLooked(a: PaymentEvent, b: PaymentEvent)
    requires ValidEvent(a) && ValidEvent(b)
    ensures Run([Begin(a)] + [Begin(b)]) == State([], [InFlight(a, None), InFlight(b, None)], [], [])
  {
    RunSnoc([], Begin(a));
    assert [] + [Begin(a)] == [Begin(a)];
    RunSnoc([Begin(a)], Begin(b));
  }

  lemma BothCommit(es: seq<Event>, a: PaymentEvent, b: PaymentEvent)
    requires Run(es) == State([], [InFlight(a, None), InFlight(b, None)], [], [])
    ensures var s := Run(es + [Commit(0)] + [Commit(1)]);
            (s.wallets, s.committed) == (([] + [NewWallet(a)]) + [NewWallet(b)], [a, b])
  {
    var first := es + [Commit(0)];
    RunSnoc(es, Commit(0));
    assert Run(first) == State([NewWallet(a)], [Done, InFlight(b, None)], [a], [a]);
    RunSnoc(first, Commit(1));
    var s := Run(first + [Commit(1)]);
    assert s.wallets == ([] + [NewWallet(a)]) + [NewWallet(b)] && s.committed == [a, b];
  }

  /** It happens: of two payments credited at the same time, getBalance shows one. */
  lemma OverlappingFirstCredits(a: PaymentEvent, b: PaymentEvent)
    requires ValidEvent(a) && ValidEvent(b) && QueryOf(a) == QueryOf(b)
    ensures var s := Run(Overlapping(a, b)); (s.committed, FirstBalance(s.wallets, QueryOf(a))) == ([a, b], a.amount)
  {
    BothLooked(a, b);
    BothCommit([Begin(a)] + [Begin(b)], a, b);
    FirstAppended([], NewWallet(a), QueryOf(a));
    FirstAppended([] + [NewWallet(a)], NewWallet(b), QueryOf(a));
  }
}
