/**
 The wallet service's database and the operations that write balances: the payment-event handler
 (wallet.service.ts) and the deposit, withdraw, transfer, add-funds and link-wallet handlers
 (wallet.controller.ts).  Amounts are integers in units of 10^-8, the scale of the Decimal(20, 8) columns.
 A wallet's id is its index.
 */
module WalletLedger {
  import opened Prelude

  /** 0.000001, the smallest amount the route validators let through. */
  const MIN_AMOUNT: int := 100

  datatype PaymentEvent = PaymentEvent(paymentId: string, userId: string, amount: int, currency: string)

  datatype Wallet = Wallet(userId: string, currency: string, balance: int, primary: bool, address: Option<string>)

  datatype Direction = Outgoing | Incoming

  datatype EntryKind = Credit | Deposit | Withdrawal | Transfer(direction: Direction)

  datatype LedgerRow = LedgerRow(walletId: nat, kind: EntryKind, amount: int, currency: string, paymentId: Option<string>)

  datatype AuditRow = AuditRow(walletId: nat, before: int, after: int)

  datatype Db = Db(wallets: seq<Wallet>, ledger: seq<LedgerRow>, audit: seq<AuditRow>, processed: map<string, string>)

  datatype WalletError =
    | ValidationError
    | UnsupportedCurrency
    | WalletNotFound
    | InsufficientBalance
    | InvalidTransfer
    | AddressConflict
    | InternalError
    | InvalidEvent

  datatype Request =
    | PaymentCompleted(event: PaymentEvent)
    | DepositFunds(id: nat, amount: int, asset: string)
    | WithdrawFunds(id: nat, amount: int, asset: string)
    | TransferFunds(fromId: nat, toId: nat, amount: int, asset: string)
    | AddFunds(userId: string, amount: int, currency: string)
    | LinkWallet(userId: string, address: Option<string>, currency: string)

  const EMPTY_DB := Db([], [], [], map[])

  // ---- Reading ------------------------------------------------------------------------------

  datatype WalletQuery = WalletQuery(userId: string, currency: Option<string>, primaryOnly: bool)

  predicate Matches(w: Wallet, q: WalletQuery) {
    && w.userId == q.userId
    && (q.currency.Some? ==> w.currency == q.currency.value)
    && (q.primaryOnly ==> w.primary)
  }

  /** findFirst: the earliest wallet that the query matches. */
  function FindFirst(ws: seq<Wallet>, q: WalletQuery): (r: Option<nat>)
    ensures r.Some? ==> r.value < |ws| && Matches(ws[r.value], q) && forall j :: 0 <= j < r.value ==> !Matches(ws[j], q)
    ensures r.None? ==> forall j :: 0 <= j < |ws| ==> !Matches(ws[j], q)
  {
    if |ws| == 0 then None
    else
      var n := |ws| - 1;
      match FindFirst(ws[..n], q)
      case Some(i) => Some(i)
      case None => if Matches(ws[n], q) then Some(n) else None
  }

  /** `currency || 'PI'` */
  function ResolveCurrency(currency: string): string {
    if currency == "" then "PI" else currency
  }

  function PrimaryOf(userId: string, currency: string): WalletQuery {
    WalletQuery(userId, Some(currency), true)
  }

  /** The balance a query reads. */
  function FirstBalance(ws: seq<Wallet>, q: WalletQuery): int {
    match FindFirst(ws, q)
    case Some(i) => ws[i].balance
    case None => 0
  }

  function GetBalance(db: Db, userId: string, currency: string): int {
    FirstBalance(db.wallets, PrimaryOf(userId, currency))
  }

  function EventKey(paymentId: string): string {
    "payment:" + paymentId
  }

  lemma EventKeyInjective(p: string, q: string)
    requires EventKey(p) == EventKey(q)
    ensures p == q
  {
    assert p == EventKey(p)[8..];
    assert q == EventKey(q)[8..];
  }

  /** The amount by which a ledger row changes its wallet: a transfer's sign is the direction in its metadata. */
  function Signed(r: LedgerRow): int {
    match r.kind
    case Credit => r.amount
    case Deposit => r.amount
    case Withdrawal => -r.amount
    case Transfer(d) => if d == Outgoing then -r.amount else r.amount
  }

  // ---- Specification of the writers ---------------------------------------------------------

  /** One posting: audit row, relative balance update, ledger row. */
  function Post(db: Db, row: LedgerRow): Db
    requires row.walletId < |db.wallets|
  {
    var w := db.wallets[row.walletId];
    Db(db.wallets[row.walletId := w.(balance := w.balance + Signed(row))],
       db.ledger + [row],
       db.audit + [AuditRow(row.walletId, w.balance, w.balance + Signed(row))],
       db.processed)
  }

  function AddWallet(db: Db, userId: string, currency: string, primary: bool, address: Option<string>): Db {
    db.(wallets := db.wallets + [Wallet(userId, currency, 0, primary, address)])
  }

  predicate ValidEvent(e: PaymentEvent) {
    e.paymentId != "" && e.userId != "" && e.amount > 0
  }

  /** findOrCreateWallet: the user's primary wallet in the currency, created empty when there is none. */
  function EnsurePrimary(db: Db, userId: string, currency: string): (r: (Db, nat))
    ensures r.1 < |r.0.wallets|
    ensures Matches(r.0.wallets[r.1], PrimaryOf(userId, currency))
    ensures forall j :: 0 <= j < r.1 ==> !Matches(r.0.wallets[j], PrimaryOf(userId, currency))
  {
    match FindFirst(db.wallets, PrimaryOf(userId, currency))
    case Some(i) => (db, i)
    case None => (AddWallet(db, userId, currency, true, None), |db.wallets|)
  }

  /** The body of the handler's transaction once the event key is known to be new. */
  function CreditEvent(db: Db, e: PaymentEvent): Db {
    var currency := ResolveCurrency(e.currency);
    var (ready, id) := EnsurePrimary(db, e.userId, currency);
    Post(ready, LedgerRow(id, Credit, e.amount, currency, Some(e.paymentId)))
      .(processed := db.processed[EventKey(e.paymentId) := e.userId])
  }

  datatype Outcome = Outcome(db: Db, error: Option<WalletError>)

  function HandleSpec(db: Db, e: PaymentEvent): Outcome {
    if !ValidEvent(e) then Outcome(db, Some(InvalidEvent))
    else if EventKey(e.paymentId) in db.processed then Outcome(db, None)
    else Outcome(CreditEvent(db, e), None)
  }

  predicate Supported(supported: seq<string>, asset: string) {
    |supported| > 0 ==> asset in supported
  }

  function DepositSpec(db: Db, supported: seq<string>, id: nat, amount: int, asset: string): Outcome {
    if amount < MIN_AMOUNT then Outcome(db, Some(ValidationError))
    else if !Supported(supported, asset) then Outcome(db, Some(UnsupportedCurrency))
    else if id >= |db.wallets| then Outcome(db, Some(WalletNotFound))
    else Outcome(Post(db, LedgerRow(id, Deposit, amount, asset, None)), None)
  }

  function WithdrawSpec(db: Db, supported: seq<string>, id: nat, amount: int, asset: string): Outcome {
    if amount < MIN_AMOUNT then Outcome(db, Some(ValidationError))
    else if !Supported(supported, asset) then Outcome(db, Some(UnsupportedCurrency))
    else if id >= |db.wallets| then Outcome(db, Some(WalletNotFound))
    else if db.wallets[id].balance < amount then Outcome(db, Some(InsufficientBalance))
    else Outcome(Post(db, LedgerRow(id, Withdrawal, amount, asset, None)), None)
  }

  function TransferSpec(db: Db, supported: seq<string>, fromId: nat, toId: nat, amount: int, asset: string): Outcome {
    if amount < MIN_AMOUNT then Outcome(db, Some(ValidationError))
    else if fromId == toId then Outcome(db, Some(InvalidTransfer))
    else if !Supported(supported, asset) then Outcome(db, Some(UnsupportedCurrency))
    else if fromId >= |db.wallets| || toId >= |db.wallets| then Outcome(db, Some(WalletNotFound))
    else if db.wallets[fromId].balance < amount then Outcome(db, Some(InsufficientBalance))
    else
      var debited := Post(db, LedgerRow(fromId, Transfer(Outgoing), amount, asset, None));
      Outcome(Post(debited, LedgerRow(toId, Transfer(Incoming), amount, asset, None)), None)
  }

  /** The wallet lookup of addFundsInternal: any wallet in the currency, else a new one, primary iff the user has none. */
  function EnsureWallet(db: Db, userId: string, currency: string): (r: (Db, nat))
    ensures r.1 < |r.0.wallets| && r.0.wallets[r.1].userId == userId && r.0.wallets[r.1].currency == currency
  {
    match FindFirst(db.wallets, WalletQuery(userId, Some(currency), false))
    case Some(i) => (db, i)
    case None =>
      var primary := FindFirst(db.wallets, WalletQuery(userId, None, true)).None?;
      (AddWallet(db, userId, currency, primary, None), |db.wallets|)
  }

  function AddFundsSpec(db: Db, userId: string, amount: int, currency: string): Outcome {
    if userId == "" || amount <= 0 then Outcome(db, Some(ValidationError))
    else
      var (ready, id) := EnsureWallet(db, userId, currency);
      Outcome(Post(ready, LedgerRow(id, Deposit, amount, currency, None)), None)
  }

  /** addFundsInternal's transaction, with the balance as it was read before the transaction began. */
  function AddFundsCommit(db: Db, id: nat, previous: int, amount: int, currency: string): Db
    requires id < |db.wallets|
  {
    var row := LedgerRow(id, Deposit, amount, currency, None);
    Post(db, row).(audit := db.audit + [AuditRow(id, previous, previous + amount)])
  }

  predicate AddressHeld(ws: seq<Wallet>, address: Option<string>) {
    address.Some? && exists i :: 0 <= i < |ws| && ws[i].address == address
  }

  /** linkWallet looks only for an address that JavaScript treats as true. */
  predicate AddressTaken(ws: seq<Wallet>, address: Option<string>) {
    address != Some("") && AddressHeld(ws, address)
  }

  function HasNoPrimary(db: Db, userId: string): bool {
    FindFirst(db.wallets, WalletQuery(userId, None, true)).None?
  }

  /** linkWallet's create, with the outcome of its lookup of the user's primary wallet; addresses are unique in the database. */
  function LinkCommit(db: Db, userId: string, address: Option<string>, currency: string, primary: bool): Outcome {
    if AddressHeld(db.wallets, address) then Outcome(db, Some(InternalError))
    else Outcome(AddWallet(db, userId, currency, primary, address), None)
  }

  function LinkWalletSpec(db: Db, userId: string, address: Option<string>, currency: string): Outcome {
    if AddressTaken(db.wallets, address) then Outcome(db, Some(AddressConflict))
    else LinkCommit(db, userId, address, currency, HasNoPrimary(db, userId))
  }

  function Step(db: Db, supported: seq<string>, r: Request): Outcome {
    match r
    case PaymentCompleted(e) => HandleSpec(db, e)
    case DepositFunds(id, amount, asset) => DepositSpec(db, supported, id, amount, asset)
    case WithdrawFunds(id, amount, asset) => WithdrawSpec(db, supported, id, amount, asset)
    case TransferFunds(fromId, toId, amount, asset) => TransferSpec(db, supported, fromId, toId, amount, asset)
    case AddFunds(userId, amount, currency) => AddFundsSpec(db, userId, amount, currency)
    case LinkWallet(userId, address, currency) => LinkWalletSpec(db, userId, address, currency)
  }

  function Run(supported: seq<string>, rs: seq<Request>): Db {
    if |rs| == 0 then EMPTY_DB
    else Step(Run(supported, rs[..|rs| - 1]), supported, rs[|rs| - 1]).db
  }

  // ---- Invariants ---------------------------------------------------------------------------

  ghost function RowWeight(w: int): LedgerRow -> int {
    (r: LedgerRow) => if r.walletId == w then Signed(r) else 0
  }

  ghost function CreditWeight(paymentId: string): LedgerRow -> int {
    (r: LedgerRow) => if r.kind == Credit && r.paymentId == Some(paymentId) then 1 else 0
  }

  ghost function BalanceWeight(): Wallet -> int {
    (w: Wallet) => w.balance
  }

  /** The last balance that the audit log records for wallet w; 0 before any row. */
  ghost function LastAfter(audit: seq<AuditRow>, w: int): int {
    if |audit| == 0 then 0
    else if audit[|audit| - 1].walletId == w then audit[|audit| - 1].after
    else LastAfter(audit[..|audit| - 1], w)
  }

  ghost predicate LedgerAgrees(db: Db) {
    forall w :: 0 <= w < |db.wallets| ==> db.wallets[w].balance == Sum(db.ledger, RowWeight(w))
  }

  ghost predicate Solvent(db: Db) {
    forall w :: 0 <= w < |db.wallets| ==> db.wallets[w].balance >= 0
  }

  /** Every audit row starts where the wallet's previous row ended (0 for the first). */
  ghost predicate AuditChained(audit: seq<AuditRow>) {
    forall i :: 0 <= i < |audit| ==> audit[i].before == LastAfter(audit[..i], audit[i].walletId)
  }

  ghost predicate AuditCurrent(db: Db) {
    forall w :: 0 <= w < |db.wallets| ==> LastAfter(db.audit, w) == db.wallets[w].balance
  }

  ghost predicate OnePrimary(ws: seq<Wallet>) {
    forall i, j :: 0 <= i < j < |ws| && ws[i].primary && ws[j].primary && ws[i].userId == ws[j].userId ==>
      ws[i].currency != ws[j].currency
  }

  ghost predicate RowsInRange(db: Db) {
    && (forall i :: 0 <= i < |db.ledger| ==> db.ledger[i].walletId < |db.wallets|)
    && (forall i :: 0 <= i < |db.audit| ==> db.audit[i].walletId < |db.wallets|)
  }

  /** Exactly one CREDIT row for every processed payment and none for any other. */
  ghost predicate CreditsOnce(db: Db) {
    forall p: string :: Sum(db.ledger, CreditWeight(p)) == if EventKey(p) in db.processed then 1 else 0
  }

  ghost predicate Inv(db: Db) {
    && RowsInRange(db)
    && LedgerAgrees(db)
    && Solvent(db)
    && AuditChained(db.audit)
    && AuditCurrent(db)
    && OnePrimary(db.wallets)
    && CreditsOnce(db)
  }

  // ---- Preservation -------------------------------------------------------------------------

  lemma LastAfterAppend(audit: seq<AuditRow>, row: AuditRow, w: int)
    ensures LastAfter(audit + [row], w) == if row.walletId == w then row.after else LastAfter(audit, w)
  {
    assert (audit + [row])[..|audit|] == audit;
  }

  lemma AuditChainExtends(audit: seq<AuditRow>, row: AuditRow)
    requires AuditChained(audit) && row.before == LastAfter(audit, row.walletId)
    ensures AuditChained(audit + [row])
  {
    var a := audit + [row];
    forall i | 0 <= i < |a| ensures a[i].before == LastAfter(a[..i], a[i].walletId) {
      if i < |audit| {
        assert a[..i] == audit[..i];
      } else {
        assert a[..i] == audit;
      }
    }
  }

  lemma {:induction false} NoAuditRows(audit: seq<AuditRow>, w: int)
    requires forall i :: 0 <= i < |audit| ==> audit[i].walletId != w
    ensures LastAfter(audit, w) == 0
  {
    if |audit| > 0 {
      NoAuditRows(audit[..|audit| - 1], w);
    }
  }

  lemma AddWalletKeepsInv(db: Db, userId: string, currency: string, primary: bool, address: Option<string>)
    requires Inv(db)
    requires primary ==> FindFirst(db.wallets, PrimaryOf(userId, currency)).None?
    ensures Inv(AddWallet(db, userId, currency, primary, address))
  {
    var id := |db.wallets|;
    SumZero(db.ledger, RowWeight(id));
    NoAuditRows(db.audit, id);
    var after := AddWallet(db, userId, currency, primary, address);
    forall i, j | 0 <= i < j < |after.wallets| && after.wallets[i].primary && after.wallets[j].primary
                  && after.wallets[i].userId == after.wallets[j].userId
      ensures after.wallets[i].currency != after.wallets[j].currency
    {
      if j == id {
        assert !Matches(db.wallets[i], PrimaryOf(userId, currency));
      }
    }
  }

  /** What one posting keeps.  Credit rows are excluded from the count on purpose: see CreditEventKeepsInv. */
  lemma PostKeeps(db: Db, row: LedgerRow)
    requires row.walletId < |db.wallets|
    requires RowsInRange(db) && LedgerAgrees(db) && Solvent(db)
    requires AuditChained(db.audit) && AuditCurrent(db) && OnePrimary(db.wallets)
    requires db.wallets[row.walletId].balance + Signed(row) >= 0
    ensures var after := Post(db, row);
            && RowsInRange(after) && LedgerAgrees(after) && Solvent(after)
            && AuditChained(after.audit) && AuditCurrent(after) && OnePrimary(after.wallets)
    ensures forall p :: Sum(Post(db, row).ledger, CreditWeight(p)) == Sum(db.ledger, CreditWeight(p)) + CreditWeight(p)(row)
  {
    var after := Post(db, row);
    var entry := after.audit[|db.audit|];
    AuditChainExtends(db.audit, entry);
    forall w | 0 <= w < |after.wallets|
      ensures after.wallets[w].balance == Sum(after.ledger, RowWeight(w))
      ensures LastAfter(after.audit, w) == after.wallets[w].balance
    {
      SumAppend(db.ledger, row, RowWeight(w));
      LastAfterAppend(db.audit, entry, w);
    }
    forall p ensures Sum(after.ledger, CreditWeight(p)) == Sum(db.ledger, CreditWeight(p)) + CreditWeight(p)(row) {
      SumAppend(db.ledger, row, CreditWeight(p));
    }
  }

  /**
   A deposit of addFundsInternal may be overtaken between its read and its transaction.  Balances, ledger and solvency
   do not suffer; the audit chain holds if and only if the balance read is still the wallet's.
   */
  lemma StaleAddFundsBreaksAuditIff(db: Db, id: nat, previous: int, amount: int, currency: string)
    requires Inv(db) && id < |db.wallets| && amount > 0
    ensures var after := AddFundsCommit(db, id, previous, amount, currency);
            && LedgerAgrees(after) && Solvent(after) && OnePrimary(after.wallets) && CreditsOnce(after)
            && (AuditChained(after.audit) <==> previous == db.wallets[id].balance)
            && (AuditCurrent(after) <==> previous == db.wallets[id].balance)
  {
    var row := LedgerRow(id, Deposit, amount, currency, None);
    var after := AddFundsCommit(db, id, previous, amount, currency);
    PostKeepsInv(db, row);
    var entry := after.audit[|db.audit|];
    assert after.audit[..|db.audit|] == db.audit;
    forall w: int ensures LastAfter(after.audit, w) == if w == id then previous + amount else LastAfter(db.audit, w) {
      LastAfterAppend(db.audit, entry, w);
    }
    if previous == db.wallets[id].balance {
      assert after == Post(db, row);
    } else {
      assert entry.before != LastAfter(after.audit[..|db.audit|], entry.walletId);
    }
  }

  lemma PostKeepsInv(db: Db, row: LedgerRow)
    requires Inv(db) && row.walletId < |db.wallets| && row.kind != Credit
    requires db.wallets[row.walletId].balance + Signed(row) >= 0
    ensures Inv(Post(db, row))
  {
    PostKeeps(db, row);
  }

  lemma EnsurePrimaryKeepsInv(db: Db, userId: string, currency: string)
    requires Inv(db)
    ensures Inv(EnsurePrimary(db, userId, currency).0)
  {
    if FindFirst(db.wallets, PrimaryOf(userId, currency)).None? {
      AddWalletKeepsInv(db, userId, currency, true, None);
    }
  }

  lemma CreditEventKeepsInv(db: Db, e: PaymentEvent)
    requires Inv(db) && ValidEvent(e) && EventKey(e.paymentId) !in db.processed
    ensures Inv(CreditEvent(db, e))
  {
    var currency := ResolveCurrency(e.currency);
    EnsurePrimaryKeepsInv(db, e.userId, currency);
    var (ready, id) := EnsurePrimary(db, e.userId, currency);
    var row := LedgerRow(id, Credit, e.amount, currency, Some(e.paymentId));
    PostKeeps(ready, row);
    var after := CreditEvent(db, e);
    forall p ensures Sum(after.ledger, CreditWeight(p)) == if EventKey(p) in after.processed then 1 else 0 {
      if EventKey(p) == EventKey(e.paymentId) {
        EventKeyInjective(p, e.paymentId);
      }
    }
  }

  lemma TransferKeepsInv(db: Db, supported: seq<string>, fromId: nat, toId: nat, amount: int, asset: string)
    requires Inv(db)
    ensures Inv(TransferSpec(db, supported, fromId, toId, amount, asset).db)
  {
    if TransferSpec(db, supported, fromId, toId, amount, asset).error.None? {
      var debit := LedgerRow(fromId, Transfer(Outgoing), amount, asset, None);
      PostKeepsInv(db, debit);
      PostKeepsInv(Post(db, debit), LedgerRow(toId, Transfer(Incoming), amount, asset, None));
    }
  }

  lemma AddFundsKeepsInv(db: Db, userId: string, amount: int, currency: string)
    requires Inv(db)
    ensures Inv(AddFundsSpec(db, userId, amount, currency).db)
  {
    if userId != "" && amount > 0 {
      if FindFirst(db.wallets, WalletQuery(userId, Some(currency), false)).None? {
        AddWalletKeepsInv(db, userId, currency, FindFirst(db.wallets, WalletQuery(userId, None, true)).None?, None);
      }
      var (ready, id) := EnsureWallet(db, userId, currency);
      PostKeepsInv(ready, LedgerRow(id, Deposit, amount, currency, None));
    }
  }

  lemma LinkWalletKeepsInv(db: Db, userId: string, address: Option<string>, currency: string)
    requires Inv(db)
    ensures Inv(LinkWalletSpec(db, userId, address, currency).db)
  {
    if !AddressHeld(db.wallets, address) {
      AddWalletKeepsInv(db, userId, currency, HasNoPrimary(db, userId), address);
    }
  }

  /**
   The lookup of linkWallet may be overtaken before its create.  What the create then does to the one primary wallet per
   user and currency: it survives if and only if the wallet is not created as primary, or there still is none.
   */
  lemma StaleLinkKeepsOnePrimaryIff(db: Db, userId: string, address: Option<string>, currency: string, primary: bool)
    requires Inv(db) && !AddressHeld(db.wallets, address)
    ensures OnePrimary(LinkCommit(db, userId, address, currency, primary).db.wallets)
            <==> !primary || FindFirst(db.wallets, PrimaryOf(userId, currency)).None?
  {
    var found := FindFirst(db.wallets, PrimaryOf(userId, currency));
    if primary && found.Some? {
      var after := LinkCommit(db, userId, address, currency, primary).db.wallets;
      assert after[found.value].primary && after[|db.wallets|].primary;
      assert after[found.value].userId == after[|db.wallets|].userId && after[found.value].currency == after[|db.wallets|].currency;
    } else {
      AddWalletKeepsInv(db, userId, currency, primary, address);
    }
  }

  /** So two links that both looked before either created leave the user with two primary wallets. */
  lemma OverlappingLinks(userId: string, currency: string)
    ensures var first := LinkCommit(EMPTY_DB, userId, None, currency, HasNoPrimary(EMPTY_DB, userId)).db;
            var both := LinkCommit(first, userId, None, currency, HasNoPrimary(EMPTY_DB, userId)).db;
            !OnePrimary(both.wallets)
  {
    var first := AddWallet(EMPTY_DB, userId, currency, true, None);
    var both := AddWallet(first, userId, currency, true, None);
    assert both.wallets[0].primary && both.wallets[1].primary;
  }

  lemma SinglePostingKeepsInv(db: Db, supported: seq<string>, id: nat, amount: int, asset: string)
    requires Inv(db)
    ensures Inv(DepositSpec(db, supported, id, amount, asset).db)
    ensures Inv(WithdrawSpec(db, supported, id, amount, asset).db)
  {
    if DepositSpec(db, supported, id, amount, asset).error.None? {
      PostKeepsInv(db, LedgerRow(id, Deposit, amount, asset, None));
    }
    if WithdrawSpec(db, supported, id, amount, asset).error.None? {
      PostKeepsInv(db, LedgerRow(id, Withdrawal, amount, asset, None));
    }
  }

  lemma StepKeepsInv(db: Db, supported: seq<string>, r: Request)
    requires Inv(db)
    ensures Inv(Step(db, supported, r).db)
  {
    match r
    case PaymentCompleted(e) =>
      if ValidEvent(e) && EventKey(e.paymentId) !in db.processed {
        CreditEventKeepsInv(db, e);
      }
    case DepositFunds(id, amount, asset) => SinglePostingKeepsInv(db, supported, id, amount, asset);
    case WithdrawFunds(id, amount, asset) => SinglePostingKeepsInv(db, supported, id, amount, asset);
    case TransferFunds(fromId, toId, amount, asset) => TransferKeepsInv(db, supported, fromId, toId, amount, asset);
    case AddFunds(userId, amount, currency) => AddFundsKeepsInv(db, userId, amount, currency);
    case LinkWallet(userId, address, currency) => LinkWalletKeepsInv(db, userId, address, currency);
  }

  /**
   Over every run of the six writers from an empty database: each balance equals the signed sum of its
   ledger rows and is never negative, the audit rows of each wallet chain from 0 to its balance, a user has
   at most one primary wallet per currency, and each payment has exactly one CREDIT row iff its key is stored.
   */
  lemma {:induction false} RunKeepsInv(supported: seq<string>, rs: seq<Request>)
    ensures Inv(Run(supported, rs))
  {
    if |rs| == 0 {
      assert forall p :: Sum(EMPTY_DB.ledger, CreditWeight(p)) == 0;
    } else {
      RunKeepsInv(supported, rs[..|rs| - 1]);
      StepKeepsInv(Run(supported, rs[..|rs| - 1]), supported, rs[|rs| - 1]);
    }
  }

  // ---- What a credit does to the balances -----------------------------------------------------

  lemma FirstMatchIsUnique(ws: seq<Wallet>, q: WalletQuery, i: nat)
    requires i < |ws| && Matches(ws[i], q) && forall j :: 0 <= j < i ==> !Matches(ws[j], q)
    ensures FindFirst(ws, q) == Some(i)
  {
  }

  lemma FirstAppended(ws: seq<Wallet>, w: Wallet, q: WalletQuery)
    ensures FindFirst(ws + [w], q)
            == if FindFirst(ws, q).Some? then FindFirst(ws, q) else if Matches(w, q) then Some(|ws|) else None
  {
    assert (ws + [w])[..|ws|] == ws;
  }

  /** A wallet created empty changes no balance. */
  lemma EnsureKeepsBalances(db: Db, userId: string, currency: string, u: string, c: string)
    ensures FirstBalance(EnsurePrimary(db, userId, currency).0.wallets, PrimaryOf(u, c)) == FirstBalance(db.wallets, PrimaryOf(u, c))
  {
    FirstAppended(db.wallets, Wallet(userId, currency, 0, true, None), PrimaryOf(u, c));
  }

  /** Incrementing the first wallet of query own moves what own reads, and nothing that another primary query reads. */
  lemma IncrementMovesOneBalance(ws: seq<Wallet>, after: seq<Wallet>, id: nat, amount: int, own: WalletQuery, q: WalletQuery)
    requires id < |ws| && after == ws[id := ws[id].(balance := ws[id].balance + amount)]
    requires own == PrimaryOf(own.userId, ws[id].currency) && q.currency.Some? && q == PrimaryOf(q.userId, q.currency.value)
    requires Matches(ws[id], own) && forall j :: 0 <= j < id ==> !Matches(ws[j], own)
    ensures FirstBalance(after, q) == FirstBalance(ws, q) + if q == own then amount else 0
  {
    assert forall j :: 0 <= j < |after| ==> Matches(after[j], q) == Matches(ws[j], q);
    var found := FindFirst(ws, q);
    if found.Some? {
      FirstMatchIsUnique(after, q, found.value);
    } else {
      assert FindFirst(after, q).None?;
    }
    if q == own {
      FirstMatchIsUnique(ws, q, id);
    }
  }

  /** A credit moves the balance of its own user and currency, and no other. */
  lemma CreditMovesOneBalance(db: Db, e: PaymentEvent, u: string, c: string)
    ensures GetBalance(CreditEvent(db, e), u, c)
            == GetBalance(db, u, c) + if u == e.userId && c == (if e.currency == "" then "PI" else e.currency) then e.amount else 0
  {
    var (ready, id) := EnsurePrimary(db, e.userId, ResolveCurrency(e.currency));
    EnsureKeepsBalances(db, e.userId, ResolveCurrency(e.currency), u, c);
    var own := PrimaryOf(e.userId, ResolveCurrency(e.currency));
    IncrementMovesOneBalance(ready.wallets, CreditEvent(db, e).wallets, id, e.amount, own, PrimaryOf(u, c));
  }

  /**
   The payment handler credits an event that is valid and new to the wallet of its user in its currency - in PI if it
   names none - and changes no other balance.
   */
  lemma HandleCredits(db: Db, e: PaymentEvent, u: string, c: string)
    requires e.paymentId != "" && e.userId != "" && e.amount > 0 && "payment:" + e.paymentId !in db.processed
    ensures GetBalance(HandleSpec(db, e).db, u, c)
            == GetBalance(db, u, c) + if u == e.userId && c == (if e.currency == "" then "PI" else e.currency) then e.amount else 0
  {
    CreditMovesOneBalance(db, e, u, c);
  }

  // ---- Conservation -------------------------------------------------------------------------

  ghost function TotalBalance(db: Db): int {
    Sum(db.wallets, BalanceWeight())
  }

  /** What a successful request brings in from (or sends to) the outside. */
  function ExternalFlow(db: Db, supported: seq<string>, r: Request): int {
    if Step(db, supported, r).error.Some? then 0
    else
      match r
      case PaymentCompleted(e) => if EventKey(e.paymentId) in db.processed then 0 else e.amount
      case DepositFunds(_, amount, _) => amount
      case WithdrawFunds(_, amount, _) => -amount
      case TransferFunds(_, _, _, _) => 0
      case AddFunds(_, amount, _) => amount
      case LinkWallet(_, _, _) => 0
  }

  lemma PostTotal(db: Db, row: LedgerRow)
    requires row.walletId < |db.wallets|
    ensures TotalBalance(Post(db, row)) == TotalBalance(db) + Signed(row)
  {
    var w := db.wallets[row.walletId];
    SumUpdate(db.wallets, row.walletId, w.(balance := w.balance + Signed(row)), BalanceWeight());
  }

  lemma AddWalletTotal(db: Db, userId: string, currency: string, primary: bool, address: Option<string>)
    ensures TotalBalance(AddWallet(db, userId, currency, primary, address)) == TotalBalance(db)
  {
    SumAppend(db.wallets, Wallet(userId, currency, 0, primary, address), BalanceWeight());
  }

  lemma CreditTotal(db: Db, e: PaymentEvent)
    ensures TotalBalance(CreditEvent(db, e)) == TotalBalance(db) + e.amount
  {
    var currency := ResolveCurrency(e.currency);
    AddWalletTotal(db, e.userId, currency, true, None);
    var (ready, id) := EnsurePrimary(db, e.userId, currency);
    PostTotal(ready, LedgerRow(id, Credit, e.amount, currency, Some(e.paymentId)));
  }

  lemma TransferTotal(db: Db, fromId: nat, toId: nat, amount: int, asset: string)
    requires fromId < |db.wallets| && toId < |db.wallets|
    ensures var debited := Post(db, LedgerRow(fromId, Transfer(Outgoing), amount, asset, None));
            TotalBalance(Post(debited, LedgerRow(toId, Transfer(Incoming), amount, asset, None))) == TotalBalance(db)
  {
    var debit := LedgerRow(fromId, Transfer(Outgoing), amount, asset, None);
    PostTotal(db, debit);
    PostTotal(Post(db, debit), LedgerRow(toId, Transfer(Incoming), amount, asset, None));
  }

  lemma AddFundsTotal(db: Db, userId: string, amount: int, currency: string)
    requires userId != "" && amount > 0
    ensures TotalBalance(AddFundsSpec(db, userId, amount, currency).db) == TotalBalance(db) + amount
  {
    AddWalletTotal(db, userId, currency, FindFirst(db.wallets, WalletQuery(userId, None, true)).None?, None);
    var (ready, id) := EnsureWallet(db, userId, currency);
    PostTotal(ready, LedgerRow(id, Deposit, amount, currency, None));
  }

  /** Money is conserved: a request changes the total over all wallets by exactly its external flow; a transfer by nothing. */
  lemma StepConserves(db: Db, supported: seq<string>, r: Request)
    ensures TotalBalance(Step(db, supported, r).db) == TotalBalance(db) + ExternalFlow(db, supported, r)
  {
    if Step(db, supported, r).error.None? {
      match r
      case PaymentCompleted(e) =>
        if EventKey(e.paymentId) !in db.processed {
          CreditTotal(db, e);
        }
      case DepositFunds(id, amount, asset) => PostTotal(db, LedgerRow(id, Deposit, amount, asset, None));
      case WithdrawFunds(id, amount, asset) => PostTotal(db, LedgerRow(id, Withdrawal, amount, asset, None));
      case TransferFunds(fromId, toId, amount, asset) =>
        TransferTotal(db, fromId, toId, amount, asset);
      case AddFunds(userId, amount, currency) => AddFundsTotal(db, userId, amount, currency);
      case LinkWallet(userId, address, currency) =>
        AddWalletTotal(db, userId, currency, FindFirst(db.wallets, WalletQuery(userId, None, true)).None?, address);
    }
  }
}
