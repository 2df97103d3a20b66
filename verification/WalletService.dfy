/**
 The wallet service's handlers as they run: one statement per database call, in the source's order.
 Each is proved to be exactly the step that WalletLedger specifies.
 */
module WalletService {
  import opened Prelude
  import opened WalletLedger

  class WalletStore {
    var wallets: seq<Wallet>
    var ledger: seq<LedgerRow>
    var auditLog: seq<AuditRow>
    var processedEvents: map<string, string>

    function Snapshot(): Db
      reads this
    {
      Db(wallets, ledger, auditLog, processedEvents)
    }

    constructor ()
      ensures Snapshot() == EMPTY_DB
    {
      wallets, ledger, auditLog, processedEvents := [], [], [], map[];
    }

    method WriteAuditLog(id: nat, before: int, after: int)
      modifies this`auditLog
      ensures auditLog == old(auditLog) + [AuditRow(id, before, after)]
    {
      auditLog := auditLog + [AuditRow(id, before, after)];
    }

    method Increment(id: nat, delta: int)
      requires id < |wallets|
      modifies this`wallets
      ensures wallets == old(wallets)[id := old(wallets)[id].(balance := old(wallets)[id].balance + delta)]
    {
      wallets := wallets[id := wallets[id].(balance := wallets[id].balance + delta)];
    }

    method CreateTransaction(row: LedgerRow)
      modifies this`ledger
      ensures ledger == old(ledger) + [row]
    {
      ledger := ledger + [row];
    }

    /** What getBalance shows: the balance of the first wallet of the user in the currency that is primary, else nothing. */
    method GetBalance(userId: string, currency: string) returns (balance: int)
      ensures balance == WalletLedger.GetBalance(Snapshot(), userId, currency)
      ensures balance != 0 ==>
                exists i :: 0 <= i < |wallets| && wallets[i].userId == userId && wallets[i].currency == currency && wallets[i].primary
                            && wallets[i].balance == balance
      ensures forall i :: 0 <= i < |wallets| && wallets[i].userId == userId && wallets[i].currency == currency && wallets[i].primary
                          && (forall j :: 0 <= j < i ==>
                                !(wallets[j].userId == userId && wallets[j].currency == currency && wallets[j].primary)) ==>
                balance == wallets[i].balance
    {
      var found := FindFirst(wallets, PrimaryOf(userId, currency));
      balance := if found.Some? then wallets[found.value].balance else 0;
    }

    method FindOrCreateWallet(userId: string, currency: string) returns (id: nat)
      modifies this`wallets
      ensures id < |wallets|
      ensures (Snapshot(), id) == EnsurePrimary(old(Snapshot()), userId, currency)
      ensures wallets[id].userId == userId && wallets[id].currency == currency && wallets[id].primary
      ensures wallets == old(wallets) || (id == |old(wallets)| && wallets == old(wallets) + [Wallet(userId, currency, 0, true, None)])
    {
      var existing := FindFirst(wallets, PrimaryOf(userId, currency));
      if existing.Some? {
        return existing.value;
      }
      id := |wallets|;
      wallets := wallets + [Wallet(userId, currency, 0, true, None)];
    }

    method HandlePaymentCompleted(e: PaymentEvent) returns (error: Option<WalletError>)
      modifies this
      ensures Outcome(Snapshot(), error) == HandleSpec(old(Snapshot()), e)
      ensures error == if e.paymentId == "" || e.userId == "" || e.amount <= 0 then Some(InvalidEvent) else None
      ensures error.Some? || "payment:" + e.paymentId in old(processedEvents) ==> Snapshot() == old(Snapshot())
      ensures error.None? && "payment:" + e.paymentId !in old(processedEvents) ==>
                && processedEvents == old(processedEvents)["payment:" + e.paymentId := e.userId]
                && |ledger| == |old(ledger)| + 1
                && var row := ledger[|old(ledger)|];
                   && ledger == old(ledger) + [LedgerRow(row.walletId, Credit, e.amount, if e.currency == "" then "PI" else e.currency,
                                                         Some(e.paymentId))]
                   && row.walletId < |wallets| && wallets[row.walletId].userId == e.userId
      ensures error.None? && "payment:" + e.paymentId !in old(processedEvents) ==>
                forall u, c ::
                  WalletLedger.GetBalance(Snapshot(), u, c)
                  == WalletLedger.GetBalance(old(Snapshot()), u, c)
                     + if u == e.userId && c == (if e.currency == "" then "PI" else e.currency) then e.amount else 0
    {
      forall u, c | ValidEvent(e) && EventKey(e.paymentId) !in processedEvents
        ensures WalletLedger.GetBalance(HandleSpec(Snapshot(), e).db, u, c)
                == WalletLedger.GetBalance(Snapshot(), u, c)
                   + if u == e.userId && c == (if e.currency == "" then "PI" else e.currency) then e.amount else 0
      {
        HandleCredits(Snapshot(), e, u, c);
      }
      if e.paymentId == "" || e.userId == "" {
        return Some(InvalidEvent);
      }
      if e.amount <= 0 {
        return Some(InvalidEvent);
      }
      var key := EventKey(e.paymentId);
      if key in processedEvents {
        return None;
      }
      processedEvents := processedEvents[key := e.userId];
      var currency := ResolveCurrency(e.currency);
      var id := FindOrCreateWallet(e.userId, currency);
      var balanceBefore := wallets[id].balance;
      Increment(id, e.amount);
      CreateTransaction(LedgerRow(id, Credit, e.amount, currency, Some(e.paymentId)));
      WriteAuditLog(id, balanceBefore, balanceBefore + e.amount);
      assert Snapshot() == CreditEvent(old(Snapshot()), e);
      error := None;
    }

    method DepositFunds(supported: seq<string>, id: nat, amount: int, asset: string) returns (error: Option<WalletError>)
      modifies this
      ensures Outcome(Snapshot(), error) == DepositSpec(old(Snapshot()), supported, id, amount, asset)
      ensures error == if amount < MIN_AMOUNT then Some(ValidationError)
                       else if |supported| > 0 && asset !in supported then Some(UnsupportedCurrency)
                       else if id >= |old(wallets)| then Some(WalletNotFound)
                       else None
      ensures error.Some? ==> Snapshot() == old(Snapshot())
      ensures error.None? ==>
                && wallets == old(wallets)[id := old(wallets)[id].(balance := old(wallets)[id].balance + amount)]
                && ledger == old(ledger) + [LedgerRow(id, Deposit, amount, asset, None)]
                && processedEvents == old(processedEvents)
    {
      if amount < MIN_AMOUNT {
        return Some(ValidationError);
      }
      if |supported| > 0 && asset !in supported {
        return Some(UnsupportedCurrency);
      }
      if id >= |wallets| {
        return Some(WalletNotFound);
      }
      var balanceBefore := wallets[id].balance;
      WriteAuditLog(id, balanceBefore, balanceBefore + amount);
      Increment(id, amount);
      CreateTransaction(LedgerRow(id, Deposit, amount, asset, None));
      error := None;
    }

    method WithdrawFunds(supported: seq<string>, id: nat, amount: int, asset: string) returns (error: Option<WalletError>)
      modifies this
      ensures Outcome(Snapshot(), error) == WithdrawSpec(old(Snapshot()), supported, id, amount, asset)
      ensures error == if amount < MIN_AMOUNT then Some(ValidationError)
                       else if |supported| > 0 && asset !in supported then Some(UnsupportedCurrency)
                       else if id >= |old(wallets)| then Some(WalletNotFound)
                       else if old(wallets)[id].balance < amount then Some(InsufficientBalance)
                       else None
      ensures error.Some? ==> Snapshot() == old(Snapshot())
      ensures error.None? ==>
                && wallets == old(wallets)[id := old(wallets)[id].(balance := old(wallets)[id].balance - amount)]
                && ledger == old(ledger) + [LedgerRow(id, Withdrawal, amount, asset, None)]
                && processedEvents == old(processedEvents)
    {
      if amount < MIN_AMOUNT {
        return Some(ValidationError);
      }
      if |supported| > 0 && asset !in supported {
        return Some(UnsupportedCurrency);
      }
      if id >= |wallets| {
        return Some(WalletNotFound);
      }
      var balanceBefore := wallets[id].balance;
      if balanceBefore < amount {
        return Some(InsufficientBalance);
      }
      WriteAuditLog(id, balanceBefore, balanceBefore - amount);
      Increment(id, -amount);
      CreateTransaction(LedgerRow(id, Withdrawal, amount, asset, None));
      error := None;
    }

    method TransferFunds(supported: seq<string>, fromId: nat, toId: nat, amount: int, asset: string)
      returns (error: Option<WalletError>)
      modifies this
      ensures Outcome(Snapshot(), error) == TransferSpec(old(Snapshot()), supported, fromId, toId, amount, asset)
      ensures error == if amount < MIN_AMOUNT then Some(ValidationError)
                       else if fromId == toId then Some(InvalidTransfer)
                       else if |supported| > 0 && asset !in supported then Some(UnsupportedCurrency)
                       else if fromId >= |old(wallets)| || toId >= |old(wallets)| then Some(WalletNotFound)
                       else if old(wallets)[fromId].balance < amount then Some(InsufficientBalance)
                       else None
      ensures error.Some? ==> Snapshot() == old(Snapshot())
      ensures error.None? ==>
                && wallets == old(wallets)[fromId := old(wallets)[fromId].(balance := old(wallets)[fromId].balance - amount)]
                                          [toId := old(wallets)[toId].(balance := old(wallets)[toId].balance + amount)]
                && ledger == old(ledger) + [LedgerRow(fromId, Transfer(Outgoing), amount, asset, None),
                                            LedgerRow(toId, Transfer(Incoming), amount, asset, None)]
                && processedEvents == old(processedEvents)
    {
      if amount < MIN_AMOUNT {
        return Some(ValidationError);
      }
      if fromId == toId {
        return Some(InvalidTransfer);
      }
      if |supported| > 0 && asset !in supported {
        return Some(UnsupportedCurrency);
      }
      if fromId >= |wallets| {
        return Some(WalletNotFound);
      }
      if toId >= |wallets| {
        return Some(WalletNotFound);
      }
      var fromBalance, toBalance := wallets[fromId].balance, wallets[toId].balance;
      if fromBalance < amount {
        return Some(InsufficientBalance);
      }
      WriteAuditLog(fromId, fromBalance, fromBalance - amount);
      WriteAuditLog(toId, toBalance, toBalance + amount);
      Increment(fromId, -amount);
      Increment(toId, amount);
      CreateTransaction(LedgerRow(fromId, Transfer(Outgoing), amount, asset, None));
      CreateTransaction(LedgerRow(toId, Transfer(Incoming), amount, asset, None));
      error := None;
      ghost var debited := Post(old(Snapshot()), LedgerRow(fromId, Transfer(Outgoing), amount, asset, None));
      assert Snapshot() == Post(debited, LedgerRow(toId, Transfer(Incoming), amount, asset, None));
    }

    method AddFundsInternal(userId: string, amount: int, currency: string) returns (error: Option<WalletError>)
      modifies this
      ensures Outcome(Snapshot(), error) == AddFundsSpec(old(Snapshot()), userId, amount, currency)
      ensures error == if userId == "" || amount <= 0 then Some(ValidationError) else None
      ensures error.Some? ==> Snapshot() == old(Snapshot())
      ensures error.None? ==>
                && |ledger| == |old(ledger)| + 1 && processedEvents == old(processedEvents)
                && var id := ledger[|old(ledger)|].walletId;
                   && ledger == old(ledger) + [LedgerRow(id, Deposit, amount, currency, None)]
                   && id < |wallets| && wallets[id].userId == userId && wallets[id].currency == currency
                   && (id < |old(wallets)| ==> wallets == old(wallets)[id := old(wallets)[id].(balance := old(wallets)[id].balance + amount)])
                   && (id >= |old(wallets)| ==>
                         && wallets == old(wallets) + [Wallet(userId, currency, amount, wallets[id].primary, None)]
                         && (forall i :: 0 <= i < |old(wallets)| ==> !(old(wallets)[i].userId == userId && old(wallets)[i].currency == currency)))
    {
      if userId == "" {
        return Some(ValidationError);
      }
      if amount <= 0 {
        return Some(ValidationError);
      }
      var id := FindOrCreateAnyWallet(userId, currency);
      var previousBalance := wallets[id].balance;
      AddFundsTransaction(id, previousBalance, amount, currency);
      error := None;
    }

    /** addFundsInternal before its transaction: any wallet in the currency, else a new one. */
    method FindOrCreateAnyWallet(userId: string, currency: string) returns (id: nat)
      modifies this`wallets
      ensures id < |wallets|
      ensures (Snapshot(), id) == EnsureWallet(old(Snapshot()), userId, currency)
      ensures wallets[id].userId == userId && wallets[id].currency == currency
      ensures if exists i :: 0 <= i < |old(wallets)| && old(wallets)[i].userId == userId && old(wallets)[i].currency == currency
              then wallets == old(wallets)
              else id == |old(wallets)|
                   && wallets == old(wallets) + [Wallet(userId, currency, 0,
                                                        forall i :: 0 <= i < |old(wallets)| ==>
                                                          !(old(wallets)[i].userId == userId && old(wallets)[i].primary), None)]
    {
      var found := FindFirst(wallets, WalletQuery(userId, Some(currency), false));
      id := |wallets|;
      if found.Some? {
        return found.value;
      }
      var primaryExists := FindFirst(wallets, WalletQuery(userId, None, true));
      wallets := wallets + [Wallet(userId, currency, 0, primaryExists.None?, None)];
    }

    /** Its transaction: the audit row is written from the balance read before. */
    method AddFundsTransaction(id: nat, previousBalance: int, amount: int, currency: string)
      requires id < |wallets|
      modifies this
      ensures Snapshot() == AddFundsCommit(old(Snapshot()), id, previousBalance, amount, currency)
      ensures wallets == old(wallets)[id := old(wallets)[id].(balance := old(wallets)[id].balance + amount)]
      ensures ledger == old(ledger) + [LedgerRow(id, Deposit, amount, currency, None)]
      ensures auditLog == old(auditLog) + [AuditRow(id, previousBalance, previousBalance + amount)]
    {
      WriteAuditLog(id, previousBalance, previousBalance + amount);
      Increment(id, amount);
      CreateTransaction(LedgerRow(id, Deposit, amount, currency, None));
    }

    method LinkWallet(userId: string, address: Option<string>, currency: string) returns (error: Option<WalletError>)
      modifies this
      ensures Outcome(Snapshot(), error) == LinkWalletSpec(old(Snapshot()), userId, address, currency)
      ensures error.Some? <==> address.Some? && exists i :: 0 <= i < |old(wallets)| && old(wallets)[i].address == address
      ensures error.Some? ==> Snapshot() == old(Snapshot()) && error == Some(if address == Some("") then InternalError else AddressConflict)
      ensures error.None? ==>
                wallets == old(wallets) + [Wallet(userId, currency, 0,
                                                  forall i :: 0 <= i < |old(wallets)| ==>
                                                    !(old(wallets)[i].userId == userId && old(wallets)[i].primary), address)]
    {
      if AddressTaken(wallets, address) {
        return Some(AddressConflict);
      }
      var primaryWallet := FindFirst(wallets, WalletQuery(userId, None, true));
      error := LinkCreate(userId, address, currency, primaryWallet.None?);
    }

    /** Its create: whether the wallet is primary was decided by the lookup before. */
    method LinkCreate(userId: string, address: Option<string>, currency: string, primary: bool) returns (error: Option<WalletError>)
      modifies this`wallets
      ensures Outcome(Snapshot(), error) == LinkCommit(old(Snapshot()), userId, address, currency, primary)
      ensures wallets == old(wallets) + if error.None? then [Wallet(userId, currency, 0, primary, address)] else []
      ensures error.Some? <==> address.Some? && exists i :: 0 <= i < |old(wallets)| && old(wallets)[i].address == address
    {
      if address.Some? && exists i :: 0 <= i < |wallets| && wallets[i].address == address {
        return Some(InternalError);
      }
      wallets := wallets + [Wallet(userId, currency, 0, primary, address)];
      error := None;
    }
  }
}
