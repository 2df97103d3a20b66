/**
 Assets and their marketplace listings (asset.service.ts, marketplace.service.ts).  Each operation is one atomic
 step.  Ids are indices; the unique columns are checked as the services and the schema check them.
 */
module Marketplace {
  import opened Prelude

  datatype AssetStatus = AssetActive | AssetPending | AssetLocked | OnSale

  datatype ListingStatus = ListingActive | Sold | ListingCancelled | ListingExpired

  datatype Asset = Asset(ownerId: string, status: AssetStatus, transactionId: string, slug: string)

  datatype Listing = Listing(assetId: nat, sellerId: string, price: int, status: ListingStatus, buyerId: Option<string>, paymentId: Option<string>)

  datatype History = History(assetId: nat, toOwnerId: string, transactionId: string)

  datatype State = State(assets: seq<Asset>, listings: seq<Listing>, history: seq<History>)

  datatype MarketError =
    | BadPrice
    | NotFound
    | Forbidden
    | AlreadyListed
    | Locked
    | NotActive
    | OwnListing
    | PaymentUsed
    | TransactionUsed
    | SlugTaken

  datatype Request =
    | Provision(userId: string, transactionId: string, slug: string)
    | CreateListing(assetId: nat, sellerId: string, price: int)
    | CancelListing(listingId: nat, sellerId: string)
    | BuyListing(listingId: nat, buyerId: string, paymentId: string)

  const EMPTY := State([], [], [])

  predicate PaymentKnown(listings: seq<Listing>, paymentId: string) {
    exists i :: 0 <= i < |listings| && listings[i].paymentId == Some(paymentId)
  }

  predicate TransactionKnown(assets: seq<Asset>, transactionId: string) {
    exists i :: 0 <= i < |assets| && assets[i].transactionId == transactionId
  }

  predicate SlugKnown(assets: seq<Asset>, slug: string) {
    exists i :: 0 <= i < |assets| && assets[i].slug == slug
  }

  function Step(s: State, r: Request): (State, Option<MarketError>) {
    match r
    case Provision(userId, transactionId, slug) =>
      if TransactionKnown(s.assets, transactionId) then (s, Some(TransactionUsed))
      else if SlugKnown(s.assets, slug) then (s, Some(SlugTaken))
      else
        (s.(assets := s.assets + [Asset(userId, AssetActive, transactionId, slug)],
            history := s.history + [History(|s.assets|, userId, transactionId)]), None)
    case CreateListing(a, sellerId, price) =>
      if price <= 0 then (s, Some(BadPrice))
      else if a >= |s.assets| then (s, Some(NotFound))
      else if s.assets[a].ownerId != sellerId then (s, Some(Forbidden))
      else if s.assets[a].status == OnSale then (s, Some(AlreadyListed))
      else if s.assets[a].status == AssetLocked then (s, Some(Locked))
      else
        (s.(assets := s.assets[a := s.assets[a].(status := OnSale)],
            listings := s.listings + [Listing(a, sellerId, price, ListingActive, None, None)]), None)
    case CancelListing(l, sellerId) =>
      if l >= |s.listings| then (s, Some(NotFound))
      else if s.listings[l].sellerId != sellerId then (s, Some(Forbidden))
      else if s.listings[l].status != ListingActive then (s, Some(NotActive))
      else
        var a := s.listings[l].assetId;
        (s.(assets := if a < |s.assets| then s.assets[a := s.assets[a].(status := AssetActive)] else s.assets,
            listings := s.listings[l := s.listings[l].(status := ListingCancelled)]), None)
    case BuyListing(l, buyerId, paymentId) =>
      if l >= |s.listings| then (s, Some(NotFound))
      else if s.listings[l].status != ListingActive then (s, Some(NotActive))
      else if s.listings[l].sellerId == buyerId then (s, Some(OwnListing))
      else if PaymentKnown(s.listings, paymentId) then (s, Some(PaymentUsed))
      else
        var a := s.listings[l].assetId;
        (State(
           if a < |s.assets| then s.assets[a := s.assets[a].(ownerId := buyerId, status := AssetActive)] else s.assets,
           s.listings[l := s.listings[l].(status := Sold, buyerId := Some(buyerId), paymentId := Some(paymentId))],
           s.history + [History(a, buyerId, paymentId)]), None)
  }

  function Run(rs: seq<Request>): State {
    if |rs| == 0 then EMPTY else Step(Run(rs[..|rs| - 1]), rs[|rs| - 1]).0
  }

  // ---- The operations -------------------------------------------------------------------------

  class Services {
    var assets: seq<Asset>
    var listings: seq<Listing>
    var history: seq<History>

    function Snapshot(): State
      reads this
    {
      State(assets, listings, history)
    }

    constructor ()
      ensures Snapshot() == EMPTY
    {
      assets, listings, history := [], [], [];
    }

    method UpdateAsset(id: nat, ownerId: Option<string>, status: AssetStatus)
      modifies this`assets
      ensures |assets| == |old(assets)|
      ensures assets == if id < |old(assets)|
                        then old(assets)[id := old(assets)[id].(
                                           ownerId := if ownerId.Some? then ownerId.value else old(assets)[id].ownerId,
                                           status := status)]
                        else old(assets)
    {
      if id < |assets| {
        var asset := assets[id];
        assets := assets[id := asset.(ownerId := if ownerId.Some? then ownerId.value else asset.ownerId, status := status)];
      }
    }

    method ProvisionAsset(userId: string, transactionId: string, slug: string) returns (error: Option<MarketError>)
      modifies this
      ensures (Snapshot(), error) == Step(old(Snapshot()), Provision(userId, transactionId, slug))
      ensures error == if exists i :: 0 <= i < |old(assets)| && old(assets)[i].transactionId == transactionId then Some(TransactionUsed)
                       else if exists i :: 0 <= i < |old(assets)| && old(assets)[i].slug == slug then Some(SlugTaken)
                       else None
      ensures error.Some? ==> Snapshot() == old(Snapshot())
      ensures error.None? ==>
                && assets == old(assets) + [Asset(userId, AssetActive, transactionId, slug)] && listings == old(listings)
                && history == old(history) + [History(|old(assets)|, userId, transactionId)]
    {
      if TransactionKnown(assets, transactionId) {
        return Some(TransactionUsed);
      }
      if SlugKnown(assets, slug) {
        return Some(SlugTaken);
      }
      var id := |assets|;
      assets := assets + [Asset(userId, AssetActive, transactionId, slug)];
      history := history + [History(id, userId, transactionId)];
      error := None;
    }

    method CreateListing(assetId: nat, sellerId: string, price: int) returns (error: Option<MarketError>)
      modifies this
      ensures (Snapshot(), error) == Step(old(Snapshot()), Request.CreateListing(assetId, sellerId, price))
      ensures error == if price <= 0 then Some(BadPrice)
                       else if assetId >= |old(assets)| then Some(NotFound)
                       else if old(assets)[assetId].ownerId != sellerId then Some(Forbidden)
                       else if old(assets)[assetId].status == OnSale then Some(AlreadyListed)
                       else if old(assets)[assetId].status == AssetLocked then Some(Locked)
                       else None
      ensures error.Some? ==> Snapshot() == old(Snapshot())
      ensures error.None? ==>
                && assets == old(assets)[assetId := old(assets)[assetId].(status := OnSale)] && history == old(history)
                && listings == old(listings) + [Listing(assetId, sellerId, price, ListingActive, None, None)]
    {
      if price <= 0 {
        return Some(BadPrice);
      }
      if assetId >= |assets| {
        return Some(NotFound);
      }
      if assets[assetId].ownerId != sellerId {
        return Some(Forbidden);
      }
      if assets[assetId].status == OnSale {
        return Some(AlreadyListed);
      }
      if assets[assetId].status == AssetLocked {
        return Some(Locked);
      }
      UpdateAsset(assetId, None, OnSale);
      listings := listings + [Listing(assetId, sellerId, price, ListingActive, None, None)];
      error := None;
    }

    method CancelListing(listingId: nat, sellerId: string) returns (error: Option<MarketError>)
      modifies this
      ensures (Snapshot(), error) == Step(old(Snapshot()), Request.CancelListing(listingId, sellerId))
      ensures error == if listingId >= |old(listings)| then Some(NotFound)
                       else if old(listings)[listingId].sellerId != sellerId then Some(Forbidden)
                       else if old(listings)[listingId].status != ListingActive then Some(NotActive)
                       else None
      ensures error.Some? ==> Snapshot() == old(Snapshot())
      ensures error.None? ==>
                && listings == old(listings)[listingId := old(listings)[listingId].(status := ListingCancelled)]
                && history == old(history) && |assets| == |old(assets)|
                && (forall a :: 0 <= a < |assets| ==>
                      assets[a] == if a == old(listings)[listingId].assetId then old(assets)[a].(status := AssetActive) else old(assets)[a])
    {
      if listingId >= |listings| {
        return Some(NotFound);
      }
      var listing := listings[listingId];
      if listing.sellerId != sellerId {
        return Some(Forbidden);
      }
      if listing.status != ListingActive {
        return Some(NotActive);
      }
      UpdateAsset(listing.assetId, None, AssetActive);
      listings := listings[listingId := listing.(status := ListingCancelled)];
      error := None;
    }

    method BuyListing(listingId: nat, buyerId: string, paymentId: string) returns (error: Option<MarketError>)
      modifies this
      ensures (Snapshot(), error) == Step(old(Snapshot()), Request.BuyListing(listingId, buyerId, paymentId))
      ensures error == if listingId >= |old(listings)| then Some(NotFound)
                       else if old(listings)[listingId].status != ListingActive then Some(NotActive)
                       else if old(listings)[listingId].sellerId == buyerId then Some(OwnListing)
                       else if exists i :: 0 <= i < |old(listings)| && old(listings)[i].paymentId == Some(paymentId) then Some(PaymentUsed)
                       else None
      ensures error.Some? ==> Snapshot() == old(Snapshot())
      ensures error.None? ==>
                var l := old(listings)[listingId];
                && listings == old(listings)[listingId := l.(status := Sold, buyerId := Some(buyerId), paymentId := Some(paymentId))]
                && history == old(history) + [History(l.assetId, buyerId, paymentId)] && |assets| == |old(assets)|
                && (forall a :: 0 <= a < |assets| ==>
                      assets[a] == if a == l.assetId then old(assets)[a].(ownerId := buyerId, status := AssetActive) else old(assets)[a])
    {
      if listingId >= |listings| {
        return Some(NotFound);
      }
      var listing := listings[listingId];
      if listing.status != ListingActive {
        return Some(NotActive);
      }
      if listing.sellerId == buyerId {
        return Some(OwnListing);
      }
      if PaymentKnown(listings, paymentId) {
        return Some(PaymentUsed);
      }
      UpdateAsset(listing.assetId, Some(buyerId), AssetActive);
      history := history + [History(listing.assetId, buyerId, paymentId)];
      listings := listings[listingId := listing.(status := Sold, buyerId := Some(buyerId), paymentId := Some(paymentId))];
      error := None;
    }
  }

  // ---- Invariant ------------------------------------------------------------------------------

  ghost function ActiveFor(a: int): Listing -> int {
    (l: Listing) => if l.assetId == a && l.status == ListingActive then 1 else 0
  }

  ghost function SoldFor(a: int): Listing -> int {
    (l: Listing) => if l.assetId == a && l.status == Sold then 1 else 0
  }

  ghost function HistoryOf(a: int): History -> int {
    (h: History) => if h.assetId == a then 1 else 0
  }

  /** The last recorded owner of asset a. */
  ghost function LastOwner(history: seq<History>, a: int): Option<string> {
    if |history| == 0 then None
    else if history[|history| - 1].assetId == a then Some(history[|history| - 1].toOwnerId)
    else LastOwner(history[..|history| - 1], a)
  }

  ghost predicate References(s: State) {
    && (forall i :: 0 <= i < |s.listings| ==> s.listings[i].assetId < |s.assets|)
    && (forall i :: 0 <= i < |s.history| ==> s.history[i].assetId < |s.assets|)
  }

  /** An asset is on sale iff exactly one active listing names it, and that listing's seller owns it. */
  ghost predicate ListingsMatch(s: State) {
    && (forall a :: 0 <= a < |s.assets| ==> Sum(s.listings, ActiveFor(a)) == if s.assets[a].status == OnSale then 1 else 0)
    && (forall i :: 0 <= i < |s.listings| && s.listings[i].status == ListingActive && s.listings[i].assetId < |s.assets| ==>
          s.assets[s.listings[i].assetId].ownerId == s.listings[i].sellerId)
  }

  /** The owner is the last in the asset's history, which has one entry more than the asset has sales. */
  ghost predicate HistoryMatches(s: State) {
    forall a :: 0 <= a < |s.assets| ==>
      && LastOwner(s.history, a) == Some(s.assets[a].ownerId)
      && Sum(s.history, HistoryOf(a)) == 1 + Sum(s.listings, SoldFor(a))
  }

  /** Consecutive owners of an asset differ. */
  ghost predicate OwnersAlternate(history: seq<History>) {
    forall i :: 0 <= i < |history| ==> LastOwner(history[..i], history[i].assetId) != Some(history[i].toOwnerId)
  }

  ghost predicate PaymentsUnique(listings: seq<Listing>) {
    && (forall i :: 0 <= i < |listings| ==> (listings[i].paymentId.Some? <==> listings[i].status == Sold))
    && (forall i, j :: 0 <= i < j < |listings| && listings[i].status == Sold && listings[j].status == Sold ==>
          listings[i].paymentId != listings[j].paymentId)
  }

  ghost predicate AssetsUnique(assets: seq<Asset>) {
    forall i, j :: 0 <= i < j < |assets| ==> assets[i].slug != assets[j].slug && assets[i].transactionId != assets[j].transactionId
  }

  ghost predicate Inv(s: State) {
    && References(s)
    && ListingsMatch(s)
    && HistoryMatches(s)
    && OwnersAlternate(s.history)
    && PaymentsUnique(s.listings)
    && AssetsUnique(s.assets)
  }

  lemma HistoryAppend(history: seq<History>, h: History)
    ensures forall a: int :: LastOwner(history + [h], a) == if h.assetId == a then Some(h.toOwnerId) else LastOwner(history, a)
    ensures forall a: int :: Sum(history + [h], HistoryOf(a)) == Sum(history, HistoryOf(a)) + if h.assetId == a then 1 else 0
    ensures OwnersAlternate(history) && LastOwner(history, h.assetId) != Some(h.toOwnerId) ==> OwnersAlternate(history + [h])
  {
    var longer := history + [h];
    assert longer[..|history|] == history;
    forall a: int ensures Sum(longer, HistoryOf(a)) == Sum(history, HistoryOf(a)) + if h.assetId == a then 1 else 0 {
      SumAppend(history, h, HistoryOf(a));
    }
    assert forall i :: 0 <= i < |history| ==> longer[..i] == history[..i] && longer[i] == history[i];
  }

  lemma {:induction false} NoHistory(history: seq<History>, a: int)
    requires forall i :: 0 <= i < |history| ==> history[i].assetId != a
    ensures LastOwner(history, a) == None
  {
    if |history| > 0 {
      NoHistory(history[..|history| - 1], a);
    }
  }

  /** An asset not there yet appears in no history and no listing. */
  lemma NewAssetCounts(s: State, a: nat)
    requires References(s) && a == |s.assets|
    ensures (LastOwner(s.history, a), Sum(s.history, HistoryOf(a))) == (None, 0)
    ensures (Sum(s.listings, SoldFor(a)), Sum(s.listings, ActiveFor(a))) == (0, 0)
  {
    NoHistory(s.history, a);
    SumZero(s.history, HistoryOf(a));
    SumZero(s.listings, SoldFor(a));
    SumZero(s.listings, ActiveFor(a));
  }

  lemma ProvisionKeepsHistory(s: State, s': State, asset: Asset)
    requires References(s) && HistoryMatches(s) && OwnersAlternate(s.history)
    requires s'.assets == s.assets + [asset] && s'.listings == s.listings
    requires s'.history == s.history + [History(|s.assets|, asset.ownerId, asset.transactionId)]
    ensures HistoryMatches(s') && OwnersAlternate(s'.history)
  {
    NewAssetCounts(s, |s.assets|);
    HistoryAppend(s.history, History(|s.assets|, asset.ownerId, asset.transactionId));
  }

  lemma ProvisionKeepsListings(s: State, s': State, asset: Asset)
    requires References(s) && ListingsMatch(s) && asset.status == AssetActive
    requires s'.assets == s.assets + [asset] && s'.listings == s.listings
    ensures ListingsMatch(s')
  {
    NewAssetCounts(s, |s.assets|);
  }

  lemma ProvisionKeepsInv(s: State, userId: string, transactionId: string, slug: string)
    requires Inv(s)
    ensures Inv(Step(s, Provision(userId, transactionId, slug)).0)
  {
    var (s', error) := Step(s, Provision(userId, transactionId, slug));
    if error.None? {
      var asset := Asset(userId, AssetActive, transactionId, slug);
      ProvisionKeepsHistory(s, s', asset);
      ProvisionKeepsListings(s, s', asset);
    }
  }

  lemma ClosedCounts(s: State, i: nat, l: Listing)
    requires i < |s.listings|
    ensures forall a: int :: Sum(s.listings[i := l], ActiveFor(a)) == Sum(s.listings, ActiveFor(a)) - ActiveFor(a)(s.listings[i]) + ActiveFor(a)(l)
    ensures forall a: int :: Sum(s.listings[i := l], SoldFor(a)) == Sum(s.listings, SoldFor(a)) - SoldFor(a)(s.listings[i]) + SoldFor(a)(l)
  {
    forall a: int
      ensures Sum(s.listings[i := l], ActiveFor(a)) == Sum(s.listings, ActiveFor(a)) - ActiveFor(a)(s.listings[i]) + ActiveFor(a)(l)
      ensures Sum(s.listings[i := l], SoldFor(a)) == Sum(s.listings, SoldFor(a)) - SoldFor(a)(s.listings[i]) + SoldFor(a)(l)
    {
      SumUpdate(s.listings, i, l, ActiveFor(a));
      SumUpdate(s.listings, i, l, SoldFor(a));
    }
  }

  /** An asset that has an active listing has no other. */
  lemma OnlyActiveListing(s: State, i: nat, j: nat)
    requires Inv(s) && i < |s.listings| && j < |s.listings| && i != j
    requires s.listings[i].status == ListingActive && s.listings[j].status == ListingActive
    ensures s.listings[i].assetId != s.listings[j].assetId
  {
    var a := s.listings[i].assetId;
    if s.listings[j].assetId == a {
      var without := s.listings[i := s.listings[i].(status := ListingCancelled)];
      SumUpdate(s.listings, i, without[i], ActiveFor(a));
      SumAtLeastTerm(without, j, ActiveFor(a));
    }
  }

  lemma CreateKeepsMatch(s: State, s': State, l: Listing)
    requires ListingsMatch(s) && HistoryMatches(s)
    requires l.status == ListingActive && l.assetId < |s.assets| && l.sellerId == s.assets[l.assetId].ownerId
    requires s.assets[l.assetId].status != OnSale
    requires s'.assets == s.assets[l.assetId := s.assets[l.assetId].(status := OnSale)]
    requires s'.listings == s.listings + [l] && s'.history == s.history
    ensures ListingsMatch(s') && HistoryMatches(s')
  {
  }

  lemma CreateKeepsInv(s: State, a: nat, sellerId: string, price: int)
    requires Inv(s)
    ensures Inv(Step(s, CreateListing(a, sellerId, price)).0)
  {
    var (s', error) := Step(s, CreateListing(a, sellerId, price));
    if error.None? {
      CreateKeepsMatch(s, s', Listing(a, sellerId, price, ListingActive, None, None));
    }
  }

  /** Closing active listing l, whatever becomes of its asset's owner, leaves every other listing matched. */
  lemma ClosingKeepsMatch(s: State, s': State, l: nat)
    requires Inv(s) && l < |s.listings| && s.listings[l].status == ListingActive
    requires |s'.listings| == |s.listings| && s'.listings == s.listings[l := s'.listings[l]]
    requires s'.listings[l].assetId == s.listings[l].assetId && s'.listings[l].status != ListingActive
    requires |s'.assets| == |s.assets| && var a := s.listings[l].assetId; s'.assets == s.assets[a := s'.assets[a]]
    requires s'.assets[s.listings[l].assetId].status == AssetActive
    ensures ListingsMatch(s')
  {
    var a := s.listings[l].assetId;
    ClosedCounts(s, l, s'.listings[l]);
    SumAtLeastTerm(s.listings, l, ActiveFor(a));
    forall i: nat | i < |s.listings| && i != l && s.listings[i].status == ListingActive
      ensures s.listings[i].assetId != a
    {
      OnlyActiveListing(s, i, l);
    }
  }

  lemma CancelKeepsHistory(s: State, s': State, l: nat)
    requires HistoryMatches(s) && l < |s.listings| && s.listings[l].status == ListingActive
    requires s'.listings == s.listings[l := s.listings[l].(status := ListingCancelled)] && s'.history == s.history
    requires |s'.assets| == |s.assets| && forall a :: 0 <= a < |s.assets| ==> s'.assets[a].ownerId == s.assets[a].ownerId
    ensures HistoryMatches(s')
  {
    ClosedCounts(s, l, s'.listings[l]);
  }

  lemma CancelKeepsInv(s: State, l: nat, sellerId: string)
    requires Inv(s)
    ensures Inv(Step(s, CancelListing(l, sellerId)).0)
  {
    if Step(s, CancelListing(l, sellerId)).1.None? {
      var s' := Step(s, CancelListing(l, sellerId)).0;
      ClosingKeepsMatch(s, s', l);
      CancelKeepsHistory(s, s', l);
    }
  }

  lemma BuyKeepsHistory(s: State, s': State, l: nat, buyerId: string, paymentId: string)
    requires Inv(s) && Step(s, BuyListing(l, buyerId, paymentId)) == (s', None)
    ensures HistoryMatches(s') && OwnersAlternate(s'.history)
  {
    ClosedCounts(s, l, s'.listings[l]);
    HistoryAppend(s.history, History(s.listings[l].assetId, buyerId, paymentId));
  }

  lemma BuyKeepsInv(s: State, l: nat, buyerId: string, paymentId: string)
    requires Inv(s)
    ensures Inv(Step(s, BuyListing(l, buyerId, paymentId)).0)
  {
    if Step(s, BuyListing(l, buyerId, paymentId)).1.None? {
      var s' := Step(s, BuyListing(l, buyerId, paymentId)).0;
      ClosingKeepsMatch(s, s', l);
      BuyKeepsHistory(s, s', l, buyerId, paymentId);
    }
  }

  /**
   Over every run: an asset is on sale iff exactly one active listing names it, and its seller is the owner; the owner is
   the last of the asset's history, in which consecutive owners differ and which has one entry per sale after
   the first; sold listings have distinct payments.
   */
  lemma {:induction false} RunKeepsInv(rs: seq<Request>)
    ensures Inv(Run(rs))
  {
    if |rs| > 0 {
      var s := Run(rs[..|rs| - 1]);
      RunKeepsInv(rs[..|rs| - 1]);
      match rs[|rs| - 1]
      case Provision(u, t, g) => ProvisionKeepsInv(s, u, t, g);
      case CreateListing(a, u, p) => CreateKeepsInv(s, a, u, p);
      case CancelListing(l, u) => CancelKeepsInv(s, l, u);
      case BuyListing(l, b, p) => BuyKeepsInv(s, l, b, p);
    }
  }

  /** A payment buys at most one asset, and whoever buys becomes the owner on record. */
  lemma PurchaseTransfers(rs: seq<Request>, l: nat, buyerId: string, paymentId: string)
    ensures var s := Run(rs);
            var (s', error) := Step(s, BuyListing(l, buyerId, paymentId));
            error.None? <==>
              && l < |s.listings| && s.listings[l].status == ListingActive && !PaymentKnown(s.listings, paymentId)
              && s.listings[l].assetId < |s.assets| && s.assets[s.listings[l].assetId].ownerId != buyerId
    ensures var s := Run(rs);
            var (s', error) := Step(s, BuyListing(l, buyerId, paymentId));
            error.None? ==>
              && s.listings[l].assetId < |s'.assets|
              && s'.assets[s.listings[l].assetId].ownerId == buyerId
              && Sum(s'.listings, ActiveFor(s.listings[l].assetId)) == 0
              && Step(s', BuyListing(l, s.listings[l].sellerId, paymentId)).1.Some?
  {
    RunKeepsInv(rs);
    BuyKeepsInv(Run(rs), l, buyerId, paymentId);
  }

  /**
   What becomes of a listing in a step: its asset, seller and price stay for ever; it leaves Active only by its seller's
   cancellation or by a purchase, and once it has left, nothing about it changes.
   */
  ghost predicate ListingKept(before: Listing, after: Listing, l: nat, r: Request) {
    && (after.assetId, after.sellerId, after.price) == (before.assetId, before.sellerId, before.price)
    && (after != before ==>
          && before.status == ListingActive
          && match r
             case CancelListing(x, who) => x == l && who == before.sellerId && after.status == ListingCancelled
             case BuyListing(x, who, payment) =>
               x == l && who != before.sellerId && after.status == Sold && after.buyerId == Some(who) && after.paymentId == Some(payment)
             case _ => false)
  }

  lemma StepKeepsListing(s: State, r: Request, l: nat)
    requires l < |s.listings|
    ensures l < |Step(s, r).0.listings| && ListingKept(s.listings[l], Step(s, r).0.listings[l], l, r)
  {
  }

  /** So over any further requests a listing keeps its asset, seller and price, and one that is closed stays as it is. */
  lemma {:induction false} ListingTermsStay(rs: seq<Request>, k: nat, l: nat)
    requires k <= |rs| && l < |Run(rs[..k]).listings|
    ensures l < |Run(rs).listings|
    ensures var was, now := Run(rs[..k]).listings[l], Run(rs).listings[l];
            && (now.assetId, now.sellerId, now.price) == (was.assetId, was.sellerId, was.price)
            && (was.status != ListingActive ==> now == was)
  {
    if k == |rs| {
      assert rs[..k] == rs;
    } else {
      var rest := rs[..|rs| - 1];
      assert rest[..k] == rs[..k];
      ListingTermsStay(rest, k, l);
      StepKeepsListing(Run(rest), rs[|rs| - 1], l);
    }
  }
}
