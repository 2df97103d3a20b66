/**
 Orders and product stock (order.service.ts, behind order.controller.ts).  Each operation is one atomic step; ids are
 indices; prices are scaled integers.
 */
module Orders {
  import opened Prelude

  datatype OrderStatus = Pending | Paid | Cancelled

  datatype Product = Product(price: int, currency: string, stock: int, active: bool)

  datatype ItemRequest = ItemRequest(productId: nat, quantity: int)

  datatype Item = Item(productId: nat, quantity: int, price: int)

  datatype Order = Order(
    buyerId: string,
    status: OrderStatus,
    total: int,
    currency: string,
    paymentId: Option<string>,
    items: seq<Item>,
    timeline: seq<OrderStatus>)

  datatype State = State(products: seq<Product>, orders: seq<Order>)

  datatype OrderError =
    | BadRequest
    | NoItems
    | ProductsMissing
    | InsufficientStock
    | OrderNotFound
    | NotPending(status: OrderStatus)
    | PaymentUsed

  datatype Request =
    | CreateOrder(buyerId: string, items: seq<ItemRequest>, lead: nat)
    | Checkout(orderId: nat, paymentId: string)
    | CancelOrder(orderId: nat, buyerId: string)

  // ---- Specification --------------------------------------------------------------------------

  function ProductIds(items: seq<ItemRequest>): seq<nat> {
    seq(|items|, i requires 0 <= i < |items| => items[i].productId)
  }

  /** findMany: the active products among the requested ids; a repeated id is found once. */
  function FoundIds(ps: seq<Product>, items: seq<ItemRequest>): set<nat> {
    set id | id in ProductIds(items) && id < |ps| && ps[id].active
  }

  ghost predicate AllInStock(ps: seq<Product>, items: seq<ItemRequest>) {
    forall i :: 0 <= i < |items| ==> items[i].productId < |ps| && ps[items[i].productId].stock >= items[i].quantity
  }

  function PriceAt(ps: seq<Product>, id: nat): int {
    if id < |ps| then ps[id].price else 0
  }

  function Snapshots(ps: seq<Product>, items: seq<ItemRequest>): seq<Item> {
    seq(|items|, i requires 0 <= i < |items| => Item(items[i].productId, items[i].quantity, PriceAt(ps, items[i].productId)))
  }

  ghost function ItemCost(): Item -> int {
    (i: Item) => i.price * i.quantity
  }

  /** What a request costs at the prices of these products. */
  ghost function CostOf(ps: seq<Product>): ItemRequest -> int {
    (r: ItemRequest) => if r.productId < |ps| then ps[r.productId].price * r.quantity else 0
  }


  function AddStock(ps: seq<Product>, id: nat, delta: int): seq<Product> {
    if id < |ps| then ps[id := ps[id].(stock := ps[id].stock + delta)] else ps
  }

  /** Every item's quantity, times sign, added to its product's stock. */
  function MoveStock(ps: seq<Product>, items: seq<Item>, sign: int): seq<Product> {
    if |items| == 0 then ps
    else
      var last := items[|items| - 1];
      AddStock(MoveStock(ps, items[..|items| - 1], sign), last.productId, sign * last.quantity)
  }

  /** The item whose product the query happens to return first: the order takes its currency. */
  function Lead(items: seq<ItemRequest>, lead: nat): ItemRequest
    requires |items| > 0
  {
    items[if lead < |items| then lead else 0]
  }

  ghost predicate CanCreate(ps: seq<Product>, items: seq<ItemRequest>) {
    |items| > 0 && |FoundIds(ps, items)| == |items| && AllInStock(ps, items)
  }

  predicate PaymentKnown(orders: seq<Order>, paymentId: string, except: nat) {
    exists i :: 0 <= i < |orders| && i != except && orders[i].paymentId == Some(paymentId)
  }

  ghost function Step(s: State, r: Request): State {
    match r
    case CreateOrder(buyerId, items, lead) =>
      if !CanCreate(s.products, items) then s
      else
        var snapshots := Snapshots(s.products, items);
        State(MoveStock(s.products, snapshots, -1),
              s.orders + [Order(buyerId, Pending, Sum(snapshots, ItemCost()), s.products[Lead(items, lead).productId].currency, None,
                                snapshots, [Pending])])
    case Checkout(id, paymentId) =>
      if paymentId == "" || id >= |s.orders| || s.orders[id].status != Pending || PaymentKnown(s.orders, paymentId, id) then s
      else
        s.(orders := s.orders[id := s.orders[id].(status := Paid, paymentId := Some(paymentId), timeline := s.orders[id].timeline + [Paid])])
    case CancelOrder(id, buyerId) =>
      if buyerId == "" || id >= |s.orders| || s.orders[id].buyerId != buyerId || s.orders[id].status != Pending then s
      else
        State(MoveStock(s.products, s.orders[id].items, 1),
              s.orders[id := s.orders[id].(status := Cancelled, timeline := s.orders[id].timeline + [Cancelled])])
  }

  ghost function Exec(s: State, rs: seq<Request>): State {
    if |rs| == 0 then s else Step(Exec(s, rs[..|rs| - 1]), rs[|rs| - 1])
  }

  // ---- The operations -------------------------------------------------------------------------

  class OrdersService {
    var products: seq<Product>
    var orders: seq<Order>

    function Snapshot(): State
      reads this
    {
      State(products, orders)
    }

    constructor (products: seq<Product>)
      ensures Snapshot() == State(products, [])
    {
      this.products, orders := products, [];
    }

    method UpdateStock(id: nat, delta: int)
      modifies this`products
      ensures products == AddStock(old(products), id, delta)
    {
      if id < |products| {
        products := products[id := products[id].(stock := products[id].stock + delta)];
      }
    }

    /** The stock check: every item is asked for in turn. */
    method CheckStock(items: seq<ItemRequest>) returns (ok: bool)
      requires AllActive(products, items)
      ensures ok <==> AllInStock(products, items)
    {
      for i := 0 to |items|
        invariant AllInStock(products, items[..i])
      {
        if products[items[i].productId].stock < items[i].quantity {
          return false;
        }
      }
      ok := true;
    }

    /** The reduce over the items. */
    method ComputeTotal(items: seq<ItemRequest>) returns (total: int)
      requires AllActive(products, items)
      ensures total == Sum(items, CostOf(products))
    {
      total := 0;
      for i := 0 to |items|
        invariant total == Sum(items[..i], CostOf(products))
      {
        assert items[..i + 1][..i] == items[..i];
        total := total + products[items[i].productId].price * items[i].quantity;
      }
      assert items[..|items|] == items;
    }

    /** One update per item: decrement on create (sign -1), increment on cancel (sign 1). */
    method UpdateStocks(items: seq<Item>, sign: int)
      modifies this`products
      ensures products == MoveStock(old(products), items, sign)
      ensures sign == 1 || sign == -1 ==>
                && |products| == |old(products)|
                && forall p :: 0 <= p < |products| ==>
                     products[p] == old(products)[p].(stock := old(products)[p].stock + sign * Sum(items, QuantityOf(p)))
    {
      if sign == 1 || sign == -1 {
        MoveStockAt(products, items, sign);
      }
      for i := 0 to |items|
        invariant products == MoveStock(old(products), items[..i], sign)
      {
        assert items[..i + 1][..i] == items[..i];
        UpdateStock(items[i].productId, sign * items[i].quantity);
      }
      assert items[..|items|] == items;
    }

    method CreateOrder(buyerId: string, items: seq<ItemRequest>, lead: nat) returns (error: Option<OrderError>)
      modifies this
      ensures Snapshot() == if buyerId == "" then old(Snapshot()) else Step(old(Snapshot()), Request.CreateOrder(buyerId, items, lead))
      ensures error == if buyerId == "" then Some(BadRequest)
                       else if |items| == 0 then Some(NoItems)
                       else if !(DistinctIds(items) && AllActive(old(products), items)) then Some(ProductsMissing)
                       else if exists i :: 0 <= i < |items| && old(products)[items[i].productId].stock < items[i].quantity
                       then Some(InsufficientStock)
                       else None
      ensures error.Some? ==> Snapshot() == old(Snapshot())
      ensures error.None? ==> Placed(old(products), items, buyerId, old(orders), orders) && Taken(old(products), items, products)
    {
      CountCheck(products, items);
      if buyerId != "" && CanCreate(products, items) {
        CreateDoes(Snapshot(), buyerId, items, lead);
      }
      if buyerId == "" {
        return Some(BadRequest);
      }
      if |items| == 0 {
        return Some(NoItems);
      }
      if |FoundIds(products, items)| != |items| {
        return Some(ProductsMissing);
      }
      var enough := CheckStock(items);
      if !enough {
        return Some(InsufficientStock);
      }
      var total := ComputeTotal(items);
      var created := Snapshots(products, items);
      SnapshotsCost(products, items);
      orders := orders + [Order(buyerId, Pending, total, products[Lead(items, lead).productId].currency, None, created, [Pending])];
      UpdateStocks(created, -1);
      error := None;
    }

    method Checkout(orderId: nat, paymentId: string) returns (error: Option<OrderError>)
      modifies this
      ensures Snapshot() == Step(old(Snapshot()), Request.Checkout(orderId, paymentId))
      ensures error == if paymentId == "" then Some(BadRequest)
                       else if orderId >= |old(orders)| then Some(OrderNotFound)
                       else if old(orders)[orderId].status != Pending then Some(NotPending(old(orders)[orderId].status))
                       else if exists i :: 0 <= i < |old(orders)| && i != orderId && old(orders)[i].paymentId == Some(paymentId)
                       then Some(PaymentUsed)
                       else None
      ensures products == old(products)
      ensures error.Some? ==> orders == old(orders)
      ensures error.None? ==>
                var o := old(orders)[orderId];
                orders == old(orders)[orderId := o.(status := Paid, paymentId := Some(paymentId), timeline := o.timeline + [Paid])]
    {
      if paymentId == "" {
        return Some(BadRequest);
      }
      if orderId >= |orders| {
        return Some(OrderNotFound);
      }
      var order := orders[orderId];
      if order.status != Pending {
        return Some(NotPending(order.status));
      }
      if PaymentKnown(orders, paymentId, orderId) {
        return Some(PaymentUsed);
      }
      orders := orders[orderId := order.(status := Paid, paymentId := Some(paymentId), timeline := order.timeline + [Paid])];
      error := None;
    }

    method CancelOrder(orderId: nat, buyerId: string) returns (error: Option<OrderError>)
      modifies this
      ensures Snapshot() == Step(old(Snapshot()), Request.CancelOrder(orderId, buyerId))
      ensures error == if buyerId == "" then Some(BadRequest)
                       else if orderId >= |old(orders)| || old(orders)[orderId].buyerId != buyerId then Some(OrderNotFound)
                       else if old(orders)[orderId].status != Pending then Some(NotPending(old(orders)[orderId].status))
                       else None
      ensures error.Some? ==> Snapshot() == old(Snapshot())
      ensures error.None? ==>
                var o := old(orders)[orderId];
                && orders == old(orders)[orderId := o.(status := Cancelled, timeline := o.timeline + [Cancelled])]
                && |products| == |old(products)|
                && forall p :: 0 <= p < |products| ==>
                     products[p] == old(products)[p].(stock := old(products)[p].stock + Sum(o.items, QuantityOf(p)))
    {
      if buyerId == "" {
        return Some(BadRequest);
      }
      if orderId >= |orders| {
        return Some(OrderNotFound);
      }
      var order := orders[orderId];
      if order.buyerId != buyerId {
        return Some(OrderNotFound);
      }
      if order.status != Pending {
        return Some(NotPending(order.status));
      }
      orders := orders[orderId := order.(status := Cancelled, timeline := order.timeline + [Cancelled])];
      UpdateStocks(order.items, 1);
      error := None;
    }
  }

  // ---- What a created order is -----------------------------------------------------------------

  /** One order more: the buyer's, Pending, with the requested items at the products' prices, and their total. */
  ghost predicate Placed(ps: seq<Product>, items: seq<ItemRequest>, buyerId: string, before: seq<Order>, after: seq<Order>) {
    && |after| == |before| + 1 && after[..|before|] == before
    && var o := after[|before|];
       && o.buyerId == buyerId && o.status == Pending && o.paymentId == None && o.timeline == [Pending]
       && o.total == Sum(items, CostOf(ps))
       && |o.items| == |items|
       && (forall i :: 0 <= i < |items| ==>
             && o.items[i].productId == items[i].productId < |ps|
             && o.items[i].quantity == items[i].quantity && o.items[i].price == ps[items[i].productId].price)
       && exists i :: 0 <= i < |items| && items[i].productId < |ps| && o.currency == ps[items[i].productId].currency
  }

  /** The requested quantities have left the stock, and nothing else has changed. */
  ghost predicate Taken(ps: seq<Product>, items: seq<ItemRequest>, after: seq<Product>) {
    && |after| == |ps|
    && (forall i :: 0 <= i < |items| && items[i].productId < |ps| ==>
          var p := items[i].productId; after[p] == ps[p].(stock := ps[p].stock - items[i].quantity))
    && forall p :: 0 <= p < |ps| && (forall i :: 0 <= i < |items| ==> items[i].productId != p) ==> after[p] == ps[p]
  }

  /** The cost of some requests is that of all but the last and price times quantity of the last. */
  lemma CostsAddUp(ps: seq<Product>, items: seq<ItemRequest>, last: ItemRequest)
    requires last.productId < |ps|
    ensures Sum(items + [last], CostOf(ps)) == Sum(items, CostOf(ps)) + ps[last.productId].price * last.quantity
    ensures Sum([], CostOf(ps)) == 0
  {
    SumAppend(items, last, CostOf(ps));
  }

  lemma {:induction false} SnapshotsCost(ps: seq<Product>, items: seq<ItemRequest>)
    ensures Sum(Snapshots(ps, items), ItemCost()) == Sum(items, CostOf(ps))
  {
    if |items| > 0 {
      SnapshotsCost(ps, items[..|items| - 1]);
      assert Snapshots(ps, items)[..|items| - 1] == Snapshots(ps, items[..|items| - 1]);
    }
  }

  lemma MoveTakes(ps: seq<Product>, items: seq<ItemRequest>)
    requires DistinctIds(items) && AllActive(ps, items)
    ensures Taken(ps, items, MoveStock(ps, Snapshots(ps, items), -1))
  {
    var snapshots := Snapshots(ps, items);
    MoveStockAt(ps, snapshots, -1);
    forall i | 0 <= i < |items| ensures Sum(snapshots, QuantityOf(items[i].productId)) == items[i].quantity {
      SingleItemSum(snapshots, i);
    }
    forall p | 0 <= p < |ps| && (forall i :: 0 <= i < |items| ==> items[i].productId != p) ensures Sum(snapshots, QuantityOf(p)) == 0 {
      SumZero(snapshots, QuantityOf(p));
    }
  }

  /** An accepted order costs the sum of price times quantity, keeps its items' prices, and takes its quantities from stock. */
  lemma CreateDoes(s: State, buyerId: string, items: seq<ItemRequest>, lead: nat)
    requires |items| > 0 && DistinctIds(items) && AllActive(s.products, items)
    requires forall i :: 0 <= i < |items| ==> s.products[items[i].productId].stock >= items[i].quantity
    ensures var s' := Step(s, CreateOrder(buyerId, items, lead));
            Placed(s.products, items, buyerId, s.orders, s'.orders) && Taken(s.products, items, s'.products)
  {
    var s' := Step(s, CreateOrder(buyerId, items, lead));
    CountCheck(s.products, items);
    SnapshotsCost(s.products, items);
    MoveTakes(s.products, items);
    assert s'.orders[..|s.orders|] == s.orders;
    assert s'.orders[|s.orders|].currency == s.products[items[if lead < |items| then lead else 0].productId].currency;
  }

  // ---- The count check ------------------------------------------------------------------------

  ghost predicate DistinctIds(items: seq<ItemRequest>) {
    forall i, j :: 0 <= i < j < |items| ==> items[i].productId != items[j].productId
  }

  ghost predicate AllActive(ps: seq<Product>, items: seq<ItemRequest>) {
    forall i :: 0 <= i < |items| ==> items[i].productId < |ps| && ps[items[i].productId].active
  }

  lemma DistinctIdsSplit(rest: seq<ItemRequest>, last: ItemRequest)
    ensures DistinctIds(rest + [last]) <==> DistinctIds(rest) && last.productId !in ProductIds(rest)
  {
    var items := rest + [last];
    assert forall i :: 0 <= i < |rest| ==> items[i] == rest[i] && ProductIds(rest)[i] == rest[i].productId;
    if last.productId in ProductIds(rest) {
      var i :| 0 <= i < |rest| && ProductIds(rest)[i] == last.productId;
      assert items[i].productId == items[|rest|].productId;
    } else {
      forall i | 0 <= i < |rest| ensures items[i].productId != last.productId {
        assert ProductIds(rest)[i] in ProductIds(rest);
      }
    }
    if !DistinctIds(rest) {
      var i, j :| 0 <= i < j < |rest| && rest[i].productId == rest[j].productId;
      assert items[i].productId == items[j].productId;
    }
  }

  lemma FoundIdsSplit(ps: seq<Product>, rest: seq<ItemRequest>, last: ItemRequest)
    ensures FoundIds(ps, rest + [last])
            == FoundIds(ps, rest) + if last.productId < |ps| && ps[last.productId].active then {last.productId} else {}
  {
    assert ProductIds(rest + [last]) == ProductIds(rest) + [last.productId];
  }

  lemma AllActiveSplit(ps: seq<Product>, rest: seq<ItemRequest>, last: ItemRequest)
    ensures AllActive(ps, rest + [last]) <==> AllActive(ps, rest) && last.productId < |ps| && ps[last.productId].active
  {
    var items := rest + [last];
    assert items[|rest|] == last;
    assert forall i :: 0 <= i < |rest| ==> items[i] == rest[i];
  }

  lemma AddOne(found: set<nat>, id: nat, known: bool, n: nat)
    requires |found| <= n && (id in found <==> known)
    ensures |found + {id}| <= n + 1
    ensures |found + {id}| == n + 1 <==> |found| == n && !known
  {
    if known {
      assert found + {id} == found;
    }
  }

  lemma {:induction false} FoundAtMost(ps: seq<Product>, items: seq<ItemRequest>)
    ensures |FoundIds(ps, items)| <= |items|
    ensures |FoundIds(ps, items)| == |items| <==> DistinctIds(items) && AllActive(ps, items)
  {
    if |items| == 0 {
      assert FoundIds(ps, items) == {};
    } else {
      var rest, last := items[..|items| - 1], items[|items| - 1];
      assert items == rest + [last];
      FoundAtMost(ps, rest);
      FoundIdsSplit(ps, rest, last);
      DistinctIdsSplit(rest, last);
      AllActiveSplit(ps, rest, last);
      var active := last.productId < |ps| && ps[last.productId].active;
      if active {
        AddOne(FoundIds(ps, rest), last.productId, last.productId in ProductIds(rest), |rest|);
      } else {
        assert FoundIds(ps, rest) + {} == FoundIds(ps, rest);
      }
    }
  }

  /** Comparing the number of products found with the number requested rejects exactly the missing, the inactive and the repeated ids. */
  lemma CountCheck(ps: seq<Product>, items: seq<ItemRequest>)
    ensures |FoundIds(ps, items)| == |items| <==> DistinctIds(items) && AllActive(ps, items)
  {
    FoundAtMost(ps, items);
  }

  // ---- Stock conservation ---------------------------------------------------------------------

  ghost function QuantityOf(p: int): Item -> int {
    (i: Item) => if i.productId == p then i.quantity else 0
  }

  ghost function Reserved(p: int): Order -> int {
    (o: Order) => if o.status == Cancelled then 0 else Sum(o.items, QuantityOf(p))
  }

  lemma {:induction false} MoveStockAt(ps: seq<Product>, items: seq<Item>, sign: int)
    requires sign == 1 || sign == -1
    ensures |MoveStock(ps, items, sign)| == |ps|
    ensures forall p :: 0 <= p < |ps| ==>
              MoveStock(ps, items, sign)[p] == ps[p].(stock := ps[p].stock + sign * Sum(items, QuantityOf(p)))
  {
    if |items| > 0 {
      MoveStockAt(ps, items[..|items| - 1], sign);
    }
  }

  ghost function Held(s: State, p: nat): int
    requires p < |s.products|
  {
    s.products[p].stock + Sum(s.orders, Reserved(p))
  }

  lemma StepConserves(s: State, r: Request)
    ensures |Step(s, r).products| == |s.products|
    ensures forall p: nat :: p < |s.products| ==> Held(Step(s, r), p) == Held(s, p)
  {
    var s' := Step(s, r);
    match r
    case CreateOrder(buyerId, items, lead) =>
      var snapshots := Snapshots(s.products, items);
      MoveStockAt(s.products, snapshots, -1);
      if s' != s {
        forall p: nat | p < |s.products| ensures Held(s', p) == Held(s, p) {
          SumAppend(s.orders, s'.orders[|s.orders|], Reserved(p));
        }
      }
    case Checkout(id, paymentId) =>
      forall p: nat | p < |s.products| && s' != s ensures Held(s', p) == Held(s, p) {
        SumUpdate(s.orders, id, s'.orders[id], Reserved(p));
      }
    case CancelOrder(id, buyerId) =>
      if s' != s && id < |s.orders| {
        MoveStockAt(s.products, s.orders[id].items, 1);
        forall p: nat | p < |s.products| ensures Held(s', p) == Held(s, p) {
          SumUpdate(s.orders, id, s'.orders[id], Reserved(p));
        }
      }
  }

  /** For every product, stock plus the quantities of the orders that are not cancelled is the same after any run. */
  lemma {:induction false} StockIsConserved(s: State, rs: seq<Request>)
    ensures |Exec(s, rs).products| == |s.products|
    ensures forall p: nat :: p < |s.products| ==> Held(Exec(s, rs), p) == Held(s, p)
  {
    if |rs| > 0 {
      StockIsConserved(s, rs[..|rs| - 1]);
      StepConserves(Exec(s, rs[..|rs| - 1]), rs[|rs| - 1]);
    }
  }

  // ---- Orders ---------------------------------------------------------------------------------

  ghost predicate OrderInv(o: Order) {
    && o.total == Sum(o.items, ItemCost())
    && |o.timeline| > 0 && o.timeline[|o.timeline| - 1] == o.status
    && (o.paymentId.Some? <==> o.status == Paid)
  }

  ghost predicate OrdersInv(orders: seq<Order>) {
    && (forall i :: 0 <= i < |orders| ==> OrderInv(orders[i]))
    && (forall i, j :: 0 <= i < j < |orders| && orders[i].status == Paid && orders[j].status == Paid ==>
          orders[i].paymentId != orders[j].paymentId)
  }

  /** In every run each payment belongs to at most one order, exactly the paid ones have one, and the last timeline entry is the status. */
  lemma {:induction false} RunKeepsOrders(ps: seq<Product>, rs: seq<Request>)
    ensures OrdersInv(Exec(State(ps, []), rs).orders)
  {
    if |rs| > 0 {
      RunKeepsOrders(ps, rs[..|rs| - 1]);
    }
  }

  // ---- Stock never negative -------------------------------------------------------------------

  predicate NonNegativeRequest(r: Request) {
    r.CreateOrder? ==> forall i :: 0 <= i < |r.items| ==> r.items[i].quantity >= 0
  }

  ghost predicate StockNonNegative(s: State) {
    forall p :: 0 <= p < |s.products| ==> s.products[p].stock >= 0
  }

  ghost predicate QuantitiesNonNegative(s: State) {
    forall o, i :: 0 <= o < |s.orders| && 0 <= i < |s.orders[o].items| ==> s.orders[o].items[i].quantity >= 0
  }

  /** With distinct ids, an order takes from a product what its one item for it asks, or nothing. */
  lemma {:induction false} DistinctTakeOnce(items: seq<Item>, p: int, stock: int)
    requires forall i, j :: 0 <= i < j < |items| ==> items[i].productId != items[j].productId
    requires forall i :: 0 <= i < |items| && items[i].productId == p ==> items[i].quantity <= stock
    requires stock >= 0
    ensures Sum(items, QuantityOf(p)) <= stock
  {
    if |items| > 0 {
      var last := items[|items| - 1];
      if last.productId == p {
        SumZero(items[..|items| - 1], QuantityOf(p));
      } else {
        DistinctTakeOnce(items[..|items| - 1], p, stock);
      }
    }
  }

  lemma CreateKeepsStock(s: State, buyerId: string, items: seq<ItemRequest>, lead: nat)
    requires StockNonNegative(s)
    ensures StockNonNegative(Step(s, CreateOrder(buyerId, items, lead)))
  {
    if CanCreate(s.products, items) {
      var snapshots := Snapshots(s.products, items);
      CountCheck(s.products, items);
      MoveStockAt(s.products, snapshots, -1);
      forall p | 0 <= p < |s.products| ensures Sum(snapshots, QuantityOf(p)) <= s.products[p].stock {
        DistinctTakeOnce(snapshots, p, s.products[p].stock);
      }
    }
  }

  lemma StepKeepsStock(s: State, r: Request)
    requires StockNonNegative(s) && QuantitiesNonNegative(s) && NonNegativeRequest(r)
    ensures StockNonNegative(Step(s, r)) && QuantitiesNonNegative(Step(s, r))
  {
    match r
    case CreateOrder(buyerId, items, lead) => CreateKeepsStock(s, buyerId, items, lead);
    case Checkout(_, _) =>
    case CancelOrder(id, buyerId) =>
      if Step(s, r) != s {
        MoveStockAt(s.products, s.orders[id].items, 1);
        forall p | 0 <= p < |s.products| ensures Sum(s.orders[id].items, QuantityOf(p)) >= 0 {
          SumNonNegative(s.orders[id].items, QuantityOf(p));
        }
      }
  }

  lemma {:induction false} RunKeepsStock(s: State, rs: seq<Request>)
    requires StockNonNegative(s) && QuantitiesNonNegative(s)
    requires forall i :: 0 <= i < |rs| ==> NonNegativeRequest(rs[i])
    ensures StockNonNegative(Exec(s, rs)) && QuantitiesNonNegative(Exec(s, rs))
  {
    if |rs| > 0 {
      RunKeepsStock(s, rs[..|rs| - 1]);
      StepKeepsStock(Exec(s, rs[..|rs| - 1]), rs[|rs| - 1]);
    }
  }

  /** Every continuation by non-negative requests leaves stock non-negative. */
  ghost predicate SafeAfter(s: State) {
    forall rs :: (forall i :: 0 <= i < |rs| ==> NonNegativeRequest(rs[i])) ==> StockNonNegative(Exec(s, rs))
  }

  /**
   The service does not check quantities.  From a state with non-negative stock and orders, an accepted order is safe -
   stock can never become negative afterwards - if and only if none of its quantities is negative.
   */
  lemma SafeIffQuantitiesNonNegative(s: State, buyerId: string, items: seq<ItemRequest>, lead: nat)
    requires StockNonNegative(s) && QuantitiesNonNegative(s) && buyerId != "" && CanCreate(s.products, items)
    ensures SafeAfter(Step(s, CreateOrder(buyerId, items, lead))) <==> NonNegativeRequest(CreateOrder(buyerId, items, lead))
  {
    var r := CreateOrder(buyerId, items, lead);
    var s1 := Step(s, r);
    if NonNegativeRequest(r) {
      StepKeepsStock(s, r);
      forall rs | forall i :: 0 <= i < |rs| ==> NonNegativeRequest(rs[i]) ensures StockNonNegative(Exec(s1, rs)) {
        RunKeepsStock(s1, rs);
      }
    } else {
      var k :| 0 <= k < |items| && items[k].quantity < 0;
      BuyOutThenCancel(s, buyerId, items, lead, k);
    }
  }

  lemma SingleItemSum(items: seq<Item>, k: nat)
    requires k < |items|
    requires forall i, j :: 0 <= i < j < |items| ==> items[i].productId != items[j].productId
    ensures Sum(items, QuantityOf(items[k].productId)) == items[k].quantity
  {
    var p := items[k].productId;
    var zeroed := items[k := items[k].(quantity := 0)];
    SumUpdate(items, k, zeroed[k], QuantityOf(p));
    SumZero(zeroed, QuantityOf(p));
  }

  /** The run that shows it: sell the product out, then cancel the order with the negative quantity. */
  lemma BuyOutThenCancel(s: State, buyerId: string, items: seq<ItemRequest>, lead: nat, k: nat)
    requires StockNonNegative(s) && buyerId != "" && CanCreate(s.products, items) && k < |items| && items[k].quantity < 0
    ensures !SafeAfter(Step(s, CreateOrder(buyerId, items, lead)))
  {
    var s1 := Step(s, CreateOrder(buyerId, items, lead));
    var snapshots := Snapshots(s.products, items);
    var p := items[k].productId;
    CountCheck(s.products, items);
    MoveStockAt(s.products, snapshots, -1);
    SingleItemSum(snapshots, k);
    assert s1.products[p].stock == s.products[p].stock - items[k].quantity;
    var buyOut := CreateOrder(buyerId, [ItemRequest(p, s1.products[p].stock)], 0);
    var s2 := Step(s1, buyOut);
    SoldOut(s1, buyerId, p);
    assert s2.orders[|s.orders|] == s1.orders[|s.orders|];
    CancelTakesBack(s2, |s.orders|, buyerId, k);
    TwoSteps(s1, buyOut, CancelOrder(|s.orders|, buyerId));
  }

  lemma TwoSteps(s: State, a: Request, b: Request)
    requires NonNegativeRequest(a) && NonNegativeRequest(b) && !StockNonNegative(Step(Step(s, a), b))
    ensures !SafeAfter(s)
  {
    var rs := [a, b];
    assert rs[..1] == [a];
    assert Exec(s, [a]) == Step(Exec(s, [a][..0]), a);
    assert !StockNonNegative(Exec(s, rs));
  }

  lemma CancelTakesBack(s: State, id: nat, buyerId: string, k: nat)
    requires id < |s.orders| && buyerId != "" && s.orders[id].buyerId == buyerId && s.orders[id].status == Pending
    requires k < |s.orders[id].items| && s.orders[id].items[k].quantity < 0
    requires var items := s.orders[id].items; forall i, j :: 0 <= i < j < |items| ==> items[i].productId != items[j].productId
    requires s.orders[id].items[k].productId < |s.products| && s.products[s.orders[id].items[k].productId].stock == 0
    ensures !StockNonNegative(Step(s, CancelOrder(id, buyerId)))
  {
    var items := s.orders[id].items;
    MoveStockAt(s.products, items, 1);
    SingleItemSum(items, k);
    assert Step(s, CancelOrder(id, buyerId)).products[items[k].productId].stock < 0;
  }

  /** Ordering all that is left of a product leaves none. */
  lemma SoldOut(s: State, buyerId: string, p: nat)
    requires p < |s.products| && s.products[p].active && s.products[p].stock >= 0
    ensures var s' := Step(s, CreateOrder(buyerId, [ItemRequest(p, s.products[p].stock)], 0));
            p < |s'.products| && s'.products[p].stock == 0 && exists o :: s'.orders == s.orders + [o]
  {
    var all := [ItemRequest(p, s.products[p].stock)];
    CountCheck(s.products, all);
    var snapshots := Snapshots(s.products, all);
    MoveStockAt(s.products, snapshots, -1);
    SingleItemSum(snapshots, 0);
  }
}
