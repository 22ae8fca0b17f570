/**
 * Value types of the matching core: sides, limit orders, replace requests,
 * trade records and the price-priority relation that orders a book side.
 */
module Orders {

  datatype Side = Buy | Sell

  function Opposite(side: Side): Side {
    if side == Buy then Sell else Buy
  }

  /** A limit order: its side, remaining quantity, limit price and its identity
      (client id, order id), in the order the constructor takes them. */
  datatype Order = Order(side: Side, qty: nat, price: int, clientId: nat, orderId: nat)

  /** A request to replace the resting order (clientId, oldOrderId) on `side` by a new
      order (clientId, newOrderId) with quantity `qty` at `price`. */
  datatype OrderReplace = OrderReplace(side: Side, qty: nat, price: int, clientId: nat, newOrderId: nat, oldOrderId: nat)

  /** A trade record: price, traded quantity, then the sell order's and the buy order's identities. */
  datatype Deal = Deal(price: int, qty: nat, sellOrderId: nat, sellClientId: nat, buyOrderId: nat, buyClientId: nat)

  /** One entry of the aggregated view: number of orders, total quantity, price. */
  datatype Level = Level(count: nat, total: nat, price: int)

  function Min(x: nat, y: nat): nat {
    if x <= y then x else y
  }

  /** Price priority on a side: for bids a higher price is better, for asks a lower one. */
  predicate AtLeastAsGood(side: Side, p: int, q: int) {
    if side == Buy then p >= q else p <= q
  }

  /** An aggressor on `side` with limit `limit` may trade with a resting order of the
      opposite side priced `resting`: a bid price at or above the ask price. */
  predicate Crosses(side: Side, limit: int, resting: int) {
    if side == Buy then resting <= limit else resting >= limit
  }

  function IsOrder(o: Order, clientId: nat, orderId: nat): bool {
    o.clientId == clientId && o.orderId == orderId
  }

  /** The deal between a buy order and a sell order for `qty` at `price`. */
  function Trade(buy: Order, sell: Order, price: int, qty: nat): Deal {
    Deal(price, qty, sell.orderId, sell.clientId, buy.orderId, buy.clientId)
  }

  /** A book side: every order on `side` with a positive remaining quantity, in
      price priority from the head (earlier positions are at least as good). */
  ghost predicate WellFormed(side: Side, s: seq<Order>) {
    && (forall i :: 0 <= i < |s| ==> s[i].side == side && s[i].qty > 0)
    && (forall i, j :: 0 <= i < j < |s| ==> AtLeastAsGood(side, s[i].price, s[j].price))
  }

  function TotalQty(s: seq<Order>): nat {
    if s == [] then 0 else s[0].qty + TotalQty(s[1..])
  }

  function Volume(ds: seq<Deal>): nat {
    if ds == [] then 0 else ds[0].qty + Volume(ds[1..])
  }

  lemma {:induction false} VolumeAppend(a: seq<Deal>, b: seq<Deal>)
    ensures Volume(a + b) == Volume(a) + Volume(b)
  {
    if a != [] {
      assert (a + b)[1..] == a[1..] + b;
      VolumeAppend(a[1..], b);
    } else {
      assert a + b == b;
    }
  }

  lemma WellFormedTail(side: Side, s: seq<Order>)
    requires WellFormed(side, s) && s != []
    ensures WellFormed(side, s[1..])
    ensures forall i :: 0 <= i < |s| - 1 ==> AtLeastAsGood(side, s[0].price, s[1..][i].price)
  {
  }
}
