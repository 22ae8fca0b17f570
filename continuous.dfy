/**
 * Continuous matching with price-time priority: an incoming order (the aggressor)
 * trades against the head of the opposite side for as long as the head's price
 * crosses the aggressor's limit, at the resting order's price.
 */
module Continuous {
  import opened Orders
  import opened BookSide

  /** What a sweep leaves: the aggressor's unfilled quantity, the opposite side after
      the sweep, and the deals in emission order. */
  datatype Crossing = Crossing(remaining: nat, book: seq<Order>, deals: seq<Deal>)

  /** The deal between aggressor `o` and resting order `r` for `qty` at `r`'s price. */
  function Fill(o: Order, r: Order, qty: nat): Deal {
    if o.side == Buy then Trade(o, r, r.price, qty) else Trade(r, o, r.price, qty)
  }

  /** Sweeps aggressor `o`, with `left` still to fill, through the opposite side `opp`, head first. */
  function Cross(o: Order, left: nat, opp: seq<Order>): (c: Crossing)
    ensures c.remaining <= left
    ensures Volume(c.deals) == left - c.remaining
    decreases |opp|, left
  {
    if left == 0 || opp == [] || !Crosses(o.side, o.price, opp[0].price) then
      Crossing(left, opp, [])
    else
      var r := opp[0];
      var t := Min(left, r.qty);
      var c := Cross(o, left - t, AfterFill(r, opp[1..], t));
      Crossing(c.remaining, c.book, [Fill(o, r, t)] + c.deals)
  }

  /** Quantity is conserved: what the aggressor lost equals what left the opposite side. */
  lemma {:induction false} CrossConserves(o: Order, left: nat, opp: seq<Order>)
    ensures TotalQty(opp) == TotalQty(Cross(o, left, opp).book) + Volume(Cross(o, left, opp).deals)
    decreases |opp|, left
  {
    if !(left == 0 || opp == [] || !Crosses(o.side, o.price, opp[0].price)) {
      var r := opp[0];
      var t := Min(left, r.qty);
      var next := AfterFill(r, opp[1..], t);
      CrossConserves(o, left - t, next);
      if t < r.qty {
        assert next[1..] == opp[1..];
      }
    }
  }

  /** The sweep stops only when the aggressor is filled, the opposite side is empty, or
      its new head no longer crosses; every order left on the opposite side is positive. */
  lemma {:induction false} CrossStops(o: Order, left: nat, opp: seq<Order>)
    requires forall i :: 0 <= i < |opp| ==> opp[i].qty > 0
    ensures var c := Cross(o, left, opp);
      && (c.remaining == 0 || c.book == [] || !Crosses(o.side, o.price, c.book[0].price))
      && (forall i :: 0 <= i < |c.book| ==> c.book[i].qty > 0)
    decreases |opp|, left
  {
    if !(left == 0 || opp == [] || !Crosses(o.side, o.price, opp[0].price)) {
      var r := opp[0];
      var t := Min(left, r.qty);
      var next := AfterFill(r, opp[1..], t);
      forall i | 0 <= i < |next| ensures next[i].qty > 0 {
        if t < r.qty && i > 0 { assert next[i] == opp[i]; }
      }
      CrossStops(o, left - t, next);
    }
  }

  lemma ConsumedTail(s: seq<Order>, t: seq<Order>)
    requires s != [] && Consumed(s[1..], t)
    ensures Consumed(s, t)
  {
    assert s[|s| - |t|..] == s[1..][|s| - 1 - |t|..];
    if t != [] {
      assert s[|s| - |t| + 1..] == s[1..][|s| - 1 - |t| + 1..];
    }
  }

  /** The sweep consumes the opposite side from its head: what is left is a suffix
      of it whose head may be partially filled. */
  lemma {:induction false} CrossConsumes(o: Order, left: nat, opp: seq<Order>)
    ensures Consumed(opp, Cross(o, left, opp).book)
    decreases |opp|, left
  {
    if !(left == 0 || opp == [] || !Crosses(o.side, o.price, opp[0].price)) {
      var r := opp[0];
      var t := Min(left, r.qty);
      var next := AfterFill(r, opp[1..], t);
      if t == r.qty {
        CrossConsumes(o, left - t, next);
        ConsumedTail(opp, Cross(o, left - t, next).book);
      } else {
        assert Cross(o, left - t, next) == Crossing(0, next, []);
        assert next[1..] == opp[1..];
      }
    } else {
      assert opp[|opp| - |opp|..] == opp;
    }
  }

  /** A deal made by aggressor `o`: at a price within its limit, for a positive quantity,
      with `o` named on its own side of the trade. */
  predicate ByAggressor(o: Order, d: Deal) {
    && Crosses(o.side, o.price, d.price)
    && d.qty > 0
    && (if o.side == Buy then d.buyOrderId == o.orderId && d.buyClientId == o.clientId
        else d.sellOrderId == o.orderId && d.sellClientId == o.clientId)
  }

  /** Every deal of the sweep is at a price within the aggressor's limit, for a positive
      quantity, and names the aggressor on its own side of the trade. */
  lemma {:induction false} CrossDeals(o: Order, left: nat, opp: seq<Order>)
    requires forall i :: 0 <= i < |opp| ==> opp[i].qty > 0
    ensures forall k :: 0 <= k < |Cross(o, left, opp).deals| ==> ByAggressor(o, Cross(o, left, opp).deals[k])
    decreases |opp|, left
  {
    if !(left == 0 || opp == [] || !Crosses(o.side, o.price, opp[0].price)) {
      var r := opp[0];
      var t := Min(left, r.qty);
      var next := AfterFill(r, opp[1..], t);
      forall i | 0 <= i < |next| ensures next[i].qty > 0 {
        if t < r.qty && i > 0 { assert next[i] == opp[i]; }
      }
      var left' := left - t;
      CrossDeals(o, left', next);
      assert forall k :: 0 <= k < |Cross(o, left', next).deals| ==> ByAggressor(o, Cross(o, left', next).deals[k]);
      var rest := Cross(o, left', next).deals;
      var ds := [Fill(o, r, t)] + rest;
      assert Cross(o, left, opp).deals == ds;
      assert t > 0;
      forall k | 0 <= k < |ds| ensures ByAggressor(o, ds[k]) {
        if k > 0 { assert ds[k] == rest[k - 1]; }
      }
    }
  }

  /** A sweep that starts against an opposite side whose best price does not cross trades nothing. */
  lemma NoCrossNoDeal(o: Order, left: nat, opp: seq<Order>)
    requires opp == [] || !Crosses(o.side, o.price, opp[0].price)
    ensures Cross(o, left, opp) == Crossing(left, opp, [])
  {
  }
}
