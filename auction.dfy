/**
 * Call-auction price discovery and uncrossing. The clearing price maximises the
 * volume that can trade at one price: the smaller of the bid quantity willing to
 * pay at least that price and the ask quantity willing to sell at most that price.
 */
module Auction {
  import opened Orders
  import opened BookSide

  /** Quantity of the orders of `s` (one side, `side`) that would trade at price p:
      bids priced at or above p, asks priced at or below p. */
  function Cum(side: Side, s: seq<Order>, p: int): nat {
    if s == [] then 0
    else (if AtLeastAsGood(side, s[0].price, p) then s[0].qty else 0) + Cum(side, s[1..], p)
  }

  /** Volume that can trade at price p. */
  function Matchable(bids: seq<Order>, asks: seq<Order>, p: int): nat {
    Min(Cum(Buy, bids, p), Cum(Sell, asks, p))
  }

  function PriceList(s: seq<Order>): (ps: seq<int>)
    ensures |ps| == |s|
    ensures forall i :: 0 <= i < |s| ==> ps[i] == s[i].price
  {
    if s == [] then [] else [s[0].price] + PriceList(s[1..])
  }

  /** Candidate clearing prices: every price resting on either side. */
  function Candidates(bids: seq<Order>, asks: seq<Order>): seq<int> {
    PriceList(bids) + PriceList(asks)
  }

  /** Theoretical open: clearing price and the volume that trades there. */
  datatype Open = Open(price: int, volume: nat)

  /** The candidate with the largest matchable volume; among equal volumes, the lowest price. */
  function Best(bids: seq<Order>, asks: seq<Order>, cs: seq<int>): (r: Open)
    requires cs != []
    ensures r.price in cs && r.volume == Matchable(bids, asks, r.price)
    ensures forall p :: p in cs ==> Matchable(bids, asks, p) <= r.volume
    ensures forall p :: p in cs && Matchable(bids, asks, p) == r.volume ==> r.price <= p
  {
    var v := Matchable(bids, asks, cs[0]);
    if |cs| == 1 then Open(cs[0], v)
    else
      var r := Best(bids, asks, cs[1..]);
      if v > r.volume || (v == r.volume && cs[0] < r.price) then Open(cs[0], v) else r
  }

  /** The clearing price and volume of the book; an empty book opens at (0, 0). */
  function TheoreticalOpen(bids: seq<Order>, asks: seq<Order>): (r: Open)
    ensures r.volume == Matchable(bids, asks, r.price)
    ensures bids + asks != [] ==> r.price in Candidates(bids, asks)
    ensures bids + asks == [] ==> r == Open(0, 0)
  {
    var cs := Candidates(bids, asks);
    if cs == [] then Open(0, 0) else Best(bids, asks, cs)
  }

  lemma {:induction false} CumMonotone(side: Side, s: seq<Order>, p: int, q: int)
    requires forall i :: 0 <= i < |s| && AtLeastAsGood(side, s[i].price, p) ==> AtLeastAsGood(side, s[i].price, q)
    ensures Cum(side, s, p) <= Cum(side, s, q)
  {
    if s != [] {
      CumMonotone(side, s[1..], p, q);
    }
  }

  /** The largest candidate not above p. */
  ghost function Floor(cs: seq<int>, p: int): (q: int)
    requires exists i :: 0 <= i < |cs| && cs[i] <= p
    ensures q in cs && q <= p
    ensures forall i :: 0 <= i < |cs| && cs[i] <= p ==> cs[i] <= q
  {
    if cs[0] <= p then
      if exists i :: 0 <= i < |cs[1..]| && cs[1..][i] <= p then
        var q := Floor(cs[1..], p);
        assert forall i :: 1 <= i < |cs| ==> cs[i] == cs[1..][i - 1];
        if q < cs[0] then cs[0] else q
      else
        assert forall i :: 1 <= i < |cs| ==> cs[i] == cs[1..][i - 1];
        cs[0]
    else
      assert exists i :: 0 <= i < |cs[1..]| && cs[1..][i] <= p by {
        var i :| 0 <= i < |cs| && cs[i] <= p;
        assert cs[1..][i - 1] == cs[i];
      }
      var q := Floor(cs[1..], p);
      assert forall i :: 1 <= i < |cs| ==> cs[i] == cs[1..][i - 1];
      q
  }

  /** Moving the price down to q does not lose matchable volume as long as no ask is
      priced above q and at or below p. */
  lemma MatchableDown(bids: seq<Order>, asks: seq<Order>, p: int, q: int)
    requires q <= p
    requires forall i :: 0 <= i < |asks| && asks[i].price <= p ==> asks[i].price <= q
    ensures Matchable(bids, asks, p) <= Matchable(bids, asks, q)
  {
    CumMonotone(Buy, bids, p, q);
    CumMonotone(Sell, asks, p, q);
  }

  /** The clearing volume is the largest matchable volume at ANY price, not only among
      the resting prices: between two resting prices the ask quantity does not grow
      while the bid quantity can only shrink. */
  lemma OpenIsOptimal(bids: seq<Order>, asks: seq<Order>, p: int)
    ensures Matchable(bids, asks, p) <= TheoreticalOpen(bids, asks).volume
  {
    var cs := Candidates(bids, asks);
    if exists i :: 0 <= i < |cs| && cs[i] <= p {
      var q := Floor(cs, p);
      forall i | 0 <= i < |asks| && asks[i].price <= p ensures asks[i].price <= q {
        assert cs[|bids| + i] == asks[i].price;
      }
      MatchableDown(bids, asks, p, q);
      assert Best(bids, asks, cs).volume >= Matchable(bids, asks, q);
    } else {
      forall i | 0 <= i < |asks| ensures !AtLeastAsGood(Sell, asks[i].price, p) {
        assert cs[|bids| + i] == asks[i].price;
      }
      CumNone(Sell, asks, p);
    }
  }

  lemma {:induction false} CumNone(side: Side, s: seq<Order>, p: int)
    requires forall i :: 0 <= i < |s| ==> !AtLeastAsGood(side, s[i].price, p)
    ensures Cum(side, s, p) == 0
  {
    if s != [] {
      CumNone(side, s[1..], p);
    }
  }

  /** What the uncross leaves: both sides afterwards and the deals in emission order. */
  datatype Uncrossing = Uncrossing(bids: seq<Order>, asks: seq<Order>, deals: seq<Deal>)

  /** Every deal of `ds` is at price `p`. */
  ghost predicate AllAt(ds: seq<Deal>, p: int) {
    forall k :: 0 <= k < |ds| ==> ds[k].price == p
  }

  /** Uncrossing at price p: the best bid and the best ask trade at p for the smaller of
      their remaining quantities, for as long as both are eligible at p. */
  function Uncross(bids: seq<Order>, asks: seq<Order>, p: int): (u: Uncrossing)
    ensures AllAt(u.deals, p)
    decreases |bids| + |asks|
  {
    if bids == [] || asks == [] || !AtLeastAsGood(Buy, bids[0].price, p) || !AtLeastAsGood(Sell, asks[0].price, p) then
      Uncrossing(bids, asks, [])
    else
      var b, a := bids[0], asks[0];
      var t := Min(b.qty, a.qty);
      var u := Uncross(AfterFill(b, bids[1..], t), AfterFill(a, asks[1..], t), p);
      Uncrossing(u.bids, u.asks, [Trade(b, a, p, t)] + u.deals)
  }

  /** Once the head of a well-formed side is not eligible at p, nothing on it is. */
  lemma HeadIneligible(side: Side, s: seq<Order>, p: int)
    requires WellFormed(side, s) && (s == [] || !AtLeastAsGood(side, s[0].price, p))
    ensures Cum(side, s, p) == 0
  {
    forall i | 0 <= i < |s| ensures !AtLeastAsGood(side, s[i].price, p) {
      assert i == 0 || AtLeastAsGood(side, s[0].price, s[i].price);
    }
    CumNone(side, s, p);
  }

  /** The uncross trades exactly the volume matchable at p, taking it off both sides'
      volume at p, and leaves nothing matchable at p. */
  lemma {:induction false} UncrossCum(bids: seq<Order>, asks: seq<Order>, p: int)
    requires WellFormed(Buy, bids) && WellFormed(Sell, asks)
    ensures var u := Uncross(bids, asks, p);
      && Volume(u.deals) == Matchable(bids, asks, p)
      && Cum(Buy, u.bids, p) == Cum(Buy, bids, p) - Volume(u.deals)
      && Cum(Sell, u.asks, p) == Cum(Sell, asks, p) - Volume(u.deals)
      && Matchable(u.bids, u.asks, p) == 0
    decreases |bids| + |asks|
  {
    if bids == [] || asks == [] || !AtLeastAsGood(Buy, bids[0].price, p) || !AtLeastAsGood(Sell, asks[0].price, p) {
      if bids == [] || !AtLeastAsGood(Buy, bids[0].price, p) {
        HeadIneligible(Buy, bids, p);
      } else {
        HeadIneligible(Sell, asks, p);
      }
    } else {
      var b, a := bids[0], asks[0];
      var t := Min(b.qty, a.qty);
      var bids', asks' := AfterFill(b, bids[1..], t), AfterFill(a, asks[1..], t);
      AfterFillHead(Buy, bids, t);
      AfterFillHead(Sell, asks, t);
      CumAfterFill(Buy, bids, t, p);
      CumAfterFill(Sell, asks, t, p);
      UncrossCum(bids', asks', p);
      var u := Uncross(bids', asks', p);
      var ds := [Trade(b, a, p, t)] + u.deals;
      assert Uncross(bids, asks, p) == Uncrossing(u.bids, u.asks, ds);
      assert ds[1..] == u.deals;
    }
  }

  /** Both sides stay well formed through the uncross. */
  lemma {:induction false} UncrossWellFormed(bids: seq<Order>, asks: seq<Order>, p: int)
    requires WellFormed(Buy, bids) && WellFormed(Sell, asks)
    ensures WellFormed(Buy, Uncross(bids, asks, p).bids) && WellFormed(Sell, Uncross(bids, asks, p).asks)
    decreases |bids| + |asks|
  {
    if !(bids == [] || asks == [] || !AtLeastAsGood(Buy, bids[0].price, p) || !AtLeastAsGood(Sell, asks[0].price, p)) {
      var t := Min(bids[0].qty, asks[0].qty);
      AfterFillHead(Buy, bids, t);
      AfterFillHead(Sell, asks, t);
      UncrossWellFormed(AfterFill(bids[0], bids[1..], t), AfterFill(asks[0], asks[1..], t), p);
    }
  }

  /** The uncross at p trades exactly the volume matchable at p, taking it off both sides'
      volume at p, leaves nothing matchable at p and both sides well formed. */
  lemma UncrossVolume(bids: seq<Order>, asks: seq<Order>, p: int)
    requires WellFormed(Buy, bids) && WellFormed(Sell, asks)
    ensures var u := Uncross(bids, asks, p);
      && Volume(u.deals) == Matchable(bids, asks, p)
      && Cum(Buy, u.bids, p) == Cum(Buy, bids, p) - Volume(u.deals)
      && Cum(Sell, u.asks, p) == Cum(Sell, asks, p) - Volume(u.deals)
      && Matchable(u.bids, u.asks, p) == 0
      && WellFormed(Buy, u.bids) && WellFormed(Sell, u.asks)
  {
    UncrossCum(bids, asks, p);
    UncrossWellFormed(bids, asks, p);
  }

  /** Quantity is conserved by the uncross: each side's total quantity afterwards plus
      the deals' volume is its total quantity before. */
  lemma {:induction false} UncrossConserves(bids: seq<Order>, asks: seq<Order>, p: int)
    ensures var u := Uncross(bids, asks, p);
      && TotalQty(bids) == TotalQty(u.bids) + Volume(u.deals)
      && TotalQty(asks) == TotalQty(u.asks) + Volume(u.deals)
    decreases |bids| + |asks|
  {
    if !(bids == [] || asks == [] || !AtLeastAsGood(Buy, bids[0].price, p) || !AtLeastAsGood(Sell, asks[0].price, p)) {
      var b, a := bids[0], asks[0];
      var t := Min(b.qty, a.qty);
      var bids', asks' := AfterFill(b, bids[1..], t), AfterFill(a, asks[1..], t);
      if t < b.qty { assert bids'[1..] == bids[1..]; }
      if t < a.qty { assert asks'[1..] == asks[1..]; }
      UncrossConserves(bids', asks', p);
      var u := Uncross(bids', asks', p);
      assert ([Trade(b, a, p, t)] + u.deals)[1..] == u.deals;
    }
  }

  /** Orders not eligible at p are left alone by the uncross: on each side, the quantity
      priced worse than p is the same before and after. */
  lemma UncrossKeepsIneligible(bids: seq<Order>, asks: seq<Order>, p: int)
    requires WellFormed(Buy, bids) && WellFormed(Sell, asks)
    ensures var u := Uncross(bids, asks, p);
      && TotalQty(u.bids) - Cum(Buy, u.bids, p) == TotalQty(bids) - Cum(Buy, bids, p)
      && TotalQty(u.asks) - Cum(Sell, u.asks, p) == TotalQty(asks) - Cum(Sell, asks, p)
  {
    UncrossConserves(bids, asks, p);
    UncrossCum(bids, asks, p);
  }

  /** Filling `t` of an eligible head takes exactly `t` off the side's volume at p. */
  lemma CumAfterFill(side: Side, s: seq<Order>, t: nat, p: int)
    requires s != [] && t <= s[0].qty && AtLeastAsGood(side, s[0].price, p)
    ensures Cum(side, AfterFill(s[0], s[1..], t), p) == Cum(side, s, p) - t
  {
    if t < s[0].qty {
      assert AfterFill(s[0], s[1..], t)[1..] == s[1..];
    }
  }

  /** Every deal of the uncross is at the clearing price p and for a positive quantity. */
  lemma {:induction false} UncrossPrices(bids: seq<Order>, asks: seq<Order>, p: int)
    requires forall i :: 0 <= i < |bids| ==> bids[i].qty > 0
    requires forall i :: 0 <= i < |asks| ==> asks[i].qty > 0
    ensures var ds := Uncross(bids, asks, p).deals;
      forall k :: 0 <= k < |ds| ==> ds[k].price == p && ds[k].qty > 0
    decreases |bids| + |asks|
  {
    if !(bids == [] || asks == [] || !AtLeastAsGood(Buy, bids[0].price, p) || !AtLeastAsGood(Sell, asks[0].price, p)) {
      var b, a := bids[0], asks[0];
      var t := Min(b.qty, a.qty);
      var bids', asks' := AfterFill(b, bids[1..], t), AfterFill(a, asks[1..], t);
      forall i | 0 <= i < |bids'| ensures bids'[i].qty > 0 {
        if t < b.qty && i > 0 { assert bids'[i] == bids[i]; }
      }
      forall i | 0 <= i < |asks'| ensures asks'[i].qty > 0 {
        if t < a.qty && i > 0 { assert asks'[i] == asks[i]; }
      }
      UncrossPrices(bids', asks', p);
      assert forall k :: 0 <= k < |Uncross(bids', asks', p).deals| ==> Uncross(bids', asks', p).deals[k].price == p;
      assert forall k :: 0 <= k < |Uncross(bids', asks', p).deals| ==> Uncross(bids', asks', p).deals[k].qty > 0;
      var rest := Uncross(bids', asks', p).deals;
      var ds := [Trade(b, a, p, t)] + rest;
      assert Uncross(bids, asks, p).deals == ds;
      assert t > 0;
      forall k | 0 <= k < |ds| ensures ds[k].price == p && ds[k].qty > 0 {
        if k > 0 { assert ds[k] == rest[k - 1]; }
      }
    }
  }

  /** The uncross consumes both sides from their heads: bids and asks trade in
      price-then-arrival order. */
  lemma {:induction false} UncrossConsumes(bids: seq<Order>, asks: seq<Order>, p: int)
    requires WellFormed(Buy, bids) && WellFormed(Sell, asks)
    ensures Consumed(bids, Uncross(bids, asks, p).bids) && Consumed(asks, Uncross(bids, asks, p).asks)
    decreases |bids| + |asks|
  {
    if bids == [] || asks == [] || !AtLeastAsGood(Buy, bids[0].price, p) || !AtLeastAsGood(Sell, asks[0].price, p) {
      assert bids[|bids| - |bids|..] == bids;
      assert asks[|asks| - |asks|..] == asks;
    } else {
      var b, a := bids[0], asks[0];
      var t := Min(b.qty, a.qty);
      var bids', asks' := AfterFill(b, bids[1..], t), AfterFill(a, asks[1..], t);
      AfterFillHead(Buy, bids, t);
      AfterFillHead(Sell, asks, t);
      UncrossConsumes(bids', asks', p);
      var u := Uncross(bids', asks', p);
      ConsumedTrans(bids, bids', u.bids);
      ConsumedTrans(asks, asks', u.asks);
    }
  }

  /** Every deal of the uncross is at the clearing price p, for a positive quantity, and both
      sides are consumed from their heads: bids and asks trade in price-then-arrival order. */
  lemma UncrossDeals(bids: seq<Order>, asks: seq<Order>, p: int)
    requires WellFormed(Buy, bids) && WellFormed(Sell, asks)
    ensures var u := Uncross(bids, asks, p);
      && (forall k :: 0 <= k < |u.deals| ==> u.deals[k].price == p && u.deals[k].qty > 0)
      && Consumed(bids, u.bids) && Consumed(asks, u.asks)
  {
    UncrossPrices(bids, asks, p);
    UncrossConsumes(bids, asks, p);
  }

  /** Consuming twice from the head is consuming from the head, as long as the middle step
      removed or reduced only the head (AfterFill). */
  lemma ConsumedTrans(s: seq<Order>, m: seq<Order>, t: seq<Order>)
    requires s != [] && (m == s[1..] || (m != [] && m[1..] == s[1..] && m[0] == s[0].(qty := m[0].qty) && m[0].qty < s[0].qty) || m == s)
    requires Consumed(m, t)
    ensures Consumed(s, t)
  {
    if m == s[1..] {
      assert s[|s| - |t|..] == m[|m| - |t|..];
      if t != [] { assert s[|s| - |t| + 1..] == m[|m| - |t| + 1..]; }
    } else if m != s {
      if |t| < |m| {
        assert s[|s| - |t|..] == m[|m| - |t|..];
        if t != [] { assert s[|s| - |t| + 1..] == m[|m| - |t| + 1..]; }
      } else {
        assert t == m || (t[1..] == m[1..] && t[0] == m[0].(qty := t[0].qty) && t[0].qty < m[0].qty);
      }
    }
  }

  /** The call-auction match: uncross at the theoretical open price. */
  function MatchAuction(bids: seq<Order>, asks: seq<Order>): (u: Uncrossing)
    ensures AllAt(u.deals, TheoreticalOpen(bids, asks).price)
    ensures bids == [] || asks == [] ==> u.deals == []
  {
    Uncross(bids, asks, TheoreticalOpen(bids, asks).price)
  }

  /** The auction trades exactly the theoretical open volume, all at the open price. */
  lemma AuctionTradesOpenVolume(bids: seq<Order>, asks: seq<Order>)
    requires WellFormed(Buy, bids) && WellFormed(Sell, asks)
    ensures var r, u := TheoreticalOpen(bids, asks), MatchAuction(bids, asks);
      && Volume(u.deals) == r.volume
      && (forall k :: 0 <= k < |u.deals| ==> u.deals[k].price == r.price)
  {
    var r := TheoreticalOpen(bids, asks);
    UncrossVolume(bids, asks, r.price);
    UncrossDeals(bids, asks, r.price);
    if Candidates(bids, asks) == [] {
      assert bids == [] && asks == [];
    }
  }

  /** The theoretical open, characterised: on a non-empty book its price is a resting
      price, its volume is what trades at its price, no price at all (resting or not) can
      trade more, among the resting prices with that volume it is the lowest, and an empty
      book opens at (0, 0). */
  lemma OpenCharacterised(bids: seq<Order>, asks: seq<Order>)
    ensures var r := TheoreticalOpen(bids, asks);
      && (bids + asks != [] ==> r.price in Candidates(bids, asks))
      && r.volume == Matchable(bids, asks, r.price)
      && (forall p :: Matchable(bids, asks, p) <= r.volume)
      && (forall p :: p in Candidates(bids, asks) && Matchable(bids, asks, p) == r.volume ==> r.price <= p)
      && (bids == [] && asks == [] ==> r == Open(0, 0))
  {
    forall p ensures Matchable(bids, asks, p) <= TheoreticalOpen(bids, asks).volume {
      OpenIsOptimal(bids, asks, p);
    }
    if bids + asks != [] {
      assert |Candidates(bids, asks)| == |bids| + |asks|;
    }
  }

  /** The theoretical open is pinned down by its characterisation: a resting price whose
      volume no resting price beats, and which is the lowest of those that tie with it,
      is the open price, with that volume. */
  lemma {:induction false} OpenDetermined(bids: seq<Order>, asks: seq<Order>, p: int)
    requires p in Candidates(bids, asks)
    requires forall q :: q in Candidates(bids, asks) ==>
      Matchable(bids, asks, q) < Matchable(bids, asks, p) || (Matchable(bids, asks, q) == Matchable(bids, asks, p) && p <= q)
    ensures TheoreticalOpen(bids, asks) == Open(p, Matchable(bids, asks, p))
  {
    var r := Best(bids, asks, Candidates(bids, asks));
    assert r.price in Candidates(bids, asks);
  }
}
