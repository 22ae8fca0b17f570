/**
 * The per-instrument order container: a bid side and an ask side of resting limit
 * orders, updated in place by Insert, Delete, Modify, MatchOrders and Reset, with
 * every deal pushed to the deal handler as soon as it is made.
 */
module Container {
  import opened Optional
  import opened Orders
  import opened BookSide
  import opened Continuous
  import opened Auction
  import opened Books
  import opened DealSink

  /** Index of the first order of `s` with identity (clientId, orderId), or |s|. */
  method Find(s: seq<Order>, clientId: nat, orderId: nat) returns (i: nat)
    ensures i == FirstMatch(s, clientId, orderId)
  {
    i := 0;
    while i < |s| && !IsOrder(s[i], clientId, orderId)
      invariant i <= |s|
      invariant forall j :: 0 <= j < i ==> !IsOrder(s[j], clientId, orderId)
    {
      i := i + 1;
    }
  }

  /** The side with `o` resting at the tail of its price level. */
  method Place(s: seq<Order>, o: Order) returns (t: seq<Order>)
    ensures t == Rest(s, o)
  {
    var k := 0;
    assert s[..0] + Rest(s[0..], o) == Rest(s, o) by { assert s[0..] == s; }
    while k < |s| && AtLeastAsGood(o.side, s[k].price, o.price)
      invariant k <= |s|
      invariant Rest(s, o) == s[..k] + Rest(s[k..], o)
    {
      RestStep(s, k, o);
      k := k + 1;
    }
    RestStop(s, k, o);
    t := s[..k] + [o] + s[k..];
  }

  /** At the first order worse than `o`, or at the end, `o` rests right there. */
  lemma RestStop(s: seq<Order>, k: nat, o: Order)
    requires k <= |s| && (k == |s| || !AtLeastAsGood(o.side, s[k].price, o.price))
    ensures s[..k] + Rest(s[k..], o) == s[..k] + [o] + s[k..]
  {
  }

  /** Passing one order at least as good as `o` moves it from the unscanned part to the prefix. */
  lemma RestStep(s: seq<Order>, k: nat, o: Order)
    requires k < |s| && AtLeastAsGood(o.side, s[k].price, o.price)
    ensures s[..k] + Rest(s[k..], o) == s[..k + 1] + Rest(s[k + 1..], o)
  {
    assert s[k..][1..] == s[k + 1..];
    assert s[..k + 1] == s[..k] + [s[k]];
  }

  /** Continuous matching of aggressor `o` against the opposite side `opp`, one resting
      order at a time, each deal at the resting order's price and pushed to `handler`. */
  method Sweep(handler: DealHandler, o: Order, opp: seq<Order>) returns (rest: seq<Order>, left: nat)
    requires handler.Valid()
    modifies handler
    ensures handler.Valid()
    ensures rest == Cross(o, o.qty, opp).book && left == Cross(o, o.qty, opp).remaining
    ensures handler.log == old(handler.log) + Cross(o, o.qty, opp).deals
  {
    rest, left := opp, o.qty;
    while left > 0 && rest != [] && Crosses(o.side, o.price, rest[0].price)
      invariant handler.Valid()
      invariant Cross(o, left, rest).book == Cross(o, o.qty, opp).book
      invariant Cross(o, left, rest).remaining == Cross(o, o.qty, opp).remaining
      invariant handler.log + Cross(o, left, rest).deals == old(handler.log) + Cross(o, o.qty, opp).deals
      decreases |rest|, left
    {
      var r := rest[0];
      var t := Min(left, r.qty);
      ghost var before := handler.log;
      handler.OnDeal(Fill(o, r, t));
      ghost var after := Cross(o, left - t, AfterFill(r, rest[1..], t)).deals;
      assert handler.log + after == before + ([Fill(o, r, t)] + after);
      left := left - t;
      rest := AfterFill(r, rest[1..], t);
    }
  }

  /** Auction uncross at price `p`: best bid against best ask, each deal for the smaller
      remaining quantity at `p` and pushed to `handler`, until one side has no order eligible at `p`. */
  method MatchAt(handler: DealHandler, bids0: seq<Order>, asks0: seq<Order>, p: int) returns (bids: seq<Order>, asks: seq<Order>)
    requires handler.Valid()
    modifies handler
    ensures handler.Valid()
    ensures bids == Uncross(bids0, asks0, p).bids && asks == Uncross(bids0, asks0, p).asks
    ensures handler.log == old(handler.log) + Uncross(bids0, asks0, p).deals
  {
    bids, asks := bids0, asks0;
    while bids != [] && asks != [] && AtLeastAsGood(Buy, bids[0].price, p) && AtLeastAsGood(Sell, asks[0].price, p)
      invariant handler.Valid()
      invariant Uncross(bids, asks, p).bids == Uncross(bids0, asks0, p).bids
      invariant Uncross(bids, asks, p).asks == Uncross(bids0, asks0, p).asks
      invariant handler.log + Uncross(bids, asks, p).deals == old(handler.log) + Uncross(bids0, asks0, p).deals
      decreases |bids| + |asks|
    {
      var b, a := bids[0], asks[0];
      var t := Min(b.qty, a.qty);
      ghost var before := handler.log;
      handler.OnDeal(Trade(b, a, p, t));
      ghost var after := Uncross(AfterFill(b, bids[1..], t), AfterFill(a, asks[1..], t), p).deals;
      assert handler.log + after == before + ([Trade(b, a, p, t)] + after);
      bids := AfterFill(b, bids[1..], t);
      asks := AfterFill(a, asks[1..], t);
    }
  }

  class OrderContainer {
    var bids: seq<Order>
    var asks: seq<Order>
    const handler: DealHandler

    ghost predicate Valid()
      reads this, handler
    {
      Books.Valid(Book(bids, asks)) && handler.Valid()
    }

    function State(): Book
      reads this
    {
      Book(bids, asks)
    }

    constructor (handler: DealHandler)
      requires handler.Valid()
      ensures Valid() && State() == EMPTY && this.handler == handler
    {
      bids, asks := [], [];
      this.handler := handler;
    }

    /** Inserts `o`; with `matchNow` it trades against the opposite side first. Refused,
        with nothing changed, when the identity already rests on the order's side. */
    method Insert(o: Order, matchNow: bool) returns (ok: bool)
      requires Valid() && o.qty > 0
      modifies this, handler
      ensures Valid()
      ensures ok <==> Books.Insert(old(State()), o, matchNow).Some?
      ensures ok ==> (State() == Books.Insert(old(State()), o, matchNow).value.book
                      && handler.log == old(handler.log) + Books.Insert(old(State()), o, matchNow).value.deals)
      ensures !ok ==> State() == old(State()) && unchanged(handler)
    {
      var own := if o.side == Buy then bids else asks;
      var i := Find(own, o.clientId, o.orderId);
      if i < |own| {
        return false;
      }
      SubmitOrder(o, matchNow);
      ok := true;
    }

    /** Removes the resting order (clientId, orderId) from `side`. Refused, with nothing
        changed, when no such order rests there. */
    method Delete(clientId: nat, orderId: nat, side: Side) returns (ok: bool)
      requires Valid()
      modifies this
      ensures Valid()
      ensures ok <==> Books.Delete(old(State()), clientId, orderId, side).Some?
      ensures ok ==> State() == Books.Delete(old(State()), clientId, orderId, side).value
      ensures !ok ==> State() == old(State())
    {
      var s := if side == Buy then bids else asks;
      var i := Find(s, clientId, orderId);
      if i == |s| {
        return false;
      }
      RemoveWellFormed(side, s, i);
      if side == Buy {
        bids := s[..i] + s[i + 1..];
      } else {
        asks := s[..i] + s[i + 1..];
      }
      ok := true;
    }

    /** Replaces the resting order (r.clientId, r.oldOrderId) on r.side by the order
        (r.clientId, r.newOrderId) for r.qty at r.price, which then goes through Insert's
        matching and resting. Refused, with nothing changed, when the old order does not rest. */
    method Modify(r: OrderReplace, matchNow: bool) returns (ok: bool)
      requires Valid() && r.qty > 0
      modifies this, handler
      ensures Valid()
      ensures ok <==> Books.Modify(old(State()), r, matchNow).Some?
      ensures ok ==> (State() == Books.Modify(old(State()), r, matchNow).value.book
                      && handler.log == old(handler.log) + Books.Modify(old(State()), r, matchNow).value.deals)
      ensures !ok ==> State() == old(State()) && unchanged(handler)
    {
      var s := if r.side == Buy then bids else asks;
      var i := Find(s, r.clientId, r.oldOrderId);
      if i == |s| {
        return false;
      }
      RemoveWellFormed(r.side, s, i);
      if r.side == Buy {
        bids := s[..i] + s[i + 1..];
      } else {
        asks := s[..i] + s[i + 1..];
      }
      SubmitOrder(Replacement(r), matchNow);
      ok := true;
    }

    /** Discards every resting order. The deal handler is left as it is. */
    method Reset()
      requires Valid()
      modifies this
      ensures Valid() && State() == EMPTY
    {
      bids, asks := [], [];
    }

    /** Per-price summary of both sides, bids then asks. */
    function AggregatedView(): (view: (seq<Level>, seq<Level>))
      reads this, handler
      requires Valid()
      ensures ExactView(Buy, bids, view.0) && ExactView(Sell, asks, view.1)
    {
      AggregateExact(Buy, bids);
      AggregateExact(Sell, asks);
      (Aggregate(bids), Aggregate(asks))
    }

    /** Call-auction clearing price and volume of the current book: a resting price with the
        largest matchable volume, the lowest such one on a tie. */
    function GetTheoriticalOpenInformations(): (r: Open)
      reads this
      ensures bids + asks != [] ==> r.price in Candidates(bids, asks)
      ensures r.volume == Matchable(bids, asks, r.price)
      ensures forall p :: Matchable(bids, asks, p) <= r.volume
      ensures forall p :: p in Candidates(bids, asks) && Matchable(bids, asks, p) == r.volume ==> r.price <= p
      ensures bids == [] && asks == [] ==> r == Open(0, 0)
    {
      OpenCharacterised(bids, asks);
      TheoreticalOpen(bids, asks)
    }

    /** Auction uncross at the theoretical open price: best bid against best ask, each
        deal for the smaller remaining quantity, until one side has no eligible order. */
    method MatchOrders()
      requires Valid()
      modifies this, handler
      ensures Valid()
      ensures State() == Book(MatchAuction(old(bids), old(asks)).bids, MatchAuction(old(bids), old(asks)).asks)
      ensures handler.log == old(handler.log) + MatchAuction(old(bids), old(asks)).deals
    {
      var p := TheoreticalOpen(bids, asks).price;
      UncrossVolume(bids, asks, p);
      bids, asks := MatchAt(handler, bids, asks, p);
    }

    /** Books `o`: with `matchNow` it first sweeps the opposite side, then any remainder rests. */
    method SubmitOrder(o: Order, matchNow: bool)
      requires Valid() && o.qty > 0
      modifies this, handler
      ensures Valid()
      ensures State() == Submit(old(State()), o, matchNow).book
      ensures handler.log == old(handler.log) + Submit(old(State()), o, matchNow).deals
    {
      SubmitValid(State(), o, matchNow);
      if !matchNow {
        if o.side == Buy {
          bids := Place(bids, o);
        } else {
          asks := Place(asks, o);
        }
        return;
      }
      var left;
      if o.side == Buy {
        asks, left := Sweep(handler, o, asks);
        if left > 0 {
          bids := Place(bids, o.(qty := left));
        }
      } else {
        bids, left := Sweep(handler, o, bids);
        if left > 0 {
          asks := Place(asks, o.(qty := left));
        }
      }
    }
  }
}
