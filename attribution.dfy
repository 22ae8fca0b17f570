/**
 * Which resting orders the deals of a sweep or of an auction uncross name, and how
 * much each deal takes. On a side whose orders have distinct identities, every deal
 * names an order of that side, the orders named come in the side's priority order,
 * each order's quantity is split exactly between the deals naming it and what is left
 * of it, and each deal takes the smaller of the two quantities still open when it is made.
 */
module Attribution {
  import opened Orders
  import opened BookSide
  import opened Continuous
  import opened Auction

  /** The client id that deal `d` names on `side`. */
  function PartyClient(side: Side, d: Deal): nat {
    if side == Buy then d.buyClientId else d.sellClientId
  }

  /** The order id that deal `d` names on `side`. */
  function PartyOrder(side: Side, d: Deal): nat {
    if side == Buy then d.buyOrderId else d.sellOrderId
  }

  /** Position in `s` of the order that `d` names on `side`; |s| when it names none. */
  function Position(side: Side, s: seq<Order>, d: Deal): nat {
    FirstMatch(s, PartyClient(side, d), PartyOrder(side, d))
  }

  /** `d` names the head of `s` on `side`. */
  predicate NamesHead(side: Side, s: seq<Order>, d: Deal) {
    s != [] && PartyClient(side, d) == s[0].clientId && PartyOrder(side, d) == s[0].orderId
  }

  /** Quantity resting in `s` under the identity (clientId, orderId); 0 when none rests. */
  function Resting(s: seq<Order>, clientId: nat, orderId: nat): nat {
    var i := FirstMatch(s, clientId, orderId);
    if i < |s| then s[i].qty else 0
  }

  /** Quantity the deals `ds` take from the order (clientId, orderId) on `side`. */
  function Filled(side: Side, ds: seq<Deal>, clientId: nat, orderId: nat): nat {
    if ds == [] then 0
    else
      var own := if PartyClient(side, ds[0]) == clientId && PartyOrder(side, ds[0]) == orderId then ds[0].qty else 0;
      own + Filled(side, ds[1..], clientId, orderId)
  }

  /** What was left of the order that `ds[k]` names on `side`, just before that deal. */
  function LeftBefore(side: Side, s: seq<Order>, ds: seq<Deal>, k: nat): int
    requires k < |ds|
  {
    Resting(s, PartyClient(side, ds[k]), PartyOrder(side, ds[k]))
      - Filled(side, ds[..k], PartyClient(side, ds[k]), PartyOrder(side, ds[k]))
  }

  /** `q` is the smaller of `a` and `b`. */
  predicate SmallerOf(q: int, a: int, b: int) {
    q == if a <= b then a else b
  }

  /** Every deal names on `side` an order of `s`, and the orders named come in the
      priority order of `s`. */
  ghost predicate DrawnInOrder(side: Side, s: seq<Order>, ds: seq<Deal>) {
    && (forall k :: 0 <= k < |ds| ==> Position(side, s, ds[k]) < |s|)
    && (forall k, l :: 0 <= k < l < |ds| ==> Position(side, s, ds[k]) <= Position(side, s, ds[l]))
  }

  /** Every deal is at the price of the order of `s` it names on `side`. */
  ghost predicate AtNamedPrice(side: Side, s: seq<Order>, ds: seq<Deal>) {
    forall k :: 0 <= k < |ds| && Position(side, s, ds[k]) < |s| ==> ds[k].price == s[Position(side, s, ds[k])].price
  }

  /** The quantity of every identity in `s` is split between the deals naming it on
      `side` and what is left of it in `t`. */
  ghost predicate Accounted(side: Side, s: seq<Order>, ds: seq<Deal>, t: seq<Order>) {
    forall c: nat, id: nat :: Filled(side, ds, c, id) + Resting(t, c, id) == Resting(s, c, id)
  }

  /** Each deal of a sweep that had `left` to fill takes the smaller of what the aggressor
      still had and what was left of the resting order it names on `side`. */
  ghost predicate SweepShares(side: Side, left: nat, s: seq<Order>, ds: seq<Deal>) {
    forall k :: 0 <= k < |ds| ==> SmallerOf(ds[k].qty, left - Volume(ds[..k]), LeftBefore(side, s, ds, k))
  }

  /** Each deal of an uncross takes the smaller of what was left of the bid and of the
      ask it names. */
  ghost predicate PairShares(bids: seq<Order>, asks: seq<Order>, ds: seq<Deal>) {
    forall k :: 0 <= k < |ds| ==> SmallerOf(ds[k].qty, LeftBefore(Buy, bids, ds, k), LeftBefore(Sell, asks, ds, k))
  }

  // ---------------------------------------------------------------------------
  // One fill of the head

  lemma FilledCons(side: Side, d: Deal, ds: seq<Deal>, c: nat, id: nat)
    ensures Filled(side, [d] + ds, c, id)
      == (if PartyClient(side, d) == c && PartyOrder(side, d) == id then d.qty else 0) + Filled(side, ds, c, id)
  {
    assert ([d] + ds)[1..] == ds;
  }

  lemma VolumeCons(d: Deal, ds: seq<Deal>, k: nat)
    requires 1 <= k <= |ds| + 1
    ensures Volume(([d] + ds)[..k]) == d.qty + Volume(ds[..k - 1])
  {
    assert ([d] + ds)[..k] == [d] + ds[..k - 1];
    assert ([d] + ds[..k - 1])[1..] == ds[..k - 1];
  }

  /** Filling the head keeps the identities distinct. */
  lemma AfterFillDistinct(s: seq<Order>, t: nat)
    requires s != [] && Distinct(s) && t <= s[0].qty
    ensures Distinct(AfterFill(s[0], s[1..], t))
  {
    var n := AfterFill(s[0], s[1..], t);
    if t == s[0].qty {
      forall i, j | 0 <= i < j < |n| ensures !IsOrder(n[j], n[i].clientId, n[i].orderId) {
        assert n[i] == s[i + 1] && n[j] == s[j + 1];
      }
    } else {
      forall i | 0 <= i < |n| ensures n[i].clientId == s[i].clientId && n[i].orderId == s[i].orderId {
        if i > 0 { assert n[i] == s[i]; }
      }
    }
  }

  /** Filling `t` of the head takes `t` off the head's identity and leaves every other
      identity's quantity as it was. */
  lemma RestingAfterFill(s: seq<Order>, t: nat, c: nat, id: nat)
    requires s != [] && Distinct(s) && t <= s[0].qty
    ensures Resting(AfterFill(s[0], s[1..], t), c, id) + (if IsOrder(s[0], c, id) then t else 0) == Resting(s, c, id)
  {
    var n := AfterFill(s[0], s[1..], t);
    if IsOrder(s[0], c, id) {
      if t == s[0].qty {
        forall j | 0 <= j < |s| - 1 ensures !IsOrder(s[1..][j], c, id) {
          assert s[1..][j] == s[j + 1];
        }
      }
    } else if t < s[0].qty {
      assert n[1..] == s[1..];
    }
  }

  /** An order still resting after the head was filled sits in `s` at the same place,
      shifted by one when the head left, and has the same price there. */
  lemma PositionAfterFill(s: seq<Order>, t: nat, c: nat, id: nat)
    requires s != [] && Distinct(s) && t <= s[0].qty
    requires FirstMatch(AfterFill(s[0], s[1..], t), c, id) < |AfterFill(s[0], s[1..], t)|
    ensures FirstMatch(s, c, id) == FirstMatch(AfterFill(s[0], s[1..], t), c, id) + (if t == s[0].qty then 1 else 0)
    ensures s[FirstMatch(s, c, id)].price == AfterFill(s[0], s[1..], t)[FirstMatch(AfterFill(s[0], s[1..], t), c, id)].price
  {
    var n := AfterFill(s[0], s[1..], t);
    var j := FirstMatch(n, c, id);
    if t == s[0].qty {
      assert n[j] == s[j + 1];
      assert !IsOrder(s[j + 1], s[0].clientId, s[0].orderId);
    } else {
      assert n[1..] == s[1..];
      if j > 0 { assert n[j] == s[j]; }
    }
  }

  /** A deal naming the head, followed by deals drawn in order from what the fill left,
      is drawn in order from the whole side. */
  lemma DrawnStep(side: Side, s: seq<Order>, t: nat, d: Deal, rest: seq<Deal>)
    requires s != [] && Distinct(s) && t <= s[0].qty && NamesHead(side, s, d)
    requires DrawnInOrder(side, AfterFill(s[0], s[1..], t), rest)
    ensures DrawnInOrder(side, s, [d] + rest)
  {
    var n := AfterFill(s[0], s[1..], t);
    var ds := [d] + rest;
    var shift := if t == s[0].qty then 1 else 0;
    assert |n| + shift == |s|;
    forall k | 1 <= k < |ds|
      ensures Position(side, s, ds[k]) == Position(side, n, rest[k - 1]) + shift
    {
      assert ds[k] == rest[k - 1];
      PositionAfterFill(s, t, PartyClient(side, rest[k - 1]), PartyOrder(side, rest[k - 1]));
    }
    assert Position(side, s, ds[0]) == 0;
    forall k, l | 0 <= k < l < |ds| ensures Position(side, s, ds[k]) <= Position(side, s, ds[l]) {
      if k > 0 {
        assert Position(side, n, rest[k - 1]) <= Position(side, n, rest[l - 1]);
      }
    }
  }

  /** The same step for the deals' prices. */
  lemma NamedPriceStep(side: Side, s: seq<Order>, t: nat, d: Deal, rest: seq<Deal>)
    requires s != [] && Distinct(s) && t <= s[0].qty && NamesHead(side, s, d) && d.price == s[0].price
    requires DrawnInOrder(side, AfterFill(s[0], s[1..], t), rest)
    requires AtNamedPrice(side, AfterFill(s[0], s[1..], t), rest)
    ensures AtNamedPrice(side, s, [d] + rest)
  {
    var n := AfterFill(s[0], s[1..], t);
    var ds := [d] + rest;
    forall k | 0 <= k < |ds| && Position(side, s, ds[k]) < |s|
      ensures ds[k].price == s[Position(side, s, ds[k])].price
    {
      if k > 0 {
        assert ds[k] == rest[k - 1];
        PositionAfterFill(s, t, PartyClient(side, rest[k - 1]), PartyOrder(side, rest[k - 1]));
      }
    }
  }

  /** The same step for the split of each order's quantity. */
  lemma AccountedStep(side: Side, s: seq<Order>, t: nat, d: Deal, rest: seq<Deal>, book: seq<Order>)
    requires s != [] && Distinct(s) && t <= s[0].qty && NamesHead(side, s, d) && d.qty == t
    requires Accounted(side, AfterFill(s[0], s[1..], t), rest, book)
    ensures Accounted(side, s, [d] + rest, book)
  {
    forall c: nat, id: nat ensures Filled(side, [d] + rest, c, id) + Resting(book, c, id) == Resting(s, c, id) {
      FilledCons(side, d, rest, c, id);
      RestingAfterFill(s, t, c, id);
    }
  }

  /** Before the first deal, the head it names is whole. */
  lemma LeftBeforeHead(side: Side, s: seq<Order>, d: Deal, rest: seq<Deal>)
    requires NamesHead(side, s, d)
    ensures LeftBefore(side, s, [d] + rest, 0) == s[0].qty
  {
    assert ([d] + rest)[..0] == [];
  }

  /** Before a later deal, what is left of its order is the same whether counted on the
      whole side or on what the first fill left. */
  lemma LeftBeforeStep(side: Side, s: seq<Order>, t: nat, d: Deal, rest: seq<Deal>, k: nat)
    requires s != [] && Distinct(s) && t <= s[0].qty && NamesHead(side, s, d) && d.qty == t
    requires 1 <= k <= |rest|
    ensures LeftBefore(side, s, [d] + rest, k) == LeftBefore(side, AfterFill(s[0], s[1..], t), rest, k - 1)
  {
    var ds := [d] + rest;
    var c, id := PartyClient(side, rest[k - 1]), PartyOrder(side, rest[k - 1]);
    assert ds[k] == rest[k - 1];
    assert ds[..k] == [d] + rest[..k - 1];
    FilledCons(side, d, rest[..k - 1], c, id);
    RestingAfterFill(s, t, c, id);
  }

  // ---------------------------------------------------------------------------
  // Continuous matching

  /** The deals of a sweep name orders of the opposite side in its priority order, each
      at the price of the order it names. */
  lemma {:induction false} CrossDrawn(o: Order, left: nat, opp: seq<Order>)
    requires Distinct(opp)
    ensures DrawnInOrder(Opposite(o.side), opp, Cross(o, left, opp).deals)
    ensures AtNamedPrice(Opposite(o.side), opp, Cross(o, left, opp).deals)
    decreases |opp|, left
  {
    if !(left == 0 || opp == [] || !Crosses(o.side, o.price, opp[0].price)) {
      var r := opp[0];
      var t := Min(left, r.qty);
      var n := AfterFill(r, opp[1..], t);
      AfterFillDistinct(opp, t);
      CrossDrawn(o, left - t, n);
      var d := Fill(o, r, t);
      assert Cross(o, left, opp).deals == [d] + Cross(o, left - t, n).deals;
      DrawnStep(Opposite(o.side), opp, t, d, Cross(o, left - t, n).deals);
      NamedPriceStep(Opposite(o.side), opp, t, d, Cross(o, left - t, n).deals);
    }
  }

  /** Each resting order's quantity is split between the sweep's deals naming it and what
      is left of it on the opposite side. */
  lemma {:induction false} CrossAccounted(o: Order, left: nat, opp: seq<Order>)
    requires Distinct(opp)
    ensures Accounted(Opposite(o.side), opp, Cross(o, left, opp).deals, Cross(o, left, opp).book)
    decreases |opp|, left
  {
    if !(left == 0 || opp == [] || !Crosses(o.side, o.price, opp[0].price)) {
      var r := opp[0];
      var t := Min(left, r.qty);
      var n := AfterFill(r, opp[1..], t);
      AfterFillDistinct(opp, t);
      CrossAccounted(o, left - t, n);
      var d := Fill(o, r, t);
      assert Cross(o, left, opp).deals == [d] + Cross(o, left - t, n).deals;
      AccountedStep(Opposite(o.side), opp, t, d, Cross(o, left - t, n).deals, Cross(o, left - t, n).book);
    }
  }

  /** Each deal of a sweep takes the smaller of what the aggressor still had and what was
      left of the resting order it names. */
  lemma {:induction false} CrossShares(o: Order, left: nat, opp: seq<Order>)
    requires Distinct(opp)
    ensures SweepShares(Opposite(o.side), left, opp, Cross(o, left, opp).deals)
    decreases |opp|, left
  {
    if !(left == 0 || opp == [] || !Crosses(o.side, o.price, opp[0].price)) {
      var side := Opposite(o.side);
      var r := opp[0];
      var t := Min(left, r.qty);
      var n := AfterFill(r, opp[1..], t);
      var left' := left - t;
      AfterFillDistinct(opp, t);
      CrossShares(o, left', n);
      var d := Fill(o, r, t);
      var rest := Cross(o, left', n).deals;
      var ds := [d] + rest;
      assert Cross(o, left, opp).deals == ds;
      assert SweepShares(side, left', n, rest);
      forall k | 0 <= k < |ds| ensures SmallerOf(ds[k].qty, left - Volume(ds[..k]), LeftBefore(side, opp, ds, k)) {
        if k == 0 {
          LeftBeforeHead(side, opp, d, rest);
          assert ds[..0] == [];
        } else {
          assert ds[k] == rest[k - 1];
          LeftBeforeStep(side, opp, t, d, rest, k);
          VolumeCons(d, rest, k);
        }
      }
    }
  }

  /** Continuous matching, attributed: on an opposite side with distinct identities, every
      deal names a resting order, in price-then-arrival order, at that order's price; each
      resting order gives up exactly what the deals naming it took; and each deal takes the
      smaller of the two quantities still open. */
  lemma CrossAttribution(o: Order, left: nat, opp: seq<Order>)
    requires Distinct(opp)
    ensures DrawnInOrder(Opposite(o.side), opp, Cross(o, left, opp).deals)
    ensures AtNamedPrice(Opposite(o.side), opp, Cross(o, left, opp).deals)
    ensures Accounted(Opposite(o.side), opp, Cross(o, left, opp).deals, Cross(o, left, opp).book)
    ensures SweepShares(Opposite(o.side), left, opp, Cross(o, left, opp).deals)
  {
    CrossDrawn(o, left, opp);
    CrossAccounted(o, left, opp);
    CrossShares(o, left, opp);
  }

  // ---------------------------------------------------------------------------
  // Auction uncross

  /** The uncross's deals name bids in bid priority order and asks in ask priority order. */
  lemma {:induction false} UncrossDrawn(bids: seq<Order>, asks: seq<Order>, p: int)
    requires Distinct(bids) && Distinct(asks)
    ensures DrawnInOrder(Buy, bids, Uncross(bids, asks, p).deals)
    ensures DrawnInOrder(Sell, asks, Uncross(bids, asks, p).deals)
    decreases |bids| + |asks|
  {
    if !(bids == [] || asks == [] || !AtLeastAsGood(Buy, bids[0].price, p) || !AtLeastAsGood(Sell, asks[0].price, p)) {
      var b, a := bids[0], asks[0];
      var t := Min(b.qty, a.qty);
      var bids', asks' := AfterFill(b, bids[1..], t), AfterFill(a, asks[1..], t);
      AfterFillDistinct(bids, t);
      AfterFillDistinct(asks, t);
      UncrossDrawn(bids', asks', p);
      var d := Trade(b, a, p, t);
      assert Uncross(bids, asks, p).deals == [d] + Uncross(bids', asks', p).deals;
      DrawnStep(Buy, bids, t, d, Uncross(bids', asks', p).deals);
      DrawnStep(Sell, asks, t, d, Uncross(bids', asks', p).deals);
    }
  }

  /** Each bid's and each ask's quantity is split between the deals naming it and what is
      left of it after the uncross. */
  lemma {:induction false} UncrossAccounted(bids: seq<Order>, asks: seq<Order>, p: int)
    requires Distinct(bids) && Distinct(asks)
    ensures Accounted(Buy, bids, Uncross(bids, asks, p).deals, Uncross(bids, asks, p).bids)
    ensures Accounted(Sell, asks, Uncross(bids, asks, p).deals, Uncross(bids, asks, p).asks)
    decreases |bids| + |asks|
  {
    if !(bids == [] || asks == [] || !AtLeastAsGood(Buy, bids[0].price, p) || !AtLeastAsGood(Sell, asks[0].price, p)) {
      var b, a := bids[0], asks[0];
      var t := Min(b.qty, a.qty);
      var bids', asks' := AfterFill(b, bids[1..], t), AfterFill(a, asks[1..], t);
      AfterFillDistinct(bids, t);
      AfterFillDistinct(asks, t);
      UncrossAccounted(bids', asks', p);
      var d := Trade(b, a, p, t);
      var u := Uncross(bids', asks', p);
      assert Uncross(bids, asks, p) == Uncrossing(u.bids, u.asks, [d] + u.deals);
      AccountedStep(Buy, bids, t, d, u.deals, u.bids);
      AccountedStep(Sell, asks, t, d, u.deals, u.asks);
    }
  }

  /** Each deal of the uncross takes the smaller of what was left of the bid and of the
      ask it names. */
  lemma {:induction false} UncrossShares(bids: seq<Order>, asks: seq<Order>, p: int)
    requires Distinct(bids) && Distinct(asks)
    ensures PairShares(bids, asks, Uncross(bids, asks, p).deals)
    decreases |bids| + |asks|
  {
    if !(bids == [] || asks == [] || !AtLeastAsGood(Buy, bids[0].price, p) || !AtLeastAsGood(Sell, asks[0].price, p)) {
      var b, a := bids[0], asks[0];
      var t := Min(b.qty, a.qty);
      var bids', asks' := AfterFill(b, bids[1..], t), AfterFill(a, asks[1..], t);
      AfterFillDistinct(bids, t);
      AfterFillDistinct(asks, t);
      UncrossShares(bids', asks', p);
      var d := Trade(b, a, p, t);
      var rest := Uncross(bids', asks', p).deals;
      var ds := [d] + rest;
      assert Uncross(bids, asks, p).deals == ds;
      assert PairShares(bids', asks', rest);
      forall k | 0 <= k < |ds| ensures SmallerOf(ds[k].qty, LeftBefore(Buy, bids, ds, k), LeftBefore(Sell, asks, ds, k)) {
        if k == 0 {
          LeftBeforeHead(Buy, bids, d, rest);
          LeftBeforeHead(Sell, asks, d, rest);
        } else {
          assert ds[k] == rest[k - 1];
          LeftBeforeStep(Buy, bids, t, d, rest, k);
          LeftBeforeStep(Sell, asks, t, d, rest, k);
        }
      }
    }
  }

  /** The auction match, attributed: on sides with distinct identities, the deals pair
      bids in bid priority order with asks in ask priority order, each order gives up
      exactly what the deals naming it took, and each deal's quantity is the smaller of
      the two remaining quantities. */
  lemma MatchAuctionAttribution(bids: seq<Order>, asks: seq<Order>)
    requires Distinct(bids) && Distinct(asks)
    ensures DrawnInOrder(Buy, bids, MatchAuction(bids, asks).deals)
    ensures DrawnInOrder(Sell, asks, MatchAuction(bids, asks).deals)
    ensures Accounted(Buy, bids, MatchAuction(bids, asks).deals, MatchAuction(bids, asks).bids)
    ensures Accounted(Sell, asks, MatchAuction(bids, asks).deals, MatchAuction(bids, asks).asks)
    ensures PairShares(bids, asks, MatchAuction(bids, asks).deals)
  {
    var p := TheoreticalOpen(bids, asks).price;
    UncrossDrawn(bids, asks, p);
    UncrossAccounted(bids, asks, p);
    UncrossShares(bids, asks, p);
  }
}
