/**
 * The whole book of one instrument (bid side and ask side) as a value, and the
 * order lifecycle on it: insert, delete and replace, each optionally followed by
 * continuous matching of the incoming order.
 */
module Books {
  import opened Optional
  import opened Orders
  import opened BookSide
  import opened Continuous

  datatype Book = Book(bids: seq<Order>, asks: seq<Order>)

  const EMPTY := Book([], [])

  ghost predicate Valid(b: Book) {
    WellFormed(Buy, b.bids) && WellFormed(Sell, b.asks)
  }

  /** The book is not crossed: the best bid is below the best ask. */
  ghost predicate Uncrossed(b: Book) {
    b.bids == [] || b.asks == [] || b.bids[0].price < b.asks[0].price
  }

  function SideOf(b: Book, side: Side): seq<Order> {
    if side == Buy then b.bids else b.asks
  }

  function WithSide(b: Book, side: Side, s: seq<Order>): Book {
    if side == Buy then b.(bids := s) else b.(asks := s)
  }

  /** The book after an operation and the deals it emitted, in order. */
  datatype Outcome = Outcome(book: Book, deals: seq<Deal>)

  /** Adds `o` to the book. With `matchNow` it first sweeps the opposite side; any
      remainder rests at the tail of its price level on its own side. */
  function Submit(b: Book, o: Order, matchNow: bool): (out: Outcome)
    ensures Volume(out.deals) <= o.qty
    ensures !matchNow ==> out.deals == [] && SideOf(out.book, Opposite(o.side)) == SideOf(b, Opposite(o.side))
  {
    if !matchNow then
      Outcome(WithSide(b, o.side, Rest(SideOf(b, o.side), o)), [])
    else
      var c := Cross(o, o.qty, SideOf(b, Opposite(o.side)));
      var swept := WithSide(b, Opposite(o.side), c.book);
      if c.remaining == 0 then Outcome(swept, c.deals)
      else Outcome(WithSide(swept, o.side, Rest(SideOf(swept, o.side), o.(qty := c.remaining))), c.deals)
  }

  /** Insert: refused when an order with the same identity already rests on its side. */
  function Insert(b: Book, o: Order, matchNow: bool): (r: Option<Outcome>)
    ensures r.None? <==> Rests(SideOf(b, o.side), o.clientId, o.orderId)
    ensures r.Some? ==> Volume(r.value.deals) <= o.qty && (!matchNow ==> r.value.deals == [])
  {
    var s := SideOf(b, o.side);
    if FirstMatch(s, o.clientId, o.orderId) < |s| then None else Some(Submit(b, o, matchNow))
  }

  /** Delete: removes the first resting order with the identity on `side`; refused when none rests. */
  function Delete(b: Book, clientId: nat, orderId: nat, side: Side): (r: Option<Book>)
    ensures r.None? <==> !Rests(SideOf(b, side), clientId, orderId)
    ensures r.Some? ==> |SideOf(r.value, side)| + 1 == |SideOf(b, side)|
    ensures r.Some? ==> SideOf(r.value, Opposite(side)) == SideOf(b, Opposite(side))
  {
    var s := SideOf(b, side);
    var i := FirstMatch(s, clientId, orderId);
    if i == |s| then None else Some(WithSide(b, side, Remove(s, i)))
  }

  /** The order a replace request creates. */
  function Replacement(r: OrderReplace): Order {
    Order(r.side, r.qty, r.price, r.clientId, r.newOrderId)
  }

  /** Modify: removes the referenced order and submits its replacement (which loses time
      priority); refused when the referenced order does not rest on the request's side.
      The new identity is not checked against the book. */
  function Modify(b: Book, r: OrderReplace, matchNow: bool): (out: Option<Outcome>)
    ensures out.None? <==> !Rests(SideOf(b, r.side), r.clientId, r.oldOrderId)
    ensures out.Some? ==> Volume(out.value.deals) <= r.qty && (!matchNow ==> out.value.deals == [])
  {
    var s := SideOf(b, r.side);
    var i := FirstMatch(s, r.clientId, r.oldOrderId);
    if i == |s| then None else Some(Submit(WithSide(b, r.side, Remove(s, i)), Replacement(r), matchNow))
  }

  // ---------------------------------------------------------------------------
  // Counting lemmas

  lemma {:induction false} CountsAppend(a: seq<Order>, b: seq<Order>, p: int, clientId: nat, orderId: nat)
    ensures CountAt(a + b, p) == CountAt(a, p) + CountAt(b, p)
    ensures QtyAt(a + b, p) == QtyAt(a, p) + QtyAt(b, p)
    ensures Occurrences(a + b, clientId, orderId) == Occurrences(a, clientId, orderId) + Occurrences(b, clientId, orderId)
    ensures TotalQty(a + b) == TotalQty(a) + TotalQty(b)
  {
    if a == [] {
      assert a + b == b;
    } else {
      assert (a + b)[1..] == a[1..] + b;
      CountsAppend(a[1..], b, p, clientId, orderId);
    }
  }

  /** Removing the order at index i takes exactly that order out of every count. */
  lemma RemoveCounts(s: seq<Order>, i: nat, p: int, clientId: nat, orderId: nat)
    requires i < |s|
    ensures CountAt(Remove(s, i), p) == CountAt(s, p) - (if s[i].price == p then 1 else 0)
    ensures QtyAt(Remove(s, i), p) == QtyAt(s, p) - (if s[i].price == p then s[i].qty else 0)
    ensures Occurrences(Remove(s, i), clientId, orderId) == Occurrences(s, clientId, orderId) - (if IsOrder(s[i], clientId, orderId) then 1 else 0)
    ensures TotalQty(Remove(s, i)) == TotalQty(s) - s[i].qty
  {
    assert s == s[..i] + ([s[i]] + s[i + 1..]);
    CountsAppend(s[..i], [s[i]] + s[i + 1..], p, clientId, orderId);
    CountsAppend(s[..i], s[i + 1..], p, clientId, orderId);
    CountsAppend([s[i]], s[i + 1..], p, clientId, orderId);
    assert ([s[i]] + s[i + 1..])[1..] == s[i + 1..];
  }

  /** Resting an order adds exactly that order to every count. */
  lemma RestCounts(side: Side, s: seq<Order>, o: Order, p: int, clientId: nat, orderId: nat)
    requires WellFormed(side, s) && o.side == side
    ensures CountAt(Rest(s, o), p) == CountAt(s, p) + (if o.price == p then 1 else 0)
    ensures QtyAt(Rest(s, o), p) == QtyAt(s, p) + (if o.price == p then o.qty else 0)
    ensures Occurrences(Rest(s, o), clientId, orderId) == Occurrences(s, clientId, orderId) + (if IsOrder(o, clientId, orderId) then 1 else 0)
    ensures TotalQty(Rest(s, o)) == TotalQty(s) + o.qty
  {
    RestAtSlot(side, s, o);
    var k := Slot(s, o);
    assert s == s[..k] + s[k..];
    CountsAppend(s[..k], s[k..], p, clientId, orderId);
    CountsAppend(s[..k] + [o], s[k..], p, clientId, orderId);
    CountsAppend(s[..k], [o], p, clientId, orderId);
  }

  lemma {:induction false} OccurrencesFirstMatch(s: seq<Order>, clientId: nat, orderId: nat)
    ensures Occurrences(s, clientId, orderId) == 0 <==> FirstMatch(s, clientId, orderId) == |s|
  {
    if s != [] {
      OccurrencesFirstMatch(s[1..], clientId, orderId);
    }
  }

  // ---------------------------------------------------------------------------
  // Lifecycle properties

  /** Submitting a positive order keeps both sides well formed. */
  lemma SubmitValid(b: Book, o: Order, matchNow: bool)
    requires Valid(b) && o.qty > 0
    ensures Valid(Submit(b, o, matchNow).book)
  {
    if !matchNow {
      RestWellFormed(o.side, SideOf(b, o.side), o);
    } else {
      var opp := SideOf(b, Opposite(o.side));
      var c := Cross(o, o.qty, opp);
      CrossStops(o, o.qty, opp);
      CrossConsumes(o, o.qty, opp);
      ConsumedWellFormed(Opposite(o.side), opp, c.book);
      if c.remaining > 0 {
        RestWellFormed(o.side, SideOf(b, o.side), o.(qty := c.remaining));
      }
    }
  }

  /** Quantity is conserved by a submit: the deals take their volume off the opposite side,
      and the incoming order's unfilled quantity is what its own side gains. */
  lemma SubmitConserves(b: Book, o: Order, matchNow: bool)
    requires Valid(b) && o.qty > 0
    ensures var out := Submit(b, o, matchNow);
      && TotalQty(SideOf(out.book, Opposite(o.side))) == TotalQty(SideOf(b, Opposite(o.side))) - Volume(out.deals)
      && TotalQty(SideOf(out.book, o.side)) == TotalQty(SideOf(b, o.side)) + o.qty - Volume(out.deals)
  {
    if !matchNow {
      RestCounts(o.side, SideOf(b, o.side), o, 0, 0, 0);
    } else {
      var opp := SideOf(b, Opposite(o.side));
      var c := Cross(o, o.qty, opp);
      CrossConserves(o, o.qty, opp);
      if c.remaining > 0 {
        RestCounts(o.side, SideOf(b, o.side), o.(qty := c.remaining), 0, 0, 0);
      }
    }
  }

  /** Continuous matching keeps an uncrossed book uncrossed: the incoming order trades
      until the opposite best price no longer crosses it, and only then rests. */
  lemma SubmitKeepsUncrossed(b: Book, o: Order)
    requires Valid(b) && Uncrossed(b) && o.qty > 0
    ensures Uncrossed(Submit(b, o, true).book)
  {
    var opp := SideOf(b, Opposite(o.side));
    var own := SideOf(b, o.side);
    var c := Cross(o, o.qty, opp);
    CrossStops(o, o.qty, opp);
    CrossConsumes(o, o.qty, opp);
    ConsumedWellFormed(Opposite(o.side), opp, c.book);
    if c.remaining > 0 {
      RestContents(own, o.(qty := c.remaining));
    }
  }

  /** Insert is refused exactly when an order with the same identity rests on the order's side,
      and a refused insert leaves the book as it was. */
  lemma InsertRefusedIffResting(b: Book, o: Order, matchNow: bool)
    ensures Insert(b, o, matchNow).None? <==> Occurrences(SideOf(b, o.side), o.clientId, o.orderId) > 0
  {
    OccurrencesFirstMatch(SideOf(b, o.side), o.clientId, o.orderId);
  }

  /** After a reset every identity is free again: any insert into the empty book is accepted. */
  lemma InsertAfterReset(o: Order, matchNow: bool)
    ensures Insert(EMPTY, o, matchNow).Some?
  {
  }

  /** An order inserted in accumulation mode rests, so inserting it again is refused. */
  lemma InsertTwiceRefused(b: Book, o: Order)
    requires Valid(b) && Insert(b, o, false).Some?
    ensures Insert(Insert(b, o, false).value.book, o, false) == None
  {
    var s := SideOf(b, o.side);
    RestCounts(o.side, s, o, 0, o.clientId, o.orderId);
    OccurrencesFirstMatch(Rest(s, o), o.clientId, o.orderId);
  }

  /** Delete succeeds exactly when an order with that identity rests on that side. */
  lemma DeleteSucceedsIffResting(b: Book, clientId: nat, orderId: nat, side: Side)
    ensures Delete(b, clientId, orderId, side).Some? <==> Occurrences(SideOf(b, side), clientId, orderId) > 0
  {
    OccurrencesFirstMatch(SideOf(b, side), clientId, orderId);
  }

  /** Deleting an identity that rests once succeeds, and deleting it again is refused. */
  lemma DeleteOnce(b: Book, clientId: nat, orderId: nat, side: Side)
    requires Occurrences(SideOf(b, side), clientId, orderId) == 1
    ensures Delete(b, clientId, orderId, side).Some?
    ensures Delete(Delete(b, clientId, orderId, side).value, clientId, orderId, side) == None
  {
    var s := SideOf(b, side);
    OccurrencesFirstMatch(s, clientId, orderId);
    var i := FirstMatch(s, clientId, orderId);
    RemoveCounts(s, i, 0, clientId, orderId);
    OccurrencesFirstMatch(Remove(s, i), clientId, orderId);
  }

  /** Delete takes one order out of its level: the level's count and quantity drop by that
      order, every other level is unchanged, and a level left with no order disappears
      from the aggregated view. */
  lemma DeleteLevels(b: Book, clientId: nat, orderId: nat, side: Side, p: int)
    requires Valid(b) && Delete(b, clientId, orderId, side).Some?
    ensures var s, x := SideOf(b, side), SideOf(b, side)[FirstMatch(SideOf(b, side), clientId, orderId)];
      var s' := SideOf(Delete(b, clientId, orderId, side).value, side);
      && Valid(Delete(b, clientId, orderId, side).value)
      && CountAt(s', p) == CountAt(s, p) - (if x.price == p then 1 else 0)
      && QtyAt(s', p) == QtyAt(s, p) - (if x.price == p then x.qty else 0)
      && (p in LevelPrices(Aggregate(s')) <==> CountAt(s', p) > 0)
      && SideOf(Delete(b, clientId, orderId, side).value, Opposite(side)) == SideOf(b, Opposite(side))
  {
    var s := SideOf(b, side);
    var i := FirstMatch(s, clientId, orderId);
    RemoveCounts(s, i, p, clientId, orderId);
    RemoveWellFormed(side, s, i);
    AggregateExact(side, Remove(s, i));
    PricesCount(Remove(s, i), p);
  }

  /** A price is resting exactly when some order rests at it. */
  lemma {:induction false} PricesCount(s: seq<Order>, p: int)
    ensures p in Prices(s) <==> CountAt(s, p) > 0
  {
    if s != [] {
      PricesCons(s);
      PricesCount(s[1..], p);
    }
  }

  /** A replace in accumulation mode moves one order: the old order leaves its level, the
      new quantity joins the new price's level, a level left with no order disappears from
      the aggregated view, and the side keeps its order count. */
  lemma ModifyLevels(b: Book, r: OrderReplace, p: int)
    requires Valid(b) && r.qty > 0 && Modify(b, r, false).Some?
    ensures var s := SideOf(b, r.side);
      var x := s[FirstMatch(s, r.clientId, r.oldOrderId)];
      var s' := SideOf(Modify(b, r, false).value.book, r.side);
      && Valid(Modify(b, r, false).value.book)
      && Modify(b, r, false).value.deals == []
      && |s'| == |s|
      && CountAt(s', p) == CountAt(s, p) - (if x.price == p then 1 else 0) + (if r.price == p then 1 else 0)
      && QtyAt(s', p) == QtyAt(s, p) - (if x.price == p then x.qty else 0) + (if r.price == p then r.qty else 0)
      && (p in LevelPrices(Aggregate(s')) <==> CountAt(s', p) > 0)
      && SideOf(Modify(b, r, false).value.book, Opposite(r.side)) == SideOf(b, Opposite(r.side))
  {
    var s := SideOf(b, r.side);
    var i := FirstMatch(s, r.clientId, r.oldOrderId);
    RemoveCounts(s, i, p, 0, 0);
    RemoveWellFormed(r.side, s, i);
    RestCounts(r.side, Remove(s, i), Replacement(r), p, 0, 0);
    RestContents(Remove(s, i), Replacement(r));
    SubmitValid(WithSide(b, r.side, Remove(s, i)), Replacement(r), false);
    var s' := Rest(Remove(s, i), Replacement(r));
    AggregateExact(r.side, s');
    PricesCount(s', p);
  }

  /** Removing an order never makes a side's best price better, so it keeps the book uncrossed. */
  lemma {:induction false} DeleteKeepsUncrossed(b: Book, side: Side, i: nat)
    requires Valid(b) && Uncrossed(b) && i < |SideOf(b, side)|
    ensures Valid(WithSide(b, side, Remove(SideOf(b, side), i)))
    ensures Uncrossed(WithSide(b, side, Remove(SideOf(b, side), i)))
  {
    var s := SideOf(b, side);
    RemoveWellFormed(side, s, i);
    var t := Remove(s, i);
    if t != [] {
      assert t[0] == s[0] || t[0] == s[1];
    }
  }

  /** A replace with matching keeps the book valid and an uncrossed book uncrossed. */
  lemma ModifyKeepsUncrossed(b: Book, r: OrderReplace)
    requires Valid(b) && Uncrossed(b) && r.qty > 0 && Modify(b, r, true).Some?
    ensures Valid(Modify(b, r, true).value.book) && Uncrossed(Modify(b, r, true).value.book)
  {
    var s := SideOf(b, r.side);
    var i := FirstMatch(s, r.clientId, r.oldOrderId);
    DeleteKeepsUncrossed(b, r.side, i);
    SubmitValid(WithSide(b, r.side, Remove(s, i)), Replacement(r), true);
    SubmitKeepsUncrossed(WithSide(b, r.side, Remove(s, i)), Replacement(r));
  }
}
