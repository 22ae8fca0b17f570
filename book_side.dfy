/**
 * One side of the book as a sequence of resting orders in price-time priority:
 * the head is the next order to trade. Position within a price level stands for
 * the arrival sequence: an order that arrives later at the same price is placed
 * behind every order already resting at that price.
 */
module BookSide {
  import opened Orders

  /** Index of the first resting order with identity (clientId, orderId), or |s| when none rests. */
  function FirstMatch(s: seq<Order>, clientId: nat, orderId: nat): (i: nat)
    ensures i <= |s|
    ensures i < |s| ==> IsOrder(s[i], clientId, orderId)
    ensures forall j :: 0 <= j < i ==> !IsOrder(s[j], clientId, orderId)
  {
    if s == [] then 0
    else if IsOrder(s[0], clientId, orderId) then 0
    else 1 + FirstMatch(s[1..], clientId, orderId)
  }

  /** Some order of `s` has the identity (clientId, orderId). */
  ghost predicate Rests(s: seq<Order>, clientId: nat, orderId: nat) {
    exists i :: 0 <= i < |s| && IsOrder(s[i], clientId, orderId)
  }

  /** No two orders of `s` share an identity. */
  ghost predicate Distinct(s: seq<Order>) {
    forall i, j :: 0 <= i < j < |s| ==> !IsOrder(s[j], s[i].clientId, s[i].orderId)
  }

  /** Number of resting orders with identity (clientId, orderId). */
  function Occurrences(s: seq<Order>, clientId: nat, orderId: nat): nat {
    if s == [] then 0
    else (if IsOrder(s[0], clientId, orderId) then 1 else 0) + Occurrences(s[1..], clientId, orderId)
  }

  function Remove(s: seq<Order>, i: nat): seq<Order>
    requires i < |s|
  {
    s[..i] + s[i + 1..]
  }

  /** The side after `o` rests on it: `o` goes behind every order whose price is at
      least as good as its own, that is at the tail of its price level. */
  function Rest(s: seq<Order>, o: Order): (r: seq<Order>)
    ensures |r| == |s| + 1
    ensures o in r
  {
    if s == [] || !AtLeastAsGood(o.side, s[0].price, o.price) then [o] + s
    else [s[0]] + Rest(s[1..], o)
  }

  /** Number of leading orders whose price is at least as good as `o`'s. */
  function Slot(s: seq<Order>, o: Order): nat {
    if s == [] || !AtLeastAsGood(o.side, s[0].price, o.price) then 0
    else 1 + Slot(s[1..], o)
  }

  /** Rest places the order after its first Slot(s, o) orders. */
  lemma {:induction false} RestSplits(s: seq<Order>, o: Order)
    ensures Slot(s, o) <= |s|
    ensures Rest(s, o) == s[..Slot(s, o)] + [o] + s[Slot(s, o)..]
  {
    if s != [] && AtLeastAsGood(o.side, s[0].price, o.price) {
      RestSplits(s[1..], o);
      var k := Slot(s[1..], o);
      assert s[..k + 1] == [s[0]] + s[1..][..k];
      assert s[k + 1..] == s[1..][k..];
    }
  }

  /** On a well-formed side, the first Slot(s, o) orders are at `o`'s price or better
      and every later one is at a strictly worse price. */
  lemma {:induction false} SlotSeparates(side: Side, s: seq<Order>, o: Order)
    requires WellFormed(side, s) && o.side == side
    ensures Slot(s, o) <= |s|
    ensures forall i :: 0 <= i < Slot(s, o) ==> AtLeastAsGood(side, s[i].price, o.price)
    ensures forall i :: Slot(s, o) <= i < |s| ==> !AtLeastAsGood(side, s[i].price, o.price)
  {
    if s != [] && AtLeastAsGood(o.side, s[0].price, o.price) {
      WellFormedTail(side, s);
      SlotSeparates(side, s[1..], o);
      var k := Slot(s[1..], o);
      forall i | 0 <= i < k + 1
        ensures AtLeastAsGood(side, s[i].price, o.price)
      {
        if i > 0 { assert s[i] == s[1..][i - 1]; }
      }
      forall i | k + 1 <= i < |s|
        ensures !AtLeastAsGood(side, s[i].price, o.price)
      {
        assert s[i] == s[1..][i - 1];
      }
    } else if s != [] {
      forall i | 0 <= i < |s|
        ensures !AtLeastAsGood(side, s[i].price, o.price)
      {
        assert AtLeastAsGood(side, s[0].price, s[i].price) || i == 0;
      }
    }
  }

  /** Rest places the order at its slot: behind all orders at its price or better
      (time priority), ahead of every order at a strictly worse price. */
  lemma {:induction false} RestAtSlot(side: Side, s: seq<Order>, o: Order)
    requires WellFormed(side, s) && o.side == side
    ensures Slot(s, o) <= |s|
    ensures Rest(s, o) == s[..Slot(s, o)] + [o] + s[Slot(s, o)..]
    ensures forall i :: 0 <= i < Slot(s, o) ==> AtLeastAsGood(side, s[i].price, o.price)
    ensures forall i :: Slot(s, o) <= i < |s| ==> !AtLeastAsGood(side, s[i].price, o.price)
  {
    RestSplits(s, o);
    SlotSeparates(side, s, o);
  }

  lemma {:induction false} RestContents(s: seq<Order>, o: Order)
    ensures |Rest(s, o)| == |s| + 1
    ensures multiset(Rest(s, o)) == multiset(s) + multiset{o}
    ensures Rest(s, o)[0] == o || (s != [] && Rest(s, o)[0] == s[0])
  {
    if s != [] && AtLeastAsGood(o.side, s[0].price, o.price) {
      RestContents(s[1..], o);
      assert s == [s[0]] + s[1..];
    }
  }

  /** Putting a positive order at position k, behind the orders at its price or better
      and ahead of the strictly worse ones, keeps the side well formed. */
  lemma InsertAtWellFormed(side: Side, s: seq<Order>, k: nat, o: Order)
    requires WellFormed(side, s) && o.side == side && o.qty > 0 && k <= |s|
    requires forall i :: 0 <= i < k ==> AtLeastAsGood(side, s[i].price, o.price)
    requires forall i :: k <= i < |s| ==> !AtLeastAsGood(side, s[i].price, o.price)
    ensures WellFormed(side, s[..k] + [o] + s[k..])
  {
    var t := s[..k] + [o] + s[k..];
    forall a | 0 <= a < |t|
      ensures t[a] == if a < k then s[a] else if a == k then o else s[a - 1]
    {
    }
    forall i, j | 0 <= i < j < |t|
      ensures AtLeastAsGood(side, t[i].price, t[j].price)
    {
      if j < k {
      } else if j == k {
      } else if i < k {
        assert AtLeastAsGood(side, s[i].price, s[j - 1].price);
      } else if i == k {
        assert !AtLeastAsGood(side, s[j - 1].price, o.price);
      }
    }
  }

  /** Resting a positive order keeps the side well formed. */
  lemma RestWellFormed(side: Side, s: seq<Order>, o: Order)
    requires WellFormed(side, s) && o.side == side && o.qty > 0
    ensures WellFormed(side, Rest(s, o))
  {
    RestAtSlot(side, s, o);
    InsertAtWellFormed(side, s, Slot(s, o), o);
  }

  lemma RemoveWellFormed(side: Side, s: seq<Order>, i: nat)
    requires WellFormed(side, s) && i < |s|
    ensures WellFormed(side, Remove(s, i))
    ensures multiset(Remove(s, i)) + multiset{s[i]} == multiset(s)
  {
    var t := Remove(s, i);
    forall a | 0 <= a < |t| ensures t[a] == s[if a < i then a else a + 1] { }
    assert s == s[..i] + [s[i]] + s[i + 1..];
  }

  /** The resting order `r` after `t` of its quantity traded: gone when filled, else reduced. */
  function AfterFill(r: Order, rest: seq<Order>, t: nat): seq<Order>
    requires t <= r.qty
  {
    if t == r.qty then rest else [r.(qty := r.qty - t)] + rest
  }

  /** `t` is what remains of `s` after orders were consumed from its head: a suffix of
      `s` whose first order may have had its quantity reduced. */
  ghost predicate Consumed(s: seq<Order>, t: seq<Order>) {
    && |t| <= |s|
    && (|| t == s[|s| - |t|..]
        || (&& t != []
            && t[1..] == s[|s| - |t| + 1..]
            && t[0] == s[|s| - |t|].(qty := t[0].qty)
            && t[0].qty < s[|s| - |t|].qty))
  }

  lemma {:induction false} ConsumedWellFormed(side: Side, s: seq<Order>, t: seq<Order>)
    requires WellFormed(side, s) && Consumed(s, t)
    requires forall i :: 0 <= i < |t| ==> t[i].qty > 0
    ensures WellFormed(side, t)
    ensures t != [] ==> AtLeastAsGood(side, s[0].price, t[0].price)
  {
    var d := |s| - |t|;
    forall i | 0 <= i < |t| ensures t[i].price == s[d + i].price && t[i].side == s[d + i].side {
      if t != s[d..] && i > 0 { assert t[i] == t[1..][i - 1]; }
    }
  }

  /** Replacing the head by an order at the same price keeps a side well formed. */
  lemma ReplaceHeadWellFormed(side: Side, s: seq<Order>, h: Order)
    requires WellFormed(side, s) && s != []
    requires h.side == side && h.price == s[0].price && h.qty > 0
    ensures WellFormed(side, [h] + s[1..])
  {
    var u := [h] + s[1..];
    forall i | 1 <= i < |u| ensures u[i] == s[i] { }
    forall i, j | 0 <= i < j < |u| ensures AtLeastAsGood(side, u[i].price, u[j].price) {
      assert u[j] == s[j];
      if i > 0 { assert u[i] == s[i]; }
    }
  }

  /** Trading `t` off the head of a side consumes it from its head. */
  lemma AfterFillConsumed(s: seq<Order>, t: nat)
    requires s != [] && t <= s[0].qty
    ensures Consumed(s, AfterFill(s[0], s[1..], t))
  {
    var u := AfterFill(s[0], s[1..], t);
    if t == s[0].qty {
      assert u == s[|s| - |u|..];
    } else if t == 0 {
      assert u == s[|s| - |u|..];
    } else {
      assert u[1..] == s[|s| - |u| + 1..];
    }
  }

  /** Trading `t` off the head of a well-formed side leaves it well formed and consumed from its head. */
  lemma {:induction false} AfterFillHead(side: Side, s: seq<Order>, t: nat)
    requires WellFormed(side, s) && s != [] && t <= s[0].qty
    ensures WellFormed(side, AfterFill(s[0], s[1..], t))
    ensures Consumed(s, AfterFill(s[0], s[1..], t))
  {
    AfterFillConsumed(s, t);
    if t == s[0].qty {
      WellFormedTail(side, s);
    } else {
      ReplaceHeadWellFormed(side, s, s[0].(qty := s[0].qty - t));
    }
  }

  /** Number of resting orders at price p. */
  function CountAt(s: seq<Order>, p: int): nat {
    if s == [] then 0 else (if s[0].price == p then 1 else 0) + CountAt(s[1..], p)
  }

  /** Total resting quantity at price p. */
  function QtyAt(s: seq<Order>, p: int): nat {
    if s == [] then 0 else (if s[0].price == p then s[0].qty else 0) + QtyAt(s[1..], p)
  }

  function Prices(s: seq<Order>): set<int> {
    set i | 0 <= i < |s| :: s[i].price
  }

  function LevelPrices(v: seq<Level>): set<int> {
    set i | 0 <= i < |v| :: v[i].price
  }

  /** The aggregated view of a side: one (count, total quantity, price) entry per run
      of equal prices, in book order. */
  function Aggregate(s: seq<Order>): (v: seq<Level>)
    ensures v == [] <==> s == []
    ensures v != [] ==> v[0].price == s[0].price
  {
    if s == [] then []
    else
      var v := Aggregate(s[1..]);
      if v != [] && v[0].price == s[0].price then
        [Level(v[0].count + 1, v[0].total + s[0].qty, s[0].price)] + v[1..]
      else
        [Level(1, s[0].qty, s[0].price)] + v
  }

  lemma {:induction false} CountAtAbsent(s: seq<Order>, p: int)
    requires forall i :: 0 <= i < |s| ==> s[i].price != p
    ensures CountAt(s, p) == 0 && QtyAt(s, p) == 0
  {
    if s != [] {
      CountAtAbsent(s[1..], p);
    }
  }

  lemma PricesCons(s: seq<Order>)
    requires s != []
    ensures Prices(s) == {s[0].price} + Prices(s[1..])
  {
    var t := s[1..];
    forall x | x in Prices(s) ensures x in {s[0].price} + Prices(t) {
      var i :| 0 <= i < |s| && s[i].price == x;
      if i > 0 { assert t[i - 1] == s[i]; }
    }
    forall x | x in Prices(t) ensures x in Prices(s) {
      var i :| 0 <= i < |t| && t[i].price == x;
      assert s[i + 1] == t[i];
    }
  }

  /** Entries strictly in price priority: better prices first, no price twice. */
  ghost predicate StrictlyOrdered(side: Side, v: seq<Level>) {
    forall i, j :: 0 <= i < j < |v| ==> AtLeastAsGood(side, v[i].price, v[j].price) && v[i].price != v[j].price
  }

  /** Each entry holds the (positive) order count and the quantity sum of `s` at its price. */
  ghost predicate Tallied(s: seq<Order>, v: seq<Level>) {
    forall i :: 0 <= i < |v| ==> v[i].count == CountAt(s, v[i].price) > 0 && v[i].total == QtyAt(s, v[i].price)
  }

  /** `v` is the exact aggregated view of side `s`. */
  ghost predicate ExactView(side: Side, s: seq<Order>, v: seq<Level>) {
    && StrictlyOrdered(side, v)
    && Tallied(s, v)
    && LevelPrices(v) == Prices(s)
    && (s != [] ==> v != [] && v[0].price == s[0].price)
  }

  /** Two views with the same prices position by position have the same price set and order. */
  lemma SamePrices(side: Side, v: seq<Level>, w: seq<Level>)
    requires |v| == |w| && forall i :: 0 <= i < |v| ==> v[i].price == w[i].price
    ensures LevelPrices(v) == LevelPrices(w)
    ensures StrictlyOrdered(side, w) ==> StrictlyOrdered(side, v)
  {
    forall x | x in LevelPrices(w) ensures x in LevelPrices(v) {
      var i :| 0 <= i < |w| && w[i].price == x;
      assert v[i].price == x;
    }
  }

  /** The head order joins the first level of the tail's view. */
  lemma {:induction false} AggregateJoin(side: Side, s: seq<Order>)
    requires s != []
    requires ExactView(side, s[1..], Aggregate(s[1..]))
    requires Aggregate(s[1..]) != [] && Aggregate(s[1..])[0].price == s[0].price
    ensures ExactView(side, s, Aggregate(s))
  {
    var t, w, v := s[1..], Aggregate(s[1..]), Aggregate(s);
    var p := s[0].price;
    assert v == [Level(w[0].count + 1, w[0].total + s[0].qty, p)] + w[1..];
    assert StrictlyOrdered(side, v) && LevelPrices(v) == Prices(s) by {
      forall i | 0 <= i < |v| ensures v[i].price == w[i].price {
        if i > 0 { assert v[i] == w[i]; }
      }
      SamePrices(side, v, w);
      PricesCons(s);
      assert p in Prices(t) by { assert w[0].price in LevelPrices(w); }
    }
    assert Tallied(s, v) by {
      forall i | 0 <= i < |v| ensures v[i].count == CountAt(s, v[i].price) > 0 && v[i].total == QtyAt(s, v[i].price) {
        if i > 0 {
          assert v[i] == w[i];
          assert w[i].price != w[0].price;
        }
      }
    }
  }

  /** The head order opens a new level ahead of the tail's view. */
  lemma {:induction false} AggregateOpen(side: Side, s: seq<Order>)
    requires WellFormed(side, s) && s != []
    requires ExactView(side, s[1..], Aggregate(s[1..]))
    requires !(Aggregate(s[1..]) != [] && Aggregate(s[1..])[0].price == s[0].price)
    ensures ExactView(side, s, Aggregate(s))
  {
    var t, w, v := s[1..], Aggregate(s[1..]), Aggregate(s);
    var p := s[0].price;
    assert v == [Level(1, s[0].qty, p)] + w;
    forall i | 1 <= i < |v| ensures v[i] == w[i - 1] { }
    PricesCons(s);
    assert LevelPrices(v) == {p} + LevelPrices(w) by {
      forall x | x in LevelPrices(w) ensures x in LevelPrices(v) {
        var i :| 0 <= i < |w| && w[i].price == x;
        assert v[i + 1] == w[i];
      }
    }
    forall i | 0 <= i < |t| ensures t[i].price != p && AtLeastAsGood(side, p, t[i].price) {
      assert t[i] == s[i + 1];
      assert t[0] == s[1];
    }
    CountAtAbsent(t, p);
    forall i | 0 <= i < |w| ensures w[i].price != p && AtLeastAsGood(side, p, w[i].price) {
      assert w[i].price in Prices(t);
    }
    assert StrictlyOrdered(side, v) by {
      forall i, j | 0 <= i < j < |v| ensures AtLeastAsGood(side, v[i].price, v[j].price) && v[i].price != v[j].price {
        assert v[j] == w[j - 1];
        if i > 0 { assert v[i] == w[i - 1]; }
      }
    }
    assert Tallied(s, v) by {
      forall i | 0 <= i < |v| ensures v[i].count == CountAt(s, v[i].price) > 0 && v[i].total == QtyAt(s, v[i].price) {
        if i > 0 { assert v[i] == w[i - 1]; }
      }
    }
  }

  /** On a well-formed side, the aggregated view has exactly one entry per distinct
      resting price, strictly in price priority (descending bids, ascending asks), and
      each entry holds the order count and the quantity sum at its price. */
  lemma {:induction false} AggregateExact(side: Side, s: seq<Order>)
    requires WellFormed(side, s)
    ensures ExactView(side, s, Aggregate(s))
  {
    if s != [] {
      WellFormedTail(side, s);
      AggregateExact(side, s[1..]);
      var w := Aggregate(s[1..]);
      if w != [] && w[0].price == s[0].price {
        AggregateJoin(side, s);
      } else {
        AggregateOpen(side, s);
      }
    }
  }
}
