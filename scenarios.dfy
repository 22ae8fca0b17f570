/**
 * The container's test scenarios replayed on the model: the order sets each test
 * loads in accumulation mode, and the aggregated views, theoretical opens and deals
 * the tests expect of them.
 */
module Scenarios {
  import opened Optional
  import opened Orders
  import opened BookSide
  import opened Continuous
  import opened Auction
  import opened Books

  /** Inserts every order of `os`, in order, in accumulation mode; None as soon as one is refused. */
  function Load(b: Book, os: seq<Order>): Option<Book>
    decreases |os|
  {
    if os == [] then Some(b)
    else if Insert(b, os[0], false).None? then None
    else Load(Insert(b, os[0], false).value.book, os[1..])
  }

  /** Loading two lists is loading the first, then the second on the result. */
  lemma {:induction false} LoadAppend(b: Book, xs: seq<Order>, ys: seq<Order>)
    ensures Load(b, xs + ys) == if Load(b, xs).None? then None else Load(Load(b, xs).value, ys)
    decreases |xs|
  {
    if xs == [] {
      assert xs + ys == ys;
    } else {
      assert (xs + ys)[1..] == xs[1..] + ys;
      if Insert(b, xs[0], false).Some? {
        LoadAppend(Insert(b, xs[0], false).value.book, xs[1..], ys);
      }
    }
  }

  /** Loading the orders before the k-th and then the k-th succeeds, and inserting the
      k-th again straight away is refused. */
  ghost predicate RefusedAgain(b: Book, os: seq<Order>, k: nat)
    requires k < |os|
  {
    Load(b, os[..k] + [os[k]]).Some? && Insert(Load(b, os[..k] + [os[k]]).value, os[k], false).None?
  }

  /** Every order of `os` is refused when inserted again straight after it went in. */
  ghost predicate RepeatsRefused(b: Book, os: seq<Order>) {
    forall k :: 0 <= k < |os| ==> RefusedAgain(b, os, k)
  }

  /** Every order of `os` has a positive quantity. */
  ghost predicate Positive(os: seq<Order>) {
    forall i :: 0 <= i < |os| ==> os[i].qty > 0
  }

  /** A load of positive orders that succeeds leaves a valid book. */
  lemma {:induction false} LoadValid(b: Book, os: seq<Order>)
    requires Valid(b) && Positive(os) && Load(b, os).Some?
    ensures Valid(Load(b, os).value)
    decreases |os|
  {
    if os != [] {
      SubmitValid(b, os[0], false);
      assert Positive(os[1..]) by {
        forall i | 0 <= i < |os[1..]| ensures os[1..][i].qty > 0 {
          assert os[1..][i] == os[i + 1];
        }
      }
      LoadValid(Insert(b, os[0], false).value.book, os[1..]);
    }
  }

  /** A load that succeeds also succeeds on each of its prefixes. */
  lemma LoadPrefixSome(b: Book, xs: seq<Order>, ys: seq<Order>)
    requires Load(b, xs + ys).Some?
    ensures Load(b, xs).Some?
  {
    LoadAppend(b, xs, ys);
  }

  /** Loading one more order is inserting it on the book loaded so far. */
  lemma LoadSnoc(b: Book, xs: seq<Order>, o: Order)
    requires Load(b, xs + [o]).Some?
    ensures Load(b, xs).Some? && Insert(Load(b, xs).value, o, false).Some?
    ensures Load(b, xs + [o]) == Some(Insert(Load(b, xs).value, o, false).value.book)
  {
    LoadAppend(b, xs, [o]);
    assert [o][1..] == [];
  }

  /** A sequence is its part before index k, its k-th element and the part after. */
  lemma SplitAt(os: seq<Order>, k: nat)
    requires k < |os|
    ensures os[..k] + [os[k]] + os[k + 1..] == os
  {
  }

  /** Every prefix of positive orders is positive. */
  lemma PositivePrefix(os: seq<Order>, k: nat)
    requires Positive(os) && k <= |os|
    ensures Positive(os[..k])
  {
    forall i | 0 <= i < k ensures os[..k][i].qty > 0 {
      assert os[..k][i] == os[i];
    }
  }

  /** When loading `xs` and then `o` succeeds, inserting `o` once more is refused. */
  lemma RefusedAfter(b: Book, xs: seq<Order>, o: Order)
    requires Valid(b) && Positive(xs) && Load(b, xs + [o]).Some?
    ensures Insert(Load(b, xs + [o]).value, o, false).None?
  {
    LoadSnoc(b, xs, o);
    LoadValid(b, xs);
    InsertTwiceRefused(Load(b, xs).value, o);
  }

  /** On a load of positive orders that succeeds, an order is refused when inserted
      again straight after it went in. */
  lemma RefusedAt(b: Book, before: seq<Order>, o: Order, after: seq<Order>)
    requires Valid(b) && Positive(before) && Load(b, before + [o] + after).Some?
    ensures Load(b, before + [o]).Some? && Insert(Load(b, before + [o]).value, o, false).None?
  {
    LoadPrefixSome(b, before + [o], after);
    RefusedAfter(b, before, o);
  }

  /** The fixture's insert loop: every order accepted by a load is refused when inserted
      again straight after it went in. */
  lemma LoadRefusesRepeats(b: Book, os: seq<Order>)
    requires Valid(b) && Positive(os) && Load(b, os).Some?
    ensures RepeatsRefused(b, os)
  {
    forall k | 0 <= k < |os| ensures RefusedAgain(b, os, k) {
      SplitAt(os, k);
      PositivePrefix(os, k);
      RefusedAt(b, os[..k], os[k], os[k + 1..]);
    }
  }

  /** An order no better than every resting order goes to the tail. */
  lemma {:induction false} RestAtTail(s: seq<Order>, o: Order)
    requires forall i :: 0 <= i < |s| ==> AtLeastAsGood(o.side, s[i].price, o.price)
    ensures Rest(s, o) == s + [o]
  {
    if s != [] {
      RestAtTail(s[1..], o);
      assert s == [s[0]] + s[1..];
    }
  }

  /** Orders of one side that arrive already in priority order, with distinct identities,
      are all accepted and rest in arrival order behind the orders `done` already resting. */
  lemma {:induction false} LoadInOrder(b: Book, side: Side, done: seq<Order>, os: seq<Order>)
    requires SideOf(b, side) == done
    requires WellFormed(side, done + os) && Distinct(done + os)
    ensures Load(b, os) == Some(WithSide(b, side, done + os))
    decreases |os|
  {
    if os == [] {
      assert done + os == done;
    } else {
      var o := os[0];
      var all := done + os;
      assert all[|done|] == o;
      forall k | 0 <= k < |done|
        ensures AtLeastAsGood(side, done[k].price, o.price) && !IsOrder(o, done[k].clientId, done[k].orderId)
      {
        assert all[k] == done[k];
      }
      assert FirstMatch(done, o.clientId, o.orderId) == |done|;
      RestAtTail(done, o);
      var b' := WithSide(b, side, done + [o]);
      assert Insert(b, o, false) == Some(Outcome(b', []));
      assert (done + [o]) + os[1..] == all;
      LoadInOrder(b', side, done + [o], os[1..]);
    }
  }

  /** Orders of one side arriving in priority order onto an empty side rest in arrival order. */
  lemma LoadSide(b: Book, side: Side, os: seq<Order>)
    requires SideOf(b, side) == []
    requires WellFormed(side, os) && Distinct(os)
    ensures Load(b, os) == Some(WithSide(b, side, os))
  {
    assert [] + os == os;
    LoadInOrder(b, side, [], os);
  }

  /** A book whose two sides each arrive in priority order loads into exactly those sides. */
  lemma LoadBook(bids: seq<Order>, asks: seq<Order>)
    requires WellFormed(Buy, bids) && Distinct(bids)
    requires WellFormed(Sell, asks) && Distinct(asks)
    ensures Load(EMPTY, bids + asks) == Some(Book(bids, asks))
  {
    LoadSide(EMPTY, Buy, bids);
    assert Load(EMPTY, bids) == Some(Book(bids, [])) by {
      assert WithSide(EMPTY, Buy, bids) == Book(bids, []);
    }
    LoadSide(Book(bids, []), Sell, asks);
    assert Load(Book(bids, []), asks) == Some(Book(bids, asks)) by {
      assert WithSide(Book(bids, []), Sell, asks) == Book(bids, asks);
    }
    LoadAppend(EMPTY, bids, asks);
  }

  /** A side listed in strict priority order, one client, order ids increasing: each
      order is checked against its successor only. */
  predicate Chain(side: Side, s: seq<Order>)
    decreases |s|
  {
    s == [] || (
      && s[0].side == side && s[0].qty > 0
      && (|s| == 1 || (
        && AtLeastAsGood(side, s[0].price, s[1].price)
        && s[1].clientId == s[0].clientId && s[0].orderId < s[1].orderId))
      && Chain(side, s[1..]))
  }

  /** A chain is a well-formed side with distinct identities. */
  lemma {:induction false} ChainFacts(side: Side, s: seq<Order>)
    requires Chain(side, s)
    ensures WellFormed(side, s) && Distinct(s)
    ensures forall j :: 0 <= j < |s| ==>
      s[j].clientId == s[0].clientId && s[0].orderId <= s[j].orderId && AtLeastAsGood(side, s[0].price, s[j].price)
    decreases |s|
  {
    if |s| > 1 {
      var t := s[1..];
      ChainFacts(side, t);
      forall j | 1 <= j < |s|
        ensures s[j].clientId == s[0].clientId && s[0].orderId < s[j].orderId && AtLeastAsGood(side, s[0].price, s[j].price)
      {
        assert s[j] == t[j - 1];
      }
      forall i, j | 0 <= i < j < |s| ensures AtLeastAsGood(side, s[i].price, s[j].price) && !IsOrder(s[j], s[i].clientId, s[i].orderId) {
        if i > 0 {
          assert s[i] == t[i - 1] && s[j] == t[j - 1];
        }
      }
    }
  }

  /** Two chains load into exactly those two sides. */
  lemma LoadChains(bids: seq<Order>, asks: seq<Order>)
    requires Chain(Buy, bids) && Chain(Sell, asks)
    ensures Load(EMPTY, bids + asks) == Some(Book(bids, asks))
  {
    ChainFacts(Buy, bids);
    ChainFacts(Sell, asks);
    LoadBook(bids, asks);
  }

  // ---------------------------------------------------------------------------
  // The fixture book: six bids of client 1 and six asks of client 2.

  /** The fixture's bids in arrival order, in three pairs. */
  const BIDS_1 := [Order(Buy, 1000, 1234, 1, 5), Order(Buy, 2000, 1234, 1, 6)]
  const BIDS_2 := [Order(Buy, 3000, 1321, 1, 7), Order(Buy, 4000, 1325, 1, 8)]
  const BIDS_3 := [Order(Buy, 5000, 2185, 1, 9), Order(Buy, 6000, 2185, 1, 10)]

  /** The fixture book: bids best price first, each level in arrival order. The asks
      arrive in priority order, so they rest in arrival order. */
  const FIXTURE_BIDS := [
    Order(Buy, 5000, 2185, 1, 9), Order(Buy, 6000, 2185, 1, 10), Order(Buy, 4000, 1325, 1, 8),
    Order(Buy, 3000, 1321, 1, 7), Order(Buy, 1000, 1234, 1, 5), Order(Buy, 2000, 1234, 1, 6)]
  const FIXTURE_ASKS := [
    Order(Sell, 8000, 4321, 2, 1), Order(Sell, 7000, 4321, 2, 2), Order(Sell, 6000, 4526, 2, 3),
    Order(Sell, 5000, 4580, 2, 4), Order(Sell, 4000, 8526, 2, 5), Order(Sell, 3000, 8526, 2, 6)]

  const HELD_4 := [
    Order(Buy, 4000, 1325, 1, 8), Order(Buy, 3000, 1321, 1, 7), Order(Buy, 1000, 1234, 1, 5), Order(Buy, 2000, 1234, 1, 6)]

  lemma FixtureBids1()
    ensures Load(EMPTY, BIDS_1).Some? && Load(EMPTY, BIDS_1).value == Book(BIDS_1, [])
  {
    assert Rest([], BIDS_1[0]) == [BIDS_1[0]];
  }

  lemma FixtureBids2()
    ensures Load(Book(BIDS_1, []), BIDS_2).Some? && Load(Book(BIDS_1, []), BIDS_2).value == Book(HELD_4, [])
  {
  }

  /** Order 9 goes ahead of every resting bid. */
  lemma FixtureBid9()
    ensures Insert(Book(HELD_4, []), BIDS_3[0], false) == Some(Outcome(Book([BIDS_3[0]] + HELD_4, []), []))
  {
  }

  /** Order 10 joins order 9 at 2185, behind it. */
  lemma FixtureBid10()
    ensures Insert(Book([BIDS_3[0]] + HELD_4, []), BIDS_3[1], false) == Some(Outcome(Book(FIXTURE_BIDS, []), []))
  {
    var s := [BIDS_3[0]] + HELD_4;
    assert s[1..] == HELD_4;
    assert Rest(HELD_4, BIDS_3[1]) == [BIDS_3[1]] + HELD_4;
    assert Rest(s, BIDS_3[1]) == [BIDS_3[0], BIDS_3[1]] + HELD_4;
    assert FirstMatch(HELD_4, 1, 10) == 4;
    assert FirstMatch(s, 1, 10) == 5;
    assert [BIDS_3[0], BIDS_3[1]] + HELD_4 == FIXTURE_BIDS;
    assert Submit(Book(s, []), BIDS_3[1], false) == Outcome(Book(FIXTURE_BIDS, []), []);
  }

  lemma FixtureBids3()
    ensures Load(Book(HELD_4, []), BIDS_3).Some? && Load(Book(HELD_4, []), BIDS_3).value == Book(FIXTURE_BIDS, [])
  {
    FixtureBid9();
    FixtureBid10();
    assert BIDS_3[1..][1..] == [];
  }

  lemma FixtureAsks()
    ensures Load(Book(FIXTURE_BIDS, []), FIXTURE_ASKS) == Some(Book(FIXTURE_BIDS, FIXTURE_ASKS))
  {
    ChainFacts(Sell, FIXTURE_ASKS);
    assert [] + FIXTURE_ASKS == FIXTURE_ASKS;
    LoadInOrder(Book(FIXTURE_BIDS, []), Sell, [], FIXTURE_ASKS);
  }

  /** The fixture's twelve inserts are all accepted and build the fixture book. */
  lemma FixtureLoads()
    ensures Load(EMPTY, BIDS_1 + BIDS_2 + BIDS_3 + FIXTURE_ASKS) == Some(Book(FIXTURE_BIDS, FIXTURE_ASKS))
  {
    FixtureBids1();
    FixtureBids2();
    FixtureBids3();
    FixtureAsks();
    LoadAppend(EMPTY, BIDS_1, BIDS_2);
    LoadAppend(EMPTY, BIDS_1 + BIDS_2, BIDS_3);
    LoadAppend(EMPTY, BIDS_1 + BIDS_2 + BIDS_3, FIXTURE_ASKS);
  }

  lemma FixtureBidsView()
    ensures Aggregate(FIXTURE_BIDS) == [Level(2, 11000, 2185), Level(1, 4000, 1325), Level(1, 3000, 1321), Level(2, 3000, 1234)]
  {
  }

  lemma FixtureAsksView()
    ensures Aggregate(FIXTURE_ASKS) == [Level(2, 15000, 4321), Level(1, 6000, 4526), Level(1, 5000, 4580), Level(2, 7000, 8526)]
  {
  }

  /** Each of the fixture's twelve orders is refused when inserted again straight after it went in. */
  lemma FixtureRepeatsRefused()
    ensures RepeatsRefused(EMPTY, BIDS_1 + BIDS_2 + BIDS_3 + FIXTURE_ASKS)
  {
    FixtureLoads();
    assert Positive(BIDS_1 + BIDS_2 + BIDS_3 + FIXTURE_ASKS);
    LoadRefusesRepeats(EMPTY, BIDS_1 + BIDS_2 + BIDS_3 + FIXTURE_ASKS);
  }

  /** AuctionInsert: the twelve inserts build the fixture book, each order's immediate
      re-insert is refused, and the book's aggregated view has one entry per resting
      price, best price first. */
  lemma AuctionInsertScenario()
    ensures Load(EMPTY, BIDS_1 + BIDS_2 + BIDS_3 + FIXTURE_ASKS) == Some(Book(FIXTURE_BIDS, FIXTURE_ASKS))
    ensures RepeatsRefused(EMPTY, BIDS_1 + BIDS_2 + BIDS_3 + FIXTURE_ASKS)
    ensures Aggregate(FIXTURE_BIDS) == [Level(2, 11000, 2185), Level(1, 4000, 1325), Level(1, 3000, 1321), Level(2, 3000, 1234)]
    ensures Aggregate(FIXTURE_ASKS) == [Level(2, 15000, 4321), Level(1, 6000, 4526), Level(1, 5000, 4580), Level(2, 7000, 8526)]
  {
    FixtureLoads();
    FixtureRepeatsRefused();
    FixtureBidsView();
    FixtureAsksView();
  }

  /** Delete of (clientId, orderId) on `side` is accepted and turns `b` into `b'`. */
  predicate Deletes(b: Book, clientId: nat, orderId: nat, side: Side, b': Book) {
    Delete(b, clientId, orderId, side).Some? && Delete(b, clientId, orderId, side).value == b'
  }

  const BIDS_D1 := [
    Order(Buy, 5000, 2185, 1, 9), Order(Buy, 6000, 2185, 1, 10), Order(Buy, 4000, 1325, 1, 8),
    Order(Buy, 3000, 1321, 1, 7), Order(Buy, 2000, 1234, 1, 6)]
  const DELETED_BIDS := [
    Order(Buy, 5000, 2185, 1, 9), Order(Buy, 4000, 1325, 1, 8), Order(Buy, 3000, 1321, 1, 7), Order(Buy, 2000, 1234, 1, 6)]
  const ASKS_D3 := [
    Order(Sell, 8000, 4321, 2, 1), Order(Sell, 7000, 4321, 2, 2), Order(Sell, 5000, 4580, 2, 4),
    Order(Sell, 4000, 8526, 2, 5), Order(Sell, 3000, 8526, 2, 6)]
  const DELETED_ASKS := [
    Order(Sell, 8000, 4321, 2, 1), Order(Sell, 7000, 4321, 2, 2), Order(Sell, 4000, 8526, 2, 5), Order(Sell, 3000, 8526, 2, 6)]

  lemma Delete1()
    ensures Deletes(Book(FIXTURE_BIDS, FIXTURE_ASKS), 1, 5, Buy, Book(BIDS_D1, FIXTURE_ASKS))
  {
  }

  lemma Delete1Again()
    ensures Delete(Book(BIDS_D1, FIXTURE_ASKS), 1, 5, Buy).None?
  {
  }

  lemma Delete2()
    ensures Deletes(Book(BIDS_D1, FIXTURE_ASKS), 1, 10, Buy, Book(DELETED_BIDS, FIXTURE_ASKS))
  {
  }

  lemma Delete3()
    ensures Deletes(Book(DELETED_BIDS, FIXTURE_ASKS), 2, 3, Sell, Book(DELETED_BIDS, ASKS_D3))
  {
  }

  lemma Delete3Again()
    ensures Delete(Book(DELETED_BIDS, ASKS_D3), 2, 3, Sell).None?
  {
  }

  lemma Delete4()
    ensures Deletes(Book(DELETED_BIDS, ASKS_D3), 2, 4, Sell, Book(DELETED_BIDS, DELETED_ASKS))
  {
  }

  lemma DeletedView()
    ensures Aggregate(DELETED_BIDS) == [Level(1, 5000, 2185), Level(1, 4000, 1325), Level(1, 3000, 1321), Level(1, 2000, 1234)]
    ensures Aggregate(DELETED_ASKS) == [Level(2, 15000, 4321), Level(2, 7000, 8526)]
  {
  }

  /** AuctionDelete: four deletes on the fixture book, each repeated delete refused, and
      the aggregated view afterwards. */
  lemma DeleteScenario()
    ensures Deletes(Book(FIXTURE_BIDS, FIXTURE_ASKS), 1, 5, Buy, Book(BIDS_D1, FIXTURE_ASKS))
    ensures Delete(Book(BIDS_D1, FIXTURE_ASKS), 1, 5, Buy).None?
    ensures Deletes(Book(BIDS_D1, FIXTURE_ASKS), 1, 10, Buy, Book(DELETED_BIDS, FIXTURE_ASKS))
    ensures Deletes(Book(DELETED_BIDS, FIXTURE_ASKS), 2, 3, Sell, Book(DELETED_BIDS, ASKS_D3))
    ensures Delete(Book(DELETED_BIDS, ASKS_D3), 2, 3, Sell).None?
    ensures Deletes(Book(DELETED_BIDS, ASKS_D3), 2, 4, Sell, Book(DELETED_BIDS, DELETED_ASKS))
    ensures Aggregate(DELETED_BIDS) == [Level(1, 5000, 2185), Level(1, 4000, 1325), Level(1, 3000, 1321), Level(1, 2000, 1234)]
    ensures Aggregate(DELETED_ASKS) == [Level(2, 15000, 4321), Level(2, 7000, 8526)]
  {
    Delete1();
    Delete1Again();
    Delete2();
    Delete3();
    Delete3Again();
    Delete4();
    DeletedView();
  }

  // ---------------------------------------------------------------------------
  // AuctionModify: two replaces in accumulation mode on the fixture book.

  /** A replace of `r` is accepted and turns `b` into `b'`, emitting `deals`. */
  predicate Modifies(b: Book, r: OrderReplace, matchNow: bool, b': Book, deals: seq<Deal>) {
    Modify(b, r, matchNow).Some? && Modify(b, r, matchNow).value == Outcome(b', deals)
  }

  const MODIFIED_BIDS := [
    Order(Buy, 5000, 2185, 1, 9), Order(Buy, 6000, 2185, 1, 10), Order(Buy, 1337, 2185, 1, 2),
    Order(Buy, 3000, 1321, 1, 7), Order(Buy, 1000, 1234, 1, 5), Order(Buy, 2000, 1234, 1, 6)]
  const MODIFIED_ASKS := [
    Order(Sell, 8000, 4321, 2, 1), Order(Sell, 7000, 4321, 2, 2), Order(Sell, 6000, 4526, 2, 3),
    Order(Sell, 3000, 4526, 2, 12), Order(Sell, 4000, 8526, 2, 5), Order(Sell, 3000, 8526, 2, 6)]

  const BIDS_WITHOUT_8 := [
    Order(Buy, 5000, 2185, 1, 9), Order(Buy, 6000, 2185, 1, 10),
    Order(Buy, 3000, 1321, 1, 7), Order(Buy, 1000, 1234, 1, 5), Order(Buy, 2000, 1234, 1, 6)]
  const ASKS_WITHOUT_4 := [
    Order(Sell, 8000, 4321, 2, 1), Order(Sell, 7000, 4321, 2, 2), Order(Sell, 6000, 4526, 2, 3),
    Order(Sell, 4000, 8526, 2, 5), Order(Sell, 3000, 8526, 2, 6)]

  /** Order 8 of client 1 is the third bid; without it, the replacement joins the tail of 2185. */
  lemma Modify1Steps()
    ensures FirstMatch(FIXTURE_BIDS, 1, 8) == 2 && Remove(FIXTURE_BIDS, 2) == BIDS_WITHOUT_8
    ensures Rest(BIDS_WITHOUT_8, Order(Buy, 1337, 2185, 1, 2)) == MODIFIED_BIDS
  {
    assert Rest(BIDS_WITHOUT_8[2..], Order(Buy, 1337, 2185, 1, 2)) == [Order(Buy, 1337, 2185, 1, 2)] + BIDS_WITHOUT_8[2..];
  }

  /** Order 4 of client 2 is the fourth ask; without it, the replacement joins the tail of 4526. */
  lemma Modify2Steps()
    ensures FirstMatch(FIXTURE_ASKS, 2, 4) == 3 && Remove(FIXTURE_ASKS, 3) == ASKS_WITHOUT_4
    ensures Rest(ASKS_WITHOUT_4, Order(Sell, 3000, 4526, 2, 12)) == MODIFIED_ASKS
  {
    assert Rest(ASKS_WITHOUT_4[3..], Order(Sell, 3000, 4526, 2, 12)) == [Order(Sell, 3000, 4526, 2, 12)] + ASKS_WITHOUT_4[3..];
  }

  lemma Modify1()
    ensures Modifies(Book(FIXTURE_BIDS, FIXTURE_ASKS), OrderReplace(Buy, 1337, 2185, 1, 2, 8), false, Book(MODIFIED_BIDS, FIXTURE_ASKS), [])
  {
    Modify1Steps();
  }

  lemma Modify2()
    ensures Modifies(Book(MODIFIED_BIDS, FIXTURE_ASKS), OrderReplace(Sell, 3000, 4526, 2, 12, 4), false, Book(MODIFIED_BIDS, MODIFIED_ASKS), [])
  {
    Modify2Steps();
  }

  lemma ModifiedBidsView()
    ensures Aggregate(MODIFIED_BIDS) == [Level(3, 12337, 2185), Level(1, 3000, 1321), Level(2, 3000, 1234)]
  {
  }

  lemma ModifiedAsksView()
    ensures Aggregate(MODIFIED_ASKS) == [Level(2, 15000, 4321), Level(2, 9000, 4526), Level(2, 7000, 8526)]
  {
  }

  /** AuctionModify: both replaces are accepted, the replacements join the tails of their
      new levels, and the aggregated view afterwards. */
  lemma ModifyScenario()
    ensures Modifies(Book(FIXTURE_BIDS, FIXTURE_ASKS), OrderReplace(Buy, 1337, 2185, 1, 2, 8), false, Book(MODIFIED_BIDS, FIXTURE_ASKS), [])
    ensures Modifies(Book(MODIFIED_BIDS, FIXTURE_ASKS), OrderReplace(Sell, 3000, 4526, 2, 12, 4), false, Book(MODIFIED_BIDS, MODIFIED_ASKS), [])
    ensures Aggregate(MODIFIED_BIDS) == [Level(3, 12337, 2185), Level(1, 3000, 1321), Level(2, 3000, 1234)]
    ensures Aggregate(MODIFIED_ASKS) == [Level(2, 15000, 4321), Level(2, 9000, 4526), Level(2, 7000, 8526)]
  {
    Modify1();
    Modify2();
    ModifiedBidsView();
    ModifiedAsksView();
  }

  // ---------------------------------------------------------------------------
  // AuctionFixing and AuctionMatching: two call-auction books.

  const AUCTION1_BIDS := [
    Order(Buy, 1200, 90, 1, 5), Order(Buy, 350, 89, 1, 6), Order(Buy, 150, 88, 1, 7), Order(Buy, 230, 87, 1, 8)]
  const AUCTION1_ASKS := [
    Order(Sell, 900, 90, 2, 1), Order(Sell, 650, 91, 2, 2), Order(Sell, 500, 92, 2, 3),
    Order(Sell, 350, 93, 2, 4), Order(Sell, 400, 94, 2, 5)]

  const AUCTION2_BIDS := [
    Order(Buy, 200, 41, 1, 5), Order(Buy, 300, 40, 1, 6), Order(Buy, 150, 39, 1, 7),
    Order(Buy, 50, 38, 1, 8), Order(Buy, 10, 37, 1, 9)]
  const AUCTION2_ASKS := [
    Order(Sell, 100, 35, 2, 1), Order(Sell, 200, 36, 2, 2), Order(Sell, 50, 37, 2, 3),
    Order(Sell, 200, 39, 2, 4), Order(Sell, 20, 40, 2, 5)]

  lemma Auction1Loads()
    ensures Load(EMPTY, AUCTION1_BIDS + AUCTION1_ASKS) == Some(Book(AUCTION1_BIDS, AUCTION1_ASKS))
  {
    LoadChains(AUCTION1_BIDS, AUCTION1_ASKS);
  }

  lemma Auction2Loads()
    ensures Load(EMPTY, AUCTION2_BIDS + AUCTION2_ASKS) == Some(Book(AUCTION2_BIDS, AUCTION2_ASKS))
  {
    LoadChains(AUCTION2_BIDS, AUCTION2_ASKS);
  }

  /** Each order of the first auction book is refused when inserted again straight after it went in. */
  lemma Auction1RepeatsRefused()
    ensures RepeatsRefused(EMPTY, AUCTION1_BIDS + AUCTION1_ASKS)
  {
    Auction1Loads();
    assert Positive(AUCTION1_BIDS + AUCTION1_ASKS);
    LoadRefusesRepeats(EMPTY, AUCTION1_BIDS + AUCTION1_ASKS);
  }

  /** Each order of the second auction book is refused when inserted again straight after it went in. */
  lemma Auction2RepeatsRefused()
    ensures RepeatsRefused(EMPTY, AUCTION2_BIDS + AUCTION2_ASKS)
  {
    Auction2Loads();
    assert Positive(AUCTION2_BIDS + AUCTION2_ASKS);
    LoadRefusesRepeats(EMPTY, AUCTION2_BIDS + AUCTION2_ASKS);
  }

  lemma Auction1Candidates()
    ensures Candidates(AUCTION1_BIDS, AUCTION1_ASKS) == [90, 89, 88, 87, 90, 91, 92, 93, 94]
  {
  }

  lemma Auction1Volumes()
    ensures Matchable(AUCTION1_BIDS, AUCTION1_ASKS, 87) == 0
    ensures Matchable(AUCTION1_BIDS, AUCTION1_ASKS, 88) == 0
    ensures Matchable(AUCTION1_BIDS, AUCTION1_ASKS, 89) == 0
    ensures Matchable(AUCTION1_BIDS, AUCTION1_ASKS, 90) == 900
    ensures Matchable(AUCTION1_BIDS, AUCTION1_ASKS, 91) == 0
    ensures Matchable(AUCTION1_BIDS, AUCTION1_ASKS, 92) == 0
    ensures Matchable(AUCTION1_BIDS, AUCTION1_ASKS, 93) == 0
    ensures Matchable(AUCTION1_BIDS, AUCTION1_ASKS, 94) == 0
  {
  }

  /** No resting price beats 90, and none ties with it. */
  lemma Auction1Dominated()
    ensures forall q :: q in Candidates(AUCTION1_BIDS, AUCTION1_ASKS) ==>
      Matchable(AUCTION1_BIDS, AUCTION1_ASKS, q) < 900 || (Matchable(AUCTION1_BIDS, AUCTION1_ASKS, q) == 900 && 90 <= q)
  {
    forall q | q in Candidates(AUCTION1_BIDS, AUCTION1_ASKS)
      ensures Matchable(AUCTION1_BIDS, AUCTION1_ASKS, q) < 900 || (Matchable(AUCTION1_BIDS, AUCTION1_ASKS, q) == 900 && 90 <= q)
    {
      Auction1Candidates();
      assert q in {87, 88, 89, 90, 91, 92, 93, 94};
      Auction1Volumes();
    }
  }

  lemma Auction1Open()
    ensures TheoreticalOpen(AUCTION1_BIDS, AUCTION1_ASKS) == Open(90, 900)
  {
    Auction1Dominated();
    Auction1Volumes();
    Auction1Candidates();
    OpenDetermined(AUCTION1_BIDS, AUCTION1_ASKS, 90);
  }

  lemma Auction2Candidates()
    ensures Candidates(AUCTION2_BIDS, AUCTION2_ASKS) == [41, 40, 39, 38, 37, 35, 36, 37, 39, 40]
  {
  }

  lemma Auction2VolumesHigh()
    ensures Matchable(AUCTION2_BIDS, AUCTION2_ASKS, 41) == 200
    ensures Matchable(AUCTION2_BIDS, AUCTION2_ASKS, 40) == 500
    ensures Matchable(AUCTION2_BIDS, AUCTION2_ASKS, 39) == 550
  {
  }

  lemma Auction2VolumesLow()
    ensures Matchable(AUCTION2_BIDS, AUCTION2_ASKS, 38) == 350
    ensures Matchable(AUCTION2_BIDS, AUCTION2_ASKS, 37) == 350
    ensures Matchable(AUCTION2_BIDS, AUCTION2_ASKS, 36) == 300
    ensures Matchable(AUCTION2_BIDS, AUCTION2_ASKS, 35) == 100
  {
  }

  lemma Auction2Volumes()
    ensures Matchable(AUCTION2_BIDS, AUCTION2_ASKS, 41) == 200
    ensures Matchable(AUCTION2_BIDS, AUCTION2_ASKS, 40) == 500
    ensures Matchable(AUCTION2_BIDS, AUCTION2_ASKS, 39) == 550
    ensures Matchable(AUCTION2_BIDS, AUCTION2_ASKS, 38) == 350
    ensures Matchable(AUCTION2_BIDS, AUCTION2_ASKS, 37) == 350
    ensures Matchable(AUCTION2_BIDS, AUCTION2_ASKS, 36) == 300
    ensures Matchable(AUCTION2_BIDS, AUCTION2_ASKS, 35) == 100
  {
    Auction2VolumesHigh();
    Auction2VolumesLow();
  }

  /** No resting price beats 39, and none ties with it. */
  lemma Auction2Dominated()
    ensures forall q :: q in Candidates(AUCTION2_BIDS, AUCTION2_ASKS) ==>
      Matchable(AUCTION2_BIDS, AUCTION2_ASKS, q) < 550 || (Matchable(AUCTION2_BIDS, AUCTION2_ASKS, q) == 550 && 39 <= q)
  {
    forall q | q in Candidates(AUCTION2_BIDS, AUCTION2_ASKS)
      ensures Matchable(AUCTION2_BIDS, AUCTION2_ASKS, q) < 550 || (Matchable(AUCTION2_BIDS, AUCTION2_ASKS, q) == 550 && 39 <= q)
    {
      Auction2Candidates();
      assert q in {41, 40, 39, 38, 37, 36, 35};
      Auction2Volumes();
    }
  }

  lemma Auction2Open()
    ensures TheoreticalOpen(AUCTION2_BIDS, AUCTION2_ASKS) == Open(39, 550)
  {
    Auction2Dominated();
    Auction2Volumes();
    Auction2Candidates();
    OpenDetermined(AUCTION2_BIDS, AUCTION2_ASKS, 39);
  }

  lemma Auction1Uncross()
    ensures Uncross(AUCTION1_BIDS, AUCTION1_ASKS, 90).deals == [Deal(90, 900, 1, 2, 5, 1)]
  {
  }

  /** The second auction book after two, four and six deals at 39. */
  const AUCTION2_BIDS_2 := [Order(Buy, 300, 40, 1, 6), Order(Buy, 150, 39, 1, 7), Order(Buy, 50, 38, 1, 8), Order(Buy, 10, 37, 1, 9)]
  const AUCTION2_ASKS_2 := [Order(Sell, 100, 36, 2, 2), Order(Sell, 50, 37, 2, 3), Order(Sell, 200, 39, 2, 4), Order(Sell, 20, 40, 2, 5)]
  const AUCTION2_BIDS_4 := [Order(Buy, 150, 40, 1, 6), Order(Buy, 150, 39, 1, 7), Order(Buy, 50, 38, 1, 8), Order(Buy, 10, 37, 1, 9)]
  const AUCTION2_ASKS_4 := [Order(Sell, 200, 39, 2, 4), Order(Sell, 20, 40, 2, 5)]
  const AUCTION2_BIDS_6 := [Order(Buy, 100, 39, 1, 7), Order(Buy, 50, 38, 1, 8), Order(Buy, 10, 37, 1, 9)]
  const AUCTION2_ASKS_6 := [Order(Sell, 20, 40, 2, 5)]

  lemma Auction2UncrossStops()
    ensures Uncross(AUCTION2_BIDS_6, AUCTION2_ASKS_6, 39).deals == []
  {
  }

  lemma Auction2UncrossFrom4()
    ensures Uncross(AUCTION2_BIDS_4, AUCTION2_ASKS_4, 39).deals == [Deal(39, 150, 4, 2, 6, 1), Deal(39, 50, 4, 2, 7, 1)]
  {
    Auction2UncrossStops();
  }

  lemma Auction2UncrossFrom2()
    ensures Uncross(AUCTION2_BIDS_2, AUCTION2_ASKS_2, 39).deals == [
      Deal(39, 100, 2, 2, 6, 1), Deal(39, 50, 3, 2, 6, 1), Deal(39, 150, 4, 2, 6, 1), Deal(39, 50, 4, 2, 7, 1)]
  {
    Auction2UncrossFrom4();
  }

  lemma Auction2Uncross()
    ensures Uncross(AUCTION2_BIDS, AUCTION2_ASKS, 39).deals == [
      Deal(39, 100, 1, 2, 5, 1), Deal(39, 100, 2, 2, 5, 1), Deal(39, 100, 2, 2, 6, 1),
      Deal(39, 50, 3, 2, 6, 1), Deal(39, 150, 4, 2, 6, 1), Deal(39, 50, 4, 2, 7, 1)]
  {
    Auction2UncrossFrom2();
  }

  /** AuctionFixing and AuctionMatching: each book loads as given, each order's immediate
      re-insert is refused, the book opens at the expected price and volume, and the
      auction emits exactly the expected deals. */
  lemma AuctionScenario()
    ensures Load(EMPTY, AUCTION1_BIDS + AUCTION1_ASKS) == Some(Book(AUCTION1_BIDS, AUCTION1_ASKS))
    ensures RepeatsRefused(EMPTY, AUCTION1_BIDS + AUCTION1_ASKS)
    ensures RepeatsRefused(EMPTY, AUCTION2_BIDS + AUCTION2_ASKS)
    ensures TheoreticalOpen(AUCTION1_BIDS, AUCTION1_ASKS) == Open(90, 900)
    ensures MatchAuction(AUCTION1_BIDS, AUCTION1_ASKS).deals == [Deal(90, 900, 1, 2, 5, 1)]
    ensures Load(EMPTY, AUCTION2_BIDS + AUCTION2_ASKS) == Some(Book(AUCTION2_BIDS, AUCTION2_ASKS))
    ensures TheoreticalOpen(AUCTION2_BIDS, AUCTION2_ASKS) == Open(39, 550)
    ensures MatchAuction(AUCTION2_BIDS, AUCTION2_ASKS).deals == [
      Deal(39, 100, 1, 2, 5, 1), Deal(39, 100, 2, 2, 5, 1), Deal(39, 100, 2, 2, 6, 1),
      Deal(39, 50, 3, 2, 6, 1), Deal(39, 150, 4, 2, 6, 1), Deal(39, 50, 4, 2, 7, 1)]
  {
    Auction1Loads();
    Auction1RepeatsRefused();
    Auction2RepeatsRefused();
    Auction1Open();
    Auction1Uncross();
    Auction2Loads();
    Auction2Open();
    Auction2Uncross();
  }

  // ---------------------------------------------------------------------------
  // InsertMatching and ModifyMatching: continuous matching on a small book.

  /** An insert of `o` is accepted and turns `b` into `b'`, emitting `deals`. */
  predicate Inserts(b: Book, o: Order, matchNow: bool, b': Book, deals: seq<Deal>) {
    Insert(b, o, matchNow).Some? && Insert(b, o, matchNow).value == Outcome(b', deals)
  }

  const SMALL_BIDS := [Order(Buy, 350, 89, 1, 6), Order(Buy, 150, 88, 1, 7), Order(Buy, 230, 87, 1, 8)]
  const SMALL_ASKS := [Order(Sell, 900, 90, 2, 1), Order(Sell, 650, 91, 2, 2), Order(Sell, 500, 92, 2, 3), Order(Sell, 350, 93, 2, 4)]

  lemma SmallLoads()
    ensures Load(EMPTY, SMALL_BIDS + SMALL_ASKS) == Some(Book(SMALL_BIDS, SMALL_ASKS))
  {
    LoadChains(SMALL_BIDS, SMALL_ASKS);
  }

  /** Each order of the small book is refused when inserted again straight after it went in. */
  lemma SmallRepeatsRefused()
    ensures RepeatsRefused(EMPTY, SMALL_BIDS + SMALL_ASKS)
  {
    SmallLoads();
    assert Positive(SMALL_BIDS + SMALL_ASKS);
    LoadRefusesRepeats(EMPTY, SMALL_BIDS + SMALL_ASKS);
  }

  const IM_BIDS_1 := [Order(Buy, 350, 89, 1, 6), Order(Buy, 150, 88, 1, 7), Order(Buy, 123, 88, 5, 1), Order(Buy, 230, 87, 1, 8)]
  const IM_ASKS_2 := [
    Order(Sell, 900, 90, 2, 1), Order(Sell, 650, 91, 2, 2), Order(Sell, 123, 91, 5, 1),
    Order(Sell, 500, 92, 2, 3), Order(Sell, 350, 93, 2, 4)]
  const IM_ASKS_3 := [
    Order(Sell, 400, 90, 2, 1), Order(Sell, 650, 91, 2, 2), Order(Sell, 123, 91, 5, 1),
    Order(Sell, 500, 92, 2, 3), Order(Sell, 350, 93, 2, 4)]
  const IM_BIDS_4 := [Order(Buy, 200, 89, 1, 6), Order(Buy, 150, 88, 1, 7), Order(Buy, 123, 88, 5, 1), Order(Buy, 230, 87, 1, 8)]
  const IM_BIDS_5 := [
    Order(Buy, 477, 93, 10, 1), Order(Buy, 200, 89, 1, 6), Order(Buy, 150, 88, 1, 7),
    Order(Buy, 123, 88, 5, 1), Order(Buy, 230, 87, 1, 8)]
  const IM_ASKS_6 := [Order(Sell, 320, 87, 10, 1)]

  lemma InsertMatching1()
    ensures Inserts(Book(SMALL_BIDS, SMALL_ASKS), Order(Buy, 123, 88, 5, 1), true, Book(IM_BIDS_1, SMALL_ASKS), [])
  {
  }

  lemma InsertMatching2()
    ensures Inserts(Book(IM_BIDS_1, SMALL_ASKS), Order(Sell, 123, 91, 5, 1), true, Book(IM_BIDS_1, IM_ASKS_2), [])
  {
  }

  lemma InsertMatching3()
    ensures Inserts(Book(IM_BIDS_1, IM_ASKS_2), Order(Buy, 500, 91, 6, 1), true, Book(IM_BIDS_1, IM_ASKS_3), [Deal(90, 500, 1, 2, 1, 6)])
  {
  }

  lemma InsertMatching4()
    ensures Inserts(Book(IM_BIDS_1, IM_ASKS_3), Order(Sell, 150, 89, 6, 1), true, Book(IM_BIDS_4, IM_ASKS_3), [Deal(89, 150, 1, 6, 6, 1)])
  {
  }

  const IM_BUY_5 := Order(Buy, 2500, 93, 10, 1)
  const IM_SELL_6 := Order(Sell, 1500, 87, 10, 1)

  /** The last n steps of the sweep of the buy of 2500 at 93 through the asks. */
  lemma Sweep5Tail1()
    ensures Cross(IM_BUY_5, 827, [Order(Sell, 350, 93, 2, 4)])
      == Crossing(477, [], [Deal(93, 350, 4, 2, 1, 10)])
  {
  }

  lemma Sweep5Tail2()
    ensures Cross(IM_BUY_5, 1327, [Order(Sell, 500, 92, 2, 3), Order(Sell, 350, 93, 2, 4)])
      == Crossing(477, [], [Deal(92, 500, 3, 2, 1, 10), Deal(93, 350, 4, 2, 1, 10)])
  {
    Sweep5Tail1();
  }

  lemma Sweep5Tail3()
    ensures Cross(IM_BUY_5, 1450, [Order(Sell, 123, 91, 5, 1), Order(Sell, 500, 92, 2, 3), Order(Sell, 350, 93, 2, 4)])
      == Crossing(477, [], [Deal(91, 123, 1, 5, 1, 10), Deal(92, 500, 3, 2, 1, 10), Deal(93, 350, 4, 2, 1, 10)])
  {
    Sweep5Tail2();
  }

  lemma Sweep5Tail4()
    ensures Cross(IM_BUY_5, 2100, [Order(Sell, 650, 91, 2, 2), Order(Sell, 123, 91, 5, 1), Order(Sell, 500, 92, 2, 3), Order(Sell, 350, 93, 2, 4)])
      == Crossing(477, [], [Deal(91, 650, 2, 2, 1, 10), Deal(91, 123, 1, 5, 1, 10), Deal(92, 500, 3, 2, 1, 10), Deal(93, 350, 4, 2, 1, 10)])
  {
    Sweep5Tail3();
  }

  /** The last n steps of the sweep of the sell of 1500 at 87 through the bids. */
  lemma Sweep6Tail1()
    ensures Cross(IM_SELL_6, 550, [Order(Buy, 230, 87, 1, 8)])
      == Crossing(320, [], [Deal(87, 230, 1, 10, 8, 1)])
  {
  }

  lemma Sweep6Tail2()
    ensures Cross(IM_SELL_6, 673, [Order(Buy, 123, 88, 5, 1), Order(Buy, 230, 87, 1, 8)])
      == Crossing(320, [], [Deal(88, 123, 1, 10, 1, 5), Deal(87, 230, 1, 10, 8, 1)])
  {
    Sweep6Tail1();
  }

  lemma Sweep6Tail3()
    ensures Cross(IM_SELL_6, 823, [Order(Buy, 150, 88, 1, 7), Order(Buy, 123, 88, 5, 1), Order(Buy, 230, 87, 1, 8)])
      == Crossing(320, [], [Deal(88, 150, 1, 10, 7, 1), Deal(88, 123, 1, 10, 1, 5), Deal(87, 230, 1, 10, 8, 1)])
  {
    Sweep6Tail2();
  }

  lemma Sweep6Tail4()
    ensures Cross(IM_SELL_6, 1023, [Order(Buy, 200, 89, 1, 6), Order(Buy, 150, 88, 1, 7), Order(Buy, 123, 88, 5, 1), Order(Buy, 230, 87, 1, 8)])
      == Crossing(320, [], [Deal(89, 200, 1, 10, 6, 1), Deal(88, 150, 1, 10, 7, 1), Deal(88, 123, 1, 10, 1, 5), Deal(87, 230, 1, 10, 8, 1)])
  {
    Sweep6Tail3();
  }

  /** The buy of 2500 at 93 sweeps every ask and keeps 477 unfilled. */
  lemma Sweep5()
    ensures Cross(IM_BUY_5, 2500, IM_ASKS_3) == Crossing(477, [], [
      Deal(90, 400, 1, 2, 1, 10), Deal(91, 650, 2, 2, 1, 10), Deal(91, 123, 1, 5, 1, 10),
      Deal(92, 500, 3, 2, 1, 10), Deal(93, 350, 4, 2, 1, 10)])
  {
    Sweep5Tail4();
  }

  /** Its remainder rests at the head of the bids. */
  lemma Rest5()
    ensures FirstMatch(IM_BIDS_4, 10, 1) == |IM_BIDS_4|
    ensures Rest(IM_BIDS_4, Order(Buy, 477, 93, 10, 1)) == IM_BIDS_5
  {
  }

  lemma InsertMatching5()
    ensures Inserts(Book(IM_BIDS_4, IM_ASKS_3), Order(Buy, 2500, 93, 10, 1), true, Book(IM_BIDS_5, []), [
      Deal(90, 400, 1, 2, 1, 10), Deal(91, 650, 2, 2, 1, 10), Deal(91, 123, 1, 5, 1, 10),
      Deal(92, 500, 3, 2, 1, 10), Deal(93, 350, 4, 2, 1, 10)])
  {
    Sweep5();
    Rest5();
  }

  /** The sell of 1500 at 87 sweeps every bid and keeps 320 unfilled. */
  lemma Sweep6()
    ensures Cross(IM_SELL_6, 1500, IM_BIDS_5) == Crossing(320, [], [
      Deal(93, 477, 1, 10, 1, 10), Deal(89, 200, 1, 10, 6, 1), Deal(88, 150, 1, 10, 7, 1),
      Deal(88, 123, 1, 10, 1, 5), Deal(87, 230, 1, 10, 8, 1)])
  {
    Sweep6Tail4();
  }

  lemma InsertMatching6()
    ensures Inserts(Book(IM_BIDS_5, []), Order(Sell, 1500, 87, 10, 1), true, Book([], IM_ASKS_6), [
      Deal(93, 477, 1, 10, 1, 10), Deal(89, 200, 1, 10, 6, 1), Deal(88, 150, 1, 10, 7, 1),
      Deal(88, 123, 1, 10, 1, 5), Deal(87, 230, 1, 10, 8, 1)])
  {
    Sweep6();
    assert Rest([], Order(Sell, 320, 87, 10, 1)) == IM_ASKS_6;
  }

  /** InsertMatching: the small book loads with each immediate re-insert refused, then six
      inserts with matching. The first two cross nothing, the next two make one deal each,
      the last two sweep the opposite side; the book ends with a single ask of 320 at 87. */
  lemma InsertMatchingScenario()
    ensures Load(EMPTY, SMALL_BIDS + SMALL_ASKS) == Some(Book(SMALL_BIDS, SMALL_ASKS))
    ensures RepeatsRefused(EMPTY, SMALL_BIDS + SMALL_ASKS)
    ensures Inserts(Book(SMALL_BIDS, SMALL_ASKS), Order(Buy, 123, 88, 5, 1), true, Book(IM_BIDS_1, SMALL_ASKS), [])
    ensures Inserts(Book(IM_BIDS_1, SMALL_ASKS), Order(Sell, 123, 91, 5, 1), true, Book(IM_BIDS_1, IM_ASKS_2), [])
    ensures Inserts(Book(IM_BIDS_1, IM_ASKS_2), Order(Buy, 500, 91, 6, 1), true, Book(IM_BIDS_1, IM_ASKS_3), [Deal(90, 500, 1, 2, 1, 6)])
    ensures Inserts(Book(IM_BIDS_1, IM_ASKS_3), Order(Sell, 150, 89, 6, 1), true, Book(IM_BIDS_4, IM_ASKS_3), [Deal(89, 150, 1, 6, 6, 1)])
    ensures Inserts(Book(IM_BIDS_4, IM_ASKS_3), Order(Buy, 2500, 93, 10, 1), true, Book(IM_BIDS_5, []), [
      Deal(90, 400, 1, 2, 1, 10), Deal(91, 650, 2, 2, 1, 10), Deal(91, 123, 1, 5, 1, 10),
      Deal(92, 500, 3, 2, 1, 10), Deal(93, 350, 4, 2, 1, 10)])
    ensures Inserts(Book(IM_BIDS_5, []), Order(Sell, 1500, 87, 10, 1), true, Book([], IM_ASKS_6), [
      Deal(93, 477, 1, 10, 1, 10), Deal(89, 200, 1, 10, 6, 1), Deal(88, 150, 1, 10, 7, 1),
      Deal(88, 123, 1, 10, 1, 5), Deal(87, 230, 1, 10, 8, 1)])
    ensures Aggregate([]) == [] && Aggregate(IM_ASKS_6) == [Level(1, 320, 87)]
  {
    SmallLoads();
    SmallRepeatsRefused();
    InsertMatching1();
    InsertMatching2();
    InsertMatching3();
    InsertMatching4();
    InsertMatching5();
    InsertMatching6();
  }

  const MM_BIDS_1 := [Order(Buy, 150, 88, 1, 7), Order(Buy, 500, 88, 1, 2), Order(Buy, 230, 87, 1, 8)]
  const MM_ASKS_2 := [
    Order(Sell, 650, 91, 2, 2), Order(Sell, 1200, 91, 2, 4), Order(Sell, 500, 92, 2, 3), Order(Sell, 350, 93, 2, 4)]
  const MM_BIDS_3 := [Order(Buy, 150, 91, 1, 5), Order(Buy, 150, 88, 1, 7), Order(Buy, 500, 88, 1, 2)]
  const MM_ASKS_3 := [Order(Sell, 500, 92, 2, 3), Order(Sell, 350, 93, 2, 4)]
  const MM_BIDS_4 := [Order(Buy, 150, 88, 1, 7), Order(Buy, 500, 88, 1, 2)]
  const MM_ASKS_4 := [Order(Sell, 350, 91, 2, 8), Order(Sell, 500, 92, 2, 3)]

  lemma ModifyMatching1()
    ensures Modifies(Book(SMALL_BIDS, SMALL_ASKS), OrderReplace(Buy, 500, 88, 1, 2, 6), true, Book(MM_BIDS_1, SMALL_ASKS), [])
  {
  }

  lemma ModifyMatching2()
    ensures Modifies(Book(MM_BIDS_1, SMALL_ASKS), OrderReplace(Sell, 1200, 91, 2, 4, 1), true, Book(MM_BIDS_1, MM_ASKS_2), [])
  {
  }

  lemma ModifyMatching3()
    ensures Modifies(Book(MM_BIDS_1, MM_ASKS_2), OrderReplace(Buy, 2000, 91, 1, 5, 8), true, Book(MM_BIDS_3, MM_ASKS_3),
      [Deal(91, 650, 2, 2, 5, 1), Deal(91, 1200, 4, 2, 5, 1)])
  {
    assert Cross(Order(Buy, 2000, 91, 1, 5), 2000, MM_ASKS_2)
      == Crossing(150, MM_ASKS_3, [Deal(91, 650, 2, 2, 5, 1), Deal(91, 1200, 4, 2, 5, 1)]);
  }

  lemma ModifyMatching4()
    ensures Modifies(Book(MM_BIDS_3, MM_ASKS_3), OrderReplace(Sell, 500, 91, 2, 8, 4), true, Book(MM_BIDS_4, MM_ASKS_4),
      [Deal(91, 150, 8, 2, 5, 1)])
  {
  }

  lemma DuplicateIdentity()
    ensures Occurrences(MM_ASKS_2, 2, 4) == 2
  {
  }

  lemma ModifyMatchingView()
    ensures Aggregate(MM_BIDS_4) == [Level(2, 650, 88)]
    ensures Aggregate(MM_ASKS_4) == [Level(1, 350, 91), Level(1, 500, 92)]
  {
  }

  /** ModifyMatching: the small book loads with each immediate re-insert refused, then four
      replaces with matching. The second leaves two asks with the identity (2, 4) resting,
      because a replace does not check its new identity; the fourth replaces the first of
      them in priority order that is still resting. */
  lemma ModifyMatchingScenario()
    ensures Load(EMPTY, SMALL_BIDS + SMALL_ASKS) == Some(Book(SMALL_BIDS, SMALL_ASKS))
    ensures RepeatsRefused(EMPTY, SMALL_BIDS + SMALL_ASKS)
    ensures Modifies(Book(SMALL_BIDS, SMALL_ASKS), OrderReplace(Buy, 500, 88, 1, 2, 6), true, Book(MM_BIDS_1, SMALL_ASKS), [])
    ensures Modifies(Book(MM_BIDS_1, SMALL_ASKS), OrderReplace(Sell, 1200, 91, 2, 4, 1), true, Book(MM_BIDS_1, MM_ASKS_2), [])
    ensures Occurrences(MM_ASKS_2, 2, 4) == 2
    ensures Modifies(Book(MM_BIDS_1, MM_ASKS_2), OrderReplace(Buy, 2000, 91, 1, 5, 8), true, Book(MM_BIDS_3, MM_ASKS_3),
      [Deal(91, 650, 2, 2, 5, 1), Deal(91, 1200, 4, 2, 5, 1)])
    ensures Modifies(Book(MM_BIDS_3, MM_ASKS_3), OrderReplace(Sell, 500, 91, 2, 8, 4), true, Book(MM_BIDS_4, MM_ASKS_4),
      [Deal(91, 150, 8, 2, 5, 1)])
    ensures Aggregate(MM_BIDS_4) == [Level(2, 650, 88)]
    ensures Aggregate(MM_ASKS_4) == [Level(1, 350, 91), Level(1, 500, 92)]
  {
    SmallLoads();
    SmallRepeatsRefused();
    ModifyMatching1();
    ModifyMatching2();
    ModifyMatching3();
    ModifyMatching4();
    DuplicateIdentity();
    ModifyMatchingView();
  }
}
