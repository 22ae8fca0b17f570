/**
 * A client of the container and its deal handler, in the shape of the test fixture:
 * the container is built over a handler, orders are booked, and the deals the handler
 * stored are read back by key.
 */
module Client {
  import opened Optional
  import opened Orders
  import opened BookSide
  import opened Auction
  import opened Books
  import opened DealSink
  import opened Container

  /** Both orders are accepted in accumulation mode and rest alone on their sides. */
  lemma Accumulates()
    ensures Books.Insert(EMPTY, Order(Buy, 1200, 90, 1, 5), false) == Some(Outcome(Book([Order(Buy, 1200, 90, 1, 5)], []), []))
    ensures Books.Insert(Book([Order(Buy, 1200, 90, 1, 5)], []), Order(Sell, 900, 90, 2, 1), false)
      == Some(Outcome(Book([Order(Buy, 1200, 90, 1, 5)], [Order(Sell, 900, 90, 2, 1)]), []))
  {
    assert Rest([], Order(Buy, 1200, 90, 1, 5)) == [Order(Buy, 1200, 90, 1, 5)];
    assert Rest([], Order(Sell, 900, 90, 2, 1)) == [Order(Sell, 900, 90, 2, 1)];
  }

  /** The auction on that book makes one deal of 900 at 90. */
  lemma Uncrosses()
    ensures MatchAuction([Order(Buy, 1200, 90, 1, 5)], [Order(Sell, 900, 90, 2, 1)]).deals == [Deal(90, 900, 1, 2, 5, 1)]
  {
    assert TheoreticalOpen([Order(Buy, 1200, 90, 1, 5)], [Order(Sell, 900, 90, 2, 1)]).price == 90;
  }

  /** Two orders that cross at 90 are booked in accumulation mode; the auction then makes
      one deal, stored under key 0; resetting the handler empties its store. */
  method AuctionRun() returns (stored: map<nat, Deal>)
    ensures stored == map[0 := Deal(90, 900, 1, 2, 5, 1)]
  {
    var handler := new DealHandler();
    var book := new OrderContainer(handler);
    Accumulates();
    Uncrosses();
    var ok := book.Insert(Order(Buy, 1200, 90, 1, 5), false);
    assert ok && book.State() == Book([Order(Buy, 1200, 90, 1, 5)], []);
    ok := book.Insert(Order(Sell, 900, 90, 2, 1), false);
    assert ok && book.State() == Book([Order(Buy, 1200, 90, 1, 5)], [Order(Sell, 900, 90, 2, 1)]);
    book.MatchOrders();
    assert handler.log == [Deal(90, 900, 1, 2, 5, 1)];
    stored := handler.GetDealContainer();
    handler.Reset();
    assert handler.GetDealContainer() == map[];
  }
}
