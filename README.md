# Order container of the matching engine, in Dafny

This project models the per-instrument order container of the matching engine
(`OrderContainer<Order, DealHandler>`) and the deal handler that its test fixture plugs
into it.

The container holds a bid side and an ask side of resting limit orders. Each side is kept
in price-time priority: best price first (highest bid, lowest ask), then arrival order
within a price. On this book the container offers the following operations:

- `Insert` books an order. With the match flag set (continuous trading), the order first
  trades against the opposite side, best price first and at the resting order's price.
  Any remainder then rests at the tail of its price level. Without the flag (auction
  accumulation), the order only rests.
- `Delete` removes a resting order.
- `Modify` replaces a resting order by a new one. The replacement goes through the same
  matching and resting as an insert.
- `AggregatedView` summarises each side as one (order count, total quantity, price) entry
  per resting price, in price priority.
- `GetTheoriticalOpenInformations` computes the call-auction clearing price and volume.
- `MatchOrders` uncrosses the book at that price. Best bid trades against best ask for the
  smaller remaining quantity, until one side has no order left that is eligible at the
  price.
- `Reset` empties the book.

Every deal is pushed to the deal handler as soon as it is made. The handler stores each
deal in a map, under a counter that starts at 0.

The identifiers are read off the test's assertions:

- an order is `Order(side, qty, price, clientId, orderId)`;
- a delete is `Delete(clientId, orderId, side)`;
- a replace is `OrderReplace(side, qty, price, clientId, newOrderId, oldOrderId)`;
- a deal is `Deal(price, qty, sellOrderId, sellClientId, buyOrderId, buyClientId)`.

The parameter comment above the first replace (`test_OrderContainer.cpp:206`) names the
last three fields in a different order. The assertions only fit the order used here: the
replace at :207 removes the resting bid (1, 8).

The project has these files:

- `option.dfy`: the `Option` type.
- `orders.dfy`: orders, replaces, deals, price priority, and well-formed book sides.
- `book_side.dfy`: one side as a sequence in priority order. It holds lookup, resting at
  the tail of a level, removal, partial fills and the aggregated view.
- `continuous.dfy`: continuous matching of one aggressor (`Cross`).
- `auction.dfy`: cumulative volumes, the theoretical open, and the uncross (`Uncross`).
- `books.dfy`: the whole book as a value, and `Insert`/`Delete`/`Modify` on it with their
  lifecycle lemmas.
- `attribution.dfy`: which resting orders the deals of a sweep or an uncross name, and
  how much each deal takes from them.
- `deal_handler.dfy`: the `DealHandler` class.
- `order_container.dfy`: the `OrderContainer` class. It updates its two sides in place,
  and its loops emit each deal to the handler.
- `scenarios.dfy`: the test scenarios replayed on the value model.
- `client.dfy`: a client that drives the container class and reads deals back from the
  handler.

The container's methods are proved against the value model. Each one ensures that its new
book and the deals it pushed are those of the matching function in `books.dfy` or
`auction.dfy`. The properties are proved about those functions.

## Model

| member | source | states |
|---|---|---|
| BookSide.FirstMatch | matching-engine/tests/src/test_OrderContainer.cpp:147-155 | The lookup of an identity on a side: the index of the first resting order with that identity in priority order, or the side's length when none rests |
| BookSide.Rest | matching-engine/tests/src/test_OrderContainer.cpp:102-112 | Resting an order grows the side by exactly one entry, and the order is on it |
| BookSide.RestAtSlot | matching-engine/tests/src/test_OrderContainer.cpp:102-112 | A new order rests behind every order at its price or better and ahead of every worse one, so it joins the tail of its price level |
| BookSide.RestContents | matching-engine/tests/src/test_OrderContainer.cpp:73-86 | Resting an order adds exactly that order to the side (as a multiset), and the new head is either the order or the old head |
| BookSide.RestWellFormed | matching-engine/tests/src/test_OrderContainer.cpp:102-112 | Resting a positive order keeps a side in price priority, with every order on the right side and positive |
| BookSide.RemoveWellFormed | matching-engine/tests/src/test_OrderContainer.cpp:147-155 | Removing one order keeps the side in price priority and takes exactly that order out of it |
| BookSide.ConsumedWellFormed | matching-engine/tests/src/test_OrderContainer.cpp:402-419 | What is left after orders were consumed from a side's head is still in priority order, and its head is no better than the old head |
| BookSide.AfterFillHead | matching-engine/tests/src/test_OrderContainer.cpp:355-364 | Trading part or all of a side's head order leaves the side well formed and consumed only from its head |
| BookSide.Aggregate | matching-engine/tests/src/test_OrderContainer.cpp:91-100 | The aggregated view is empty exactly when the side is, and its first entry is at the side's best price |
| BookSide.AggregateExact | matching-engine/tests/src/test_OrderContainer.cpp:91-100 | The aggregated view of a side has exactly one entry per distinct resting price, in strict price priority. Each entry holds the order count (positive) and the quantity sum at its price |
| Continuous.Cross | matching-engine/tests/src/test_OrderContainer.cpp:402-419 | Continuous matching of an aggressor never fills more than it has, and the deals' volume is what was filled |
| Continuous.CrossConserves | matching-engine/tests/src/test_OrderContainer.cpp:402-419 | Quantity is conserved: the opposite side loses exactly the volume of the deals |
| Continuous.CrossStops | matching-engine/tests/src/test_OrderContainer.cpp:392-400 | Matching stops only when the aggressor is filled, the opposite side is empty, or its best price no longer crosses; every order left on it is positive |
| Continuous.CrossConsumes | matching-engine/tests/src/test_OrderContainer.cpp:412-426 | The opposite side is consumed best price first, then by arrival: what is left is a suffix whose head may be partly filled |
| Continuous.CrossDeals | matching-engine/tests/src/test_OrderContainer.cpp:402-408 | Every deal is within the aggressor's limit, for a positive quantity, and names the aggressor on its own side of the trade |
| Continuous.NoCrossNoDeal | matching-engine/tests/src/test_OrderContainer.cpp:392-400 | An aggressor whose limit does not reach the opposite best price trades nothing and leaves the opposite side as it was |
| Auction.TheoreticalOpen | matching-engine/tests/src/test_OrderContainer.cpp:273-276 | The open volume is what trades at the open price. On a non-empty book the price is a resting price. An empty book opens at (0, 0) |
| Auction.Best | matching-engine/tests/src/test_OrderContainer.cpp:273-276 | Among a list of candidate prices, picks one with the largest matchable volume, and the lowest such price on a tie |
| Auction.OpenIsOptimal | matching-engine/tests/src/test_OrderContainer.cpp:299-302 | No price at all, whether resting or not, has a larger matchable volume than the theoretical open volume |
| Auction.OpenCharacterised | matching-engine/tests/src/test_OrderContainer.cpp:273-302 | The theoretical open is characterised. On a non-empty book its price is a resting price. Its volume is min(bids at or above the price, asks at or below it), and no price can do better. Among resting prices with that volume it is the lowest. An empty book opens at (0, 0) |
| Auction.MatchableDown | matching-engine/tests/src/test_OrderContainer.cpp:299-302 | Lowering the price from p to q loses no matchable volume as long as no ask is priced above q and at or below p, so an optimal price is always found among the resting prices |
| Auction.OpenDetermined | matching-engine/tests/src/test_OrderContainer.cpp:273-302 | A resting price whose volume no resting price beats, and which is the lowest of those that tie with it, is exactly the theoretical open, with that volume |
| Auction.Uncross | matching-engine/tests/src/test_OrderContainer.cpp:357-364 | Every deal of the uncross at a price is at that price |
| Auction.UncrossVolume | matching-engine/tests/src/test_OrderContainer.cpp:355-364 | The uncross at a price trades exactly the matchable volume there. It takes that volume off each side's eligible quantity and leaves no eligible pair behind |
| Auction.UncrossDeals | matching-engine/tests/src/test_OrderContainer.cpp:357-364 | Every uncross deal is at the clearing price and for a positive quantity. Both sides are consumed from their heads, in price-then-arrival order |
| Auction.UncrossPrices | matching-engine/tests/src/test_OrderContainer.cpp:357-364 | Over sides of positive orders, every deal of the uncross at a price is at that price and for a positive quantity |
| Auction.UncrossConsumes | matching-engine/tests/src/test_OrderContainer.cpp:355-364 | The uncross consumes each side from its head: what is left of it is a suffix whose head may be partly filled |
| Auction.UncrossWellFormed | matching-engine/tests/src/test_OrderContainer.cpp:355-364 | Both sides stay in price priority with positive orders through the uncross |
| Auction.UncrossConserves | matching-engine/tests/src/test_OrderContainer.cpp:355-364 | Quantity is conserved by the uncross: on each side, the total quantity afterwards plus the deals' volume is the total quantity before. This holds for any sides, including ones with repeated identities |
| Auction.UncrossKeepsIneligible | matching-engine/tests/src/test_OrderContainer.cpp:355-364 | Orders not eligible at the clearing price are left alone: on each well-formed side, the quantity priced worse than that price is the same after the uncross as before |
| Auction.MatchAuction | matching-engine/tests/src/test_OrderContainer.cpp:324-330 | Every deal of the auction match is at the theoretical open price, and nothing trades while one side is empty |
| Auction.AuctionTradesOpenVolume | matching-engine/tests/src/test_OrderContainer.cpp:324-330 | The auction match trades exactly the theoretical open volume, and every deal is at the open price |
| Books.Submit | matching-engine/tests/src/test_OrderContainer.cpp:392-408 | Booking an order trades at most its quantity. Without the match flag it trades nothing and leaves the opposite side as it was |
| Books.Insert | matching-engine/tests/src/test_OrderContainer.cpp:73-86 | Insert is refused exactly when an order with the same identity rests on the order's side. An accepted insert trades at most the order's quantity, and nothing without the match flag |
| Books.Delete | matching-engine/tests/src/test_OrderContainer.cpp:147-155 | Delete is refused exactly when no order with the identity rests on the side. An accepted delete takes one order off that side and leaves the other side as it was |
| Books.Modify | matching-engine/tests/src/test_OrderContainer.cpp:207-211 | A replace is refused exactly when the referenced order does not rest on the request's side. An accepted replace trades at most the new quantity, and nothing without the match flag |
| Books.RestCounts | matching-engine/tests/src/test_OrderContainer.cpp:91-100 | Resting an order adds one to its price level's count and its quantity to the level's total, and one occurrence of its identity |
| Books.SubmitValid | matching-engine/tests/src/test_OrderContainer.cpp:392-434 | Booking a positive order, with or without matching, keeps both sides well formed |
| Books.SubmitConserves | matching-engine/tests/src/test_OrderContainer.cpp:402-408 | The opposite side loses exactly the deals' volume. The order's own side gains exactly its unfilled quantity |
| Books.SubmitKeepsUncrossed | matching-engine/tests/src/test_OrderContainer.cpp:412-426 | Continuous matching keeps an uncrossed book uncrossed (best bid below best ask) |
| Books.InsertRefusedIffResting | matching-engine/tests/src/test_OrderContainer.cpp:73-86 | Insert is refused exactly when an order with the same identity rests on the order's side |
| Books.InsertAfterReset | matching-engine/tests/src/test_OrderContainer.cpp:280-295 | After a reset every identity can be inserted again |
| Books.InsertTwiceRefused | matching-engine/tests/src/test_OrderContainer.cpp:77-78 | An order accepted in accumulation mode rests, so inserting it a second time is refused |
| Books.DeleteSucceedsIffResting | matching-engine/tests/src/test_OrderContainer.cpp:147-155 | Delete succeeds exactly when an order with that identity rests on that side |
| Books.DeleteOnce | matching-engine/tests/src/test_OrderContainer.cpp:147-148 | A delete of an identity that rests once succeeds, and repeating it is refused |
| Books.DeleteLevels | matching-engine/tests/src/test_OrderContainer.cpp:186-197 | Delete lowers the removed order's level by one order and its quantity and leaves every other level alone. A price with no order left disappears from the view. The other side is untouched |
| Books.ModifyLevels | matching-engine/tests/src/test_OrderContainer.cpp:207-252 | A replace in accumulation mode emits no deal. The old order leaves its level and the new quantity joins the new price's level. A price with no order left disappears from the view. The side's order count is unchanged and the other side is untouched |
| Books.DeleteKeepsUncrossed | matching-engine/tests/src/test_OrderContainer.cpp:147-155 | Removing an order keeps the book well formed and uncrossed |
| Books.ModifyKeepsUncrossed | matching-engine/tests/src/test_OrderContainer.cpp:461-477 | A replace with matching keeps an uncrossed book well formed and uncrossed |
| Attribution.CrossDrawn | matching-engine/tests/src/test_OrderContainer.cpp:402-408 | On an opposite side with distinct identities, every deal of a sweep names a resting order of that side, at that order's price. The orders named come in the side's price-then-arrival order |
| Attribution.CrossAccounted | matching-engine/tests/src/test_OrderContainer.cpp:402-408 | On an opposite side with distinct identities, each resting order's quantity equals what the sweep's deals naming it took plus what is left of it afterwards |
| Attribution.CrossShares | matching-engine/tests/src/test_OrderContainer.cpp:402-419 | Each deal of a sweep takes the smaller of what the aggressor still had and what was left of the resting order it names |
| Attribution.CrossAttribution | matching-engine/tests/src/test_OrderContainer.cpp:402-419 | Continuous matching, deal by deal: which resting order each deal names, at which price, in which order, and how much it takes from it |
| Attribution.UncrossDrawn | matching-engine/tests/src/test_OrderContainer.cpp:357-364 | On sides with distinct identities, every uncross deal names a resting bid and a resting ask. The bids named come in bid priority order and the asks named in ask priority order |
| Attribution.UncrossAccounted | matching-engine/tests/src/test_OrderContainer.cpp:357-364 | On sides with distinct identities, each bid's and each ask's quantity equals what the uncross's deals naming it took plus what is left of it afterwards |
| Attribution.UncrossShares | matching-engine/tests/src/test_OrderContainer.cpp:357-364 | Each uncross deal takes the smaller of what was left of the bid and of the ask it names |
| Attribution.MatchAuctionAttribution | matching-engine/tests/src/test_OrderContainer.cpp:357-364 | The auction match pairs bids in bid priority order with asks in ask priority order. Each order gives up exactly what the deals naming it took, and each deal's quantity is the smaller of the two remaining quantities |
| DealSink.IndexedContents | matching-engine/tests/src/test_OrderContainer.cpp:26-31 | The stored map of a deal log has one key per deal, keys 0 to n-1, each bound to the deal received at that position |
| DealSink.DealHandler.constructor | matching-engine/tests/src/test_OrderContainer.cpp:23-24 | A new handler has no deals and its counter is 0 |
| DealSink.DealHandler.OnDeal | matching-engine/tests/src/test_OrderContainer.cpp:26-31 | A deal is stored under the current counter, and the counter then grows by one |
| DealSink.DealHandler.Reset | matching-engine/tests/src/test_OrderContainer.cpp:33-41 | Every stored deal is dropped and the counter restarts at 0 |
| DealSink.DealHandler.GetDealContainer | matching-engine/tests/src/test_OrderContainer.cpp:43 | The stored deals have size equal to the number received, and the deal under key k is the k-th one received |
| Container.Find | matching-engine/tests/src/test_OrderContainer.cpp:147-148 | The search loop returns the first index holding the identity, or the side's length |
| Container.Place | matching-engine/tests/src/test_OrderContainer.cpp:102-112 | The placing loop puts the order at the tail of its price level, as `Rest` specifies |
| Container.Sweep | matching-engine/tests/src/test_OrderContainer.cpp:402-419 | The matching loop leaves the opposite side and the unfilled quantity given by `Cross`. It pushes `Cross`'s deals to the handler in order |
| Container.MatchAt | matching-engine/tests/src/test_OrderContainer.cpp:355-364 | The uncross loop leaves both sides as `Uncross` specifies and pushes its deals to the handler in order |
| Container.OrderContainer.constructor | matching-engine/tests/src/test_OrderContainer.cpp:61-62 | A container starts empty, over the given handler |
| Container.OrderContainer.Insert | matching-engine/tests/src/test_OrderContainer.cpp:73-86 | Returns true exactly when the insert is accepted. The new book and the deals pushed are those of `Books.Insert`. A refused insert changes neither the book nor the handler |
| Container.OrderContainer.Delete | matching-engine/tests/src/test_OrderContainer.cpp:147-155 | Returns true exactly when the delete is accepted, with the new book that of `Books.Delete`. A refused delete changes nothing |
| Container.OrderContainer.Modify | matching-engine/tests/src/test_OrderContainer.cpp:207-211 | Returns true exactly when the referenced order rests. The new book and the deals pushed are those of `Books.Modify`. A refused replace changes nothing |
| Container.OrderContainer.Reset | matching-engine/tests/src/test_OrderContainer.cpp:258 | The book is emptied and stays well formed |
| Container.OrderContainer.AggregatedView | matching-engine/tests/src/test_OrderContainer.cpp:135-138 | Both views are exact: one entry per resting price in price priority, holding the count and quantity sum there |
| Container.OrderContainer.GetTheoriticalOpenInformations | matching-engine/tests/src/test_OrderContainer.cpp:273-276 | Returns a resting price (on a non-empty book) whose matchable volume is the largest of any price, the lowest resting such price, and that volume. An empty book gives (0, 0) |
| Container.OrderContainer.MatchOrders | matching-engine/tests/src/test_OrderContainer.cpp:324-330 | The book after the uncross and the deals pushed to the handler are those of `Auction.MatchAuction` on the old book |
| Container.OrderContainer.SubmitOrder | matching-engine/tests/src/test_OrderContainer.cpp:395-406 | Books an accepted order: the sweep, then the rest of any remainder, giving `Books.Submit`'s book and deals |
| Scenarios.LoadInOrder | matching-engine/tests/src/test_OrderContainer.cpp:73-86 | Orders of one side that arrive in priority order, with distinct identities, are all accepted and rest in arrival order |
| Scenarios.LoadBook | matching-engine/tests/src/test_OrderContainer.cpp:73-86 | A bid list and an ask list, each in priority order with distinct identities, load into exactly those two sides |
| Scenarios.LoadRefusesRepeats | matching-engine/tests/src/test_OrderContainer.cpp:73-86 | In a load of positive orders that succeeds, each order is refused when it is inserted again straight after it went in |
| Scenarios.FixtureRepeatsRefused | matching-engine/tests/src/test_OrderContainer.cpp:73-86 | Each of the fixture's twelve orders is refused when it is inserted again straight after it went in |
| Scenarios.Auction1RepeatsRefused | matching-engine/tests/src/test_OrderContainer.cpp:73-86 | Each order of the first auction book (:260-269, :309-318) is refused when it is inserted again straight after it went in |
| Scenarios.Auction2RepeatsRefused | matching-engine/tests/src/test_OrderContainer.cpp:73-86 | Each order of the second auction book (:283-293, :340-350) is refused when it is inserted again straight after it went in |
| Scenarios.SmallRepeatsRefused | matching-engine/tests/src/test_OrderContainer.cpp:73-86 | Each order of the small continuous-matching book (:378-386, :443-451) is refused when it is inserted again straight after it went in |
| Scenarios.AuctionInsertScenario | matching-engine/tests/src/test_OrderContainer.cpp:126-139 | The fixture's twelve inserts are accepted, each immediate re-insert of the same order is refused, and the book gives the expected aggregated views of four bid levels and four ask levels |
| Scenarios.DeleteScenario | matching-engine/tests/src/test_OrderContainer.cpp:141-198 | The four deletes succeed and the two repeats are refused. The views then show four single-order bid levels and two ask levels |
| Scenarios.ModifyScenario | matching-engine/tests/src/test_OrderContainer.cpp:200-254 | Both replaces succeed with no deal, and the views become 12337@2185 (3 orders), 3000@1321, 3000@1234 and 15000@4321, 9000@4526, 7000@8526 |
| Scenarios.AuctionScenario | matching-engine/tests/src/test_OrderContainer.cpp:256-370 | Each auction book loads with every immediate re-insert refused. The two books open at (90, 900) and (39, 550). Their uncrosses emit exactly the one deal and the six deals the tests expect, in order |
| Scenarios.InsertMatchingScenario | matching-engine/tests/src/test_OrderContainer.cpp:372-437 | The small book loads with every immediate re-insert refused. The two non-crossing inserts rest with no deal, the next two make one deal each, and the last two sweep. The book ends with no bids and one ask of 320 at 87 |
| Scenarios.ModifyMatchingScenario | matching-engine/tests/src/test_OrderContainer.cpp:439-495 | The small book loads with every immediate re-insert refused. The four replaces with matching succeed, including one whose new identity already rests. The views end as 650@88 (2 orders) against 350@91 and 500@92 |
| Client.AuctionRun | matching-engine/tests/src/test_OrderContainer.cpp:305-330 | A client that books a bid and an ask crossing at 90 and runs the auction finds exactly one deal, (90, 900), stored under key 0 |

## Left out

- `Engine_OrderContainer.h` and `Engine_Order.h` are not part of this model. The
  container's behaviour is rebuilt from the test's scenarios and assertions.
- Display is left out: `SetViewMode`, `operator<<` and the console output of `OnDeal`
  and `DisplayOrders`. They are diagnostics with no effect on state.
- Heap ownership of `Deal*` is left out, including the `delete` in `DealHandler::Reset`.
  Deals are values here.
- The gtest framework and `main` are left out.
- DealSink.DealHandler.GetDealContainer returns the stored map as a value. The test binds
  a reference to it once (:326, :374) and reads that reference again after later deals
  (:357, :408). Here a caller reads the handler again to see later deals.
- The attribution lemmas (`Attribution`) assume the identities on a side are distinct.
  `Books.Modify` does not enforce this, so after a replace that reuses a resting identity
  they do not apply.
- `NoSqlStorage.h`, `LoggerFile.h` and `Engine_MatchingEngine.h` are left out. They cover
  storage, logging and the multi-instrument engine, which are I/O and orchestration around
  the container.
- Books.Modify always takes the replacement out of time priority: it removes the old order
  and rests the new one at the tail of its level. A replace at the same price with a
  quantity no larger than before is sometimes described as keeping its place. No assertion
  can tell the two apart, because every replace in the tests changes the price.
- Books.Modify does not check the new identity against the book. The test at :458-465
  replaces an ask with the identity (2, 4) while another ask (2, 4) is resting, and expects
  success.
- Books.Delete: when an identity rests twice, which only a replace can cause, lookup takes
  the first in priority order. The tests do not pin down which one is taken.
- Auction.Best breaks ties between prices of equal maximum volume by taking the lowest
  price. This is a choice: no test has such a tie.
- Quantities and counters are unbounded naturals. The 32-bit wrap of the source's `UInt32`
  is not modelled, because no scenario comes near it.
- Container.OrderContainer.Insert and Container.OrderContainer.Modify require a positive
  quantity, because a resting order of quantity 0 is not a valid book entry. The tests only
  submit positive quantities.
- Container.OrderContainer.Reset empties the book only. The tests reset the deal handler
  separately, as `DealSink.DealHandler.Reset`.
