# OrderBook — a Dafny model of the trade simulator's market-depth core

The trade simulator keeps an in-memory order book for one instrument. An
upstream feed delivers depth updates. Each update replaces the bid side and the
ask side in full. The book then answers two queries: the top of the book, and
the cost of a hypothetical market order that walks one side.

This project models the `OrderBook` class of `core/orderbook.py`:

- `levels.dfy` (module `Levels`) holds the depth entities: `Level(price, qty)`,
  the raw entry `RawLevel(price, qty, extra)` and `Side`. It also holds the two
  steps `update` applies to each side:
  - `Normalize` is the list comprehension. It drops entries whose quantity is
    not positive, drops the extra fields, and keeps input order.
  - `SortByKey` is Python's stable `sorted` with the key `-price` for bids and
    `price` for asks. It is written as a stable insertion sort.
  - The lemmas prove that the sorted side is in key order, is a permutation of
    its input, and keeps equal prices in input order. They also prove that
    those three facts determine the result, so any stable sort by the same key
    gives the same sides.
- `fill_walk.dfy` (module `FillWalk`) specifies `_simulate` as a recursive walk,
  `Walk`, that returns the cost and the quantity still wanted. `SimulateSpec`
  builds the four returned fields from it. The lemmas prove:
  - the unfilled quantity is the depth shortfall, `max(0, q - depth)`;
  - the cost equals a closed-form sum over the levels;
  - the cost is bounded by the side's price range;
  - the zero and negative request cases;
  - two worked examples.
- `order_book.dfy` (module `Book`) holds the class `OrderBook` with fields
  `bids` and `asks`:
  - `Update` reassigns both fields.
  - `Simulate` is the imperative loop of `_simulate`, with an early `break`. It
    is proved equal to `SimulateSpec`.
  - `SimulateBuy` and `SimulateSell` delegate to `Simulate` on the asks and the
    bids.
  - `GetTopOfBook` returns the first level of each side, or `None`.
  - `Valid()` is the class invariant: both sides sorted, every quantity
    positive.

Prices and quantities are `real`. The average price is deliberately the cost
divided by the REQUESTED quantity, as the code computes it. A request that is
not positive walks no level. It returns cost 0 and average price 0, and the
request itself as the unfilled quantity. So a negative request reports a
negative unfilled quantity, exactly as the loop in `core/orderbook.py:31-46`
does.

Where the code and the system's written design differ, this model follows the
code:
- The design asks for strictly ordered sides with one level per price. The code
  keeps duplicate prices, so the model states non-strict order and proves that
  levels with equal price keep their input order.
- The design asks that an update with a malformed number leave the book
  unchanged. The code assigns `self.bids` before it parses the asks
  (`core/orderbook.py:11` and `:15`), so a bad ask leaves the new bids in
  place. Parsing is not part of this model, so `Update` is not claimed atomic
  with respect to parse failures.
- The design names the top-of-book query `best_bid_ask`. The code defines only
  `get_top_of_book`.

## Model

| member | source | states |
|---|---|---|
| `Levels.Normalize` | core/orderbook.py:12 | every kept level has a positive quantity, and no more levels come out than entries went in |
| `Levels.NormalizeMembers` | core/orderbook.py:12 | a level is kept iff some input entry with positive quantity has exactly that price and quantity (extra fields ignored) |
| `Levels.NormalizeAppend` | core/orderbook.py:16 | the comprehension distributes over concatenation, i.e. it keeps input order |
| `Levels.SortByKey` | core/orderbook.py:11-17 | the sorted side is a permutation (same multiset) of its input |
| `Levels.SortByKeySorted` | core/orderbook.py:11-17 | the sorted side is in non-decreasing key order: bids by non-increasing price, asks by non-decreasing price |
| `Levels.SortByKeyStable` | core/orderbook.py:11-17 | the sort is stable: for every price, the levels at that price keep their input order |
| `Levels.StableSortUnique` | core/orderbook.py:11-17 | two sorted arrangements that agree on the order of the levels at every price are equal, so any stable sort by the same key yields the same side |
| `Levels.BookSideCorrect` | core/orderbook.py:11-18 | a stored side is sorted, has only positive quantities, is a permutation of the normalised input and is stable |
| `Levels.BookSideMembers` | core/orderbook.py:11-18 | a level is on the stored side iff the update supplied it with positive quantity, so no level of the previous state survives unless supplied again |
| `FillWalk.SimulateSpec` | core/orderbook.py:41-47 | the result echoes the requested quantity; avg_price times the requested quantity is the cost when that is positive, and avg_price is 0 otherwise |
| `FillWalk.NonPositiveRequest` | core/orderbook.py:34-41 | a request q <= 0 consumes nothing: cost 0, avg_price 0, unfilled q (for q = 0: all three are 0) whatever the side holds |
| `FillWalk.UnfilledIsShortfall` | core/orderbook.py:32-39 | for q >= 0 and non-negative level quantities, unfilled = max(0, q - total depth), hence 0 <= unfilled <= q |
| `FillWalk.CostIsSumOfLevelFills` | core/orderbook.py:34-39 | the cost is the sum over levels, in order, of price times min(available, what the request exceeds the earlier levels' depth by) |
| `FillWalk.CostWithinPriceRange` | core/orderbook.py:34-39 | the cost lies between the lowest and the highest price on the side times the filled quantity |
| `FillWalk.ExampleShortBook` | core/orderbook.py:27-47 | asks [(100,1)] and a request of 5 give cost 100, avg_price 20 (cost over requested, not filled) and unfilled 4 |
| `FillWalk.ExampleTwoLevels` | core/orderbook.py:27-47 | asks [(100,1),(101,2)] and a request of 2 give cost 201, avg_price 100.5 and unfilled 0 |
| `Book.OrderBook.constructor` | core/orderbook.py:6-8 | a new book has both sides empty and is valid |
| `Book.OrderBook.Update` | core/orderbook.py:10-18 | both sides are replaced by functions of the arguments alone; bids are in non-increasing and asks in non-decreasing price order; each side is a permutation of its positive-quantity input entries; the invariant holds |
| `Book.OrderBook.Simulate` | core/orderbook.py:27-47 | the loop with early break returns exactly the four fields of the recursive walk specification |
| `Book.OrderBook.SimulateBuy` | core/orderbook.py:21-22 | a buy walks the asks, changes neither side, and in a valid book leaves max(0, q - ask depth) unfilled |
| `Book.OrderBook.SimulateSell` | core/orderbook.py:24-25 | a sell walks the bids, changes neither side, and in a valid book leaves max(0, q - bid depth) unfilled |
| `Book.OrderBook.GetTopOfBook` | core/orderbook.py:49-53 | each side yields None iff it is empty and otherwise one of its levels; in a valid book that level is the highest bid and the lowest ask |
| `Book.FullBuyAverageWithinAsks` | core/orderbook.py:21-47 | a buy the sorted asks can fill completely leaves nothing unfilled, and its avg_price lies between the best and the worst ask |
| `Book.FullSellAverageWithinBids` | core/orderbook.py:24-47 | a sell the sorted bids can fill completely leaves nothing unfilled, and its avg_price lies between the worst and the best bid |

## Left out

- Parsing: `update` calls `float` on price and quantity strings and unpacks each entry as `p, q, *_`. The model takes already-numeric `RawLevel` values. So a malformed number, an entry with fewer than two fields, and the exception either raises are not modelled.
- Floating point: prices, quantities and the running sums are exact `real`s. Rounding, NaN and infinities of Python `float` are not modelled.
- Book.OrderBook.Update: not claimed atomic. A parse failure on the asks leaves the new bids stored, and parsing is not part of this model.
- `best_bid_ask`, `get_best_bid` and `get_best_ask` are called by `main.py`, `api/websocket_server.py` and `websocket/ws_client.py`, but `OrderBook` does not define them. They are not modelled.
- The streaming client (`websocket/ws_client.py`) is not part of this model: it is network I/O with exception-driven reconnects and sleeps.
- The broadcaster (`main.py:62-72`, `api/websocket_server.py:33-46`) is not part of this model: it is asynchronous fan-out to a shared client set.
- The HTTP routes, middleware and server start-up in `main.py` and `api/websocket_server.py` are framework wiring and are not modelled.
- `tests/test_ws_client.py` is a live-network script with no assertions. Nothing in it is modelled.
- Concurrent readers: the model is sequential. What a reader running between the two field assignments of `update` would observe is not modelled.
