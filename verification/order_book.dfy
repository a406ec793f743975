/**
 * The in-memory order book: two depth sides that every update replaces in
 * full, a fill simulation against either side, and the top of the book.
 */
module Book {
  import opened Levels
  import opened FillWalk

  datatype Option<T> = None | Some(value: T)

  /** The best level of each side, `None` for an empty side. */
  datatype TopOfBook = TopOfBook(bestBid: Option<Level>, bestAsk: Option<Level>)

  class OrderBook {
    /** Best (highest-priced) bid first. */
    var bids: seq<Level>
    /** Best (lowest-priced) ask first. */
    var asks: seq<Level>

    /** What every operation keeps: both sides in key order and no level with a non-positive quantity. */
    ghost predicate Valid()
      reads this
    {
      Sorted(Bid, bids) && Sorted(Ask, asks) && AllPositive(bids) && AllPositive(asks)
    }

    constructor ()
      ensures Valid()
      ensures bids == [] && asks == []
    {
      bids := [];
      asks := [];
    }

    /**
     * Replaces both sides wholesale: the new sides are a function of the
     * arguments alone, whatever the book held before.
     */
    method Update(rawBids: seq<RawLevel>, rawAsks: seq<RawLevel>)
      modifies this
      ensures bids == BookSide(Bid, rawBids) && asks == BookSide(Ask, rawAsks)
      ensures Valid()
      ensures forall i, j :: 0 <= i < j < |bids| ==> bids[i].price >= bids[j].price
      ensures forall i, j :: 0 <= i < j < |asks| ==> asks[i].price <= asks[j].price
      ensures multiset(bids) == multiset(Normalize(rawBids))
      ensures multiset(asks) == multiset(Normalize(rawAsks))
    {
      bids := BookSide(Bid, rawBids);
      asks := BookSide(Ask, rawAsks);
      BookSideCorrect(Bid, rawBids);
      BookSideCorrect(Ask, rawAsks);
      assert forall i, j :: 0 <= i < j < |bids| ==> Key(Bid, bids[i]) <= Key(Bid, bids[j]);
    }

    /** Buying consumes ask liquidity. */
    method SimulateBuy(quantity: real) returns (f: Fill)
      requires Valid()
      ensures f == SimulateSpec(asks, quantity)
      ensures quantity >= 0.0 ==> f.unfilledQty == Max(0.0, quantity - Depth(asks))
    {
      f := Simulate(asks, quantity);
      PositiveShortfall(asks, quantity);
    }

    /** Selling consumes bid liquidity. */
    method SimulateSell(quantity: real) returns (f: Fill)
      requires Valid()
      ensures f == SimulateSpec(bids, quantity)
      ensures quantity >= 0.0 ==> f.unfilledQty == Max(0.0, quantity - Depth(bids))
    {
      f := Simulate(bids, quantity);
      PositiveShortfall(bids, quantity);
    }

    /**
     * Walks `bookSide` from its first level, stopping at the first level met
     * with nothing left to fill; the average price is the cost over the
     * requested quantity.
     */
    method Simulate(bookSide: seq<Level>, quantity: real) returns (f: Fill)
      ensures f == SimulateSpec(bookSide, quantity)
    {
      var totalCost := 0.0;
      var qtyLeft := quantity;
      var i := 0;
      while i < |bookSide|
        invariant 0 <= i <= |bookSide|
        invariant totalCost + Walk(bookSide[i..], qtyLeft).cost == Walk(bookSide, quantity).cost
        invariant Walk(bookSide[i..], qtyLeft).left == Walk(bookSide, quantity).left
      {
        var level := bookSide[i];
        if qtyLeft <= 0.0 {
          break;
        }
        assert bookSide[i..][0] == level && bookSide[i..][1..] == bookSide[i + 1..];
        var tradeQty := Min(level.qty, qtyLeft);
        totalCost := totalCost + tradeQty * level.price;
        qtyLeft := qtyLeft - tradeQty;
        i := i + 1;
      }
      var avgPrice := if quantity > 0.0 then totalCost / quantity else 0.0;
      f := Fill(quantity, avgPrice, totalCost, qtyLeft);
    }

    /**
     * The first level of each side, or `None` for an empty side. In a valid
     * book that level is the highest bid and the lowest ask.
     */
    function GetTopOfBook(): (t: TopOfBook)
      reads this
      ensures t.bestBid == None <==> bids == []
      ensures t.bestAsk == None <==> asks == []
      ensures t.bestBid.Some? ==> t.bestBid.value in bids
      ensures t.bestAsk.Some? ==> t.bestAsk.value in asks
      ensures Valid() && t.bestBid.Some? ==> forall l :: l in bids ==> l.price <= t.bestBid.value.price
      ensures Valid() && t.bestAsk.Some? ==> forall l :: l in asks ==> t.bestAsk.value.price <= l.price
    {
      TopOfBook(if bids != [] then Some(bids[0]) else None,
                if asks != [] then Some(asks[0]) else None)
    }
  }

  lemma PositiveShortfall(side: seq<Level>, quantity: real)
    requires AllPositive(side)
    ensures quantity >= 0.0 ==> Walk(side, quantity).left == Max(0.0, quantity - Depth(side))
  {
    if quantity >= 0.0 {
      UnfilledIsShortfall(side, quantity);
    }
  }

  /**
   * A buy that the asks can fill completely leaves nothing unfilled and pays
   * on average no less than the best ask and no more than the worst one.
   */
  lemma FullBuyAverageWithinAsks(asks: seq<Level>, quantity: real)
    requires Sorted(Ask, asks) && AllPositive(asks)
    requires asks != [] && 0.0 < quantity <= Depth(asks)
    ensures SimulateSpec(asks, quantity).unfilledQty == 0.0
    ensures asks[0].price <= SimulateSpec(asks, quantity).avgPrice <= asks[|asks| - 1].price
  {
    var lo, hi := asks[0].price, asks[|asks| - 1].price;
    UnfilledIsShortfall(asks, quantity);
    CostWithinPriceRange(asks, quantity, lo, hi);
    var f := SimulateSpec(asks, quantity);
    AverageWithin(lo, hi, f.avgPrice, quantity, f.cost);
  }

  /**
   * A sell that the bids can fill completely leaves nothing unfilled and
   * receives on average no more than the best bid and no less than the worst one.
   */
  lemma FullSellAverageWithinBids(bids: seq<Level>, quantity: real)
    requires Sorted(Bid, bids) && AllPositive(bids)
    requires bids != [] && 0.0 < quantity <= Depth(bids)
    ensures SimulateSpec(bids, quantity).unfilledQty == 0.0
    ensures bids[|bids| - 1].price <= SimulateSpec(bids, quantity).avgPrice <= bids[0].price
  {
    var lo, hi := bids[|bids| - 1].price, bids[0].price;
    UnfilledIsShortfall(bids, quantity);
    assert forall i :: 0 <= i < |bids| ==> Key(Bid, bids[0]) <= Key(Bid, bids[i]) <= Key(Bid, bids[|bids| - 1]);
    CostWithinPriceRange(bids, quantity, lo, hi);
    var f := SimulateSpec(bids, quantity);
    AverageWithin(lo, hi, f.avgPrice, quantity, f.cost);
  }

  lemma AverageWithin(lo: real, hi: real, avg: real, quantity: real, cost: real)
    requires quantity > 0.0 && avg * quantity == cost
    requires lo * quantity <= cost <= hi * quantity
    ensures lo <= avg <= hi
  {
  }
}
