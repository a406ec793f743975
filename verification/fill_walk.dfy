/**
 * The specification of `OrderBook._simulate`: a market order of a requested
 * quantity walks one depth side from its first level to its last, taking
 * `min(available, remaining)` at each level until nothing remains.
 */
module FillWalk {
  import opened Levels

  /** The four fields `_simulate` returns. */
  datatype Fill = Fill(quantity: real, avgPrice: real, cost: real, unfilledQty: real)

  /** The accumulators of the walk once it stops: cost paid and quantity still wanted. */
  datatype Walked = Walked(cost: real, left: real)

  function Min(a: real, b: real): real { if a <= b then a else b }

  function Max(a: real, b: real): real { if a >= b then a else b }

  /** Every level has a non-negative quantity (the stored sides have positive ones). */
  predicate NonNegative(s: seq<Level>)
  {
    forall i :: 0 <= i < |s| ==> s[i].qty >= 0.0
  }

  /** Total visible quantity of a side. */
  function Depth(s: seq<Level>): real
  {
    if s == [] then 0.0 else s[0].qty + Depth(s[1..])
  }

  /**
   * The walk: stop as soon as nothing remains or the side is exhausted,
   * otherwise trade `min(available, remaining)` at the first level and go on.
   */
  function Walk(side: seq<Level>, left: real): Walked
  {
    if side == [] || left <= 0.0 then Walked(0.0, left)
    else
      var trade := Min(side[0].qty, left);
      var rest := Walk(side[1..], left - trade);
      Walked(trade * side[0].price + rest.cost, rest.left)
  }

  /**
   * The result of `_simulate(side, quantity)`. The average price divides the
   * cost by the REQUESTED quantity, not by the filled one, and is 0 when the
   * requested quantity is not positive.
   */
  function SimulateSpec(side: seq<Level>, quantity: real): (f: Fill)
    ensures f.quantity == quantity
    ensures quantity > 0.0 ==> f.avgPrice * quantity == f.cost
    ensures quantity <= 0.0 ==> f.avgPrice == 0.0
  {
    var w := Walk(side, quantity);
    Fill(quantity, if quantity > 0.0 then w.cost / quantity else 0.0, w.cost, w.left)
  }

  // ---------------------------------------------------------------------
  // An independent closed form of the cost

  /** The quantity taken at level `i`: what remains after the levels before it, capped by what `i` offers. */
  function FilledAt(side: seq<Level>, q: real, i: nat): real
    requires i < |side|
  {
    Min(side[i].qty, Max(0.0, q - Depth(side[..i])))
  }

  /** Sum of `price * FilledAt` over the levels from `i` on. */
  function CostFrom(side: seq<Level>, q: real, i: nat): real
    requires i <= |side|
    decreases |side| - i
  {
    if i == |side| then 0.0 else side[i].price * FilledAt(side, q, i) + CostFrom(side, q, i + 1)
  }

  // ---------------------------------------------------------------------
  // Lemmas

  lemma {:induction false} DepthAppend(a: seq<Level>, b: seq<Level>)
    ensures Depth(a + b) == Depth(a) + Depth(b)
  {
    if a == [] {
      assert a + b == b;
    } else {
      assert (a + b)[0] == a[0];
      assert (a + b)[1..] == a[1..] + b;
      DepthAppend(a[1..], b);
    }
  }

  lemma {:induction false} DepthNonNegative(s: seq<Level>)
    requires NonNegative(s)
    ensures Depth(s) >= 0.0
  {
    if s != [] {
      DepthNonNegative(s[1..]);
    }
  }

  lemma DepthPrefixStep(s: seq<Level>, i: nat)
    requires i < |s|
    ensures Depth(s[..i + 1]) == Depth(s[..i]) + s[i].qty
  {
    assert s[..i + 1] == s[..i] + [s[i]];
    DepthAppend(s[..i], [s[i]]);
  }

  /** A non-positive request touches no level: cost 0, average 0, and the request itself left unfilled. */
  lemma NonPositiveRequest(side: seq<Level>, quantity: real)
    requires quantity <= 0.0
    ensures SimulateSpec(side, quantity) == Fill(quantity, 0.0, 0.0, quantity)
  {
  }

  /**
   * For a non-negative request against a side with non-negative quantities,
   * the unfilled quantity is the shortfall of the depth: `max(0, q - depth)`,
   * hence between 0 and q.
   */
  lemma {:induction false} UnfilledIsShortfall(side: seq<Level>, q: real)
    requires q >= 0.0 && NonNegative(side)
    ensures Walk(side, q).left == Max(0.0, q - Depth(side))
    ensures 0.0 <= Walk(side, q).left <= q
  {
    DepthNonNegative(side);
    if side != [] && q > 0.0 {
      var trade := Min(side[0].qty, q);
      UnfilledIsShortfall(side[1..], q - trade);
      DepthNonNegative(side[1..]);
    }
  }

  lemma {:induction false} CostFromExhausted(side: seq<Level>, q: real, i: nat)
    requires i <= |side| && NonNegative(side)
    requires q <= Depth(side[..i])
    ensures CostFrom(side, q, i) == 0.0
    decreases |side| - i
  {
    if i < |side| {
      DepthPrefixStep(side, i);
      assert FilledAt(side, q, i) == 0.0;
      CostFromExhausted(side, q, i + 1);
    }
  }

  lemma {:induction false} WalkFrom(side: seq<Level>, q: real, i: nat)
    requires i <= |side| && q >= 0.0 && NonNegative(side)
    ensures Walk(side[i..], Max(0.0, q - Depth(side[..i]))).cost == CostFrom(side, q, i)
    decreases |side| - i
  {
    var left := Max(0.0, q - Depth(side[..i]));
    if i == |side| {
      assert side[i..] == [];
    } else if left <= 0.0 {
      CostFromExhausted(side, q, i);
    } else {
      DepthPrefixStep(side, i);
      assert side[i..][0] == side[i];
      assert side[i..][1..] == side[i + 1..];
      assert left - Min(side[i].qty, left) == Max(0.0, q - Depth(side[..i + 1]));
      WalkFrom(side, q, i + 1);
    }
  }

  /**
   * The cost of the walk equals the sum over levels, in sequence order, of
   * `price * min(available, remaining)`, where the remaining quantity at a
   * level is what the request exceeds the depth of the levels before it by.
   */
  lemma CostIsSumOfLevelFills(side: seq<Level>, q: real)
    requires q >= 0.0 && NonNegative(side)
    ensures Walk(side, q).cost == CostFrom(side, q, 0)
  {
    assert side[..0] == [] && side[0..] == side;
    WalkFrom(side, q, 0);
  }

  /**
   * The cost lies between the lowest and the highest price on the side times
   * the filled quantity: the average over the filled part is within the
   * side's price range.
   */
  lemma CostWithinPriceRange(side: seq<Level>, q: real, lo: real, hi: real)
    requires q >= 0.0 && NonNegative(side)
    requires forall i :: 0 <= i < |side| ==> lo <= side[i].price <= hi
    ensures lo * (q - Walk(side, q).left) <= Walk(side, q).cost <= hi * (q - Walk(side, q).left)
  {
    CostAtLeast(side, q, lo);
    CostAtMost(side, q, hi);
  }

  lemma {:induction false} CostAtLeast(side: seq<Level>, q: real, lo: real)
    requires q >= 0.0 && NonNegative(side)
    requires forall i :: 0 <= i < |side| ==> lo <= side[i].price
    ensures lo * (q - Walk(side, q).left) <= Walk(side, q).cost
  {
    if side != [] && q > 0.0 {
      var trade := Min(side[0].qty, q);
      var rest := Walk(side[1..], q - trade);
      assert forall i :: 0 <= i < |side[1..]| ==> side[1..][i] == side[i + 1];
      CostAtLeast(side[1..], q - trade, lo);
      StepAtLeast(lo, side[0].price, trade, rest.cost, q - trade - rest.left);
    }
  }

  lemma {:induction false} CostAtMost(side: seq<Level>, q: real, hi: real)
    requires q >= 0.0 && NonNegative(side)
    requires forall i :: 0 <= i < |side| ==> side[i].price <= hi
    ensures Walk(side, q).cost <= hi * (q - Walk(side, q).left)
  {
    if side != [] && q > 0.0 {
      var trade := Min(side[0].qty, q);
      var rest := Walk(side[1..], q - trade);
      assert forall i :: 0 <= i < |side[1..]| ==> side[1..][i] == side[i + 1];
      CostAtMost(side[1..], q - trade, hi);
      StepAtMost(hi, side[0].price, trade, rest.cost, q - trade - rest.left);
    }
  }

  lemma StepAtLeast(lo: real, price: real, trade: real, restCost: real, restFilled: real)
    requires lo <= price && trade >= 0.0 && lo * restFilled <= restCost
    ensures lo * (trade + restFilled) <= trade * price + restCost
  {
  }

  lemma StepAtMost(hi: real, price: real, trade: real, restCost: real, restFilled: real)
    requires price <= hi && trade >= 0.0 && restCost <= hi * restFilled
    ensures trade * price + restCost <= hi * (trade + restFilled)
  {
  }

  /** A buy of 5 against asks [(100, 1)]: cost 100, average 100/5 = 20, 4 unfilled. */
  lemma ExampleShortBook()
    ensures SimulateSpec([Level(100.0, 1.0)], 5.0) == Fill(5.0, 20.0, 100.0, 4.0)
  {
  }

  /** A buy of 2 against asks [(100, 1), (101, 2)]: cost 201, average 100.5, nothing unfilled. */
  lemma ExampleTwoLevels()
    ensures SimulateSpec([Level(100.0, 1.0), Level(101.0, 2.0)], 2.0) == Fill(2.0, 100.5, 201.0, 0.0)
  {
  }
}
