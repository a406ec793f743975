/**
 * Depth levels of an order book and the normalisation that `OrderBook.update`
 * applies to each side: drop the entries whose quantity is not positive, keep
 * (price, quantity), and sort stably by a per-side key (the negated price for
 * bids, the price for asks).
 */
module Levels {

  /** One stored level of a depth side. */
  datatype Level = Level(price: real, qty: real)

  /**
   * One entry of an update as the venue sends it, with price and quantity
   * already numeric; `extra` stands for the trailing fields that `update`
   * ignores.
   */
  datatype RawLevel = RawLevel(price: real, qty: real, extra: seq<string>)

  datatype Side = Bid | Ask

  /** The sort key `update` uses: `-price` for bids, `price` for asks. */
  function Key(side: Side, l: Level): real
  {
    match side
    case Bid => -l.price
    case Ask => l.price
  }

  /** The side is in non-decreasing key order (best level first). */
  predicate Sorted(side: Side, s: seq<Level>)
  {
    forall i, j :: 0 <= i < j < |s| ==> Key(side, s[i]) <= Key(side, s[j])
  }

  /** Every level has a positive quantity. */
  predicate AllPositive(s: seq<Level>)
  {
    forall i :: 0 <= i < |s| ==> s[i].qty > 0.0
  }

  /** The levels of `s` whose price is `p`, in their order in `s`. */
  function AtPrice(s: seq<Level>, p: real): (r: seq<Level>)
    ensures |r| <= |s|
  {
    if s == [] then []
    else if s[0].price == p then [s[0]] + AtPrice(s[1..], p)
    else AtPrice(s[1..], p)
  }

  /**
   * The list comprehension of `update`: the entries with positive quantity,
   * reduced to (price, quantity), in input order.
   */
  function Normalize(raw: seq<RawLevel>): (r: seq<Level>)
    ensures |r| <= |raw|
    ensures AllPositive(r)
  {
    if raw == [] then []
    else if raw[0].qty > 0.0 then [Level(raw[0].price, raw[0].qty)] + Normalize(raw[1..])
    else Normalize(raw[1..])
  }

  /** `x` placed before the first level of `s` whose key is not smaller. */
  function Insert(side: Side, x: Level, s: seq<Level>): (r: seq<Level>)
    ensures multiset(r) == multiset(s) + multiset{x}
  {
    if s == [] then [x]
    else if Key(side, x) <= Key(side, s[0]) then [x] + s
    else
      assert s == [s[0]] + s[1..];
      [s[0]] + Insert(side, x, s[1..])
  }

  /** A stable sort of `s` by `Key(side, _)` (Python's `sorted` with a key). */
  function SortByKey(side: Side, s: seq<Level>): (r: seq<Level>)
    ensures multiset(r) == multiset(s)
  {
    if s == [] then []
    else
      assert s == [s[0]] + s[1..];
      Insert(side, s[0], SortByKey(side, s[1..]))
  }

  /** What `update` stores for one side given that side's raw entries. */
  function BookSide(side: Side, raw: seq<RawLevel>): seq<Level>
  {
    SortByKey(side, Normalize(raw))
  }

  // ---------------------------------------------------------------------
  // Filtering

  /** A level survives normalisation exactly when some entry with positive quantity carries it. */
  lemma {:induction false} NormalizeMembers(raw: seq<RawLevel>, l: Level)
    ensures l in Normalize(raw) <==>
            exists i :: 0 <= i < |raw| && raw[i].qty > 0.0 && l == Level(raw[i].price, raw[i].qty)
  {
    if raw != [] {
      NormalizeMembers(raw[1..], l);
      if l in Normalize(raw[1..]) {
        var i :| 0 <= i < |raw[1..]| && raw[1..][i].qty > 0.0 && l == Level(raw[1..][i].price, raw[1..][i].qty);
        assert raw[i + 1] == raw[1..][i];
      }
      if exists i :: 0 <= i < |raw| && raw[i].qty > 0.0 && l == Level(raw[i].price, raw[i].qty) {
        var i :| 0 <= i < |raw| && raw[i].qty > 0.0 && l == Level(raw[i].price, raw[i].qty);
        if i > 0 {
          assert raw[1..][i - 1] == raw[i];
        }
      }
    }
  }

  /** Normalising a concatenation normalises each part: the comprehension keeps input order. */
  lemma {:induction false} NormalizeAppend(a: seq<RawLevel>, b: seq<RawLevel>)
    ensures Normalize(a + b) == Normalize(a) + Normalize(b)
  {
    if a == [] {
      assert a + b == b;
    } else {
      assert (a + b)[0] == a[0];
      assert (a + b)[1..] == a[1..] + b;
      NormalizeAppend(a[1..], b);
    }
  }

  // ---------------------------------------------------------------------
  // Sorting

  lemma {:induction false} InsertSorted(side: Side, x: Level, s: seq<Level>)
    requires Sorted(side, s)
    ensures Sorted(side, Insert(side, x, s))
    ensures Insert(side, x, s)[0] == x || (s != [] && Insert(side, x, s)[0] == s[0])
  {
    if s != [] && Key(side, x) > Key(side, s[0]) {
      InsertSorted(side, x, s[1..]);
      var r := Insert(side, x, s);
      assert r == [s[0]] + Insert(side, x, s[1..]);
      forall i, j | 0 <= i < j < |r| ensures Key(side, r[i]) <= Key(side, r[j]) {
        if i == 0 {
          assert r[j] in multiset(s[1..]) + multiset{x};
        }
      }
    }
  }

  /** The sorted side is in key order (bids by non-increasing, asks by non-decreasing price). */
  lemma {:induction false} SortByKeySorted(side: Side, s: seq<Level>)
    ensures Sorted(side, SortByKey(side, s))
  {
    if s != [] {
      SortByKeySorted(side, s[1..]);
      InsertSorted(side, s[0], SortByKey(side, s[1..]));
    }
  }

  lemma AtPriceCons(y: Level, t: seq<Level>, p: real)
    ensures AtPrice([y] + t, p) == (if y.price == p then [y] else []) + AtPrice(t, p)
  {
  }

  lemma {:induction false} InsertAtPrice(side: Side, x: Level, s: seq<Level>, p: real)
    ensures AtPrice(Insert(side, x, s), p) == (if x.price == p then [x] else []) + AtPrice(s, p)
  {
    if s == [] {
      assert [x] + s == [x];
      AtPriceCons(x, s, p);
    } else {
      assert s == [s[0]] + s[1..];
      AtPriceCons(s[0], s[1..], p);
      if Key(side, x) > Key(side, s[0]) {
        var t := Insert(side, x, s[1..]);
        InsertAtPrice(side, x, s[1..], p);
        AtPriceCons(s[0], t, p);
        assert x.price == p ==> s[0].price != p;
      } else {
        AtPriceCons(x, s, p);
      }
    }
  }

  /** The sort is stable: levels with equal price keep their input order. */
  lemma {:induction false} SortByKeyStable(side: Side, s: seq<Level>, p: real)
    ensures AtPrice(SortByKey(side, s), p) == AtPrice(s, p)
  {
    if s != [] {
      SortByKeyStable(side, s[1..], p);
      InsertAtPrice(side, s[0], SortByKey(side, s[1..]), p);
    }
  }

  lemma {:induction false} AtPriceMembers(s: seq<Level>, p: real, l: Level)
    ensures l in AtPrice(s, p) <==> l in s && l.price == p
  {
    if s != [] {
      AtPriceMembers(s[1..], p, l);
      assert s == [s[0]] + s[1..];
    }
  }

  lemma AtPriceHead(s: seq<Level>)
    requires s != []
    ensures AtPrice(s, s[0].price) == [s[0]] + AtPrice(s[1..], s[0].price)
  {
  }

  /**
   * A sorted arrangement in which every price keeps its input order is unique:
   * any stable sort by the same key yields `SortByKey`'s result.
   */
  lemma {:induction false} StableSortUnique(side: Side, a: seq<Level>, b: seq<Level>)
    requires Sorted(side, a) && Sorted(side, b)
    requires forall p :: AtPrice(a, p) == AtPrice(b, p)
    ensures a == b
  {
    if a == [] || b == [] {
      if a != [] {
        AtPriceMembers(a, a[0].price, a[0]);
        assert false;
      }
      if b != [] {
        AtPriceMembers(b, b[0].price, b[0]);
        assert false;
      }
    } else {
      // a[0] occurs in b and b[0] occurs in a, so both heads carry the least key.
      AtPriceMembers(a, a[0].price, a[0]);
      assert a[0] in AtPrice(b, a[0].price);
      AtPriceMembers(b, a[0].price, a[0]);
      AtPriceMembers(b, b[0].price, b[0]);
      assert b[0] in AtPrice(a, b[0].price);
      AtPriceMembers(a, b[0].price, b[0]);
      var p := a[0].price;
      assert b[0].price == p by {
        var i :| 0 <= i < |b| && b[i] == a[0];
        var k :| 0 <= k < |a| && a[k] == b[0];
        assert Key(side, b[0]) <= Key(side, b[i]);
        assert Key(side, a[0]) <= Key(side, a[k]);
      }
      AtPriceHead(a);
      AtPriceHead(b);
      assert AtPrice(a, p) == AtPrice(b, p);
      assert a[0] == AtPrice(a, p)[0] == AtPrice(b, p)[0] == b[0];
      forall q ensures AtPrice(a[1..], q) == AtPrice(b[1..], q) {
        assert AtPrice(a, q) == AtPrice(b, q);
        if q != p {
          assert AtPrice(a, q) == AtPrice(a[1..], q);
          assert AtPrice(b, q) == AtPrice(b[1..], q);
        } else {
          assert AtPrice(a, q)[1..] == AtPrice(a[1..], q);
        }
      }
      StableSortUnique(side, a[1..], b[1..]);
      assert a == [a[0]] + a[1..] && b == [b[0]] + b[1..];
    }
  }

  /**
   * What `update` stores for one side: in key order, every quantity positive,
   * a permutation of exactly the input entries with positive quantity, equal
   * prices in input order, and equal to any other arrangement with those
   * properties.
   */
  lemma BookSideCorrect(side: Side, raw: seq<RawLevel>)
    ensures Sorted(side, BookSide(side, raw))
    ensures AllPositive(BookSide(side, raw))
    ensures multiset(BookSide(side, raw)) == multiset(Normalize(raw))
    ensures forall p :: AtPrice(BookSide(side, raw), p) == AtPrice(Normalize(raw), p)
  {
    var n := Normalize(raw);
    SortByKeySorted(side, n);
    forall p ensures AtPrice(BookSide(side, raw), p) == AtPrice(n, p) {
      SortByKeyStable(side, n, p);
    }
    var r := BookSide(side, raw);
    forall i | 0 <= i < |r| ensures r[i].qty > 0.0 {
      assert r[i] in multiset(n);
    }
  }

  /** No level of a previous state can appear after an update unless the update supplies it. */
  lemma BookSideMembers(side: Side, raw: seq<RawLevel>, l: Level)
    ensures l in BookSide(side, raw) <==>
            exists i :: 0 <= i < |raw| && raw[i].qty > 0.0 && l == Level(raw[i].price, raw[i].qty)
  {
    NormalizeMembers(raw, l);
    assert multiset(BookSide(side, raw)) == multiset(Normalize(raw));
    assert l in BookSide(side, raw) <==> l in multiset(BookSide(side, raw));
    assert l in Normalize(raw) <==> l in multiset(Normalize(raw));
  }
}
