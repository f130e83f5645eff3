/** The order-book summary of `checkMarketDepth`, on a book passed in as a
    parameter: each side is a list of (price, volume) levels. */
module Depth {
  import opened Wrappers
  import opened Stats

  /** The prices of one side of the book, in order. */
  function Prices(book: seq<(real, real)>): (r: seq<real>)
    ensures |r| == |book|
    ensures forall i :: 0 <= i < |book| ==> r[i] == book[i].0
  {
    seq(|book|, i requires 0 <= i < |book| => book[i].0)
  }

  /** `sum(volumes)`: the total volume of one side. */
  function TotalVolume(book: seq<(real, real)>): real
  {
    if book == [] then 0.0 else TotalVolume(book[..|book| - 1]) + book[|book| - 1].1
  }

  /** The sum of the element-wise products of prices and volumes. */
  function Notional(book: seq<(real, real)>): real
  {
    if book == [] then 0.0
    else Notional(book[..|book| - 1]) + book[|book| - 1].0 * book[|book| - 1].1
  }

  datatype DepthSummary = DepthSummary(
    askVolume: real, askValue: real,
    bidVolume: real, bidValue: real,
    lowestAsk: real, highestBid: real,
    spread: real)

  /** `checkMarketDepth`. `None` stands for the ValueError that unpacking
      `zip(*side)` raises when a side of the book is empty. The lowest ask and
      the highest bid are the extreme prices of their sides and the spread is
      the distance between them. */
  function CheckMarketDepth(asks: seq<(real, real)>, bids: seq<(real, real)>): (r: Option<DepthSummary>)
    ensures r.None? <==> asks == [] || bids == []
    ensures r.Some? ==> r.value.spread >= 0.0
    ensures r.Some? ==> r.value.spread == r.value.highestBid - r.value.lowestAsk
                        || r.value.spread == r.value.lowestAsk - r.value.highestBid
    ensures r.Some? ==> (exists i :: 0 <= i < |asks| && asks[i].0 == r.value.lowestAsk)
                        && forall i :: 0 <= i < |asks| ==> r.value.lowestAsk <= asks[i].0
    ensures r.Some? ==> (exists j :: 0 <= j < |bids| && bids[j].0 == r.value.highestBid)
                        && forall j :: 0 <= j < |bids| ==> bids[j].0 <= r.value.highestBid
    ensures r.Some? ==> r.value.askVolume == TotalVolume(asks) && r.value.bidVolume == TotalVolume(bids)
    ensures r.Some? ==> r.value.askValue == Notional(asks) && r.value.bidValue == Notional(bids)
  {
    if asks == [] || bids == [] then None
    else
      var lowest, highest := Min(Prices(asks)), Max(Prices(bids));
      var gap := highest - lowest;
      Some(DepthSummary(TotalVolume(asks), Notional(asks), TotalVolume(bids), Notional(bids),
                        lowest, highest, if gap < 0.0 then -gap else gap))
  }

  /** When the book is not crossed (the highest bid does not exceed the
      lowest ask) the spread is the smallest distance from any bid up to any
      ask. */
  lemma SpreadIsNarrowestGap(asks: seq<(real, real)>, bids: seq<(real, real)>)
    requires CheckMarketDepth(asks, bids).Some?
    requires CheckMarketDepth(asks, bids).value.highestBid <= CheckMarketDepth(asks, bids).value.lowestAsk
    ensures forall i, j :: 0 <= i < |asks| && 0 <= j < |bids| ==>
      CheckMarketDepth(asks, bids).value.spread <= asks[i].0 - bids[j].0
    ensures exists i, j :: (0 <= i < |asks| && 0 <= j < |bids| &&
      CheckMarketDepth(asks, bids).value.spread == asks[i].0 - bids[j].0)
  {
    var d := CheckMarketDepth(asks, bids).value;
    var i :| 0 <= i < |asks| && asks[i].0 == d.lowestAsk;
    var j :| 0 <= j < |bids| && bids[j].0 == d.highestBid;
    assert d.spread == asks[i].0 - bids[j].0;
  }

  /** One level: a non-negative volume at a price in [lo, hi] is worth
      between lo and hi times that volume. */
  lemma ScaleBetween(price: real, volume: real, lo: real, hi: real)
    requires volume >= 0.0 && lo <= price <= hi
    ensures lo * volume <= price * volume <= hi * volume
  {
    assert (price - lo) * volume >= 0.0;
    assert (hi - price) * volume >= 0.0;
  }

  /** One more level keeps the notional value between lo and hi times the
      volume. */
  lemma NotionalStep(lo: real, hi: real, total: real, value: real, price: real, volume: real)
    requires volume >= 0.0 && lo <= price <= hi
    requires lo * total <= value <= hi * total
    ensures lo * (total + volume) <= value + price * volume <= hi * (total + volume)
  {
    ScaleBetween(price, volume, lo, hi);
  }

  /** When every volume is non-negative and every price lies in [lo, hi],
      the notional value of the side lies between lo and hi times its volume. */
  lemma {:induction false} NotionalBetween(book: seq<(real, real)>, lo: real, hi: real)
    requires forall i :: 0 <= i < |book| ==> book[i].1 >= 0.0 && lo <= book[i].0 <= hi
    ensures lo * TotalVolume(book) <= Notional(book) <= hi * TotalVolume(book)
  {
    if book != [] {
      var p := book[..|book| - 1];
      var (price, volume) := book[|book| - 1];
      assert forall i :: 0 <= i < |p| ==> p[i] == book[i];
      NotionalBetween(p, lo, hi);
      assert Notional(book) == Notional(p) + price * volume;
      assert TotalVolume(book) == TotalVolume(p) + volume;
      NotionalStep(lo, hi, TotalVolume(p), Notional(p), price, volume);
    }
  }
}
