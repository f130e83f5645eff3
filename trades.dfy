/** The trade-history reduction of `showLastTrades`, on a history passed in
    as a parameter. A trade's date is a number of seconds; the moment the
    window starts (now minus interval times list length) is a parameter. */
module Trades {

  datatype Trade = Trade(tradeType: string, amount: real, price: real, date: int)

  /** The trades of type `kind` dated at or after `cutoff`, in history order. */
  function Matching(history: seq<Trade>, kind: string, cutoff: int): seq<Trade>
  {
    if history == [] then []
    else
      var t := history[|history| - 1];
      Matching(history[..|history| - 1], kind, cutoff)
        + (if t.tradeType == kind && t.date >= cutoff then [t] else [])
  }

  /** The summed amount of a list of trades. */
  function TotalAmount(ts: seq<Trade>): real
  {
    if ts == [] then 0.0 else TotalAmount(ts[..|ts| - 1]) + ts[|ts| - 1].amount
  }

  /** The summed value (amount times price) of a list of trades. */
  function TotalValue(ts: seq<Trade>): real
  {
    if ts == [] then 0.0 else TotalValue(ts[..|ts| - 1]) + ts[|ts| - 1].amount * ts[|ts| - 1].price
  }

  datatype TradeSummary = TradeSummary(
    countAsk: nat, sellAmount: real, sellValue: real,
    countBid: nat, buyAmount: real, buyValue: real)

  /** What `showLastTrades` reports: for the ask trades and for the bid
      trades of the window, their number, total amount and total value. */
  function Summary(history: seq<Trade>, cutoff: int): TradeSummary
  {
    var sells, buys := Matching(history, "ask", cutoff), Matching(history, "bid", cutoff);
    TradeSummary(|sells|, TotalAmount(sells), TotalValue(sells),
                 |buys|, TotalAmount(buys), TotalValue(buys))
  }

  /** One more trade at the end of the history. */
  lemma MatchingAppend(history: seq<Trade>, t: Trade, kind: string, cutoff: int)
    ensures Matching(history + [t], kind, cutoff) ==
      Matching(history, kind, cutoff) + (if t.tradeType == kind && t.date >= cutoff then [t] else [])
  {
    assert (history + [t])[..|history|] == history;
  }

  /** One more trade at the end of a list of trades. */
  lemma TotalsAppend(ts: seq<Trade>, t: Trade)
    ensures TotalAmount(ts + [t]) == TotalAmount(ts) + t.amount
    ensures TotalValue(ts + [t]) == TotalValue(ts) + t.amount * t.price
  {
    assert (ts + [t])[..|ts|] == ts;
  }

  /** One more trade at the end of the history adds to the count and the
      totals of its own kind when it is in the window, and to no other. */
  lemma SideAppend(history: seq<Trade>, t: Trade, kind: string, cutoff: int)
    ensures var m, m' := Matching(history, kind, cutoff), Matching(history + [t], kind, cutoff);
      if t.tradeType == kind && t.date >= cutoff then
        |m'| == |m| + 1 && TotalAmount(m') == TotalAmount(m) + t.amount
        && TotalValue(m') == TotalValue(m) + t.amount * t.price
      else m' == m
  {
    MatchingAppend(history, t, kind, cutoff);
    var m := Matching(history, kind, cutoff);
    if t.tradeType == kind && t.date >= cutoff {
      TotalsAppend(m, t);
    } else {
      assert m + [] == m;
    }
  }

  /** One pass of the `showLastTrades` loop on the running summary: an ask
      trade in the window adds to the sell side, a bid trade in the window
      to the buy side, and any other trade leaves the summary as it was. */
  function Tally(s: TradeSummary, t: Trade, cutoff: int): TradeSummary
  {
    if t.tradeType == "ask" && t.date >= cutoff then
      s.(countAsk := s.countAsk + 1, sellAmount := s.sellAmount + t.amount,
         sellValue := s.sellValue + t.amount * t.price)
    else if t.tradeType == "bid" && t.date >= cutoff then
      s.(countBid := s.countBid + 1, buyAmount := s.buyAmount + t.amount,
         buyValue := s.buyValue + t.amount * t.price)
    else s
  }

  /** One more trade at the end of the history updates the summary the way
      one pass of the loop does. */
  lemma SummaryAppend(history: seq<Trade>, t: Trade, cutoff: int)
    ensures Summary(history + [t], cutoff) == Tally(Summary(history, cutoff), t, cutoff)
  {
    SideAppend(history, t, "ask", cutoff);
    SideAppend(history, t, "bid", cutoff);
    assert "ask" != "bid" by {
      assert "ask"[0] != "bid"[0];
    }
  }

  /** The summary the loop builds: `Tally` folded over the history from the
      all-zero summary. */
  function Tallied(history: seq<Trade>, cutoff: int): TradeSummary
  {
    if history == [] then TradeSummary(0, 0.0, 0.0, 0, 0.0, 0.0)
    else Tally(Tallied(history[..|history| - 1], cutoff), history[|history| - 1], cutoff)
  }

  /** Folding the loop step over the history gives the declarative summary. */
  lemma {:induction false} TalliedIsSummary(history: seq<Trade>, cutoff: int)
    ensures Tallied(history, cutoff) == Summary(history, cutoff)
  {
    if history != [] {
      var p, t := history[..|history| - 1], history[|history| - 1];
      TalliedIsSummary(p, cutoff);
      SummaryAppend(p, t, cutoff);
      assert p + [t] == history;
    }
  }

  /** Matching selects exactly the trades of the history that have the
      requested type and are dated at or after the cutoff. */
  lemma {:induction false} MatchingExactly(history: seq<Trade>, kind: string, cutoff: int)
    ensures forall t :: t in Matching(history, kind, cutoff) <==>
      t in history && t.tradeType == kind && t.date >= cutoff
  {
    if history != [] {
      var p := history[..|history| - 1];
      MatchingExactly(p, kind, cutoff);
      assert history == p + [history[|history| - 1]];
    }
  }

  /** A trade is counted at most once, as an ask or as a bid: the two counts
      together never exceed the length of the history. */
  lemma {:induction false} CountsBounded(history: seq<Trade>, cutoff: int)
    ensures |Matching(history, "ask", cutoff)| + |Matching(history, "bid", cutoff)| <= |history|
  {
    if history != [] {
      CountsBounded(history[..|history| - 1], cutoff);
    }
  }

  /** Moving the cutoff later never adds trades to a count. */
  lemma {:induction false} LaterCutoffCountsFewer(history: seq<Trade>, kind: string, early: int, late: int)
    requires early <= late
    ensures |Matching(history, kind, late)| <= |Matching(history, kind, early)|
  {
    if history != [] {
      LaterCutoffCountsFewer(history[..|history| - 1], kind, early, late);
    }
  }

  /** With non-negative amounts and prices, the totals are non-negative. */
  lemma {:induction false} TotalsNonNegative(ts: seq<Trade>)
    requires forall i :: 0 <= i < |ts| ==> ts[i].amount >= 0.0 && ts[i].price >= 0.0
    ensures TotalAmount(ts) >= 0.0 && TotalValue(ts) >= 0.0
  {
    if ts != [] {
      var p := ts[..|ts| - 1];
      assert forall i :: 0 <= i < |p| ==> p[i] == ts[i];
      TotalsNonNegative(p);
    }
  }
}
