/** The analyzer object of `analyzer-bot.py`: bounded histories of prices,
    interval changes and trend tags, an iteration counter and three trend
    flags, updated in place once per polling cycle. Exchange calls are
    replaced by parameters carrying what they would have fetched. */
module Analyzer {
  import opened Wrappers
  import opened Bounded
  import opened Stats
  import opened Trend
  import opened Trades

  /** What `marketTrend` reports: the wait before enough prices exist; the
      two changes, the rule that matched (if any) and its advisory message
      (if any); or the IndexError raised when the price history holds fewer
      than two prices. */
  datatype TrendReport =
    | NotEnoughData(waitSeconds: int)
    | Assessed(curr: real, wind: real, trend: Option<Trend>, advice: Option<Advisory>)
    | IndexError

  /** The tag a classification appends to the trend history: none when no
      rule matched. */
  function Appended(t: Option<Trend>): seq<Trend>
  {
    if t.Some? then [t.value] else []
  }

  /** One step of the trend history: appending the tag (if any) to the
      window of the last two tags and trimming gives the window of the longer
      tag sequence, whose newest tag is the appended one, or which is
      unchanged when nothing was appended. */
  lemma TrendHistoryStep(tags: seq<Trend>, t: Option<Trend>)
    ensures PopIfLonger(LastN([Neutral] + tags, 2) + Appended(t), 2) == LastN([Neutral] + (tags + Appended(t)), 2)
    ensures PopIfLonger(LastN([Neutral] + tags, 2), 2) == LastN([Neutral] + tags, 2)
    ensures LastN([Neutral] + (tags + Appended(t)), 2) != []
    ensures t.Some? ==> LastN([Neutral] + (tags + Appended(t)), 2)[|LastN([Neutral] + (tags + Appended(t)), 2)| - 1] == t.value
    ensures t.None? ==> LastN([Neutral] + (tags + Appended(t)), 2) == LastN([Neutral] + tags, 2)
  {
    assert [Neutral] + (tags + Appended(t)) == [Neutral] + tags + Appended(t);
    LastNIsSuffix([Neutral] + tags, 2);
    LastNIsSuffix([Neutral] + (tags + Appended(t)), 2);
    if t.Some? {
      PopIfLongerAppend([Neutral] + tags, t.value, 2);
    } else {
      assert tags + Appended(t) == tags;
    }
  }

  /** The two changes of the first classified cycles, in terms of the
      fetched prices: the interval change compares the new price with the
      previous fetch (the seeded zero before the first fetch falls back), the
      window change with the fetch `n` cycles back (a seeded zero falls back). */
  lemma SeededChanges(n: nat, xs: seq<real>, x: real)
    requires n > 0
    ensures |LastN(Zeros(n) + xs, n) + [x]| == n + 1
    ensures IntervalChange(LastN(Zeros(n) + xs, n) + [x])
            == if |xs| > 0 then PercentChange(xs[|xs| - 1], x) else Fallback
    ensures WindowChange(LastN(Zeros(n) + xs, n) + [x])
            == if |xs| >= n then PercentChange(xs[|xs| - n], x) else Fallback
  {
    var w := LastN(Zeros(n) + xs, n);
    SeededWindowAt(n, xs, 0);
    SeededWindowAt(n, xs, n - 1);
    assert (w + [x])[n - 1] == w[n - 1] && (w + [x])[0] == w[0] && (w + [x])[n] == x;
  }

  /** What `listLastValues` sees after `printTicker` while fewer than `n`
      prices have been fetched before: the window still starts with a
      seeded zero, so the statistics exist and the minimum is at most zero. */
  lemma SeededMinimum(n: nat, xs: seq<real>, x: real)
    requires |xs| < n
    ensures ListLastValues(LastN(Zeros(n) + xs, n) + [x]).Some?
    ensures ListLastValues(LastN(Zeros(n) + xs, n) + [x]).value.min <= 0.0
  {
    SeededWindowAt(n, xs, 0);
    assert (LastN(Zeros(n) + xs, n) + [x])[0] == 0.0;
  }

  /** The report of a classified cycle in terms of everything fetched
      before it: the interval change against the previous fetch, the window
      change against the fetch `n` cycles back (each falling back to zero
      where the seeded history still holds a zero), the rule that matched,
      and its message given the tag in place before the cycle. */
  function CycleReport(n: nat, fetched: seq<real>, previous: Trend, x: real, threshold: real): TrendReport
    requires n > 0
  {
    var curr := if |fetched| > 0 then PercentChange(fetched[|fetched| - 1], x) else Fallback;
    var wind := if |fetched| >= n then PercentChange(fetched[|fetched| - n], x) else Fallback;
    var t := Classify(curr, wind, threshold);
    Assessed(curr, wind, t, if t.Some? then Advice(previous, t.value, |fetched| + 1) else None)
  }

  /** A classified cycle whose rule matched always carries the message for
      the transition from the previous tag to the new one: the first cycle
      has already been counted, so the neutral-to-neutral message is due. */
  lemma CycleReportAdvice(n: nat, fetched: seq<real>, previous: Trend, x: real, threshold: real)
    requires n > 0
    ensures var r := CycleReport(n, fetched, previous, x, threshold);
            r.Assessed? && (r.trend.Some? <==> r.advice.Some?)
            && (r.trend.Some? ==> r.advice.value.Transition() == (previous, r.trend.value))
  {
    var r := CycleReport(n, fetched, previous, x, threshold);
    if r.trend.Some? {
      AdviceNamesTransition(previous, r.trend.value, |fetched| + 1);
    }
  }

  /** The histories between two cycles, given everything fetched, computed
      and tagged so far: the price history is the last `n` entries of the
      seeded zeros followed by the fetched prices, the change log the last
      `n` changes, the trend history the last two tags after the initial
      neutral one, and one change was computed per classified cycle. */
  ghost predicate Windows(n: nat, prices: seq<real>, changes: seq<real>, history: seq<Trend>, iteration: nat,
                          fetched: seq<real>, computed: seq<real>, tags: seq<Trend>)
  {
    iteration == |fetched|
    && prices == LastN(Zeros(n) + fetched, n)
    && changes == LastN(computed, n)
    && history == LastN([Neutral] + tags, 2)
    && |computed| == (if iteration > 0 && iteration >= n then iteration - n + 1 else 0)
  }

  /** The three trend flags and the misspelled attribute of the analyzer
      (`None` until the attribute is first assigned). */
  datatype Flags = Flags(positive: bool, negative: bool, neutral: bool, misspelled: Option<bool>)

  /** The flags after the `marketTrend` branch for `t`: the neutral branch
      sets exactly the neutral flag; the negative and positive branches set
      their own flag, clear the other one and assign the misspelled
      attribute, so the neutral flag keeps its value; when no rule matched
      nothing changes. */
  function FlagsAfter(t: Option<Trend>, f: Flags): Flags
  {
    match t
    case Some(Neutral) => f.(neutral := true, positive := false, negative := false)
    case Some(Negative) => f.(negative := true, positive := false, misspelled := Some(false))
    case Some(Positive) => f.(negative := false, positive := true, misspelled := Some(false))
    case None => f
  }

  /** The flags agree with the newest trend tag: the positive and negative
      flags say whether it is positive or negative, the neutral flag is set
      and the misspelled attribute was never set to true. */
  predicate Agrees(f: Flags, newest: Trend)
  {
    f.neutral
    && (f.positive <==> newest == Positive)
    && (f.negative <==> newest == Negative)
    && f.misspelled != Some(true)
  }

  /** Every branch keeps the flags in agreement with the newest tag. */
  lemma FlagsStep(t: Option<Trend>, f: Flags, newest: Trend)
    requires Agrees(f, newest)
    ensures Agrees(FlagsAfter(t, f), if t.Some? then t.value else newest)
  {
  }

  /** A cycle before the gate opens keeps the windows: the new price is
      appended and trimmed, nothing is computed or tagged, and the trend
      history is left as it was. */
  lemma WaitingStep(n: nat, prices: seq<real>, changes: seq<real>, history: seq<Trend>, iteration: nat,
                    fetched: seq<real>, computed: seq<real>, tags: seq<Trend>, x: real)
    requires Windows(n, prices, changes, history, iteration, fetched, computed, tags)
    requires iteration + 1 < n
    ensures Windows(n, PopIfLength(prices + [x], n), PopIfLength(changes, n), PopIfLonger(history, 2),
                    iteration + 1, fetched + [x], computed, tags)
    ensures PopIfLonger(history, 2) == history
  {
    SeededStep(n, fetched, x);
    PopIfLengthIdle(computed, n);
    TrendHistoryStep(tags, None);
  }

  /** A classified cycle: what `marketTrend` computes from the price
      history extended by the new price is the report in terms of the
      fetched prices, and appending the price, the interval change and the
      tag (if any) and trimming keeps the windows and the flags in agreement
      with the newest tag. */
  lemma ClassifiedStep(n: nat, prices: seq<real>, changes: seq<real>, history: seq<Trend>, iteration: nat,
                       fetched: seq<real>, computed: seq<real>, tags: seq<Trend>, flags: Flags,
                       x: real, threshold: real)
    requires Windows(n, prices, changes, history, iteration, fetched, computed, tags)
    requires history != [] && Agrees(flags, history[|history| - 1])
    requires n > 0 && iteration + 1 >= n
    ensures |prices + [x]| >= 2
    ensures var curr, wind := IntervalChange(prices + [x]), WindowChange(prices + [x]);
            var t := Classify(curr, wind, threshold);
            var history' := PopIfLonger(history + Appended(t), 2);
            Assessed(curr, wind, t, if t.Some? then Advice(history[|history| - 1], t.value, iteration + 1) else None)
              == CycleReport(n, fetched, history[|history| - 1], x, threshold)
            && Windows(n, PopIfLength(prices + [x], n), PopIfLength(changes + [curr], n), history',
                       iteration + 1, fetched + [x], computed + [curr], tags + Appended(t))
            && history' != [] && Agrees(FlagsAfter(t, flags), history'[|history'| - 1])
  {
    SeededChanges(n, fetched, x);
    var curr, wind := IntervalChange(prices + [x]), WindowChange(prices + [x]);
    var t := Classify(curr, wind, threshold);
    SeededStep(n, fetched, x);
    PopIfLengthAppend(computed, curr, n);
    TrendHistoryStep(tags, t);
    FlagsStep(t, flags, history[|history| - 1]);
  }

  class TickAnalyzer {
    const interval: int
    const listLength: nat

    var lastValues: seq<real>
    var changePercentage: seq<real>
    var marketTrendHistory: seq<Trend>
    var iteration: nat
    var trendIsPositive: bool
    var trendIsNegative: bool
    var trendIsNeutral: bool
    /** The misspelled attribute that the negative and positive branches
        assign instead of `trendIsNeutral`; `None` until it is first set. */
    var TrendIsNeutral: Option<bool>
    var fee: real

    // public view: every price fetched, every interval change computed and
    // every trend tag appended since construction, before any trimming
    ghost var fetched: seq<real>
    ghost var computed: seq<real>
    ghost var tags: seq<Trend>

    /** The state between two cycles. The price history is the last
        `listLength` entries of the seeded zeros followed by every fetched
        price, the change log the last `listLength` changes, the trend
        history the last two tags after the initial neutral one. There is
        one change per classified cycle. The flags agree with the newest tag,
        except that the neutral flag is never cleared. */
    ghost predicate Valid()
      reads this
      ensures Valid() ==> |lastValues| == listLength && |changePercentage| <= listLength
      ensures Valid() ==> 1 <= |marketTrendHistory| <= 2
      ensures Valid() ==> trendIsNeutral && !(trendIsPositive && trendIsNegative)
    {
      Windows(listLength, lastValues, changePercentage, marketTrendHistory, iteration, fetched, computed, tags)
      && marketTrendHistory != []
      && Agrees(Flags(trendIsPositive, trendIsNegative, trendIsNeutral, TrendIsNeutral),
                 marketTrendHistory[|marketTrendHistory| - 1])
    }

    /** `__init__`: `listLength` zeros, an empty change log, the trend
        history ["1"], iteration 0, and only the neutral flag set. */
    constructor (interval: int, listLength: nat)
      ensures this.interval == interval && this.listLength == listLength
      ensures lastValues == Zeros(listLength) && changePercentage == [] && marketTrendHistory == [Neutral]
      ensures iteration == 0 && fee == 0.0
      ensures trendIsNeutral && !trendIsPositive && !trendIsNegative && TrendIsNeutral == None
      ensures fetched == [] && computed == [] && tags == []
      ensures Valid()
    {
      this.interval := interval;
      this.listLength := listLength;
      lastValues := Zeros(listLength);
      changePercentage := [];
      marketTrendHistory := [Neutral];
      iteration := 0;
      trendIsPositive := false;
      trendIsNegative := false;
      trendIsNeutral := true;
      TrendIsNeutral := None;
      fee := 0.0;
      fetched, computed, tags := [], [], [];
    }

    /** `printTicker` with the fetched last price passed in: it is appended
        to the price history and the iteration count goes up by one. */
    method PrintTicker(value: real)
      modifies this`lastValues, this`iteration, this`fetched
      ensures lastValues == old(lastValues) + [value]
      ensures iteration == old(iteration) + 1
      ensures fetched == old(fetched) + [value]
    {
      lastValues := lastValues + [value];
      iteration := iteration + 1;
      fetched := fetched + [value];
    }

    /** `checkVolatility`: the interval and window changes of the price
        history; the interval change is appended to the change log. */
    method CheckVolatility() returns (curr: real, wind: real)
      requires |lastValues| >= 2
      modifies this`changePercentage, this`computed
      ensures curr == IntervalChange(lastValues) && wind == WindowChange(lastValues)
      ensures changePercentage == old(changePercentage) + [curr]
      ensures computed == old(computed) + [curr]
    {
      var lastItem := lastValues[|lastValues| - 1];
      var secondLastItem := lastValues[|lastValues| - 2];
      var firstItem := lastValues[0];
      var change := Fallback;
      var cumChange := Fallback;
      if secondLastItem > 0.0 {
        change := 100.0 * ((lastItem - secondLastItem) / secondLastItem);
      }
      if firstItem > 0.0 {
        cumChange := 100.0 * ((lastItem - firstItem) / firstItem);
      }
      changePercentage := changePercentage + [change];
      computed := computed + [change];
      // rounding to six decimals is taken as the identity
      curr, wind := change, cumChange;
    }

    /** `updateList`: the trimming rules of the three histories. */
    method UpdateList()
      modifies this`changePercentage, this`lastValues, this`marketTrendHistory
      ensures changePercentage == PopIfLength(old(changePercentage), listLength)
      ensures lastValues == PopIfLength(old(lastValues), listLength)
      ensures marketTrendHistory == PopIfLonger(old(marketTrendHistory), 2)
    {
      if |changePercentage| == listLength + 1 {
        changePercentage := changePercentage[1..];
      }
      if |lastValues| == listLength + 1 {
        lastValues := lastValues[1..];
      }
      if |marketTrendHistory| > 2 {
        marketTrendHistory := marketTrendHistory[1..];
      }
    }

    /** The flag updates and the tag append of the `marketTrend` branch
        that matched (when no rule matched, nothing is appended). */
    method RecordTrend(t: Option<Trend>)
      modifies this`marketTrendHistory, this`tags
      modifies this`trendIsPositive, this`trendIsNegative, this`trendIsNeutral, this`TrendIsNeutral
      ensures marketTrendHistory == old(marketTrendHistory) + Appended(t)
      ensures tags == old(tags) + Appended(t)
      ensures Flags(trendIsPositive, trendIsNegative, trendIsNeutral, TrendIsNeutral)
          == FlagsAfter(t, Flags(old(trendIsPositive), old(trendIsNegative), old(trendIsNeutral), old(TrendIsNeutral)))
    {
      match t
      case Some(Neutral) =>
        trendIsNeutral := true;
        trendIsPositive := false;
        trendIsNegative := false;
        marketTrendHistory := marketTrendHistory + [Neutral];
        tags := tags + [Neutral];
      case Some(Negative) =>
        trendIsNegative := true;
        trendIsPositive := false;
        TrendIsNeutral := Some(false);
        marketTrendHistory := marketTrendHistory + [Negative];
        tags := tags + [Negative];
      case Some(Positive) =>
        trendIsNegative := false;
        trendIsPositive := true;
        TrendIsNeutral := Some(false);
        marketTrendHistory := marketTrendHistory + [Positive];
        tags := tags + [Positive];
      case None =>
    }

    /** `marketTrend`: before `listLength` iterations only the wait is
        reported; afterwards the changes are classified, the flags and the
        trend history follow the rule that matched, and the message is the
        one for the tag in place before the append. The lists are trimmed in
        either case; the IndexError leaves everything as it was. */
    method MarketTrend(threshold: real) returns (report: TrendReport)
      requires marketTrendHistory != []
      modifies this`changePercentage, this`lastValues, this`marketTrendHistory, this`computed, this`tags
      modifies this`trendIsPositive, this`trendIsNegative, this`trendIsNeutral, this`TrendIsNeutral
      ensures iteration < listLength ==>
        report == NotEnoughData((listLength - iteration) * interval)
        && lastValues == PopIfLength(old(lastValues), listLength)
        && changePercentage == PopIfLength(old(changePercentage), listLength)
        && marketTrendHistory == PopIfLonger(old(marketTrendHistory), 2)
        && computed == old(computed) && tags == old(tags)
        && trendIsPositive == old(trendIsPositive) && trendIsNegative == old(trendIsNegative)
        && trendIsNeutral == old(trendIsNeutral) && TrendIsNeutral == old(TrendIsNeutral)
      ensures iteration >= listLength && |old(lastValues)| < 2 ==>
        report == IndexError
        && lastValues == old(lastValues) && changePercentage == old(changePercentage)
        && marketTrendHistory == old(marketTrendHistory)
        && computed == old(computed) && tags == old(tags)
        && trendIsPositive == old(trendIsPositive) && trendIsNegative == old(trendIsNegative)
        && trendIsNeutral == old(trendIsNeutral) && TrendIsNeutral == old(TrendIsNeutral)
      ensures iteration >= listLength && |old(lastValues)| >= 2 ==>
        var curr, wind := IntervalChange(old(lastValues)), WindowChange(old(lastValues));
        var t := Classify(curr, wind, threshold);
        var previous := old(marketTrendHistory)[|old(marketTrendHistory)| - 1];
        var appended := Appended(t);
        report == Assessed(curr, wind, t, if t.Some? then Advice(previous, t.value, iteration) else None)
        && lastValues == PopIfLength(old(lastValues), listLength)
        && changePercentage == PopIfLength(old(changePercentage) + [curr], listLength)
        && marketTrendHistory == PopIfLonger(old(marketTrendHistory) + appended, 2)
        && computed == old(computed) + [curr] && tags == old(tags) + appended
        && Flags(trendIsPositive, trendIsNegative, trendIsNeutral, TrendIsNeutral)
          == FlagsAfter(t, Flags(old(trendIsPositive), old(trendIsNegative), old(trendIsNeutral), old(TrendIsNeutral)))
    {
      if iteration < listLength {
        report := NotEnoughData((listLength - iteration) * interval);
      } else {
        if |lastValues| < 2 {
          report := IndexError;
          return;
        }
        var curr, wind := CheckVolatility();
        var previous := marketTrendHistory[|marketTrendHistory| - 1];
        var t := Classify(curr, wind, threshold);
        RecordTrend(t);
        report := Assessed(curr, wind, t, if t.Some? then Advice(previous, t.value, iteration) else None);
      }
      UpdateList();
    }

    /** The aggregation loop of `showLastTrades`, with the trade history and
        the current time passed in: the counts, amounts and values of the
        ask and the bid trades of the last `interval * listLength` seconds. */
    method ShowLastTrades(history: seq<Trade>, now: int) returns (summary: TradeSummary)
      ensures summary == Summary(history, now - interval * listLength)
    {
      var cutoff := now - interval * listLength;
      var sellValue, buyValue, sellAmount, buyAmount := 0.0, 0.0, 0.0, 0.0;
      var countAsk, countBid := 0, 0;
      for i := 0 to |history|
        invariant TradeSummary(countAsk, sellAmount, sellValue, countBid, buyAmount, buyValue)
                  == Tallied(history[..i], cutoff)
      {
        var h := history[i];
        ghost var before := TradeSummary(countAsk, sellAmount, sellValue, countBid, buyAmount, buyValue);
        assert history[..i + 1][..i] == history[..i];
        if h.tradeType == "ask" && h.date >= cutoff {
          countAsk := countAsk + 1;
          sellAmount := sellAmount + h.amount;
          sellValue := sellValue + h.amount * h.price;
        } else if h.tradeType == "bid" && h.date >= cutoff {
          countBid := countBid + 1;
          buyAmount := buyAmount + h.amount;
          buyValue := buyValue + h.amount * h.price;
        }
        assert TradeSummary(countAsk, sellAmount, sellValue, countBid, buyAmount, buyValue) == Tally(before, h, cutoff);
      }
      assert history[..|history|] == history;
      TalliedIsSummary(history, cutoff);
      summary := TradeSummary(countAsk, sellAmount, sellValue, countBid, buyAmount, buyValue);
    }

    /** A cycle before the gate opens: the price is recorded and only the
        wait is reported. */
    method WaitingCycle(value: real, threshold: real) returns (report: TrendReport)
      requires Valid() && iteration + 1 < listLength
      modifies this`lastValues, this`iteration, this`fetched, this`changePercentage, this`marketTrendHistory
      modifies this`computed, this`tags, this`trendIsPositive, this`trendIsNegative, this`trendIsNeutral
      modifies this`TrendIsNeutral
      ensures iteration == old(iteration) + 1 && fetched == old(fetched) + [value]
      ensures Valid()
      ensures report == NotEnoughData((listLength - iteration) * interval)
      ensures computed == old(computed) && tags == old(tags)
      ensures trendIsPositive == old(trendIsPositive) && trendIsNegative == old(trendIsNegative)
      ensures trendIsNeutral == old(trendIsNeutral) && TrendIsNeutral == old(TrendIsNeutral)
    {
      WaitingStep(listLength, lastValues, changePercentage, marketTrendHistory, iteration, fetched, computed, tags,
                  value);
      PrintTicker(value);
      report := MarketTrend(threshold);
    }

    /** A cycle once the gate is open: the price is recorded, the changes
        against the previous fetch and against the fetch `listLength` cycles
        back are classified, and the flags, the change log and the trend
        history follow the rule that matched. */
    method ClassifiedCycle(value: real, threshold: real) returns (report: TrendReport)
      requires Valid() && listLength > 0 && iteration + 1 >= listLength
      modifies this`lastValues, this`iteration, this`fetched, this`changePercentage, this`marketTrendHistory
      modifies this`computed, this`tags, this`trendIsPositive, this`trendIsNegative, this`trendIsNeutral
      modifies this`TrendIsNeutral
      ensures iteration == old(iteration) + 1 && fetched == old(fetched) + [value]
      ensures Valid()
      ensures report == CycleReport(listLength, old(fetched), old(marketTrendHistory)[|old(marketTrendHistory)| - 1],
                                    value, threshold)
      ensures computed == old(computed) + [report.curr] && tags == old(tags) + Appended(report.trend)
      ensures Flags(trendIsPositive, trendIsNegative, trendIsNeutral, TrendIsNeutral)
          == FlagsAfter(report.trend, Flags(old(trendIsPositive), old(trendIsNegative), old(trendIsNeutral), old(TrendIsNeutral)))
    {
      ClassifiedStep(listLength, lastValues, changePercentage, marketTrendHistory, iteration, fetched, computed, tags,
                     Flags(trendIsPositive, trendIsNegative, trendIsNeutral, TrendIsNeutral), value, threshold);
      PrintTicker(value);
      report := MarketTrend(threshold);
    }

    /** One pass of the polling loop's state changes: `printTicker` with the
        fetched price, then `marketTrend` (`listLastValues` in between only
        reads the price history). The window change compares the new price with
        the one fetched `listLength` cycles earlier, and falls back to zero
        on the first classified cycle, whose oldest entry is still a seeded
        zero. Without a window (`listLength` 0) the cycle ends in the
        IndexError. */
    method Cycle(value: real, threshold: real) returns (report: TrendReport)
      requires Valid()
      modifies this`lastValues, this`iteration, this`fetched, this`changePercentage, this`marketTrendHistory
      modifies this`computed, this`tags, this`trendIsPositive, this`trendIsNegative, this`trendIsNeutral
      modifies this`TrendIsNeutral
      ensures iteration == old(iteration) + 1 && fetched == old(fetched) + [value]
      ensures report.IndexError? <==> listLength == 0
      ensures listLength > 0 ==> Valid()
      ensures iteration < listLength ==>
        report == NotEnoughData((listLength - iteration) * interval)
        && computed == old(computed) && tags == old(tags)
        && trendIsPositive == old(trendIsPositive) && trendIsNegative == old(trendIsNegative)
        && trendIsNeutral == old(trendIsNeutral) && TrendIsNeutral == old(TrendIsNeutral)
      ensures listLength > 0 && iteration >= listLength ==>
        report == CycleReport(listLength, old(fetched), old(marketTrendHistory)[|old(marketTrendHistory)| - 1],
                              value, threshold)
        && computed == old(computed) + [report.curr] && tags == old(tags) + Appended(report.trend)
        && Flags(trendIsPositive, trendIsNegative, trendIsNeutral, TrendIsNeutral)
          == FlagsAfter(report.trend, Flags(old(trendIsPositive), old(trendIsNegative), old(trendIsNeutral), old(TrendIsNeutral)))
    {
      if iteration + 1 < listLength {
        report := WaitingCycle(value, threshold);
      } else if listLength == 0 {
        PrintTicker(value);
        report := MarketTrend(threshold);
      } else {
        report := ClassifiedCycle(value, threshold);
      }
    }
  }
}
