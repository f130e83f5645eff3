# TickAnalyzer, modelled in Dafny

`analyzer-bot.py` is a polling market analyzer for one currency pair on the
BTC-e exchange. A `TickAnalyzer` object keeps three bounded histories:

- the last prices, seeded with `listlength` zeros;
- the interval changes;
- the last two trend tags, starting from the neutral tag "1".

It also keeps an iteration counter and three trend flags. Each cycle of
`run`:

1. fetches and records the last price (`printTicker`);
2. prints the mean, maximum and minimum of the price history
   (`listLastValues`);
3. summarises the order book (`checkMarketDepth`);
4. classifies the market trend from two percentage changes as neutral,
   negative or positive, prints an advisory message for the transition from
   the previous tag, and trims the histories (`marketTrend`, `checkVolatility`,
   `updateList`);
5. summarises the recent trades (`showLastTrades`).

The model has one module per concern:

- `Wrappers`: `Option`.
- `Bounded`: the seeded price history and the two trimming rules, with the
  last-`n` window they maintain.
- `Stats`: `listLastValues`.
- `Depth`: `checkMarketDepth`.
- `Trades`: the `showLastTrades` reduction.
- `Trend`:
  - the percentage changes, with the fallback `1/100`, which is Python 2
    integer division, i.e. 0;
  - the classification rule;
  - the nine advisory messages.
- `Analyzer`: the class `TickAnalyzer`, whose fields are updated in place by
  its methods.

The exchange's data (the last price, the order book, the trade history) and
the current time come in as parameters. Messages are returned as values
rather than printed: `TrendReport`, and the `Advisory` enumeration, whose
`Text()` is the printed line. Trend tags are the enumeration `Trend`, whose
`Tag()` is "1", "2" or "3".

The field names are written in camel case:

- `lastValuesltcbtc` is `lastValues`;
- `trendisPositive` is `trendIsPositive`, and likewise for the other flags.

The attribute `TrendisNeutral`, which the negative and positive branches
assign in place of `trendisNeutral`, is kept as written. It is the separate
field `TrendIsNeutral: Option<bool>`, `None` until it is first assigned.
As a consequence, the neutral flag is never cleared, and `Valid()` proves it.

The class is specified by ghost fields:

- `fetched`: every price fetched;
- `computed`: every interval change computed;
- `tags`: every tag appended.

`Valid()` ties the three trimmed lists to the last-`n` windows of these
sequences and the flags to the newest tag. `Cycle` is proved against
`CycleReport`: a classified cycle's report is a function of the prices
fetched so far. On the first classified cycle, the window change therefore
compares the new price with a seeded zero and falls back to 0.

## Model

| member | source | states |
|---|---|---|
| `Bounded.Zeros` | analyzer-bot.py:21-21 | The seed `[0]*listlength`: `listlength` zero prices. |
| `Bounded.PopIfLength` | analyzer-bot.py:228-232 | The rule for the price history and the change log, on values: the first element is removed only when the list has exactly `listlength + 1` elements. |
| `Bounded.PopIfLonger` | analyzer-bot.py:234-235 | The rule for the trend history, on values: the first tag is removed only when there are more than two. |
| `Bounded.TrimmedIsWindow` | analyzer-bot.py:231-232 | Eviction: appending each fetched price in turn to the seeded history and trimming leaves exactly the last `listlength` entries of the seed followed by the fetched prices. Between the append and the trim the history holds exactly `listlength + 1` entries and never more. |
| `Bounded.LastNIsSuffix` | analyzer-bot.py:225-235 | The last-`n` window that the trimmed lists maintain is the length-`n` suffix of the full history (all of it when it is shorter). |
| `Bounded.PopIfLengthAppend` | analyzer-bot.py:228-232 | Appending to the window of the last `n` elements and then applying the exact-length pop gives the window of the last `n` elements of the extended history. The dropped element is the oldest one. |
| `Bounded.PopIfLengthIdle` | analyzer-bot.py:228-229 | A window of at most `n` elements is never trimmed by the exact-length pop. This is the case of the change log before a change is appended. |
| `Bounded.PopIfLongerAppend` | analyzer-bot.py:234-235 | Appending a tag to the window of the last two tags and popping when the list is longer than two gives the window of the last two tags of the extended sequence. |
| `Bounded.SeededWindowAt` | analyzer-bot.py:21-21 | The price window always has exactly `n` entries. Entry `i` is a seeded zero while the seed still reaches that position, and the matching fetched price afterwards. |
| `Bounded.SeededStep` | analyzer-bot.py:231-232 | Appending a fetched price to the seeded window and trimming gives the seeded window of the longer fetch sequence. |
| `Stats.Sum` | analyzer-bot.py:61-61 | Python's `sum` of the price history, left to right. |
| `Stats.Max` | analyzer-bot.py:62-62 | Python's `max` of a non-empty list is an element of the list, and no element exceeds it. |
| `Stats.Min` | analyzer-bot.py:63-63 | Python's `min` of a non-empty list is an element of the list, and no element is below it. |
| `Stats.SumBetween` | analyzer-bot.py:61-61 | A sum of values that all lie in [lo, hi] lies between the length times lo and the length times hi. |
| `Stats.MeanBetweenExtremes` | analyzer-bot.py:61-63 | The average lies between the minimum and the maximum of the list. |
| `Stats.ListLastValues` | analyzer-bot.py:61-63 | There are no statistics exactly when the history is empty (the ZeroDivisionError). Otherwise the average is the mean, it lies between min and max, and min and max are elements of the list that bound every element. |
| `Depth.CheckMarketDepth` | analyzer-bot.py:96-111 | There is no summary exactly when a side of the book is empty. Otherwise: the lowest ask and the highest bid are attained and bound their sides; the spread is the non-negative distance between them; the volumes and values are the sums over each side. |
| `Depth.TotalVolume` | analyzer-bot.py:109-110 | `sum(volumes)` of one side of the book. |
| `Depth.Notional` | analyzer-bot.py:99-107 | The sum of the element-wise price times volume products of one side (`f.sum()` and `c.sum()`). |
| `Depth.SpreadIsNarrowestGap` | analyzer-bot.py:111-111 | When the book is not crossed, the spread is the smallest distance from any bid price up to any ask price, and some pair attains it. |
| `Depth.NotionalBetween` | analyzer-bot.py:99-110 | With non-negative volumes and prices in [lo, hi], the notional value of a side lies between lo and hi times its total volume. |
| `Trades.Summary` | analyzer-bot.py:207-218 | What the loop should report: the number, total amount and total amount times price of the ask trades and of the bid trades dated at or after the cutoff. |
| `Trades.Tally` | analyzer-bot.py:209-218 | One pass of the loop body: an ask in the window adds to the sell side, else a bid in the window to the buy side, else nothing changes. |
| `Trades.SummaryAppend` | analyzer-bot.py:207-218 | One more trade at the end of the history changes the declarative summary exactly as one pass of the loop body (`Tally`) does. |
| `Trades.TalliedIsSummary` | analyzer-bot.py:207-218 | Folding the loop body over the whole history from all-zero accumulators gives the declarative summary. |
| `Trades.MatchingExactly` | analyzer-bot.py:209-214 | A trade is counted on a side if and only if it is in the history, has that side's type and is dated at or after the cutoff. |
| `Trades.CountsBounded` | analyzer-bot.py:207-218 | The ask count plus the bid count never exceeds the length of the trade history. |
| `Trades.LaterCutoffCountsFewer` | analyzer-bot.py:209-214 | A later cutoff (a shorter window) never counts more trades. |
| `Trades.TotalsNonNegative` | analyzer-bot.py:211-218 | With non-negative amounts and prices, the summed amounts and values are non-negative. |
| `Trend.TagIdentifiesTrend` | analyzer-bot.py:23-23 | Every trend's tag is one of the strings "1", "2", "3", and two trends have the same tag if and only if they are the same trend. |
| `Trend.IntervalChange` | analyzer-bot.py:71-78 | `PercentChange` from the second-last to the last price of the list. |
| `Trend.WindowChange` | analyzer-bot.py:71-81 | `PercentChange` from the first to the last price of the list. |
| `Trend.PercentChange` | analyzer-bot.py:74-81 | `100*((latest - base)/base)` when the base is positive, the default `1/100` (0) otherwise. |
| `Trend.Classify` | analyzer-bot.py:129-165 | The three guards tested in order: both changes in [-T, T] is neutral; else curr ≤ 0 and wind ≤ -T is negative; else curr ≥ 0 and wind ≥ T is positive; else no rule. |
| `Trend.Advice` | analyzer-bot.py:136-178 | The message of each `if`/`elif` chain, chosen by the tag in place and the new tag; neutral to neutral also needs iteration ≥ 1. |
| `Trend.FallbackIsZero` | analyzer-bot.py:74-75 | The default `1/100` is zero, and a zero base (a seeded price) gives a zero change. |
| `Trend.PercentChangeInverse` | analyzer-bot.py:77-81 | From a positive base, applying the change recovers the latest price. The change is positive exactly when the price rose, and zero exactly when it stayed put. |
| `Trend.RiseOfTenPercent` | analyzer-bot.py:77-81 | A rise from 100 to 110 is a 10% interval change and a 10% window change. |
| `Trend.ClassifyMirror` | analyzer-bot.py:129-180 | For a non-negative threshold, negating both changes swaps negative and positive and keeps neutral and no-match. |
| `Trend.ClassifyGaps` | analyzer-bot.py:129-180 | For a positive threshold, this characterises exactly (both directions) the inputs for which no branch matches and nothing is appended. |
| `Trend.ClassifyExamples` | analyzer-bot.py:129-163 | No change with threshold 5 is neutral with the stable message. Changes of -1 and -10 are negative with the downwards message. |
| `Trend.AdviceNamesTransition` | analyzer-bot.py:136-178 | The message is missing exactly for neutral to neutral before the first iteration. Every message announces the (previous tag, new tag) pair it was chosen for. |
| `Trend.TextIdentifiesMessage` | analyzer-bot.py:138-178 | Each of the nine printed lines determines its message (by its length and last character). |
| `Trend.TextsDistinct` | analyzer-bot.py:138-178 | No two messages print the same line. |
| `Trend.AdviceDistinct` | analyzer-bot.py:136-178 | Two transitions that print the same line are the same transition. |
| `Analyzer.TrendHistoryStep` | analyzer-bot.py:146-180 | Appending the matched tag and trimming keeps the trend history the window of the last two tags, whose newest is the appended one. When nothing matched, it is unchanged. |
| `Analyzer.FlagsAfter` | analyzer-bot.py:130-168 | The flag writes of each branch: neutral sets `trendisNeutral` and clears the other two; negative and positive set their flag, clear the opposite one and write the misspelled `TrendisNeutral`; no match changes nothing. |
| `Analyzer.CycleReport` | analyzer-bot.py:127-180 | A classified cycle's report in terms of the fetched prices: the change against the previous fetch, the change against the fetch `listlength` back (0 while a seeded zero stands there), the matched rule and its message for the previous tag. |
| `Analyzer.SeededChanges` | analyzer-bot.py:71-81 | On the seeded window plus a new price, the interval change is against the previous fetch and the window change against the fetch `n` cycles back. Each falls back to 0 while a seeded zero stands in that place. |
| `Analyzer.SeededMinimum` | analyzer-bot.py:61-63 | While fewer than `listlength` prices were fetched before, the statistics exist and the minimum is at most zero (a seeded zero remains). |
| `Analyzer.CycleReportAdvice` | analyzer-bot.py:136-180 | In a classified cycle a message is produced exactly when a rule matched, and it names the transition from the previous tag to the new one. |
| `Analyzer.FlagsStep` | analyzer-bot.py:130-168 | Every branch keeps the flags in agreement with the newest tag. The neutral flag stays set, positive and negative are exclusive, and the misspelled attribute is never true. |
| `Analyzer.WaitingStep` | analyzer-bot.py:123-124 | A cycle before the gate opens keeps the windows. The price is recorded, and the change log, the trend history, the computed changes and the tags are untouched. |
| `Analyzer.ClassifiedStep` | analyzer-bot.py:127-182 | A classified cycle's report equals `CycleReport` of the fetched prices. After the appends and trims, the windows and the flags' agreement with the newest tag hold again. |
| `Analyzer.TickAnalyzer.Valid` | analyzer-bot.py:21-27 | The invariant implies: price history exactly `listlength` long, change log at most `listlength`, trend history 1 to 2 tags, neutral flag set, and positive and negative not both set. |
| `Analyzer.TickAnalyzer.constructor` | analyzer-bot.py:18-28 | `listlength` zeros, an empty change log, the history ["1"], iteration 0, only the neutral flag set and the misspelled attribute absent. The invariant holds. |
| `Analyzer.TickAnalyzer.PrintTicker` | analyzer-bot.py:44-47 | The fetched price is appended at the end of the price history, and the iteration count goes up by exactly one. Nothing else changes. |
| `Analyzer.TickAnalyzer.CheckVolatility` | analyzer-bot.py:69-89 | Needs two prices. It returns the interval and window changes of the price history and appends the interval change to the change log. |
| `Analyzer.TickAnalyzer.UpdateList` | analyzer-bot.py:225-235 | Each list is trimmed by its own rule: the exact-length pop for prices and changes, the longer-than-two pop for tags. |
| `Analyzer.TickAnalyzer.RecordTrend` | analyzer-bot.py:129-180 | The matched branch's flag assignments and tag append; nothing when no rule matched. |
| `Analyzer.TickAnalyzer.MarketTrend` | analyzer-bot.py:121-182 | Gate closed: only the wait is reported, with changes, tags and flags unchanged but the lists trimmed. Two prices missing: IndexError with nothing changed. Otherwise: classification, flags, the message for the tag in place before the append, the appends, then the trims. |
| `Analyzer.TickAnalyzer.ShowLastTrades` | analyzer-bot.py:207-218 | The six accumulators end as the counts, amounts and values of the ask and the bid trades dated at or after `now - interval * listlength`. |
| `Analyzer.TickAnalyzer.WaitingCycle` | analyzer-bot.py:349-352 | A cycle before the gate opens records the price, reports the wait and keeps the invariant. The change log, the tags and all four flag attributes are unchanged. |
| `Analyzer.TickAnalyzer.ClassifiedCycle` | analyzer-bot.py:349-352 | A cycle with the gate open reports `CycleReport` of the prices fetched before it and the previous tag. It records the change and the tag, gives the flags the matched branch's writes (`FlagsAfter`), and keeps the invariant. |
| `Analyzer.TickAnalyzer.Cycle` | analyzer-bot.py:349-352 | One pass of `run` whose depth step does not raise: the IndexError happens if and only if `listlength` is 0. Otherwise the invariant is kept. Before the gate opens the report is the wait and the flags are unchanged; after it the report is `CycleReport` and the flags are `FlagsAfter` of the matched rule. |

## Left out

- Every exchange call (ticker, order book, trade history, trade fee, keys, connections). These are network I/O. Their results are parameters: `value`, the two book sides, the trade list.
- `getFees`: it only stores a fetched fee. The model keeps the `fee` field at its initial 0.0.
- `showAccountInfo`, `graphDepth` and `graphHistory`: they consist of exchange calls, formatting and plotting.
- `run`'s unbounded loop, `time.sleep` and `argparse`. `Cycle` is one pass of the loop's state changes.
- `checkMarketDepth` and `showLastTrades` in `run` read no state that a cycle changes. They are modelled outside `Cycle`, as `Depth.CheckMarketDepth` and `ShowLastTrades`.
- Cycle assumes the depth step between `printTicker` and `marketTrend` does not raise. When a side of the order book is empty (`Depth.CheckMarketDepth` is `None`, the ValueError of the `zip` unpacking), the script's pass ends after `PrintTicker`, with the price recorded and nothing classified or trimmed. `Cycle` does not model that pass.
- `listLastValues` only reads the price history and prints. It is the function `Stats.ListLastValues` of the price history rather than a step of `Cycle`.
- Every `print`. The messages are returned as `Advisory` values, whose `Text()` is the line printed.
- Floating point: `round(x, 6)` is taken as the identity, the `float()` division of the mean in `listLastValues` is exact real division, and the Decimal prices are exact reals.
- `datetime.now()` is re-evaluated for each trade in the script. The model uses one `now` parameter, and trade dates are seconds.
- A negative `listlength`: it is a `nat` here.
- Cycle: when `listlength` is 0, the contract states only the IndexError and the counters. The untrimmed price history then no longer satisfies the length invariant, and the script stops there with the exception.

