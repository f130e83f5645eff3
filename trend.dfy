/** The volatility measures of `checkVolatility` and the trend classifier
    of `marketTrend`, as functions of the price history and the threshold. */
module Trend {
  import opened Wrappers

  /** The three trend states, tagged "1", "2" and "3" in the trend history. */
  datatype Trend = Neutral | Positive | Negative {
    function Tag(): string
    {
      match this
      case Neutral => "1"
      case Positive => "2"
      case Negative => "3"
    }
  }

  /** The tags are the strings "1", "2" and "3" stored in
      `marketTrendHistory`, and a tag names exactly one trend, so
      `marketTrend`'s tests of the newest tag against "1", "2" and "3" are
      tests of the newest trend. */
  lemma TagIdentifiesTrend(a: Trend, b: Trend)
    ensures a.Tag() in {"1", "2", "3"}
    ensures a.Tag() == b.Tag() <==> a == b
  {
    assert a.Tag() == b.Tag() ==> a.Tag()[0] == b.Tag()[0];
  }

  /** The default of both changes, written `1/100`: an integer division in
      Python 2, so it is zero rather than one hundredth. */
  const Fallback: real := (1 / 100) as real

  /** Percentage change from `base` to `latest`; the fallback when `base` is
      not positive, which also avoids a division by zero. */
  function PercentChange(base: real, latest: real): real
  {
    if base > 0.0 then 100.0 * ((latest - base) / base) else Fallback
  }

  /** Interval change: the newest price against the one before it. */
  function IntervalChange(prices: seq<real>): real
    requires |prices| >= 2
  {
    PercentChange(prices[|prices| - 2], prices[|prices| - 1])
  }

  /** Window change: the newest price against the oldest retained one. */
  function WindowChange(prices: seq<real>): real
    requires |prices| >= 1
  {
    PercentChange(prices[0], prices[|prices| - 1])
  }

  /** The fallback is zero. */
  lemma FallbackIsZero()
    ensures Fallback == 0.0
    ensures forall latest :: PercentChange(0.0, latest) == 0.0
  {
  }

  /** From a positive base, applying the percentage change recovers the
      latest price, and its sign is the direction of the move. */
  lemma PercentChangeInverse(base: real, latest: real)
    requires base > 0.0
    ensures base + base * PercentChange(base, latest) / 100.0 == latest
    ensures PercentChange(base, latest) > 0.0 <==> latest > base
    ensures PercentChange(base, latest) == 0.0 <==> latest == base
  {
    var q := (latest - base) / base;
    assert q * base == latest - base;
    assert base * (100.0 * q) / 100.0 == q * base;
  }

  /** The classification rule, tested in order: both changes within the
      threshold band is neutral; else a non-positive interval change with a
      window change at or below the negative threshold is negative; else a
      non-negative interval change with a window change at or above the
      threshold is positive; anything else matches no rule. */
  function Classify(curr: real, wind: real, threshold: real): Option<Trend>
  {
    if -threshold <= curr <= threshold && -threshold <= wind <= threshold then Some(Neutral)
    else if curr <= 0.0 && wind <= -threshold then Some(Negative)
    else if curr >= 0.0 && wind >= threshold then Some(Positive)
    else None
  }

  function Mirror(t: Trend): Trend
  {
    match t
    case Neutral => Neutral
    case Positive => Negative
    case Negative => Positive
  }

  /** For a non-negative threshold the rule is symmetric: negating both
      changes swaps positive and negative and keeps neutral and no-match. */
  lemma ClassifyMirror(curr: real, wind: real, threshold: real)
    requires threshold >= 0.0
    ensures Classify(-curr, -wind, threshold) ==
      match Classify(curr, wind, threshold)
      case None => None
      case Some(t) => Some(Mirror(t))
  {
  }

  /** For a positive threshold the rule set is not exhaustive. No rule
      matches exactly when: the window change lies in the band and the
      interval change lies outside it, except at a band edge the interval
      change moves away from; or the window change lies beyond the band
      while the interval change has the opposite sign. */
  lemma ClassifyGaps(curr: real, wind: real, threshold: real)
    requires threshold > 0.0
    ensures Classify(curr, wind, threshold).None? <==>
      (-threshold <= wind <= threshold && (curr < -threshold || curr > threshold)
         && !(wind == threshold && curr > 0.0) && !(wind == -threshold && curr < 0.0))
      || (wind > threshold && curr < 0.0)
      || (wind < -threshold && curr > 0.0)
  {
  }

  /** The nine advisory messages, one per (tag in place, new tag) pair. */
  datatype Advisory =
    | StillStable | Stagnating | Recovering
    | Downwards | SteepDownwards | StillDownwards
    | Upwards | StillUpwards | SteepUpwards
  {
    /** The text printed for the message. */
    function Text(): string
    {
      match this
      case StillStable => "Market Trend is still stable, wait for market signals"
      case Stagnating => "Market Trend is stagnating, time to sell"
      case Recovering => "Market Trend is recovering, time to buy"
      case Downwards => "Market Trend is downwards, wait for market to recover"
      case SteepDownwards => "Market Trend is steep downwards, time to sell/hold"
      case StillDownwards => "Market Trend is still downwards, wait for market to recover"
      case Upwards => "Market Trend is upwards, wait for market to stagnate"
      case StillUpwards => "Market Trend is still upwards, wait for market to stagnate"
      case SteepUpwards => "Market Trend is steep upwards, time to buy/hold"
    }

    /** The (tag in place, new tag) transition the message announces. */
    function Transition(): (Trend, Trend)
    {
      match this
      case StillStable => (Neutral, Neutral)
      case Stagnating => (Positive, Neutral)
      case Recovering => (Negative, Neutral)
      case Downwards => (Neutral, Negative)
      case SteepDownwards => (Positive, Negative)
      case StillDownwards => (Negative, Negative)
      case Upwards => (Neutral, Positive)
      case StillUpwards => (Positive, Positive)
      case SteepUpwards => (Negative, Positive)
    }
  }

  /** The advisory message of a transition from the tag in place to the new
      tag, chosen as `marketTrend`'s `if`/`elif` chains choose it. The stable
      message also needs a positive iteration count; without it the
      neutral-to-neutral transition prints nothing. */
  function Advice(previous: Trend, next: Trend, iteration: int): Option<Advisory>
  {
    match next
    case Neutral =>
      if previous == Neutral && iteration >= 1 then Some(StillStable)
      else if previous == Positive then Some(Stagnating)
      else if previous == Negative then Some(Recovering)
      else None
    case Negative =>
      if previous == Neutral then Some(Downwards)
      else if previous == Positive then Some(SteepDownwards)
      else Some(StillDownwards)
    case Positive =>
      if previous == Neutral then Some(Upwards)
      else if previous == Positive then Some(StillUpwards)
      else Some(SteepUpwards)
  }

  /** A message is missing only for neutral to neutral before the first
      iteration, and every message announces exactly the transition it was
      chosen for. */
  lemma AdviceNamesTransition(previous: Trend, next: Trend, iteration: int)
    ensures Advice(previous, next, iteration).None? <==> previous == Neutral && next == Neutral && iteration < 1
    ensures Advice(previous, next, iteration).Some? ==>
      Advice(previous, next, iteration).value.Transition() == (previous, next)
  {
  }

  /** The message a printed line of length `len` whose last character is
      `c` can be: the lengths differ except for the stable and the downwards
      message, which end in different letters. */
  function MessageWith(len: int, c: char): Option<Advisory>
  {
    if len == 53 then (if c == 'r' then Some(Downwards) else Some(StillStable))
    else if len == 40 then Some(Stagnating)
    else if len == 39 then Some(Recovering)
    else if len == 50 then Some(SteepDownwards)
    else if len == 59 then Some(StillDownwards)
    else if len == 52 then Some(Upwards)
    else if len == 58 then Some(StillUpwards)
    else if len == 47 then Some(SteepUpwards)
    else None
  }

  /** Each message is recovered from the length and the last character of
      its text. */
  lemma TextIdentifiesMessage(a: Advisory)
    ensures |a.Text()| > 0 && MessageWith(|a.Text()|, a.Text()[|a.Text()| - 1]) == Some(a)
  {
    match a
    case StillStable =>
    case Stagnating =>
    case Recovering =>
    case Downwards =>
    case SteepDownwards =>
    case StillDownwards =>
    case Upwards =>
    case StillUpwards =>
    case SteepUpwards =>
  }

  /** No two of the nine messages print the same line. */
  lemma TextsDistinct(a: Advisory, b: Advisory)
    requires a.Text() == b.Text()
    ensures a == b
  {
    TextIdentifiesMessage(a);
    TextIdentifiesMessage(b);
  }

  /** Different transitions never print the same message. */
  lemma AdviceDistinct(p1: Trend, n1: Trend, i1: int, p2: Trend, n2: Trend, i2: int)
    requires Advice(p1, n1, i1).Some? && Advice(p2, n2, i2).Some?
    requires Advice(p1, n1, i1).value.Text() == Advice(p2, n2, i2).value.Text()
    ensures p1 == p2 && n1 == n2
  {
    TextsDistinct(Advice(p1, n1, i1).value, Advice(p2, n2, i2).value);
    AdviceNamesTransition(p1, n1, i1);
    AdviceNamesTransition(p2, n2, i2);
  }

  /** A rise from 100 to 110 is a 10% change over the interval and over a
      two-element window. */
  lemma RiseOfTenPercent()
    ensures IntervalChange([100.0, 110.0]) == 10.0
    ensures WindowChange([100.0, 110.0]) == 10.0
  {
  }

  /** No change with threshold 5 from neutral stays neutral with the stable
      message; -1 and -10 from neutral turns negative with the downwards one. */
  lemma ClassifyExamples()
    ensures Classify(0.0, 0.0, 5.0) == Some(Neutral)
    ensures Advice(Neutral, Neutral, 1).value.Text() == "Market Trend is still stable, wait for market signals"
    ensures Classify(-1.0, -10.0, 5.0) == Some(Negative)
    ensures Advice(Neutral, Negative, 1).value.Text() == "Market Trend is downwards, wait for market to recover"
  {
  }
}
