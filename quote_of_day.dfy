/** `QuoteOfDayManager.quoteForToday(from:)` (QuoteValut/Notification/quoteofthedaymanager.swift):
    a deterministic pick from the currently loaded quotes. The day-of-year ordinal, which the source
    asks of `Calendar.current`, is a parameter; `None` is the calendar answering `nil`. */
module QuoteOfDay {
  import opened Outcomes
  import opened Quotes

  /** The quote shown for the day whose ordinal is `dayOfYear`. */
  function QuoteForToday(quotes: seq<Quote>, dayOfYear: Option<nat>): (r: Option<Quote>)
    ensures r.None? <==> quotes == []
    ensures r.Some? ==> r.value in quotes
    ensures r.Some? ==> r.value == quotes[DayIndex(dayOfYear, |quotes|)]
  {
    if quotes == [] then None
    else
      var index := DayIndex(dayOfYear, |quotes|);
      Some(quotes[index])
  }

  /** `today % quotes.count`, where a missing ordinal counts as day 0. */
  function DayIndex(dayOfYear: Option<nat>, count: nat): (index: nat)
    requires count > 0
    ensures index < count
    ensures dayOfYear.None? ==> index == 0
    ensures dayOfYear.Some? && dayOfYear.value < count ==> index == dayOfYear.value
  {
    var today := match dayOfYear
      case Some(d) => d
      case None => 0;
    today % count
  }

  /** Example: with three quotes, day 47 is index 47 mod 3 = 2. */
  lemma DayFortySevenOfThree(a: Quote, b: Quote, c: Quote)
    ensures QuoteForToday([a, b, c], Some(47)) == Some(c)
  {
  }

  /** Without a day ordinal the first quote is shown. */
  lemma MissingDayShowsFirst(quotes: seq<Quote>)
    requires quotes != []
    ensures QuoteForToday(quotes, None) == Some(quotes[0])
  {
  }

  /** The selection cycles through the list: the day `|quotes|` days later shows the same quote,
      and consecutive days show consecutive quotes, wrapping around at the end. */
  lemma SelectionCycles(quotes: seq<Quote>, day: nat)
    requires quotes != []
    ensures QuoteForToday(quotes, Some(day + |quotes|)) == QuoteForToday(quotes, Some(day))
    ensures QuoteForToday(quotes, Some(day + 1)).value ==
      quotes[if DayIndex(Some(day), |quotes|) + 1 == |quotes| then 0 else DayIndex(Some(day), |quotes|) + 1]
  {
    var n := |quotes|;
    ModShift(day, n);
    ModSucc(day, n);
  }

  lemma MulAtLeast(k: int, n: int)
    requires k >= 1 && n > 0
    ensures k * n >= n
  {
  }

  lemma MulDistributes(a: int, b: int, n: int)
    ensures a * n - b * n == (a - b) * n
  {
  }

  /** The remainder is the only `r` in `[0, n)` with `a == q * n + r`. */
  lemma ModUnique(a: int, n: int, q: int, r: int)
    requires n > 0 && 0 <= r < n && a == q * n + r
    ensures a % n == r
  {
    MulDistributes(q, a / n, n);
    if a / n < q {
      MulAtLeast(q - a / n, n);
    } else if q < a / n {
      MulAtLeast(a / n - q, n);
    }
  }

  lemma ModShift(a: nat, n: nat)
    requires n > 0
    ensures (a + n) % n == a % n
  {
    MulDistributes(a / n + 1, a / n, n);
    ModUnique(a + n, n, a / n + 1, a % n);
  }

  lemma ModSucc(a: nat, n: nat)
    requires n > 0
    ensures (a + 1) % n == if a % n + 1 == n then 0 else a % n + 1
  {
    MulDistributes(a / n + 1, a / n, n);
    if a % n + 1 == n {
      ModUnique(a + 1, n, a / n + 1, 0);
    } else {
      ModUnique(a + 1, n, a / n, a % n + 1);
    }
  }
}
