/** The `Event` record and the date and price rules of `src/lib/events.ts`.

    Dates are local-time instants in milliseconds; `None` stands for an
    Invalid Date (a NaN time value), against which every comparison is
    false. `Intl` formatting is passed in as a function. */
module Events {
  import opened Wrappers
  import opened Text

  datatype Event = Event(
    id: int,
    slug: string,
    title: string,
    description: string,
    startDate: string,
    endDate: string,
    image: string,
    isActive: bool,
    discount: Option<int>,
    price: Option<int>,
    location: Option<string>,
    quota: Option<int>,
    terms: seq<string>,
    content: Option<string>)

  /** `formatDateRange`: one formatted date when the two strings are equal,
      otherwise both joined by `" - "`. The comparison is on the strings. */
  function FormatDateRange(formatDate: string -> string, startDate: string, endDate: string): (r: string)
    ensures StartsWith(r, formatDate(startDate)) && EndsWith(r, formatDate(endDate))
    ensures startDate == endDate ==> r == formatDate(startDate)
    ensures startDate != endDate ==> |r| == |formatDate(startDate)| + 3 + |formatDate(endDate)|
    ensures startDate != endDate ==> r[|formatDate(startDate)|..|formatDate(startDate)| + 3] == " - "
  {
    if startDate == endDate then formatDate(startDate)
    else
      var s, e := formatDate(startDate), formatDate(endDate);
      assert (s + " - " + e)[..|s|] == s;
      assert (s + " - " + e)[|s| + 3..] == e;
      assert (s + " - " + e)[|s|..|s| + 3] == " - ";
      s + " - " + e
  }

  /** `formatEventPrice`: `"Gratis"` for an absent or zero price, otherwise
      the currency formatting. */
  function FormatEventPrice(formatCurrency: int -> string, price: Option<int>): (r: string)
    ensures price.None? || price.value == 0 ==> r == "Gratis"
    ensures price.Some? && price.value != 0 ==> r == formatCurrency(price.value)
  {
    if price.None? || price.value == 0 then "Gratis" else formatCurrency(price.value)
  }

  /** "Gratis" is shown exactly for the free cases, as long as the currency
      formatting of the price is not itself the word "Gratis". */
  lemma FreeExactlyWhenNoPrice(formatCurrency: int -> string, price: Option<int>)
    requires price.Some? ==> formatCurrency(price.value) != "Gratis"
    ensures FormatEventPrice(formatCurrency, price) == "Gratis" <==> price.None? || price.value == 0
    ensures price.Some? && price.value != 0 ==> FormatEventPrice(formatCurrency, price) == formatCurrency(price.value)
  {
  }

  /** Milliseconds in a day. */
  const Day: int := 86_400_000

  /** `end.setHours(23, 59, 59, 999)`: the last millisecond of the local day
      of `t`. */
  function EndOfDay(t: int): (r: int)
    ensures t <= r < t + Day
    ensures r / Day == t / Day && r % Day == Day - 1
  {
    (t / Day) * Day + Day - 1
  }

  /** `isEventOngoing(startDate, endDate)` at instant `now`. */
  predicate IsOngoing(now: int, start: Option<int>, end: Option<int>)
    ensures start.None? || end.None? ==> !IsOngoing(now, start, end)
    ensures IsOngoing(now, start, end) ==> start.value <= now < end.value + Day
  {
    start.Some? && end.Some? && now >= start.value && now <= EndOfDay(end.value)
  }

  /** `isEventUpcoming(startDate)` at instant `now`. */
  predicate IsUpcoming(now: int, start: Option<int>)
    ensures start.None? ==> !IsUpcoming(now, start)
    ensures IsUpcoming(now, start) ==> forall end :: !IsOngoing(now, start, end)
  {
    start.Some? && now < start.value
  }

  /** An event is ongoing iff it has started and its last day has not
      passed: `now` is no later in days than the end date. */
  lemma OngoingMeansWithinDays(now: int, start: int, end: int)
    ensures IsOngoing(now, Some(start), Some(end)) <==> start <= now && now / Day <= end / Day
  {
    var e := EndOfDay(end);
    if now / Day <= end / Day {
      assert now < (now / Day) * Day + Day;
      assert (now / Day) * Day + Day <= (end / Day) * Day + Day;
    } else {
      assert now >= (now / Day) * Day;
      assert (now / Day) * Day >= (end / Day) * Day + Day;
    }
  }

  /** A one-day event that starts at local midnight is ongoing for the whole
      of that day, up to its last millisecond. */
  lemma OneDayEventOngoingAllDay(day: int, now: int)
    requires day % Day == 0 && day <= now < day + Day
    ensures IsOngoing(now, Some(day), Some(day))
    ensures !IsOngoing(day + Day, Some(day), Some(day))
  {
    assert EndOfDay(day) == day + Day - 1;
  }
}
