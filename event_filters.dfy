/** The multi-criteria event filter the events page applies to the list it
    shows. Every criterion arrives as form text. */
module EventFilters {
  import opened Common
  import opened EventTypes
  import EventStore

  /** A numeric criterion as typed: left blank, or entered and read as a number.
      Dates are compared as numbers too (`new Date(text)` is NaN when the text
      is not a date). */
  datatype Entry = Blank | Entered(n: Number)

  datatype Criteria = Criteria(
    search: string,
    startDate: Entry,
    endDate: Entry,
    location: string,
    minPrice: Entry,
    maxPrice: Entry,
    category: string)

  /** `x >= bound` (`atLeast`) or `x <= bound` for an entered bound; a NaN bound
      admits nothing. A blank bound admits everything. */
  predicate Within(x: int, bound: Entry, atLeast: bool) {
    bound.Blank? || (bound.n.Num? && (if atLeast then x >= bound.n.v else x <= bound.n.v))
  }

  predicate Matches(c: Criteria, e: Event) {
    && EventStore.MatchesSearch(c.search, e)
    && Within(e.date, c.startDate, true) && Within(e.date, c.endDate, false)
    && (c.location == [] || ContainsIgnoringCase(e.location, c.location))
    && Within(e.price, c.minPrice, true) && Within(e.price, c.maxPrice, false)
    && (c.category == [] || CategoryName(e.category) == c.category)
  }

  /** `filterEvents(events, criteria)`. */
  function FilterEvents(es: seq<Event>, c: Criteria): seq<Event> {
    Filter(es, e => Matches(c, e))
  }

  /** The result takes nothing new: each event occurs at most as often as in the
      input, and exactly as often when it passes. */
  lemma FilterEventsSubset(es: seq<Event>, c: Criteria, e: Event)
    ensures multiset(FilterEvents(es, c))[e] == if Matches(c, e) then multiset(es)[e] else 0
    ensures multiset(FilterEvents(es, c)) <= multiset(es)
  {
    FilterMultiset(es, e => Matches(c, e), e);
    forall x ensures multiset(FilterEvents(es, c))[x] <= multiset(es)[x] {
      FilterMultiset(es, e => Matches(c, e), x);
    }
  }

  /** Blank criteria keep the whole list. */
  lemma BlankKeepsAll(es: seq<Event>)
    ensures FilterEvents(es, Criteria("", Blank, Blank, "", Blank, Blank, "")) == es
  {
    FilterKeepsAll(es, e => Matches(Criteria("", Blank, Blank, "", Blank, Blank, ""), e));
  }

  /** An event is kept exactly when all five tests hold: the search text occurs
      in its title, description or location, ignoring case; its date lies
      within the inclusive date range; the location text occurs in its
      location; its price lies within the inclusive price range; and its
      category is the chosen one. */
  lemma FilterEventsMeaning(es: seq<Event>, c: Criteria, e: Event)
    ensures e in FilterEvents(es, c) <==>
      && e in es
      && (c.search == [] || ContainsIgnoringCase(e.title, c.search) ||
          ContainsIgnoringCase(e.description, c.search) || ContainsIgnoringCase(e.location, c.search))
      && (c.startDate.Entered? ==> c.startDate.n.Num? && c.startDate.n.v <= e.date)
      && (c.endDate.Entered? ==> c.endDate.n.Num? && e.date <= c.endDate.n.v)
      && (c.location == [] || ContainsIgnoringCase(e.location, c.location))
      && (c.minPrice.Entered? ==> c.minPrice.n.Num? && c.minPrice.n.v <= e.price)
      && (c.maxPrice.Entered? ==> c.maxPrice.n.Num? && e.price <= c.maxPrice.n.v)
      && (c.category == [] || CategoryName(e.category) == c.category)
  {
    FilterMember(es, e => Matches(c, e), e);
  }

  /** A bound entered as text that is not a number rejects every event. */
  lemma NaNBoundKeepsNothing(es: seq<Event>, c: Criteria)
    requires c.minPrice == Entered(NaN) || c.maxPrice == Entered(NaN)
    ensures FilterEvents(es, c) == []
  {
    FilterDropsAll(es, e => Matches(c, e));
  }
}
