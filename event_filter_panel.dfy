/** The search panel above the event list: live suggestions while the search
    text is typed, and the criteria it hands to its `onFilter` callback when
    filters are applied, cleared or a suggestion is picked. */
module EventFilterPanel {
  import opened Common
  import opened EventTypes
  import EventStore

  // ---------------------------------------------------------------------
  // Number(text) for the price boxes
  // ---------------------------------------------------------------------

  predicate IsDigit(c: char) {
    '0' <= c <= '9'
  }

  predicate AllDigits(s: string) {
    forall i :: 0 <= i < |s| ==> IsDigit(s[i])
  }

  /** The value of a string of decimal digits, read left to right. */
  function DigitsValue(s: string): nat
    requires AllDigits(s)
  {
    if s == [] then 0 else DigitsValue(s[..|s| - 1]) * 10 + (s[|s| - 1] as int - '0' as int)
  }

  /** `Number(text)` on integer text: surrounding whitespace is ignored, blank
      text is 0, an optional minus sign may precede the digits, and anything
      else is NaN. */
  function ParseNumber(text: string): Number {
    var t := Trim(text);
    if t == [] then Num(0)
    else if t[0] == '-' && |t| > 1 && AllDigits(t[1..]) then Num(-(DigitsValue(t[1..]) as int))
    else if AllDigits(t) then Num(DigitsValue(t))
    else NaN
  }

  /** Text that has no whitespace at either end is its own trim. */
  lemma TrimUnchanged(s: string)
    requires s != [] && !IsWhitespace(s[0]) && !IsWhitespace(s[|s| - 1])
    ensures Trim(s) == s
  {
  }

  /** The digit written for d reads back as d. */
  lemma DigitValue(d: nat)
    requires d < 10
    ensures "0123456789"[d] as int - '0' as int == d
  {
    assert "0123456789" == ['0', '1', '2', '3', '4', '5', '6', '7', '8', '9'];
  }

  /** Reading back the decimal digits of a natural number gives the number. */
  lemma {:induction false} DigitsRoundTrip(n: nat)
    ensures AllDigits(NatToString(n)) && DigitsValue(NatToString(n)) == n
  {
    var s := NatToString(n);
    DigitValue(n % 10);
    if n >= 10 {
      DigitsRoundTrip(n / 10);
      assert s == NatToString(n / 10) + ["0123456789"[n % 10]];
      assert s[..|s| - 1] == NatToString(n / 10);
      assert DigitsValue(s) == DigitsValue(NatToString(n / 10)) * 10 + n % 10;
    } else {
      assert s[..0] == [];
    }
  }

  /** `Number` reads back every natural number written in decimal. */
  lemma ParseNumberRoundTrip(n: nat)
    ensures ParseNumber(NatToString(n)) == Num(n)
  {
    DigitsRoundTrip(n);
    TrimUnchanged(NatToString(n));
  }

  /** `Number` reads back every negative number written in decimal. */
  lemma ParseNegativeRoundTrip(n: nat)
    ensures ParseNumber("-" + NatToString(n)) == Num(-(n as int))
  {
    var s := NatToString(n);
    DigitsRoundTrip(n);
    var m := "-" + s;
    assert m[0] == '-' && m[|m| - 1] == s[|s| - 1];
    TrimUnchanged(m);
    assert m[1..] == s;
  }

  // ---------------------------------------------------------------------
  // The panel's state and its suggestions
  // ---------------------------------------------------------------------

  /** The panel's state: the four inputs as typed, and the suggestion list
      with whether it is shown. */
  datatype Panel = Panel(
    search: string,
    category: string,
    minText: string,
    maxText: string,
    showSuggestions: bool,
    suggestions: seq<Event>)

  /** The events whose title, description or location contains the search
      text, ignoring case, in store order. */
  function Matching(events: seq<Event>, search: string): seq<Event> {
    Filter(events, (e: Event) => EventStore.MatchesSearch(search, e))
  }

  /** The effect that runs when the search text or the events change: from two
      UTF-16 code units on, the first five matching events are listed and shown;
      below that the list is emptied and hidden. */
  function SyncSuggestions(p: Panel, events: seq<Event>): Panel {
    if Utf16Length(p.search) >= 2 then p.(suggestions := Take(Matching(events, p.search), 5), showSuggestions := true)
    else p.(suggestions := [], showSuggestions := false)
  }

  /** Suggestions are at most five, shown exactly from two code units on, and
      are the first matching events in store order, five of them whenever
      five match. */
  lemma SuggestionsMeaning(p: Panel, events: seq<Event>)
    ensures var q := SyncSuggestions(p, events);
      && |q.suggestions| <= 5
      && (q.showSuggestions <==> Utf16Length(p.search) >= 2)
      && (Utf16Length(p.search) < 2 ==> q.suggestions == [])
      && (Utf16Length(p.search) >= 2 ==> q.suggestions <= Matching(events, p.search))
      && (Utf16Length(p.search) >= 2 && |Matching(events, p.search)| >= 5 ==> |q.suggestions| == 5)
      && q.(showSuggestions := p.showSuggestions, suggestions := p.suggestions) == p
  {
  }

  /** Every suggestion is an event of the store whose title, description or
      location contains the search text, ignoring case. */
  lemma SuggestionsMatch(p: Panel, events: seq<Event>, e: Event)
    requires e in SyncSuggestions(p, events).suggestions
    ensures e in events
    ensures ContainsIgnoringCase(e.title, p.search) || ContainsIgnoringCase(e.description, p.search) ||
            ContainsIgnoringCase(e.location, p.search)
  {
    var q := SyncSuggestions(p, events);
    var i :| 0 <= i < |q.suggestions| && q.suggestions[i] == e;
    assert Matching(events, p.search)[i] == e;
    FilterMember(events, (e: Event) => EventStore.MatchesSearch(p.search, e), e);
  }

  /** Running the effect twice is running it once. */
  lemma SyncIdempotent(p: Panel, events: seq<Event>)
    ensures SyncSuggestions(SyncSuggestions(p, events), events) == SyncSuggestions(p, events)
  {
  }

  // ---------------------------------------------------------------------
  // The criteria handed to onFilter
  // ---------------------------------------------------------------------

  /** The object passed to `onFilter`; `None` is a key left out or undefined. */
  datatype Request = Request(
    search: Option<string>,
    category: Option<string>,
    minPrice: Option<Number>,
    maxPrice: Option<Number>)

  /** `handleFilter()`: the search text as typed, an empty category or price
      box left out, and a price read with `Number`. */
  function HandleFilter(p: Panel): Request {
    Request(Some(p.search),
            if p.category != "" then Some(p.category) else None,
            if p.minText != "" then Some(ParseNumber(p.minText)) else None,
            if p.maxText != "" then Some(ParseNumber(p.maxText)) else None)
  }

  /** `handleClearFilters()`: the four inputs emptied and an empty request. */
  function HandleClearFilters(p: Panel): (Panel, Request) {
    (p.(search := "", category := "", minText := "", maxText := ""), Request(None, None, None, None))
  }

  /** `handleSuggestionSelect(e)`: the search box takes e's title, the list
      is hidden, and the request filters on that title alone. */
  function HandleSuggestionSelect(p: Panel, e: Event): (Panel, Request) {
    (p.(search := e.title, showSuggestions := false), Request(Some(e.title), None, None, None))
  }

  /** The store's criteria for a request: an absent search or category is the
      empty string, both being falsy. */
  function StoreCriteria(r: Request): EventStore.Criteria {
    EventStore.Criteria(r.search.GetOr(""), r.category.GetOr(""), r.minPrice, r.maxPrice)
  }

  /** Applying filters leaves out exactly the empty boxes, passes the search
      text and category unchanged, and a whole number typed as a price
      arrives as that number. */
  lemma HandleFilterMeaning(p: Panel, min: nat, max: nat)
    ensures var r := HandleFilter(p);
      && r.search == Some(p.search)
      && (r.category.None? <==> p.category == "")
      && (r.category.Some? ==> r.category.value == p.category)
      && (r.minPrice.None? <==> p.minText == "")
      && (r.maxPrice.None? <==> p.maxText == "")
      && (p.minText == NatToString(min) ==> r.minPrice == Some(Num(min)))
      && (p.maxText == NatToString(max) ==> r.maxPrice == Some(Num(max)))
  {
    ParseNumberRoundTrip(min);
    ParseNumberRoundTrip(max);
  }

  /** A price box holding 0, or text that is not a number, sets no bound in
      the store, like an empty one. */
  lemma FalsyPriceNoBound(p: Panel)
    requires p.minText == "0" || ParseNumber(p.minText) == NaN
    ensures EventStore.Bound(StoreCriteria(HandleFilter(p)).minPrice).None?
  {
    if p.minText == "0" {
      ParseNumberRoundTrip(0);
    }
  }

  /** Clearing empties every box, and the request it sends keeps every event. */
  lemma ClearKeepsAll(p: Panel, es: seq<Event>)
    ensures var (q, r) := HandleClearFilters(p);
      && q.search == "" && q.category == "" && q.minText == "" && q.maxText == ""
      && EventStore.Search(es, StoreCriteria(r)) == es
    ensures SyncSuggestions(HandleClearFilters(p).0, es).suggestions == []
  {
    EventStore.SearchEmpty(es, None, None);
  }

  /** Picking a suggestion puts its title in the search box and filters on it
      alone; the picked event passes that filter. */
  lemma SelectKeepsPicked(p: Panel, e: Event, es: seq<Event>)
    requires e in es
    ensures HandleSuggestionSelect(p, e).0.search == e.title
    ensures !HandleSuggestionSelect(p, e).0.showSuggestions
    ensures e in EventStore.Search(es, StoreCriteria(HandleSuggestionSelect(p, e).1))
  {
    var c := StoreCriteria(HandleSuggestionSelect(p, e).1);
    assert Lower(e.title) <= Lower(e.title);
    EventStore.SearchMeaning(es, c, e);
  }
}
