/** The grouped event list: the events a viewer may see, grouped by category
    in order of first appearance, each group newest first. */
module EventGroupList {
  import opened Common
  import opened EventTypes

  // ---------------------------------------------------------------------
  // The status filter
  // ---------------------------------------------------------------------

  /** Whether the list keeps e: everything but rejected events in a list that
      shows pending status, otherwise approved events only. */
  predicate Kept(e: Event, showPendingStatus: bool) {
    if showPendingStatus then e.status != Some(Rejected) else e.status == Some(Approved)
  }

  function KeptEvents(es: seq<Event>, showPendingStatus: bool): seq<Event> {
    Filter(es, e => Kept(e, showPendingStatus))
  }

  /** A list showing pending status keeps exactly the events that are not
      rejected, any other list exactly the approved ones, in their order. */
  lemma KeptEventsMeaning(es: seq<Event>, showPendingStatus: bool, e: Event)
    ensures e in KeptEvents(es, true) <==> e in es && e.status != Some(Rejected)
    ensures e in KeptEvents(es, false) <==> e in es && e.status == Some(Approved)
    ensures multiset(KeptEvents(es, showPendingStatus))[e] ==
      if Kept(e, showPendingStatus) then multiset(es)[e] else 0
  {
    FilterMember(es, e => Kept(e, true), e);
    FilterMember(es, e => Kept(e, false), e);
    FilterMultiset(es, e => Kept(e, showPendingStatus), e);
  }

  // ---------------------------------------------------------------------
  // Grouping
  // ---------------------------------------------------------------------

  /** The events of category c, in their order. */
  function InCategory(es: seq<Event>, c: Category): seq<Event> {
    Filter(es, (e: Event) => e.category == c)
  }

  /** The categories of es, each once, in order of first appearance: the keys
      of the record the grouping `reduce` builds, in insertion order. */
  function CategoriesOf(es: seq<Event>): seq<Category> {
    if es == [] then []
    else
      var before := CategoriesOf(es[..|es| - 1]);
      if es[|es| - 1].category in before then before else before + [es[|es| - 1].category]
  }

  /** A category is listed exactly when some event has it, and only once. */
  lemma {:induction false} CategoriesOfMeaning(es: seq<Event>)
    ensures forall c :: c in CategoriesOf(es) <==> exists i :: 0 <= i < |es| && es[i].category == c
    ensures DistinctBy(CategoriesOf(es), (c: Category) => c)
  {
    if es != [] {
      var init := es[..|es| - 1];
      CategoriesOfMeaning(init);
      forall c ensures c in CategoriesOf(es) <==> exists i :: 0 <= i < |es| && es[i].category == c {
        if exists i :: 0 <= i < |init| && init[i].category == c {
          var i :| 0 <= i < |init| && init[i].category == c;
          assert es[i] == init[i];
        }
        if exists i :: 0 <= i < |es| && es[i].category == c {
          var i :| 0 <= i < |es| && es[i].category == c;
          if i < |init| {
            assert init[i] == es[i];
          }
        }
      }
    }
  }

  /** Appending an event grows its own group by that event and leaves every
      other group alone. */
  lemma InCategorySnoc(es: seq<Event>, e: Event, c: Category)
    ensures InCategory(es + [e], c) == InCategory(es, c) + (if e.category == c then [e] else [])
  {
    FilterConcat(es, [e], (e: Event) => e.category == c);
    FilterSingleton(e, (e: Event) => e.category == c);
  }

  /** A category that no event has has an empty group. */
  lemma InCategoryEmpty(es: seq<Event>, c: Category)
    requires forall i :: 0 <= i < |es| ==> es[i].category != c
    ensures InCategory(es, c) == []
  {
    FilterDropsAll(es, (e: Event) => e.category == c);
  }

  /** Total size of the groups of the listed categories. */
  function GroupSizes(es: seq<Event>, cats: seq<Category>): nat {
    if cats == [] then 0 else GroupSizes(es, cats[..|cats| - 1]) + |InCategory(es, cats[|cats| - 1])|
  }

  lemma {:induction false} GroupSizesSnoc(es: seq<Event>, e: Event, cats: seq<Category>)
    ensures GroupSizes(es + [e], cats) == GroupSizes(es, cats) + Count(cats, (c: Category) => c == e.category)
  {
    if cats != [] {
      var init := cats[..|cats| - 1];
      var last := cats[|cats| - 1];
      GroupSizesSnoc(es, e, init);
      InCategorySnoc(es, e, last);
      assert init + [last] == cats;
      FilterConcat(init, [last], (c: Category) => c == e.category);
      FilterSingleton(last, (c: Category) => c == e.category);
    }
  }

  /** A category listed once is counted once. */
  lemma CountOnce(cats: seq<Category>, c: Category)
    requires DistinctBy(cats, (c: Category) => c) && c in cats
    ensures Count(cats, (d: Category) => d == c) == 1
  {
    var isC := (d: Category) => d == c;
    var k :| 0 <= k < |cats| && cats[k] == c;
    var front, back := cats[..k], cats[k + 1..];
    assert cats == front + [c] + back;
    forall i | 0 <= i < |front| ensures !isC(front[i]) {
      assert front[i] == cats[i];
    }
    forall i | 0 <= i < |back| ensures !isC(back[i]) {
      assert back[i] == cats[k + 1 + i];
    }
    FilterConcat(front + [c], back, isC);
    FilterConcat(front, [c], isC);
    FilterSingleton(c, isC);
    FilterDropsAll(front, isC);
    FilterDropsAll(back, isC);
  }

  /** Every event lands in exactly one group, so the groups' sizes add up to
      the number of events grouped. */
  lemma {:induction false} GroupSizesTotal(es: seq<Event>)
    ensures GroupSizes(es, CategoriesOf(es)) == |es|
  {
    if es != [] {
      var init := es[..|es| - 1];
      var e := es[|es| - 1];
      assert es == init + [e];
      GroupSizesTotal(init);
      CategoriesOfMeaning(init);
      CategoriesOfMeaning(es);
      var before := CategoriesOf(init);
      GroupSizesSnoc(init, e, before);
      if e.category in before {
        CountOnce(before, e.category);
      } else {
        FilterDropsAll(before, (c: Category) => c == e.category);
        InCategorySnoc(init, e, e.category);
        InCategoryEmpty(init, e.category);
        assert CategoriesOf(es) == before + [e.category];
        assert (before + [e.category])[..|before|] == before;
      }
    }
  }

  /** Every listed group is non-empty, so dropping the empty ones drops
      nothing, and the list is empty exactly when no event is kept. */
  lemma NoEmptyGroups(es: seq<Event>, c: Category)
    requires c in CategoriesOf(es)
    ensures InCategory(es, c) != []
  {
    CategoriesOfMeaning(es);
    var i :| 0 <= i < |es| && es[i].category == c;
    FilterMember(es, (e: Event) => e.category == c, es[i]);
  }

  lemma NoEventsFound(es: seq<Event>)
    ensures CategoriesOf(es) == [] <==> es == []
  {
    CategoriesOfMeaning(es);
    if es != [] {
      assert es[0].category in CategoriesOf(es);
    }
  }

  /** groups and order are what the grouping `reduce` holds after the events
      es: the categories in order of first appearance, each keyed to its
      events. */
  predicate Grouped(es: seq<Event>, groups: map<Category, seq<Event>>, order: seq<Category>) {
    && order == CategoriesOf(es)
    && groups.Keys == (set c | c in order)
    && (forall c :: c in groups ==> groups[c] == InCategory(es, c))
  }

  /** One `reduce` step: an event of a category already seen joins its group;
      an event of a new category opens a group of its own at the end. */
  lemma GroupStep(es: seq<Event>, e: Event, groups: map<Category, seq<Event>>, order: seq<Category>)
    requires Grouped(es, groups, order)
    ensures e.category in groups ==> Grouped(es + [e], groups[e.category := groups[e.category] + [e]], order)
    ensures e.category !in groups ==> Grouped(es + [e], groups[e.category := [e]], order + [e.category])
  {
    assert (es + [e])[..|es|] == es;
    forall c ensures InCategory(es + [e], c) == InCategory(es, c) + (if e.category == c then [e] else []) {
      InCategorySnoc(es, e, c);
    }
    if e.category !in groups {
      CategoriesOfMeaning(es);
      InCategoryEmpty(es, e.category);
    }
  }

  /** The grouping `reduce`: pushes each event onto its category's group,
      creating the group on first sight. */
  method GroupByCategory(es: seq<Event>) returns (groups: map<Category, seq<Event>>, order: seq<Category>)
    ensures order == CategoriesOf(es)
    ensures groups.Keys == set c | c in order
    ensures forall c :: c in groups ==> groups[c] == InCategory(es, c)
  {
    groups, order := map[], [];
    var i := 0;
    while i < |es|
      invariant 0 <= i <= |es|
      invariant Grouped(es[..i], groups, order)
    {
      var e := es[i];
      assert es[..i + 1] == es[..i] + [e];
      GroupStep(es[..i], e, groups, order);
      if e.category !in groups {
        groups, order := groups[e.category := [e]], order + [e.category];
      } else {
        groups := groups[e.category := groups[e.category] + [e]];
      }
      i := i + 1;
    }
    assert es[..i] == es;
  }

  // ---------------------------------------------------------------------
  // Sorting each group
  // ---------------------------------------------------------------------

  /** Newest first: no event comes before a later-dated one. */
  predicate NewestFirst(s: seq<Event>) {
    forall p, q :: 0 <= p < q < |s| ==> s[p].date >= s[q].date
  }

  /** Exchanges a[j - 1] and a[j]. */
  method Swap(a: array<Event>, j: int)
    requires 0 < j < a.Length
    modifies a
    ensures a[..] == old(a[..])[j - 1 := old(a[j])][j := old(a[j - 1])]
    ensures multiset(a[..]) == multiset(old(a[..]))
  {
    a[j - 1], a[j] := a[j], a[j - 1];
  }

  /** One pass of insertion: moves a[i] left past every earlier-dated event,
      so the first i + 1 events end newest first. */
  method Insert(a: array<Event>, i: int)
    requires 0 < i < a.Length
    requires forall p, q :: 0 <= p < q < i ==> a[p].date >= a[q].date
    modifies a
    ensures forall p, q :: 0 <= p < q <= i ==> a[p].date >= a[q].date
    ensures multiset(a[..]) == multiset(old(a[..]))
  {
    var j := i;
    while j > 0 && a[j - 1].date < a[j].date
      invariant 0 <= j <= i
      invariant forall p, q :: 0 <= p < q <= i && p != j && q != j ==> a[p].date >= a[q].date
      invariant forall q :: j < q <= i ==> a[j].date > a[q].date
      invariant multiset(a[..]) == multiset(old(a[..]))
    {
      Swap(a, j);
      j := j - 1;
    }
  }

  /** The in-place sort with the comparator `b.date - a.date`. */
  method SortNewestFirst(a: array<Event>)
    modifies a
    ensures NewestFirst(a[..])
    ensures multiset(a[..]) == multiset(old(a[..]))
  {
    var i := 1;
    while i < a.Length
      invariant forall p, q :: 0 <= p < q < i && q < a.Length ==> a[p].date >= a[q].date
      invariant multiset(a[..]) == multiset(old(a[..]))
    {
      Insert(a, i);
      i := i + 1;
    }
  }

  /** The group g sorted newest first, through an array as the page does. */
  method SortedGroup(g: seq<Event>) returns (r: seq<Event>)
    ensures NewestFirst(r)
    ensures multiset(r) == multiset(g)
  {
    var a := new Event[|g|](k requires 0 <= k < |g| => g[k]);
    assert a[..] == g;
    SortNewestFirst(a);
    r := a[..];
  }

  /** Sorts every listed group newest first and leaves the keys alone. */
  method SortGroups(grouped: map<Category, seq<Event>>, order: seq<Category>) returns (groups: map<Category, seq<Event>>)
    requires forall n :: 0 <= n < |order| ==> order[n] in grouped
    requires DistinctBy(order, (c: Category) => c)
    ensures groups.Keys == grouped.Keys
    ensures forall n :: 0 <= n < |order| ==>
      multiset(groups[order[n]]) == multiset(grouped[order[n]]) && NewestFirst(groups[order[n]])
  {
    groups := grouped;
    var k := 0;
    while k < |order|
      invariant 0 <= k <= |order|
      invariant groups.Keys == grouped.Keys
      invariant forall n :: k <= n < |order| ==> groups[order[n]] == grouped[order[n]]
      invariant forall n :: 0 <= n < k ==>
        multiset(groups[order[n]]) == multiset(grouped[order[n]]) && NewestFirst(groups[order[n]])
    {
      var sorted := SortedGroup(groups[order[k]]);
      groups := groups[order[k] := sorted];
      k := k + 1;
    }
  }

  /** The whole list: the kept events grouped by category in order of first
      appearance, each group holding exactly its category's kept events,
      newest first. An empty `order` is the "No events found" message. */
  method GroupedEvents(es: seq<Event>, showPendingStatus: bool) returns (groups: map<Category, seq<Event>>, order: seq<Category>)
    ensures order == CategoriesOf(KeptEvents(es, showPendingStatus))
    ensures groups.Keys == set c | c in order
    ensures forall c :: c in groups ==>
      && multiset(groups[c]) == multiset(InCategory(KeptEvents(es, showPendingStatus), c))
      && NewestFirst(groups[c])
      && groups[c] != []
  {
    var kept := KeptEvents(es, showPendingStatus);
    var grouped;
    grouped, order := GroupByCategory(kept);
    CategoriesOfMeaning(kept);
    groups := SortGroups(grouped, order);
    forall c | c in groups
      ensures multiset(groups[c]) == multiset(InCategory(kept, c)) && NewestFirst(groups[c]) && groups[c] != []
    {
      var n :| 0 <= n < |order| && order[n] == c;
      NoEmptyGroups(kept, c);
    }
  }
}
