/** The organiser's dashboard: the three status counts, the organiser's own
    events merged from the catalogue and the review queue, and the recent
    activity list. The page is only shown to a signed-in user, so every
    function takes that user. */
module Dashboard {
  import opened Common
  import opened EventTypes
  import opened RegistrationTypes
  import EventStore
  import OrganizerStore
  import LogStore

  // ---------------------------------------------------------------------
  // Status counts
  // ---------------------------------------------------------------------

  function ByOrganizer(es: seq<Event>, name: string): seq<Event> {
    Filter(es, (e: Event) => e.organizer == name)
  }

  predicate AwaitingReview(e: Event) {
    e.status == Some(Pending) || e.status == Some(PendingChanges)
  }

  datatype Stats = Stats(pendingCount: nat, approvedCount: nat, rejectedCount: nat)

  /** The counts the dashboard's effect computes: queued entries plus
      catalogue events awaiting review, and catalogue events approved or
      rejected, all restricted to the user's own events. */
  function DashboardStats(events: seq<Event>, pending: seq<Event>, user: User): Stats {
    var own := ByOrganizer(events, user.name);
    Stats(|ByOrganizer(pending, user.name)| + Count(own, AwaitingReview),
          Count(own, (e: Event) => e.status == Some(Approved)),
          Count(own, (e: Event) => e.status == Some(Rejected)))
  }

  /** Three predicates no element satisfies two of at once count at most the
      whole list. */
  lemma {:induction false} CountDisjoint<T>(s: seq<T>, p: T -> bool, q: T -> bool, r: T -> bool)
    requires forall x :: !(p(x) && q(x)) && !(p(x) && r(x)) && !(q(x) && r(x))
    ensures Count(s, p) + Count(s, q) + Count(s, r) <= |s|
  {
    if s != [] {
      CountDisjoint(s[1..], p, q, r);
    }
  }

  /** The catalogue's share of the pending count and the approved and
      rejected counts never exceed the user's catalogue events: each event has
      one status. */
  lemma StatsWithinOwnEvents(events: seq<Event>, pending: seq<Event>, user: User)
    ensures var st := DashboardStats(events, pending, user);
      st.pendingCount - |ByOrganizer(pending, user.name)| + st.approvedCount + st.rejectedCount
        <= |ByOrganizer(events, user.name)|
  {
    CountDisjoint(ByOrganizer(events, user.name), AwaitingReview,
                  (e: Event) => e.status == Some(Approved), (e: Event) => e.status == Some(Rejected));
  }

  /** The pending count does not deduplicate: an edit waiting in the queue
      whose catalogue copy has pending changes counts twice. */
  lemma PendingCountsTwice(e: Event, user: User)
    requires e.organizer == user.name && e.status == Some(PendingChanges)
    ensures DashboardStats([e], [e], user).pendingCount == 2
    ensures |MergedEvents([e], [e], user)| == 1
  {
    var mine := (x: Event) => x.organizer == user.name;
    FilterSingleton(e, mine);
    FilterSingleton(e, AwaitingReview);
    assert ByOrganizer([e], user.name) == [e];
    assert DashboardStats([e], [e], user).pendingCount == |[e]| + |[e]|;
    FilterConcat([e], [e], mine);
    assert [e] + [e] == [e, e];
    assert ByOrganizer([e, e], user.name) == [e, e];
    assert [e, e][..1] == [e];
    assert Dedup([e]) == [e];
    assert Dedup([e, e]) == MapSet([e], e);
  }

  // ---------------------------------------------------------------------
  // Merged event list
  // ---------------------------------------------------------------------

  /** `map.set(e.id, e)` on a Map kept as its list of values in insertion
      order: a new id goes last, a known id keeps its place and takes the new
      value. */
  function MapSet(d: seq<Event>, e: Event): seq<Event> {
    var k := EventStore.IndexOfId(d, e.id);
    if k == -1 then d + [e] else d[k := e]
  }

  /** `Array.from(new Map(es.map(e => [e.id, e])).values())`. */
  function Dedup(es: seq<Event>): seq<Event> {
    if es == [] then [] else MapSet(Dedup(es[..|es| - 1]), es[|es| - 1])
  }

  /** The last entry of es with the given id, if any. */
  function LastWithId(es: seq<Event>, id: string): Option<Event> {
    if es == [] then None
    else if es[|es| - 1].id == id then Some(es[|es| - 1])
    else LastWithId(es[..|es| - 1], id)
  }

  lemma LastWithIdSnoc(es: seq<Event>, x: Event, id: string)
    ensures LastWithId(es + [x], id) == if x.id == id then Some(x) else LastWithId(es, id)
  {
    assert (es + [x])[..|es|] == es;
  }

  /** The last entry with an id comes from the later list when that list has
      one. */
  lemma {:induction false} LastWithIdConcat(a: seq<Event>, b: seq<Event>, id: string)
    ensures LastWithId(a + b, id) == if LastWithId(b, id).Some? then LastWithId(b, id) else LastWithId(a, id)
  {
    if b != [] {
      var init := b[..|b| - 1];
      assert a + b == (a + init) + [b[|b| - 1]];
      LastWithIdSnoc(a + init, b[|b| - 1], id);
      LastWithIdSnoc(init, b[|b| - 1], id);
      assert init + [b[|b| - 1]] == b;
      LastWithIdConcat(a, init, id);
    } else {
      assert a + b == a;
    }
  }

  /** There is a last entry with an id exactly when some entry has it, and it
      is one of the entries. */
  lemma {:induction false} LastWithIdMeaning(es: seq<Event>, id: string)
    ensures LastWithId(es, id).Some? <==> exists i :: 0 <= i < |es| && es[i].id == id
    ensures LastWithId(es, id).Some? ==> LastWithId(es, id).value in es && LastWithId(es, id).value.id == id
  {
    if es != [] {
      var init := es[..|es| - 1];
      LastWithIdMeaning(init, id);
      if exists i :: 0 <= i < |init| && init[i].id == id {
        var i :| 0 <= i < |init| && init[i].id == id;
        assert es[i] == init[i];
      }
      if exists i :: 0 <= i < |es| && es[i].id == id {
        var i :| 0 <= i < |es| && es[i].id == id;
        if i < |init| {
          assert init[i] == es[i];
        }
      }
    }
  }

  /** d holds each id of es once, with the value of its last occurrence. */
  predicate Represents(d: seq<Event>, es: seq<Event>) {
    && OrganizerStore.UniqueIds(d)
    && (forall j :: 0 <= j < |d| ==> LastWithId(es, d[j].id) == Some(d[j]))
    && (forall i :: 0 <= i < |es| ==> EventStore.IndexOfId(d, es[i].id) >= 0)
  }

  /** After one `set`, every entry holds the last value given to its id. */
  lemma MapSetLast(d: seq<Event>, es: seq<Event>, x: Event, j: nat)
    requires Represents(d, es) && j < |MapSet(d, x)|
    ensures LastWithId(es + [x], MapSet(d, x)[j].id) == Some(MapSet(d, x)[j])
  {
    var d' := MapSet(d, x);
    var k0 := EventStore.IndexOfId(d, x.id);
    LastWithIdSnoc(es, x, d'[j].id);
    if j < |d| && j != k0 {
      assert d'[j] == d[j];
      if k0 >= 0 {
        assert d[j].id != d[k0].id;
      }
    }
  }

  /** After one `set`, every id given so far has an entry. */
  lemma MapSetCovers(d: seq<Event>, es: seq<Event>, x: Event, i: nat)
    requires Represents(d, es) && i < |es + [x]|
    ensures EventStore.IndexOfId(MapSet(d, x), (es + [x])[i].id) >= 0
  {
    var d' := MapSet(d, x);
    var k0 := EventStore.IndexOfId(d, x.id);
    var id := (es + [x])[i].id;
    if i == |es| {
      assert d'[if k0 == -1 then |d| else k0].id == id;
    } else {
      var t := EventStore.IndexOfId(d, id);
      assert d'[t].id == id;
    }
  }

  /** One `set` keeps the representation. */
  lemma MapSetStep(d: seq<Event>, es: seq<Event>, x: Event)
    requires Represents(d, es)
    ensures Represents(MapSet(d, x), es + [x])
  {
    var d' := MapSet(d, x);
    var k0 := EventStore.IndexOfId(d, x.id);
    forall j | 0 <= j < |d'| ensures LastWithId(es + [x], d'[j].id) == Some(d'[j]) {
      MapSetLast(d, es, x, j);
    }
    forall i | 0 <= i < |es + [x]| ensures EventStore.IndexOfId(d', (es + [x])[i].id) >= 0 {
      MapSetCovers(d, es, x, i);
    }
    forall i, j | 0 <= i < j < |d'| ensures d'[i].id != d'[j].id {
      if k0 == -1 && j == |d| {
        assert d'[i] == d[i];
      }
    }
  }

  /** The Map's values hold every id once, each with its last value. */
  lemma {:induction false} DedupRepresents(es: seq<Event>)
    ensures Represents(Dedup(es), es)
  {
    if es != [] {
      var init := es[..|es| - 1];
      DedupRepresents(init);
      MapSetStep(Dedup(init), init, es[|es| - 1]);
      assert init + [es[|es| - 1]] == es;
    }
  }

  /** The organiser's events from the catalogue followed by those from the
      queue, deduplicated by id. */
  function MergedEvents(events: seq<Event>, pending: seq<Event>, user: User): seq<Event> {
    Dedup(ByOrganizer(events + pending, user.name))
  }

  /** Each merged entry is one of the user's own catalogue or queued events. */
  lemma MergedEntriesOwn(events: seq<Event>, pending: seq<Event>, user: User, e: Event)
    requires e in MergedEvents(events, pending, user)
    ensures e.organizer == user.name && e in events + pending
  {
    var own := ByOrganizer(events + pending, user.name);
    DedupRepresents(own);
    var d := Dedup(own);
    var j :| 0 <= j < |d| && d[j] == e;
    LastWithIdMeaning(own, e.id);
    FilterMember(events + pending, (x: Event) => x.organizer == user.name, e);
  }

  /** Each id among the user's catalogue and queued events is merged. */
  lemma MergedEntriesCover(events: seq<Event>, pending: seq<Event>, user: User, e: Event)
    requires e in events + pending && e.organizer == user.name
    ensures EventStore.IndexOfId(MergedEvents(events, pending, user), e.id) >= 0
  {
    var own := ByOrganizer(events + pending, user.name);
    DedupRepresents(own);
    FilterMember(events + pending, (x: Event) => x.organizer == user.name, e);
    var i :| 0 <= i < |own| && own[i] == e;
  }

  /** A merged entry whose id the user has in the queue is the last queued copy. */
  lemma MergedEntriesPreferQueue(events: seq<Event>, pending: seq<Event>, user: User, e: Event)
    requires e in MergedEvents(events, pending, user)
    requires LastWithId(ByOrganizer(pending, user.name), e.id).Some?
    ensures Some(e) == LastWithId(ByOrganizer(pending, user.name), e.id)
  {
    var own := ByOrganizer(events + pending, user.name);
    FilterConcat(events, pending, (x: Event) => x.organizer == user.name);
    DedupRepresents(own);
    var d := Dedup(own);
    var j :| 0 <= j < |d| && d[j] == e;
    LastWithIdConcat(ByOrganizer(events, user.name), ByOrganizer(pending, user.name), e.id);
  }

  /** The merged list holds only the user's own events, each id once, every
      id of the user's catalogue and queued events, and for an id that the
      user has in the queue the last queued copy. */
  lemma MergedEventsMeaning(events: seq<Event>, pending: seq<Event>, user: User)
    ensures OrganizerStore.UniqueIds(MergedEvents(events, pending, user))
    ensures forall e :: e in MergedEvents(events, pending, user) ==> e.organizer == user.name && e in events + pending
    ensures forall e :: e in events + pending && e.organizer == user.name ==>
      EventStore.IndexOfId(MergedEvents(events, pending, user), e.id) >= 0
    ensures forall e :: e in MergedEvents(events, pending, user) ==>
      LastWithId(ByOrganizer(pending, user.name), e.id).Some? ==>
        Some(e) == LastWithId(ByOrganizer(pending, user.name), e.id)
  {
    DedupRepresents(ByOrganizer(events + pending, user.name));
    forall e | e in MergedEvents(events, pending, user) ensures e.organizer == user.name && e in events + pending {
      MergedEntriesOwn(events, pending, user, e);
    }
    forall e | e in events + pending && e.organizer == user.name
      ensures EventStore.IndexOfId(MergedEvents(events, pending, user), e.id) >= 0
    {
      MergedEntriesCover(events, pending, user, e);
    }
    forall e | e in MergedEvents(events, pending, user) && LastWithId(ByOrganizer(pending, user.name), e.id).Some?
      ensures Some(e) == LastWithId(ByOrganizer(pending, user.name), e.id)
    {
      MergedEntriesPreferQueue(events, pending, user, e);
    }
  }

  // ---------------------------------------------------------------------
  // Recent activity
  // ---------------------------------------------------------------------

  /** The first five of the user's log entries, in log order. */
  function RecentActivity(logs: seq<LogStore.EventLog>, user: User): seq<LogStore.EventLog> {
    Take(LogStore.ByUser(logs, user.id), 5)
  }

  /** Recent activity is at most five of the user's own entries, the earliest
      in log order, and five whenever the user has that many; it is empty
      ("No recent activity") exactly when the user has no entry. */
  lemma RecentActivityMeaning(logs: seq<LogStore.EventLog>, user: User)
    ensures |RecentActivity(logs, user)| <= 5
    ensures RecentActivity(logs, user) <= LogStore.ByUser(logs, user.id)
    ensures forall l :: l in RecentActivity(logs, user) ==> l in logs && l.userId == user.id
    ensures |LogStore.ByUser(logs, user.id)| >= 5 ==> |RecentActivity(logs, user)| == 5
    ensures RecentActivity(logs, user) == [] <==> forall l :: l in logs ==> l.userId != user.id
  {
    forall l ensures l in LogStore.ByUser(logs, user.id) <==> l in logs && l.userId == user.id {
      LogStore.ByUserMeaning(logs, user.id, l);
    }
    var mine := LogStore.ByUser(logs, user.id);
    forall l | l in RecentActivity(logs, user) ensures l in mine {
      var i :| 0 <= i < |RecentActivity(logs, user)| && RecentActivity(logs, user)[i] == l;
      assert mine[i] == l;
    }
    if mine != [] {
      assert RecentActivity(logs, user)[0] == mine[0];
    }
  }
}
