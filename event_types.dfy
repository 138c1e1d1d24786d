/** The event record, its category and status enumerations, the partial
    records that edits are expressed in, and the modification record. */
module EventTypes {
  import opened Common

  /** Calendar dates, ordered. */
  type Date = int

  datatype Category =
    | Corporate | Conference | Exhibition | Workshop | Seminar
    | Networking | Cultural | Concert | Sports

  /** The string a category is stored as. */
  function CategoryName(c: Category): string {
    match c
    case Corporate => "corporate"
    case Conference => "conference"
    case Exhibition => "exhibition"
    case Workshop => "workshop"
    case Seminar => "seminar"
    case Networking => "networking"
    case Cultural => "cultural"
    case Concert => "concert"
    case Sports => "sports"
  }

  datatype Status = Draft | Pending | Approved | Rejected | PendingChanges

  /** An event. `status`, `previousVersion`, `lastModified` and
      `lastModifiedBy` can be absent: an event built from the creation form
      carries none of them. A `version` of 0 stands for an absent version,
      which is how `version || 0` reads it. `previousVersion` holds the whole
      earlier record, itself possibly with a `previousVersion`. */
  datatype Event = Event(
    id: string,
    title: string,
    description: string,
    date: Date,
    time: string,
    location: string,
    price: int,
    category: Category,
    imageUrl: string,
    organizer: string,
    capacity: int,
    ticketsAvailable: int,
    status: Option<Status>,
    version: int,
    previousVersion: Option<Event>,
    lastModified: Option<Time>,
    lastModifiedBy: Option<string>)

  /** The keys of an event record. */
  datatype Key =
    | IdKey | TitleKey | DescriptionKey | DateKey | TimeKey | LocationKey
    | PriceKey | CategoryKey | ImageUrlKey | OrganizerKey | CapacityKey
    | TicketsAvailableKey | StatusKey | VersionKey | PreviousVersionKey
    | LastModifiedKey | LastModifiedByKey

  /** The property name of a key. */
  function KeyName(k: Key): string {
    match k
    case IdKey => "id"
    case TitleKey => "title"
    case DescriptionKey => "description"
    case DateKey => "date"
    case TimeKey => "time"
    case LocationKey => "location"
    case PriceKey => "price"
    case CategoryKey => "category"
    case ImageUrlKey => "imageUrl"
    case OrganizerKey => "organizer"
    case CapacityKey => "capacity"
    case TicketsAvailableKey => "ticketsAvailable"
    case StatusKey => "status"
    case VersionKey => "version"
    case PreviousVersionKey => "previousVersion"
    case LastModifiedKey => "lastModified"
    case LastModifiedByKey => "lastModifiedBy"
  }

  /** A property value; `Absent` is `undefined`. */
  datatype Value =
    | Absent
    | StrValue(s: string)
    | IntValue(n: int)
    | CategoryValue(c: Category)
    | StatusValue(st: Status)
    | EventValue(e: Event)

  /** `event[key]`. */
  function Get(e: Event, k: Key): Value {
    match k
    case IdKey => StrValue(e.id)
    case TitleKey => StrValue(e.title)
    case DescriptionKey => StrValue(e.description)
    case DateKey => IntValue(e.date)
    case TimeKey => StrValue(e.time)
    case LocationKey => StrValue(e.location)
    case PriceKey => IntValue(e.price)
    case CategoryKey => CategoryValue(e.category)
    case ImageUrlKey => StrValue(e.imageUrl)
    case OrganizerKey => StrValue(e.organizer)
    case CapacityKey => IntValue(e.capacity)
    case TicketsAvailableKey => IntValue(e.ticketsAvailable)
    case StatusKey => if e.status.Some? then StatusValue(e.status.value) else Absent
    case VersionKey => IntValue(e.version)
    case PreviousVersionKey =>
      if e.previousVersion.Some? then EventValue(e.previousVersion.value) else Absent
    case LastModifiedKey => if e.lastModified.Some? then IntValue(e.lastModified.value) else Absent
    case LastModifiedByKey =>
      if e.lastModifiedBy.Some? then StrValue(e.lastModifiedBy.value) else Absent
  }

  /** `Partial<Event>`: every property may be missing, and `keys` lists the
      present properties in insertion order (what `Object.keys` returns). */
  datatype Partial = Partial(
    keys: seq<Key>,
    id: Option<string>,
    title: Option<string>,
    description: Option<string>,
    date: Option<Date>,
    time: Option<string>,
    location: Option<string>,
    price: Option<int>,
    category: Option<Category>,
    imageUrl: Option<string>,
    organizer: Option<string>,
    capacity: Option<int>,
    ticketsAvailable: Option<int>,
    status: Option<Status>,
    version: Option<int>,
    previousVersion: Option<Event>,
    lastModified: Option<Time>,
    lastModifiedBy: Option<string>)

  /** `partial[key]`, `None` when the key is missing. */
  function PartialGet(p: Partial, k: Key): Option<Value> {
    match k
    case IdKey => if p.id.Some? then Some(StrValue(p.id.value)) else None
    case TitleKey => if p.title.Some? then Some(StrValue(p.title.value)) else None
    case DescriptionKey => if p.description.Some? then Some(StrValue(p.description.value)) else None
    case DateKey => if p.date.Some? then Some(IntValue(p.date.value)) else None
    case TimeKey => if p.time.Some? then Some(StrValue(p.time.value)) else None
    case LocationKey => if p.location.Some? then Some(StrValue(p.location.value)) else None
    case PriceKey => if p.price.Some? then Some(IntValue(p.price.value)) else None
    case CategoryKey => if p.category.Some? then Some(CategoryValue(p.category.value)) else None
    case ImageUrlKey => if p.imageUrl.Some? then Some(StrValue(p.imageUrl.value)) else None
    case OrganizerKey => if p.organizer.Some? then Some(StrValue(p.organizer.value)) else None
    case CapacityKey => if p.capacity.Some? then Some(IntValue(p.capacity.value)) else None
    case TicketsAvailableKey =>
      if p.ticketsAvailable.Some? then Some(IntValue(p.ticketsAvailable.value)) else None
    case StatusKey => if p.status.Some? then Some(StatusValue(p.status.value)) else None
    case VersionKey => if p.version.Some? then Some(IntValue(p.version.value)) else None
    case PreviousVersionKey =>
      if p.previousVersion.Some? then Some(EventValue(p.previousVersion.value)) else None
    case LastModifiedKey => if p.lastModified.Some? then Some(IntValue(p.lastModified.value)) else None
    case LastModifiedByKey =>
      if p.lastModifiedBy.Some? then Some(StrValue(p.lastModifiedBy.value)) else None
  }

  /** What every JavaScript object satisfies: `keys` lists each present key
      exactly once and nothing else. */
  predicate WellFormed(p: Partial) {
    && DistinctBy(p.keys, (k: Key) => k)
    && (forall k :: k in p.keys <==> PartialGet(p, k).Some?)
  }

  /** `{ ...e, ...p }`: the partial's present properties override the event's. */
  function Merge(e: Event, p: Partial): Event {
    Event(
      p.id.GetOr(e.id),
      p.title.GetOr(e.title),
      p.description.GetOr(e.description),
      p.date.GetOr(e.date),
      p.time.GetOr(e.time),
      p.location.GetOr(e.location),
      p.price.GetOr(e.price),
      p.category.GetOr(e.category),
      p.imageUrl.GetOr(e.imageUrl),
      p.organizer.GetOr(e.organizer),
      p.capacity.GetOr(e.capacity),
      p.ticketsAvailable.GetOr(e.ticketsAvailable),
      if p.status.Some? then p.status else e.status,
      p.version.GetOr(e.version),
      if p.previousVersion.Some? then p.previousVersion else e.previousVersion,
      if p.lastModified.Some? then p.lastModified else e.lastModified,
      if p.lastModifiedBy.Some? then p.lastModifiedBy else e.lastModifiedBy)
  }

  /** Reading any key of a merged record gives the partial's value when the
      partial has the key and the event's value otherwise. */
  lemma MergeGet(e: Event, p: Partial, k: Key)
    ensures Get(Merge(e, p), k) == PartialGet(p, k).GetOr(Get(e, k))
  {
    match k {
      case IdKey => case TitleKey => case DescriptionKey => case DateKey => case TimeKey =>
      case LocationKey => case PriceKey => case CategoryKey => case ImageUrlKey =>
      case OrganizerKey => case CapacityKey => case TicketsAvailableKey => case StatusKey =>
      case VersionKey => case PreviousVersionKey => case LastModifiedKey => case LastModifiedByKey =>
    }
  }

  /** The key order of an event record as the interface declares it. */
  const DeclaredKeys: seq<Key> := [
    IdKey, TitleKey, DescriptionKey, DateKey, TimeKey, LocationKey, PriceKey,
    CategoryKey, ImageUrlKey, OrganizerKey, CapacityKey, TicketsAvailableKey,
    StatusKey, VersionKey, PreviousVersionKey, LastModifiedKey, LastModifiedByKey]

  /** Whether a property of e is present. */
  predicate Present(e: Event, k: Key) {
    Get(e, k) != Absent
  }

  /** The keys of e whose value is present, in declaration order. */
  function PresentKeys(e: Event): seq<Key> {
    PresentAmong(e, DeclaredKeys)
  }

  /** The keys among ks whose value in e is present, in the order of ks. */
  function PresentAmong(e: Event, ks: seq<Key>): seq<Key> {
    if ks == [] then [] else (if Present(e, ks[0]) then [ks[0]] else []) + PresentAmong(e, ks[1..])
  }

  /** Keeping the present keys is filtering the keys by presence. */
  lemma {:induction false} PresentAmongFilter(e: Event, ks: seq<Key>)
    ensures PresentAmong(e, ks) == Filter(ks, k => Present(e, k))
  {
    if ks != [] {
      PresentAmongFilter(e, ks[1..]);
    }
  }

  /** The present keys are listed once each, and they are exactly the keys
      whose value is present. */
  lemma PresentKeysSpec(e: Event)
    ensures DistinctBy(PresentKeys(e), (k: Key) => k)
    ensures forall k :: k in PresentKeys(e) <==> Present(e, k)
  {
    PresentAmongFilter(e, DeclaredKeys);
    DeclaredKeysDistinct();
    FilterDistinctBy(DeclaredKeys, k => Present(e, k), (k: Key) => k);
    forall k ensures k in PresentKeys(e) <==> Present(e, k) {
      InDeclaredKeys(k);
      FilterMember(DeclaredKeys, k => Present(e, k), k);
    }
  }

  /** `{ ...e }` read as a `Partial<Event>`: every property of e that is present. */
  function AsPartial(e: Event): Partial {
    Partial(
      PresentKeys(e),
      Some(e.id), Some(e.title), Some(e.description), Some(e.date), Some(e.time),
      Some(e.location), Some(e.price), Some(e.category), Some(e.imageUrl),
      Some(e.organizer), Some(e.capacity), Some(e.ticketsAvailable), e.status,
      Some(e.version), e.previousVersion, e.lastModified, e.lastModifiedBy)
  }

  /** The partial read from a record has exactly the record's present properties. */
  lemma AsPartialGet(e: Event, k: Key)
    ensures PartialGet(AsPartial(e), k) == if Get(e, k) == Absent then None else Some(Get(e, k))
  {
    match k {
      case IdKey => case TitleKey => case DescriptionKey => case DateKey => case TimeKey =>
      case LocationKey => case PriceKey => case CategoryKey => case ImageUrlKey =>
      case OrganizerKey => case CapacityKey => case TicketsAvailableKey => case StatusKey =>
      case VersionKey => case PreviousVersionKey => case LastModifiedKey => case LastModifiedByKey =>
    }
  }

  /** The partial read from a record is a well-formed object. */
  lemma AsPartialWellFormed(e: Event)
    ensures WellFormed(AsPartial(e))
  {
    PresentKeysSpec(e);
    forall k ensures k in AsPartial(e).keys <==> PartialGet(AsPartial(e), k).Some? {
      AsPartialGet(e, k);
    }
  }

  /** The position of a key in `DeclaredKeys`. */
  function KeyIndex(k: Key): nat {
    match k
    case IdKey => 0
    case TitleKey => 1
    case DescriptionKey => 2
    case DateKey => 3
    case TimeKey => 4
    case LocationKey => 5
    case PriceKey => 6
    case CategoryKey => 7
    case ImageUrlKey => 8
    case OrganizerKey => 9
    case CapacityKey => 10
    case TicketsAvailableKey => 11
    case StatusKey => 12
    case VersionKey => 13
    case PreviousVersionKey => 14
    case LastModifiedKey => 15
    case LastModifiedByKey => 16
  }

  lemma DeclaredKeysDistinct()
    ensures DistinctBy(DeclaredKeys, (k: Key) => k)
  {
    forall i | 0 <= i < |DeclaredKeys| ensures KeyIndex(DeclaredKeys[i]) == i {
    }
  }

  lemma InDeclaredKeys(k: Key)
    ensures k in DeclaredKeys
  {
    match k {
      case IdKey => case TitleKey => case DescriptionKey => case DateKey => case TimeKey =>
      case LocationKey => case PriceKey => case CategoryKey => case ImageUrlKey =>
      case OrganizerKey => case CapacityKey => case TicketsAvailableKey => case StatusKey =>
      case VersionKey => case PreviousVersionKey => case LastModifiedKey => case LastModifiedByKey =>
    }
  }

  /** Merging a whole record keeps only the target's properties that the
      record lacks, which are the optional ones. */
  lemma MergeWhole(x: Event, e: Event)
    ensures Merge(x, AsPartial(e)) ==
      e.(status := if e.status.Some? then e.status else x.status,
         previousVersion := if e.previousVersion.Some? then e.previousVersion else x.previousVersion,
         lastModified := if e.lastModified.Some? then e.lastModified else x.lastModified,
         lastModifiedBy := if e.lastModifiedBy.Some? then e.lastModifiedBy else x.lastModifiedBy)
  {
  }

  /** The status of modification records, pending-queue entries and approvals. */
  datatype ReviewStatus = ReviewPending | ReviewApproved | ReviewRejected

  /** A diff record: which properties an edit changed, with old and new values. */
  datatype EventModification = EventModification(
    id: string,
    eventId: string,
    modifiedFields: seq<Key>,
    oldValues: map<Key, Value>,
    newValues: map<Key, Value>,
    timestamp: Time,
    modifiedBy: string,
    status: ReviewStatus,
    adminNotes: Option<string>)
}
