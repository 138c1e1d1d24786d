/** Diffing an edit against the stored event: the modification record, the log
    entry that announces it, and the field comparison the review page shows. */
module EventAudit {
  import opened Common
  import opened EventTypes
  import LogStore

  /** The keys a modification record tracks: all but id, version and
      previousVersion. */
  predicate Tracked(k: Key) {
    k != IdKey && k != VersionKey && k != PreviousVersionKey
  }

  /** The partial has a tracked key whose value differs from the old event's. */
  predicate Changed(prior: Event, p: Partial, k: Key) {
    Tracked(k) && PartialGet(p, k).Some? && PartialGet(p, k).value != Get(prior, k)
  }

  /** The modified fields, in the partial's key order. */
  function ChangedFields(prior: Event, p: Partial): seq<Key> {
    Filter(p.keys, k => Changed(prior, p, k))
  }

  /** For a well-formed partial, a key is reported exactly when the partial sets
      it, it is tracked, and its value differs; no key is reported twice. */
  lemma ChangedFieldsMeaning(prior: Event, p: Partial, k: Key)
    requires WellFormed(p)
    ensures k in ChangedFields(prior, p) <==>
      PartialGet(p, k).Some? && Tracked(k) && PartialGet(p, k).value != Get(prior, k)
    ensures DistinctBy(ChangedFields(prior, p), (k: Key) => k)
  {
    FilterMember(p.keys, k => Changed(prior, p, k), k);
    FilterDistinctBy(p.keys, k => Changed(prior, p, k), (k: Key) => k);
  }

  /** A partial that agrees with the old event on every tracked key it sets, the
      empty partial among them, reports no change. */
  lemma NoChangeReported(prior: Event, p: Partial)
    requires forall k :: Tracked(k) && PartialGet(p, k).Some? ==> PartialGet(p, k).value == Get(prior, k)
    ensures ChangedFields(prior, p) == []
  {
    FilterDropsAll(p.keys, k => Changed(prior, p, k));
  }

  /** Diffing an event against a copy of itself reports nothing. */
  lemma SelfDiffEmpty(e: Event)
    ensures ChangedFields(e, AsPartial(e)) == []
  {
    forall k | Tracked(k) && PartialGet(AsPartial(e), k).Some?
      ensures PartialGet(AsPartial(e), k).value == Get(e, k)
    {
      AsPartialGet(e, k);
    }
    NoChangeReported(e, AsPartial(e));
  }

  /** `createEventModification(prior, p, userId, userName)`, with the record id
      and the timestamp supplied by the caller. The loop walks the partial's keys
      in order, as `Object.keys(p).forEach` does. */
  method CreateEventModification(prior: Event, p: Partial, userId: string, userName: string, id: string, now: Time)
    returns (m: EventModification)
    ensures m.modifiedFields == ChangedFields(prior, p)
    ensures forall k :: k in m.oldValues <==> k in m.modifiedFields
    ensures forall k :: k in m.newValues <==> k in m.modifiedFields
    ensures forall k :: k in m.oldValues ==> m.oldValues[k] == Get(prior, k)
    ensures forall k :: k in m.newValues ==> PartialGet(p, k) == Some(m.newValues[k])
    ensures m.id == id && m.eventId == prior.id && m.timestamp == now
    ensures m.modifiedBy == userId && m.status == ReviewPending && m.adminNotes == None
  {
    var modifiedFields: seq<Key> := [];
    var oldValues: map<Key, Value> := map[];
    var newValues: map<Key, Value> := map[];
    var i := 0;
    while i < |p.keys|
      invariant 0 <= i <= |p.keys|
      invariant modifiedFields == Filter(p.keys[..i], k => Changed(prior, p, k))
      invariant forall k :: k in oldValues <==> k in modifiedFields
      invariant forall k :: k in newValues <==> k in modifiedFields
      invariant forall k :: k in oldValues ==> oldValues[k] == Get(prior, k)
      invariant forall k :: k in newValues ==> PartialGet(p, k) == Some(newValues[k])
    {
      var key := p.keys[i];
      FilterConcat(p.keys[..i], [key], k => Changed(prior, p, k));
      FilterSingleton(key, k => Changed(prior, p, k));
      assert p.keys[..i + 1] == p.keys[..i] + [key];
      if Changed(prior, p, key) {
        modifiedFields := modifiedFields + [key];
        oldValues := oldValues[key := Get(prior, key)];
        newValues := newValues[key := PartialGet(p, key).value];
      }
      i := i + 1;
    }
    assert p.keys[..i] == p.keys;
    m := EventModification(id, prior.id, modifiedFields, oldValues, newValues, now, userId, ReviewPending, None);
  }

  /** The property names of keys. */
  function KeyNames(ks: seq<Key>): (r: seq<string>)
    ensures |r| == |ks|
    ensures forall i :: 0 <= i < |ks| ==> r[i] == KeyName(ks[i])
  {
    if ks == [] then [] else [KeyName(ks[0])] + KeyNames(ks[1..])
  }

  /** The details text of an edit entry. */
  function ModificationLogDetails(m: EventModification): string {
    "Modified fields: " + Join(KeyNames(m.modifiedFields), ", ")
  }

  /** `logEventModification(event, m, userName)`, with the entry id and the
      timestamp supplied by the caller: one `edited` entry attributed to the
      modification's author. */
  method LogEventModification(logs: LogStore.Store, event: Event, m: EventModification, userName: string,
                              logId: string, now: Time)
    modifies logs
    ensures logs.logs == old(logs.logs) + [LogStore.EventLog(
      logId, event.id, LogStore.Edited, now, m.modifiedBy, userName, Some(ModificationLogDetails(m)))]
  {
    logs.AddLog(LogStore.EventLog(logId, event.id, LogStore.Edited, now, m.modifiedBy, userName,
                                  Some(ModificationLogDetails(m))));
  }

  /** The fields `compareEvents` looks at, in its order. */
  const ComparedFields: seq<Key> := [
    TitleKey, DescriptionKey, DateKey, TimeKey, LocationKey,
    PriceKey, CategoryKey, CapacityKey, ImageUrlKey]

  /** The compared fields on which a and b differ, in the fixed order. */
  function Differences(a: Event, b: Event): seq<Key> {
    Filter(ComparedFields, k => Get(a, k) != Get(b, k))
  }

  /** A field is reported exactly when it is compared and differs; comparing is
      symmetric, and an event compared with itself differs nowhere. */
  lemma DifferencesMeaning(a: Event, b: Event, k: Key)
    ensures k in Differences(a, b) <==> k in ComparedFields && Get(a, k) != Get(b, k)
    ensures Differences(a, b) == Differences(b, a)
    ensures Differences(a, a) == []
  {
    FilterMember(ComparedFields, k => Get(a, k) != Get(b, k), k);
    FilterSamePredicate(ComparedFields, k => Get(a, k) != Get(b, k), k => Get(b, k) != Get(a, k));
    FilterDropsAll(ComparedFields, k => Get(a, k) != Get(a, k));
  }

  /** Comparing one more field extends the differences found so far by that
      field exactly when a and b differ on it. */
  lemma CompareStep(a: Event, b: Event, i: nat)
    requires i < |ComparedFields|
    ensures Filter(ComparedFields[..i + 1], k => Get(a, k) != Get(b, k)) ==
      Filter(ComparedFields[..i], k => Get(a, k) != Get(b, k)) +
      (if Get(a, ComparedFields[i]) != Get(b, ComparedFields[i]) then [ComparedFields[i]] else [])
  {
    var field := ComparedFields[i];
    FilterConcat(ComparedFields[..i], [field], k => Get(a, k) != Get(b, k));
    FilterSingleton(field, k => Get(a, k) != Get(b, k));
    assert ComparedFields[..i + 1] == ComparedFields[..i] + [field];
  }

  /** `compareEvents(a, b)`. */
  method CompareEvents(a: Event, b: Event) returns (differences: seq<Key>)
    ensures differences == Differences(a, b)
  {
    differences := [];
    var i := 0;
    while i < |ComparedFields|
      invariant 0 <= i <= |ComparedFields|
      invariant differences == Filter(ComparedFields[..i], k => Get(a, k) != Get(b, k))
    {
      var field := ComparedFields[i];
      CompareStep(a, b, i);
      if Get(a, field) != Get(b, field) {
        differences := differences + [field];
      }
      i := i + 1;
    }
    assert ComparedFields[..i] == ComparedFields;
  }
}
