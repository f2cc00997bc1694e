/**
 The daemon's in-memory annotation store: a bounded map from resource keys to
 annotations in subscription form, updated in place under one lock.
 */
module AnnotationStore {
  import opened Types
  import opened Annotations

  type Entries = map<Key, Annotation>

  const BLANK_ANNOTATION := Annotation(Reset, None, Reset, None, Reset, [])

  ghost predicate WellFormed(entries: Entries) {
    forall key <- entries.Keys :: SubscriptionForm(entries[key])
  }

  ghost predicate NoBlankEntry(entries: Entries) {
    forall key <- entries.Keys :: View(entries[key]) != BLANK
  }

  /** What the store says about a resource; an absent entry says nothing. */
  function OverlayOf(entries: Entries, key: Key): Overlay {
    if key in entries then View(entries[key]) else BLANK
  }

  function Merge<T>(update: Update, kept: T, value: T, cleared: T): T {
    match update
    case Unchanged => kept
    case Set => value
    case Reset => cleared
  }

  /** The reference meaning of one update: each field is kept, replaced or cleared on its own. */
  function MergeOverlay(overlay: Overlay, annotation: Annotation): Overlay {
    Overlay(
      Merge(annotation.labelUpdate, overlay.labelText, annotation.labelText, None),
      Merge(annotation.descriptionUpdate, overlay.description, annotation.description, None),
      Merge(annotation.tagsUpdate, overlay.tags, TagMap(annotation.tags), map[]))
  }

  function StoredTags(tags: seq<Tag>): seq<Tag> {
    seq(|tags|, i requires 0 <= i < |tags| => tags[i].(valuesUpdate := Unchanged))
  }

  function WithLabel(entry: Annotation, annotation: Annotation): Annotation {
    match annotation.labelUpdate
    case Unchanged => entry
    case Set => entry.(labelText := annotation.labelText,
                       labelUpdate := if annotation.labelText.Some? then Unchanged else Reset)
    case Reset => entry.(labelText := None, labelUpdate := Reset)
  }

  function WithDescription(entry: Annotation, annotation: Annotation): Annotation {
    match annotation.descriptionUpdate
    case Unchanged => entry
    case Set => entry.(description := annotation.description,
                       descriptionUpdate := if annotation.description.Some? then Unchanged else Reset)
    case Reset => entry.(description := None, descriptionUpdate := Reset)
  }

  function WithTags(entry: Annotation, annotation: Annotation): Annotation {
    match annotation.tagsUpdate
    case Unchanged => entry
    case Set => entry.(tags := StoredTags(annotation.tags),
                       tagsUpdate := if annotation.tags != [] then Unchanged else Reset)
    case Reset => entry.(tags := [], tagsUpdate := Reset)
  }

  /** One entry after one update. */
  function UpdateEntry(entry: Annotation, annotation: Annotation): Annotation {
    WithTags(WithDescription(WithLabel(entry, annotation), annotation), annotation)
  }

  predicate NothingStored(entry: Annotation) {
    entry.labelUpdate == Reset && entry.descriptionUpdate == Reset && entry.tagsUpdate == Reset
  }

  /** The map after one update, or None when a new key meets a full store. */
  function Applied(entries: Entries, limit: nat, key: Key, annotation: Annotation): Option<Entries> {
    var entry := UpdateEntry(if key in entries then entries[key] else BLANK_ANNOTATION, annotation);
    if NothingStored(entry) then Some(entries - {key})
    else if key !in entries && |entries| >= limit then None
    else Some(entries[key := entry])
  }

  lemma WithLabelMeaning(entry: Annotation, annotation: Annotation)
    requires SubscriptionForm(entry)
    ensures
      var updated := WithLabel(entry, annotation);
      && SubscriptionForm(updated)
      && View(updated) == View(entry).(
           labelText := Merge(annotation.labelUpdate, View(entry).labelText, annotation.labelText, None))
  {
  }

  lemma WithDescriptionMeaning(entry: Annotation, annotation: Annotation)
    requires SubscriptionForm(entry)
    ensures
      var updated := WithDescription(entry, annotation);
      && SubscriptionForm(updated)
      && View(updated) == View(entry).(description :=
           Merge(annotation.descriptionUpdate, View(entry).description, annotation.description, None))
  {
  }

  lemma WithTagsMeaning(entry: Annotation, annotation: Annotation)
    requires SubscriptionForm(entry)
    ensures
      var updated := WithTags(entry, annotation);
      && SubscriptionForm(updated)
      && View(updated) == View(entry).(
           tags := Merge(annotation.tagsUpdate, View(entry).tags, TagMap(annotation.tags), map[]))
  {
    TagMapIgnoresOperations(StoredTags(annotation.tags), annotation.tags);
  }

  /** An entry in subscription form holds nothing exactly when it overrides nothing. */
  lemma NothingStoredMeaning(entry: Annotation)
    requires SubscriptionForm(entry)
    ensures NothingStored(entry) <==> View(entry) == BLANK
  {
    if entry.tags != [] {
      TagMapKeys(entry.tags);
      assert entry.tags[0].key in TagMap(entry.tags);
    }
  }

  lemma UpdateEntryMeaning(entry: Annotation, annotation: Annotation)
    requires SubscriptionForm(entry)
    ensures SubscriptionForm(UpdateEntry(entry, annotation))
    ensures View(UpdateEntry(entry, annotation)) == MergeOverlay(View(entry), annotation)
  {
    WithLabelMeaning(entry, annotation);
    WithDescriptionMeaning(WithLabel(entry, annotation), annotation);
    WithTagsMeaning(WithDescription(WithLabel(entry, annotation), annotation), annotation);
  }

  /** Same key set and same meaning everywhere but at key. */
  ghost predicate SameExceptAt(before: Entries, after: Entries, key: Key) {
    forall other :: other != key ==>
      && (other in after <==> other in before)
      && OverlayOf(after, other) == OverlayOf(before, other)
  }

  /**
   An update is refused exactly when it would store something new in a full store.
   An accepted one merges into that key's overlay, touches no other key, keeps an
   entry exactly for what still overrides something, and never exceeds the limit.
   */
  lemma AppliedMeaning(entries: Entries, limit: nat, key: Key, annotation: Annotation)
    requires WellFormed(entries)
    ensures
      var merged := MergeOverlay(OverlayOf(entries, key), annotation);
      var result := Applied(entries, limit, key, annotation);
      && (result.None? <==> merged != BLANK && key !in entries && |entries| >= limit)
      && (result.Some? ==>
            && WellFormed(result.value)
            && OverlayOf(result.value, key) == merged
            && (key in result.value <==> merged != BLANK)
            && SameExceptAt(entries, result.value, key)
            && (NoBlankEntry(entries) ==> NoBlankEntry(result.value))
            && (|entries| <= limit ==> |result.value| <= limit))
  {
    var entry := if key in entries then entries[key] else BLANK_ANNOTATION;
    var updated := UpdateEntry(entry, annotation);
    assert OverlayOf(entries, key) == View(entry);
    UpdateEntryMeaning(entry, annotation);
    NothingStoredMeaning(updated);
    if NothingStored(updated) {
      ErasedEntry(entries, key);
    } else {
      StoredEntry(entries, key, updated);
    }
  }

  lemma ErasedEntry(entries: Entries, key: Key)
    requires WellFormed(entries)
    ensures
      var after := entries - {key};
      && WellFormed(after) && SameExceptAt(entries, after, key) && OverlayOf(after, key) == BLANK
      && (NoBlankEntry(entries) ==> NoBlankEntry(after)) && |after| <= |entries|
  {
    SizeAfterErase(entries, key);
  }

  lemma StoredEntry(entries: Entries, key: Key, entry: Annotation)
    requires WellFormed(entries) && SubscriptionForm(entry) && View(entry) != BLANK
    ensures
      var after := entries[key := entry];
      && WellFormed(after) && SameExceptAt(entries, after, key) && OverlayOf(after, key) == View(entry)
      && (NoBlankEntry(entries) ==> NoBlankEntry(after))
      && |after| == |entries| + (if key in entries then 0 else 1)
  {
    SizeAfterInsert(entries, key, entry);
  }

  lemma SizeAfterErase<K, V>(m: map<K, V>, key: K)
    ensures |m - {key}| <= |m|
  {
    assert (m - {key}).Keys == m.Keys - {key};
    assert |m.Keys - {key}| <= |m.Keys|;
  }

  lemma SizeAfterInsert<K, V>(m: map<K, V>, key: K, value: V)
    ensures |m[key := value]| == |m| + (if key in m then 0 else 1)
  {
    if key in m {
      assert m[key := value].Keys == m.Keys;
    } else {
      assert m[key := value].Keys == m.Keys + {key};
    }
  }

  /** Node and Device updates carry no name. */
  function KeyFor(seed: string, resourceType: ResourceType, name: Option<string>): Key {
    Key(seed, resourceType, if name.Some? then name.value else "")
  }

  class Store {
    var entries: Entries
    const limit: nat
    /** Dirty messages handed to the checkpoint writer so far. */
    var dirtySent: nat

    ghost predicate Valid()
      reads this
    {
      WellFormed(entries) && |entries| <= limit
    }

    constructor (entries: Entries, limit: nat)
      requires WellFormed(entries) && |entries| <= limit
      ensures Valid() && this.entries == entries && this.limit == limit && dirtySent == 0
    {
      this.entries := entries;
      this.limit := limit;
      dirtySent := 0;
    }

    method Get(seed: string, resourceType: ResourceType, name: string) returns (stored: Option<Annotation>)
      ensures (if stored.Some? then View(stored.value) else BLANK)
           == OverlayOf(entries, Key(seed, resourceType, name))
      ensures stored.Some? <==> Key(seed, resourceType, name) in entries
      ensures stored.Some? ==> stored.value == entries[Key(seed, resourceType, name)]
    {
      var key := Key(seed, resourceType, name);
      stored := if key in entries then Some(entries[key]) else None;
    }

    /** Apply one update to the entry Get finds; a refusal changes nothing and tells the writer nothing. */
    method Apply(seed: string, resourceType: ResourceType, name: Option<string>, annotation: Annotation)
      returns (accepted: bool)
      requires Valid()
      modifies this`entries, this`dirtySent
      ensures Valid()
      ensures
        var key := Key(seed, resourceType, if name.Some? then name.value else "");
        var merged := MergeOverlay(OverlayOf(old(entries), key), annotation);
        && accepted == (merged == BLANK || key in old(entries) || |old(entries)| < limit)
        && (accepted ==> OverlayOf(entries, key) == merged && SameExceptAt(old(entries), entries, key))
      ensures Applied(old(entries), limit, KeyFor(seed, resourceType, name), annotation)
           == if accepted then Some(entries) else None
      ensures accepted ==> dirtySent == old(dirtySent) + 1
      ensures !accepted ==> unchanged(this)
    {
      var key := KeyFor(seed, resourceType, name);
      AppliedMeaning(entries, limit, key, annotation);
      var entry := if key in entries then entries[key] else BLANK_ANNOTATION;
      entry := WithLabel(entry, annotation);
      entry := WithDescription(entry, annotation);
      entry := WithTags(entry, annotation);
      if NothingStored(entry) {
        entries := entries - {key};
      } else if key !in entries && |entries| >= limit {
        return false;
      } else {
        entries := entries[key := entry];
      }
      dirtySent := dirtySent + 1;
      return true;
    }
  }
}
