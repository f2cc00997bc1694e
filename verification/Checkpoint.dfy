/**
 The checkpoint codec: the record sequence written for a store, and the store
 read back from a record sequence. File bytes and JSON text are left out; a
 BTreeMap is its sorted association list.
 */
module Checkpoint {
  import opened Types
  import opened Annotations
  import opened AnnotationStore
  import opened SortedAssoc

  const CHECKPOINT_VERSION := 1

  datatype RecordKey = RecordKey(seed: string, resourceType: string, name: string)

  type TagTree = seq<(string, seq<string>)>

  datatype RecordBody = RecordBody(labelText: Option<string>, description: Option<string>, tags: TagTree)

  type Record = (RecordKey, RecordBody)

  datatype CheckpointFile = CheckpointFile(version: int, annotations: seq<Record>)

  datatype CheckpointError = UnsupportedVersion | UnknownResourceType | ReadOnlyTagKey | DuplicateAnnotation

  datatype ReadResult = Loaded(entries: Entries) | Rejected(error: CheckpointError)

  // Keys

  function ResourceTypeName(resourceType: ResourceType): string {
    match resourceType
    case Node => "node"
    case Device => "device"
    case Source => "source"
    case Flow => "flow"
    case Sender => "sender"
    case Receiver => "receiver"
  }

  function ResourceTypeFromName(name: string): Option<ResourceType> {
    match name
    case "node" => Some(Node)
    case "device" => Some(Device)
    case "source" => Some(Source)
    case "flow" => Some(Flow)
    case "sender" => Some(Sender)
    case "receiver" => Some(Receiver)
    case _ => None
  }

  lemma ResourceTypeNames(resourceType: ResourceType, name: string)
    ensures ResourceTypeFromName(ResourceTypeName(resourceType)) == Some(resourceType)
    ensures ResourceTypeFromName(name) == Some(resourceType) <==> name == ResourceTypeName(resourceType)
  {
  }

  function RecordKeyOf(key: Key): RecordKey {
    RecordKey(key.seed, ResourceTypeName(key.resourceType), key.name)
  }

  function KeyOf(recordKey: RecordKey): Option<Key> {
    var resourceType := ResourceTypeFromName(recordKey.resourceType);
    if resourceType.Some? then Some(Key(recordKey.seed, resourceType.value, recordKey.name)) else None
  }

  lemma KeyOfInverts(key: Key, recordKey: RecordKey)
    ensures KeyOf(RecordKeyOf(key)) == Some(key)
    ensures KeyOf(recordKey) == Some(key) <==> recordKey == RecordKeyOf(key)
  {
    ResourceTypeNames(key.resourceType, recordKey.resourceType);
  }

  predicate RecordLess(a: RecordKey, b: RecordKey) {
    || StringLess(a.seed, b.seed)
    || (a.seed == b.seed && StringLess(a.resourceType, b.resourceType))
    || (a.seed == b.seed && a.resourceType == b.resourceType && StringLess(a.name, b.name))
  }

  lemma RecordLessIsOrder()
    ensures StrictTotalOrder(RecordLess)
  {
    StringLessIsOrder();
  }

  lemma RecordsUnique(a: seq<Record>, b: seq<Record>)
    requires Sorted(a, RecordLess) && Sorted(b, RecordLess) && ToMap(a) == ToMap(b)
    ensures a == b
  {
    RecordLessIsOrder();
    SortedUnique(a, b, RecordLess);
  }

  lemma RecordsInsert(records: seq<Record>, key: RecordKey, body: RecordBody)
    requires Sorted(records, RecordLess)
    ensures Sorted(Insert(records, key, body, RecordLess), RecordLess)
    ensures ToMap(Insert(records, key, body, RecordLess)) == ToMap(records)[key := body]
  {
    RecordLessIsOrder();
    InsertSorted(records, key, body, RecordLess);
    InsertToMap(records, key, body, RecordLess);
  }

  lemma RecordsAt(records: seq<Record>, i: nat)
    requires Sorted(records, RecordLess) && i < |records|
    ensures records[i].0 in ToMap(records) && ToMap(records)[records[i].0] == records[i].1
  {
    RecordLessIsOrder();
    ToMapAt(records, i, RecordLess);
  }

  lemma RecordsDistinct(records: seq<Record>)
    requires Sorted(records, RecordLess)
    ensures forall i, j :: 0 <= i < j < |records| ==> records[i].0 != records[j].0
  {
    RecordLessIsOrder();
  }

  // Writing

  function CollectTags(tags: seq<Tag>): TagTree {
    if tags == [] then []
    else
      var last := tags[|tags| - 1];
      Insert(CollectTags(tags[..|tags| - 1]), last.key, last.values, StringLess)
  }

  lemma {:induction false} CollectTagsMeaning(tags: seq<Tag>)
    ensures Sorted(CollectTags(tags), StringLess)
    ensures ToMap(CollectTags(tags)) == TagMap(tags)
  {
    if tags != [] {
      var last := tags[|tags| - 1];
      var front := CollectTags(tags[..|tags| - 1]);
      CollectTagsMeaning(tags[..|tags| - 1]);
      StringLessIsOrder();
      InsertSorted(front, last.key, last.values, StringLess);
      InsertToMap(front, last.key, last.values, StringLess);
    }
  }

  function BodyOf(annotation: Annotation): RecordBody {
    RecordBody(PresentValue(annotation.labelUpdate, annotation.labelText),
               PresentValue(annotation.descriptionUpdate, annotation.description),
               if annotation.tagsUpdate == Reset then [] else CollectTags(annotation.tags))
  }

  /** What a record says, in the same terms as a stored annotation. */
  function RecordView(body: RecordBody): Overlay {
    Overlay(body.labelText, body.description, ToMap(body.tags))
  }

  lemma BodyOfMeaning(annotation: Annotation)
    ensures RecordView(BodyOf(annotation)) == View(annotation)
    ensures Sorted(BodyOf(annotation).tags, StringLess)
  {
    CollectTagsMeaning(annotation.tags);
  }

  lemma RecordKeyOfInjective()
    ensures Injective(RecordKeyOf)
  {
    forall a: Key, b: Key | RecordKeyOf(a) == RecordKeyOf(b)
      ensures a == b
    {
      KeyOfInverts(a, RecordKeyOf(b));
    }
  }

  /** The records are sorted and hold exactly one record for each entry. */
  ghost predicate IsEncoding(entries: Entries, records: seq<Record>) {
    Sorted(records, RecordLess) && ImageOf(entries, ToMap(records), RecordKeyOf, BodyOf)
  }

  /** Two writes of stores with the same bodies give the same record sequence. */
  lemma EncodingUnique(a: Entries, b: Entries, ra: seq<Record>, rb: seq<Record>)
    requires IsEncoding(a, ra) && IsEncoding(b, rb)
    requires a.Keys == b.Keys && forall key <- a.Keys :: BodyOf(a[key]) == BodyOf(b[key])
    ensures ra == rb
  {
    ImageUnique(a, b, ToMap(ra), ToMap(rb), RecordKeyOf, BodyOf);
    RecordsUnique(ra, rb);
  }

  /** Visits the entries in any order a hash map may choose and sorts what it collects. */
  method WriteRecords(entries: Entries) returns (records: seq<Record>)
    ensures IsEncoding(entries, records)
  {
    records := [];
    var todo := entries.Keys;
    while todo != {}
      invariant todo <= entries.Keys
      invariant IsEncoding(entries - todo, records)
      decreases |todo|
    {
      var key :| key in todo;
      EncodingGrows(entries, todo, records, key);
      records := Insert(records, RecordKeyOf(key), BodyOf(entries[key]), RecordLess);
      todo := todo - {key};
    }
    assert entries - {} == entries;
  }

  lemma EncodingGrows(entries: Entries, todo: set<Key>, records: seq<Record>, key: Key)
    requires todo <= entries.Keys && key in todo && IsEncoding(entries - todo, records)
    ensures IsEncoding(entries - (todo - {key}),
                       Insert(records, RecordKeyOf(key), BodyOf(entries[key]), RecordLess))
  {
    RecordKeyOfInjective();
    RecordsInsert(records, RecordKeyOf(key), BodyOf(entries[key]));
    ImageGrows(entries - todo, ToMap(records), RecordKeyOf, BodyOf, key, entries[key]);
    assert entries - (todo - {key}) == (entries - todo)[key := entries[key]];
  }

  // Reading

  function TagsOf(tags: TagTree): seq<Tag> {
    seq(|tags|, i requires 0 <= i < |tags| => Tag(tags[i].0, Unchanged, tags[i].1))
  }

  function StoredAnnotation(body: RecordBody): Annotation {
    Annotation(
      if body.labelText.Some? then Unchanged else Reset, body.labelText,
      if body.description.Some? then Unchanged else Reset, body.description,
      if body.tags != [] then Unchanged else Reset, TagsOf(body.tags))
  }

  lemma {:induction false} TagsOfMeaning(tags: TagTree)
    requires Sorted(tags, StringLess)
    ensures TagMap(TagsOf(tags)) == ToMap(tags)
    ensures DistinctKeys(TagsOf(tags))
  {
    StringLessIsOrder();
    var listed := TagsOf(tags);
    assert DistinctKeys(listed);
    TagMapKeys(listed);
    ToMapKeys(tags);
    forall key
      ensures key in TagMap(listed) <==> key in ToMap(tags)
      ensures key in ToMap(tags) ==> TagMap(listed)[key] == ToMap(tags)[key]
    {
      if key in TagMap(listed) {
        var i :| 0 <= i < |listed| && listed[i].key == key;
        assert tags[i].0 == key;
      }
      if key in ToMap(tags) {
        var i :| 0 <= i < |tags| && tags[i].0 == key;
        assert listed[i].key == key;
        TagMapValues(listed, i);
        ToMapAt(tags, i, StringLess);
      }
    }
    assert TagMap(listed).Keys == ToMap(tags).Keys;
  }

  /** Reading a record and writing it again gives the record back. */
  lemma StoredAnnotationMeaning(body: RecordBody)
    requires Sorted(body.tags, StringLess)
    ensures SubscriptionForm(StoredAnnotation(body)) && DistinctKeys(StoredAnnotation(body).tags)
    ensures View(StoredAnnotation(body)) == RecordView(body)
    ensures BodyOf(StoredAnnotation(body)) == body
  {
    TagsOfMeaning(body.tags);
    CollectTagsMeaning(TagsOf(body.tags));
    StringLessIsOrder();
    SortedUnique(CollectTags(TagsOf(body.tags)), body.tags, StringLess);
  }

  predicate HasReadOnlyTag(tags: TagTree) {
    exists i :: 0 <= i < |tags| && ReadOnlyTag(tags[i].0)
  }

  function ReadRecord(entries: Entries, record: Record): ReadResult {
    var key := KeyOf(record.0);
    if key.None? then Rejected(UnknownResourceType)
    else if HasReadOnlyTag(record.1.tags) then Rejected(ReadOnlyTagKey)
    else if key.value in entries then Rejected(DuplicateAnnotation)
    else Loaded(entries[key.value := StoredAnnotation(record.1)])
  }

  /** The records read so far, stopping at the first bad one. */
  function ReadRecords(records: seq<Record>): ReadResult {
    if records == [] then Loaded(map[])
    else
      var front := ReadRecords(records[..|records| - 1]);
      if front.Rejected? then front else ReadRecord(front.entries, records[|records| - 1])
  }

  method ReadCheckpoint(file: Option<CheckpointFile>) returns (result: ReadResult)
    ensures file.None? ==> result == Loaded(map[])
    ensures file.Some? && file.value.version != CHECKPOINT_VERSION ==> result == Rejected(UnsupportedVersion)
    ensures file.Some? && file.value.version == CHECKPOINT_VERSION ==>
              result == ReadRecords(file.value.annotations)
  {
    if file.None? {
      return Loaded(map[]);
    }
    if file.value.version != CHECKPOINT_VERSION {
      return Rejected(UnsupportedVersion);
    }
    var records := file.value.annotations;
    var entries: Entries := map[];
    for i := 0 to |records|
      invariant ReadRecords(records[..i]) == Loaded(entries)
    {
      var record := records[i];
      assert records[..i + 1][..i] == records[..i];
      result := ReadRecord(entries, record);
      if result.Rejected? {
        RejectionStays(records, i + 1);
        return;
      }
      entries := result.entries;
    }
    assert records[..|records|] == records;
    return Loaded(entries);
  }

  /** Once a record is rejected, later records do not change the answer. */
  lemma {:induction false} RejectionStays(records: seq<Record>, n: nat)
    requires n <= |records| && ReadRecords(records[..n]).Rejected?
    ensures ReadRecords(records) == ReadRecords(records[..n])
    decreases |records|
  {
    if n == |records| {
      assert records[..n] == records;
    } else {
      var front := records[..|records| - 1];
      assert front[..n] == records[..n];
      RejectionStays(front, n);
    }
  }

  ghost predicate Readable(records: seq<Record>) {
    && (forall i :: 0 <= i < |records| ==> KeyOf(records[i].0).Some? && !HasReadOnlyTag(records[i].1.tags))
    && (forall i, j :: 0 <= i < j < |records| ==> records[i].0 != records[j].0)
  }

  /** Every record of an accepted file is in the store. */
  lemma {:induction false} ReadRecordAt(records: seq<Record>, i: nat)
    requires ReadRecords(records).Loaded? && i < |records|
    ensures
      var key := KeyOf(records[i].0);
      && key.Some? && !HasReadOnlyTag(records[i].1.tags)
      && key.value in ReadRecords(records).entries
      && ReadRecords(records).entries[key.value] == StoredAnnotation(records[i].1)
  {
    if i < |records| - 1 {
      var front := records[..|records| - 1];
      assert front[i] == records[i];
      ReadRecordAt(front, i);
    }
  }

  /** Every entry of the store comes from a record. */
  lemma {:induction false} ReadRecordFrom(records: seq<Record>, key: Key) returns (i: nat)
    requires ReadRecords(records).Loaded? && key in ReadRecords(records).entries
    ensures i < |records| && records[i].0 == RecordKeyOf(key)
  {
    var n := |records| - 1;
    if key in ReadRecords(records[..n]).entries {
      i := ReadRecordFrom(records[..n], key);
    } else {
      i := n;
      KeyOfInverts(key, records[n].0);
    }
  }

  lemma {:induction false} ReadRecordsDistinct(records: seq<Record>, i: nat, j: nat)
    requires ReadRecords(records).Loaded? && i < j < |records|
    ensures records[i].0 != records[j].0
  {
    var front := records[..|records| - 1];
    assert front[i] == records[i];
    if j < |records| - 1 {
      assert front[j] == records[j];
      ReadRecordsDistinct(front, i, j);
    } else {
      ReadRecordAt(front, i);
    }
  }

  lemma {:induction false} ReadableIsRead(records: seq<Record>)
    requires Readable(records)
    ensures ReadRecords(records).Loaded?
  {
    if records != [] {
      var n := |records| - 1;
      var front := records[..n];
      assert Readable(front);
      ReadableIsRead(front);
      var key := KeyOf(records[n].0).value;
      KeyOfInverts(key, records[n].0);
      if key in ReadRecords(front).entries {
        var i := ReadRecordFrom(front, key);
      }
    }
  }

  /**
   A file is accepted exactly when every record names a known type, no tag is
   read-only and no key is repeated.
   */
  lemma ReadRecordsMeaning(records: seq<Record>)
    ensures ReadRecords(records).Loaded? <==> Readable(records)
  {
    if Readable(records) {
      ReadableIsRead(records);
    }
    if ReadRecords(records).Loaded? {
      forall i | 0 <= i < |records|
        ensures KeyOf(records[i].0).Some? && !HasReadOnlyTag(records[i].1.tags)
      {
        ReadRecordAt(records, i);
      }
      forall i, j | 0 <= i < j < |records|
        ensures records[i].0 != records[j].0
      {
        ReadRecordsDistinct(records, i, j);
      }
    }
  }

  // Round trip

  ghost predicate AllWritable(entries: Entries) {
    forall key <- entries.Keys :: Writable(View(entries[key]).tags)
  }

  ghost predicate SameMeaning(a: Entries, b: Entries) {
    a.Keys == b.Keys && forall key <- a.Keys :: View(a[key]) == View(b[key])
  }

  lemma ReadOnlyTagMeaning(tags: TagTree)
    ensures HasReadOnlyTag(tags) <==> !Writable(ToMap(tags))
  {
    ToMapKeys(tags);
    if HasReadOnlyTag(tags) {
      var i :| 0 <= i < |tags| && ReadOnlyTag(tags[i].0);
      assert tags[i].0 in ToMap(tags);
    }
  }

  /** The record written for an entry. */
  lemma RecordAt(entries: Entries, records: seq<Record>, key: Key) returns (i: nat)
    requires IsEncoding(entries, records) && key in entries
    ensures i < |records| && records[i] == (RecordKeyOf(key), BodyOf(entries[key]))
  {
    ToMapKeys(records);
    var recordKey := RecordKeyOf(key);
    assert recordKey in ToMap(records);
    i :| 0 <= i < |records| && records[i].0 == recordKey;
    RecordsAt(records, i);
  }

  /** The entry a record was written for. */
  lemma EntryAt(entries: Entries, records: seq<Record>, i: nat) returns (key: Key)
    requires IsEncoding(entries, records) && i < |records|
    ensures key in entries && records[i] == (RecordKeyOf(key), BodyOf(entries[key]))
    ensures KeyOf(records[i].0) == Some(key)
  {
    RecordsAt(records, i);
    key :| key in entries && RecordKeyOf(key) == records[i].0;
    KeyOfInverts(key, records[i].0);
  }

  lemma WrittenTags(annotation: Annotation)
    ensures HasReadOnlyTag(BodyOf(annotation).tags) <==> !Writable(View(annotation).tags)
  {
    BodyOfMeaning(annotation);
    ReadOnlyTagMeaning(BodyOf(annotation).tags);
  }

  /** What is written can be read back exactly when no stored tag is read-only. */
  lemma ReadableIffWritable(entries: Entries, records: seq<Record>)
    requires IsEncoding(entries, records)
    ensures Readable(records) <==> AllWritable(entries)
  {
    RecordsDistinct(records);
    if AllWritable(entries) {
      forall i | 0 <= i < |records|
        ensures KeyOf(records[i].0).Some? && !HasReadOnlyTag(records[i].1.tags)
      {
        var key := EntryAt(entries, records, i);
        WrittenTags(entries[key]);
      }
    }
    if Readable(records) {
      forall key | key in entries
        ensures Writable(View(entries[key]).tags)
      {
        var i := RecordAt(entries, records, key);
        WrittenTags(entries[key]);
      }
    }
  }

  /** The entry read back for a key is the one its written record stands for. */
  lemma ReadBack(entries: Entries, records: seq<Record>, key: Key)
    requires IsEncoding(entries, records) && ReadRecords(records).Loaded? && key in entries
    ensures
      var read := ReadRecords(records).entries;
      && key in read && read[key] == StoredAnnotation(BodyOf(entries[key]))
      && SubscriptionForm(read[key]) && View(read[key]) == View(entries[key])
      && BodyOf(read[key]) == BodyOf(entries[key])
  {
    var i := RecordAt(entries, records, key);
    ReadRecordAt(records, i);
    KeyOfInverts(key, records[i].0);
    BodyOfMeaning(entries[key]);
    StoredAnnotationMeaning(BodyOf(entries[key]));
  }

  /**
   Round trip: reading what was written succeeds exactly when no stored tag key is
   read-only, gives back every key with the same label, description and tags, and
   writing that again gives the same record sequence.
   */
  lemma RoundTrip(entries: Entries, records: seq<Record>)
    requires IsEncoding(entries, records)
    ensures ReadRecords(records).Loaded? <==> AllWritable(entries)
    ensures AllWritable(entries) ==>
      var read := ReadRecords(records).entries;
      SameMeaning(entries, read) && WellFormed(read) && IsEncoding(read, records)
  {
    ReadableIffWritable(entries, records);
    ReadRecordsMeaning(records);
    if AllWritable(entries) {
      var read := ReadRecords(records).entries;
      forall key | key in read
        ensures key in entries
      {
        var i := ReadRecordFrom(records, key);
        var from := EntryAt(entries, records, i);
        KeyOfInverts(key, records[i].0);
      }
      forall key | key in entries
        ensures key in read && SubscriptionForm(read[key]) && View(read[key]) == View(entries[key])
        ensures BodyOf(read[key]) == BodyOf(entries[key])
      {
        ReadBack(entries, records, key);
      }
      assert read.Keys == entries.Keys;
      SameImage(entries, read, records);
    }
  }

  lemma SameImage(a: Entries, b: Entries, records: seq<Record>)
    requires IsEncoding(a, records) && a.Keys == b.Keys
    requires forall key <- a.Keys :: BodyOf(a[key]) == BodyOf(b[key])
    ensures IsEncoding(b, records)
  {
    forall r | r in ToMap(records)
      ensures exists key :: key in b && RecordKeyOf(key) == r
    {
      var key :| key in a && RecordKeyOf(key) == r;
      assert key in b;
    }
  }
}
