/**
 The checkpoint protocol with the real store and the real codec: what a restarted
 daemon finds after a stop at any point.
 */
module CheckpointRecovery {
  import opened Types
  import opened Annotations
  import opened AnnotationStore
  import opened SortedAssoc
  import opened Checkpoint
  import opened CheckpointWriter
  import opened CheckpointProgress

  type StoreState = State<Entries, seq<Record>>
  type StoreStep = Step<Entries, seq<Record>>

  /** A map the daemon accepts at startup. */
  ghost predicate Acceptable(entries: Entries, limit: nat) {
    WellFormed(entries) && AllWritable(entries) && |entries| <= limit
  }

  /** The library's callback never reports a read-only tag. */
  predicate ReportsWritable(annotation: Annotation) {
    annotation.tagsUpdate == Set ==> Writable(TagMap(annotation.tags))
  }

  ghost predicate Changes(limit: nat, before: Entries, after: Entries) {
    exists key: Key, annotation: Annotation ::
      ReportsWritable(annotation) && Applied(before, limit, key, annotation) == Some(after)
  }

  ghost function StoreEnv(limit: nat): Env<Entries, seq<Record>> {
    Env((before, after) => Changes(limit, before, after), (entries, records) => IsEncoding(entries, records))
  }

  lemma AcceptableStep(limit: nat, before: Entries, after: Entries)
    requires Acceptable(before, limit) && Changes(limit, before, after)
    ensures Acceptable(after, limit)
    ensures NoBlankEntry(before) ==> NoBlankEntry(after)
  {
    var key: Key, annotation: Annotation :|
      ReportsWritable(annotation) && Applied(before, limit, key, annotation) == Some(after);
    AppliedMeaning(before, limit, key, annotation);
    forall other | other in after
      ensures Writable(View(after[other]).tags)
    {
      if other != key {
        assert OverlayOf(after, other) == OverlayOf(before, other);
      } else {
        assert Writable(OverlayOf(before, key).tags);
        assert OverlayOf(after, key) == MergeOverlay(OverlayOf(before, key), annotation);
      }
    }
  }

  lemma HistoryAcceptable(limit: nat, run: seq<StoreState>, steps: seq<StoreStep>, i: nat, at: nat)
    requires IsRun(StoreEnv(limit), run, steps) && i < |run| && at < |run[i].history|
    requires Acceptable(run[0].history[0], limit)
    ensures Acceptable(run[i].history[at], limit)
  {
    var good := entries => Acceptable(entries, limit);
    forall before, after | good(before) && StoreEnv(limit).changes(before, after)
      ensures good(after)
    {
      AcceptableStep(limit, before, after);
    }
    HistoryKeeps(StoreEnv(limit), good, run, steps, i, at);
  }

  /** From a store without blank entries none ever appears: a cleared entry is gone, not kept empty. */
  lemma NeverBlank(limit: nat, run: seq<StoreState>, steps: seq<StoreStep>, i: nat, at: nat)
    requires IsRun(StoreEnv(limit), run, steps) && i < |run| && at < |run[i].history|
    requires Acceptable(run[0].history[0], limit) && NoBlankEntry(run[0].history[0])
    ensures NoBlankEntry(run[i].history[at])
  {
    var good := entries => Acceptable(entries, limit) && NoBlankEntry(entries);
    forall before, after | good(before) && StoreEnv(limit).changes(before, after)
      ensures good(after)
    {
      AcceptableStep(limit, before, after);
    }
    HistoryKeeps(StoreEnv(limit), good, run, steps, i, at);
  }

  /** The protocol's starting point for a daemon that has just opened its checkpoint. */
  ghost function Opened(entries: Entries, file: File<seq<Record>>): StoreState {
    State([entries], 0, [], false, Waiting, file, Absent, 0, 0, true, [], map[])
  }

  /**
   Recovery: stop the process anywhere in any run and open the checkpoint again. The
   file is accepted, gives back a map the store held, and the write that opening
   makes leaves the same records, so the new run starts where the old one's file was.
   */
  lemma CrashThenReopen(limit: nat, run: seq<StoreState>, steps: seq<StoreStep>, i: nat)
    returns (read: Entries)
    requires IsRun(StoreEnv(limit), run, steps) && i < |run|
    requires Acceptable(run[0].history[0], limit)
    ensures run[i].file.Whole? && ReadRecords(run[i].file.content) == Loaded(read)
    ensures exists at :: 0 <= at < |run[i].history| && SameMeaning(run[i].history[at], read)
    ensures Acceptable(read, limit)
    ensures Init(StoreEnv(limit), Opened(read, run[i].file))
  {
    var at := FileHolds(StoreEnv(limit), run, steps, i);
    HistoryAcceptable(limit, run, steps, i, at);
    read := Reopened(run[i].history[at], run[i].file, limit);
    assert SameMeaning(run[i].history[at], read);
  }

  lemma Reopened(held: Entries, file: File<seq<Record>>, limit: nat) returns (read: Entries)
    requires Acceptable(held, limit) && file.Whole? && StoreEnv(limit).encodes(held, file.content)
    ensures ReadRecords(file.content) == Loaded(read) && SameMeaning(held, read) && Acceptable(read, limit)
    ensures Init(StoreEnv(limit), Opened(read, file))
  {
    ReadAcceptable(held, file.content, limit);
    read := ReadRecords(file.content).entries;
  }

  lemma ReadAcceptable(held: Entries, records: seq<Record>, limit: nat)
    requires Acceptable(held, limit) && IsEncoding(held, records)
    ensures
      var result := ReadRecords(records);
      && result.Loaded? && SameMeaning(held, result.entries) && Acceptable(result.entries, limit)
      && Init(StoreEnv(limit), Opened(result.entries, Whole(records)))
  {
    RoundTrip(held, records);
    var read := ReadRecords(records).entries;
    assert |read.Keys| == |held.Keys|;
    assert forall key <- read.Keys :: View(read[key]) == View(held[key]);
  }

  // Every map can be written

  lemma {:induction false} EncodingOf(entries: Entries) returns (records: seq<Record>)
    ensures IsEncoding(entries, records)
    decreases |entries|
  {
    if entries == map[] {
      return [];
    }
    var key :| key in entries;
    SizeWithout(entries, key);
    records := EncodingOf(entries - {key});
    EncodingGrows(entries, {key}, records, key);
    assert entries - ({key} - {key}) == entries;
    records := Insert(records, RecordKeyOf(key), BodyOf(entries[key]), RecordLess);
  }

  lemma SizeWithout<K, V>(m: map<K, V>, key: K)
    requires key in m
    ensures |m - {key}| < |m|
  {
    assert (m - {key}).Keys == m.Keys - {key};
  }

  lemma StoreEncodable(limit: nat)
    ensures Encodable(StoreEnv(limit))
  {
    forall entries: Entries
      ensures HasEncoding(StoreEnv(limit), entries)
    {
      var records := EncodingOf(entries);
      assert StoreEnv(limit).encodes(entries, records);
    }
  }

  /**
   The real store catches up: at any point of any run the newest map can still reach the file,
   without another call on the store, exactly when a write is due or the file has it.
   */
  lemma StoreCatchesUpIff(limit: nat, run: seq<StoreState>, steps: seq<StoreStep>, i: nat)
    requires IsRun(StoreEnv(limit), run, steps) && i < |run|
    ensures CanCatchUp(StoreEnv(limit), run[i]) <==> Due(run[i]) || UpToDate(StoreEnv(limit), run[i])
  {
    StoreEncodable(limit);
    CatchesUpIff(StoreEnv(limit), run, steps, i);
  }

  // Startup

  datatype OnDisk = Missing | Unreadable | Parsed(file: CheckpointFile)

  datatype Opening = Serving(entries: Entries, records: seq<Record>) | Refused

  /** Parsed tags are a BTreeMap. */
  ghost predicate TagTreesSorted(file: CheckpointFile) {
    forall i :: 0 <= i < |file.annotations| ==> Sorted(file.annotations[i].1.tags, StringLess)
  }

  /** What a hand-written file must be for the daemon to start from it. */
  ghost predicate Usable(disk: OnDisk, limit: nat) {
    match disk
    case Missing => true
    case Unreadable => false
    case Parsed(file) =>
      file.version == CHECKPOINT_VERSION && Readable(file.annotations) && |file.annotations| <= limit
  }

  lemma {:induction false} ReadCount(records: seq<Record>)
    requires ReadRecords(records).Loaded?
    ensures |ReadRecords(records).entries| == |records|
  {
    if records != [] {
      ReadCount(records[..|records| - 1]);
    }
  }

  /** Every file that is read gives a well-formed store, though a hand-written record may say nothing. */
  lemma ReadIsAcceptable(file: CheckpointFile)
    requires TagTreesSorted(file) && ReadRecords(file.annotations).Loaded?
    ensures Acceptable(ReadRecords(file.annotations).entries, |file.annotations|)
  {
    var records := file.annotations;
    var read := ReadRecords(records).entries;
    ReadCount(records);
    forall key | key in read
      ensures SubscriptionForm(read[key]) && Writable(View(read[key]).tags)
    {
      var i := ReadRecordFrom(records, key);
      ReadRecordAt(records, i);
      KeyOfInverts(key, records[i].0);
      StoredAnnotationMeaning(records[i].1);
      ReadOnlyTagMeaning(records[i].1.tags);
    }
  }

  /**
   Startup: the daemon serves exactly when the file is absent or usable and can be replaced,
   and then the file encodes what it serves, which is where every run starts.
   */
  method WithFile(disk: OnDisk, limit: nat, writeOk: bool, threadOk: bool) returns (opening: Opening)
    requires disk.Parsed? ==> TagTreesSorted(disk.file)
    ensures opening.Serving? <==> Usable(disk, limit) && writeOk && threadOk
    ensures opening.Serving? ==>
      && Acceptable(opening.entries, limit)
      && Init(StoreEnv(limit), Opened(opening.entries, Whole(opening.records)))
    ensures opening.Serving? && disk.Missing? ==> opening.entries == map[]
    ensures opening.Serving? && disk.Parsed? ==> Loaded(opening.entries) == ReadRecords(disk.file.annotations)
  {
    if disk.Unreadable? {
      return Refused;
    }
    var read := ReadCheckpoint(if disk.Parsed? then Some(disk.file) else None);
    if disk.Parsed? {
      ReadRecordsMeaning(disk.file.annotations);
    }
    if read.Rejected? {
      return Refused;
    }
    if disk.Parsed? {
      ReadCount(disk.file.annotations);
      ReadIsAcceptable(disk.file);
    }
    if |read.entries| > limit {
      return Refused;
    }
    var records := WriteRecords(read.entries);
    if !writeOk || !threadOk {
      return Refused;
    }
    return Serving(read.entries, records);
  }
}
