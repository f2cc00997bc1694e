/**
 The daemon's annotation store beside the library's resources. The store is
 updated from the library's callback before the resource is, and a new resource
 starts from what the store remembers for it.
 */
module Agreement {
  import opened Types
  import opened Annotations
  import opened AnnotationStore
  import opened AnnotationPatch

  datatype World = World(
    entries: Entries,
    limit: nat,
    resources: map<Key, Resource>,
    defaults: map<Key, Defaults>)

  /** A resource as first built: its read-only tags and the values it shows when nothing overrides them. */
  ghost predicate Built(resource: Resource) {
    WritablePart(resource.tags) == map[]
  }

  function DefaultsOf(resource: Resource): Defaults {
    Defaults(resource.labelText, resource.description)
  }

  // The form in which the daemon hands a stored annotation to the library

  function CUpdate(update: Update): int {
    match update
    case Unchanged => UPDATE_UNCHANGED
    case Set => UPDATE_SET
    case Reset => UPDATE_RESET
  }

  function CValues(values: seq<string>): Array<Option<string>> {
    Items(seq(|values|, i requires 0 <= i < |values| => Some(values[i])))
  }

  function CTagOf(tag: Tag): CTag {
    CTag(Some(tag.key), CUpdate(tag.valuesUpdate), CValues(tag.values))
  }

  function CTags(tags: seq<Tag>): seq<CTag> {
    seq(|tags|, i requires 0 <= i < |tags| => CTagOf(tags[i]))
  }

  function ToC(annotation: Annotation): CAnnotation {
    CAnnotation(CUpdate(annotation.labelUpdate), annotation.labelText,
                CUpdate(annotation.descriptionUpdate), annotation.description,
                CUpdate(annotation.tagsUpdate), Items(CTags(annotation.tags)))
  }

  /** Text with a NUL inside cannot be handed over as a C string. */
  predicate Marshals(annotation: Annotation) {
    && (annotation.labelUpdate == Set && annotation.labelText.Some? ==> Clear(annotation.labelText.value))
    && (annotation.descriptionUpdate == Set && annotation.description.Some? ==> Clear(annotation.description.value))
    && (annotation.tagsUpdate != Reset ==>
          forall tag <- annotation.tags :: Clear(tag.key) && (tag.valuesUpdate != Reset ==> AllClear(tag.values)))
  }

  predicate ClearOverlay(overlay: Overlay) {
    && (overlay.labelText.Some? ==> Clear(overlay.labelText.value))
    && (overlay.description.Some? ==> Clear(overlay.description.value))
    && ClearTags(overlay.tags)
  }

  // Creating from a stored entry

  /** A patch that writes an overlay and clears nothing. */
  function Writing(overlay: Overlay): Patch {
    Patch(if overlay.labelText.Some? then Value(overlay.labelText.value) else Absent,
          if overlay.description.Some? then Value(overlay.description.value) else Absent,
          if overlay.tags != map[] then Value(map key | key in overlay.tags :: Some(overlay.tags[key])) else Absent)
  }

  /** A list of writable tags, all written, is acceptable exactly when no key is empty. */
  lemma {:induction false} WrittenTags(tags: seq<Tag>)
    requires DistinctKeys(tags) && Writable(TagMap(tags))
    requires forall tag <- tags :: tag.valuesUpdate == Set
    ensures TagsOk(CTags(tags)) <==> "" !in TagMap(tags)
  {
    TagMapKeys(tags);
    var ctags := CTags(tags);
    forall i | 0 <= i < |tags|
      ensures TagOk(ctags[i]) <==> tags[i].key != ""
    {
      assert tags[i].key in TagMap(tags);
    }
    if "" in TagMap(tags) {
      var i :| 0 <= i < |tags| && tags[i].key == "";
      assert !TagOk(ctags[i]);
    } else {
      forall i | 0 <= i < |tags|
        ensures TagOk(ctags[i])
      {
        assert tags[i].key in TagMap(tags);
      }
    }
  }

  lemma {:induction false} WrittenTagPatch(tags: seq<Tag>)
    requires forall tag <- tags :: tag.valuesUpdate == Set
    requires forall i :: 0 <= i < |tags| ==> TagOk(CTags(tags)[i])
    ensures TagPatchOf(CTags(tags)) == map key | key in TagMap(tags) :: Some(TagMap(tags)[key])
  {
    if tags != [] {
      var front := tags[..|tags| - 1];
      var last := tags[|tags| - 1];
      assert CTags(tags)[..|tags| - 1] == CTags(front);
      assert forall i :: 0 <= i < |front| ==> CTags(front)[i] == CTags(tags)[i];
      assert TagOk(CTags(tags)[|tags| - 1]);
      WrittenTagPatch(front);
      assert ValuesOf(CValues(last.values)) == last.values;
    }
  }

  /** What an entry of the store must be for the library to be asked about it. */
  ghost predicate Storable(stored: Annotation) {
    SubscriptionForm(stored) && DistinctKeys(stored.tags) && Writable(View(stored).tags)
  }

  /** A stored entry can be handed over exactly when its text is clear. */
  lemma StoredMarshals(stored: Annotation)
    requires SubscriptionForm(stored) && DistinctKeys(stored.tags)
    ensures Marshals(AnnotationAtCreate(stored)) <==> ClearOverlay(View(stored))
  {
    var tags, created := TagMap(stored.tags), AnnotationAtCreate(stored);
    TagMapKeys(stored.tags);
    forall i | 0 <= i < |stored.tags|
      ensures stored.tags[i].key in tags && tags[stored.tags[i].key] == stored.tags[i].values
      ensures created.tags[i] in created.tags
    {
      TagMapValues(stored.tags, i);
    }
  }

  /**
   Creating a resource from its stored entry is refused exactly when the entry holds
   a tag with an empty key; otherwise the patch writes the overlay as it was stored.
   */
  lemma CreateFromStored(stored: Annotation)
    requires Storable(stored)
    ensures
      var c := ToC(AnnotationAtCreate(stored));
      && (PatchOk(c) <==> "" !in View(stored).tags)
      && (PatchOk(c) ==> PatchOf(c) == Writing(View(stored)) && !HasReset(PatchOf(c)))
  {
    if stored.tags != [] {
      CreatedTagPatch(stored);
    }
  }

  lemma CreatedTagPatch(stored: Annotation)
    requires Storable(stored) && stored.tags != []
    ensures
      var tags, written := AnnotationAtCreate(stored).tags, TagMap(stored.tags);
      && written != map[]
      && (TagsOk(CTags(tags)) <==> "" !in written)
      && (TagsOk(CTags(tags)) ==> TagPatchOf(CTags(tags)) == map key | key in written :: Some(written[key]))
  {
    var tags := AnnotationAtCreate(stored).tags;
    TagMapIgnoresOperations(tags, stored.tags);
    TagMapKeys(stored.tags);
    assert stored.tags[0].key in TagMap(stored.tags);
    assert forall tag <- tags :: tag.valuesUpdate == Set;
    WrittenTags(tags);
    if "" !in TagMap(stored.tags) {
      WrittenTagPatch(tags);
    }
  }

  // Steps

  datatype Step =
    | UpdateAnnotation(key: Key, patch: Patch, report: Annotation)
    | RemoveResource(key: Key)
    | AddResource(key: Key, built: Resource)

  /** The patch a resource is created with, or a refusal. */
  function CreatePatch(entries: Entries, key: Key): Outcome<Patch> {
    if key !in entries then Accepted(EMPTY_PATCH)
    else
      var created := AnnotationAtCreate(entries[key]);
      var c := ToC(created);
      if Marshals(created) && PatchOk(c) && !HasReset(PatchOf(c)) then Accepted(PatchOf(c)) else Thrown
  }

  /** An update of a live resource: merge, report, store, and only then change the resource. */
  function Updated(w: World, key: Key, patch: Patch, report: Annotation): World {
    if key !in w.resources || key !in w.defaults || patch == EMPTY_PATCH then w
    else
      var merged := MergePatch(w.resources[key], patch, w.defaults[key]);
      if merged.Thrown? then w
      else
        var stored := Applied(w.entries, w.limit, key, report);
        if stored.None? then w
        else w.(entries := stored.value, resources := w.resources[key := merged.value])
  }

  /** An add records the defaults before it finds that the resource already exists. */
  function Added(w: World, key: Key, built: Resource): World {
    var patch := CreatePatch(w.entries, key);
    if patch.Thrown? then w
    else
      var merged := MergePatch(built, patch.value, DefaultsOf(built));
      if merged.Thrown? then w.(defaults := w.defaults[key := DefaultsOf(built)])
      else
        w.(defaults := w.defaults[key := DefaultsOf(built)],
           resources := if key in w.resources then w.resources else w.resources[key := merged.value])
  }

  function Removed(w: World, key: Key): World {
    if key !in w.resources then w
    else w.(resources := w.resources - {key}, defaults := w.defaults - {key})
  }

  ghost predicate Taken(w: World, step: Step, w': World) {
    match step
    case UpdateAnnotation(key, patch, report) =>
      && (key in w.resources && key in w.defaults
          && MergePatch(w.resources[key], patch, w.defaults[key]).Accepted? ==>
            Reported(MergePatch(w.resources[key], patch, w.defaults[key]).value, patch, report))
      && w' == Updated(w, key, patch, report)
    case RemoveResource(key) => w' == Removed(w, key)
    case AddResource(key, built) => Built(built) && w' == Added(w, key, built)
  }

  // Agreement

  function Effective(overlay: Option<string>, default: string): string {
    if overlay.Some? then overlay.value else default
  }

  /** The resource shows what the store says, and its defaults where the store says nothing. */
  ghost predicate Shows(resource: Resource, defaults: Defaults, overlay: Overlay) {
    && resource.labelText == Effective(overlay.labelText, defaults.labelText)
    && resource.description == Effective(overlay.description, defaults.description)
    && WritablePart(resource.tags) == overlay.tags
  }

  ghost predicate StoreOk(entries: Entries) {
    forall key <- entries.Keys :: Storable(entries[key])
  }

  ghost predicate Agree(w: World) {
    && StoreOk(w.entries) && w.defaults.Keys == w.resources.Keys
    && (forall key <- w.resources.Keys ::
          && Shows(w.resources[key], w.defaults[key], OverlayOf(w.entries, key))
          && ClearOverlay(OverlayOf(w.entries, key)))
  }

  /** A patch that writes no text with a NUL inside. */
  predicate ClearPatch(patch: Patch) {
    && (patch.labelText.Value? ==> Clear(patch.labelText.value))
    && (patch.description.Value? ==> Clear(patch.description.value))
    && (patch.tags.Value? ==>
          forall key <- patch.tags.value.Keys ::
            patch.tags.value[key].Some? ==> Clear(key) && AllClear(patch.tags.value[key].value))
  }

  lemma StoreOkWellFormed(entries: Entries)
    requires StoreOk(entries)
    ensures WellFormed(entries)
  {
  }

  /** What a clear patch leaves of clear writable tags is clear; a patch that is not clear shows in the tags. */
  lemma MergedTagsClear(tags: TagValues, patch: TagPatch)
    requires ClearTags(WritablePart(tags)) && forall key <- patch.Keys :: !ReadOnlyTag(key)
    ensures ClearTags(WritablePart(MergeTags(tags, patch))) <==>
      forall key <- patch.Keys :: patch[key].Some? ==> Clear(key) && AllClear(patch[key].value)
  {
    var merged := MergeTags(tags, patch);
    forall key | key in WritablePart(merged) && key !in patch
      ensures Clear(key) && AllClear(merged[key])
    {
      assert key in WritablePart(tags);
    }
    assert forall key <- patch.Keys :: patch[key].Some? ==>
      key in WritablePart(merged) && WritablePart(merged)[key] == patch[key].value;
  }

  /** The reported tags, stored, are those of the merged resource exactly when the patch's are clear. */
  lemma MergedTagsShow(current: Resource, defaults: Defaults, tags: TagPatch, patch: Patch, report: Annotation)
    requires patch.tags == Value(tags) && ClearTags(WritablePart(current.tags))
    requires MergePatch(current, patch, defaults).Accepted?
    requires Reported(MergePatch(current, patch, defaults).value, patch, report)
    ensures WritablePart(MergePatch(current, patch, defaults).value.tags) == TagMap(report.tags) <==>
      forall key <- tags.Keys :: tags[key].Some? ==> Clear(key) && AllClear(tags[key].value)
  {
    var merged := MergePatch(current, patch, defaults).value;
    MergedTagsClear(current.tags, tags);
    ReportedTags(merged, patch, report);
    if ClearTags(WritablePart(merged.tags)) {
      ReportedClearTags(merged, patch, report);
    }
  }

  /** A report of a merge, stored, describes the merged resource exactly when the patch is clear. */
  lemma MergedShows(current: Resource, defaults: Defaults, overlay: Overlay, patch: Patch, report: Annotation)
    requires Shows(current, defaults, overlay) && ClearOverlay(overlay)
    requires MergePatch(current, patch, defaults).Accepted?
    requires Reported(MergePatch(current, patch, defaults).value, patch, report)
    ensures ClearOverlay(MergeOverlay(overlay, report))
    ensures Shows(MergePatch(current, patch, defaults).value, defaults, MergeOverlay(overlay, report)) <==> ClearPatch(patch)
  {
    var merged := MergePatch(current, patch, defaults).value;
    MemberShows(current.labelText, patch.labelText, defaults.labelText, overlay.labelText);
    MemberShows(current.description, patch.description, defaults.description, overlay.description);
    ReportedTags(merged, patch, report);
    match patch.tags
    case Null => assert WritablePart(ReadOnlyPart(current.tags)) == map[];
    case Value(tags) => MergedTagsShow(current, defaults, tags, patch, report);
    case Absent =>
  }

  /** One member: shown as it was merged and stored as it was cut. */
  lemma MemberShows(current: string, member: Field<string>, default: string, overlay: Option<string>)
    requires current == Effective(overlay, default) && (overlay.Some? ==> Clear(overlay.value))
    ensures
      var merged := MergeMember(current, member, default);
      var stored := Merge(OperationOf(member), overlay, Some(Cut(merged)), None);
      && (stored.Some? ==> Clear(stored.value))
      && (merged == Effective(stored, default) <==> (member.Value? ==> Clear(member.value)))
  {
    CutMeaning(MergeMember(current, member, default));
  }

  /** An update that reports distinct writable tags keeps every stored entry storable. */
  lemma AppliedStoreOk(entries: Entries, limit: nat, key: Key, report: Annotation)
    requires StoreOk(entries) && DistinctKeys(report.tags) && Writable(TagMap(report.tags))
    requires Applied(entries, limit, key, report).Some?
    ensures StoreOk(Applied(entries, limit, key, report).value)
  {
    var entry := if key in entries then entries[key] else BLANK_ANNOTATION;
    assert Storable(entry);
    var updated := UpdateEntry(entry, report);
    UpdateEntryMeaning(entry, report);
    assert DistinctKeys(updated.tags);
  }

  lemma UpdateTouchesOneEntry(w: World, key: Key, patch: Patch, report: Annotation)
    requires Agree(w)
    ensures SameExceptAt(w.entries, Updated(w, key, patch, report).entries, key)
  {
    StoreOkWellFormed(w.entries);
    AppliedMeaning(w.entries, w.limit, key, report);
  }

  /** What the store does not refuse: nothing to keep, a key it has, or room for one more. */
  predicate Room(w: World, key: Key, report: Annotation) {
    || MergeOverlay(OverlayOf(w.entries, key), report) == BLANK
    || key in w.entries || |w.entries| < w.limit
  }

  /** What a caller can check beforehand: a live resource, something to do, no read-only tag, and room in the store. */
  predicate CarriesOut(w: World, key: Key, patch: Patch, report: Annotation) {
    key in w.resources && patch != EMPTY_PATCH && !PatchesReadOnlyTag(patch) && Room(w, key, report)
  }

  /**
   An update is carried out exactly under those conditions: then the resource becomes the merge
   and the store merges the report, and nothing else changes. Otherwise nothing changes at all.
   */
  lemma UpdateCarriedOut(w: World, key: Key, patch: Patch, report: Annotation)
    requires Agree(w)
    ensures
      var w' := Updated(w, key, patch, report);
      && w'.limit == w.limit && w'.defaults == w.defaults
      && (CarriesOut(w, key, patch, report) ==>
            && w'.resources == w.resources[key := MergePatch(w.resources[key], patch, w.defaults[key]).value]
            && OverlayOf(w'.entries, key) == MergeOverlay(OverlayOf(w.entries, key), report)
            && SameExceptAt(w.entries, w'.entries, key))
      && (!CarriesOut(w, key, patch, report) ==> w' == w)
  {
    StoreOkWellFormed(w.entries);
    AppliedMeaning(w.entries, w.limit, key, report);
  }

  /** An update that is carried out keeps agreement exactly when its patch is clear. */
  lemma UpdateAgrees(w: World, key: Key, patch: Patch, report: Annotation)
    requires Agree(w) && Taken(w, UpdateAnnotation(key, patch, report), Updated(w, key, patch, report))
    requires Updated(w, key, patch, report) != w
    ensures Agree(Updated(w, key, patch, report)) <==> ClearPatch(patch)
  {
    UpdateTouchesOneEntry(w, key, patch, report);
    UpdateShows(w, key, patch, report);
    if ClearPatch(patch) {
      UpdateStoreOk(w, key, patch, report);
      AgreeAtOneKey(w, Updated(w, key, patch, report), key);
    }
  }

  /** A change of one resource and its entry is judged at that resource. */
  lemma AgreeAtOneKey(w: World, w': World, key: Key)
    requires Agree(w) && key in w.resources && w'.defaults == w.defaults && StoreOk(w'.entries)
    requires key in w'.resources && w'.resources == w.resources[key := w'.resources[key]]
    requires SameExceptAt(w.entries, w'.entries, key) && ClearOverlay(OverlayOf(w'.entries, key))
    requires Shows(w'.resources[key], w'.defaults[key], OverlayOf(w'.entries, key))
    ensures Agree(w')
  {
    assert w'.resources.Keys == w.resources.Keys;
  }

  lemma UpdateKeepsAgreement(w: World, key: Key, patch: Patch, report: Annotation)
    requires Agree(w) && Taken(w, UpdateAnnotation(key, patch, report), Updated(w, key, patch, report))
    requires ClearPatch(patch)
    ensures Agree(Updated(w, key, patch, report))
  {
    if Updated(w, key, patch, report) != w {
      UpdateAgrees(w, key, patch, report);
    }
  }

  lemma UpdateStoreOk(w: World, key: Key, patch: Patch, report: Annotation)
    requires Agree(w) && Taken(w, UpdateAnnotation(key, patch, report), Updated(w, key, patch, report))
    requires Updated(w, key, patch, report) != w && ClearPatch(patch)
    ensures StoreOk(Updated(w, key, patch, report).entries)
  {
    var merged := MergePatch(w.resources[key], patch, w.defaults[key]).value;
    ReportedTags(merged, patch, report);
    assert ClearTags(WritablePart(merged.tags)) by {
      if patch.tags.Value? {
        MergedTagsClear(w.resources[key].tags, patch.tags.value);
      } else if patch.tags.Null? {
        assert WritablePart(merged.tags) == map[];
      }
    }
    ReportedClearTags(merged, patch, report);
    AppliedStoreOk(w.entries, w.limit, key, report);
  }

  lemma UpdateShows(w: World, key: Key, patch: Patch, report: Annotation)
    requires Agree(w) && Taken(w, UpdateAnnotation(key, patch, report), Updated(w, key, patch, report))
    requires Updated(w, key, patch, report) != w
    ensures
      var w' := Updated(w, key, patch, report);
      && key in w.resources && w'.defaults == w.defaults
      && key in w'.resources && w'.resources == w.resources[key := w'.resources[key]]
      && key in w'.defaults && ClearOverlay(OverlayOf(w'.entries, key))
      && (Shows(w'.resources[key], w'.defaults[key], OverlayOf(w'.entries, key)) <==> ClearPatch(patch))
  {
    StoreOkWellFormed(w.entries);
    AppliedMeaning(w.entries, w.limit, key, report);
    MergedShows(w.resources[key], w.defaults[key], OverlayOf(w.entries, key), patch, report);
  }

  /** A resource is created exactly when its entry has clear text and no empty tag key; it then writes the entry. */
  lemma CreateAccepted(entries: Entries, key: Key)
    requires StoreOk(entries)
    ensures
      var overlay, patch := OverlayOf(entries, key), CreatePatch(entries, key);
      && (patch.Accepted? <==> ClearOverlay(overlay) && "" !in overlay.tags)
      && (patch.Accepted? ==> patch.value == Writing(overlay))
  {
    if key in entries {
      CreateFromStored(entries[key]);
      StoredMarshals(entries[key]);
    } else {
      assert Writing(BLANK) == EMPTY_PATCH;
    }
  }

  /** A resource created from its stored entry shows that entry over its own defaults. */
  lemma CreatedShows(entries: Entries, key: Key, built: Resource)
    requires StoreOk(entries) && Built(built) && CreatePatch(entries, key).Accepted?
    ensures
      var merged := MergePatch(built, CreatePatch(entries, key).value, DefaultsOf(built));
      && merged.Accepted? && ClearOverlay(OverlayOf(entries, key))
      && Shows(merged.value, DefaultsOf(built), OverlayOf(entries, key))
      && ReadOnlyPart(merged.value.tags) == ReadOnlyPart(built.tags)
  {
    var patch, overlay := CreatePatch(entries, key).value, OverlayOf(entries, key);
    CreateAccepted(entries, key);
    WritingShows(overlay, built);
  }

  lemma WritingShows(overlay: Overlay, built: Resource)
    requires Built(built) && Writable(overlay.tags)
    ensures
      var merged := MergePatch(built, Writing(overlay), DefaultsOf(built));
      && merged.Accepted? && Shows(merged.value, DefaultsOf(built), overlay)
      && ReadOnlyPart(merged.value.tags) == ReadOnlyPart(built.tags)
  {
    assert !PatchesReadOnlyTag(Writing(overlay));
    CreatedTags(built.tags, overlay.tags);
    MergeKeepsReadOnlyTags(built, Writing(overlay), DefaultsOf(built));
  }

  lemma CreatedTags(tags: TagValues, overlay: TagValues)
    requires WritablePart(tags) == map[] && Writable(overlay)
    ensures WritablePart(MergeTags(tags, map key | key in overlay :: Some(overlay[key]))) == overlay
  {
    var merged := MergeTags(tags, map key | key in overlay :: Some(overlay[key]));
    assert forall key <- tags :: !ReadOnlyTag(key) ==> key in WritablePart(tags);
  }

  /**
   An add of a name that is not live succeeds exactly when its entry can be handed over, and then
   shows the entry over the defaults of what was built. No other resource and no entry changes.
   */
  lemma AddCarriedOut(w: World, key: Key, built: Resource)
    requires Agree(w) && Built(built) && key !in w.resources
    ensures
      var w', overlay := Added(w, key, built), OverlayOf(w.entries, key);
      && w'.entries == w.entries && w'.limit == w.limit
      && (key in w'.resources <==> ClearOverlay(overlay) && "" !in overlay.tags)
      && (key !in w'.resources ==> w' == w)
      && (key in w'.resources ==>
            && w'.resources == w.resources[key := w'.resources[key]]
            && w'.defaults == w.defaults[key := DefaultsOf(built)]
            && Shows(w'.resources[key], DefaultsOf(built), overlay)
            && ReadOnlyPart(w'.resources[key].tags) == ReadOnlyPart(built.tags))
  {
    CreateAccepted(w.entries, key);
    if CreatePatch(w.entries, key).Accepted? {
      CreatedShows(w.entries, key, built);
    }
  }

  lemma AddKeepsAgreement(w: World, key: Key, built: Resource)
    requires Agree(w) && Built(built) && key !in w.resources
    ensures Agree(Added(w, key, built))
  {
    if CreatePatch(w.entries, key).Accepted? {
      CreatedShows(w.entries, key, built);
    }
  }

  /** The two steps that can break agreement: adding a name that is live, and writing text with a NUL inside. */
  predicate Disturbs(w: World, step: Step) {
    || (step.AddResource? && step.key in w.resources)
    || (step.UpdateAnnotation? && !ClearPatch(step.patch))
  }

  lemma StepKeepsAgreement(w: World, step: Step, w': World)
    requires Agree(w) && Taken(w, step, w') && !Disturbs(w, step)
    ensures Agree(w')
  {
    match step
    case UpdateAnnotation(key, patch, report) => UpdateKeepsAgreement(w, key, patch, report);
    case RemoveResource(key) =>
    case AddResource(key, built) => AddKeepsAgreement(w, key, built);
  }

  ghost predicate IsRun(run: seq<World>, steps: seq<Step>) {
    && |run| == |steps| + 1
    && forall i :: 0 <= i < |steps| ==> Taken(run[i], steps[i], run[i + 1])
  }

  /**
   Over every run of accepted and refused updates with clear text, removals and adds of
   names that are not live, the store and the library agree about every resource.
   */
  lemma {:induction false} AlwaysAgree(run: seq<World>, steps: seq<Step>, i: nat)
    requires IsRun(run, steps) && Agree(run[0]) && i < |run|
    requires forall j :: 0 <= j < |steps| ==> !Disturbs(run[j], steps[j])
    ensures Agree(run[i])
  {
    if i > 0 {
      AlwaysAgree(run, steps, i - 1);
      StepKeepsAgreement(run[i - 1], steps[i - 1], run[i]);
    }
  }

  /** A report the full store refuses leaves store and library as they were. */
  lemma RefusalChangesNothing(w: World, key: Key, patch: Patch, report: Annotation)
    requires Agree(w)
    requires key !in w.entries && |w.entries| >= w.limit && MergeOverlay(BLANK, report) != BLANK
    ensures Updated(w, key, patch, report) == w
  {
    AppliedMeaning(w.entries, w.limit, key, report);
  }

  /**
   A refused add of a live name still replaces the recorded defaults. Agreement
   survives exactly when each field is either overridden or shows the new default.
   */
  lemma DuplicateAdd(w: World, key: Key, built: Resource)
    requires Agree(w) && Built(built) && key in w.resources && CreatePatch(w.entries, key).Accepted?
    ensures
      var overlay := OverlayOf(w.entries, key);
      Agree(Added(w, key, built)) <==>
        && (overlay.labelText.Some? || built.labelText == w.resources[key].labelText)
        && (overlay.description.Some? || built.description == w.resources[key].description)
  {
    CreatedShows(w.entries, key, built);
    var w' := Added(w, key, built);
    assert w'.resources == w.resources && w'.entries == w.entries;
    assert w'.defaults[key] == DefaultsOf(built);
  }

  /** A live receiver is added again with another label: the add is refused and agreement is lost. */
  lemma DuplicateAddExample()
    ensures
      var key := Key("seed", Receiver, "r");
      var w := World(map[], 1, map[key := Resource("first", "", map[])], map[key := Defaults("first", "")]);
      Agree(w) && !Agree(Added(w, key, Resource("second", "", map[])))
  {
    var key := Key("seed", Receiver, "r");
    var w := World(map[], 1, map[key := Resource("first", "", map[])], map[key := Defaults("first", "")]);
    assert WritablePart(map[]) == map[];
    assert Agree(w);
    DuplicateAdd(w, key, Resource("second", "", map[]));
  }

  // Coming back

  /**
   Removing a resource and adding it again as it was first built gives the same
   resource, unless its stored entry holds a tag with an empty key.
   */
  lemma ReAddRestores(w: World, key: Key, built: Resource)
    requires Agree(w) && Built(built) && key in w.resources
    requires w.defaults[key] == DefaultsOf(built)
    requires ReadOnlyPart(w.resources[key].tags) == ReadOnlyPart(built.tags)
    ensures
      var w' := Added(Removed(w, key), key, built);
      && ("" !in OverlayOf(w.entries, key).tags ==> w' == w)
      && ("" in OverlayOf(w.entries, key).tags ==> key !in w'.resources)
  {
    var gone := Removed(w, key);
    CreateAccepted(w.entries, key);
    if "" !in OverlayOf(w.entries, key).tags {
      CreatedShows(w.entries, key, built);
      var merged := MergePatch(built, CreatePatch(w.entries, key).value, DefaultsOf(built)).value;
      SplitTags(merged.tags, w.resources[key].tags);
      assert merged == w.resources[key];
      PutBack(w.resources, key);
      PutBack(w.defaults, key);
      assert Added(gone, key, built) == w.(resources := gone.resources[key := merged],
                                           defaults := gone.defaults[key := DefaultsOf(built)]);
    }
  }

  lemma PutBack<K, V>(m: map<K, V>, key: K)
    requires key in m
    ensures (m - {key})[key := m[key]] == m
  {
  }

  lemma SplitTags(a: TagValues, b: TagValues)
    requires WritablePart(a) == WritablePart(b) && ReadOnlyPart(a) == ReadOnlyPart(b)
    ensures a == b
  {
    forall key
      ensures key in a <==> key in b
      ensures key in a && key in b ==> a[key] == b[key]
    {
      if ReadOnlyTag(key) {
        assert key in a <==> key in ReadOnlyPart(a);
        assert key in b <==> key in ReadOnlyPart(b);
      } else {
        assert key in a <==> key in WritablePart(a);
        assert key in b <==> key in WritablePart(b);
      }
    }
  }

  /** No entry of the store holds a tag with an empty key. */
  ghost predicate NoEmptyTagKey(entries: Entries) {
    forall key <- entries.Keys :: "" !in View(entries[key]).tags
  }

  predicate WritesEmptyTagKey(patch: Patch) {
    patch.tags.Value? && "" in patch.tags.value && patch.tags.value[""].Some?
  }

  /** A patch built from the public structure never writes an empty key; an HTTP patch may. */
  lemma PublicPatchHasNoEmptyKey(annotation: CAnnotation)
    requires PatchOk(annotation)
    ensures !WritesEmptyTagKey(PatchOf(annotation))
  {
    if annotation.tagsUpdate == UPDATE_SET && annotation.tags.Items? {
      TagPatchKeys(annotation.tags.items);
    }
  }

  lemma {:induction false} TagPatchKeys(tags: seq<CTag>)
    requires forall i :: 0 <= i < |tags| ==> TagOk(tags[i])
    ensures "" !in TagPatchOf(tags) && forall key <- TagPatchOf(tags).Keys :: !ReadOnlyTag(key)
  {
    if tags != [] {
      TagPatchKeys(tags[..|tags| - 1]);
      assert TagOk(tags[|tags| - 1]);
    }
  }

  lemma StepKeepsNoEmptyTagKey(w: World, step: Step, w': World)
    requires Agree(w) && Taken(w, step, w') && NoEmptyTagKey(w.entries)
    requires step.UpdateAnnotation? ==> ClearPatch(step.patch) && !WritesEmptyTagKey(step.patch)
    ensures NoEmptyTagKey(w'.entries)
  {
    if step.UpdateAnnotation? && w' != w {
      UpdateKeepsAgreement(w, step.key, step.patch, step.report);
      MergeKeepsNoEmptyKey(w.resources[step.key], step.patch, w.defaults[step.key]);
      UpdateTouchesOneEntry(w, step.key, step.patch, step.report);
      assert forall key <- w.entries :: "" !in View(w.entries[key]).tags;
      assert "" !in OverlayOf(w.entries, step.key).tags;
      NoEmptyTagKeyElsewhere(w.entries, w'.entries, step.key);
    }
  }

  lemma NoEmptyTagKeyElsewhere(before: Entries, after: Entries, key: Key)
    requires NoEmptyTagKey(before) && SameExceptAt(before, after, key) && "" !in OverlayOf(after, key).tags
    ensures NoEmptyTagKey(after)
  {
    forall other | other in after
      ensures "" !in View(after[other]).tags
    {
      assert OverlayOf(after, other) == View(after[other]);
    }
  }

  // What a patch through the public structure does to a resource

  /** A member after an operation: unchanged, the text, or the default. */
  function Shown(update: int, text: Option<string>, current: string, default: string): string
    requires MemberOk(update, text)
  {
    if update == UPDATE_SET then text.value else if update == UPDATE_RESET then default else current
  }

  /** Each operation does to its member what it says, and a reset shows the default. */
  lemma PublicPatchMembers(annotation: CAnnotation, current: Resource, defaults: Defaults)
    requires PatchOk(annotation)
    ensures
      var merged := MergePatch(current, PatchOf(annotation), defaults);
      && merged.Accepted?
      && merged.value.labelText ==
           Shown(annotation.labelUpdate, annotation.labelText, current.labelText, defaults.labelText)
      && merged.value.description ==
           Shown(annotation.descriptionUpdate, annotation.description, current.description, defaults.description)
      && (annotation.tagsUpdate == UPDATE_UNCHANGED ==> merged.value.tags == current.tags)
      && (annotation.tagsUpdate == UPDATE_RESET ==> merged.value.tags == ReadOnlyPart(current.tags))
  {
    if annotation.tagsUpdate == UPDATE_SET && annotation.tags.Items? {
      TagPatchKeys(annotation.tags.items);
    }
  }

  /** Each tag operation does to its key what it says; keys without one keep their values. */
  lemma PublicPatchTags(annotation: CAnnotation, current: Resource, defaults: Defaults, i: nat, other: string)
    requires PatchOk(annotation) && annotation.tagsUpdate == UPDATE_SET && annotation.tags.Items?
    requires i < |annotation.tags.items| && annotation.tags.items[i].valuesUpdate != UPDATE_UNCHANGED
    requires forall tag <- annotation.tags.items :: tag.key == Some(other) ==> tag.valuesUpdate == UPDATE_UNCHANGED
    ensures
      var tag, merged := annotation.tags.items[i], MergePatch(current, PatchOf(annotation), defaults);
      && merged.Accepted? && tag.key.Some?
      && (tag.valuesUpdate == UPDATE_SET ==>
            && ValuesOk(tag.values) && tag.key.value in merged.value.tags
            && merged.value.tags[tag.key.value] == ValuesOf(tag.values))
      && (tag.valuesUpdate == UPDATE_RESET ==> tag.key.value !in merged.value.tags)
      && (other in merged.value.tags <==> other in current.tags)
      && (other in current.tags ==> merged.value.tags[other] == current.tags[other])
  {
    var tags := annotation.tags.items;
    TagPatchKeys(tags);
    TagPatchAt(tags, i);
    TagPatchOthers(tags, other);
  }

  lemma {:induction false} TagPatchAt(tags: seq<CTag>, i: nat)
    requires TagsOk(tags) && i < |tags| && tags[i].valuesUpdate != UPDATE_UNCHANGED
    ensures
      var tag := tags[i];
      && TagOk(tag) && tag.key.value in TagPatchOf(tags)
      && TagPatchOf(tags)[tag.key.value] == if tag.valuesUpdate == UPDATE_SET then Some(ValuesOf(tag.values)) else None
  {
    var n := |tags| - 1;
    assert TagOk(tags[i]) && TagOk(tags[n]);
    if i < n {
      assert forall j :: 0 <= j < n ==> tags[..n][j] == tags[j];
      TagPatchAt(tags[..n], i);
    }
  }

  lemma {:induction false} TagPatchOthers(tags: seq<CTag>, other: string)
    requires forall i :: 0 <= i < |tags| ==> TagOk(tags[i])
    requires forall tag <- tags :: tag.key == Some(other) ==> tag.valuesUpdate == UPDATE_UNCHANGED
    ensures other !in TagPatchOf(tags)
  {
    if tags != [] {
      TagPatchOthers(tags[..|tags| - 1], other);
      assert TagOk(tags[|tags| - 1]) && tags[|tags| - 1] in tags;
    }
  }

  /**
   Creating with an annotation from the public structure is refused for every reset in it, of a
   member, of all tags or of one tag.
   */
  lemma ResetsAreSeen(annotation: CAnnotation)
    requires PatchOk(annotation)
    ensures HasReset(PatchOf(annotation)) <==>
      || annotation.labelUpdate == UPDATE_RESET || annotation.descriptionUpdate == UPDATE_RESET
      || annotation.tagsUpdate == UPDATE_RESET
      || (annotation.tagsUpdate == UPDATE_SET && annotation.tags.Items?
          && exists tag <- annotation.tags.items :: tag.valuesUpdate == UPDATE_RESET)
  {
    if annotation.tagsUpdate == UPDATE_SET && annotation.tags.Items? {
      TagResetsAreSeen(annotation.tags.items);
      assert PatchOf(annotation).tags == Value(TagPatchOf(annotation.tags.items));
    }
  }

  lemma TagResetsAreSeen(tags: seq<CTag>)
    requires TagsOk(tags)
    ensures (exists key :: key in TagPatchOf(tags) && TagPatchOf(tags)[key].None?) <==>
      exists tag <- tags :: tag.valuesUpdate == UPDATE_RESET
  {
    if tag: CTag :| tag in tags && tag.valuesUpdate == UPDATE_RESET {
      var i :| 0 <= i < |tags| && tags[i] == tag;
      TagPatchAt(tags, i);
    }
    if key :| key in TagPatchOf(tags) && TagPatchOf(tags)[key].None? {
      var i := TagPatchFrom(tags, key);
      TagPatchAt(tags, i);
      assert tags[i] in tags;
    }
  }

  /** Every key of a tag patch comes from a tag that is operated on. */
  lemma {:induction false} TagPatchFrom(tags: seq<CTag>, key: string) returns (i: nat)
    requires (forall i :: 0 <= i < |tags| ==> TagOk(tags[i])) && key in TagPatchOf(tags)
    ensures i < |tags| && tags[i].valuesUpdate != UPDATE_UNCHANGED && tags[i].key == Some(key)
  {
    i := |tags| - 1;
    assert TagOk(tags[i]);
    if tags[i].valuesUpdate == UPDATE_UNCHANGED || tags[i].key != Some(key) {
      i := TagPatchFrom(tags[..i], key);
    }
  }

  // A node with one resource that shows its defaults

  function Lone(key: Key, shown: Resource): World {
    World(map[], 1, map[key := shown], map[key := DefaultsOf(shown)])
  }

  lemma LoneAgrees(key: Key, shown: Resource)
    requires shown.tags == map[]
    ensures Agree(Lone(key, shown))
  {
    assert WritablePart(map[]) == map[];
  }

  function TagPatchFor(tagKey: string, values: seq<string>): Patch {
    Patch(Absent, Absent, Value(map[tagKey := Some(values)]))
  }

  function TagReport(shown: Resource, tagKey: string, values: seq<string>): Annotation {
    Annotation(Unchanged, Some(shown.labelText), Unchanged, Some(shown.description), Set, [Tag(tagKey, Set, values)])
  }

  /** A resource without tags whose text is clear. */
  predicate Plain(shown: Resource) {
    shown.tags == map[] && Clear(shown.labelText) && Clear(shown.description)
  }

  /** A patch that writes one clear tag is carried out and stored. */
  lemma TagWritten(key: Key, shown: Resource, tagKey: string, values: seq<string>)
    requires Plain(shown) && Clear(tagKey) && AllClear(values) && !ReadOnlyTag(tagKey)
    ensures
      var w, patch, report := Lone(key, shown), TagPatchFor(tagKey, values), TagReport(shown, tagKey, values);
      var stored := Updated(w, key, patch, report);
      && Taken(w, UpdateAnnotation(key, patch, report), stored)
      && stored.resources == map[key := shown.(tags := map[tagKey := values])] && stored.defaults == w.defaults
      && OverlayOf(stored.entries, key).tags == map[tagKey := values]
  {
    var tag := Tag(tagKey, Set, values);
    TagMerged(shown, tagKey, values);
    ReportOfOne(shown.(tags := map[tagKey := values]), TagPatchFor(tagKey, values), tag);
    OneTag(tag);
    StoredAlone(key, TagReport(shown, tagKey, values));
  }

  lemma TagMerged(shown: Resource, tagKey: string, values: seq<string>)
    requires shown.tags == map[] && !ReadOnlyTag(tagKey)
    ensures MergePatch(shown, TagPatchFor(tagKey, values), DefaultsOf(shown))
         == Accepted(shown.(tags := map[tagKey := values]))
  {
    assert !PatchesReadOnlyTag(TagPatchFor(tagKey, values));
    assert MergeTags(map[], map[tagKey := Some(values)]) == map[tagKey := values];
  }

  /**
   An HTTP patch that writes a tag with an empty key to a live resource is carried out and
   stored; once the resource is removed it cannot be added again.
   */
  lemma EmptyKeyLocksOut(key: Key, shown: Resource, values: seq<string>)
    requires Plain(shown) && AllClear(values)
    ensures
      var w, patch, report := Lone(key, shown), TagPatchFor("", values), TagReport(shown, "", values);
      var stored := Updated(w, key, patch, report);
      && Agree(w) && Taken(w, UpdateAnnotation(key, patch, report), stored) && Agree(stored)
      && key in stored.resources && "" in OverlayOf(stored.entries, key).tags
      && key !in Added(Removed(stored, key), key, shown).resources
  {
    var w, patch, report := Lone(key, shown), TagPatchFor("", values), TagReport(shown, "", values);
    assert !ReadOnlyTag("");
    TagWritten(key, shown, "", values);
    LoneAgrees(key, shown);
    UpdateKeepsAgreement(w, key, patch, report);
    assert ReadOnlyPart(map["" := values]) == map[] == ReadOnlyPart(shown.tags);
    assert WritablePart(shown.tags) == map[];
    ReAddRestores(Updated(w, key, patch, report), key, shown);
  }

  lemma EmptyKeyExample(key: Key)
    ensures
      var shown, values := Resource("r", "", map[]), ["x"];
      var stored := Updated(Lone(key, shown), key, TagPatchFor("", values), TagReport(shown, "", values));
      key in stored.resources && key !in Added(Removed(stored, key), key, shown).resources
  {
    EmptyKeyLocksOut(key, Resource("r", "", map[]), ["x"]);
  }

  lemma OneTag(tag: Tag)
    ensures TagMap([tag]) == map[tag.key := tag.values]
  {
    assert [tag][..0] == [];
  }

  /** An empty store takes a first report. */
  lemma StoredAlone(key: Key, report: Annotation)
    requires MergeOverlay(BLANK, report) != BLANK
    ensures
      var stored := Applied(map[], 1, key, report);
      stored.Some? && OverlayOf(stored.value, key) == MergeOverlay(BLANK, report)
  {
    AppliedMeaning(map[], 1, key, report);
  }

  /** The report of a merged resource whose only tag was written, with clear text. */
  lemma ReportOfOne(merged: Resource, patch: Patch, tag: Tag)
    requires patch.tags.Value? && merged.tags == map[tag.key := tag.values]
    requires tag.valuesUpdate == TagOperation(patch, tag.key) && !ReadOnlyTag(tag.key)
    requires Clear(merged.labelText) && Clear(merged.description) && Clear(tag.key) && AllClear(tag.values)
    ensures
      Reported(merged, patch, Annotation(OperationOf(patch.labelText), Some(merged.labelText),
                                         OperationOf(patch.description), Some(merged.description), Set, [tag]))
  {
    CutMeaning(merged.labelText);
    CutMeaning(merged.description);
    OneTag(tag);
    assert TagMap([tag]) == WritablePart(merged.tags - {});
    assert Collected(merged.tags, patch, {}, [tag]);
    ClearTagsAreKept([tag]);
  }

  /** A label with a NUL inside is shown whole and stored cut. */
  lemma NulBreaksAgreement(key: Key, shown: Resource, text: string)
    requires Plain(shown) && !Clear(text)
    ensures
      var w, patch := Lone(key, shown), Patch(Value(text), Absent, Absent);
      var report := Annotation(Set, Some(Cut(text)), Unchanged, Some(shown.description), Unchanged, []);
      var stored := Updated(w, key, patch, report);
      && Agree(w) && Taken(w, UpdateAnnotation(key, patch, report), stored) && !Agree(stored)
      && stored.resources[key].labelText == text && OverlayOf(stored.entries, key).labelText == Some(Cut(text))
  {
    var w, patch := Lone(key, shown), Patch(Value(text), Absent, Absent);
    var report := Annotation(Set, Some(Cut(text)), Unchanged, Some(shown.description), Unchanged, []);
    LoneAgrees(key, shown);
    var merged := MergePatch(shown, patch, DefaultsOf(shown)).value;
    CutMeaning(shown.description);
    assert Collected(merged.tags, patch, {}, []) && CutTags([]) == [];
    StoredAlone(key, report);
    UpdateAgrees(w, key, patch, report);
  }

  lemma NulExample(key: Key)
    ensures
      var shown, text := Resource("r", "", map[]), "a\0b";
      var report := Annotation(Set, Some(Cut(text)), Unchanged, Some(""), Unchanged, []);
      !Agree(Updated(Lone(key, shown), key, Patch(Value(text), Absent, Absent), report))
  {
    assert "a\0b"[1] == '\0';
    NulBreaksAgreement(key, Resource("r", "", map[]), "a\0b");
  }

  lemma MergeKeepsNoEmptyKey(current: Resource, patch: Patch, defaults: Defaults)
    requires "" !in WritablePart(current.tags) && !WritesEmptyTagKey(patch)
    requires MergePatch(current, patch, defaults).Accepted?
    ensures "" !in WritablePart(MergePatch(current, patch, defaults).value.tags)
  {
    assert !ReadOnlyTag("");
  }
}
