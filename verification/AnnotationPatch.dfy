/**
 The library's side of an annotation: the merge patch built from the public C
 structure, the merge into a resource, and the report handed to the application.
 */
module AnnotationPatch {
  import opened Types
  import opened Annotations

  // The public structure. A pointer is an Option, an operation any integer.

  const UPDATE_UNCHANGED := 0
  const UPDATE_SET := 1
  const UPDATE_RESET := 2

  datatype Array<T> = NullArray(count: nat) | Items(items: seq<T>)

  datatype CTag = CTag(key: Option<string>, valuesUpdate: int, values: Array<Option<string>>)

  datatype CAnnotation = CAnnotation(
    labelUpdate: int, labelText: Option<string>,
    descriptionUpdate: int, description: Option<string>,
    tagsUpdate: int, tags: Array<CTag>)

  predicate ValidUpdate(update: int) {
    update == UPDATE_UNCHANGED || update == UPDATE_SET || update == UPDATE_RESET
  }

  // JSON merge patch, section 2 of RFC 7396: a member is absent, null or a value.

  datatype Field<T> = Absent | Null | Value(value: T)

  type TagPatch = map<string, Option<seq<string>>>

  datatype Patch = Patch(labelText: Field<string>, description: Field<string>, tags: Field<TagPatch>)

  const EMPTY_PATCH := Patch(Absent, Absent, Absent)

  datatype Outcome<T> = Accepted(value: T) | Thrown

  // Building the patch

  predicate ValuesOk(values: Array<Option<string>>) {
    match values
    case NullArray(count) => count == 0
    case Items(items) => forall i :: 0 <= i < |items| ==> items[i].Some?
  }

  function ValuesOf(values: Array<Option<string>>): seq<string>
    requires ValuesOk(values)
  {
    match values
    case NullArray(_) => []
    case Items(items) => seq(|items|, i requires 0 <= i < |items| => items[i].value)
  }

  predicate TagOk(tag: CTag) {
    && ValidUpdate(tag.valuesUpdate)
    && (tag.valuesUpdate != UPDATE_UNCHANGED ==>
          tag.key.Some? && tag.key.value != "" && !ReadOnlyTag(tag.key.value))
    && (tag.valuesUpdate == UPDATE_SET ==> ValuesOk(tag.values))
  }

  /** Every tag is acceptable and no key is operated on twice. */
  predicate TagsOk(tags: seq<CTag>) {
    && (forall i :: 0 <= i < |tags| ==> TagOk(tags[i]))
    && (forall i, j :: 0 <= i < j < |tags|
          && tags[i].valuesUpdate != UPDATE_UNCHANGED && tags[j].valuesUpdate != UPDATE_UNCHANGED
          ==> tags[i].key != tags[j].key)
  }

  function TagPatchOf(tags: seq<CTag>): TagPatch
    requires forall i :: 0 <= i < |tags| ==> TagOk(tags[i])
  {
    if tags == [] then map[]
    else
      var last := tags[|tags| - 1];
      var front := TagPatchOf(tags[..|tags| - 1]);
      assert TagOk(last);
      if last.valuesUpdate == UPDATE_UNCHANGED then front
      else front[last.key.value := if last.valuesUpdate == UPDATE_SET then Some(ValuesOf(last.values)) else None]
  }

  predicate MemberOk(update: int, text: Option<string>) {
    ValidUpdate(update) && (update == UPDATE_SET ==> text.Some?)
  }

  predicate PatchOk(annotation: CAnnotation) {
    && MemberOk(annotation.labelUpdate, annotation.labelText)
    && MemberOk(annotation.descriptionUpdate, annotation.description)
    && ValidUpdate(annotation.tagsUpdate)
    && (annotation.tagsUpdate == UPDATE_SET ==>
          match annotation.tags
          case NullArray(count) => count == 0
          case Items(tags) => TagsOk(tags))
  }

  function MemberOf(update: int, text: Option<string>): Field<string>
    requires MemberOk(update, text)
  {
    if update == UPDATE_SET then Value(text.value) else if update == UPDATE_RESET then Null else Absent
  }

  function PatchOf(annotation: CAnnotation): Patch
    requires PatchOk(annotation)
  {
    Patch(MemberOf(annotation.labelUpdate, annotation.labelText),
          MemberOf(annotation.descriptionUpdate, annotation.description),
          if annotation.tagsUpdate == UPDATE_SET then
            Value(if annotation.tags.NullArray? then map[] else TagPatchOf(annotation.tags.items))
          else if annotation.tagsUpdate == UPDATE_RESET then Null else Absent)
  }

  /** The loop over the tags of one annotation, with the set of keys seen so far. */
  method MakeTagPatch(tags: seq<CTag>) returns (patch: Outcome<TagPatch>)
    ensures patch.Accepted? <==> TagsOk(tags)
    ensures patch.Accepted? ==> patch.value == TagPatchOf(tags)
  {
    var keys: set<string> := {};
    var written: TagPatch := map[];
    for i := 0 to |tags|
      invariant TagsOk(tags[..i])
      invariant written == TagPatchOf(tags[..i])
      invariant forall key :: key in keys <==>
        exists j :: 0 <= j < i && tags[j].valuesUpdate != UPDATE_UNCHANGED && tags[j].key == Some(key)
    {
      var tag := tags[i];
      assert tags[..i + 1][..i] == tags[..i];
      assert forall j :: 0 <= j <= i ==> tags[..i + 1][j] == tags[j];
      if !TagOk(tag) {
        return Thrown;
      }
      if tag.valuesUpdate == UPDATE_UNCHANGED {
        continue;
      }
      if tag.key.value in keys {
        return Thrown;
      }
      keys := keys + {tag.key.value};
      written := written[tag.key.value := if tag.valuesUpdate == UPDATE_SET then Some(ValuesOf(tag.values)) else None];
    }
    assert tags[..|tags|] == tags;
    return Accepted(written);
  }

  method MakeAnnotationPatch(annotation: Option<CAnnotation>) returns (patch: Outcome<Patch>)
    ensures patch.Accepted? <==> annotation.Some? && PatchOk(annotation.value)
    ensures patch.Accepted? ==> patch.value == PatchOf(annotation.value)
  {
    if annotation.None? {
      return Thrown;
    }
    var a := annotation.value;
    if !ValidUpdate(a.labelUpdate) || !ValidUpdate(a.descriptionUpdate) || !ValidUpdate(a.tagsUpdate) {
      return Thrown;
    }
    var built := EMPTY_PATCH;
    if a.labelUpdate == UPDATE_RESET {
      built := built.(labelText := Null);
    } else if a.labelUpdate == UPDATE_SET {
      if a.labelText.None? {
        return Thrown;
      }
      built := built.(labelText := Value(a.labelText.value));
    }
    if a.descriptionUpdate == UPDATE_RESET {
      built := built.(description := Null);
    } else if a.descriptionUpdate == UPDATE_SET {
      if a.description.None? {
        return Thrown;
      }
      built := built.(description := Value(a.description.value));
    }
    if a.tagsUpdate == UPDATE_RESET {
      built := built.(tags := Null);
    } else if a.tagsUpdate == UPDATE_SET {
      if a.tags.NullArray? && a.tags.count > 0 {
        return Thrown;
      }
      var tags := MakeTagPatch(if a.tags.Items? then a.tags.items else []);
      if tags.Thrown? {
        return Thrown;
      }
      built := built.(tags := Value(tags.value));
    }
    return Accepted(built);
  }

  /** A member or a tag key is cleared. */
  predicate HasReset(patch: Patch) {
    || patch.labelText.Null? || patch.description.Null? || patch.tags.Null?
    || (patch.tags.Value? && exists key :: key in patch.tags.value && patch.tags.value[key].None?)
  }

  /** The annotation applied when a resource is created; clearing is refused there. */
  method MakeAnnotation(annotation: Option<CAnnotation>) returns (patch: Outcome<Patch>)
    ensures annotation.None? ==> patch == Accepted(EMPTY_PATCH)
    ensures annotation.Some? ==>
      (patch.Accepted? <==> PatchOk(annotation.value) && !HasReset(PatchOf(annotation.value)))
    ensures annotation.Some? && patch.Accepted? ==> patch.value == PatchOf(annotation.value)
  {
    if annotation.None? {
      return Accepted(EMPTY_PATCH);
    }
    patch := MakeAnnotationPatch(annotation);
    if patch.Accepted? && HasReset(patch.value) {
      patch := Thrown;
    }
  }

  // Merging into a resource

  datatype Defaults = Defaults(labelText: string, description: string)

  datatype Resource = Resource(labelText: string, description: string, tags: TagValues)

  function WritablePart(tags: TagValues): TagValues {
    map key | key in tags && !ReadOnlyTag(key) :: tags[key]
  }

  function ReadOnlyPart(tags: TagValues): TagValues {
    map key | key in tags && ReadOnlyTag(key) :: tags[key]
  }

  function MergeMember(current: string, member: Field<string>, default: string): string {
    match member
    case Absent => current
    case Null => default
    case Value(text) => text
  }

  function MergeTags(tags: TagValues, patch: TagPatch): TagValues {
    map key | key in tags.Keys + patch.Keys && (key in patch ==> patch[key].Some?) ::
      if key in patch then patch[key].value else tags[key]
  }

  predicate PatchesReadOnlyTag(patch: Patch) {
    patch.tags.Value? && exists key :: key in patch.tags.value && ReadOnlyTag(key)
  }

  /** The merge nmos-cpp provides: read-only tags are refused in the patch and kept in the result. */
  function MergePatch(current: Resource, patch: Patch, defaults: Defaults): Outcome<Resource> {
    if PatchesReadOnlyTag(patch) then Thrown
    else Accepted(Resource(
      MergeMember(current.labelText, patch.labelText, defaults.labelText),
      MergeMember(current.description, patch.description, defaults.description),
      match patch.tags
      case Absent => current.tags
      case Null => ReadOnlyPart(current.tags)
      case Value(tags) => MergeTags(current.tags, tags)))
  }

  lemma MergeKeepsReadOnlyTags(current: Resource, patch: Patch, defaults: Defaults)
    requires MergePatch(current, patch, defaults).Accepted?
    ensures ReadOnlyPart(MergePatch(current, patch, defaults).value.tags) == ReadOnlyPart(current.tags)
  {
  }

  // Reporting to the application

  function OperationOf<T>(member: Field<T>): Update {
    match member
    case Absent => Unchanged
    case Null => Reset
    case Value(_) => Set
  }

  function TagOperation(patch: Patch, key: string): Update {
    if patch.tags.Value? && key in patch.tags.value && patch.tags.value[key].Some? then Set else Unchanged
  }

  // Text crosses the callback as C strings, which end at the first NUL

  predicate Clear(text: string) {
    forall i :: 0 <= i < |text| ==> text[i] != '\0'
  }

  predicate AllClear(values: seq<string>) {
    forall i :: 0 <= i < |values| ==> Clear(values[i])
  }

  predicate ClearTags(tags: TagValues) {
    forall key <- tags.Keys :: Clear(key) && AllClear(tags[key])
  }

  function Cut(text: string): string {
    if text == "" || text[0] == '\0' then "" else [text[0]] + Cut(text[1..])
  }

  function CutAll(values: seq<string>): seq<string> {
    seq(|values|, i requires 0 <= i < |values| => Cut(values[i]))
  }

  function CutTag(tag: Tag): Tag {
    Tag(Cut(tag.key), tag.valuesUpdate, CutAll(tag.values))
  }

  function CutTags(tags: seq<Tag>): seq<Tag> {
    seq(|tags|, i requires 0 <= i < |tags| => CutTag(tags[i]))
  }

  lemma {:induction false} CutMeaning(text: string)
    ensures Cut(text) <= text && Clear(Cut(text))
    ensures Cut(text) == text <==> Clear(text)
  {
    if text != "" && text[0] != '\0' {
      CutMeaning(text[1..]);
      assert text == [text[0]] + text[1..];
    }
  }

  lemma CutAllMeaning(values: seq<string>)
    ensures AllClear(CutAll(values))
    ensures CutAll(values) == values <==> AllClear(values)
  {
    forall i | 0 <= i < |values|
      ensures Clear(Cut(values[i])) && (Cut(values[i]) == values[i] <==> Clear(values[i]))
    {
      CutMeaning(values[i]);
    }
    assert CutAll(values) == values ==> forall i :: 0 <= i < |values| ==> CutAll(values)[i] == values[i];
  }

  /** What crossed as C strings is clear. */
  lemma {:induction false} CutTagsAreClear(tags: seq<Tag>)
    ensures ClearTags(TagMap(CutTags(tags)))
  {
    if tags != [] {
      var n := |tags| - 1;
      CutTagsAreClear(tags[..n]);
      assert CutTags(tags)[..n] == CutTags(tags[..n]);
      CutMeaning(tags[n].key);
      CutAllMeaning(tags[n].values);
    }
  }

  /** A shorter key is no more read-only. */
  lemma CutTagsAreWritable(tags: seq<Tag>)
    requires Writable(TagMap(tags))
    ensures Writable(TagMap(CutTags(tags)))
  {
    var cut := CutTags(tags);
    TagMapKeys(tags);
    TagMapKeys(cut);
    forall key | key in TagMap(cut)
      ensures !ReadOnlyTag(key)
    {
      var i :| 0 <= i < |cut| && cut[i].key == key;
      assert tags[i].key in TagMap(tags);
      CutKeyIsWritable(tags[i].key);
    }
  }

  lemma CutKeyIsWritable(key: string)
    ensures ReadOnlyTag(Cut(key)) ==> ReadOnlyTag(key)
  {
    CutMeaning(key);
    if ReadOnlyTag(Cut(key)) {
      var n := |Cut(key)|;
      assert key[..n] == Cut(key);
    }
  }

  /** Clear text crosses as it is. */
  lemma ClearTagsAreKept(tags: seq<Tag>)
    requires DistinctKeys(tags) && ClearTags(TagMap(tags))
    ensures CutTags(tags) == tags
  {
    forall i | 0 <= i < |tags|
      ensures CutTag(tags[i]) == tags[i]
    {
      TagMapValues(tags, i);
      CutMeaning(tags[i].key);
      CutAllMeaning(tags[i].values);
    }
  }

  /** The writable tags of the merged resource with the operations of the patch, in some order. */
  ghost predicate Collected(merged: TagValues, patch: Patch, todo: set<string>, tags: seq<Tag>) {
    && DistinctKeys(tags)
    && TagMap(tags) == WritablePart(merged - todo)
    && (forall i :: 0 <= i < |tags| ==> tags[i].key in merged.Keys - todo)
    && (forall tag <- tags :: tag.valuesUpdate == TagOperation(patch, tag.key))
  }

  /** What the callback reports: the operations of the patch with the merged values, as C strings. */
  ghost predicate Reported(merged: Resource, patch: Patch, annotation: Annotation) {
    && annotation.labelUpdate == OperationOf(patch.labelText)
    && annotation.labelText == Some(Cut(merged.labelText))
    && annotation.descriptionUpdate == OperationOf(patch.description)
    && annotation.description == Some(Cut(merged.description))
    && annotation.tagsUpdate == OperationOf(patch.tags)
    && if patch.tags.Null? then annotation.tags == []
       else exists tags :: Collected(merged.tags, patch, {}, tags) && annotation.tags == CutTags(tags)
  }

  /** A report never names a read-only tag, and its text is clear. */
  lemma ReportedTags(merged: Resource, patch: Patch, annotation: Annotation)
    requires Reported(merged, patch, annotation)
    ensures Writable(TagMap(annotation.tags)) && ClearTags(TagMap(annotation.tags))
  {
    if !patch.tags.Null? {
      var tags :| Collected(merged.tags, patch, {}, tags) && annotation.tags == CutTags(tags);
      CutTagsAreClear(tags);
      CutTagsAreWritable(tags);
    }
  }

  /** For clear text a report names each writable tag once, with its values. */
  lemma ReportedClearTags(merged: Resource, patch: Patch, annotation: Annotation)
    requires Reported(merged, patch, annotation) && ClearTags(WritablePart(merged.tags))
    ensures DistinctKeys(annotation.tags)
    ensures TagMap(annotation.tags) == if patch.tags.Null? then map[] else WritablePart(merged.tags)
    ensures forall tag <- annotation.tags :: tag.valuesUpdate == TagOperation(patch, tag.key)
  {
    if !patch.tags.Null? {
      var tags :| Collected(merged.tags, patch, {}, tags) && annotation.tags == CutTags(tags);
      assert merged.tags - {} == merged.tags;
      ClearTagsAreKept(tags);
    }
  }

  lemma WritablePartGrows(tags: TagValues, todo: set<string>, key: string)
    requires key in todo && todo <= tags.Keys
    ensures
      var before, after := WritablePart(tags - todo), WritablePart(tags - (todo - {key}));
      after == if ReadOnlyTag(key) then before else before[key := tags[key]]
  {
  }

  lemma CollectedNext(merged: TagValues, patch: Patch, todo: set<string>, tags: seq<Tag>, key: string)
    requires Collected(merged, patch, todo, tags) && key in todo && todo <= merged.Keys
    ensures
      var tag := Tag(key, TagOperation(patch, key), merged[key]);
      Collected(merged, patch, todo - {key}, if ReadOnlyTag(key) then tags else tags + [tag])
  {
    WritablePartGrows(merged, todo, key);
    var tag := Tag(key, TagOperation(patch, key), merged[key]);
    assert (tags + [tag])[..|tags|] == tags;
  }

  /** Collects the writable tags, visiting the merged ones in any order. */
  method CollectTags(merged: TagValues, patch: Patch) returns (tags: seq<Tag>)
    ensures Collected(merged, patch, {}, tags)
  {
    var writtenKeys: set<string> := {};
    if patch.tags.Value? {
      writtenKeys := set key | key in patch.tags.value && patch.tags.value[key].Some?;
    }
    tags := [];
    var todo := merged.Keys;
    while todo != {}
      invariant todo <= merged.Keys && Collected(merged, patch, todo, tags)
      decreases |todo|
    {
      var key :| key in todo;
      CollectedNext(merged, patch, todo, tags, key);
      todo := todo - {key};
      if ReadOnlyTag(key) {
        continue;
      }
      tags := tags + [Tag(key, if key in writtenKeys then Set else Unchanged, merged[key])];
    }
  }

  /** Hands each tag's strings over as C strings. */
  method HandOver(tags: seq<Tag>) returns (handed: seq<Tag>)
    ensures handed == CutTags(tags)
  {
    handed := [];
    for i := 0 to |tags|
      invariant handed == CutTags(tags[..i])
    {
      handed := handed + [CutTag(tags[i])];
      assert tags[..i + 1][..i] == tags[..i];
    }
    assert tags[..|tags|] == tags;
  }

  method ReportAnnotation(merged: Resource, patch: Patch) returns (annotation: Annotation)
    ensures Reported(merged, patch, annotation)
  {
    var tags: seq<Tag> := [];
    if !patch.tags.Null? {
      var collected := CollectTags(merged.tags, patch);
      tags := HandOver(collected);
    }
    annotation := Annotation(
      OperationOf(patch.labelText), Some(Cut(merged.labelText)),
      OperationOf(patch.description), Some(Cut(merged.description)),
      OperationOf(patch.tags), tags);
  }
}
