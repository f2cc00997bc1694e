/**
 IS-13 annotations as the daemon and the library exchange them, and what a
 stored annotation means.
 */
module Annotations {
  import opened Types

  datatype Update = Unchanged | Set | Reset

  datatype Tag = Tag(key: string, valuesUpdate: Update, values: seq<string>)

  datatype Annotation = Annotation(
    labelUpdate: Update,
    labelText: Option<string>,
    descriptionUpdate: Update,
    description: Option<string>,
    tagsUpdate: Update,
    tags: seq<Tag>)

  datatype ResourceType = Node | Device | Source | Flow | Sender | Receiver

  datatype Key = Key(seed: string, resourceType: ResourceType, name: string)

  type TagValues = map<string, seq<string>>

  predicate ReadOnlyTag(key: string) {
    || "urn:x-nmos:tag:asset:" <= key
    || "urn:x-nmos:tag:grouphint/" <= key
    || "urn:x-nvnmos:tag:" <= key
  }

  predicate Writable(tags: TagValues) {
    forall key <- tags.Keys :: !ReadOnlyTag(key)
  }

  /** The operations of a tag list are dropped here and a repeated key keeps its last values. */
  function TagMap(tags: seq<Tag>): TagValues {
    if tags == [] then map[]
    else
      var last := tags[|tags| - 1];
      TagMap(tags[..|tags| - 1])[last.key := last.values]
  }

  predicate DistinctKeys(tags: seq<Tag>) {
    forall i, j :: 0 <= i < j < |tags| ==> tags[i].key != tags[j].key
  }

  /** What an annotation says about a resource: the values that override its defaults. */
  datatype Overlay = Overlay(labelText: Option<string>, description: Option<string>, tags: TagValues)

  const BLANK := Overlay(None, None, map[])

  function PresentValue(update: Update, value: Option<string>): Option<string> {
    match update
    case Unchanged | Set => value
    case Reset => None
  }

  function View(annotation: Annotation): Overlay {
    Overlay(PresentValue(annotation.labelUpdate, annotation.labelText),
            PresentValue(annotation.descriptionUpdate, annotation.description),
            if annotation.tagsUpdate == Reset then map[] else TagMap(annotation.tags))
  }

  /**
   The form the store keeps: a present field is Unchanged and an absent field is Reset.
   */
  predicate SubscriptionForm(annotation: Annotation) {
    && annotation.labelUpdate == (if annotation.labelText.Some? then Unchanged else Reset)
    && annotation.descriptionUpdate == (if annotation.description.Some? then Unchanged else Reset)
    && annotation.tagsUpdate == (if annotation.tags != [] then Unchanged else Reset)
    && (forall tag <- annotation.tags :: tag.valuesUpdate == Unchanged)
  }

  /** Create form of a stored annotation. */
  function AnnotationAtCreate(stored: Annotation): Annotation {
    var tagsUpdate := CreateOperation(stored.tagsUpdate);
    Annotation(
      CreateOperation(stored.labelUpdate),
      PresentValue(stored.labelUpdate, stored.labelText),
      CreateOperation(stored.descriptionUpdate),
      PresentValue(stored.descriptionUpdate, stored.description),
      tagsUpdate,
      if tagsUpdate == Unchanged then []
      else seq(|stored.tags|, i requires 0 <= i < |stored.tags| => stored.tags[i].(valuesUpdate := Set)))
  }

  function CreateOperation(update: Update): Update {
    match update
    case Unchanged | Set => Set
    case Reset => Unchanged
  }

  /** The values of a tag map do not depend on the operations recorded beside them. */
  lemma {:induction false} TagMapIgnoresOperations(a: seq<Tag>, b: seq<Tag>)
    requires |a| == |b|
    requires forall i :: 0 <= i < |a| ==> a[i].key == b[i].key && a[i].values == b[i].values
    ensures TagMap(a) == TagMap(b)
  {
    if a != [] {
      TagMapIgnoresOperations(a[..|a| - 1], b[..|b| - 1]);
    }
  }

  /** The keys of a tag map are the keys listed. */
  lemma {:induction false} TagMapKeys(tags: seq<Tag>)
    ensures forall key :: key in TagMap(tags) <==> exists i :: 0 <= i < |tags| && tags[i].key == key
  {
    if tags != [] {
      var front := tags[..|tags| - 1];
      TagMapKeys(front);
      forall key
        ensures key in TagMap(tags) <==> exists i :: 0 <= i < |tags| && tags[i].key == key
      {
        if i :| 0 <= i < |tags| && tags[i].key == key {
          if i < |tags| - 1 {
            assert front[i].key == key;
          }
        }
        if key in TagMap(front) {
          var i :| 0 <= i < |front| && front[i].key == key;
          assert tags[i].key == key;
        }
      }
    }
  }

  /** With distinct keys, every listed tag is in the map with its own values. */
  lemma {:induction false} TagMapValues(tags: seq<Tag>, i: nat)
    requires DistinctKeys(tags) && i < |tags|
    ensures tags[i].key in TagMap(tags) && TagMap(tags)[tags[i].key] == tags[i].values
  {
    if i < |tags| - 1 {
      assert tags[..|tags| - 1][i] == tags[i];
      TagMapValues(tags[..|tags| - 1], i);
    }
  }
}
