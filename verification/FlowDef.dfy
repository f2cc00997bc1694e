/**
 Overriding fields and tags of an MXL flow definition in place, and the readers that
 must see what was written. Works on parsed JSON.
 */
module FlowDef {
  import opened Types

  datatype Json =
    | JNull
    | JBool(truth: bool)
    | JNumber(number: real)
    | JString(text: string)
    | JArray(items: seq<Json>)
    | JObject(fields: Fields)

  type Fields = map<string, Json>

  datatype DomainId = Concrete(id: string) | ApplicationResolved

  datatype Overrides = Overrides(
    flowId: Option<string>, name: Option<string>, labelText: Option<string>, description: Option<string>,
    groupHint: Option<string>, domainId: Option<DomainId>, capsMode: CapsMode)

  datatype FlowDefError =
    | Parse
    | UnknownFormat
    | IdMismatch
    | FormatMismatch
    | NotAnObject
    | TagsNotAnObject
    | InvalidDomainIdTag

  datatype Result<T> = Ok(value: T) | Err(error: FlowDefError)

  const NAME_TAG := "urn:x-nvnmos:tag:name"
  const MXL_DOMAIN_ID_TAG := "urn:x-nvnmos:tag:mxl-domain-id"
  const GROUP_HINT_TAG := "urn:x-nmos:tag:grouphint/v1.0"
  const CAPS_TAG := "urn:x-nvnmos:tag:caps"

  // Edits of one object

  datatype Edit = Keep | Put(json: Json) | Drop

  /** Edits by key; a later one of the same key wins. */
  type Edits = seq<(string, Edit)>

  function EditAt(edits: Edits, key: string): Edit {
    if edits == [] then Keep
    else
      var last := edits[|edits| - 1];
      if last.0 == key then last.1 else EditAt(edits[..|edits| - 1], key)
  }

  function KeysOf(edits: Edits): set<string> {
    set i | 0 <= i < |edits| :: edits[i].0
  }

  lemma {:induction false} NotEdited(edits: Edits, key: string)
    requires key !in KeysOf(edits)
    ensures EditAt(edits, key) == Keep
  {
    if edits != [] {
      var front := edits[..|edits| - 1];
      assert edits[|edits| - 1].0 in KeysOf(edits);
      assert forall i :: 0 <= i < |front| ==> front[i] == edits[i] && edits[i].0 in KeysOf(edits);
      NotEdited(front, key);
    }
  }

  /** An object with each of its fields kept, replaced, added or dropped on its own. */
  function Edited(fields: Fields, edits: Edits): Fields {
    map key | key in fields.Keys + KeysOf(edits)
              && EditAt(edits, key) != Drop && (key in fields || EditAt(edits, key) != Keep) ::
      if EditAt(edits, key).Put? then EditAt(edits, key).json else fields[key]
  }

  function EditedOnce(fields: Fields, key: string, edit: Edit): Fields {
    match edit
    case Keep => fields
    case Put(json) => fields[key := json]
    case Drop => fields - {key}
  }

  /** Editing one more key in place. */
  lemma EditedNext(fields: Fields, edits: Edits, key: string, edit: Edit)
    requires key !in KeysOf(edits)
    ensures EditedOnce(Edited(fields, edits), key, edit) == Edited(fields, edits + [(key, edit)])
  {
    var longer := edits + [(key, edit)];
    var once := EditedOnce(Edited(fields, edits), key, edit);
    assert longer[..|edits|] == edits;
    NotEdited(edits, key);
    forall other
      ensures Lookup(once, other) == Lookup(Edited(fields, longer), other)
    {
      LookupEdited(fields, edits, other);
      LookupEdited(fields, longer, other);
    }
    SameLookups(once, Edited(fields, longer));
  }

  /** A field no edit names can be written before or after. */
  lemma EditedElsewhere(fields: Fields, edits: Edits, key: string, json: Json)
    requires key !in KeysOf(edits)
    ensures Edited(fields[key := json], edits) == Edited(fields, edits)[key := json]
    ensures key in Edited(fields, edits) <==> key in fields
    ensures key in fields ==> Edited(fields, edits)[key] == fields[key]
  {
    NotEdited(edits, key);
  }

  ghost predicate SameKeys(first: Edits, second: Edits) {
    |first| == |second| && forall i :: 0 <= i < |first| ==> first[i].0 == second[i].0
  }

  /** One set of edits after another of the same keys. */
  function Then(first: Edits, second: Edits): Edits
    requires SameKeys(first, second)
  {
    seq(|first|, i requires 0 <= i < |first| =>
      (first[i].0, if second[i].1 != Keep then second[i].1 else first[i].1))
  }

  ghost predicate DistinctKeyed(edits: Edits) {
    forall i, j :: 0 <= i < j < |edits| ==> edits[i].0 != edits[j].0
  }

  lemma {:induction false} ThenAt(first: Edits, second: Edits, key: string)
    requires SameKeys(first, second) && DistinctKeyed(first)
    ensures EditAt(Then(first, second), key) ==
      if EditAt(second, key) != Keep then EditAt(second, key) else EditAt(first, key)
  {
    if first != [] {
      var n := |first| - 1;
      assert Then(first, second)[..n] == Then(first[..n], second[..n]);
      if first[n].0 == key {
        forall i | 0 <= i < n
          ensures first[..n][i].0 != key && second[..n][i].0 != key
        {
          assert first[i].0 != first[n].0;
        }
      } else {
        ThenAt(first[..n], second[..n], key);
      }
    }
  }

  function Lookup(fields: Fields, key: string): Option<Json> {
    if key in fields then Some(fields[key]) else None
  }

  lemma SameLookups(a: Fields, b: Fields)
    requires forall key :: Lookup(a, key) == Lookup(b, key)
    ensures a == b
  {
    forall key
      ensures key in a <==> key in b
      ensures key in a && key in b ==> a[key] == b[key]
    {
      assert Lookup(a, key) == Lookup(b, key);
    }
  }

  /** What an edited object holds at a key depends on that key's edit alone. */
  lemma LookupEdited(fields: Fields, edits: Edits, key: string)
    ensures Lookup(Edited(fields, edits), key) ==
      match EditAt(edits, key)
      case Keep => Lookup(fields, key)
      case Put(json) => Some(json)
      case Drop => None
  {
    if key !in KeysOf(edits) {
      NotEdited(edits, key);
    }
  }

  lemma EditedTwice(fields: Fields, first: Edits, second: Edits)
    requires SameKeys(first, second) && DistinctKeyed(first)
    ensures Edited(Edited(fields, first), second) == Edited(fields, Then(first, second))
  {
    var once, twice := Edited(fields, first), Edited(Edited(fields, first), second);
    forall key
      ensures Lookup(twice, key) == Lookup(Edited(fields, Then(first, second)), key)
    {
      ThenAt(first, second, key);
      LookupEdited(fields, first, key);
      LookupEdited(once, second, key);
      LookupEdited(fields, Then(first, second), key);
    }
    SameLookups(twice, Edited(fields, Then(first, second)));
  }

  lemma Overwritten(fields: Fields, key: string, a: Json, b: Json)
    ensures fields[key := a][key := b] == fields[key := b]
  {
  }

  function PutText(text: Option<string>): Edit {
    if text.Some? then Put(JString(text.value)) else Keep
  }

  function PutTexts(text: Option<string>): Edit {
    if text.Some? then Put(JArray([JString(text.value)])) else Keep
  }

  function TagJson(domainId: DomainId): Json {
    JArray([JString(if domainId.Concrete? then domainId.id else "")])
  }

  function PutDomain(domainId: Option<DomainId>): Edit {
    if domainId.Some? then Put(TagJson(domainId.value)) else Keep
  }

  function TopEdits(o: Overrides): Edits {
    [("id", PutText(o.flowId)), ("label", PutText(o.labelText)), ("description", PutText(o.description))]
  }

  function CapsEdit(mode: CapsMode): Edit {
    match mode
    case Auto => Keep
    case Constrained => Drop
    case Unconstrained => Put(JArray([JString("")]))
  }

  function TagEdits(o: Overrides): Edits {
    [(NAME_TAG, PutTexts(o.name)),
     (GROUP_HINT_TAG, PutTexts(o.groupHint)),
     (MXL_DOMAIN_ID_TAG, PutDomain(o.domainId)),
     (CAPS_TAG, CapsEdit(o.capsMode))]
  }

  predicate TouchesTags(o: Overrides) {
    o.name.Some? || o.groupHint.Some? || o.domainId.Some? || o.capsMode != Auto
  }

  function TagsOf(fields: Fields): Json {
    if "tags" in fields then fields["tags"] else JObject(map[])
  }

  /** What a spliced document is, field by field. */
  function Splice(value: Json, o: Overrides): Result<Json> {
    if !value.JObject? then Err(NotAnObject)
    else if !TouchesTags(o) then Ok(JObject(Edited(value.fields, TopEdits(o))))
    else if !TagsOf(value.fields).JObject? then Err(TagsNotAnObject)
    else Ok(JObject(Edited(value.fields, TopEdits(o))
                          ["tags" := JObject(Edited(TagsOf(value.fields).fields, TagEdits(o)))]))
  }

  lemma KeysDiffer()
    ensures "id" != "label" && "id" != "description" && "id" != "tags"
    ensures "label" != "description" && "label" != "tags" && "description" != "tags"
    ensures NAME_TAG != GROUP_HINT_TAG && NAME_TAG != MXL_DOMAIN_ID_TAG && NAME_TAG != CAPS_TAG
    ensures GROUP_HINT_TAG != MXL_DOMAIN_ID_TAG && GROUP_HINT_TAG != CAPS_TAG && MXL_DOMAIN_ID_TAG != CAPS_TAG
  {
    assert |"id"| == 2 && |"label"| == 5 && |"description"| == 11 && |"tags"| == 4;
    assert |NAME_TAG| == 21 && |GROUP_HINT_TAG| == 29 && |MXL_DOMAIN_ID_TAG| == 30;
    assert NAME_TAG[17] == 'n' && CAPS_TAG[17] == 'c';
  }

  /** The document is edited in place, one override at a time. */
  method SpliceOverrides(value: Json, o: Overrides) returns (result: Result<Json>)
    ensures result == Splice(value, o)
  {
    if !value.JObject? {
      return Err(NotAnObject);
    }
    var document := EditedOnce(value.fields, "id", PutText(o.flowId));
    document := EditedOnce(document, "label", PutText(o.labelText));
    document := EditedOnce(document, "description", PutText(o.description));
    KeysDiffer();
    EditedThrice(value.fields, "id", PutText(o.flowId), "label", PutText(o.labelText),
                 "description", PutText(o.description));
    TopEditsKeepTags(value.fields, o, JNull);
    if TouchesTags(o) {
      ghost var top := document;
      if "tags" !in document {
        document := document["tags" := JObject(map[])];
      }
      if !document["tags"].JObject? {
        return Err(TagsNotAnObject);
      }
      var tags := SpliceTags(document["tags"].fields, o);
      document := document["tags" := JObject(tags)];
      Overwritten(top, "tags", JObject(map[]), JObject(tags));
    }
    return Ok(JObject(document));
  }

  method SpliceTags(before: Fields, o: Overrides) returns (tags: Fields)
    ensures tags == Edited(before, TagEdits(o))
  {
    tags := EditedOnce(before, NAME_TAG, PutTexts(o.name));
    tags := EditedOnce(tags, GROUP_HINT_TAG, PutTexts(o.groupHint));
    tags := EditedOnce(tags, MXL_DOMAIN_ID_TAG, PutDomain(o.domainId));
    tags := EditedOnce(tags, CAPS_TAG, CapsEdit(o.capsMode));
    KeysDiffer();
    EditedThrice(before, NAME_TAG, PutTexts(o.name), GROUP_HINT_TAG, PutTexts(o.groupHint),
                 MXL_DOMAIN_ID_TAG, PutDomain(o.domainId));
    var three := [(NAME_TAG, PutTexts(o.name)), (GROUP_HINT_TAG, PutTexts(o.groupHint)),
                  (MXL_DOMAIN_ID_TAG, PutDomain(o.domainId))];
    NotAmong(three, CAPS_TAG);
    EditedNext(before, three, CAPS_TAG, CapsEdit(o.capsMode));
    assert three + [(CAPS_TAG, CapsEdit(o.capsMode))] == TagEdits(o);
  }

  lemma NotAmong(edits: Edits, key: string)
    requires forall i :: 0 <= i < |edits| ==> edits[i].0 != key
    ensures key !in KeysOf(edits)
  {
  }

  /** Three edits in a row of different keys. */
  lemma EditedThrice(fields: Fields, k1: string, e1: Edit, k2: string, e2: Edit, k3: string, e3: Edit)
    requires k1 != k2 && k1 != k3 && k2 != k3
    ensures EditedOnce(EditedOnce(EditedOnce(fields, k1, e1), k2, e2), k3, e3)
         == Edited(fields, [(k1, e1), (k2, e2), (k3, e3)])
  {
    assert Edited(fields, []) == fields;
    EditedNext(fields, [], k1, e1);
    assert [] + [(k1, e1)] == [(k1, e1)];
    EditedNext(fields, [(k1, e1)], k2, e2);
    assert [(k1, e1)] + [(k2, e2)] == [(k1, e1), (k2, e2)];
    EditedNext(fields, [(k1, e1), (k2, e2)], k3, e3);
    assert [(k1, e1), (k2, e2)] + [(k3, e3)] == [(k1, e1), (k2, e2), (k3, e3)];
  }

  // Splicing is an action

  function Later<T>(first: Option<T>, second: Option<T>): Option<T> {
    if second.Some? then second else first
  }

  /** The overrides of both, the second winning. */
  function Combine(a: Overrides, b: Overrides): Overrides {
    Overrides(
      Later(a.flowId, b.flowId), Later(a.name, b.name), Later(a.labelText, b.labelText),
      Later(a.description, b.description), Later(a.groupHint, b.groupHint), Later(a.domainId, b.domainId),
      if b.capsMode != Auto then b.capsMode else a.capsMode)
  }

  lemma CombineEdits(a: Overrides, b: Overrides)
    ensures SameKeys(TopEdits(a), TopEdits(b)) && DistinctKeyed(TopEdits(a))
    ensures TopEdits(Combine(a, b)) == Then(TopEdits(a), TopEdits(b))
    ensures SameKeys(TagEdits(a), TagEdits(b)) && DistinctKeyed(TagEdits(a))
    ensures TagEdits(Combine(a, b)) == Then(TagEdits(a), TagEdits(b))
  {
    KeysDiffer();
  }

  lemma TopEditsKeepTags(fields: Fields, o: Overrides, tags: Json)
    ensures TagsOf(Edited(fields, TopEdits(o))) == TagsOf(fields)
    ensures "tags" in Edited(fields, TopEdits(o)) <==> "tags" in fields
    ensures Edited(fields["tags" := tags], TopEdits(o)) == Edited(fields, TopEdits(o))["tags" := tags]
  {
    KeysDiffer();
    NotAmong(TopEdits(o), "tags");
    EditedElsewhere(fields, TopEdits(o), "tags", tags);
  }

  lemma EditNothing(fields: Fields, o: Overrides)
    requires !TouchesTags(o)
    ensures Edited(fields, TagEdits(o)) == fields
  {
    forall key
      ensures EditAt(TagEdits(o), key) == Keep
    {
      AllKeep(TagEdits(o), key);
    }
  }

  lemma {:induction false} AllKeep(edits: Edits, key: string)
    requires forall i :: 0 <= i < |edits| ==> edits[i].1 == Keep
    ensures EditAt(edits, key) == Keep
  {
    if edits != [] {
      AllKeep(edits[..|edits| - 1], key);
    }
  }

  /** Splicing `a` and then `b` is splicing both at once, errors included. */
  lemma SpliceTwice(value: Json, a: Overrides, b: Overrides)
    ensures
      var once := Splice(value, a);
      (if once.Err? then once else Splice(once.value, b)) == Splice(value, Combine(a, b))
  {
    if value.JObject? {
      var fields := value.fields;
      CombineEdits(a, b);
      EditedTwice(fields, TopEdits(a), TopEdits(b));
      TopEditsKeepTags(fields, a, JNull);
      var once := Splice(value, a);
      if once.Ok? && (TouchesTags(a) || TouchesTags(b)) && TagsOf(fields).JObject? {
        SpliceTwiceTags(fields, a, b);
      }
    }
  }

  /** The case in which at least one of the two splices writes tags. */
  lemma SpliceTwiceTags(fields: Fields, a: Overrides, b: Overrides)
    requires (TouchesTags(a) || TouchesTags(b)) && TagsOf(fields).JObject?
    ensures Splice(JObject(fields), a).Ok?
    ensures Splice(Splice(JObject(fields), a).value, b) == Splice(JObject(fields), Combine(a, b))
  {
    var tags := TagsOf(fields).fields;
    CombineEdits(a, b);
    EditedTwice(fields, TopEdits(a), TopEdits(b));
    EditedTwice(tags, TagEdits(a), TagEdits(b));
    var top1 := Edited(fields, TopEdits(a));
    var tags1 := Edited(tags, TagEdits(a));
    var top2 := Edited(top1, TopEdits(b));
    var tags2 := Edited(tags1, TagEdits(b));
    TopEditsKeepTags(fields, a, JNull);
    TopEditsKeepTags(top1, b, JObject(tags1));
    assert Splice(JObject(fields), Combine(a, b)) == Ok(JObject(top2["tags" := JObject(tags2)]));
    if TouchesTags(a) {
      var once := top1["tags" := JObject(tags1)];
      assert Edited(once, TopEdits(b)) == top2["tags" := JObject(tags1)];
      if TouchesTags(b) {
        Overwritten(top2, "tags", JObject(tags1), JObject(tags2));
      } else {
        EditNothing(tags1, b);
      }
    } else {
      EditNothing(tags, a);
    }
  }

  /** Fields no override names are kept. */
  lemma SpliceKeepsFields(value: Json, o: Overrides, key: string)
    requires Splice(value, o).Ok? && key != "tags" && key !in KeysOf(TopEdits(o))
    ensures
      var after := Splice(value, o).value.fields;
      (key in after <==> key in value.fields) && (key in after ==> after[key] == value.fields[key])
  {
    NotEdited(TopEdits(o), key);
  }

  /** Tags no override names are kept. */
  lemma SpliceKeepsTags(value: Json, o: Overrides, key: string)
    requires Splice(value, o).Ok? && key !in KeysOf(TagEdits(o))
    ensures TagValue(Splice(value, o).value, key) == TagValue(value, key)
  {
    NotEdited(TagEdits(o), key);
    TopEditsKeepTags(value.fields, o, JNull);
  }

  // Readers

  datatype FlowFormat = Unspecified | Video | Audio | Data

  function FromFormatUrn(urn: string): FlowFormat {
    match urn
    case "urn:x-nmos:format:video" => Video
    case "urn:x-nmos:format:audio" => Audio
    case "urn:x-nmos:format:data" => Data
    case _ => Unspecified
  }

  /** The formats of the NMOS parameter registers. */
  function FormatUrn(format: FlowFormat): string
    requires format != Unspecified
  {
    match format
    case Video => "urn:x-nmos:format:video"
    case Audio => "urn:x-nmos:format:audio"
    case Data => "urn:x-nmos:format:data"
  }

  lemma FormatUrnsRead(format: FlowFormat, urn: string)
    requires format != Unspecified
    ensures FromFormatUrn(urn) == format <==> urn == FormatUrn(format)
  {
  }

  datatype Meta = Meta(id: string, format: FlowFormat)

  /** A string member that may be missing or null. */
  function OptionalText(value: Json, key: string): Result<Option<string>> {
    if !value.JObject? then Err(Parse)
    else if key !in value.fields || value.fields[key].JNull? then Ok(None)
    else if value.fields[key].JString? then Ok(Some(value.fields[key].text))
    else Err(Parse)
  }

  function ReadFlowDefMeta(value: Json): Result<Meta> {
    var id := OptionalText(value, "id");
    var format := OptionalText(value, "format");
    if id.Err? then Err(id.error)
    else if format.Err? then Err(format.error)
    else
      var text := if id.value.Some? then id.value.value else "";
      if format.value.None? then Ok(Meta(text, Unspecified))
      else if FromFormatUrn(format.value.value) == Unspecified then Err(UnknownFormat)
      else Ok(Meta(text, FromFormatUrn(format.value.value)))
  }

  function TagValue(value: Json, tag: string): Option<Json> {
    if value.JObject? && "tags" in value.fields && value.fields["tags"].JObject?
       && tag in value.fields["tags"].fields
    then Some(value.fields["tags"].fields[tag]) else None
  }

  /** The reading of a domain id tag: a list led by an empty string asks the application, a lone string names it. */
  function DomainIdFromTag(value: Json): Result<DomainId> {
    if !value.JArray? then Err(InvalidDomainIdTag)
    else if value.items == [] || value.items[0] == JString("") then Ok(ApplicationResolved)
    else if |value.items| == 1 && value.items[0].JString? then Ok(Concrete(value.items[0].text))
    else Err(InvalidDomainIdTag)
  }

  method MxlDomainIdFromTagValue(value: Json) returns (result: Result<DomainId>)
    ensures result == DomainIdFromTag(value)
  {
    if !value.JArray? {
      return Err(InvalidDomainIdTag);
    }
    if value.items == [] {
      return Ok(ApplicationResolved);
    }
    var concrete: seq<string> := [];
    for i := 0 to |value.items|
      invariant |concrete| == i
      invariant forall j :: 0 <= j < i ==> value.items[j] == JString(concrete[j]) && concrete[j] != ""
    {
      var entry := value.items[i];
      if !entry.JString? {
        return Err(InvalidDomainIdTag);
      }
      if entry.text == "" {
        if concrete != [] {
          return Err(InvalidDomainIdTag);
        }
        return Ok(ApplicationResolved);
      }
      concrete := concrete + [entry.text];
    }
    if |concrete| != 1 {
      return Err(InvalidDomainIdTag);
    }
    return Ok(Concrete(concrete[0]));
  }

  function MxlDomainId(value: Json): Result<DomainId> {
    var tag := TagValue(value, MXL_DOMAIN_ID_TAG);
    if tag.None? then Ok(ApplicationResolved) else DomainIdFromTag(tag.value)
  }

  function ResourceName(value: Json): Option<string> {
    var tag := TagValue(value, NAME_TAG);
    if tag.Some? && tag.value.JArray? && tag.value.items != [] && tag.value.items[0].JString?
       && tag.value.items[0].text != ""
    then Some(tag.value.items[0].text) else None
  }

  function UnconstrainedCaps(value: Json): bool {
    var tag := TagValue(value, CAPS_TAG);
    tag.Some? && tag.value.JArray? && tag.value.items != []
  }

  /** The i-th edit of a list of different keys is the edit of its key. */
  lemma {:induction false} EditAtIndex(edits: Edits, i: nat)
    requires DistinctKeyed(edits) && i < |edits|
    ensures EditAt(edits, edits[i].0) == edits[i].1 && edits[i].0 in KeysOf(edits)
  {
    var n := |edits| - 1;
    if i < n {
      assert edits[..n][i] == edits[i] && edits[i].0 != edits[n].0;
      EditAtIndex(edits[..n], i);
    }
  }

  lemma SplicedTag(value: Json, o: Overrides, i: nat)
    requires Splice(value, o).Ok? && TouchesTags(o) && i < |TagEdits(o)| && TagEdits(o)[i].1 != Keep
    ensures
      var (tag, edit) := TagEdits(o)[i];
      TagValue(Splice(value, o).value, tag) == if edit.Put? then Some(edit.json) else None
  {
    CombineEdits(o, o);
    EditAtIndex(TagEdits(o), i);
  }

  lemma SplicedText(value: Json, o: Overrides, i: nat)
    requires Splice(value, o).Ok? && i < |TopEdits(o)| && TopEdits(o)[i].1.Put? && TopEdits(o)[i].1.json.JString?
    ensures
      var (key, edit) := TopEdits(o)[i];
      OptionalText(Splice(value, o).value, key) == Ok(Some(edit.json.text))
  {
    CombineEdits(o, o);
    EditAtIndex(TopEdits(o), i);
    KeysDiffer();
    assert TopEdits(o)[i].0 != "tags";
  }

  /**
   Every reader returns the overriding value. A concrete domain id or a name is read
   back as written exactly when it is not empty; an empty one reads as not given.
   */
  lemma ReadersSeeOverrides(value: Json, o: Overrides)
    requires Splice(value, o).Ok?
    ensures
      var after := Splice(value, o).value;
      && (o.flowId.Some? ==> OptionalText(after, "id") == Ok(Some(o.flowId.value)))
      && (o.labelText.Some? ==> OptionalText(after, "label") == Ok(Some(o.labelText.value)))
      && (o.description.Some? ==> OptionalText(after, "description") == Ok(Some(o.description.value)))
      && (o.domainId.Some? ==>
            MxlDomainId(after) == Ok(if o.domainId.value == Concrete("") then ApplicationResolved else o.domainId.value))
      && (o.name.Some? ==> ResourceName(after) == if o.name.value == "" then None else o.name)
      && (o.groupHint.Some? ==> TagValue(after, GROUP_HINT_TAG) == Some(JArray([JString(o.groupHint.value)])))
      && (o.capsMode == Unconstrained ==> UnconstrainedCaps(after))
      && (o.capsMode == Constrained ==> !UnconstrainedCaps(after))
  {
    if o.flowId.Some? { SplicedText(value, o, 0); }
    if o.labelText.Some? { SplicedText(value, o, 1); }
    if o.description.Some? { SplicedText(value, o, 2); }
    if o.name.Some? { SplicedTag(value, o, 0); }
    if o.groupHint.Some? { SplicedTag(value, o, 1); }
    if o.domainId.Some? { SplicedTag(value, o, 2); }
    if o.capsMode != Auto { SplicedTag(value, o, 3); }
  }

  // Resolving the flow id

  datatype Origin = FromProperty | FromFile | FromBoth | FromNeither

  function ResolveId(property: string, file: Option<string>): Result<(string, Origin)> {
    var present := file.Some? && file.value != "";
    if property == "" then
      if present then Ok((file.value, FromFile)) else Ok(("", FromNeither))
    else if !present then Ok((property, FromProperty))
    else if file.value == property then Ok((property, FromBoth))
    else Err(IdMismatch)
  }

  function ResolveFormat(property: FlowFormat, file: FlowFormat): Result<(FlowFormat, Origin)> {
    if file == Unspecified then
      Ok((property, if property == Unspecified then FromNeither else FromProperty))
    else if property == Unspecified then Ok((file, FromFile))
    else if property == file then Ok((file, FromBoth))
    else Err(FormatMismatch)
  }

  /**
   Property and file are reconciled: they clash exactly when both are given and differ, and
   otherwise the property is resolved, or the file's id when there is none.
   */
  lemma ResolveIdMeaning(property: string, file: Option<string>)
    ensures
      var given, resolved := (if file.Some? then file.value else ""), ResolveId(property, file);
      && (resolved.Err? <==> property != "" && given != "" && property != given)
      && (resolved.Err? ==> resolved == Err(IdMismatch))
      && (resolved.Ok? ==>
            && resolved.value.0 == (if property != "" then property else given)
            && (property != "" <==> resolved.value.1 == FromProperty || resolved.value.1 == FromBoth)
            && (given != "" <==> resolved.value.1 == FromFile || resolved.value.1 == FromBoth))
  {
  }

  lemma ResolveFormatMeaning(property: FlowFormat, file: FlowFormat)
    ensures
      var resolved := ResolveFormat(property, file);
      && (resolved.Err? <==> property != Unspecified && file != Unspecified && property != file)
      && (resolved.Err? ==> resolved == Err(FormatMismatch))
      && (resolved.Ok? ==>
            && resolved.value.0 == (if property != Unspecified then property else file)
            && (property != Unspecified <==> resolved.value.1 == FromProperty || resolved.value.1 == FromBoth)
            && (file != Unspecified <==> resolved.value.1 == FromFile || resolved.value.1 == FromBoth))
  {
  }

  datatype Resolution = Resolution(id: string, idOrigin: Origin, format: FlowFormat, formatOrigin: Origin)

  function Resolve(propertyId: string, propertyFormat: FlowFormat, file: Option<Json>): Result<Resolution> {
    var meta := if file.Some? then ReadFlowDefMeta(file.value) else Ok(Meta("", Unspecified));
    if meta.Err? then Err(meta.error)
    else
      var id := ResolveId(propertyId, if file.Some? then Some(meta.value.id) else None);
      var format := ResolveFormat(propertyFormat, meta.value.format);
      if id.Err? then Err(id.error)
      else if format.Err? then Err(format.error)
      else Ok(Resolution(id.value.0, id.value.1, format.value.0, format.value.1))
  }

  /**
   Splicing the flow id property and resolving with the same property never reports an
   id mismatch, and a given property is what is resolved.
   */
  lemma SplicedIdNeverMismatches(value: Json, o: Overrides, propertyId: string, propertyFormat: FlowFormat)
    requires Splice(value, o).Ok?
    requires o.flowId == if propertyId == "" then None else Some(propertyId)
    ensures
      var resolved := Resolve(propertyId, propertyFormat, Some(Splice(value, o).value));
      && resolved != Err(IdMismatch)
      && (resolved.Ok? && propertyId != "" ==>
            resolved.value.id == propertyId && resolved.value.idOrigin == FromBoth)
  {
    if propertyId != "" {
      SplicedText(value, o, 0);
    }
  }

  /** What a flow definition says of itself, when its members are texts. */
  predicate Says(file: Json, id: string, format: FlowFormat) {
    && OptionalText(file, "id").Ok? && OptionalText(file, "format").Ok?
    && id == (if OptionalText(file, "id").value.Some? then OptionalText(file, "id").value.value else "")
    && OptionalText(file, "format").value == (if format == Unspecified then None else Some(FormatUrn(format)))
  }

  /** The reader gives an id and a format exactly when the flow definition says them. */
  lemma ReadsWhatIsSaid(file: Json, id: string, format: FlowFormat)
    ensures ReadFlowDefMeta(file) == Ok(Meta(id, format)) <==> Says(file, id, format)
  {
    if format != Unspecified && OptionalText(file, "format").Ok? && OptionalText(file, "format").value.Some? {
      FormatUrnsRead(format, OptionalText(file, "format").value.value);
    }
  }

  /**
   Resolving the properties against a flow definition that says this id and format: it clashes
   exactly when one of them is given on both sides and differs, the id first, and otherwise a
   property wins and the file supplies what is not given.
   */
  lemma ResolveMeaning(propertyId: string, propertyFormat: FlowFormat, file: Json, id: string, format: FlowFormat)
    requires Says(file, id, format)
    ensures
      var resolved := Resolve(propertyId, propertyFormat, Some(file));
      var idsClash := propertyId != "" && id != "" && propertyId != id;
      var formatsClash := propertyFormat != Unspecified && format != Unspecified && propertyFormat != format;
      && (resolved == Err(IdMismatch) <==> idsClash)
      && (resolved == Err(FormatMismatch) <==> formatsClash && !idsClash)
      && (resolved.Ok? <==> !idsClash && !formatsClash)
      && (resolved.Ok? ==>
            && resolved.value.id == (if propertyId != "" then propertyId else id)
            && resolved.value.format == (if propertyFormat != Unspecified then propertyFormat else format))
  {
    if format != Unspecified {
      FormatUrnsRead(format, FormatUrn(format));
    }
    ResolveIdMeaning(propertyId, Some(id));
    ResolveFormatMeaning(propertyFormat, format);
  }
}
