/**
 The attribute list of one SDP media description, and what the in-place edits do to it.
 Every edit touches the attributes of one key, so it commutes with keeping the
 attributes of some keys only.
 */
module SdpAttributes {
  import opened Types

  datatype Attribute = Attribute(key: string, value: Option<string>)

  type Attributes = seq<Attribute>

  /** The attributes whose key is kept, in order. */
  function Kept(attributes: Attributes, keep: string -> bool): Attributes {
    if attributes == [] then []
    else if keep(attributes[0].key) then [attributes[0]] + Kept(attributes[1..], keep)
    else Kept(attributes[1..], keep)
  }

  function Is(key: string): string -> bool {
    k => k == key
  }

  function IsNot(key: string): string -> bool {
    k => k != key
  }

  lemma {:induction false} KeptConcat(a: Attributes, b: Attributes, keep: string -> bool)
    ensures Kept(a + b, keep) == Kept(a, keep) + Kept(b, keep)
  {
    if a == [] {
      assert a + b == b;
    } else {
      assert (a + b)[1..] == a[1..] + b;
      KeptConcat(a[1..], b, keep);
    }
  }

  lemma KeptHead(attribute: Attribute, rest: Attributes, keep: string -> bool)
    ensures Kept([attribute] + rest, keep)
         == if keep(attribute.key) then [attribute] + Kept(rest, keep) else Kept(rest, keep)
  {
    assert ([attribute] + rest)[1..] == rest;
  }

  lemma {:induction false} KeptAll(attributes: Attributes, keep: string -> bool)
    requires forall i :: 0 <= i < |attributes| ==> keep(attributes[i].key)
    ensures Kept(attributes, keep) == attributes
  {
    if attributes != [] {
      KeptAll(attributes[1..], keep);
    }
  }

  /** What is kept comes from the list and has a kept key; nothing of a kept key is lost. */
  lemma {:induction false} KeptMeaning(attributes: Attributes, keep: string -> bool)
    ensures forall a: Attribute :: a in Kept(attributes, keep) <==> a in attributes && keep(a.key)
  {
    if attributes != [] {
      KeptMeaning(attributes[1..], keep);
      assert attributes == [attributes[0]] + attributes[1..];
      forall a: Attribute
        ensures a in Kept(attributes, keep) <==> a in attributes && keep(a.key)
      {
        assert a in attributes <==> a == attributes[0] || a in attributes[1..];
      }
    }
  }

  /** Dropping a key that is not kept anyway changes nothing. */
  lemma {:induction false} KeptAfterRemoval(attributes: Attributes, key: string, keep: string -> bool)
    requires !keep(key)
    ensures Kept(Kept(attributes, IsNot(key)), keep) == Kept(attributes, keep)
  {
    if attributes != [] {
      KeptAfterRemoval(attributes[1..], key, keep);
      KeptHead(attributes[0], Kept(attributes[1..], IsNot(key)), keep);
    }
  }

  // Replacing the first attribute an edit applies to

  function FirstReplaced(attributes: Attributes, edit: Attribute -> Option<Attribute>): Attributes {
    if attributes == [] then []
    else if edit(attributes[0]).Some? then [edit(attributes[0]).value] + attributes[1..]
    else [attributes[0]] + FirstReplaced(attributes[1..], edit)
  }

  lemma {:induction false} FirstReplacedAt(attributes: Attributes, i: nat, edit: Attribute -> Option<Attribute>)
    requires i < |attributes| && edit(attributes[i]).Some?
    requires forall j :: 0 <= j < i ==> edit(attributes[j]).None?
    ensures FirstReplaced(attributes, edit) == attributes[i := edit(attributes[i]).value]
  {
    if i > 0 {
      FirstReplacedAt(attributes[1..], i - 1, edit);
      assert attributes[i := edit(attributes[i]).value]
          == [attributes[0]] + attributes[1..][i - 1 := edit(attributes[i]).value];
    }
  }

  lemma {:induction false} FirstReplacedNowhere(attributes: Attributes, edit: Attribute -> Option<Attribute>)
    requires forall j :: 0 <= j < |attributes| ==> edit(attributes[j]).None?
    ensures FirstReplaced(attributes, edit) == attributes
  {
    if attributes != [] {
      FirstReplacedNowhere(attributes[1..], edit);
    }
  }

  ghost predicate EditsOnly(edit: Attribute -> Option<Attribute>, key: string) {
    forall a: Attribute :: edit(a).Some? ==> a.key == key && edit(a).value.key == key
  }

  lemma {:induction false} FirstReplacedKept(
    attributes: Attributes, edit: Attribute -> Option<Attribute>, key: string, keep: string -> bool)
    requires EditsOnly(edit, key)
    ensures Kept(FirstReplaced(attributes, edit), keep)
         == if keep(key) then FirstReplaced(Kept(attributes, keep), edit) else Kept(attributes, keep)
  {
    if attributes != [] {
      var a, rest := attributes[0], attributes[1..];
      if edit(a).Some? {
        KeptHead(edit(a).value, rest, keep);
        assert keep(key) ==> Kept(attributes, keep)[1..] == Kept(rest, keep);
      } else {
        FirstReplacedKept(rest, edit, key, keep);
        KeptHead(a, FirstReplaced(rest, edit), keep);
        assert keep(a.key) ==> Kept(attributes, keep)[1..] == Kept(rest, keep);
      }
    }
  }

  // Upsert

  function Upserted(attributes: Attributes, key: string, value: string): Attributes {
    if attributes == [] then [Attribute(key, Some(value))]
    else if attributes[0].key == key then [Attribute(key, Some(value))] + attributes[1..]
    else [attributes[0]] + Upserted(attributes[1..], key, value)
  }

  lemma {:induction false} UpsertedFound(attributes: Attributes, i: nat, key: string, value: string)
    requires i < |attributes| && attributes[i].key == key
    requires forall j :: 0 <= j < i ==> attributes[j].key != key
    ensures Upserted(attributes, key, value) == attributes[i := Attribute(key, Some(value))]
  {
    if i > 0 {
      UpsertedFound(attributes[1..], i - 1, key, value);
      assert attributes[i := Attribute(key, Some(value))]
          == [attributes[0]] + attributes[1..][i - 1 := Attribute(key, Some(value))];
    }
  }

  lemma {:induction false} UpsertedNew(attributes: Attributes, key: string, value: string)
    requires forall j :: 0 <= j < |attributes| ==> attributes[j].key != key
    ensures Upserted(attributes, key, value) == attributes + [Attribute(key, Some(value))]
  {
    if attributes != [] {
      UpsertedNew(attributes[1..], key, value);
    }
  }

  lemma {:induction false} UpsertedKept(attributes: Attributes, key: string, value: string, keep: string -> bool)
    ensures Kept(Upserted(attributes, key, value), keep)
         == if keep(key) then Upserted(Kept(attributes, keep), key, value) else Kept(attributes, keep)
  {
    if attributes == [] {
      KeptHead(Attribute(key, Some(value)), [], keep);
      assert [Attribute(key, Some(value))] + [] == [Attribute(key, Some(value))];
    } else {
      var a, rest := attributes[0], attributes[1..];
      assert keep(a.key) ==> Kept(attributes, keep)[1..] == Kept(rest, keep);
      if a.key == key {
        KeptHead(Attribute(key, Some(value)), rest, keep);
      } else {
        UpsertedKept(rest, key, value, keep);
        KeptHead(a, Upserted(rest, key, value), keep);
      }
    }
  }

  /** The first attribute of the key, wherever it stands, ends with the value. */
  lemma {:induction false} UpsertedMeaning(attributes: Attributes, key: string, value: string)
    ensures
      var before, after := Kept(attributes, Is(key)), Kept(Upserted(attributes, key, value), Is(key));
      && after == [Attribute(key, Some(value))] + (if before == [] then [] else before[1..])
      && Kept(Upserted(attributes, key, value), IsNot(key)) == Kept(attributes, IsNot(key))
  {
    UpsertedKept(attributes, key, value, Is(key));
    UpsertedKept(attributes, key, value, IsNot(key));
    var before := Kept(attributes, Is(key));
    KeptMeaning(attributes, Is(key));
    assert before != [] ==> before[0] in before;
  }

  // A change of every attribute that keeps its key

  function Mapped(attributes: Attributes, edit: Attribute -> Attribute): Attributes {
    if attributes == [] then [] else [edit(attributes[0])] + Mapped(attributes[1..], edit)
  }

  lemma {:induction false} MappedAt(attributes: Attributes, edit: Attribute -> Attribute)
    ensures |Mapped(attributes, edit)| == |attributes|
    ensures forall i :: 0 <= i < |attributes| ==> Mapped(attributes, edit)[i] == edit(attributes[i])
  {
    if attributes != [] {
      MappedAt(attributes[1..], edit);
    }
  }

  lemma {:induction false} MappedKept(attributes: Attributes, edit: Attribute -> Attribute, keep: string -> bool)
    requires forall a: Attribute :: edit(a).key == a.key
    ensures Kept(Mapped(attributes, edit), keep) == Mapped(Kept(attributes, keep), edit)
  {
    if attributes != [] {
      var a, rest := attributes[0], attributes[1..];
      MappedKept(rest, edit, keep);
      KeptHead(edit(a), Mapped(rest, edit), keep);
      assert keep(a.key) ==> Kept(attributes, keep)[1..] == Kept(rest, keep);
    }
  }

  lemma {:induction false} MappedSame(attributes: Attributes, edit: Attribute -> Attribute)
    requires forall i :: 0 <= i < |attributes| ==> edit(attributes[i]) == attributes[i]
    ensures Mapped(attributes, edit) == attributes
  {
    MappedAt(attributes, edit);
  }
}
