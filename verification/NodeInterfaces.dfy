/**
 The node's interface list and the reference counts that decide which interfaces
 are listed.
 */
module NodeInterfaces {

  datatype NodeInterface = NodeInterface(
    chassisId: string, portId: string, name: string, attachedChassisId: string, attachedPortId: string)

  type RefCounts = map<string, int>
  type Details = map<string, NodeInterface>

  /** The counts are exactly the multiplicities; a name bound nowhere is not counted. */
  ghost predicate Counts(counts: RefCounts, bound: multiset<string>) {
    && (forall name :: name in counts <==> name in bound)
    && (forall name <- counts.Keys :: counts[name] == bound[name])
  }

  lemma CountsUnique(a: RefCounts, b: RefCounts, bound: multiset<string>)
    requires Counts(a, bound) && Counts(b, bound)
    ensures a == b
  {
    assert a.Keys == b.Keys;
  }

  ghost predicate DistinctNames(interfaces: seq<NodeInterface>) {
    forall i, j :: 0 <= i < j < |interfaces| ==> interfaces[i].name != interfaces[j].name
  }

  ghost function Names(interfaces: seq<NodeInterface>): set<string> {
    set i | 0 <= i < |interfaces| :: interfaces[i].name
  }

  /** Exactly one interface for each name. */
  ghost predicate Lists(interfaces: seq<NodeInterface>, names: set<string>) {
    DistinctNames(interfaces) && Names(interfaces) == names
  }

  function Without(interfaces: seq<NodeInterface>, names: set<string>): seq<NodeInterface> {
    if interfaces == [] then []
    else (if interfaces[0].name in names then [] else [interfaces[0]]) + Without(interfaces[1..], names)
  }

  lemma {:induction false} WithoutNone(interfaces: seq<NodeInterface>, names: set<string>)
    requires Names(interfaces) !! names
    ensures Without(interfaces, names) == interfaces
  {
    if interfaces != [] {
      assert interfaces[0].name in Names(interfaces);
      forall name | name in Names(interfaces[1..])
        ensures name in Names(interfaces)
      {
        var i :| 0 <= i < |interfaces[1..]| && interfaces[1..][i].name == name;
        assert interfaces[i + 1].name == name;
      }
      WithoutNone(interfaces[1..], names);
    }
  }

  lemma {:induction false} WithoutAll(interfaces: seq<NodeInterface>, names: set<string>)
    requires Names(interfaces) <= names
    ensures Without(interfaces, names) == []
  {
    if interfaces != [] {
      assert interfaces[0].name in Names(interfaces);
      forall name | name in Names(interfaces[1..])
        ensures name in Names(interfaces)
      {
        var i :| 0 <= i < |interfaces[1..]| && interfaces[1..][i].name == name;
        assert interfaces[i + 1].name == name;
      }
      WithoutAll(interfaces[1..], names);
    }
  }

  lemma {:induction false} WithoutConcat(a: seq<NodeInterface>, b: seq<NodeInterface>, names: set<string>)
    ensures Without(a + b, names) == Without(a, names) + Without(b, names)
  {
    if a == [] {
      assert a + b == b;
    } else {
      assert (a + b)[1..] == a[1..] + b;
      WithoutConcat(a[1..], b, names);
    }
  }

  lemma {:induction false} WithoutTwice(interfaces: seq<NodeInterface>, a: set<string>, b: set<string>)
    ensures Without(Without(interfaces, a), b) == Without(interfaces, a + b)
  {
    if interfaces != [] {
      WithoutTwice(interfaces[1..], a, b);
      var kept := if interfaces[0].name in a then [] else [interfaces[0]];
      WithoutConcat(kept, Without(interfaces[1..], a), b);
      assert Without([interfaces[0]], b) == if interfaces[0].name in b then [] else [interfaces[0]];
    }
  }

  /** Removing names from a list with one interface per name leaves one for each name kept. */
  lemma {:induction false} WithoutLists(interfaces: seq<NodeInterface>, names: set<string>)
    requires DistinctNames(interfaces)
    ensures Lists(Without(interfaces, names), Names(interfaces) - names)
  {
    if interfaces != [] {
      var rest := interfaces[1..];
      WithoutLists(rest, names);
      NamesCons(interfaces);
      if interfaces[0].name in names {
        assert Without(interfaces, names) == Without(rest, names);
      } else {
        var kept := Without(interfaces, names);
        assert kept[1..] == Without(rest, names);
        NamesCons(kept);
        DistinctCons(kept);
      }
    }
  }

  lemma DistinctCons(interfaces: seq<NodeInterface>)
    requires interfaces != [] && DistinctNames(interfaces[1..])
    requires interfaces[0].name !in Names(interfaces[1..])
    ensures DistinctNames(interfaces)
  {
    var rest := interfaces[1..];
    forall i, j | 0 <= i < j < |interfaces|
      ensures interfaces[i].name != interfaces[j].name
    {
      assert rest[j - 1] == interfaces[j];
      if i > 0 {
        assert rest[i - 1] == interfaces[i];
      } else {
        assert rest[j - 1].name in Names(rest);
      }
    }
  }

  lemma NamesCons(interfaces: seq<NodeInterface>)
    requires interfaces != []
    ensures Names(interfaces) == {interfaces[0].name} + Names(interfaces[1..])
    ensures DistinctNames(interfaces) ==> interfaces[0].name !in Names(interfaces[1..])
  {
    forall name | name in Names(interfaces)
      ensures name in {interfaces[0].name} + Names(interfaces[1..])
    {
      var i :| 0 <= i < |interfaces| && interfaces[i].name == name;
      if i > 0 {
        assert interfaces[1..][i - 1].name == name;
      }
    }
    forall name | name in Names(interfaces[1..])
      ensures name in Names(interfaces) && (DistinctNames(interfaces) ==> name != interfaces[0].name)
    {
      var i :| 0 <= i < |interfaces[1..]| && interfaces[1..][i].name == name;
      assert interfaces[i + 1].name == name;
    }
  }

  lemma ListsAppend(interfaces: seq<NodeInterface>, names: set<string>, added: NodeInterface)
    requires Lists(interfaces, names) && added.name !in names
    ensures Lists(interfaces + [added], names + {added.name})
  {
    var all := interfaces + [added];
    assert all[|interfaces|] == added;
    forall name | name in names
      ensures name in Names(all)
    {
      var i :| 0 <= i < |interfaces| && interfaces[i].name == name;
      assert all[i].name == name;
    }
    forall i | 0 <= i < |interfaces|
      ensures all[i].name in names
    {
      assert all[i] == interfaces[i];
    }
    assert Names(all) == names + {added.name};
  }

  function DetailOf(details: Details, name: string): NodeInterface {
    if name in details then details[name] else NodeInterface("", "", name, "", "")
  }

  /** Details are keyed by the names they carry. */
  predicate Keyed(details: Details) {
    forall name <- details.Keys :: details[name].name == name
  }

  /** In a list with distinct names, dropping the position that has a name is removing that name. */
  lemma {:induction false} ErasedAt(interfaces: seq<NodeInterface>, found: nat)
    requires DistinctNames(interfaces) && found < |interfaces|
    ensures Without(interfaces, {interfaces[found].name}) == interfaces[..found] + interfaces[found + 1..]
  {
    var rest := interfaces[1..];
    if found == 0 {
      NamesCons(interfaces);
      WithoutNone(rest, {interfaces[0].name});
    } else {
      assert DistinctNames(rest) && rest[found - 1] == interfaces[found];
      ErasedAt(rest, found - 1);
      assert interfaces[0].name != interfaces[found].name;
      assert interfaces[..found] + interfaces[found + 1..]
          == [interfaces[0]] + (rest[..found - 1] + rest[found..]);
    }
  }

  /** Erases the first interface with a name, if there is one. */
  method EraseNamed(interfaces: seq<NodeInterface>, name: string) returns (left: seq<NodeInterface>)
    requires DistinctNames(interfaces)
    ensures left == Without(interfaces, {name})
  {
    var found := 0;
    while found < |interfaces| && interfaces[found].name != name
      invariant 0 <= found <= |interfaces|
      invariant forall i :: 0 <= i < found ==> interfaces[i].name != name
    {
      found := found + 1;
    }
    if found < |interfaces| {
      ErasedAt(interfaces, found);
      left := interfaces[..found] + interfaces[found + 1..];
    } else {
      WithoutNone(interfaces, {name});
      left := interfaces;
    }
  }

  /** A list that lost the names in `gone` and then gained those in `novel`, with their details, at its end. */
  ghost predicate Relisted(
      before: seq<NodeInterface>, after: seq<NodeInterface>, gone: set<string>, novel: set<string>, details: Details)
  {
    var kept := Without(before, gone);
    && kept <= after
    && Lists(after[|kept|..], novel)
    && (forall i :: |kept| <= i < |after| ==> after[i] == DetailOf(details, after[i].name))
  }

  function CountOf(counts: RefCounts, name: string): int {
    if name in counts then counts[name] else 0
  }

  /** One reference fewer; the last one ends the count. */
  function CountDown(counts: RefCounts, name: string): RefCounts {
    if CountOf(counts, name) <= 1 then counts - {name} else counts[name := counts[name] - 1]
  }

  lemma CountDownMeaning(counts: RefCounts, name: string, bound: multiset<string>)
    requires Counts(counts, bound) && name in bound
    ensures Counts(CountDown(counts, name), bound - multiset{name})
    ensures CountOf(counts, name) <= 1 <==> name !in bound - multiset{name}
  {
    forall other
      ensures (bound - multiset{name})[other] == if other == name then bound[name] - 1 else bound[other]
    {
    }
  }

  /** The names that are bound no longer once these are released. */
  ghost function Unbound(names: seq<string>, bound: multiset<string>): set<string> {
    set name | name in names && name !in bound - multiset(names)
  }

  lemma UnboundNext(names: seq<string>, i: nat, bound: multiset<string>)
    requires i < |names| && multiset(names) <= bound
    ensures
      var before := bound - multiset(names[..i]);
      && bound - multiset(names[..i + 1]) == before - multiset{names[i]}
      && names[i] in before
      && Unbound(names[..i + 1], bound)
         == Unbound(names[..i], bound) + (if names[i] !in before - multiset{names[i]} then {names[i]} else {})
  {
    TakeNext(names, i, bound);
    assert names[..i + 1] == names[..i] + [names[i]];
  }

  /** One count down per name; the names whose count ends are returned. */
  method Release(counts: RefCounts, names: seq<string>, ghost bound: multiset<string>)
    returns (left: RefCounts, gone: set<string>)
    requires Counts(counts, bound) && multiset(names) <= bound
    ensures Counts(left, bound - multiset(names))
    ensures gone == Unbound(names, bound)
    ensures left.Keys == counts.Keys - gone && gone <= counts.Keys
  {
    left, gone := counts, {};
    for i := 0 to |names|
      invariant Counts(left, bound - multiset(names[..i]))
      invariant gone == Unbound(names[..i], bound)
    {
      var name := names[i];
      UnboundNext(names, i, bound);
      CountDownMeaning(left, name, bound - multiset(names[..i]));
      if CountOf(left, name) <= 1 {
        gone := gone + {name};
      }
      left := CountDown(left, name);
    }
    assert names[..|names|] == names;
    ReleasedKeys(counts, left, names, bound);
  }

  lemma ReleasedKeys(counts: RefCounts, left: RefCounts, names: seq<string>, bound: multiset<string>)
    requires Counts(counts, bound) && multiset(names) <= bound && Counts(left, bound - multiset(names))
    ensures left.Keys == counts.Keys - Unbound(names, bound) && Unbound(names, bound) <= counts.Keys
  {
    forall name
      ensures name in names <==> name in multiset(names)
      ensures name in names ==> name in bound
    {
    }
  }

  lemma TakeNext(names: seq<string>, i: nat, bound: multiset<string>)
    requires i < |names| && multiset(names) <= bound
    ensures multiset(names[..i + 1]) == multiset(names[..i]) + multiset{names[i]}
    ensures names[i] in bound - multiset(names[..i])
    ensures multiset(names[..i]) <= bound
  {
    assert names[..i + 1] == names[..i] + [names[i]];
    assert names == names[..i + 1] + names[i + 1..];
    assert multiset(names) == multiset(names[..i + 1]) + multiset(names[i + 1..]);
  }

  function CountUp(counts: RefCounts, name: string): RefCounts {
    counts[name := CountOf(counts, name) + 1]
  }

  lemma CountUpMeaning(counts: RefCounts, name: string, bound: multiset<string>)
    requires Counts(counts, bound)
    ensures Counts(CountUp(counts, name), bound + multiset{name})
    ensures CountOf(counts, name) == 0 <==> name !in bound
  {
    forall other
      ensures (bound + multiset{name})[other] == if other == name then bound[name] + 1 else bound[other]
    {
    }
  }

  /** The names that are not bound yet. */
  ghost function Novel(names: seq<string>, bound: multiset<string>): set<string> {
    set name | name in names && name !in bound
  }

  lemma NovelNext(names: seq<string>, i: nat, bound: multiset<string>)
    requires i < |names|
    ensures bound + multiset(names[..i + 1]) == bound + multiset(names[..i]) + multiset{names[i]}
    ensures Novel(names[..i + 1], bound)
         == Novel(names[..i], bound) + (if names[i] !in bound + multiset(names[..i]) then {names[i]} else {})
  {
    assert names[..i + 1] == names[..i] + [names[i]];
    assert names[i] in multiset(names[..i]) <==> names[i] in names[..i];
  }

  /** One count up per name; the names counted for the first time are returned. */
  method Acquire(counts: RefCounts, names: seq<string>, ghost bound: multiset<string>)
    returns (held: RefCounts, novel: set<string>)
    requires Counts(counts, bound)
    ensures Counts(held, bound + multiset(names))
    ensures novel == Novel(names, bound)
    ensures held.Keys == counts.Keys + novel && novel !! counts.Keys
  {
    held, novel := counts, {};
    for i := 0 to |names|
      invariant Counts(held, bound + multiset(names[..i]))
      invariant novel == Novel(names[..i], bound)
    {
      var name := names[i];
      NovelNext(names, i, bound);
      CountUpMeaning(held, name, bound + multiset(names[..i]));
      if CountOf(held, name) == 0 {
        novel := novel + {name};
      }
      held := CountUp(held, name);
    }
    assert names[..|names|] == names;
    AcquiredKeys(counts, held, names, bound);
  }

  lemma AcquiredKeys(counts: RefCounts, held: RefCounts, names: seq<string>, bound: multiset<string>)
    requires Counts(counts, bound) && Counts(held, bound + multiset(names))
    ensures held.Keys == counts.Keys + Novel(names, bound) && Novel(names, bound) !! counts.Keys
  {
    forall name
      ensures name in names <==> name in multiset(names)
    {
    }
  }

  method EraseAll(interfaces: seq<NodeInterface>, gone: set<string>) returns (kept: seq<NodeInterface>)
    requires DistinctNames(interfaces)
    ensures kept == Without(interfaces, gone)
  {
    kept := interfaces;
    var todo := gone;
    WithoutNone(interfaces, gone - todo);
    while todo != {}
      invariant todo <= gone
      invariant kept == Without(interfaces, gone - todo)
      decreases |todo|
    {
      var name :| name in todo;
      WithoutLists(interfaces, gone - todo);
      WithoutTwice(interfaces, gone - todo, {name});
      assert gone - (todo - {name}) == gone - todo + {name};
      kept := EraseNamed(kept, name);
      todo := todo - {name};
    }
    assert gone - {} == gone;
  }

  method AppendAll(novel: set<string>, details: Details) returns (added: seq<NodeInterface>)
    requires Keyed(details)
    ensures Lists(added, novel)
    ensures forall i :: 0 <= i < |added| ==> added[i] == DetailOf(details, added[i].name)
  {
    added := [];
    var todo := novel;
    while todo != {}
      invariant todo <= novel && Detailed(added, novel - todo, details)
      decreases |todo|
    {
      var name :| name in todo;
      DetailedNext(added, novel - todo, details, name);
      assert novel - todo + {name} == novel - (todo - {name});
      added := added + [DetailOf(details, name)];
      todo := todo - {name};
    }
    assert novel - {} == novel;
  }

  ghost predicate Detailed(interfaces: seq<NodeInterface>, names: set<string>, details: Details) {
    && Lists(interfaces, names)
    && forall i :: 0 <= i < |interfaces| ==> interfaces[i] == DetailOf(details, interfaces[i].name)
  }

  lemma DetailedNext(interfaces: seq<NodeInterface>, names: set<string>, details: Details, name: string)
    requires Keyed(details) && Detailed(interfaces, names, details) && name !in names
    ensures Detailed(interfaces + [DetailOf(details, name)], names + {name}, details)
  {
    ListsAppend(interfaces, names, DetailOf(details, name));
  }

  lemma ListsConcat(a: seq<NodeInterface>, b: seq<NodeInterface>, namesA: set<string>, namesB: set<string>)
    requires Lists(a, namesA) && Lists(b, namesB) && namesA !! namesB
    ensures Lists(a + b, namesA + namesB)
  {
    var all := a + b;
    forall i | 0 <= i < |all|
      ensures all[i].name in namesA + namesB && (all[i].name in namesA <==> i < |a|)
    {
      if i < |a| {
        assert a[i].name in Names(a);
      } else {
        assert all[i] == b[i - |a|];
        assert b[i - |a|].name in Names(b);
      }
    }
    forall i, j | 0 <= i < j < |all|
      ensures all[i].name != all[j].name
    {
      if i >= |a| {
        assert all[i] == b[i - |a|] && all[j] == b[j - |a|];
      }
    }
    forall name | name in namesA + namesB
      ensures name in Names(all)
    {
      if name in namesA {
        var i :| 0 <= i < |a| && a[i].name == name;
        assert all[i].name == name;
      } else {
        var i :| 0 <= i < |b| && b[i].name == name;
        assert all[i + |a|].name == name;
      }
    }
  }

  /** Removes and then adds names on the node's list, in any order of each set. */
  method Relist(interfaces: seq<NodeInterface>, gone: set<string>, novel: set<string>, details: Details)
    returns (listed: seq<NodeInterface>)
    requires DistinctNames(interfaces) && Keyed(details)
    requires novel !! Names(interfaces) - gone
    ensures Relisted(interfaces, listed, gone, novel, details)
    ensures Lists(listed, Names(interfaces) - gone + novel)
  {
    var kept := EraseAll(interfaces, gone);
    var added := AppendAll(novel, details);
    listed := kept + added;
    assert listed[|kept|..] == added;
    WithoutLists(interfaces, gone);
    ListsConcat(kept, added, Names(interfaces) - gone, novel);
  }

  datatype Listing = Listing(counts: RefCounts, interfaces: seq<NodeInterface>)

  /** Counts and list both stand for the same bindings. */
  ghost predicate StandsFor(listing: Listing, bound: multiset<string>) {
    Counts(listing.counts, bound) && Lists(listing.interfaces, listing.counts.Keys)
  }

  lemma NothingRelisted(interfaces: seq<NodeInterface>, details: Details)
    ensures Relisted(interfaces, interfaces, {}, {}, details)
  {
    WithoutNone(interfaces, {});
  }

  /**
   Releases some bindings and acquires others. `changed` tells whether the node's
   list was touched.
   */
  method UpdateInterfaces(
      listing: Listing, removed: seq<string>, added: seq<string>, details: Details, ghost bound: multiset<string>)
    returns (updated: Listing, changed: bool)
    requires StandsFor(listing, bound) && multiset(removed) <= bound && Keyed(details)
    ensures StandsFor(updated, bound - multiset(removed) + multiset(added))
    ensures Relisted(listing.interfaces, updated.interfaces,
                     Unbound(removed, bound), Novel(added, bound - multiset(removed)), details)
    ensures !changed ==> updated.interfaces == listing.interfaces
    ensures changed <==> Unbound(removed, bound) != {} || Novel(added, bound - multiset(removed)) != {}
  {
    NothingRelisted(listing.interfaces, details);
    if added == [] && removed == [] {
      assert Unbound([], bound) == {} && Novel([], bound - multiset([])) == {};
      assert bound - multiset([]) + multiset([]) == bound;
      return listing, false;
    }
    var counts, gone := Release(listing.counts, removed, bound);
    var counts', novel := Acquire(counts, added, bound - multiset(removed));
    if gone == {} && novel == {} {
      return Listing(counts', listing.interfaces), false;
    }
    var interfaces := Relist(listing.interfaces, gone, novel, details);
    return Listing(counts', interfaces), true;
  }
}
