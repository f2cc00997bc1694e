/**
 The node model's senders and receivers: the resource tables, the settings kept
 beside them and the node's interface list, changed together by add and remove.

 Ids stand for the repeatable ids made from the seed, a type and a name, taken to
 be injective.
 */
module NodeModel {
  import opened Types
  import opened Annotations
  import opened AnnotationPatch
  import opened NodeInterfaces

  datatype Id = SourceId(name: string) | FlowId(name: string) | SenderId(name: string) | ReceiverId(name: string)

  /** `data` stands for the label, description, tags and format of a resource. */
  datatype NodeResource = NodeResource(
    data: string, bindings: seq<string>, flowId: Option<Id>, sourceId: Option<Id>)

  type Resources = map<Id, NodeResource>

  /** A resource as built from a transport file: its defaults, and its data once annotated. */
  datatype Draft = Draft(defaults: Defaults, data: string)

  /** What an accepted transport file of a sender says; an MXL one has no bindings and no clock. */
  datatype SenderConfig = SenderConfig(
    name: string, source: Draft, flow: Draft, sender: Draft, connection: string,
    bindings: seq<string>, details: Details, clock: Option<string>, transport: string)

  datatype ReceiverConfig = ReceiverConfig(
    name: string, receiver: Draft, connection: string,
    bindings: seq<string>, details: Details, transport: string)

  datatype Model = Model(
    resources: Resources,
    connections: map<Id, string>,
    transports: map<Id, string>,
    defaults: map<Id, Defaults>,
    listing: Listing,
    clock: string,
    version: nat)

  // Bindings of all live resources

  ghost function AllBindings(resources: Resources): multiset<string>
    decreases |resources|
  {
    if resources == map[] then multiset{}
    else
      var id :| id in resources;
      SmallerMap(resources, id);
      multiset(resources[id].bindings) + AllBindings(resources - {id})
  }

  lemma SmallerMap<K, V>(m: map<K, V>, key: K)
    requires key in m
    ensures |m - {key}| < |m|
  {
    assert (m - {key}).Keys == m.Keys - {key};
  }

  /** The sum does not depend on the order in which resources are taken. */
  lemma {:induction false} AllBindingsErase(resources: Resources, id: Id)
    requires id in resources
    ensures AllBindings(resources) == AllBindings(resources - {id}) + multiset(resources[id].bindings)
    decreases |resources|
  {
    var first: Id :| first in resources
      && AllBindings(resources) == multiset(resources[first].bindings) + AllBindings(resources - {first});
    if first != id {
      SmallerMap(resources, first);
      SmallerMap(resources, id);
      AllBindingsErase(resources - {first}, id);
      AllBindingsErase(resources - {id}, first);
      assert resources - {first} - {id} == resources - {id} - {first};
    }
  }

  lemma AllBindingsInsert(resources: Resources, id: Id, resource: NodeResource)
    requires id !in resources
    ensures AllBindings(resources[id := resource]) == AllBindings(resources) + multiset(resource.bindings)
  {
    var grown := resources[id := resource];
    AllBindingsErase(grown, id);
    assert grown - {id} == resources;
  }

  // Invariant

  /** A sender has its source, its flow, its connection and its settings, and none of them stands alone. */
  ghost predicate Complete(m: Model) {
    && (forall name ::
          && (SenderId(name) in m.resources <==> SourceId(name) in m.resources)
          && (SenderId(name) in m.resources <==> FlowId(name) in m.resources)
          && (SenderId(name) in m.resources <==> SenderId(name) in m.connections)
          && (SenderId(name) in m.resources <==> SenderId(name) in m.transports))
    && (forall name ::
          && (ReceiverId(name) in m.resources <==> ReceiverId(name) in m.connections)
          && (ReceiverId(name) in m.resources <==> ReceiverId(name) in m.transports))
    && m.defaults.Keys == m.resources.Keys
  }

  /** Removal follows these references from a sender to its flow and its source. */
  ghost predicate Linked(resources: Resources) {
    forall id <- resources.Keys ::
      match id
      case SenderId(name) => resources[id].flowId == Some(FlowId(name))
      case FlowId(name) => resources[id].sourceId == Some(SourceId(name)) && resources[id].bindings == []
      case SourceId(_) => resources[id].bindings == []
      case ReceiverId(_) => true
  }

  /**
   Interface conservation: each count is the total multiplicity of its name in the
   bindings of all live senders and receivers, a name bound nowhere is not counted,
   and the node lists exactly one interface per counted name.
   */
  ghost predicate Conserved(m: Model) {
    StandsFor(m.listing, AllBindings(m.resources))
  }

  ghost predicate Inv(m: Model) {
    Complete(m) && Linked(m.resources) && Conserved(m)
  }

  // What add and remove do

  function SenderResources(resources: Resources, c: SenderConfig): Resources {
    resources[SourceId(c.name) := NodeResource(c.source.data, [], None, None)]
             [FlowId(c.name) := NodeResource(c.flow.data, [], None, Some(SourceId(c.name)))]
             [SenderId(c.name) := NodeResource(c.sender.data, c.bindings, Some(FlowId(c.name)), None)]
  }

  function SenderDefaults(defaults: map<Id, Defaults>, c: SenderConfig): map<Id, Defaults> {
    defaults[SourceId(c.name) := c.source.defaults]
            [FlowId(c.name) := c.flow.defaults]
            [SenderId(c.name) := c.sender.defaults]
  }

  /** One version step for a change that happened. */
  function Bump(changed: bool): nat {
    if changed then 1 else 0
  }

  ghost predicate SenderAdded(m: Model, m': Model, c: SenderConfig) {
    && m'.resources == SenderResources(m.resources, c)
    && m'.defaults == SenderDefaults(m.defaults, c)
    && m'.connections == m.connections[SenderId(c.name) := c.connection]
    && m'.transports == m.transports[SenderId(c.name) := c.transport]
    && Relisted(m.listing.interfaces, m'.listing.interfaces, {}, Novel(c.bindings, AllBindings(m.resources)), c.details)
    && m'.clock == (if c.clock.Some? then c.clock.value else m.clock)
    && m'.version == m.version + Bump(Novel(c.bindings, AllBindings(m.resources)) != {}) + Bump(m'.clock != m.clock)
  }

  ghost predicate ReceiverAdded(m: Model, m': Model, c: ReceiverConfig) {
    var id := ReceiverId(c.name);
    && m'.resources == m.resources[id := NodeResource(c.receiver.data, c.bindings, None, None)]
    && m'.defaults == m.defaults[id := c.receiver.defaults]
    && m'.connections == m.connections[id := c.connection]
    && m'.transports == m.transports[id := c.transport]
    && Relisted(m.listing.interfaces, m'.listing.interfaces, {}, Novel(c.bindings, AllBindings(m.resources)), c.details)
    && m'.clock == m.clock
    && m'.version == m.version + Bump(Novel(c.bindings, AllBindings(m.resources)) != {})
  }

  /** The ids that go with a sender or receiver. */
  function Family(id: Id): set<Id> {
    if id.SenderId? then {id, FlowId(id.name), SourceId(id.name)} else {id}
  }

  ghost predicate ConnectionRemoved(m: Model, m': Model, id: Id) {
    && id in m.resources
    && m'.resources == m.resources - Family(id)
    && m'.defaults == m.defaults - Family(id)
    && m'.connections == m.connections - {id}
    && m'.transports == m.transports - {id}
    && Relisted(m.listing.interfaces, m'.listing.interfaces, Novel(m.resources[id].bindings, AllBindings(m'.resources)), {}, map[])
    && m'.clock == m.clock
    && m'.version == m.version + Bump(Novel(m.resources[id].bindings, AllBindings(m'.resources)) != {})
  }

  lemma SenderAddedBindings(resources: Resources, c: SenderConfig)
    requires Family(SenderId(c.name)) !! resources.Keys
    ensures AllBindings(SenderResources(resources, c)) == AllBindings(resources) + multiset(c.bindings)
  {
    var r1 := resources[SourceId(c.name) := NodeResource(c.source.data, [], None, None)];
    var r2 := r1[FlowId(c.name) := NodeResource(c.flow.data, [], None, Some(SourceId(c.name)))];
    AllBindingsInsert(resources, SourceId(c.name), NodeResource(c.source.data, [], None, None));
    AllBindingsInsert(r1, FlowId(c.name), NodeResource(c.flow.data, [], None, Some(SourceId(c.name))));
    AllBindingsInsert(r2, SenderId(c.name), NodeResource(c.sender.data, c.bindings, Some(FlowId(c.name)), None));
  }

  lemma RemovedBindings(m: Model, id: Id)
    requires Complete(m) && Linked(m.resources) && id in m.resources && (id.SenderId? || id.ReceiverId?)
    ensures AllBindings(m.resources) == AllBindings(m.resources - Family(id)) + multiset(m.resources[id].bindings)
  {
    AllBindingsErase(m.resources, id);
    if id.SenderId? {
      var flow, source := FlowId(id.name), SourceId(id.name);
      assert flow in m.resources && source in m.resources;
      UnboundPairErase(m.resources - {id}, flow, source);
      assert m.resources - Family(id) == m.resources - {id} - {flow} - {source};
    }
  }

  lemma UnboundPairErase(resources: Resources, a: Id, b: Id)
    requires a in resources && b in resources && a != b
    requires resources[a].bindings == [] && resources[b].bindings == []
    ensures AllBindings(resources - {a} - {b}) == AllBindings(resources)
  {
    AllBindingsErase(resources, a);
    AllBindingsErase(resources - {a}, b);
  }

  lemma NoRelease(bound: multiset<string>, names: seq<string>)
    ensures Unbound([], bound) == {} && bound - multiset([]) + multiset(names) == bound + multiset(names)
    ensures bound - multiset([]) == bound
  {
  }

  /** A sender's insertions with the matching change of the listing keep the invariant. */
  lemma SenderAddKeepsInv(m: Model, m': Model, c: SenderConfig)
    requires Inv(m) && SenderId(c.name) !in m.resources && SenderAdded(m, m', c)
    requires StandsFor(m'.listing, AllBindings(m.resources) + multiset(c.bindings))
    ensures Inv(m')
  {
    SenderAddKeepsShape(m, m', c);
    SenderAddedBindings(m.resources, c);
  }

  lemma ReceiverAddKeepsInv(m: Model, m': Model, c: ReceiverConfig)
    requires Inv(m) && ReceiverId(c.name) !in m.resources && ReceiverAdded(m, m', c)
    requires StandsFor(m'.listing, AllBindings(m.resources) + multiset(c.bindings))
    ensures Inv(m')
  {
    ReceiverAddKeepsShape(m, m', c);
    AllBindingsInsert(m.resources, ReceiverId(c.name), NodeResource(c.receiver.data, c.bindings, None, None));
  }

  lemma RemoveKeepsInv(m: Model, m': Model, id: Id)
    requires Inv(m) && (id.SenderId? || id.ReceiverId?) && ConnectionRemoved(m, m', id)
    requires StandsFor(m'.listing, AllBindings(m.resources) - multiset(m.resources[id].bindings))
    ensures Inv(m')
  {
    RemoveKeepsShape(m, m', id);
    RemovedBindings(m, id);
    assert AllBindings(m.resources) - multiset(m.resources[id].bindings) == AllBindings(m'.resources);
  }

  /** A refused add changes defaults of live resources only. */
  lemma DuplicateKeepsInv(m: Model, defaults: map<Id, Defaults>)
    requires Inv(m) && defaults.Keys == m.defaults.Keys
    ensures Inv(m.(defaults := defaults))
  {
  }

  lemma SenderAddKeepsShape(m: Model, m': Model, c: SenderConfig)
    requires Complete(m) && Linked(m.resources)
    requires m'.resources == SenderResources(m.resources, c) && m'.defaults == SenderDefaults(m.defaults, c)
    requires m'.connections == m.connections[SenderId(c.name) := c.connection]
    requires m'.transports == m.transports[SenderId(c.name) := c.transport]
    ensures Complete(m') && Linked(m'.resources)
  {
  }

  lemma ReceiverAddKeepsShape(m: Model, m': Model, c: ReceiverConfig)
    requires Complete(m) && Linked(m.resources)
    requires m'.resources == m.resources[ReceiverId(c.name) := NodeResource(c.receiver.data, c.bindings, None, None)]
    requires m'.defaults == m.defaults[ReceiverId(c.name) := c.receiver.defaults]
    requires m'.connections == m.connections[ReceiverId(c.name) := c.connection]
    requires m'.transports == m.transports[ReceiverId(c.name) := c.transport]
    ensures Complete(m') && Linked(m'.resources)
  {
  }

  lemma RemoveKeepsShape(m: Model, m': Model, id: Id)
    requires Complete(m) && Linked(m.resources) && (id.SenderId? || id.ReceiverId?)
    requires m'.resources == m.resources - Family(id) && m'.defaults == m.defaults - Family(id)
    requires m'.connections == m.connections - {id} && m'.transports == m.transports - {id}
    ensures Complete(m') && Linked(m'.resources)
  {
  }

  lemma RemovedNames(m: Model, id: Id)
    requires Inv(m) && id in m.resources && (id.SenderId? || id.ReceiverId?)
    ensures
      var names, bound := m.resources[id].bindings, AllBindings(m.resources);
      && multiset(names) <= bound
      && Unbound(names, bound) == Novel(names, AllBindings(m.resources - Family(id)))
      && Novel([], bound - multiset(names)) == {}
      && bound - multiset(names) + multiset([]) == bound - multiset(names)
  {
    RemovedBindings(m, id);
    var names, bound := m.resources[id].bindings, AllBindings(m.resources);
    assert bound - multiset(names) == AllBindings(m.resources - Family(id));
  }

  /** A live sender's flow and source, found by following its references. */
  lemma FamilyIsLinked(m: Model, id: Id)
    requires Inv(m) && id in m.resources && id.SenderId?
    ensures m.resources[id].flowId == Some(FlowId(id.name)) && FlowId(id.name) in m.resources
    ensures m.resources[FlowId(id.name)].sourceId == Some(SourceId(id.name))
    ensures SourceId(id.name) in m.resources
  {
  }

  lemma SenderDefaultsKeys(m: Model, c: SenderConfig)
    requires Inv(m) && SenderId(c.name) in m.resources
    ensures SenderDefaults(m.defaults, c).Keys == m.defaults.Keys
  {
    assert SourceId(c.name) in m.resources && FlowId(c.name) in m.resources;
  }

  /** The nmos::insert_resource of one table: refuses an id that is already there. */
  method Insert(resources: Resources, id: Id, resource: NodeResource) returns (after: Resources, inserted: bool)
    ensures inserted <==> id !in resources
    ensures after == if inserted then resources[id := resource] else resources
  {
    if id in resources {
      return resources, false;
    }
    return resources[id := resource], true;
  }

  class Node {
    var model: Model

    constructor (clock: string)
      ensures Inv(model)
      ensures model == Model(map[], map[], map[], map[], Listing(map[], []), clock, 0)
    {
      model := Model(map[], map[], map[], map[], Listing(map[], []), clock, 0);
    }

    /** Lists the bound interfaces again; the version rises when some interface comes or goes. */
    method UpdateListing(removed: seq<string>, added: seq<string>, details: Details, ghost bound: multiset<string>)
      requires StandsFor(model.listing, bound) && multiset(removed) <= bound && Keyed(details)
      modifies this
      ensures
        var gone, novel := Unbound(removed, bound), Novel(added, bound - multiset(removed));
        && model == old(model).(
             listing := model.listing, version := old(model.version) + Bump(gone != {} || novel != {}))
        && StandsFor(model.listing, bound - multiset(removed) + multiset(added))
        && Relisted(old(model.listing.interfaces), model.listing.interfaces, gone, novel, details)
    {
      var listing, changed := UpdateInterfaces(model.listing, removed, added, details, bound);
      model := model.(listing := listing, version := if changed then model.version + 1 else model.version);
    }

    method UpdateClock(clock: Option<string>)
      modifies this
      ensures
        var after := if clock.Some? then clock.value else old(model.clock);
        model == old(model).(clock := after, version := old(model.version) + Bump(after != old(model.clock)))
    {
      if clock.Some? && clock.value != model.clock {
        model := model.(clock := clock.value, version := model.version + 1);
      }
    }

    /** The annotation defaults are written before the insertion that may refuse. */
    method AddSender(c: SenderConfig) returns (added: bool)
      requires Inv(model) && Keyed(c.details)
      modifies this
      ensures Inv(model)
      ensures added <==> SenderId(c.name) !in old(model.resources)
      ensures added ==> SenderAdded(old(model), model, c)
      ensures !added ==> model == old(model).(defaults := SenderDefaults(old(model.defaults), c))
    {
      ghost var m := model;
      assert SourceId(c.name) in m.resources <==> SenderId(c.name) in m.resources;
      assert FlowId(c.name) in m.resources <==> SenderId(c.name) in m.resources;
      model := model.(defaults := SenderDefaults(model.defaults, c));
      var resources;
      resources, added := Insert(model.resources, SourceId(c.name), NodeResource(c.source.data, [], None, None));
      if !added {
        SenderDefaultsKeys(m, c);
        DuplicateKeepsInv(m, model.defaults);
        return;
      }
      resources, added := Insert(resources, FlowId(c.name),
                                 NodeResource(c.flow.data, [], None, Some(SourceId(c.name))));
      if !added {
        return;
      }
      resources, added := Insert(resources, SenderId(c.name),
                                 NodeResource(c.sender.data, c.bindings, Some(FlowId(c.name)), None));
      if !added {
        return;
      }
      model := model.(resources := resources, connections := model.connections[SenderId(c.name) := c.connection]);
      NoRelease(AllBindings(m.resources), c.bindings);
      UpdateListing([], c.bindings, c.details, AllBindings(m.resources));
      UpdateClock(c.clock);
      model := model.(transports := model.transports[SenderId(c.name) := c.transport]);
      SenderAddKeepsInv(m, model, c);
    }

    method AddReceiver(c: ReceiverConfig) returns (added: bool)
      requires Inv(model) && Keyed(c.details)
      modifies this
      ensures Inv(model)
      ensures added <==> ReceiverId(c.name) !in old(model.resources)
      ensures added ==> ReceiverAdded(old(model), model, c)
      ensures !added ==>
        model == old(model).(defaults := old(model.defaults)[ReceiverId(c.name) := c.receiver.defaults])
    {
      ghost var m := model;
      var id := ReceiverId(c.name);
      model := model.(defaults := model.defaults[id := c.receiver.defaults]);
      var resources;
      resources, added := Insert(model.resources, id, NodeResource(c.receiver.data, c.bindings, None, None));
      if !added {
        assert model.defaults.Keys == m.defaults.Keys;
        DuplicateKeepsInv(m, model.defaults);
        return;
      }
      model := model.(resources := resources, connections := model.connections[id := c.connection]);
      NoRelease(AllBindings(m.resources), c.bindings);
      UpdateListing([], c.bindings, c.details, AllBindings(m.resources));
      model := model.(transports := model.transports[id := c.transport]);
      ReceiverAddKeepsInv(m, model, c);
    }

    /** Removes a sender with its flow and source, or a receiver. */
    method RemoveConnection(id: Id) returns (removed: bool)
      requires Inv(model) && (id.SenderId? || id.ReceiverId?)
      modifies this
      ensures Inv(model)
      ensures removed <==> id in old(model.resources)
      ensures removed ==> ConnectionRemoved(old(model), model, id)
      ensures !removed ==> model == old(model)
    {
      if id !in model.resources {
        return false;
      }
      ghost var m := model;
      var bindings := model.resources[id].bindings;
      model := model.(connections := model.connections - {id});
      var family := {id};
      if id.SenderId? {
        FamilyIsLinked(m, id);
        var flowId := model.resources[id].flowId;
        if flowId.Some? {
          family := family + {flowId.value};
          if flowId.value in model.resources {
            var sourceId := model.resources[flowId.value].sourceId;
            if sourceId.Some? {
              family := family + {sourceId.value};
            }
          }
        }
      }
      assert family == Family(id);
      model := model.(resources := model.resources - family);
      RemovedNames(m, id);
      UpdateListing(bindings, [], map[], AllBindings(m.resources));
      model := model.(transports := model.transports - {id}, defaults := model.defaults - family);
      RemoveKeepsInv(m, model, id);
      return true;
    }
  }

  // Remove undoes add

  /** Acquiring bindings and releasing them again restores the counts and the list, order included. */
  lemma ListingRestored(l0: Listing, l1: Listing, l2: Listing,
                        names: seq<string>, details: Details, bound: multiset<string>)
    requires StandsFor(l0, bound) && StandsFor(l2, bound)
    requires Relisted(l0.interfaces, l1.interfaces, {}, Novel(names, bound), details)
    requires Relisted(l1.interfaces, l2.interfaces, Novel(names, bound), {}, map[])
    ensures l2 == l0
  {
    var novel := Novel(names, bound);
    CountsUnique(l0.counts, l2.counts, bound);
    assert Names(l0.interfaces) !! novel;
    UnlistedAgain(l0.interfaces, l1.interfaces, novel, details);
    SomeName(l2.interfaces[|l0.interfaces|..]);
  }

  lemma UnlistedAgain(before: seq<NodeInterface>, after: seq<NodeInterface>, novel: set<string>, details: Details)
    requires Relisted(before, after, {}, novel, details) && Names(before) !! novel
    ensures Without(after, novel) == before
  {
    WithoutNone(before, {});
    var added := after[|before|..];
    assert after == before + added;
    WithoutConcat(before, added, novel);
    WithoutNone(before, novel);
    WithoutAll(added, novel);
  }

  lemma SomeName(interfaces: seq<NodeInterface>)
    ensures interfaces != [] ==> Names(interfaces) != {}
  {
    if interfaces != [] {
      assert interfaces[0].name in Names(interfaces);
    }
  }

  lemma InsertErase<K, V>(m: map<K, V>, key: K, value: V)
    requires key !in m
    ensures m[key := value] - {key} == m
  {
  }

  /** The node's version rises exactly when its interface list or its clock changes. */
  lemma VersionTellsSenderAdd(m: Model, m': Model, c: SenderConfig)
    requires SenderAdded(m, m', c)
    ensures m.version <= m'.version
    ensures m.version < m'.version <==> m'.listing.interfaces != m.listing.interfaces || m'.clock != m.clock
  {
    NovelLengthens(m.listing.interfaces, m'.listing.interfaces, Novel(c.bindings, AllBindings(m.resources)), c.details);
  }

  lemma VersionTellsReceiverAdd(m: Model, m': Model, c: ReceiverConfig)
    requires ReceiverAdded(m, m', c)
    ensures m.version <= m'.version
    ensures m.version < m'.version <==> m'.listing.interfaces != m.listing.interfaces
  {
    NovelLengthens(m.listing.interfaces, m'.listing.interfaces, Novel(c.bindings, AllBindings(m.resources)), c.details);
  }

  lemma VersionTellsRemove(m: Model, m': Model, id: Id)
    requires Inv(m) && (id.SenderId? || id.ReceiverId?) && ConnectionRemoved(m, m', id)
    ensures m.version <= m'.version
    ensures m.version < m'.version <==> m'.listing.interfaces != m.listing.interfaces
  {
    var gone := Novel(m.resources[id].bindings, AllBindings(m'.resources));
    RemovedBindings(m, id);
    SomeName(m'.listing.interfaces[|Without(m.listing.interfaces, gone)|..]);
    assert m'.listing.interfaces == Without(m.listing.interfaces, gone);
    WithoutLists(m.listing.interfaces, gone);
    if gone == {} {
      WithoutNone(m.listing.interfaces, gone);
    } else {
      var name :| name in gone;
      assert name in AllBindings(m.resources);
      assert name in Names(m.listing.interfaces);
    }
  }

  lemma NovelLengthens(before: seq<NodeInterface>, after: seq<NodeInterface>, novel: set<string>, details: Details)
    requires Relisted(before, after, {}, novel, details)
    ensures before == after <==> novel == {}
  {
    WithoutNone(before, {});
    SomeName(after[|before|..]);
    if before == after {
      assert after[|before|..] == [];
    }
  }

  /** Adding a sender that was not live and removing it again restores all but the clock and the node's version. */
  lemma RemoveUndoesAddSender(m0: Model, m1: Model, m2: Model, c: SenderConfig)
    requires Inv(m0) && Inv(m2) && SenderId(c.name) !in m0.resources
    requires SenderAdded(m0, m1, c) && ConnectionRemoved(m1, m2, SenderId(c.name))
    ensures m2 == m0.(clock := m1.clock, version := m2.version)
    ensures m2.version - m0.version ==
      2 * Bump(m1.listing.interfaces != m0.listing.interfaces) + Bump(m1.clock != m0.clock)
  {
    var id := SenderId(c.name);
    NotLive(m0, id);
    SenderTablesRestored(m0, c);
    InsertErase(m0.connections, id, c.connection);
    InsertErase(m0.transports, id, c.transport);
    ListingRestored(m0.listing, m1.listing, m2.listing, c.bindings, c.details, AllBindings(m0.resources));
    var novel := Novel(c.bindings, AllBindings(m0.resources));
    NovelLengthens(m0.listing.interfaces, m1.listing.interfaces, novel, c.details);
  }

  lemma RemoveUndoesAddReceiver(m0: Model, m1: Model, m2: Model, c: ReceiverConfig)
    requires Inv(m0) && Inv(m2) && ReceiverId(c.name) !in m0.resources
    requires ReceiverAdded(m0, m1, c) && ConnectionRemoved(m1, m2, ReceiverId(c.name))
    ensures m2 == m0.(version := m2.version)
    ensures m2.version - m0.version == 2 * Bump(m1.listing.interfaces != m0.listing.interfaces)
  {
    var id := ReceiverId(c.name);
    NotLive(m0, id);
    InsertErase(m0.resources, id, NodeResource(c.receiver.data, c.bindings, None, None));
    InsertErase(m0.defaults, id, c.receiver.defaults);
    InsertErase(m0.connections, id, c.connection);
    InsertErase(m0.transports, id, c.transport);
    ListingRestored(m0.listing, m1.listing, m2.listing, c.bindings, c.details, AllBindings(m0.resources));
    var novel := Novel(c.bindings, AllBindings(m0.resources));
    NovelLengthens(m0.listing.interfaces, m1.listing.interfaces, novel, c.details);
  }

  /** Nothing is left of a sender or receiver that is not live. */
  lemma NotLive(m: Model, id: Id)
    requires Inv(m) && id !in m.resources && (id.SenderId? || id.ReceiverId?)
    ensures Family(id) !! m.resources.Keys && Family(id) !! m.defaults.Keys
    ensures id !in m.connections && id !in m.transports
  {
  }

  lemma SenderTablesRestored(m: Model, c: SenderConfig)
    requires Family(SenderId(c.name)) !! m.resources.Keys && Family(SenderId(c.name)) !! m.defaults.Keys
    ensures SenderResources(m.resources, c) - Family(SenderId(c.name)) == m.resources
    ensures SenderDefaults(m.defaults, c) - Family(SenderId(c.name)) == m.defaults
  {
  }
}
