/**
 Channel mappings: named groups of IS-08 inputs and outputs, the resources behind
 them, and the device control advertised while there are any.

 A resource id stands for the id made from a channel mapping id and its side, taken
 to be injective.
 */
module ChannelMapping {

  datatype Side = Input | Output

  datatype ResourceId = ResourceId(side: Side, id: string)

  /** An active map gives, for each channel of an output, an input and a channel of it. */
  type ActiveMap = seq<(string, nat)>

  datatype IoResource = IoResource(channels: nat, active: ActiveMap)

  type Resources = map<ResourceId, IoResource>

  datatype Mapping = Mapping(inputs: seq<string>, outputs: seq<string>) {
    function Ids(side: Side): seq<string> {
      if side == Input then inputs else outputs
    }
  }

  datatype Endpoint = Endpoint(id: string, channelLabels: seq<string>)

  datatype MappingConfig = MappingConfig(inputs: seq<Endpoint>, outputs: seq<Endpoint>)

  /** `controls` lists the types of the device's controls. */
  datatype Model = Model(mappings: map<string, Mapping>, resources: Resources, controls: seq<string>)

  const CONTROL_PREFIX := "urn:x-nmos:control:cm-ctrl/"

  predicate IsChannelMappingControl(control: string) {
    CONTROL_PREFIX <= control
  }

  predicate HasControl(controls: seq<string>) {
    exists i :: 0 <= i < |controls| && IsChannelMappingControl(controls[i])
  }

  function OtherControls(controls: seq<string>): seq<string> {
    if controls == [] then []
    else (if IsChannelMappingControl(controls[0]) then [] else [controls[0]]) + OtherControls(controls[1..])
  }

  lemma {:induction false} OtherControlsHaveNone(controls: seq<string>)
    ensures !HasControl(OtherControls(controls))
  {
    if controls != [] {
      OtherControlsHaveNone(controls[1..]);
      var others := OtherControls(controls);
      if !IsChannelMappingControl(controls[0]) {
        assert others[1..] == OtherControls(controls[1..]);
        forall i | 0 <= i < |others|
          ensures !IsChannelMappingControl(others[i])
        {
          assert i > 0 ==> others[i] == others[1..][i - 1];
        }
      } else {
        assert others == OtherControls(controls[1..]);
      }
    }
  }

  /** The control is advertised once. */
  function Advertising(controls: seq<string>, types: seq<string>): seq<string> {
    if HasControl(controls) then controls else controls + types
  }

  /** All other controls are left, each in its place: what is kept of two lists is kept of each. */
  lemma {:induction false} OtherControlsFilter(a: seq<string>, b: seq<string>)
    ensures OtherControls(a + b) == OtherControls(a) + OtherControls(b)
  {
    if a == [] {
      assert a + b == b;
    } else {
      assert (a + b)[1..] == a[1..] + b;
      OtherControlsFilter(a[1..], b);
    }
  }

  lemma OtherControlsOne(control: string)
    ensures OtherControls([control]) == if IsChannelMappingControl(control) then [] else [control]
  {
    assert [control][1..] == [];
  }

  lemma {:induction false} OtherControlsAll(controls: seq<string>)
    requires !HasControl(controls)
    ensures OtherControls(controls) == controls
  {
    if controls != [] {
      assert forall i :: 0 <= i < |controls[1..]| ==> controls[1..][i] == controls[i + 1];
      OtherControlsAll(controls[1..]);
    }
  }

  function IdsOf(endpoints: seq<Endpoint>): seq<string> {
    seq(|endpoints|, i requires 0 <= i < |endpoints| => endpoints[i].id)
  }

  ghost predicate Distinct(ids: seq<string>) {
    forall i, j :: 0 <= i < j < |ids| ==> ids[i] != ids[j]
  }

  /** Some recorded mapping lists the id on that side. */
  ghost predicate Listed(mappings: map<string, Mapping>, side: Side, id: string) {
    exists name :: name in mappings && id in mappings[name].Ids(side)
  }

  // Invariant

  /** Every listed id has a live resource. */
  ghost predicate Backed(m: Model) {
    forall name, side: Side, id :: name in m.mappings && id in m.mappings[name].Ids(side) ==>
      ResourceId(side, id) in m.resources
  }

  /** No id is listed twice on a side, in one mapping or in two. */
  ghost predicate OwnedOnce(mappings: map<string, Mapping>) {
    && (forall name, side: Side :: name in mappings ==> Distinct(mappings[name].Ids(side)))
    && (forall a, b, side: Side, id ::
          (a in mappings && b in mappings && id in mappings[a].Ids(side) && id in mappings[b].Ids(side)) ==> a == b)
  }

  ghost predicate Named(mappings: map<string, Mapping>) {
    forall name <- mappings.Keys :: name != "" && (mappings[name].inputs != [] || mappings[name].outputs != [])
  }

  /** A mapping exists only with the control advertised, and the control only with resources. */
  ghost predicate Advertised(m: Model) {
    (m.mappings != map[] ==> HasControl(m.controls)) && (HasControl(m.controls) ==> m.resources != map[])
  }

  ghost predicate Inv(m: Model) {
    Backed(m) && OwnedOnce(m.mappings) && Named(m.mappings) && Advertised(m)
  }

  // What the operations do

  ghost predicate Extends(before: Resources, after: Resources) {
    forall id <- before.Keys :: id in after && after[id] == before[id]
  }

  /** The exact conditions under which one side of a configuration is accepted. */
  ghost predicate SideOk(resources: Resources, side: Side, endpoints: seq<Endpoint>) {
    && (forall i :: 0 <= i < |endpoints| ==>
          endpoints[i].id != "" && endpoints[i].channelLabels != [] && ResourceId(side, endpoints[i].id) !in resources)
    && Distinct(IdsOf(endpoints))
  }

  ghost predicate AddOk(m: Model, name: string, config: MappingConfig) {
    && name != "" && (config.inputs != [] || config.outputs != []) && name !in m.mappings
    && SideOk(m.resources, Input, config.inputs) && SideOk(m.resources, Output, config.outputs)
  }

  ghost function SideIds(side: Side, ids: seq<string>): set<ResourceId> {
    set i | 0 <= i < |ids| :: ResourceId(side, ids[i])
  }

  ghost function MappingIds(mapping: Mapping): set<ResourceId> {
    SideIds(Input, mapping.inputs) + SideIds(Output, mapping.outputs)
  }

  function ResourceOf(endpoint: Endpoint): IoResource {
    IoResource(|endpoint.channelLabels|, [])
  }

  /** The table with a resource for each endpoint. */
  function Inserted(resources: Resources, side: Side, endpoints: seq<Endpoint>): Resources {
    if endpoints == [] then resources
    else
      var last := endpoints[|endpoints| - 1];
      Inserted(resources, side, endpoints[..|endpoints| - 1])[ResourceId(side, last.id) := ResourceOf(last)]
  }

  /** The endpoints accepted before the first that is refused. */
  ghost function Accepted(resources: Resources, side: Side, endpoints: seq<Endpoint>): seq<Endpoint> {
    if endpoints == [] || SideOk(resources, side, endpoints) then endpoints
    else Accepted(resources, side, endpoints[..|endpoints| - 1])
  }

  /** The table after an add, whether it was completed or threw part-way. */
  ghost function LeftBehind(m: Model, name: string, config: MappingConfig): Resources {
    if name == "" || (config.inputs == [] && config.outputs == []) || name in m.mappings then m.resources
    else
      var inputs := Inserted(m.resources, Input, Accepted(m.resources, Input, config.inputs));
      if !SideOk(m.resources, Input, config.inputs) then inputs
      else Inserted(inputs, Output, Accepted(m.resources, Output, config.outputs))
  }

  ghost predicate Added(m: Model, m': Model, name: string, config: MappingConfig) {
    var mapping := Mapping(IdsOf(config.inputs), IdsOf(config.outputs));
    && m'.mappings == m.mappings[name := mapping]
    && m'.resources == LeftBehind(m, name, config)
    && m.controls <= m'.controls && HasControl(m'.controls)
    && (HasControl(m.controls) ==> m'.controls == m.controls)
  }

  /** A refused add leaves the resources it had inserted, but lists nothing and advertises nothing. */
  ghost predicate AddThrew(m: Model, m': Model, name: string, config: MappingConfig) {
    !AddOk(m, name, config) && m' == m.(resources := LeftBehind(m, name, config))
  }

  ghost predicate Removed(m: Model, m': Model, name: string) {
    && name in m.mappings
    && m'.mappings == m.mappings - {name}
    && m'.resources == m.resources - MappingIds(m.mappings[name])
    && m'.controls == (if m'.resources == map[] && HasControl(m.controls) then OtherControls(m.controls) else m.controls)
  }

  lemma InSideIds(side: Side, ids: seq<string>, id: ResourceId)
    ensures id in SideIds(side, ids) <==> id.side == side && id.id in ids
  {
    if id.side == side && id.id in ids {
      var i :| 0 <= i < |ids| && ids[i] == id.id;
      assert ResourceId(side, ids[i]) == id;
    }
  }

  lemma InMappingIds(mapping: Mapping, id: ResourceId)
    ensures id in MappingIds(mapping) <==> id.id in mapping.Ids(id.side)
  {
    InSideIds(Input, mapping.inputs, id);
    InSideIds(Output, mapping.outputs, id);
  }

  // One side of an add

  /**
   Inserts one side's resources one by one, stopping at the first that is refused.
   What was inserted before that stays.
   */
  method InsertSide(mappings: map<string, Mapping>, resources: Resources, side: Side, endpoints: seq<Endpoint>)
    returns (after: Resources, ids: seq<string>, ok: bool)
    requires forall id :: Listed(mappings, side, id) ==> ResourceId(side, id) in resources
    ensures after == Inserted(resources, side, Accepted(resources, side, endpoints))
    ensures ids == IdsOf(Accepted(resources, side, endpoints))
    ensures ok <==> SideOk(resources, side, endpoints)
  {
    after, ids, ok := resources, [], true;
    for n := 0 to |endpoints|
      invariant ids == IdsOf(endpoints[..n])
      invariant after == Inserted(resources, side, endpoints[..n])
      invariant SideOk(resources, side, endpoints[..n])
    {
      var endpoint := endpoints[n];
      var listed := IsListed(mappings, side, endpoint.id);
      InsertNext(resources, side, endpoints, n);
      if endpoint.id == "" || listed || endpoint.channelLabels == [] || ResourceId(side, endpoint.id) in after {
        assert !Acceptable(after, side, endpoint);
        return after, ids, false;
      }
      after := after[ResourceId(side, endpoint.id) := ResourceOf(endpoint)];
      ids := ids + [endpoint.id];
    }
    assert endpoints[..|endpoints|] == endpoints;
  }

  /** One more endpoint is inserted if it is acceptable by now, and otherwise ends the side. */
  lemma InsertNext(resources: Resources, side: Side, endpoints: seq<Endpoint>, n: nat)
    requires n < |endpoints| && SideOk(resources, side, endpoints[..n])
    ensures
      var after, next := Inserted(resources, side, endpoints[..n]), endpoints[n];
      && Extends(resources, after)
      && (Acceptable(after, side, next) ==>
            && SideOk(resources, side, endpoints[..n + 1])
            && IdsOf(endpoints[..n + 1]) == IdsOf(endpoints[..n]) + [next.id]
            && Inserted(resources, side, endpoints[..n + 1]) == after[ResourceId(side, next.id) := ResourceOf(next)])
      && (!Acceptable(after, side, next) ==>
            !SideOk(resources, side, endpoints) && Accepted(resources, side, endpoints) == endpoints[..n])
  {
    var after := Inserted(resources, side, endpoints[..n]);
    InsertedKeys(resources, side, endpoints[..n]);
    NextEndpoint(resources, after, side, endpoints, n);
    if Acceptable(after, side, endpoints[n]) {
      IdsNext(side, endpoints, n);
      assert endpoints[..n + 1][..n] == endpoints[..n];
    } else {
      AcceptedUpTo(resources, side, endpoints, n);
    }
  }

  /** Inserting acceptable endpoints keeps the table and adds exactly their ids. */
  lemma {:induction false} InsertedKeys(resources: Resources, side: Side, endpoints: seq<Endpoint>)
    requires SideOk(resources, side, endpoints)
    ensures Inserted(resources, side, endpoints).Keys == resources.Keys + SideIds(side, IdsOf(endpoints))
    ensures Extends(resources, Inserted(resources, side, endpoints))
  {
    if endpoints != [] {
      var n := |endpoints| - 1;
      SideOkFront(resources, side, endpoints, n);
      InsertedKeys(resources, side, endpoints[..n]);
      IdsNext(side, endpoints, n);
      assert endpoints[..n + 1] == endpoints;
    }
  }

  lemma SideOkFront(resources: Resources, side: Side, endpoints: seq<Endpoint>, n: nat)
    requires n <= |endpoints| && SideOk(resources, side, endpoints)
    ensures SideOk(resources, side, endpoints[..n])
  {
    assert forall i :: 0 <= i < n ==> IdsOf(endpoints[..n])[i] == IdsOf(endpoints)[i];
  }

  /** The accepted endpoints are the acceptable ones up to the first refusal. */
  lemma {:induction false} AcceptedUpTo(resources: Resources, side: Side, endpoints: seq<Endpoint>, n: nat)
    requires n < |endpoints|
    requires SideOk(resources, side, endpoints[..n]) && !SideOk(resources, side, endpoints[..n + 1])
    ensures Accepted(resources, side, endpoints) == endpoints[..n]
  {
    if SideOk(resources, side, endpoints) {
      SideOkFront(resources, side, endpoints, n + 1);
    } else {
      var front := endpoints[..|endpoints| - 1];
      assert front[..n] == endpoints[..n];
      if n < |front| {
        assert front[..n + 1] == endpoints[..n + 1];
        AcceptedUpTo(resources, side, front, n);
      } else {
        assert front == endpoints[..n];
      }
    }
  }

  lemma {:induction false} AcceptedIsOk(resources: Resources, side: Side, endpoints: seq<Endpoint>)
    ensures Accepted(resources, side, endpoints) <= endpoints
    ensures SideOk(resources, side, Accepted(resources, side, endpoints))
  {
    if endpoints != [] && !SideOk(resources, side, endpoints) {
      AcceptedIsOk(resources, side, endpoints[..|endpoints| - 1]);
    }
  }

  /** Nothing is accepted exactly when there is nothing, or the first is refused. */
  lemma {:induction false} NoneAccepted(resources: Resources, side: Side, endpoints: seq<Endpoint>)
    ensures Accepted(resources, side, endpoints) == [] <==>
      endpoints == [] || !Acceptable(resources, side, endpoints[0])
  {
    if endpoints != [] {
      AcceptedIsOk(resources, side, endpoints);
      if Acceptable(resources, side, endpoints[0]) {
        FirstAccepted(resources, side, endpoints);
      }
    }
  }

  lemma {:induction false} FirstAccepted(resources: Resources, side: Side, endpoints: seq<Endpoint>)
    requires endpoints != [] && Acceptable(resources, side, endpoints[0])
    ensures Accepted(resources, side, endpoints) != []
  {
    if !SideOk(resources, side, endpoints) {
      assert |endpoints| > 1;
      FirstAccepted(resources, side, endpoints[..|endpoints| - 1]);
    }
  }

  lemma IdsNext(side: Side, endpoints: seq<Endpoint>, n: nat)
    requires n < |endpoints|
    ensures IdsOf(endpoints[..n + 1]) == IdsOf(endpoints[..n]) + [endpoints[n].id]
    ensures SideIds(side, IdsOf(endpoints[..n + 1]))
         == SideIds(side, IdsOf(endpoints[..n])) + {ResourceId(side, endpoints[n].id)}
  {
    var ids, ids' := IdsOf(endpoints[..n]), IdsOf(endpoints[..n + 1]);
    assert ids' == ids + [endpoints[n].id];
    assert forall i :: 0 <= i < n ==> ids'[i] == ids[i];
    assert ids'[n] == endpoints[n].id;
  }

  ghost predicate Acceptable(after: Resources, side: Side, endpoint: Endpoint) {
    endpoint.id != "" && endpoint.channelLabels != [] && ResourceId(side, endpoint.id) !in after
  }

  /** One more endpoint is acceptable exactly when the endpoints up to it are. */
  lemma NextEndpoint(resources: Resources, after: Resources, side: Side, endpoints: seq<Endpoint>, n: nat)
    requires n < |endpoints| && SideOk(resources, side, endpoints[..n])
    requires after.Keys == resources.Keys + SideIds(side, IdsOf(endpoints[..n]))
    ensures Acceptable(after, side, endpoints[n]) <==> SideOk(resources, side, endpoints[..n + 1])
  {
    var ids, next := IdsOf(endpoints[..n]), endpoints[n];
    InSideIds(side, ids, ResourceId(side, next.id));
    IdsNext(side, endpoints, n);
    assert forall i :: 0 <= i < n ==> endpoints[..n + 1][i] == endpoints[..n][i];
    assert endpoints[..n + 1][n] == next;
    if next.id in ids {
      var i :| 0 <= i < |ids| && ids[i] == next.id;
      assert IdsOf(endpoints[..n + 1])[i] == IdsOf(endpoints[..n + 1])[n];
    }
  }

  /** Looks an id up in every mapping's list of one side. */
  method IsListed(mappings: map<string, Mapping>, side: Side, id: string) returns (listed: bool)
    ensures listed <==> Listed(mappings, side, id)
  {
    var todo := mappings.Keys;
    while todo != {}
      invariant todo <= mappings.Keys
      invariant forall name :: name in mappings && name !in todo ==> id !in mappings[name].Ids(side)
      decreases |todo|
    {
      var name :| name in todo;
      if id in mappings[name].Ids(side) {
        return true;
      }
      todo := todo - {name};
    }
    return false;
  }

  /** The mapping that owns an output, or the empty name. */
  method NameForOutput(mappings: map<string, Mapping>, outputId: string) returns (owner: string)
    requires Named(mappings) && OwnedOnce(mappings)
    ensures owner == "" <==> !Listed(mappings, Output, outputId)
    ensures owner != "" ==> owner in mappings
    ensures owner != "" ==>
      forall name :: name in mappings && outputId in mappings[name].outputs <==> name == owner
  {
    var todo := mappings.Keys;
    while todo != {}
      invariant todo <= mappings.Keys
      invariant forall name :: name in mappings && name !in todo ==> outputId !in mappings[name].Ids(Output)
      decreases |todo|
    {
      var name :| name in todo;
      if outputId in mappings[name].outputs {
        assert outputId in mappings[name].Ids(Output);
        assert forall other :: other in mappings && outputId in mappings[other].outputs ==>
          outputId in mappings[other].Ids(Output);
        return name;
      }
      todo := todo - {name};
    }
    return "";
  }

  // Invariant proofs

  /** Inserting inputs changes nothing about which outputs are acceptable. */
  lemma OtherSideUntouched(before: Resources, inputs: seq<Endpoint>, outputs: seq<Endpoint>)
    requires SideOk(before, Input, inputs)
    ensures SideOk(Inserted(before, Input, inputs), Output, outputs) <==> SideOk(before, Output, outputs)
  {
    InsertedKeys(before, Input, inputs);
    forall id | id in SideIds(Input, IdsOf(inputs))
      ensures id.side == Input
    {
      InSideIds(Input, IdsOf(inputs), id);
    }
  }

  lemma {:induction false} OtherSideAccepted(before: Resources, inputs: seq<Endpoint>, outputs: seq<Endpoint>)
    requires SideOk(before, Input, inputs)
    ensures Accepted(Inserted(before, Input, inputs), Output, outputs) == Accepted(before, Output, outputs)
  {
    OtherSideUntouched(before, inputs, outputs);
    if outputs != [] && !SideOk(before, Output, outputs) {
      OtherSideAccepted(before, inputs, outputs[..|outputs| - 1]);
    }
  }

  /** Whether it is completed or throws, an add only adds to the table. */
  lemma LeftBehindExtends(m: Model, name: string, config: MappingConfig)
    ensures Extends(m.resources, LeftBehind(m, name, config))
  {
    var inputs := Accepted(m.resources, Input, config.inputs);
    var outputs := Accepted(m.resources, Output, config.outputs);
    AcceptedIsOk(m.resources, Input, config.inputs);
    AcceptedIsOk(m.resources, Output, config.outputs);
    InsertedKeys(m.resources, Input, inputs);
    OtherSideUntouched(m.resources, inputs, outputs);
    InsertedKeys(Inserted(m.resources, Input, inputs), Output, outputs);
  }

  lemma CompletedKeys(m: Model, name: string, config: MappingConfig)
    requires AddOk(m, name, config)
    ensures LeftBehind(m, name, config).Keys
         == m.resources.Keys + MappingIds(Mapping(IdsOf(config.inputs), IdsOf(config.outputs)))
  {
    InsertedKeys(m.resources, Input, config.inputs);
    OtherSideUntouched(m.resources, config.inputs, config.outputs);
    InsertedKeys(Inserted(m.resources, Input, config.inputs), Output, config.outputs);
  }

  lemma AddThrewKeepsInv(m: Model, m': Model, name: string, config: MappingConfig)
    requires Inv(m) && AddThrew(m, m', name, config)
    ensures Inv(m')
  {
    LeftBehindExtends(m, name, config);
    if HasControl(m.controls) {
      var id :| id in m.resources;
      assert id in m'.resources;
    }
  }

  lemma AddKeepsBacked(m: Model, m': Model, name: string, config: MappingConfig)
    requires Inv(m) && AddOk(m, name, config) && Added(m, m', name, config)
    ensures Backed(m')
  {
    LeftBehindExtends(m, name, config);
    CompletedKeys(m, name, config);
    forall n, side: Side, id | n in m'.mappings && id in m'.mappings[n].Ids(side)
      ensures ResourceId(side, id) in m'.resources
    {
      if n == name {
        InMappingIds(m'.mappings[name], ResourceId(side, id));
      } else {
        assert id in m.mappings[n].Ids(side);
      }
    }
  }

  /** An accepted id was in no table, so it was in no mapping. */
  lemma NewIdsUnlisted(m: Model, name: string, side: Side, endpoints: seq<Endpoint>, id: string)
    requires Backed(m) && SideOk(m.resources, side, endpoints) && id in IdsOf(endpoints)
    ensures name in m.mappings ==> id !in m.mappings[name].Ids(side)
  {
    var i :| 0 <= i < |endpoints| && IdsOf(endpoints)[i] == id;
    assert ResourceId(side, endpoints[i].id) !in m.resources;
  }

  lemma AddKeepsOwnedOnce(m: Model, m': Model, name: string, config: MappingConfig)
    requires Inv(m) && AddOk(m, name, config) && Added(m, m', name, config)
    ensures OwnedOnce(m'.mappings)
  {
    forall a, b, side: Side, id | a in m'.mappings && b in m'.mappings
        && id in m'.mappings[a].Ids(side) && id in m'.mappings[b].Ids(side)
      ensures a == b
    {
      if a == name || b == name {
        var endpoints := if side == Input then config.inputs else config.outputs;
        assert id in IdsOf(endpoints);
        NewIdsUnlisted(m, if a == name then b else a, side, endpoints, id);
      }
    }
  }

  lemma AddKeepsInv(m: Model, m': Model, name: string, config: MappingConfig)
    requires Inv(m) && AddOk(m, name, config) && Added(m, m', name, config)
    ensures Inv(m')
  {
    AddKeepsBacked(m, m', name, config);
    AddKeepsOwnedOnce(m, m', name, config);
    assert Named(m'.mappings);
    var mapping := m'.mappings[name];
    var id := if mapping.inputs != [] then ResourceId(Input, mapping.inputs[0]) else ResourceId(Output, mapping.outputs[0]);
    InMappingIds(mapping, id);
    assert id in m'.resources;
  }

  lemma RemoveKeepsBacked(m: Model, m': Model, name: string)
    requires Inv(m) && Removed(m, m', name)
    ensures Backed(m')
  {
    forall n, side: Side, id | n in m'.mappings && id in m'.mappings[n].Ids(side)
      ensures ResourceId(side, id) in m'.resources
    {
      assert id in m.mappings[n].Ids(side);
      InMappingIds(m.mappings[name], ResourceId(side, id));
    }
  }

  lemma RemoveKeepsInv(m: Model, m': Model, name: string)
    requires Inv(m) && Removed(m, m', name)
    ensures Inv(m')
  {
    RemoveKeepsBacked(m, m', name);
    OtherControlsHaveNone(m.controls);
    assert OwnedOnce(m'.mappings);
    assert Named(m'.mappings);
    if m'.mappings != map[] {
      var n :| n in m'.mappings;
      var mapping := m'.mappings[n];
      assert n in m.mappings && mapping == m.mappings[n];
      var side := if mapping.inputs != [] then Input else Output;
      assert mapping.Ids(side)[0] in mapping.Ids(side);
      assert ResourceId(side, mapping.Ids(side)[0]) in m'.resources;
    }
  }

  // What an add puts in, and what a removal takes out again

  /** Every inserted endpoint is found with its own channels. */
  lemma {:induction false} InsertedAt(resources: Resources, side: Side, endpoints: seq<Endpoint>, i: nat)
    requires SideOk(resources, side, endpoints) && i < |endpoints|
    ensures ResourceId(side, endpoints[i].id) in Inserted(resources, side, endpoints)
    ensures Inserted(resources, side, endpoints)[ResourceId(side, endpoints[i].id)] == ResourceOf(endpoints[i])
  {
    var n := |endpoints| - 1;
    if i < n {
      SideOkFront(resources, side, endpoints, n);
      InsertedAt(resources, side, endpoints[..n], i);
      assert IdsOf(endpoints)[i] != IdsOf(endpoints)[n];
    }
  }

  function EndpointsOf(config: MappingConfig, side: Side): seq<Endpoint> {
    if side == Input then config.inputs else config.outputs
  }

  /** After an add every endpoint has one channel for each of its labels, and no active map yet. */
  lemma AddedChannels(m: Model, m': Model, name: string, config: MappingConfig, side: Side, i: nat)
    requires AddOk(m, name, config) && Added(m, m', name, config) && i < |EndpointsOf(config, side)|
    ensures
      var endpoint := EndpointsOf(config, side)[i];
      var id := ResourceId(side, endpoint.id);
      id in m'.resources && m'.resources[id] == IoResource(|endpoint.channelLabels|, [])
  {
    var inputs := Inserted(m.resources, Input, config.inputs);
    OtherSideUntouched(m.resources, config.inputs, config.outputs);
    OtherSideAccepted(m.resources, config.inputs, config.outputs);
    InsertedKeys(inputs, Output, config.outputs);
    if side == Input {
      InsertedAt(m.resources, Input, config.inputs, i);
    } else {
      InsertedAt(inputs, Output, config.outputs, i);
    }
  }

  ghost predicate AllChannelMapping(controls: seq<string>) {
    forall i :: 0 <= i < |controls| ==> IsChannelMappingControl(controls[i])
  }

  lemma {:induction false} NoOthers(controls: seq<string>)
    requires AllChannelMapping(controls)
    ensures OtherControls(controls) == []
  {
    if controls != [] {
      assert forall i :: 0 <= i < |controls[1..]| ==> controls[1..][i] == controls[i + 1];
      NoOthers(controls[1..]);
    }
  }

  /** Erasing the ids an add inserted gives the table back. */
  lemma ResourcesRestored(m: Model, m': Model, name: string, config: MappingConfig)
    requires AddOk(m, name, config) && Added(m, m', name, config)
    ensures m'.resources - MappingIds(m'.mappings[name]) == m.resources
  {
    var mapping := m'.mappings[name];
    LeftBehindExtends(m, name, config);
    CompletedKeys(m, name, config);
    forall id | id in m.resources
      ensures id !in MappingIds(mapping)
    {
      InMappingIds(mapping, id);
      if id in MappingIds(mapping) {
        OrphanRefused(m, id, name, config);
      }
    }
  }

  /**
   Adding a mapping and removing it again gives the mappings and resources back, and the controls
   too exactly when the control was advertised before or there was no resource: with only left
   over resources before, the control the add advertised stays.
   */
  lemma RemoveUndoesAddIff(m: Model, m1: Model, m2: Model, name: string, config: MappingConfig, types: seq<string>)
    requires Inv(m) && AddOk(m, name, config) && Added(m, m1, name, config) && Removed(m1, m2, name)
    requires AllChannelMapping(types) && types != []
    requires m1.controls == Advertising(m.controls, types)
    ensures m2.mappings == m.mappings && m2.resources == m.resources
    ensures m2.controls == m.controls <==> HasControl(m.controls) || m.resources == map[]
  {
    ResourcesRestored(m, m1, name, config);
    assert m.mappings[name := m1.mappings[name]] - {name} == m.mappings;
    if !HasControl(m.controls) {
      OtherControlsAll(m.controls);
      OtherControlsFilter(m.controls, types);
      NoOthers(types);
    }
    if m.resources == map[] {
      assert !HasControl(m.controls);
      assert OtherControls(m1.controls) == m.controls;
    }
  }

  // Orphans

  /** A resource that no mapping lists, left by an add that threw part-way. */
  ghost predicate Orphan(m: Model, id: ResourceId) {
    id in m.resources && !Listed(m.mappings, id.side, id.id)
  }

  /**
   An orphan stays one: no add can list it, no remove erases it, and any
   configuration that names it is refused.
   */
  lemma OrphanStays(m: Model, m': Model, id: ResourceId, name: string, config: MappingConfig)
    requires Inv(m) && Orphan(m, id)
    requires AddThrew(m, m', name, config) || (AddOk(m, name, config) && Added(m, m', name, config)) || Removed(m, m', name)
    ensures Orphan(m', id)
  {
    LeftBehindExtends(m, name, config);
    if Removed(m, m', name) {
      InMappingIds(m.mappings[name], id);
      forall n | n in m'.mappings
        ensures id.id !in m'.mappings[n].Ids(id.side)
      {
        assert n in m.mappings;
      }
    } else if m'.mappings != m.mappings {
      forall n | n in m'.mappings
        ensures id.id !in m'.mappings[n].Ids(id.side)
      {
        if n == name && id.id in m'.mappings[n].Ids(id.side) {
          OrphanRefused(m, id, name, config);
        }
      }
    }
  }

  lemma OrphanRefused(m: Model, id: ResourceId, name: string, config: MappingConfig)
    requires id in m.resources
    requires id.id in IdsOf(if id.side == Input then config.inputs else config.outputs)
    ensures !AddOk(m, name, config)
  {
    var endpoints := if id.side == Input then config.inputs else config.outputs;
    var i :| 0 <= i < |endpoints| && IdsOf(endpoints)[i] == id.id;
    assert ResourceId(id.side, endpoints[i].id) == id;
  }

  /** What a caller can check beforehand: the refused add stops before it inserts anything. */
  ghost predicate NothingInserted(m: Model, name: string, config: MappingConfig) {
    || name == "" || name in m.mappings
    || (config.inputs == [] && config.outputs == [])
    || (config.inputs != [] && !Acceptable(m.resources, Input, config.inputs[0]))
    || (config.inputs == [] && config.outputs != [] && !Acceptable(m.resources, Output, config.outputs[0]))
  }

  /** A refused add leaves the table as it was exactly when already its first endpoint is refused. */
  lemma RefusalLeavesNothingIff(m: Model, name: string, config: MappingConfig)
    requires !AddOk(m, name, config)
    ensures LeftBehind(m, name, config) == m.resources <==> NothingInserted(m, name, config)
  {
    NoneAccepted(m.resources, Input, config.inputs);
    NoneAccepted(m.resources, Output, config.outputs);
    if !NothingInserted(m, name, config) {
      var id := FirstStays(m, name, config);
    }
  }

  lemma FirstStays(m: Model, name: string, config: MappingConfig) returns (id: ResourceId)
    requires !NothingInserted(m, name, config)
    ensures id in LeftBehind(m, name, config) && id !in m.resources
  {
    var side, endpoints := Input, config.inputs;
    if config.inputs == [] {
      side, endpoints := Output, config.outputs;
    }
    id := ResourceId(side, endpoints[0].id);
    NoneAccepted(m.resources, side, endpoints);
    var accepted := Accepted(m.resources, side, endpoints);
    AcceptedIsOk(m.resources, side, endpoints);
    InsertedKeys(m.resources, side, accepted);
    assert IdsOf(accepted)[0] == endpoints[0].id;
    InSideIds(side, IdsOf(accepted), id);
    if side == Input {
      InputStays(m.resources, config, id);
    }
  }

  lemma InputStays(resources: Resources, config: MappingConfig, id: ResourceId)
    requires id in Inserted(resources, Input, Accepted(resources, Input, config.inputs))
    ensures SideOk(resources, Input, config.inputs) ==>
      id in Inserted(Inserted(resources, Input, config.inputs), Output, Accepted(resources, Output, config.outputs))
  {
    if SideOk(resources, Input, config.inputs) {
      OtherSideAccepted(resources, config.inputs, config.outputs);
      AcceptedIsOk(Inserted(resources, Input, config.inputs), Output, config.outputs);
      InsertedKeys(Inserted(resources, Input, config.inputs), Output, Accepted(resources, Output, config.outputs));
    }
  }

  /** Whatever a refused add gained is an orphan. */
  lemma GainedIsOrphan(m: Model, m': Model, name: string, config: MappingConfig, id: ResourceId)
    requires Inv(m) && AddThrew(m, m', name, config) && id in m'.resources && id !in m.resources
    ensures Orphan(m', id)
  {
    assert id == ResourceId(id.side, id.id);
  }

  /** On an empty node a mapping that repeats an input id is refused and leaves that id behind for good. */
  lemma OrphanExample()
    ensures
      var m, endpoint := Model(map[], map[], []), Endpoint("a", ["L"]);
      var config := MappingConfig([endpoint, endpoint], []);
      var m' := m.(resources := LeftBehind(m, "mix", config));
      Inv(m) && AddThrew(m, m', "mix", config) && Orphan(m', ResourceId(Input, "a"))
  {
    var m, endpoint := Model(map[], map[], []), Endpoint("a", ["L"]);
    var config := MappingConfig([endpoint, endpoint], []);
    var ids := IdsOf(config.inputs);
    assert ids[0] == ids[1];
    assert !HasControl(m.controls);
    AcceptedUpTo(m.resources, Input, config.inputs, 1) by {
      assert config.inputs[..1] == [endpoint];
      assert config.inputs[..2] == config.inputs;
    }
    InsertedKeys(m.resources, Input, [endpoint]);
    InSideIds(Input, IdsOf([endpoint]), ResourceId(Input, "a"));
    assert IdsOf([endpoint])[0] == "a";
    GainedIsOrphan(m, m.(resources := LeftBehind(m, "mix", config)), "mix", config, ResourceId(Input, "a"));
  }

  datatype Activation = UnknownMapping | NotInMapping | MissingResource | WrongLength | Published

  class Node {
    var model: Model
    /** The device's IS-08 control types, one per version and host. */
    const controlTypes: seq<string>

    ghost predicate Valid()
      reads this
    {
      Inv(model) && HasControl(controlTypes)
    }

    constructor (controls: seq<string>, controlTypes: seq<string>)
      requires !HasControl(controls) && HasControl(controlTypes)
      ensures Valid() && model == Model(map[], map[], controls)
    {
      model := Model(map[], map[], controls);
      this.controlTypes := controlTypes;
    }

    method Add(name: string, config: MappingConfig) returns (added: bool)
      requires Valid()
      modifies this`model
      ensures Valid()
      ensures added <==> AddOk(old(model), name, config)
      ensures added ==> Added(old(model), model, name, config)
      ensures added ==> model.controls == Advertising(old(model.controls), controlTypes)
      ensures !added ==> AddThrew(old(model), model, name, config)
      ensures !added ==> (model == old(model) <==> NothingInserted(old(model), name, config))
    {
      ghost var m := model;
      if !AddOk(m, name, config) {
        RefusalLeavesNothingIff(m, name, config);
      }
      if name == "" || (config.inputs == [] && config.outputs == []) || name in model.mappings {
        return false;
      }
      assert forall side, id :: Listed(model.mappings, side, id) ==> ResourceId(side, id) in model.resources;
      var resources, inputIds, ok := InsertSide(model.mappings, model.resources, Input, config.inputs);
      model := model.(resources := resources);
      if !ok {
        AddThrewKeepsInv(m, model, name, config);
        return false;
      }
      InsertedKeys(m.resources, Input, config.inputs);
      OtherSideUntouched(m.resources, config.inputs, config.outputs);
      OtherSideAccepted(m.resources, config.inputs, config.outputs);
      var outputIds;
      resources, outputIds, ok := InsertSide(model.mappings, model.resources, Output, config.outputs);
      model := model.(resources := resources);
      if !ok {
        AddThrewKeepsInv(m, model, name, config);
        return false;
      }
      model := model.(mappings := model.mappings[name := Mapping(inputIds, outputIds)]);
      if model.resources != map[] && !HasControl(model.controls) {
        AppendedControl(model.controls, controlTypes);
        model := model.(controls := model.controls + controlTypes);
      }
      CompletedKeys(m, name, config);
      AddedHasControl(m, model, name, config);
      AddKeepsInv(m, model, name, config);
      return true;
    }

    method Remove(name: string) returns (removed: bool)
      requires Valid()
      modifies this`model
      ensures Valid()
      ensures removed <==> name in old(model.mappings)
      ensures removed ==> Removed(old(model), model, name)
      ensures !removed ==> model == old(model)
    {
      if name !in model.mappings {
        return false;
      }
      ghost var m := model;
      var mapping := model.mappings[name];
      var resources := EraseIds(model.resources, Input, mapping.inputs);
      resources := EraseIds(resources, Output, mapping.outputs);
      assert resources == m.resources - MappingIds(mapping);
      model := model.(resources := resources, mappings := model.mappings - {name});
      if model.resources == map[] && HasControl(model.controls) {
        model := model.(controls := OtherControls(model.controls));
      }
      RemoveKeepsInv(m, model, name);
      return true;
    }

    /** Publishes an active map; the branch for a listed output without a resource is never taken. */
    method Activate(name: string, outputId: string, activeMap: ActiveMap) returns (result: Activation)
      requires Valid()
      modifies this`model
      ensures Valid()
      ensures result != MissingResource
      ensures result == UnknownMapping <==> name !in old(model.mappings)
      ensures result == NotInMapping <==>
        name in old(model.mappings) && outputId !in old(model.mappings)[name].outputs
      ensures name in old(model.mappings) && outputId in old(model.mappings)[name].outputs ==>
        var id := ResourceId(Output, outputId);
        && id in old(model.resources)
        && result == (if |activeMap| == old(model.resources)[id].channels then Published else WrongLength)
      ensures result != Published ==> model == old(model)
      ensures result == Published ==>
        var id := ResourceId(Output, outputId);
        && id in old(model.resources)
        && model == old(model).(
             resources := old(model.resources)[id := old(model.resources)[id].(active := activeMap)])
    {
      if name !in model.mappings {
        return UnknownMapping;
      }
      if outputId !in model.mappings[name].outputs {
        return NotInMapping;
      }
      var id := ResourceId(Output, outputId);
      assert outputId in model.mappings[name].Ids(Output);
      if id !in model.resources {
        return MissingResource;
      }
      if |activeMap| != model.resources[id].channels {
        return WrongLength;
      }
      model := model.(resources := model.resources[id := model.resources[id].(active := activeMap)]);
      return Published;
    }
  }

  method EraseIds(resources: Resources, side: Side, ids: seq<string>) returns (left: Resources)
    ensures left == resources - SideIds(side, ids)
  {
    left := resources;
    for n := 0 to |ids|
      invariant left == resources - SideIds(side, ids[..n])
    {
      left := left - {ResourceId(side, ids[n])};
      assert SideIds(side, ids[..n + 1]) == SideIds(side, ids[..n]) + {ResourceId(side, ids[n])} by {
        assert ids[..n + 1][n] == ids[n];
        assert forall i :: 0 <= i < n ==> ids[..n + 1][i] == ids[..n][i];
      }
    }
    assert ids[..|ids|] == ids;
  }

  lemma AppendedControl(controls: seq<string>, added: seq<string>)
    requires HasControl(added)
    ensures HasControl(controls + added)
  {
    var i :| 0 <= i < |added| && IsChannelMappingControl(added[i]);
    assert (controls + added)[|controls| + i] == added[i];
  }

  lemma AddedHasControl(m: Model, m': Model, name: string, config: MappingConfig)
    requires AddOk(m, name, config)
    requires m'.resources.Keys == m.resources.Keys + MappingIds(Mapping(IdsOf(config.inputs), IdsOf(config.outputs)))
    requires m'.resources != map[] ==> HasControl(m'.controls)
    ensures HasControl(m'.controls)
  {
    var mapping := Mapping(IdsOf(config.inputs), IdsOf(config.outputs));
    var id := if mapping.inputs != [] then ResourceId(Input, mapping.inputs[0]) else ResourceId(Output, mapping.outputs[0]);
    InMappingIds(mapping, id);
    assert id in m'.resources;
  }
}
