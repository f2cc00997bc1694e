/**
 Swapping the data path behind an element's permanent anchor. Any call into
 GStreamer may fail, and a chain whose state was asked to change may be found in any
 state afterwards. Every state request and every installation or removal of the
 blocking probe is recorded in order.
 */
module ChainSwap {
  import opened Types

  datatype Direction = Sink | Src

  datatype State = Null | Ready | Paused | Playing

  predicate Running(state: State) {
    state == Paused || state == Playing
  }

  type Chain = nat

  datatype Purpose = Stop | MakeReady | Advance

  datatype Event =
    | ProbeInstalled
    | ProbeRemoved
    | Requested(purpose: Purpose, chain: Chain, from: State, to: State)

  datatype Call =
    | AddToBin(chain: Chain)
    | RemoveFromBin(chain: Chain)
    | LinkAnchor(chain: Chain)
    | UnlinkAnchor(chain: Chain)
    | StopIt(chain: Chain)
    | ReadyIt(chain: Chain)
    | AdvanceIt(chain: Chain)
    | BlockAnchor

  /** The calls that failed meanwhile were about these chains. */
  ghost predicate OnlyAbout(before: set<Call>, after: set<Call>, chains: set<Chain>) {
    before <= after && forall call <- after :: call in before || (call != BlockAnchor && call.chain in chains)
  }

  /** Whether the anchor's probe is in place after these events. */
  predicate ProbeHeld(trace: seq<Event>) {
    trace != [] &&
    match trace[|trace| - 1]
    case ProbeInstalled => true
    case ProbeRemoved => false
    case Requested(_, _, _, _) => ProbeHeld(trace[..|trace| - 1])
  }

  /**
   The requests that cannot deadlock. A source task may sit in the probe holding the
   lock that stopping it needs, and a source above Ready may push into the probe, so
   both wait until it is lifted. A sink chain must be up before the first buffer is
   let through, so it is advanced under the probe.
   */
  predicate Allowed(direction: Direction, held: bool, event: Event) {
    event.Requested? ==>
      && (direction == Src && held ==> !Running(event.to) && (event.to == Null ==> !Running(event.from)))
      && (event.purpose == Advance ==> held == (direction == Sink))
  }

  predicate AllowedAt(direction: Direction, trace: seq<Event>, i: nat) {
    i < |trace| ==> Allowed(direction, ProbeHeld(trace[..i]), trace[i])
  }

  ghost predicate Disciplined(direction: Direction, trace: seq<Event>) {
    forall i: nat :: AllowedAt(direction, trace, i)
  }

  lemma Recorded(direction: Direction, trace: seq<Event>, event: Event)
    requires Disciplined(direction, trace) && Allowed(direction, ProbeHeld(trace), event)
    ensures Disciplined(direction, trace + [event])
    ensures ProbeHeld(trace + [event]) ==
      if event.ProbeInstalled? then true else if event.ProbeRemoved? then false else ProbeHeld(trace)
  {
    var longer := trace + [event];
    assert longer[..|trace|] == trace;
    forall i: nat
      ensures AllowedAt(direction, longer, i)
    {
      assert AllowedAt(direction, trace, i);
      assert i < |trace| ==> longer[..i] == trace[..i];
    }
  }

  lemma {:induction false} HeldUntilRemoved(trace: seq<Event>, installed: nat, later: nat)
    requires installed < later <= |trace| && trace[installed] == ProbeInstalled
    requires forall i :: installed < i < later ==> trace[i] != ProbeRemoved
    ensures ProbeHeld(trace[..later])
    decreases later
  {
    var events := trace[..later];
    assert events[|events| - 1] == trace[later - 1];
    if installed < later - 1 {
      HeldUntilRemoved(trace, installed, later - 1);
      assert events[..|events| - 1] == trace[..later - 1];
    }
  }

  /**
   Between an installation of the probe and its removal no source chain is stopped
   from a running state, driven above Ready or advanced.
   */
  lemma NoDeadlock(direction: Direction, trace: seq<Event>, installed: nat, later: nat)
    requires Disciplined(direction, trace)
    requires installed < later < |trace| && trace[installed] == ProbeInstalled
    requires forall i :: installed < i < later ==> trace[i] != ProbeRemoved
    requires trace[later].Requested?
    ensures direction == Src ==>
      var request := trace[later];
      && !Running(request.to) && request.purpose != Advance
      && (request.to == Null ==> !Running(request.from))
  {
    HeldUntilRemoved(trace, installed, later);
    assert AllowedAt(direction, trace, later);
  }

  predicate AskAt(trace: seq<Event>, i: nat, purpose: Purpose, chain: Chain, target: State) {
    && i < |trace| && trace[i].Requested?
    && trace[i].purpose == purpose && trace[i].chain == chain && trace[i].to == target
  }

  /** Since some point the chain has been asked to go where the bin is heading. */
  ghost predicate Asked(trace: seq<Event>, since: nat, chain: Chain, target: State) {
    exists i: nat :: since <= i && AskAt(trace, i, Advance, chain, target)
  }

  /** Since some point the chain has been asked to stop. */
  ghost predicate StopAsked(trace: seq<Event>, since: nat, chain: Chain) {
    exists i: nat :: since <= i && AskAt(trace, i, Stop, chain, Null)
  }

  /** What brings a new chain in under the probe: a source to Ready, a sink all the way. */
  function InstallEvents(direction: Direction, chain: Chain, target: State): seq<Event> {
    [if direction == Src then Requested(MakeReady, chain, Null, Ready) else Requested(Advance, chain, Null, target)]
  }

  function StopEvents(prev: Option<Chain>, prevState: State): seq<Event> {
    if prev.Some? then [Requested(Stop, prev.value, prevState, Null)] else []
  }

  /** What happens under the probe: the old chain is stopped and the new one brought in. */
  function BlockedEvents(
    direction: Direction, prev: Option<Chain>, prevState: State, chain: Chain, target: State): seq<Event>
  {
    StopEvents(prev, prevState) + InstallEvents(direction, chain, target)
  }

  function ProbedEvents(
    direction: Direction, prev: Option<Chain>, prevState: State, chain: Chain, target: State): seq<Event>
  {
    [ProbeInstalled] + BlockedEvents(direction, prev, prevState, chain, target) + [ProbeRemoved]
  }

  function EarlyEvents(direction: Direction, prev: Option<Chain>, prevState: State): seq<Event> {
    if direction == Src then StopEvents(prev, prevState) else []
  }

  function LateEvents(direction: Direction, chain: Chain, target: State): seq<Event> {
    if direction == Src then [Requested(Advance, chain, Ready, target)] else []
  }

  /** Everything a successful swap asks for, in order; a source is stopped before the probe and advanced after it. */
  function SwapEvents(
    direction: Direction, prev: Option<Chain>, prevState: State, chain: Chain, target: State): seq<Event>
  {
    EarlyEvents(direction, prev, prevState)
    + ProbedEvents(direction, prev, if direction == Src then Null else prevState, chain, target)
    + LateEvents(direction, chain, target)
  }

  lemma InProbe(direction: Direction, prev: Option<Chain>, prevState: State, chain: Chain, target: State,
                t0: seq<Event>, t1: seq<Event>, t2: seq<Event>, t3: seq<Event>)
    requires t1 == t0 + [ProbeInstalled]
    requires t2 == t1 + BlockedEvents(direction, prev, prevState, chain, target)
    requires t3 == t2 + [ProbeRemoved]
    ensures t3 == t0 + ProbedEvents(direction, prev, prevState, chain, target)
  {
  }

  lemma InOrder(direction: Direction, prev: Option<Chain>, prevState: State, chain: Chain, target: State,
                t0: seq<Event>, t1: seq<Event>, t2: seq<Event>, t3: seq<Event>)
    requires t1 == t0 + EarlyEvents(direction, prev, prevState)
    requires t2 == t1 + ProbedEvents(direction, prev, if direction == Src then Null else prevState, chain, target)
    requires t3 == t2 + LateEvents(direction, chain, target)
    ensures t3 == t0 + SwapEvents(direction, prev, prevState, chain, target)
  {
  }

  /**
   In a successful swap the new chain is brought in between the installation of the probe and
   its removal: a sink is advanced there, a source made ready there and advanced afterwards.
   */
  lemma SwapOrder(direction: Direction, prev: Option<Chain>, prevState: State, chain: Chain, target: State)
    returns (installed: nat, asked: nat, removed: nat)
    ensures
      var events := SwapEvents(direction, prev, prevState, chain, target);
      && installed < asked < removed < |events|
      && events[installed] == ProbeInstalled && events[removed] == ProbeRemoved
      && (direction == Sink ==> removed == |events| - 1 && events[asked] == Requested(Advance, chain, Null, target))
      && (direction == Src ==>
            && events[asked] == Requested(MakeReady, chain, Null, Ready)
            && removed == |events| - 2 && events[removed + 1] == Requested(Advance, chain, Ready, target)
            && (prev.Some? ==> installed == 1 && events[0] == Requested(Stop, prev.value, prevState, Null)))
  {
    installed := if direction == Src && prev.Some? then 1 else 0;
    asked := if prev.Some? then installed + 2 else installed + 1;
    removed := asked + 1;
  }

  type States = map<Chain, State>

  /** A chain never asked for anything is at Null. */
  function StateOf(states: States, chain: Chain): State {
    if chain in states then states[chain] else Null
  }

  /** What was asked for stays asked for. */
  lemma AskedLater(before: seq<Event>, after: seq<Event>, since: nat, later: nat, chain: Chain, target: State)
    requires before <= after && since <= later
    ensures StopAsked(before, later, chain) ==> StopAsked(after, since, chain)
    ensures Asked(before, later, chain, target) ==> Asked(after, since, chain, target)
  {
    if StopAsked(before, later, chain) {
      var i: nat :| later <= i && AskAt(before, i, Stop, chain, Null);
      assert AskAt(after, i, Stop, chain, Null);
    }
    if Asked(before, later, chain, target) {
      var i: nat :| later <= i && AskAt(before, i, Advance, chain, target);
      assert AskAt(after, i, Advance, chain, target);
    }
  }

  lemma JustAsked(before: seq<Event>, event: Event)
    requires event.Requested?
    ensures event.purpose == Stop && event.to == Null ==> StopAsked(before + [event], |before|, event.chain)
    ensures event.purpose == Advance ==> Asked(before + [event], |before|, event.chain, event.to)
  {
    assert AskAt(before + [event], |before|, event.purpose, event.chain, event.to);
  }

  /** The state of the chain behind the anchor, if there is one. */
  function OldState(peer: Option<Chain>, states: States): State {
    if peer.Some? then StateOf(states, peer.value) else Null
  }

  /** Only this chain's state may differ. */
  ghost predicate OnlyMoved(before: States, after: States, chains: set<Chain>) {
    forall other :: other !in chains ==> StateOf(after, other) == StateOf(before, other)
  }

  datatype Outcome =
    | Swapped
    | StopFailed
    | BlockFailed
    | SwapFailed
    | AdvanceFailed

  datatype StateSync = Done | AfterUnblock | InstallFailed

  function Involved(chain: Chain, fallback: Option<Chain>): set<Chain> {
    {chain} + (if fallback.Some? then {fallback.value} else {})
  }

  class Bin {
    const direction: Direction
    /** The chains in the bin, besides the anchor. */
    var children: set<Chain>
    /** The chain the anchor is linked to. */
    var peer: Option<Chain>
    var states: States
    var parentTarget: State
    /** The anchor pad the ghost pad points at. */
    var ghostTarget: string
    var trace: seq<Event>
    /** The calls that failed during the current swap. */
    var failed: set<Call>
    /** Whether the n-th call into GStreamer does what it is asked, for any course of events. */
    const works: nat -> bool
    /** How many calls were made so far. */
    var calls: nat

    /** One of these calls did not do what it was asked. */
    ghost predicate Refused(from: nat, end: nat) {
      exists n: nat :: from <= n < end && !works(n)
    }

    /** At most one of them did not. */
    ghost predicate OneRefused(from: nat, end: nat) {
      forall a: nat, b: nat :: from <= a < end && from <= b < end && !works(a) && !works(b) ==> a == b
    }

    /** A missing pad, or else one refused call, is all that went wrong. */
    ghost predicate OneMishap(hasPad: bool, from: nat, end: nat) {
      if hasPad then OneRefused(from, end) else !Refused(from, end)
    }

    ghost predicate Valid()
      reads this
    {
      && (peer.Some? ==> peer.value in children)
      && Disciplined(direction, trace)
    }

    /** The permanent anchor with an idle chain behind it. */
    constructor (direction: Direction, idle: Chain, target: string, parentTarget: State, works: nat -> bool)
      ensures Valid() && !ProbeHeld(trace)
      ensures peer == Some(idle) && children == {idle} && ghostTarget == target
      ensures this.direction == direction && this.parentTarget == parentTarget && this.works == works
    {
      this.direction := direction;
      children, peer, states := {idle}, Some(idle), map[];
      this.parentTarget, ghostTarget := parentTarget, target;
      trace, failed, calls := [], {}, 0;
      this.works := works;
    }

    // GStreamer calls

    method Attempt() returns (ok: bool)
      modifies this`calls
      ensures ok == works(old(calls)) && calls == old(calls) + 1
    {
      ok := works(calls);
      calls := calls + 1;
    }

    method Note(event: Event)
      requires Disciplined(direction, trace) && Allowed(direction, ProbeHeld(trace), event)
      modifies this`trace
      ensures trace == old(trace) + [event] && Disciplined(direction, trace)
      ensures ProbeHeld(trace) ==
        if event.ProbeInstalled? then true else if event.ProbeRemoved? then false else old(ProbeHeld(trace))
    {
      Recorded(direction, trace, event);
      trace := trace + [event];
    }

    /** Asks for a state and waits. The chain may be anywhere afterwards if that fails, and a start may settle late. */
    method Request(purpose: Purpose, chain: Chain, to: State) returns (ok: bool)
      requires Disciplined(direction, trace)
      requires Allowed(direction, ProbeHeld(trace), Requested(purpose, chain, StateOf(states, chain), to))
      modifies this`trace, this`states, this`calls
      ensures trace == old(trace) + [Requested(purpose, chain, StateOf(old(states), chain), to)]
      ensures Disciplined(direction, trace) && ProbeHeld(trace) == old(ProbeHeld(trace))
      ensures OnlyMoved(old(states), states, {chain})
      ensures purpose == Stop && to == Null ==> StopAsked(trace, |old(trace)|, chain)
      ensures purpose == Advance ==> Asked(trace, |old(trace)|, chain, to)
      ensures ok == works(old(calls)) && calls == old(calls) + 1
      ensures ok && purpose != Advance ==> StateOf(states, chain) == to
    {
      JustAsked(trace, Requested(purpose, chain, StateOf(states, chain), to));
      Note(Requested(purpose, chain, StateOf(states, chain), to));
      ok := Attempt();
      var settled: State := *;
      states := states[chain := if ok && purpose != Advance then to else settled];
    }

    method Add(chain: Chain) returns (ok: bool)
      modifies this`children, this`failed, this`calls
      ensures ok ==> chain !in old(children) && children == old(children) + {chain} && failed == old(failed)
      ensures !ok ==> children == old(children) && failed == old(failed) + {AddToBin(chain)}
      ensures calls == old(calls) + 1 && (ok <==> works(old(calls)) && chain !in old(children))
    {
      ok := Attempt();
      ok := ok && chain !in children;
      if ok {
        children := children + {chain};
      } else {
        failed := failed + {AddToBin(chain)};
      }
    }

    /** Removing a chain from the bin also unlinks its pads. */
    method Remove(chain: Chain) returns (ok: bool)
      modifies this`children, this`peer, this`failed, this`calls
      ensures ok ==> chain in old(children) && children == old(children) - {chain} && failed == old(failed)
      ensures ok ==> peer == if old(peer) == Some(chain) then None else old(peer)
      ensures !ok ==> children == old(children) && peer == old(peer)
      ensures !ok ==> failed == old(failed) + {RemoveFromBin(chain)}
      ensures calls == old(calls) + 1 && (ok <==> works(old(calls)) && chain in old(children))
    {
      ok := Attempt();
      ok := ok && chain in children;
      if ok {
        children := children - {chain};
        peer := if peer == Some(chain) then None else peer;
      } else {
        failed := failed + {RemoveFromBin(chain)};
      }
    }

    /** Fails on an anchor pad that is already linked. */
    method Link(chain: Chain) returns (ok: bool)
      modifies this`peer, this`failed, this`calls
      ensures ok ==> old(peer) == None && peer == Some(chain) && failed == old(failed)
      ensures !ok ==> peer == old(peer) && failed == old(failed) + {LinkAnchor(chain)}
      ensures calls == old(calls) + 1 && (ok <==> works(old(calls)) && old(peer) == None)
    {
      ok := Attempt();
      ok := ok && peer == None;
      if ok {
        peer := Some(chain);
      } else {
        failed := failed + {LinkAnchor(chain)};
      }
    }

    method Unlink(chain: Chain) returns (ok: bool)
      modifies this`peer, this`failed, this`calls
      ensures ok ==> old(peer) == Some(chain) && peer == None && failed == old(failed)
      ensures !ok ==> peer == old(peer) && failed == old(failed) + {UnlinkAnchor(chain)}
      ensures calls == old(calls) + 1 && (ok <==> works(old(calls)) && old(peer) == Some(chain))
    {
      ok := Attempt();
      ok := ok && peer == Some(chain);
      if ok {
        peer := None;
      } else {
        failed := failed + {UnlinkAnchor(chain)};
      }
    }

    /** Takes a chain to Null. */
    method StopChain(chain: Chain) returns (ok: bool)
      requires Disciplined(direction, trace)
      requires direction == Src && ProbeHeld(trace) ==> !Running(StateOf(states, chain))
      modifies this`trace, this`states, this`failed, this`calls
      ensures trace == old(trace) + [Requested(Stop, chain, StateOf(old(states), chain), Null)]
      ensures old(trace) <= trace && Disciplined(direction, trace) && ProbeHeld(trace) == old(ProbeHeld(trace))
      ensures OnlyMoved(old(states), states, {chain})
      ensures StopAsked(trace, |old(trace)|, chain)
      ensures ok ==> StateOf(states, chain) == Null && failed == old(failed)
      ensures !ok ==> failed == old(failed) + {StopIt(chain)}
      ensures ok == works(old(calls)) && calls == old(calls) + 1
    {
      ok := Request(Stop, chain, Null);
      if !ok {
        failed := failed + {StopIt(chain)};
      }
    }

    /** Takes a chain to Ready, as far as a source may go under the probe. */
    method ReadyChain(chain: Chain) returns (ok: bool)
      requires Disciplined(direction, trace)
      modifies this`trace, this`states, this`failed, this`calls
      ensures trace == old(trace) + [Requested(MakeReady, chain, StateOf(old(states), chain), Ready)]
      ensures old(trace) <= trace && Disciplined(direction, trace) && ProbeHeld(trace) == old(ProbeHeld(trace))
      ensures OnlyMoved(old(states), states, {chain})
      ensures ok ==> StateOf(states, chain) == Ready && failed == old(failed)
      ensures !ok ==> failed == old(failed) + {ReadyIt(chain)}
      ensures ok == works(old(calls)) && calls == old(calls) + 1
    {
      ok := Request(MakeReady, chain, Ready);
      if !ok {
        failed := failed + {ReadyIt(chain)};
      }
    }

    /** Takes a chain to the parent's target; settling elsewhere is only warned about. */
    method AdvanceToParent(chain: Chain) returns (ok: bool)
      requires Disciplined(direction, trace)
      requires ProbeHeld(trace) == (direction == Sink)
      modifies this`trace, this`states, this`failed, this`calls
      ensures trace == old(trace) + [Requested(Advance, chain, StateOf(old(states), chain), parentTarget)]
      ensures old(trace) <= trace && Disciplined(direction, trace) && ProbeHeld(trace) == old(ProbeHeld(trace))
      ensures OnlyMoved(old(states), states, {chain})
      ensures Asked(trace, |old(trace)|, chain, parentTarget)
      ensures ok ==> failed == old(failed)
      ensures !ok ==> failed == old(failed) + {AdvanceIt(chain)}
      ensures ok == works(old(calls)) && calls == old(calls) + 1
    {
      ok := Request(Advance, chain, parentTarget);
      if !ok {
        failed := failed + {AdvanceIt(chain)};
      }
    }

    // The swap

    /** Installs the probe and waits for the pad to go idle; gives up without it. */
    method BlockAndWait() returns (ok: bool)
      requires Disciplined(direction, trace) && !ProbeHeld(trace)
      modifies this`trace, this`failed, this`calls
      ensures old(trace) <= trace && Disciplined(direction, trace) && ProbeHeld(trace) == ok
      ensures ok ==> trace == old(trace) + [ProbeInstalled]
      ensures failed == if ok then old(failed) else old(failed) + {BlockAnchor}
      ensures old(calls) <= calls && (ok <==> !Refused(old(calls), calls))
    {
      var installed := Attempt();
      if !installed {
        failed := failed + {BlockAnchor};
        return false;
      }
      Note(ProbeInstalled);
      var idle := Attempt();
      if !idle {
        Note(ProbeRemoved);
        failed := failed + {BlockAnchor};
        return false;
      }
      return true;
    }

    /** One of the calls that bring a chain in did not succeed. */
    ghost predicate Harmed(chain: Chain)
      reads this
    {
      AddToBin(chain) in failed || LinkAnchor(chain) in failed || ReadyIt(chain) in failed || AdvanceIt(chain) in failed
    }

    /** Adds, links and starts a chain under the probe. A link failure takes the chain out again. */
    method InstallNewChain(chain: Chain, hasPad: bool) returns (sync: StateSync)
      requires Valid() && ProbeHeld(trace) && peer == None
      requires chain !in children && StateOf(states, chain) == Null
      modifies this`children, this`peer, this`states, this`trace, this`failed, this`calls
      ensures Valid() && old(trace) <= trace && ProbeHeld(trace)
      ensures OnlyAbout(old(failed), failed, {chain})
      ensures old(children) <= children <= old(children) + {chain}
      ensures OnlyMoved(old(states), states, {chain})
      ensures peer == None || peer == Some(chain)
      ensures sync == InstallFailed ==> !hasPad || Harmed(chain)
      ensures LinkAnchor(chain) in failed && LinkAnchor(chain) !in old(failed) ==>
        StopAsked(trace, |old(trace)|, chain) && (chain in children ==> RemoveFromBin(chain) in failed)
      ensures sync != InstallFailed ==> hasPad && failed == old(failed) && peer == Some(chain)
      ensures sync == Done ==> direction == Sink
      ensures sync == AfterUnblock ==> direction == Src && StateOf(states, chain) == Ready
      ensures sync != InstallFailed ==> trace == old(trace) + InstallEvents(direction, chain, parentTarget)
      ensures old(calls) <= calls && (sync != InstallFailed <==> hasPad && !Refused(old(calls), calls))
    {
      var ok := Add(chain);
      if !ok || !hasPad {
        return InstallFailed;
      }
      ok := Link(chain);
      if !ok {
        Discard(chain);
        return InstallFailed;
      }
      sync := BringIn(chain);
    }

    /** A source goes to Ready and is advanced after the probe; a sink is advanced under it. */
    method BringIn(chain: Chain) returns (sync: StateSync)
      requires Valid() && ProbeHeld(trace) && StateOf(states, chain) == Null
      modifies this`states, this`trace, this`failed, this`calls
      ensures Valid() && old(trace) <= trace && ProbeHeld(trace) && OnlyMoved(old(states), states, {chain})
      ensures trace == old(trace) + InstallEvents(direction, chain, parentTarget)
      ensures sync == InstallFailed ==>
        failed == old(failed) + {if direction == Src then ReadyIt(chain) else AdvanceIt(chain)}
      ensures sync != InstallFailed ==> failed == old(failed)
      ensures sync == Done ==> direction == Sink
      ensures sync == AfterUnblock ==> direction == Src && StateOf(states, chain) == Ready
      ensures calls == old(calls) + 1 && (sync != InstallFailed <==> works(old(calls)))
    {
      if direction == Src {
        var ready := ReadyChain(chain);
        return if ready then AfterUnblock else InstallFailed;
      }
      var advanced := AdvanceToParent(chain);
      return if advanced then Done else InstallFailed;
    }

    /** Every call the fallback depends on succeeded. */
    ghost predicate FallbackUnharmed(failedChain: Chain, fallback: Chain)
      reads this
    {
      && RemoveFromBin(failedChain) !in failed
      && AddToBin(fallback) !in failed && LinkAnchor(fallback) !in failed && AdvanceIt(fallback) !in failed
    }

    /** The failed chain was stopped and is out, and the anchor is linked to the fallback, which was asked to start. */
    ghost predicate FallenBack(failedChain: Chain, fallback: Chain, since: nat)
      reads this
    {
      && peer == Some(fallback) && failedChain !in children
      && StopAsked(trace, since, failedChain) && Asked(trace, since, fallback, parentTarget)
    }

    /** Stops a chain and takes it out of the bin, whatever comes of either. */
    method Discard(chain: Chain)
      requires Valid() && (direction == Src && ProbeHeld(trace) ==> !Running(StateOf(states, chain)))
      modifies this`children, this`peer, this`states, this`trace, this`failed, this`calls
      ensures Valid() && old(trace) <= trace && ProbeHeld(trace) == old(ProbeHeld(trace))
      ensures trace == old(trace) + [Requested(Stop, chain, StateOf(old(states), chain), Null)]
      ensures StopAsked(trace, |old(trace)|, chain)
      ensures OnlyMoved(old(states), states, {chain}) && OnlyAbout(old(failed), failed, {chain})
      ensures old(children) - {chain} <= children <= old(children)
      ensures chain in children ==> RemoveFromBin(chain) in failed
      ensures old(calls) <= calls
      ensures peer == old(peer) || (old(peer) == Some(chain) && peer == None)
    {
      var ok := StopChain(chain);
      ok := Remove(chain);
    }

    /** Takes a sink that failed to start out of the bin, if it got there. */
    method TakeOutFailedSink(chain: Chain, hasPad: bool) returns (out: bool)
      requires Valid() && ProbeHeld(trace) && direction == Sink
      requires peer == None || peer == Some(chain)
      modifies this`children, this`peer, this`states, this`trace, this`failed, this`calls
      ensures Valid() && old(trace) <= trace && ProbeHeld(trace) && OnlyMoved(old(states), states, {chain})
      ensures trace == old(trace) + [Requested(Stop, chain, StateOf(old(states), chain), Null)]
      ensures StopAsked(trace, |old(trace)|, chain)
      ensures OnlyAbout(old(failed), failed, {chain})
      ensures out ==> children == old(children) - {chain} && peer == None
      ensures !out ==> children == old(children) && (peer == None || peer == Some(chain))
      ensures !out ==> RemoveFromBin(chain) in failed
      ensures old(calls) <= calls && (!out ==> Refused(old(calls), calls))
    {
      var ok;
      if hasPad {
        ok := Unlink(chain);
      }
      ok := StopChain(chain);
      if chain !in children {
        return true;
      }
      out := Remove(chain);
    }

    /** Links and starts the fallback, or takes it out again. */
    method PutInFallback(chain: Chain, hasPad: bool)
      requires Valid() && ProbeHeld(trace) && direction == Sink && peer == None && chain !in children
      modifies this`children, this`peer, this`states, this`trace, this`failed, this`calls
      ensures Valid() && old(trace) <= trace && ProbeHeld(trace) && OnlyMoved(old(states), states, {chain})
      ensures OnlyAbout(old(failed), failed, {chain})
      ensures old(children) <= children <= old(children) + {chain}
      ensures peer == None || peer == Some(chain)
      ensures peer == Some(chain) ==> Asked(trace, |old(trace)|, chain, parentTarget)
      ensures peer == None && chain in children ==> RemoveFromBin(chain) in failed
      ensures peer == None ==>
        !hasPad || AddToBin(chain) in failed || LinkAnchor(chain) in failed || AdvanceIt(chain) in failed
      ensures old(calls) <= calls && (peer == None ==> !hasPad || Refused(old(calls), calls))
    {
      var ok := Add(chain);
      if !ok {
        return;
      }
      if !hasPad {
        ok := Remove(chain);
        return;
      }
      ok := Link(chain);
      if !ok {
        Discard(chain);
        return;
      }
      ok := AdvanceToParent(chain);
      if !ok {
        ghost var t1 := trace;
        Discard(chain);
        AskedLater(t1, trace, |old(trace)|, |old(trace)|, chain, parentTarget);
      }
    }

    /** Takes the failed sink out and puts the fallback in its place, still under the probe. */
    method LinkFallbackSink(failedChain: Chain, failedHasPad: bool, fallback: Chain, fallbackHasPad: bool)
      requires Valid() && ProbeHeld(trace) && direction == Sink
      requires peer == None || peer == Some(failedChain)
      requires fallback !in children && fallback != failedChain
      modifies this`children, this`peer, this`states, this`trace, this`failed, this`calls
      ensures Valid() && old(trace) <= trace && ProbeHeld(trace)
      ensures OnlyMoved(old(states), states, {failedChain, fallback})
      ensures OnlyAbout(old(failed), failed, {failedChain, fallback})
      ensures children <= old(children) + {fallback}
      ensures peer == None || peer == Some(failedChain) || peer == Some(fallback)
      ensures fallbackHasPad && FallbackUnharmed(failedChain, fallback) ==>
        FallenBack(failedChain, fallback, |old(trace)|)
      ensures old(calls) <= calls
      ensures fallbackHasPad && !Refused(old(calls), calls) ==> FallenBack(failedChain, fallback, |old(trace)|)
    {
      var out := TakeOutFailedSink(failedChain, failedHasPad);
      if out {
        ghost var t1 := trace;
        PutInFallback(fallback, fallbackHasPad);
        AskedLater(t1, trace, |old(trace)|, |old(trace)|, failedChain, parentTarget);
        AskedLater(trace, trace, |old(trace)|, |t1|, fallback, parentTarget);
      }
    }

    /** The old chain is out of the bin and at Null. */
    ghost predicate Retired(chain: Option<Chain>)
      reads this
    {
      chain.Some? ==> chain.value !in children && StateOf(states, chain.value) == Null
    }

    /** Every call that takes the old chain out succeeded. */
    ghost predicate OldUnharmed(chain: Option<Chain>)
      reads this
    {
      chain.Some? ==>
        UnlinkAnchor(chain.value) !in failed && StopIt(chain.value) !in failed && RemoveFromBin(chain.value) !in failed
    }

    /** Unlinks, stops and removes the chain behind the anchor; a dangling anchor has none. */
    method TakeOutOld() returns (ok: bool)
      requires Valid() && ProbeHeld(trace)
      requires direction == Src && peer.Some? ==> StateOf(states, peer.value) == Null
      modifies this`children, this`peer, this`states, this`trace, this`failed, this`calls
      ensures Valid() && old(trace) <= trace && ProbeHeld(trace)
      ensures OnlyMoved(old(states), states, if old(peer).Some? then {old(peer).value} else {})
      ensures ok ==> peer == None && Retired(old(peer)) && failed == old(failed)
      ensures ok ==> children == if old(peer).Some? then old(children) - {old(peer).value} else old(children)
      ensures ok ==> trace == old(trace) + StopEvents(old(peer), OldState(old(peer), old(states)))
      ensures !ok ==> old(peer).Some? && children == old(children) && (peer == None || peer == old(peer))
      ensures !ok ==> !OldUnharmed(old(peer)) && OnlyAbout(old(failed), failed, {old(peer).value})
      ensures old(calls) <= calls && (ok <==> !Refused(old(calls), calls))
    {
      if peer.None? {
        return true;
      }
      var oldChain := peer.value;
      ok := Unlink(oldChain);
      if !ok {
        return;
      }
      ok := StopChain(oldChain);
      if !ok {
        return;
      }
      ok := Remove(oldChain);
    }

    /** The half of the swap that runs under the probe. */
    method SwapChainInner(chain: Chain, hasPad: bool, fallback: Option<Chain>, fallbackHasPad: bool)
      returns (sync: StateSync)
      requires Valid() && ProbeHeld(trace) && failed == {}
      requires direction == Src && peer.Some? ==> StateOf(states, peer.value) == Null
      requires chain !in children && StateOf(states, chain) == Null
      requires fallback.Some? ==> fallback.value !in children && fallback.value != chain
      modifies this`children, this`peer, this`states, this`trace, this`failed, this`calls
      ensures Valid() && old(trace) <= trace && ProbeHeld(trace)
      ensures sync != InstallFailed <==> hasPad && failed == {}
      ensures sync != InstallFailed ==> peer == Some(chain)
      ensures OldUnharmed(old(peer)) ==> Retired(old(peer))
      ensures !OldUnharmed(old(peer)) ==> children == old(children) && (peer == None || peer == old(peer))
      ensures sync == Done ==> direction == Sink
      ensures sync == AfterUnblock ==> direction == Src && StateOf(states, chain) == Ready
      ensures sync != InstallFailed ==>
        trace == old(trace) + BlockedEvents(direction, old(peer), OldState(old(peer), old(states)), chain, parentTarget)
      ensures BlockAnchor !in failed
      ensures sync == InstallFailed && OldUnharmed(old(peer)) ==> !hasPad || Harmed(chain)
      ensures
        (sync == InstallFailed && OldUnharmed(old(peer)) && direction == Sink && fallback.Some? && fallbackHasPad
         && (FallbackUnharmed(chain, fallback.value) || OneMishap(hasPad, old(calls), calls))) ==>
          FallenBack(chain, fallback.value, |old(trace)|)
      ensures old(calls) <= calls && (sync != InstallFailed <==> hasPad && !Refused(old(calls), calls))
    {
      var taken := TakeOutOld();
      if !taken {
        return InstallFailed;
      }
      ghost var t1 := trace;
      sync := InstallOrFallBack(chain, hasPad, fallback, fallbackHasPad);
      Longer(old(trace), t1, trace);
    }

    /** Once the old chain is gone: the new chain, or for a sink its fallback, before the probe is lifted. */
    method InstallOrFallBack(chain: Chain, hasPad: bool, fallback: Option<Chain>, fallbackHasPad: bool)
      returns (sync: StateSync)
      requires Valid() && ProbeHeld(trace) && peer == None && failed == {}
      requires chain !in children && StateOf(states, chain) == Null
      requires fallback.Some? ==> fallback.value !in children && fallback.value != chain
      modifies this`children, this`peer, this`states, this`trace, this`failed, this`calls
      ensures Valid() && old(trace) <= trace && ProbeHeld(trace)
      ensures OnlyMoved(old(states), states, Involved(chain, fallback))
      ensures OnlyAbout({}, failed, Involved(chain, fallback))
      ensures children <= old(children) + Involved(chain, fallback)
      ensures sync != InstallFailed ==> hasPad && failed == {} && peer == Some(chain)
      ensures sync == InstallFailed ==> !hasPad || Harmed(chain)
      ensures sync == Done ==> direction == Sink
      ensures sync == AfterUnblock ==> direction == Src && StateOf(states, chain) == Ready
      ensures sync != InstallFailed ==> trace == old(trace) + InstallEvents(direction, chain, parentTarget)
      ensures
        (sync == InstallFailed && direction == Sink && fallback.Some? && fallbackHasPad
         && (FallbackUnharmed(chain, fallback.value) || OneMishap(hasPad, old(calls), calls))) ==>
          FallenBack(chain, fallback.value, |old(trace)|)
      ensures old(calls) <= calls && (sync != InstallFailed <==> hasPad && !Refused(old(calls), calls))
    {
      sync := InstallNewChain(chain, hasPad);
      if sync == InstallFailed && direction == Sink && fallback.Some? {
        ghost var t1 := trace;
        LinkFallbackSink(chain, hasPad, fallback.value, fallbackHasPad);
        Longer(old(trace), t1, trace);
      }
    }

    method LiftProbe()
      requires Valid()
      modifies this`trace
      ensures Valid() && old(trace) <= trace && !ProbeHeld(trace) && trace == old(trace) + [ProbeRemoved]
    {
      Note(ProbeRemoved);
    }

    /** Blocks the anchor, swaps, and lifts the probe whatever the swap came to. */
    method SwapBlocked(chain: Chain, hasPad: bool, fallback: Option<Chain>, fallbackHasPad: bool)
      returns (blocked: bool, sync: StateSync)
      requires Valid() && !ProbeHeld(trace) && failed == {}
      requires direction == Src && peer.Some? ==> StateOf(states, peer.value) == Null
      requires chain !in children && StateOf(states, chain) == Null
      requires fallback.Some? ==> fallback.value !in children && fallback.value != chain
      modifies this`children, this`peer, this`states, this`trace, this`failed, this`calls
      ensures Valid() && old(trace) <= trace && !ProbeHeld(trace)
      ensures !blocked <==> BlockAnchor in failed
      ensures !blocked ==> sync == InstallFailed && peer == old(peer) && children == old(children)
      ensures sync != InstallFailed <==> hasPad && failed == {}
      ensures sync != InstallFailed ==> peer == Some(chain)
      ensures blocked && OldUnharmed(old(peer)) ==> Retired(old(peer))
      ensures !OldUnharmed(old(peer)) ==> children == old(children) && (peer == None || peer == old(peer))
      ensures sync == Done ==> direction == Sink
      ensures sync == AfterUnblock ==> direction == Src && StateOf(states, chain) == Ready
      ensures sync != InstallFailed ==>
        trace == old(trace) + ProbedEvents(direction, old(peer), OldState(old(peer), old(states)), chain, parentTarget)
      ensures blocked && sync == InstallFailed && OldUnharmed(old(peer)) ==> !hasPad || Harmed(chain)
      ensures
        (blocked && sync == InstallFailed && OldUnharmed(old(peer)) && direction == Sink && fallback.Some?
         && fallbackHasPad && (FallbackUnharmed(chain, fallback.value) || OneMishap(hasPad, old(calls), calls))) ==>
          FallenBack(chain, fallback.value, |old(trace)|)
      ensures old(calls) <= calls && (sync != InstallFailed <==> hasPad && !Refused(old(calls), calls))
    {
      blocked := BlockAndWait();
      if !blocked {
        return false, InstallFailed;
      }
      ghost var t1 := trace;
      sync := SwapChainInner(chain, hasPad, fallback, fallbackHasPad);
      Longer(old(trace), t1, trace);
      ghost var t2 := trace;
      LiftProbe();
      Longer(old(trace), t2, trace);
      if sync != InstallFailed {
        InProbe(direction, old(peer), OldState(old(peer), old(states)), chain, parentTarget, old(trace), t1, t2, trace);
      }
      AskedLater(t2, trace, |old(trace)|, |t1|, chain, parentTarget);
      if fallback.Some? {
        AskedLater(t2, trace, |old(trace)|, |t1|, fallback.value, parentTarget);
      }
    }

    /** A source is stopped before the probe goes in; a sink is not touched yet. */
    method StopSource() returns (ok: bool)
      requires Valid() && !ProbeHeld(trace) && failed == {}
      modifies this`trace, this`states, this`failed, this`calls
      ensures Valid() && old(trace) <= trace && !ProbeHeld(trace)
      ensures ok ==> trace == old(trace) + EarlyEvents(direction, peer, OldState(peer, old(states)))
      ensures ok ==> failed == {}
      ensures ok ==> OldState(peer, states) == if direction == Src then Null else OldState(peer, old(states))
      ensures !ok ==> direction == Src && peer.Some? && failed == {StopIt(peer.value)}
      ensures OnlyMoved(old(states), states, if peer.Some? then {peer.value} else {})
      ensures old(calls) <= calls && (ok <==> !Refused(old(calls), calls))
    {
      ok := true;
      if direction == Src && peer.Some? {
        ok := StopChain(peer.value);
      }
    }

    /** What is left after the probe is lifted: a source is advanced, a sink is up already. */
    method AdvanceSource(chain: Chain, sync: StateSync) returns (ok: bool)
      requires Valid() && !ProbeHeld(trace) && sync != InstallFailed
      requires sync == AfterUnblock <==> direction == Src
      requires direction == Src ==> StateOf(states, chain) == Ready
      modifies this`trace, this`states, this`failed, this`calls
      ensures Valid() && old(trace) <= trace && !ProbeHeld(trace)
      ensures OnlyMoved(old(states), states, if direction == Src then {chain} else {})
      ensures ok ==> failed == old(failed) && trace == old(trace) + LateEvents(direction, chain, parentTarget)
      ensures !ok ==> direction == Src && failed == old(failed) + {AdvanceIt(chain)}
      ensures old(calls) <= calls && (ok <==> !Refused(old(calls), calls))
    {
      ok := true;
      if sync == AfterUnblock {
        ok := AdvanceToParent(chain);
      }
    }

    /**
     Swaps the chain behind the anchor. `fallback` is the sink built when the new one
     fails, or None when there is none or building it failed.
     */
    method RebuildChain(chain: Chain, hasPad: bool, fallback: Option<Chain>, fallbackHasPad: bool)
      returns (outcome: Outcome)
      requires Valid() && !ProbeHeld(trace)
      requires chain !in children && StateOf(states, chain) == Null
      requires fallback.Some? ==> fallback.value !in children && fallback.value != chain
      modifies this`children, this`peer, this`states, this`trace, this`failed, this`calls
      // the probe is gone on every return, and no request made on the way could deadlock
      ensures Valid() && old(trace) <= trace && !ProbeHeld(trace)
      // the swap succeeds exactly when every call does
      ensures outcome == Swapped <==> hasPad && failed == {}
      ensures old(calls) <= calls && (outcome == Swapped <==> hasPad && !Refused(old(calls), calls))
      ensures outcome == Swapped ==> peer == Some(chain) && Retired(old(peer))
      // and exactly these requests were made, in this order
      ensures outcome == Swapped ==>
        trace == old(trace) + SwapEvents(direction, old(peer), OldState(old(peer), old(states)), chain, parentTarget)
      ensures outcome == StopFailed || outcome == BlockFailed ==> peer == old(peer) && children == old(children)
      ensures outcome == StopFailed ==> direction == Src && !OldUnharmed(old(peer))
      ensures outcome == BlockFailed <==> BlockAnchor in failed
      ensures outcome == AdvanceFailed ==>
        direction == Src && AdvanceIt(chain) in failed && peer == Some(chain) && Retired(old(peer))
      // a failed swap either kept the old chain in the bin, or took it out and failed over the new one
      ensures outcome == SwapFailed && !OldUnharmed(old(peer)) ==>
        children == old(children) && (peer == None || peer == old(peer))
      ensures outcome == SwapFailed && OldUnharmed(old(peer)) ==>
        Retired(old(peer)) && (!hasPad || Harmed(chain))
      // a sink ends at the fallback if its calls succeed, and so whenever only one call failed in all
      ensures
        (outcome == SwapFailed && OldUnharmed(old(peer)) && direction == Sink && fallback.Some? && fallbackHasPad
         && (FallbackUnharmed(chain, fallback.value) || OneMishap(hasPad, old(calls), calls))) ==>
          FallenBack(chain, fallback.value, |old(trace)|)
    {
      failed := {};
      var stopped := StopSource();
      if !stopped {
        return StopFailed;
      }
      ghost var t1 := trace;
      var blocked, sync := SwapBlocked(chain, hasPad, fallback, fallbackHasPad);
      Longer(old(trace), t1, trace);
      if !blocked {
        return BlockFailed;
      }
      if sync == InstallFailed {
        if fallback.Some? {
          AskedLater(trace, trace, |old(trace)|, |t1|, chain, parentTarget);
          AskedLater(trace, trace, |old(trace)|, |t1|, fallback.value, parentTarget);
        }
        return SwapFailed;
      }
      ghost var t2 := trace;
      var advanced := AdvanceSource(chain, sync);
      Longer(old(trace), t2, trace);
      if !advanced {
        return AdvanceFailed;
      }
      InOrder(direction, old(peer), OldState(old(peer), old(states)), chain, parentTarget, old(trace), t1, t2, trace);
      return Swapped;
    }
  }

  lemma Longer(a: seq<Event>, b: seq<Event>, c: seq<Event>)
    requires a <= b <= c
    ensures a <= c
  {
  }
}
