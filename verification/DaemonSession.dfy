/**
 One element's session with the daemon. Calls run as background tasks that may
 finish at any point where the caller waits; a call that outlasts its timeout is
 kept in flight. The trace records, in order, the opening of the session, the start
 and end of every task, and the attempt to close the session.
 */
module DaemonSession {
  import opened Types

  datatype Kind = Activation | AddCall | SyncCall

  datatype Task = Task(kind: Kind, id: nat)

  datatype Event = Opened | Started(task: Task) | Ended(task: Task) | CloseSent

  type Trace = seq<Event>

  function Running(trace: Trace): set<Task> {
    if trace == [] then {}
    else
      var before := Running(trace[..|trace| - 1]);
      match trace[|trace| - 1]
      case Started(task) => before + {task}
      case Ended(task) => before - {task}
      case Opened | CloseSent => before
  }

  function Count(trace: Trace, event: Event): nat {
    if trace == [] then 0
    else Count(trace[..|trace| - 1], event) + (if trace[|trace| - 1] == event then 1 else 0)
  }

  predicate NoneOfKind(tasks: set<Task>, kind: Kind) {
    forall task <- tasks :: task.kind != kind
  }

  /** What may come next after these events. */
  predicate MayFollow(trace: Trace, event: Event) {
    match event
    case Opened => trace == []
    case Started(task) => Count(trace, CloseSent) == 0 && NoneOfKind(Running(trace), task.kind)
    case Ended(task) => task in Running(trace)
    case CloseSent => Count(trace, Opened) == 1 && Count(trace, CloseSent) == 0 && Running(trace) == {}
  }

  /**
   The order the daemon relies on: nothing starts while a task of its kind may still
   be running or after the close, and the session is closed at most once, with nothing
   running.
   */
  ghost predicate Ordered(trace: Trace) {
    forall i :: 0 <= i < |trace| ==> MayFollow(trace[..i], trace[i])
  }

  lemma Extended(trace: Trace, event: Event)
    requires Ordered(trace) && MayFollow(trace, event)
    ensures Ordered(trace + [event])
    ensures Running(trace + [event]) ==
      if event.Started? then Running(trace) + {event.task}
      else if event.Ended? then Running(trace) - {event.task}
      else Running(trace)
    ensures forall other :: Count(trace + [event], other) == Count(trace, other) + (if other == event then 1 else 0)
  {
    var longer := trace + [event];
    assert longer[..|trace|] == trace;
    forall i | 0 <= i < |longer|
      ensures MayFollow(longer[..i], longer[i])
    {
      assert i < |trace| ==> longer[..i] == trace[..i];
    }
  }

  /** A session opened and not yet closed. */
  ghost predicate Live(trace: Trace) {
    Ordered(trace) && Count(trace, Opened) == 1 && Count(trace, CloseSent) == 0
  }

  /** A session opened and closed exactly once, with nothing left running. */
  ghost predicate Closed(trace: Trace) {
    Ordered(trace) && Count(trace, Opened) == 1 && Count(trace, CloseSent) == 1 && Running(trace) == {}
  }

  datatype CallResult =
    | Succeeded
    | Failed
    | AlreadyAdded
    | NoResource
    | TimedOut
    | Outstanding
    | SessionClosed

  /** What comes of a call while it is waited for. */
  datatype Reply = NoReply | Answer(ok: bool)

  function ResultOf(reply: Reply): CallResult {
    match reply
    case NoReply => TimedOut
    case Answer(ok) => if ok then Succeeded else Failed
  }

  /** The first thing that happened since is that a call of this kind was started. */
  ghost predicate CallMade(before: Trace, after: Trace, kind: Kind) {
    && before <= after && |before| < |after|
    && after[|before|].Started? && after[|before|].task.kind == kind
  }

  /** The tasks that can be running are those the session still holds. */
  ghost predicate Held(running: set<Task>, activation: Option<Task>, add: Option<Task>, sync: Option<Task>) {
    && (activation.Some? ==> activation.value.kind == Activation)
    && (add.Some? ==> add.value.kind == AddCall)
    && (sync.Some? ==> sync.value.kind == SyncCall)
    && (forall task <- running :: Some(task) == activation || Some(task) == add || Some(task) == sync)
  }

  method Note(trace: Trace, event: Event) returns (after: Trace)
    requires Ordered(trace) && MayFollow(trace, event)
    ensures after == trace + [event] && Ordered(after)
    ensures Running(after) ==
      if event.Started? then Running(trace) + {event.task}
      else if event.Ended? then Running(trace) - {event.task}
      else Running(trace)
    ensures Count(after, Opened) == Count(trace, Opened) + (if event == Opened then 1 else 0)
    ensures Count(after, CloseSent) == Count(trace, CloseSent) + (if event == CloseSent then 1 else 0)
  {
    Extended(trace, event);
    after := trace + [event];
  }

  /** Waiting: any of the running tasks may finish meanwhile. */
  method Yield(trace: Trace) returns (after: Trace)
    requires Ordered(trace)
    ensures trace <= after && Ordered(after) && Running(after) <= Running(trace)
    ensures Count(after, Opened) == Count(trace, Opened) && Count(after, CloseSent) == Count(trace, CloseSent)
  {
    after := trace;
    var todo := Running(trace);
    while todo != {}
      invariant trace <= after && Ordered(after)
      invariant todo <= Running(after) <= Running(trace)
      invariant Count(after, Opened) == Count(trace, Opened) && Count(after, CloseSent) == Count(trace, CloseSent)
      decreases |todo|
    {
      var task :| task in todo;
      todo := todo - {task};
      var finished: bool := *;
      if finished {
        after := Note(after, Ended(task));
      }
    }
  }

  /** Ends a task: by waiting for it, or by aborting it. */
  method Settle(trace: Trace, task: Task) returns (after: Trace)
    requires Ordered(trace)
    ensures trace <= after && Ordered(after) && Running(after) <= Running(trace) - {task}
    ensures Count(after, Opened) == Count(trace, Opened) && Count(after, CloseSent) == Count(trace, CloseSent)
  {
    after := Yield(trace);
    if task in Running(after) {
      after := Note(after, Ended(task));
    }
  }

  method SettleIfAny(trace: Trace, task: Option<Task>) returns (after: Trace)
    requires Ordered(trace)
    ensures trace <= after && Ordered(after) && Running(after) <= Running(trace)
    ensures task.Some? ==> task.value !in Running(after)
    ensures Count(after, Opened) == Count(trace, Opened) && Count(after, CloseSent) == Count(trace, CloseSent)
  {
    after := trace;
    if task.Some? {
      after := Settle(trace, task.value);
    }
  }

  lemma Longer(a: Trace, b: Trace, c: Trace)
    requires a <= b <= c
    ensures a <= c
  {
  }

  lemma AllSettled(running: set<Task>, activation: Option<Task>, add: Option<Task>, sync: Option<Task>, left: set<Task>)
    requires Held(running, activation, add, sync) && left <= running
    requires activation.Some? ==> activation.value !in left
    requires add.Some? ==> add.value !in left
    requires sync.Some? ==> sync.value !in left
    ensures left == {}
  {
    assert forall task <- left :: task in running;
  }

  /** Starts a call and waits for it, for as long as the timeout allows. */
  method RunCall(trace: Trace, task: Task, reply: Reply) returns (after: Trace, result: CallResult)
    requires Live(trace) && NoneOfKind(Running(trace), task.kind)
    ensures trace <= after && Live(after) && Running(after) <= Running(trace) + {task}
    ensures CallMade(trace, after, task.kind) && after[|trace|] == Started(task)
    ensures result == ResultOf(reply)
    ensures result != TimedOut ==> task !in Running(after)
  {
    var started := Note(trace, Started(task));
    after := Yield(started);
    Longer(trace, started, after);
    if reply.NoReply? {
      return after, TimedOut;
    }
    if task in Running(after) {
      ghost var before := after;
      after := Note(after, Ended(task));
      Longer(trace, before, after);
    }
    result := if reply.ok then Succeeded else Failed;
  }

  /** A call started while none of its kind was in flight is held if it is still running. */
  lemma HeldAfter(running: set<Task>, left: set<Task>, task: Task, kept: Option<Task>,
                  activation: Option<Task>, add: Option<Task>, sync: Option<Task>)
    requires Held(running, activation, add, sync) && left <= running + {task}
    requires kept == Some(task) || (kept.None? && task !in left)
    ensures task.kind == AddCall && add.None? ==> Held(left, activation, kept, sync)
    ensures task.kind == SyncCall && sync.None? ==> Held(left, activation, add, kept)
  {
    assert forall other <- left :: other in running || other == task;
  }

  /** Joins what is in flight, ends the activation task, and sends CloseSession. */
  method CloseDetached(trace: Trace, activation: Option<Task>, add: Option<Task>, sync: Option<Task>)
    returns (after: Trace)
    requires Live(trace) && Held(Running(trace), activation, add, sync)
    ensures trace <= after && Closed(after)
  {
    var t1 := SettleIfAny(trace, add);
    var t2 := SettleIfAny(t1, sync);
    var t3 := SettleIfAny(t2, activation);
    AllSettled(Running(trace), activation, add, sync, Running(t3));
    after := Note(t3, CloseSent);
    Longer(trace, t1, t2);
    Longer(trace, t2, t3);
    Longer(trace, t3, after);
  }

  class Session {
    /** Present until the session is handed to the close. */
    var client: bool
    var resource: bool
    var activationTask: Option<Task>
    var inflightAdd: Option<Task>
    var inflightSync: Option<Task>
    var trace: Trace

    ghost predicate Valid()
      reads this
    {
      && Held(Running(trace), activationTask, inflightAdd, inflightSync)
      && if client then Live(trace) else Closed(trace)
    }

    constructor (trace: Trace, activation: Task, resource: bool)
      requires Live(trace) && activation.kind == Activation && Running(trace) <= {activation}
      ensures Valid() && client && this.resource == resource && this.trace == trace
      ensures inflightAdd == None && inflightSync == None
    {
      client := true;
      this.resource := resource;
      activationTask, inflightAdd, inflightSync := Some(activation), None, None;
      this.trace := trace;
    }

    /**
     Starts a call unless one of its kind is in flight, and waits for it. A call that
     outlasts the wait stays in flight for good.
     */
    method DriveCall(kind: Kind, inflight: Option<Task>, reply: Reply) returns (result: CallResult, kept: Option<Task>)
      requires Valid() && client && kind != Activation
      requires inflight == if kind == AddCall then inflightAdd else inflightSync
      modifies this`trace
      ensures old(trace) <= trace && Live(trace)
      ensures inflight.Some? ==> result == Outstanding && kept == inflight && trace == old(trace)
      ensures inflight.None? ==> result == ResultOf(reply) && CallMade(old(trace), trace, kind)
      ensures inflight.None? ==> kept == if result == TimedOut then Some(trace[|old(trace)|].task) else None
      ensures kept.Some? ==> kept.value.kind == kind
      ensures if kind == AddCall then Held(Running(trace), activationTask, kept, inflightSync)
              else Held(Running(trace), activationTask, inflightAdd, kept)
    {
      if inflight.Some? {
        return Outstanding, inflight;
      }
      var task := Task(kind, |trace|);
      ghost var running := Running(trace);
      trace, result := RunCall(trace, task, reply);
      kept := if result == TimedOut then Some(task) else None;
      HeldAfter(running, Running(trace), task, kept, activationTask, inflightAdd, inflightSync);
    }

    method AddResource(reply: Reply) returns (result: CallResult)
      requires Valid()
      modifies this
      ensures Valid() && old(trace) <= trace && client == old(client)
      ensures old(resource) ==> result == AlreadyAdded && trace == old(trace)
      ensures !old(resource) && !client ==> result == SessionClosed && trace == old(trace)
      ensures !old(resource) && client && old(inflightAdd).Some? ==> result == Outstanding && trace == old(trace)
      ensures !old(resource) && client && old(inflightAdd).None? ==>
        result == ResultOf(reply) && CallMade(old(trace), trace, AddCall)
      ensures resource <==> old(resource) || result == Succeeded
      ensures inflightAdd == if result == TimedOut then Some(trace[|old(trace)|].task) else old(inflightAdd)
      ensures inflightSync == old(inflightSync)
    {
      if resource {
        return AlreadyAdded;
      }
      if !client {
        return SessionClosed;
      }
      result, inflightAdd := DriveCall(AddCall, inflightAdd, reply);
      if result == Succeeded {
        resource := true;
      }
    }

    method SyncResourceState(reply: Reply) returns (result: CallResult)
      requires Valid()
      modifies this
      ensures Valid() && old(trace) <= trace && client == old(client) && resource == old(resource)
      ensures !resource ==> result == NoResource && trace == old(trace)
      ensures resource && !client ==> result == SessionClosed && trace == old(trace)
      ensures resource && client && old(inflightSync).Some? ==> result == Outstanding && trace == old(trace)
      ensures resource && client && old(inflightSync).None? ==>
        result == ResultOf(reply) && CallMade(old(trace), trace, SyncCall)
      ensures inflightSync == if result == TimedOut then Some(trace[|old(trace)|].task) else old(inflightSync)
      ensures inflightAdd == old(inflightAdd)
    {
      if !resource {
        return NoResource;
      }
      if !client {
        return SessionClosed;
      }
      result, inflightSync := DriveCall(SyncCall, inflightSync, reply);
    }

    /**
     Hands the session over to the close. Used by an explicit close and again when the
     session is dropped, so a second time there is nothing left to do.
     */
    method CloseOrDrop()
      requires Valid()
      modifies this
      ensures Valid() && !client && Closed(trace) && old(trace) <= trace
      ensures !old(client) ==> trace == old(trace)
    {
      if !client {
        return;
      }
      client := false;
      var activation, add, sync := activationTask, inflightAdd, inflightSync;
      activationTask, inflightAdd, inflightSync := None, None, None;
      trace := CloseDetached(trace, activation, add, sync);
    }
  }

  /** Gives up on a session that was opened but not completed. */
  method Abandon(trace: Trace, activation: Task) returns (after: Trace)
    requires Live(trace) && Running(trace) <= {activation}
    ensures trace <= after && Closed(after)
  {
    after := trace;
    if activation in Running(after) {
      after := Note(after, Ended(activation));
    }
    ghost var before := after;
    after := Note(after, CloseSent);
    Longer(trace, before, after);
  }

  /** The session is opened first and its activations are subscribed to next. */
  ghost predicate Subscribed(trace: Trace, activation: Task) {
    [Opened, Started(activation)] <= trace
  }

  /** OpenSession and the activation subscription; no task is returned when either fails. */
  method OpenAndSubscribe(accepted: bool, subscribes: bool) returns (activation: Option<Task>, trace: Trace)
    ensures activation.Some? <==> accepted && subscribes
    ensures activation.None? ==> if accepted then Closed(trace) else trace == []
    ensures activation.Some? ==> Live(trace) && activation.value.kind == Activation
    ensures activation.Some? ==> trace == [Opened, Started(activation.value)] && Running(trace) == {activation.value}
  {
    activation, trace := None, [];
    if !accepted {
      return;
    }
    trace := Note(trace, Opened);
    if !subscribes {
      trace := Note(trace, CloseSent);
      return;
    }
    activation := Some(Task(Activation, 0));
    trace := Note(trace, Started(activation.value));
  }

  /** The add an opening may make before it returns. */
  method AddOnOpen(trace: Trace, activation: Task) returns (after: Trace)
    requires Live(trace) && activation.kind == Activation && Running(trace) <= {activation}
    ensures Live(after) && Running(after) <= {activation} && CallMade(trace, after, AddCall)
  {
    var task := Task(AddCall, |trace|);
    var t1 := Note(trace, Started(task));
    after := Settle(t1, task);
  }

  /** What comes of the calls an opening makes. */
  datatype Course = Course(addResource: bool, accepted: bool, subscribes: bool, added: bool) {
    predicate Succeeds() {
      accepted && subscribes && (addResource ==> added)
    }
  }

  /**
   Opens a session: OpenSession, then the activation subscription, then an optional
   add. A failure after OpenSession has succeeded closes what was opened.
   */
  method Open(course: Course) returns (session: Session?, trace: Trace)
    ensures session != null <==> course.Succeeds()
    ensures session != null ==> fresh(session) && session.Valid() && session.client && session.trace == trace
    ensures session != null ==> session.resource == course.addResource
    ensures session == null ==> if course.accepted then Closed(trace) else trace == []
    ensures course.accepted && course.subscribes ==> exists activation ::
      Subscribed(trace, activation) && activation.kind == Activation
    ensures course.accepted && course.subscribes && course.addResource ==> CallMade(trace[..2], trace, AddCall)
  {
    session := null;
    var activation;
    activation, trace := OpenAndSubscribe(course.accepted, course.subscribes);
    if activation.None? {
      return;
    }
    assert Subscribed(trace, activation.value);
    if course.addResource {
      trace := AddOnOpen(trace, activation.value);
      assert Subscribed(trace, activation.value);
      if !course.added {
        trace := Abandon(trace, activation.value);
        assert Subscribed(trace, activation.value);
        return;
      }
    }
    session := new Session(trace, activation.value, course.addResource);
  }

  /** Once closed a session's history is complete: exactly one open, one close, and no start after the close. */
  lemma {:induction false} NothingAfterClose(trace: Trace, i: nat, j: nat)
    requires Ordered(trace) && i < j < |trace| && trace[i] == CloseSent
    ensures trace[j] != CloseSent && !trace[j].Started? && trace[j] != Opened
  {
    CountGrows(trace, i, j);
    assert trace[..j] != [];
  }

  lemma {:induction false} CountGrows(trace: Trace, i: nat, j: nat)
    requires i < j <= |trace|
    ensures Count(trace[..j], trace[i]) >= 1
    decreases j
  {
    var events := trace[..j];
    assert events[..|events| - 1] == trace[..j - 1];
    if i < j - 1 {
      CountGrows(trace, i, j - 1);
    }
  }

  /** At the start of a call no earlier call of its kind has started without ending. */
  lemma NoOverlap(trace: Trace, earlier: nat, later: nat)
    requires Ordered(trace) && earlier < later < |trace|
    requires trace[earlier].Started? && trace[later].Started?
    requires trace[earlier].task.kind == trace[later].task.kind
    ensures exists i :: earlier < i < later && trace[i] == Ended(trace[earlier].task)
  {
    assert MayFollow(trace[..later], trace[later]);
    if forall i :: earlier < i < later ==> trace[i] != Ended(trace[earlier].task) {
      RunsUntilEnded(trace, earlier, later);
    }
  }

  lemma {:induction false} RunsUntilEnded(trace: Trace, started: nat, later: nat)
    requires started < later <= |trace| && trace[started].Started?
    requires forall i :: started < i < later ==> trace[i] != Ended(trace[started].task)
    ensures trace[started].task in Running(trace[..later])
    decreases later
  {
    var events := trace[..later];
    assert events[..|events| - 1] == trace[..later - 1];
    if started < later - 1 {
      RunsUntilEnded(trace, started, later - 1);
    }
  }

  /** Nothing the session started is still running when CloseSession is sent. */
  lemma AllEndedBeforeClose(trace: Trace, started: nat, closed: nat)
    requires Ordered(trace) && started < closed < |trace|
    requires trace[started].Started? && trace[closed] == CloseSent
    ensures exists i :: started < i < closed && trace[i] == Ended(trace[started].task)
  {
    assert MayFollow(trace[..closed], trace[closed]);
    if forall i :: started < i < closed ==> trace[i] != Ended(trace[started].task) {
      RunsUntilEnded(trace, started, closed);
    }
  }
}
