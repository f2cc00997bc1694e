/**
 The place where an element keeps its session across state changes: nothing, an
 opening the last state change stopped waiting for, or an open session. An opening
 is never aborted, so it may finish at any time and its session must still be closed.
 */
module SessionSlot {
  import opened Types
  import DaemonSession

  /**
   One attempt to open a session: still running; finished with a session nobody has
   taken; in use; or over, with everything that happened to its session.
   */
  datatype Attempt = Opening | Unclaimed | InUse | Over(trace: DaemonSession.Trace)

  datatype Phase = Empty | Pending(attempt: nat) | Open(attempt: nat)

  type Attempts = seq<Attempt>

  /** An attempt that is over either got no session, or closed it once with nothing left running. */
  ghost predicate Accounted(attempt: Attempt) {
    attempt.Over? ==> attempt.trace == [] || DaemonSession.Closed(attempt.trace)
  }

  predicate HasSession(attempt: Attempt) {
    attempt == Unclaimed || attempt == InUse
  }

  /** Whatever is not over is in the slot, or belongs to an element that is gone. */
  predicate HeldBy(attempt: Attempt, n: nat, phase: Phase, detached: set<nat>) {
    match attempt
    case Opening => phase == Pending(n) || n in detached
    case Unclaimed => phase == Pending(n)
    case InUse => phase == Open(n)
    case Over(_) => phase != Open(n) && n !in detached
  }

  ghost predicate AllHeld(attempts: Attempts, phase: Phase, detached: set<nat>) {
    && (forall n :: 0 <= n < |attempts| ==> Accounted(attempts[n]) && HeldBy(attempts[n], n, phase, detached))
    && (phase != Empty ==> phase.attempt < |attempts| && phase.attempt !in detached)
    && (forall n <- detached :: n < |attempts| && attempts[n] == Opening)
  }

  ghost predicate AllOver(attempts: Attempts) {
    forall n :: 0 <= n < |attempts| ==> attempts[n].Over? && Accounted(attempts[n])
  }

  /** How an attempt may move on: a session in hand ends only by being closed. */
  ghost predicate MovesTo(before: Attempt, after: Attempt) {
    match before
    case Opening => true
    case Unclaimed => HasSession(after) || (after.Over? && DaemonSession.Closed(after.trace))
    case InUse => after == InUse || (after.Over? && DaemonSession.Closed(after.trace))
    case Over(_) => after == before
  }

  ghost predicate Progress(before: Attempts, after: Attempts) {
    |before| <= |after| && forall n :: 0 <= n < |before| ==> MovesTo(before[n], after[n])
  }

  /** What an opening comes to while it is waited for: still running, or over with its calls' outcomes. */
  datatype Wait = StillRunning | Ends(course: DaemonSession.Course)

  /** The attempt after the wait; only one that was still opening can move. */
  predicate MovedBy(before: Attempt, after: Attempt, wait: Wait) {
    if before != Opening || wait.StillRunning? then after == before
    else if wait.course.Succeeds() then after == Unclaimed
    else after.Over?
  }

  /** The attempt has a session, or gets one by the end of the wait. */
  predicate GetsSession(attempt: Attempt, wait: Wait) {
    HasSession(attempt) || (attempt == Opening && wait.Ends? && wait.course.Succeeds())
  }

  datatype OpenJoin = Ready | Finished | Running

  /** An opening whose result nobody takes: the session, if there is one, is dropped. */
  method OpenAndDrop(course: DaemonSession.Course) returns (trace: DaemonSession.Trace)
    ensures if course.accepted then DaemonSession.Closed(trace) else trace == []
  {
    var got;
    got, trace := DaemonSession.Open(course);
    if got != null {
      got.CloseOrDrop();
      trace := got.trace;
    }
  }

  class Slot {
    var phase: Phase
    /** The session of the attempt in the slot, once it has one. */
    var session: DaemonSession.Session?
    var attempts: Attempts
    /** Openings whose element is gone; their sessions are dropped when they finish. */
    var detached: set<nat>

    ghost predicate Valid()
      reads this, session
    {
      && AllHeld(attempts, phase, detached)
      && (session != null <==> phase != Empty && HasSession(attempts[phase.attempt]))
      && (session != null ==> session.Valid() && session.client)
    }

    constructor ()
      ensures Valid() && phase == Empty && attempts == [] && detached == {}
    {
      phase, session, attempts, detached := Empty, null, [], {};
    }

    /** A pending opening may finish, with a session or with an error that closed what it had opened. */
    method Background(wait: Wait)
      requires Valid()
      modifies this`attempts, this`session
      ensures Valid() && |attempts| == |old(attempts)| && Progress(old(attempts), attempts)
      ensures forall n :: 0 <= n < |attempts| && phase != Pending(n) ==> attempts[n] == old(attempts[n])
      ensures phase.Pending? ==> MovedBy(old(attempts)[phase.attempt], attempts[phase.attempt], wait)
      ensures session == old(session) || fresh(session)
    {
      if phase.Pending? && attempts[phase.attempt] == Opening && wait.Ends? {
        var got, trace := DaemonSession.Open(wait.course);
        session := got;
        attempts := attempts[phase.attempt := if got != null then Unclaimed else Over(trace)];
      }
    }

    /** Waits for the pending opening without aborting it. */
    method FinishOpening(wait: Wait) returns (join: OpenJoin)
      requires Valid() && phase.Pending?
      modifies this`attempts, this`session
      ensures Valid() && |attempts| == |old(attempts)| && Progress(old(attempts), attempts)
      ensures MovedBy(old(attempts)[phase.attempt], attempts[phase.attempt], wait)
      ensures join == Running <==> attempts[phase.attempt] == Opening
      ensures join == Ready <==> attempts[phase.attempt] == Unclaimed
      ensures join == Finished <==> attempts[phase.attempt].Over?
      ensures session == old(session) || fresh(session)
    {
      Background(wait);
      match attempts[phase.attempt] {
        case Opening => return Running;
        case Unclaimed => return Ready;
        case Over(_) => return Finished;
      }
    }

    /** The opening in the slot outlasts the wait. */
    ghost predicate Outlasts(wait: Wait)
      requires Valid()
      reads this, session
    {
      phase.Pending? && attempts[phase.attempt] == Opening && wait.StillRunning?
    }

    /** A session that was taken out of the slot, to be closed: nobody else holds it. */
    ghost predicate InHand(taken: DaemonSession.Session, n: nat)
      reads this, taken
    {
      && phase == Empty && session == null && taken.Valid() && taken.client
      && n < |attempts| && HasSession(attempts[n])
      && AllHeld(attempts, if attempts[n] == InUse then Open(n) else Pending(n), detached)
    }

    /** Closes, or drops, a session that was taken out. */
    method CloseTaken(taken: DaemonSession.Session, n: nat)
      requires InHand(taken, n)
      modifies this`attempts, taken
      ensures Valid() && attempts == old(attempts)[n := Over(taken.trace)]
      ensures DaemonSession.Closed(taken.trace) && old(taken.trace) <= taken.trace
    {
      taken.CloseOrDrop();
      attempts := attempts[n := Over(taken.trace)];
    }

    /** Takes the session out for closing, or leaves an opening that is still running where it is. */
    method TakeForClose(wait: Wait) returns (taken: DaemonSession.Session?, n: nat)
      requires Valid()
      modifies this`phase, this`attempts, this`session
      ensures |attempts| == |old(attempts)| && Progress(old(attempts), attempts)
      ensures taken == null ==> Valid() && (phase == Empty || (phase.Pending? && attempts[phase.attempt] == Opening))
      ensures taken == null ==> session == null
      ensures taken != null ==> InHand(taken, n) && (taken == old(session) || fresh(taken))
      ensures old(phase).Open? ==> taken == old(session)
      ensures taken != null <==> old(phase != Empty && GetsSession(attempts[phase.attempt], wait))
      ensures phase == if old(Outlasts(wait)) then old(phase) else Empty
    {
      taken, n := null, 0;
      if phase == Empty {
        return;
      }
      n := phase.attempt;
      if phase.Pending? {
        var join := FinishOpening(wait);
        if join == Running {
          return;
        }
      }
      taken := session;
      phase, session := Empty, null;
    }

    /** The downward state change: closes what there is to close. */
    method Close(wait: Wait)
      requires Valid()
      modifies this`phase, this`attempts, this`session, session
      ensures Valid() && |attempts| == |old(attempts)| && Progress(old(attempts), attempts)
      ensures phase == Empty || (phase.Pending? && attempts[phase.attempt] == Opening)
      ensures phase == if old(Outlasts(wait)) then old(phase) else Empty
      ensures phase == Empty && detached == {} ==> AllOver(attempts)
      ensures old(phase).Open? ==> phase == Empty && old(session.trace) <= attempts[old(phase).attempt].trace
    {
      var taken, n := TakeForClose(wait);
      if taken != null {
        CloseTaken(taken, n);
      }
    }

    /** A call on the open session; it stays in the slot whatever comes of the call. */
    method AddDeferredSender(reply: DaemonSession.Reply) returns (result: Option<DaemonSession.CallResult>)
      requires Valid()
      modifies session
      ensures Valid() && (result.None? <==> !phase.Open?)
      ensures session != null ==> old(session.trace) <= session.trace
      ensures result.Some? && old(!session.resource && session.inflightAdd.None?) ==>
        && result.value == DaemonSession.ResultOf(reply)
        && DaemonSession.CallMade(old(session.trace), session.trace, DaemonSession.AddCall)
      ensures result.Some? ==> (session.resource <==> old(session.resource) || result.value == DaemonSession.Succeeded)
    {
      if !phase.Open? {
        return None;
      }
      var called := session.AddResource(reply);
      return Some(called);
    }

    method SyncActive(reply: DaemonSession.Reply) returns (result: Option<DaemonSession.CallResult>)
      requires Valid()
      modifies session
      ensures Valid() && (result.None? <==> !phase.Open?)
      ensures session != null ==> old(session.trace) <= session.trace
      ensures result.Some? && old(session.resource && session.inflightSync.None?) ==>
        && result.value == DaemonSession.ResultOf(reply)
        && DaemonSession.CallMade(old(session.trace), session.trace, DaemonSession.SyncCall)
    {
      if !phase.Open? {
        return None;
      }
      var called := session.SyncResourceState(reply);
      return Some(called);
    }

    /**
     The upward state change. An earlier opening is joined first, and its session
     closed, so a new OpenSession is sent only when every earlier session is over.
     */
    method ValidateAndOpen(earlier: Wait, wait: Wait) returns (ok: bool)
      requires Valid() && detached == {}
      modifies this`phase, this`attempts, this`session, session
      ensures Valid() && Progress(old(attempts), attempts)
      ensures |attempts| == |old(attempts)| || |attempts| == |old(attempts)| + 1
      ensures |attempts| > |old(attempts)| ==> AllOver(attempts[..|old(attempts)|])
      ensures |attempts| > |old(attempts)| <==> !old(phase.Open? || Outlasts(earlier))
      ensures ok <==> !old(phase.Open? || Outlasts(earlier)) && GetsSession(Opening, wait)
      ensures ok ==> phase == Open(|old(attempts)|) && |attempts| == |old(attempts)| + 1
      ensures old(phase).Open? ==> !ok && unchanged(this)
    {
      if phase.Open? {
        return false;
      }
      var taken, n := TakeForClose(earlier);
      if phase.Pending? {
        return false;
      }
      if taken != null {
        CloseTaken(taken, n);
      }
      ghost var before := attempts;
      assert AllOver(attempts);
      ok := StartOpening(wait);
      assert forall i :: 0 <= i < |before| ==> attempts[i] == before[i];
    }

    /** Starts an opening and waits; what outlasts the wait is kept as pending. */
    method StartOpening(wait: Wait) returns (ok: bool)
      requires Valid() && phase == Empty && detached == {} && AllOver(attempts)
      modifies this`phase, this`attempts, this`session
      ensures Valid() && |attempts| == |old(attempts)| + 1 && attempts[..|old(attempts)|] == old(attempts)
      ensures ok <==> GetsSession(Opening, wait)
      ensures phase ==
        if ok then Open(|old(attempts)|) else if wait.StillRunning? then Pending(|old(attempts)|) else Empty
      ensures session == null || fresh(session)
    {
      var n := |attempts|;
      attempts, phase := attempts + [Opening], Pending(|attempts|);
      assert forall i :: 0 <= i < n ==> attempts[i] == old(attempts[i]);
      Background(wait);
      match attempts[n] {
        case Opening =>
          return false;
        case Unclaimed =>
          attempts, phase := attempts[n := InUse], Open(n);
          return true;
        case Over(_) =>
          phase := Empty;
          return false;
      }
    }

    /** The element goes away: an open session is dropped, which closes it; an opening is left to finish. */
    method Destroy(wait: Wait)
      requires Valid()
      modifies this, session
      ensures Valid() && phase == Empty && |attempts| == |old(attempts)| && Progress(old(attempts), attempts)
      ensures detached == {} ==> AllOver(attempts)
      ensures detached == old(detached) + (if old(Outlasts(wait)) then {old(phase).attempt} else {})
    {
      var taken, n := TakeForClose(wait);
      if taken != null {
        CloseTaken(taken, n);
      } else if phase.Pending? {
        detached := detached + {phase.attempt};
        phase := Empty;
      }
    }

    /** A detached opening finishes; the session it may have got is dropped at once. */
    method DetachedFinishes(n: nat, course: DaemonSession.Course)
      requires Valid() && n in detached
      modifies this`attempts, this`detached
      ensures Valid() && detached == old(detached) - {n}
      ensures |attempts| == |old(attempts)| && Progress(old(attempts), attempts) && attempts[n].Over?
    {
      var trace := OpenAndDrop(course);
      attempts := attempts[n := Over(trace)];
      detached := detached - {n};
    }
  }
}
