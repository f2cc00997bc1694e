/**
 What the checkpoint protocol gets done: a write whose calls succeed replaces the
 file, one whose call fails leaves it, and from every reachable state the writer
 comes to rest without further calls on the store, every flush answered and the
 newest map in the file exactly when a write of it is still due or already there.
 */
module CheckpointProgress {
  import opened CheckpointWriter

  /** Every map has an encoding. */
  ghost predicate Encodable<M(!new), R(!new)>(env: Env<M, R>) {
    forall m :: HasEncoding(env, m)
  }

  ghost predicate HasEncoding<M(!new), R(!new)>(env: Env<M, R>, m: M) {
    exists r :: env.encodes(m, r)
  }

  // One write

  function WriteSteps<M, R>(written: R): seq<Step<M, R>> {
    [CreateTemp(true), WriteTemp(true, written), SyncTemp(true), RenameTemp(true), EndWrite]
  }

  /** The acknowledgements after a write that ended this way. */
  function Answered<M, R>(s: State<M, R>, ok: bool, at: nat): map<nat, Ack>
    requires s.writer.Writing?
  {
    if s.writer.after.Answer? then s.acks[s.writer.after.id := Ack(ok, at)] else s.acks
  }

  /** A replacement whose calls all succeed puts the snapshot in the file and counts as a success. */
  lemma WriteSucceeds<M(!new), R(!new)>(env: Env<M, R>, s: State<M, R>, written: R)
    returns (path: seq<State<M, R>>)
    requires At(s, Create) && s.writer.snapshot < |s.history|
    requires env.encodes(s.history[s.writer.snapshot], written)
    ensures Path(env, path, WriteSteps(written)) && path[0] == s
    ensures path[5] == s.(
      file := Whole(written), temp := Absent, fileAt := s.writer.snapshot, lastWriteOk := true,
      writer := Resume(s.writer.after), acks := Answered(s, true, s.writer.snapshot))
  {
    var created := MoveTo(s, WriteBody).(temp := Torn);
    var filled := MoveTo(created, Sync).(temp := Whole(written));
    var synced := MoveTo(filled, Rename);
    var renamed := MoveTo(synced, Finished(true)).(file := Whole(written), temp := Absent, fileAt := s.writer.snapshot);
    var ended := renamed.(writer := Resume(s.writer.after), lastWriteOk := true,
                          acks := Answered(s, true, s.writer.snapshot));
    path := [s, created, filled, synced, renamed, ended];
    var steps: seq<Step<M, R>> := WriteSteps(written);
    assert FileStep(env, s, steps[0], created);
    assert FileStep(env, created, steps[1], filled);
    assert FileStep(env, filled, steps[2], synced);
    assert FileStep(env, synced, steps[3], renamed);
    assert LoopStep(renamed, steps[4], ended);
  }

  /** The call of a stage, failing. */
  function FailedCall<M, R>(stage: Stage, written: R): Step<M, R>
    requires stage in {Create, WriteBody, Sync, Rename}
  {
    match stage
    case Create => CreateTemp(false)
    case WriteBody => WriteTemp(false, written)
    case Sync => SyncTemp(false)
    case Rename => RenameTemp(false)
  }

  /** Any call of a replacement may fail; the write then ends as a failure and the file is as it was. */
  lemma WriteFails<M(!new), R(!new)>(env: Env<M, R>, s: State<M, R>, stage: Stage, written: R, removed: bool)
    returns (path: seq<State<M, R>>)
    requires stage in {Create, WriteBody, Sync, Rename} && At(s, stage) && s.writer.snapshot < |s.history|
    ensures Path(env, path, [FailedCall(stage, written), RemoveTemp(removed), EndWrite]) && path[0] == s
    ensures path[3] == s.(
      temp := if removed then Absent else s.temp, lastWriteOk := false,
      writer := Resume(s.writer.after), acks := Answered(s, false, s.fileAt))
  {
    var failed := MoveTo(s, CleanUp);
    var cleaned := MoveTo(failed, Finished(false)).(temp := if removed then Absent else s.temp);
    var ended := cleaned.(writer := Resume(s.writer.after), lastWriteOk := false, acks := Answered(s, false, s.fileAt));
    path := [s, failed, cleaned, ended];
    var steps: seq<Step<M, R>> := [FailedCall(stage, written), RemoveTemp(removed), EndWrite];
    assert FileStep(env, s, steps[0], failed);
    assert FileStep(env, failed, steps[1], cleaned);
    assert LoopStep(cleaned, steps[2], ended);
  }

  // Callers

  /** Until it is dropped the store takes an update or a flush at any time, whatever the writer is doing. */
  lemma CallersNeverWait<M(!new), R(!new)>(env: Env<M, R>, s: State<M, R>, after: M)
    returns (updated: State<M, R>, flushing: State<M, R>)
    requires Inv(env, s) && !s.dropped && env.changes(s.history[s.Newest()], after)
    ensures Taken(env, s, Update(after), updated) && updated.history == s.history + [after]
    ensures Taken(env, s, CallFlush, flushing) && Flush(|s.needs|) in flushing.queue
    ensures updated.writer == s.writer == flushing.writer
  {
    updated := s.(history := s.history + [after], owed := s.owed + 1);
    flushing := s.(needs := s.needs + [s.Newest()], queue := s.queue + [Flush(|s.needs|)]);
    assert flushing.queue[|s.queue|] == Flush(|s.needs|);
  }

  /** The last user may drop it once every update has sent its message and every flush is answered. */
  lemma DropIsTaken<M(!new), R(!new)>(env: Env<M, R>, s: State<M, R>) returns (dropped: State<M, R>)
    requires Inv(env, s) && !s.dropped && AtRest(s)
    ensures Taken(env, s, Drop, dropped) && dropped.dropped
  {
    RestAnswers(env, s);
    dropped := s.(dropped := true, queue := s.queue + [Shutdown]);
  }

  // Coming to rest

  /** No new call on the store, and every call on the file succeeds. */
  predicate Smooth<M, R>(step: Step<M, R>) {
    match step
    case SendDirty | Receive | Timeout | TakeSnapshot | EndWrite => true
    case CreateTemp(ok) => ok
    case WriteTemp(ok, _) => ok
    case SyncTemp(ok) => ok
    case RenameTemp(ok) => ok
    case RemoveTemp(ok) => ok
    case Update(_) | CallFlush | Drop => false
  }

  ghost predicate SmoothPath<M(!new), R(!new)>(env: Env<M, R>, path: seq<State<M, R>>, steps: seq<Step<M, R>>) {
    Path(env, path, steps) && forall i :: 0 <= i < |steps| ==> Smooth(steps[i])
  }

  /** Nothing is on its way and the writer waits, or has exited with the store gone. */
  predicate AtRest<M, R>(s: State<M, R>) {
    s.owed == 0 && s.queue == [] && s.writer == if s.dropped then Exited else Waiting
  }

  /** The write in progress has already failed. */
  predicate Failing(writer: Writer) {
    writer.Writing? && (writer.stage == CleanUp || writer.stage == Finished(false))
  }

  /** A write that may still succeed is in progress or to come. */
  predicate Due<M, R>(s: State<M, R>) {
    s.owed > 0 || s.queue != [] || Owes(s.writer) || (s.writer.Writing? && !Failing(s.writer))
  }

  ghost predicate UpToDate<M(!new), R(!new)>(env: Env<M, R>, s: State<M, R>) {
    s.history != [] && s.file.Whole? && env.encodes(s.history[s.Newest()], s.file.content)
  }

  /** At rest after a successful write of the newest map. */
  predicate Done<M, R>(s: State<M, R>) {
    AtRest(s) && s.lastWriteOk && s.fileAt == s.Newest()
  }

  function StagesLeft(stage: Stage): nat {
    match stage
    case Create => 7
    case WriteBody => 6
    case Sync => 5
    case Rename => 4
    case CleanUp => 3
    case Finished(_) => 2
  }

  /** How far the writer is from waiting, messages aside. */
  function WorkLeft(writer: Writer): nat {
    match writer
    case Waiting | Exited => 0
    case Debouncing => 10
    case Snapshotting(after) => 8 + (if Resume(after).Debouncing? then 10 else 0)
    case Writing(stage, _, after) => StagesLeft(stage) + (if Resume(after).Debouncing? then 10 else 0)
  }

  /** The next step of the writer, or of an update that has yet to send its message. */
  lemma NextStep<M(!new), R(!new)>(env: Env<M, R>, s: State<M, R>) returns (step: Step<M, R>, s': State<M, R>)
    requires Inv(env, s) && Encodable(env) && !AtRest(s)
    ensures Smooth(step) && Taken(env, s, step, s')
    ensures s'.history == s.history && s'.needs == s.needs && s'.dropped == s.dropped
    ensures
      || s'.owed < s.owed
      || (s'.owed == s.owed && |s'.queue| < |s.queue|)
      || (s'.owed == s.owed && |s'.queue| == |s.queue| && WorkLeft(s'.writer) < WorkLeft(s.writer))
  {
    if s.writer.Writing? {
      step, s' := NextFileStep(env, s);
    } else if s.writer.Snapshotting? {
      step, s' := TakeSnapshot, s.(writer := Writing(Create, s.Newest(), s.writer.after), attempted := s.Newest());
    } else if s.queue != [] {
      step := Receive;
      s' := s.(queue := s.queue[1..], writer := OnMessage(s.queue[0], s.writer.Debouncing?));
    } else if s.owed > 0 {
      step, s' := SendDirty, s.(owed := s.owed - 1, queue := s.queue + [Dirty]);
    } else {
      step, s' := Timeout, s.(writer := Snapshotting(Listen));
    }
  }

  lemma NextFileStep<M(!new), R(!new)>(env: Env<M, R>, s: State<M, R>) returns (step: Step<M, R>, s': State<M, R>)
    requires Inv(env, s) && Encodable(env) && s.writer.Writing?
    ensures Smooth(step) && Taken(env, s, step, s')
    ensures s'.history == s.history && s'.needs == s.needs && s'.dropped == s.dropped
    ensures s'.owed == s.owed && s'.queue == s.queue && WorkLeft(s'.writer) < WorkLeft(s.writer)
  {
    match s.writer.stage
    case Create =>
      step, s' := CreateTemp(true), MoveTo(s, WriteBody).(temp := Torn);
    case WriteBody =>
      assert HasEncoding(env, s.history[s.writer.snapshot]);
      var written :| env.encodes(s.history[s.writer.snapshot], written);
      step, s' := WriteTemp(true, written), MoveTo(s, Sync).(temp := Whole(written));
    case Sync =>
      step, s' := SyncTemp(true), MoveTo(s, Rename);
    case Rename =>
      step := RenameTemp(true);
      s' := MoveTo(s, Finished(true)).(file := s.temp, temp := Absent, fileAt := s.writer.snapshot);
    case CleanUp =>
      step, s' := RemoveTemp(true), MoveTo(s, Finished(false)).(temp := Absent);
    case Finished(ok) =>
      step := EndWrite;
      s' := s.(writer := Resume(s.writer.after), lastWriteOk := ok, acks := Answered(s, ok, s.fileAt));
  }

  /** A write that is due stays due until the newest map is in the file. */
  lemma DueStep<M(!new), R(!new)>(env: Env<M, R>, s: State<M, R>, step: Step<M, R>, s': State<M, R>)
    requires Inv(env, s) && Smooth(step) && Taken(env, s, step, s') && Due(s)
    ensures Due(s') || Done(s')
  {
    if step.EndWrite? && !Due(s') {
      assert s.writer.stage == Finished(true);
      assert NothingLost(s) && s.attempted == s.Newest();
    }
  }

  /** With nothing due the file stays as it is. */
  lemma NotDueStep<M(!new), R(!new)>(env: Env<M, R>, s: State<M, R>, step: Step<M, R>, s': State<M, R>)
    requires Smooth(step) && Taken(env, s, step, s') && !Due(s)
    ensures !Due(s') && s'.file == s.file && s'.history == s.history
  {
  }

  /** Every flush not answered yet gets a write that succeeds, unless its write has already failed. */
  ghost predicate AnswersWell<M, R>(s: State<M, R>, s': State<M, R>) {
    forall id <- s'.acks.Keys ::
      (id in s.acks && s'.acks[id] == s.acks[id]) || s'.acks[id].ok || (Failing(s.writer) && Answering(s.writer, id))
  }

  lemma AnswersWellStep<M(!new), R(!new)>(env: Env<M, R>, s: State<M, R>, step: Step<M, R>, s': State<M, R>)
    requires Smooth(step) && Taken(env, s, step, s')
    ensures AnswersWell(s, s') && s.acks.Keys <= s'.acks.Keys
    ensures forall id: nat ::
      Failing(s'.writer) && Answering(s'.writer, id) ==> Failing(s.writer) && Answering(s.writer, id)
  {
  }

  lemma AnswersWellOn<M(!new), R(!new)>(
      env: Env<M, R>, s: State<M, R>, step: Step<M, R>, s': State<M, R>, last: State<M, R>)
    requires Smooth(step) && Taken(env, s, step, s') && AnswersWell(s', last)
    ensures AnswersWell(s, last)
  {
    AnswersWellStep(env, s, step, s');
  }

  lemma Prepended<M(!new), R(!new)>(
      env: Env<M, R>, s: State<M, R>, step: Step<M, R>, path: seq<State<M, R>>, steps: seq<Step<M, R>>)
    requires SmoothPath(env, path, steps) && Smooth(step) && Taken(env, s, step, path[0])
    ensures SmoothPath(env, [s] + path, [step] + steps)
    ensures ([s] + path)[|path|] == path[|path| - 1]
  {
    var longer, all := [s] + path, [step] + steps;
    forall i | 0 <= i < |all|
      ensures Taken(env, longer[i], all[i], longer[i + 1]) && Smooth(all[i])
    {
      if i > 0 {
        assert longer[i] == path[i - 1] && all[i] == steps[i - 1] && longer[i + 1] == path[i];
      }
    }
  }

  /**
   Coming to rest: from every state the invariant allows, the steps already under way and
   successful file calls lead to rest. A write that is due puts the newest map in the file,
   and with none due the file stays.
   */
  lemma {:induction false} ComesToRest<M(!new), R(!new)>(env: Env<M, R>, s: State<M, R>)
    returns (path: seq<State<M, R>>, steps: seq<Step<M, R>>)
    requires Inv(env, s) && Encodable(env)
    ensures SmoothPath(env, path, steps) && path[0] == s
    ensures
      var last := path[|path| - 1];
      && AtRest(last) && Inv(env, last) && AnswersWell(s, last)
      && last.history == s.history && last.needs == s.needs && last.dropped == s.dropped
      && (Due(s) || Done(s) ==> Done(last))
      && (!Due(s) ==> last.file == s.file)
    decreases s.owed, |s.queue|, WorkLeft(s.writer)
  {
    if AtRest(s) {
      return [s], [];
    }
    var step, next := NextStep(env, s);
    InvStep(env, s, step, next);
    path, steps := ComesToRest(env, next);
    if Due(s) {
      DueStep(env, s, step, next);
    } else {
      NotDueStep(env, s, step, next);
    }
    AnswersWellOn(env, s, step, next, path[|path| - 1]);
    Prepended(env, s, step, path, steps);
    path, steps := [s] + path, [step] + steps;
  }

  /** At rest every flush ever called has been answered. */
  lemma RestAnswers<M(!new), R(!new)>(env: Env<M, R>, s: State<M, R>)
    requires Inv(env, s) && AtRest(s)
    ensures forall id :: 0 <= id < |s.needs| ==> id in s.acks
  {
    assert forall id: nat :: !Answering(s.writer, id);
  }

  ghost predicate CanCatchUp<M(!new), R(!new)>(env: Env<M, R>, s: State<M, R>) {
    exists path: seq<State<M, R>>, steps: seq<Step<M, R>> ::
      SmoothPath(env, path, steps) && path[0] == s && AtRest(path[|path| - 1])
      && path[|path| - 1].history == s.history && UpToDate(env, path[|path| - 1])
  }

  lemma {:induction false} NeverCatchesUp<M(!new), R(!new)>(
      env: Env<M, R>, path: seq<State<M, R>>, steps: seq<Step<M, R>>, i: nat)
    requires SmoothPath(env, path, steps) && i < |path| && !Due(path[0])
    ensures !Due(path[i]) && path[i].file == path[0].file && path[i].history == path[0].history
  {
    if i > 0 {
      NeverCatchesUp(env, path, steps, i - 1);
      StepTaken(env, path, steps, i - 1);
      NotDueStep(env, path[i - 1], steps[i - 1], path[i]);
    }
  }

  /**
   From any point of any run the file can get the newest map without another call on the store
   exactly when a write that may still succeed is due or the file has that map already. What is
   shut out is a last write that failed with nothing to follow it.
   */
  lemma CatchesUpIff<M(!new), R(!new)>(env: Env<M, R>, run: seq<State<M, R>>, steps: seq<Step<M, R>>, i: nat)
    requires IsRun(env, run, steps) && i < |run| && Encodable(env)
    ensures CanCatchUp(env, run[i]) <==> Due(run[i]) || UpToDate(env, run[i])
  {
    var s := run[i];
    RunInv(env, run, steps, i);
    var path, more := ComesToRest(env, s);
    if !Due(s) && CanCatchUp(env, s) {
      var found: seq<State<M, R>>, calls: seq<Step<M, R>> :|
        SmoothPath(env, found, calls) && found[0] == s && AtRest(found[|found| - 1])
        && found[|found| - 1].history == s.history && UpToDate(env, found[|found| - 1]);
      NeverCatchesUp(env, found, calls, |found| - 1);
    }
  }

  /** An update whose Dirty is still to be sent reaches the file. */
  lemma UpdateReachesFile<M(!new), R(!new)>(env: Env<M, R>, run: seq<State<M, R>>, steps: seq<Step<M, R>>, i: nat)
    returns (path: seq<State<M, R>>, more: seq<Step<M, R>>)
    requires IsRun(env, run, steps) && i < |steps| && steps[i].Update? && Encodable(env)
    ensures SmoothPath(env, path, more) && path[0] == run[i + 1]
    ensures
      var last := path[|path| - 1];
      last.writer == Waiting && last.lastWriteOk && last.file.Whole? && env.encodes(steps[i].after, last.file.content)
  {
    RunInv(env, run, steps, i);
    RunInv(env, run, steps, i + 1);
    StepTaken(env, run, steps, i);
    path, more := ComesToRest(env, run[i + 1]);
  }

  /** A flush is answered by a write that succeeds, with a map at least as new as at the call. */
  lemma FlushIsServed<M(!new), R(!new)>(env: Env<M, R>, run: seq<State<M, R>>, steps: seq<Step<M, R>>, i: nat)
    returns (path: seq<State<M, R>>, more: seq<Step<M, R>>)
    requires IsRun(env, run, steps) && i < |steps| && steps[i] == CallFlush && Encodable(env)
    ensures SmoothPath(env, path, more) && path[0] == run[i + 1]
    ensures
      var id, last := |run[i].needs|, path[|path| - 1];
      AtRest(last) && id in last.acks && last.acks[id].ok && |run[i].history| <= last.acks[id].at + 1
  {
    RunInv(env, run, steps, i);
    RunInv(env, run, steps, i + 1);
    StepTaken(env, run, steps, i);
    path, more := ComesToRest(env, run[i + 1]);
    var id, last := |run[i].needs|, path[|path| - 1];
    RestAnswers(env, last);
    assert id !in run[i].acks && !Answering(run[i].writer, id);
    assert last.needs[id] == run[i].Newest();
  }

  /** A dropped store ends with the writer gone and the final map in the file. */
  lemma DropIsServed<M(!new), R(!new)>(env: Env<M, R>, run: seq<State<M, R>>, steps: seq<Step<M, R>>, i: nat)
    returns (path: seq<State<M, R>>, more: seq<Step<M, R>>)
    requires IsRun(env, run, steps) && i < |steps| && steps[i] == Drop && Encodable(env)
    ensures SmoothPath(env, path, more) && path[0] == run[i + 1]
    ensures
      var last := path[|path| - 1];
      && last.writer == Exited && last.lastWriteOk && last.file.Whole?
      && run[i].history != [] && env.encodes(run[i].history[run[i].Newest()], last.file.content)
  {
    RunInv(env, run, steps, i);
    RunInv(env, run, steps, i + 1);
    StepTaken(env, run, steps, i);
    path, more := ComesToRest(env, run[i + 1]);
  }

  /**
   A write is only ever made for a debounce that timed out, a flush or a shutdown; a burst of
   updates just keeps the writer debouncing.
   */
  lemma SnapshotHasCause<M(!new), R(!new)>(env: Env<M, R>, path: seq<State<M, R>>, steps: seq<Step<M, R>>, i: nat)
    requires Path(env, path, steps) && i < |steps|
    requires !path[i].writer.Snapshotting? && path[i + 1].writer.Snapshotting?
    ensures
      var before, after := path[i], path[i + 1].writer.after;
      || (steps[i] == Timeout && before.writer == Debouncing && after == Listen)
      || (steps[i] == Receive && before.queue != [] && before.queue[0] == Shutdown && after == Stop)
      || (steps[i] == Receive && before.queue != [] && before.queue[0].Flush?
          && after == Answer(before.queue[0].id, before.writer == Debouncing))
  {
    StepTaken(env, path, steps, i);
  }
}
