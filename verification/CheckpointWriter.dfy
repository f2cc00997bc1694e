/**
 The checkpoint protocol: callers that change the map under a lock and then post a
 message, and a background thread that debounces, snapshots the map and replaces
 the file through a temporary one. Every lock, send, receive and file call is a
 step of its own and any file call may fail.

 The protocol does not look inside the map or the file, so both are parameters:
 `changes` relates a map to one an update may leave, and `encodes` relates a map to
 a complete file holding it.
 */
module CheckpointWriter {

  datatype Env<!M(!new), !R(!new)> = Env(changes: (M, M) -> bool, encodes: (M, R) -> bool)

  datatype Msg = Dirty | Flush(id: nat) | Shutdown

  /** What the writer does once the current write has ended. */
  datatype After = Listen | Answer(id: nat, debouncing: bool) | Stop

  datatype Stage = Create | WriteBody | Sync | Rename | CleanUp | Finished(ok: bool)

  datatype Writer =
    | Waiting
    | Debouncing
    | Snapshotting(after: After)
    | Writing(stage: Stage, snapshot: nat, after: After)
    | Exited

  /** A file is absent, incomplete, or holds all that was written to it. */
  datatype File<R> = Absent | Torn | Whole(content: R)

  datatype Ack = Ack(ok: bool, at: nat)

  /**
   `history` lists the maps the store has held, the live one last. `owed` counts
   updates that have unlocked the map and not yet sent Dirty. `fileAt` and
   `attempted` are the positions in the history of the map in the file and of the
   last snapshot taken. `needs[id]` is the newest position when flush `id` was
   called and `acks[id]` what held when it returned.
   */
  datatype State<M, R> = State(
    history: seq<M>, owed: nat, queue: seq<Msg>, dropped: bool,
    writer: Writer, file: File<R>, temp: File<R>,
    fileAt: nat, attempted: nat, lastWriteOk: bool,
    needs: seq<nat>, acks: map<nat, Ack>)
  {
    function Newest(): int { |history| - 1 }
  }

  datatype Step<M, R> =
    | Update(after: M)
    | SendDirty
    | CallFlush
    | Drop
    | Receive
    | Timeout
    | TakeSnapshot
    | CreateTemp(ok: bool)
    | WriteTemp(ok: bool, written: R)
    | SyncTemp(ok: bool)
    | RenameTemp(ok: bool)
    | RemoveTemp(ok: bool)
    | EndWrite

  function OnMessage(msg: Msg, debouncing: bool): Writer {
    match msg
    case Dirty => Debouncing
    case Flush(id) => Snapshotting(Answer(id, debouncing))
    case Shutdown => Snapshotting(Stop)
  }

  function Resume(after: After): Writer {
    match after
    case Listen => Waiting
    case Answer(_, debouncing) => if debouncing then Debouncing else Waiting
    case Stop => Exited
  }

  predicate At<M, R>(s: State<M, R>, stage: Stage) {
    s.writer.Writing? && s.writer.stage == stage
  }

  function MoveTo<M, R>(s: State<M, R>, stage: Stage): State<M, R>
    requires s.writer.Writing?
  {
    s.(writer := s.writer.(stage := stage))
  }

  ghost predicate Init<M(!new), R(!new)>(env: Env<M, R>, s: State<M, R>) {
    && |s.history| == 1 && s.owed == 0 && s.queue == [] && !s.dropped
    && s.writer == Waiting && s.file.Whole? && env.encodes(s.history[0], s.file.content)
    && s.fileAt == 0 && s.attempted == 0 && s.lastWriteOk
    && s.needs == [] && s.acks == map[]
  }

  /** Callers: an update is two steps, and the store is dropped only by its last user. */
  ghost predicate CallerStep<M(!new), R(!new)>(env: Env<M, R>, s: State<M, R>, step: Step<M, R>, s': State<M, R>) {
    match step
    case Update(after) =>
      && !s.dropped && s.history != [] && env.changes(s.history[s.Newest()], after)
      && s' == s.(history := s.history + [after], owed := s.owed + 1)
    case SendDirty =>
      s.owed > 0 && s' == s.(owed := s.owed - 1, queue := s.queue + [Dirty])
    case CallFlush =>
      && !s.dropped && s.history != []
      && s' == s.(needs := s.needs + [s.Newest()], queue := s.queue + [Flush(|s.needs|)])
    case Drop =>
      && !s.dropped && s.owed == 0 && (forall id :: 0 <= id < |s.needs| ==> id in s.acks)
      && s' == s.(dropped := true, queue := s.queue + [Shutdown])
    case _ => false
  }

  /** The writer thread between writes. */
  ghost predicate LoopStep<M(!new), R(!new)>(s: State<M, R>, step: Step<M, R>, s': State<M, R>) {
    match step
    case Receive =>
      && (s.writer.Waiting? || s.writer.Debouncing?) && s.queue != []
      && s' == s.(queue := s.queue[1..], writer := OnMessage(s.queue[0], s.writer.Debouncing?))
    case Timeout =>
      s.writer.Debouncing? && s' == s.(writer := Snapshotting(Listen))
    case TakeSnapshot =>
      && s.writer.Snapshotting? && s.history != []
      && s' == s.(writer := Writing(Create, s.Newest(), s.writer.after), attempted := s.Newest())
    case EndWrite =>
      && s.writer.Writing? && s.writer.stage.Finished?
      && s' == s.(
           writer := Resume(s.writer.after),
           lastWriteOk := s.writer.stage.ok,
           acks := if s.writer.after.Answer? then s.acks[s.writer.after.id := Ack(s.writer.stage.ok, s.fileAt)]
                   else s.acks)
    case _ => false
  }

  /** The calls of one file replacement. */
  ghost predicate FileStep<M(!new), R(!new)>(env: Env<M, R>, s: State<M, R>, step: Step<M, R>, s': State<M, R>) {
    match step
    case CreateTemp(ok) =>
      && At(s, Create)
      && s' == if ok then MoveTo(s, WriteBody).(temp := Torn) else MoveTo(s, CleanUp)
    case WriteTemp(ok, written) =>
      && At(s, WriteBody) && s.writer.snapshot < |s.history|
      && (ok ==> env.encodes(s.history[s.writer.snapshot], written))
      && s' == if ok then MoveTo(s, Sync).(temp := Whole(written)) else MoveTo(s, CleanUp)
    case SyncTemp(ok) =>
      At(s, Sync) && s' == MoveTo(s, if ok then Rename else CleanUp)
    case RenameTemp(ok) =>
      && At(s, Rename)
      && s' == if ok then MoveTo(s, Finished(true)).(file := s.temp, temp := Absent, fileAt := s.writer.snapshot)
               else MoveTo(s, CleanUp)
    case RemoveTemp(ok) =>
      At(s, CleanUp) && s' == MoveTo(s, Finished(false)).(temp := if ok then Absent else s.temp)
    case _ => false
  }

  ghost predicate Taken<M(!new), R(!new)>(env: Env<M, R>, s: State<M, R>, step: Step<M, R>, s': State<M, R>) {
    CallerStep(env, s, step, s') || LoopStep(s, step, s') || FileStep(env, s, step, s')
  }

  // Invariants

  /** The file is complete, holds a map the store held, and is never newer than the last snapshot. */
  ghost predicate FileComplete<M(!new), R(!new)>(env: Env<M, R>, s: State<M, R>) {
    && s.fileAt <= s.attempted < |s.history|
    && s.file.Whole? && env.encodes(s.history[s.fileAt], s.file.content)
  }

  /** A write in progress is of the last snapshot, and only a complete temporary file is renamed. */
  ghost predicate WriteInProgress<M(!new), R(!new)>(env: Env<M, R>, s: State<M, R>) {
    s.writer.Writing? ==>
      && s.writer.snapshot == s.attempted < |s.history|
      && (s.writer.stage == Sync || s.writer.stage == Rename ==>
            s.temp.Whole? && env.encodes(s.history[s.writer.snapshot], s.temp.content))
      && (s.writer.stage == Finished(true) ==> s.fileAt == s.writer.snapshot)
  }

  /** Between writes, a successful last write put the last snapshot in the file. */
  ghost predicate Settled<M, R>(s: State<M, R>) {
    !s.writer.Writing? && s.lastWriteOk ==> s.fileAt == s.attempted
  }

  /** The writer will take another snapshot without being told to. */
  predicate Owes(writer: Writer) {
    match writer
    case Waiting | Exited => false
    case Debouncing | Snapshotting(_) => true
    case Writing(_, _, after) => after.Answer? && after.debouncing
  }

  ghost predicate NothingLost<M, R>(s: State<M, R>) {
    s.attempted < s.Newest() ==> s.owed > 0 || Dirty in s.queue || Owes(s.writer)
  }

  predicate Answering(writer: Writer, id: nat) {
    (writer.Snapshotting? || writer.Writing?) && writer.after.Answer? && writer.after.id == id
  }

  /** Every flush called is answered, queued or being served, and answered no sooner than it needs. */
  ghost predicate FlushesServed<M, R>(s: State<M, R>) {
    && (forall id :: 0 <= id < |s.needs| ==> 0 <= s.needs[id] < |s.history|)
    && (forall id :: 0 <= id < |s.needs| ==> id in s.acks || Flush(id) in s.queue || Answering(s.writer, id))
    && (forall msg <- s.queue :: msg.Flush? ==> msg.id < |s.needs|)
    && (forall id: nat :: Answering(s.writer, id) ==>
          id < |s.needs| && (s.writer.Writing? ==> s.needs[id] <= s.writer.snapshot))
    && (forall id <- s.acks.Keys :: id < |s.needs| && (s.acks[id].ok ==> s.needs[id] <= s.acks[id].at))
  }

  predicate Stopping(writer: Writer) {
    writer.Exited? || ((writer.Snapshotting? || writer.Writing?) && writer.after.Stop?)
  }

  /** The writer stops only for a dropped store, after a snapshot of the final map. */
  ghost predicate StopsLast<M, R>(s: State<M, R>) {
    && (s.dropped ==> s.owed == 0)
    && (Shutdown in s.queue || Stopping(s.writer) ==> s.dropped)
    && (Stopping(s.writer) && !s.writer.Snapshotting? ==> s.attempted == s.Newest())
  }

  /** The Shutdown of a dropped store is the last message, and it is queued until the writer serves it. */
  ghost predicate ShutdownLast<M, R>(s: State<M, R>) {
    && (forall i :: 0 <= i < |s.queue| - 1 ==> s.queue[i] != Shutdown)
    && (s.dropped && !Stopping(s.writer) ==> s.queue != [] && s.queue[|s.queue| - 1] == Shutdown)
    && (Stopping(s.writer) ==> s.queue == [])
  }

  ghost predicate Inv<M(!new), R(!new)>(env: Env<M, R>, s: State<M, R>) {
    FilesInv(env, s) && NothingLost(s) && FlushesServed(s) && StopsLast(s) && ShutdownLast(s)
  }

  lemma InitInv<M(!new), R(!new)>(env: Env<M, R>, s: State<M, R>)
    requires Init(env, s)
    ensures Inv(env, s)
  {
  }

  ghost predicate FilesInv<M(!new), R(!new)>(env: Env<M, R>, s: State<M, R>) {
    FileComplete(env, s) && WriteInProgress(env, s) && Settled(s)
  }

  lemma CallerKeepsFiles<M(!new), R(!new)>(env: Env<M, R>, s: State<M, R>, step: Step<M, R>, s': State<M, R>)
    requires FilesInv(env, s) && CallerStep(env, s, step, s')
    ensures FilesInv(env, s')
  {
  }

  lemma LoopKeepsFiles<M(!new), R(!new)>(env: Env<M, R>, s: State<M, R>, step: Step<M, R>, s': State<M, R>)
    requires FilesInv(env, s) && LoopStep(s, step, s')
    ensures FilesInv(env, s')
  {
  }

  lemma FileKeepsFiles<M(!new), R(!new)>(env: Env<M, R>, s: State<M, R>, step: Step<M, R>, s': State<M, R>)
    requires FilesInv(env, s) && FileStep(env, s, step, s')
    ensures FilesInv(env, s')
  {
  }

  lemma CallerKeepsUpdates<M(!new), R(!new)>(env: Env<M, R>, s: State<M, R>, step: Step<M, R>, s': State<M, R>)
    requires NothingLost(s) && CallerStep(env, s, step, s')
    ensures NothingLost(s')
  {
    assert s.queue <= s'.queue;
    assert Dirty in s.queue ==> Dirty in s'.queue;
    if step.SendDirty? {
      assert s'.queue[|s.queue|] == Dirty;
    }
  }

  lemma WriterKeepsUpdates<M(!new), R(!new)>(env: Env<M, R>, s: State<M, R>, step: Step<M, R>, s': State<M, R>)
    requires NothingLost(s) && (LoopStep(s, step, s') || FileStep(env, s, step, s'))
    ensures NothingLost(s')
  {
    if step.Receive? {
      assert s.queue == [s.queue[0]] + s.queue[1..];
    }
  }

  lemma CallerKeepsFlushes<M(!new), R(!new)>(env: Env<M, R>, s: State<M, R>, step: Step<M, R>, s': State<M, R>)
    requires FlushesServed(s) && CallerStep(env, s, step, s')
    ensures FlushesServed(s')
  {
    assert s.queue <= s'.queue && s.needs <= s'.needs && s.history <= s'.history;
    assert forall msg <- s.queue :: msg in s'.queue;
    if step.CallFlush? {
      assert s'.queue[|s.queue|] == Flush(|s.needs|);
    }
  }

  lemma ReceiveKeepsFlushes<M(!new), R(!new)>(env: Env<M, R>, s: State<M, R>, step: Step<M, R>, s': State<M, R>)
    requires FlushesServed(s) && step.Receive? && LoopStep(s, step, s')
    ensures FlushesServed(s')
  {
    assert s.queue == [s.queue[0]] + s.queue[1..];
    assert forall id: nat :: !Answering(s.writer, id);
    assert forall id: nat :: Answering(s'.writer, id) ==> s.queue[0] == Flush(id);
    assert forall msg <- s'.queue :: msg in s.queue;
  }

  lemma EndWriteKeepsFlushes<M(!new), R(!new)>(env: Env<M, R>, s: State<M, R>, step: Step<M, R>, s': State<M, R>)
    requires FlushesServed(s) && FilesInv(env, s) && step.EndWrite? && LoopStep(s, step, s')
    ensures FlushesServed(s')
  {
    assert forall id: nat :: !Answering(s'.writer, id);
    assert forall id: nat :: Answering(s.writer, id) ==> id in s'.acks;
  }

  lemma OtherLoopStepsKeepFlushes<M(!new), R(!new)>(env: Env<M, R>, s: State<M, R>, step: Step<M, R>, s': State<M, R>)
    requires FlushesServed(s) && !step.Receive? && !step.EndWrite? && LoopStep(s, step, s')
    ensures FlushesServed(s')
  {
    assert forall id: nat :: Answering(s'.writer, id) <==> Answering(s.writer, id);
  }

  lemma FileStepsKeepFlushes<M(!new), R(!new)>(env: Env<M, R>, s: State<M, R>, step: Step<M, R>, s': State<M, R>)
    requires FlushesServed(s) && FileStep(env, s, step, s')
    ensures FlushesServed(s')
  {
    assert s'.needs == s.needs && s'.acks == s.acks && s'.queue == s.queue && s'.history == s.history;
    assert s'.writer == s.writer.(stage := s'.writer.stage);
    assert forall id: nat :: Answering(s'.writer, id) <==> Answering(s.writer, id);
  }

  lemma WriterKeepsFlushes<M(!new), R(!new)>(env: Env<M, R>, s: State<M, R>, step: Step<M, R>, s': State<M, R>)
    requires FlushesServed(s) && FilesInv(env, s) && (LoopStep(s, step, s') || FileStep(env, s, step, s'))
    ensures FlushesServed(s')
  {
    if step.Receive? {
      ReceiveKeepsFlushes(env, s, step, s');
    } else if step.EndWrite? {
      EndWriteKeepsFlushes(env, s, step, s');
    } else if LoopStep(s, step, s') {
      OtherLoopStepsKeepFlushes(env, s, step, s');
    } else {
      FileStepsKeepFlushes(env, s, step, s');
    }
  }

  lemma CallerKeepsStop<M(!new), R(!new)>(env: Env<M, R>, s: State<M, R>, step: Step<M, R>, s': State<M, R>)
    requires StopsLast(s) && CallerStep(env, s, step, s')
    ensures StopsLast(s')
  {
  }

  lemma WriterKeepsStop<M(!new), R(!new)>(env: Env<M, R>, s: State<M, R>, step: Step<M, R>, s': State<M, R>)
    requires StopsLast(s) && (LoopStep(s, step, s') || FileStep(env, s, step, s'))
    ensures StopsLast(s')
  {
    if step.Receive? {
      assert s.queue == [s.queue[0]] + s.queue[1..];
    }
  }

  lemma CallerKeepsShutdown<M(!new), R(!new)>(env: Env<M, R>, s: State<M, R>, step: Step<M, R>, s': State<M, R>)
    requires StopsLast(s) && ShutdownLast(s) && CallerStep(env, s, step, s')
    ensures ShutdownLast(s')
  {
    if s'.queue != s.queue {
      assert s'.queue == s.queue + [s'.queue[|s.queue|]];
      assert Shutdown !in s.queue;
    }
  }

  lemma WriterKeepsShutdown<M(!new), R(!new)>(env: Env<M, R>, s: State<M, R>, step: Step<M, R>, s': State<M, R>)
    requires StopsLast(s) && ShutdownLast(s) && (LoopStep(s, step, s') || FileStep(env, s, step, s'))
    ensures ShutdownLast(s')
  {
    if step.Receive? {
      assert forall i :: 0 <= i < |s'.queue| ==> s'.queue[i] == s.queue[i + 1];
    }
  }

  /** The history only grows and the file only moves forward in it. */
  ghost predicate Forward<M, R>(s: State<M, R>, s': State<M, R>) {
    s.history <= s'.history && s.fileAt <= s'.fileAt
  }

  lemma ForwardStep<M(!new), R(!new)>(env: Env<M, R>, s: State<M, R>, step: Step<M, R>, s': State<M, R>)
    requires FilesInv(env, s) && Taken(env, s, step, s')
    ensures Forward(s, s')
  {
  }

  /** Every step of every thread keeps the invariant. */
  lemma InvStep<M(!new), R(!new)>(env: Env<M, R>, s: State<M, R>, step: Step<M, R>, s': State<M, R>)
    requires Inv(env, s) && Taken(env, s, step, s')
    ensures Inv(env, s') && Forward(s, s')
  {
    ForwardStep(env, s, step, s');
    if CallerStep(env, s, step, s') {
      CallerKeepsFiles(env, s, step, s');
      CallerKeepsUpdates(env, s, step, s');
      CallerKeepsFlushes(env, s, step, s');
      CallerKeepsStop(env, s, step, s');
      CallerKeepsShutdown(env, s, step, s');
    } else {
      if LoopStep(s, step, s') {
        LoopKeepsFiles(env, s, step, s');
      } else {
        FileKeepsFiles(env, s, step, s');
      }
      WriterKeepsUpdates(env, s, step, s');
      WriterKeepsFlushes(env, s, step, s');
      WriterKeepsStop(env, s, step, s');
      WriterKeepsShutdown(env, s, step, s');
    }
  }

  // Runs

  /** A stretch of a run: one step from each state to the next. */
  ghost predicate Path<M(!new), R(!new)>(env: Env<M, R>, path: seq<State<M, R>>, steps: seq<Step<M, R>>) {
    && |path| == |steps| + 1
    && forall i :: 0 <= i < |steps| ==> Taken(env, path[i], steps[i], path[i + 1])
  }

  ghost predicate IsRun<M(!new), R(!new)>(env: Env<M, R>, run: seq<State<M, R>>, steps: seq<Step<M, R>>) {
    Path(env, run, steps) && Init(env, run[0])
  }

  lemma StepTaken<M(!new), R(!new)>(env: Env<M, R>, path: seq<State<M, R>>, steps: seq<Step<M, R>>, i: nat)
    requires Path(env, path, steps) && i < |steps|
    ensures Taken(env, path[i], steps[i], path[i + 1])
  {
  }

  lemma {:induction false} RunInv<M(!new), R(!new)>(
      env: Env<M, R>, run: seq<State<M, R>>, steps: seq<Step<M, R>>, i: nat)
    requires IsRun(env, run, steps) && i < |run|
    ensures Inv(env, run[i])
  {
    if i == 0 {
      InitInv(env, run[0]);
    } else {
      RunInv(env, run, steps, i - 1);
      StepTaken(env, run, steps, i - 1);
      InvStep(env, run[i - 1], steps[i - 1], run[i]);
    }
  }

  /** The checkpoint path always holds one of the maps of the history. */
  lemma FileHolds<M(!new), R(!new)>(env: Env<M, R>, run: seq<State<M, R>>, steps: seq<Step<M, R>>, i: nat)
    returns (at: nat)
    requires IsRun(env, run, steps) && i < |run|
    ensures at < |run[i].history| && run[i].file.Whole? && env.encodes(run[i].history[at], run[i].file.content)
  {
    RunInv(env, run, steps, i);
    at := run[i].fileAt;
  }

  lemma {:induction false} RunForward<M(!new), R(!new)>(
      env: Env<M, R>, run: seq<State<M, R>>, steps: seq<Step<M, R>>, i: nat, j: nat)
    requires IsRun(env, run, steps) && i <= j < |run|
    ensures Forward(run[i], run[j])
    decreases j
  {
    if i < j {
      RunForward(env, run, steps, i, j - 1);
      RunStepForward(env, run, steps, j - 1);
      ForwardTransitive(run[i], run[j - 1], run[j]);
    }
  }

  lemma RunStepForward<M(!new), R(!new)>(
      env: Env<M, R>, run: seq<State<M, R>>, steps: seq<Step<M, R>>, i: nat)
    requires IsRun(env, run, steps) && i < |steps|
    ensures Forward(run[i], run[i + 1])
  {
    RunInv(env, run, steps, i);
    InvStep(env, run[i], steps[i], run[i + 1]);
  }

  lemma ForwardTransitive<M, R>(a: State<M, R>, b: State<M, R>, c: State<M, R>)
    requires Forward(a, b) && Forward(b, c)
    ensures Forward(a, c)
  {
    assert forall i :: 0 <= i < |a.history| ==> a.history[i] == b.history[i];
    assert forall i :: 0 <= i < |b.history| ==> b.history[i] == c.history[i];
  }

  ghost predicate Preserved<M(!new), R(!new)>(env: Env<M, R>, good: M -> bool) {
    forall before, after :: good(before) && env.changes(before, after) ==> good(after)
  }

  /** What every update keeps holds of every map in the history. */
  lemma {:induction false} HistoryKeeps<M(!new), R(!new)>(
      env: Env<M, R>, good: M -> bool, run: seq<State<M, R>>, steps: seq<Step<M, R>>, i: nat, at: nat)
    requires IsRun(env, run, steps) && i < |run| && at < |run[i].history|
    requires Preserved(env, good) && good(run[0].history[0])
    ensures good(run[i].history[at])
  {
    if i > 0 {
      var s, s' := run[i - 1], run[i];
      var step := steps[i - 1];
      assert Taken(env, s, step, s');
      if at < |s.history| {
        HistoryKeeps(env, good, run, steps, i - 1, at);
        RunForward(env, run, steps, i - 1, i);
        assert s'.history[at] == s.history[at];
      } else {
        RunInv(env, run, steps, i - 1);
        HistoryKeeps(env, good, run, steps, i - 1, |s.history| - 1);
        HistoryGrowsByUpdate(env, s, step, s');
      }
    }
  }

  lemma HistoryGrowsByUpdate<M(!new), R(!new)>(env: Env<M, R>, s: State<M, R>, step: Step<M, R>, s': State<M, R>)
    requires Taken(env, s, step, s') && s.history != s'.history
    ensures s.history != [] && s'.history == s.history + [s'.history[|s.history|]]
    ensures env.changes(s.history[|s.history| - 1], s'.history[|s.history|])
  {
  }

  /**
   Crash consistency: stopping the process at any point of any run leaves a complete
   file of a map the store held, and a later point never leaves an older one.
   */
  lemma CrashConsistent<M(!new), R(!new)>(
      env: Env<M, R>, run: seq<State<M, R>>, steps: seq<Step<M, R>>, i: nat, j: nat)
    requires IsRun(env, run, steps) && i <= j < |run|
    ensures run[i].file.Whole? && run[j].file.Whole?
    ensures exists a, b :: (
      && 0 <= a <= b < |run[j].history|
      && env.encodes(run[j].history[a], run[i].file.content)
      && env.encodes(run[j].history[b], run[j].file.content))
  {
    RunInv(env, run, steps, i);
    RunInv(env, run, steps, j);
    RunForward(env, run, steps, i, j);
    var a, b := run[i].fileAt, run[j].fileAt;
    assert run[j].history[a] == run[i].history[a];
  }

  /**
   No lost update: at any point, if the live map is not the last one snapshotted, a
   Dirty is owed or queued or the writer will snapshot again; so once nothing is
   pending and the last write succeeded, the file holds the live map.
   */
  lemma NoLostUpdate<M(!new), R(!new)>(
      env: Env<M, R>, run: seq<State<M, R>>, steps: seq<Step<M, R>>, i: nat)
    requires IsRun(env, run, steps) && i < |run|
    ensures
      var s := run[i];
      && s.attempted < |s.history|
      && (s.history[s.attempted] != s.history[s.Newest()] ==>
            s.owed > 0 || Dirty in s.queue || Owes(s.writer))
      && (s.writer == Waiting && s.queue == [] && s.owed == 0 && s.lastWriteOk ==>
            s.file.Whole? && env.encodes(s.history[s.Newest()], s.file.content))
  {
    RunInv(env, run, steps, i);
  }

  /**
   Flush: every flush answered after a successful write left in the file a map at
   least as new as every update made before the flush was called, debouncing or
   not, and once the writer has drained its queue every flush has been answered.
   */
  lemma FlushDurable<M(!new), R(!new)>(
      env: Env<M, R>, run: seq<State<M, R>>, steps: seq<Step<M, R>>, called: nat, answered: nat, id: nat)
    requires IsRun(env, run, steps) && called <= answered < |steps|
    requires steps[called] == CallFlush && id == |run[called].needs|
    requires steps[answered] == EndWrite && Answering(run[answered].writer, id)
    requires At(run[answered], Finished(true))
    ensures
      var s := run[answered + 1];
      && s.file.Whole?
      && exists at: nat :: (
        && |run[called].history| <= at + 1 <= |s.history|
        && env.encodes(s.history[at], s.file.content))
  {
    RunInv(env, run, steps, called + 1);
    RunInv(env, run, steps, answered);
    RunInv(env, run, steps, answered + 1);
    NeedsKept(env, run, steps, called + 1, answered + 1);
    assert run[called + 1].needs[id] == run[called].Newest();
    assert run[answered].needs[id] == run[answered + 1].needs[id];
  }

  lemma {:induction false} NeedsKept<M(!new), R(!new)>(
      env: Env<M, R>, run: seq<State<M, R>>, steps: seq<Step<M, R>>, i: nat, j: nat)
    requires IsRun(env, run, steps) && i <= j < |run|
    ensures run[i].needs <= run[j].needs
    decreases j
  {
    if i < j {
      NeedsKept(env, run, steps, i, j - 1);
      assert Taken(env, run[j - 1], steps[j - 1], run[j]);
    }
  }

  lemma FlushAnswered<M(!new), R(!new)>(
      env: Env<M, R>, run: seq<State<M, R>>, steps: seq<Step<M, R>>, i: nat)
    requires IsRun(env, run, steps) && i < |run|
    requires run[i].queue == [] && (run[i].writer.Waiting? || run[i].writer.Debouncing?)
    ensures forall id :: 0 <= id < |run[i].needs| ==> id in run[i].acks
  {
    RunInv(env, run, steps, i);
  }

  /** Shutdown: once the writer has exited after a successful last write, the file holds the final map. */
  lemma ShutdownDurable<M(!new), R(!new)>(
      env: Env<M, R>, run: seq<State<M, R>>, steps: seq<Step<M, R>>, i: nat)
    requires IsRun(env, run, steps) && i < |run| && run[i].writer == Exited
    ensures run[i].dropped
    ensures run[i].lastWriteOk ==>
      run[i].history != [] && run[i].file.Whole?
      && env.encodes(run[i].history[run[i].Newest()], run[i].file.content)
  {
    RunInv(env, run, steps, i);
  }
}
