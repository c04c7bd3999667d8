/**
 * Runs, cancels, reloads and write-backs in every interleaving. One step is one section under the
 * mutex, one history statement, or one action of a run between them.
 */
module RunnerProtocol {
  import opened Strings
  import opened Config
  import opened Runner
  import Output
  import History
  import Availability

  /** Where a run is: LookedUp has read its operation only, Done and Refused are over. */
  datatype Phase =
    | LookedUp | Refused
    | Holding | Stamped | Inserted
    | Registered | Aborted | Started | Exited | Finished | Saved | Trimmed
    | Done

  datatype Run = Run(
    slot: Slot,
    job: Job,
    phase: Phase,
    startedAt: int,
    row: Option<History.RowId>,
    executed: Option<Job>,
    stdout: seq<string>,
    stderr: seq<string>,
    outDone: nat,
    errDone: nat,
    lines: seq<string>,
    exitCode: int,
    finishedAt: Option<int>,
    captured: string,
    updated: bool
  ) {

    predicate Holds()
    {
      phase !in {LookedUp, Refused, Done}
    }

    /** From registering the cancel function until the release. */
    predicate Cancellable()
    {
      Holds() && phase !in {Holding, Stamped, Inserted}
    }

    predicate HasStart()
    {
      phase !in {LookedUp, Refused, Holding}
    }

    /** The history row this run stands for. */
    function RowOf(): History.Row
    {
      if updated && finishedAt.Some?
      then History.Row(slot.key, startedAt, finishedAt, Some(exitCode), Some(captured))
      else History.Row(slot.key, startedAt, None, None, None)
    }
  }

  function NewRun(slot: Slot, job: Job): Run
  {
    Run(slot, job, LookedUp, 0, None, None, [], [], 0, 0, [], 0, None, "", false)
  }

  /**
   * What the process finds when it starts: the time, and the history of earlier processes; `appRows` are
   * the rows of app runs.
   */
  datatype Origin = Origin(clock: int, lastId: nat, log: History.Table, appRows: set<History.RowId>)

  datatype State = State(
    origin: Origin,
    clock: int,
    shared: Shared,
    runs: map<RunId, Run>,
    cancelled: set<RunId>,
    /** The maps passed to the last reload, and the names written back since. */
    loadedOps: map<string, Operation>,
    loadedApps: map<string, App>,
    lateOps: set<string>,
    lateApps: set<string>,
    /** The history table, and the same table as if it were never pruned. */
    db: History.Store,
    log: History.Table
  ) {

    function With(id: RunId, run: Run): State
    {
      this.(runs := runs[id := run])
    }

    function Log(): History.Store
    {
      History.Store(log, db.lastId)
    }
  }

  /** What a run does by itself while it holds its slot. */
  datatype Action =
    | Stamp
    | Insert(ok: bool)
    | StartFails
    | Start(stdout: seq<string>, stderr: seq<string>)
    | EmitOut
    | EmitErr
    | Exit(exitCode: int)
    | Finish
    | Update(ok: bool)
    | Trim(ok: bool, keep: seq<History.RowId>)

  datatype Step =
    | Tick(to: int)
    | LookUp(id: RunId, name: string)
    | LookUpApp(id: RunId, appName: string, opName: string)
    | Acquire(id: RunId)
    | Register(id: RunId)
    | Act(id: RunId, action: Action)
    | Release(id: RunId)
    | Cancel(slot: Slot)
    | Reload(newOps: map<string, Operation>)
    | ReloadApps(newApps: map<string, App>)
    | WriteBack(name: string, version: string)
    | WriteBackApp(name: string, version: string)

  ghost predicate CanAct(s: State, r: Run, a: Action)
  {
    match a
    case Stamp => r.phase == Holding
    case Insert(_) => r.phase == Stamped
    case StartFails => r.phase == Registered
    case Start(out, err) => r.phase == Registered && NewlineFree(out) && NewlineFree(err)
    case EmitOut => r.phase == Started && r.outDone < |r.stdout|
    case EmitErr => r.phase == Started && r.errDone < |r.stderr|
    case Exit(_) => r.phase == Started && r.outDone == |r.stdout| && r.errDone == |r.stderr|
    case Finish => r.phase == Exited
    case Update(_) => r.phase == Finished && r.finishedAt.Some?
    case Trim(ok, keep) =>
      && r.phase == Saved
      && (ok && r.row.Some? ==>
           History.IsTop(s.db.rows, History.ByName(r.slot.key), History.MAX_PER_OPERATION, keep))
  }

  function Acted(s: State, r: Run, a: Action): Run
    requires CanAct(s, r, a)
  {
    match a
    case Stamp => r.(phase := Stamped, startedAt := s.clock)
    case Insert(ok) => r.(phase := Inserted, row := if ok then Some(NextRow(s)) else None)
    case StartFails => r.(phase := Aborted)
    case Start(out, err) => r.(phase := Started, executed := Some(r.job), stdout := out, stderr := err)
    case EmitOut => r.(lines := r.lines + [r.stdout[r.outDone]], outDone := r.outDone + 1)
    case EmitErr => r.(lines := r.lines + [r.stderr[r.errDone]], errDone := r.errDone + 1)
    case Exit(code) => r.(phase := Exited, exitCode := code)
    case Finish =>
      r.(phase := Finished, finishedAt := Some(s.clock),
         captured := Output.Truncate(Output.Emitted(r.lines), Output.MAX_STORED))
    case Update(ok) => r.(phase := Saved, updated := ok && r.row.Some?)
    case Trim(_, _) => r.(phase := Trimmed)
  }

  function NextRow(s: State): History.RowId
  {
    History.RowId(s.db.lastId + 1)
  }

  /** The statement an action executes, if any: without a row there is nothing to finalise or prune. */
  function StatementOf(r: Run, a: Action): Option<History.Statement>
  {
    match a
    case Insert(true) => Some(History.Statement.Insert(r.slot.key, r.startedAt))
    case Update(true) =>
      if r.row.None? || r.finishedAt.None? then None
      else Some(History.Statement.Update(r.row.value, r.finishedAt.value, r.exitCode, r.captured))
    case Trim(true, keep) => if r.row.None? then None else Some(History.Prune(r.slot.key, keep))
    case _ => None
  }

  predicate At(s: State, id: RunId, phase: Phase)
  {
    id in s.runs && s.runs[id].phase == phase
  }

  ghost predicate Enabled(s: State, st: Step)
  {
    match st
    case Tick(to) => s.clock <= to
    case LookUp(id, name) => id !in s.runs && s.shared.FindOp(name).Some?
    case LookUpApp(id, a, o) => id !in s.runs && s.shared.FindAppOp(a, o).Some?
    case Acquire(id) => At(s, id, LookedUp)
    case Register(id) => At(s, id, Inserted)
    case Act(id, a) => id in s.runs && CanAct(s, s.runs[id], a)
    case Release(id) => At(s, id, Trimmed) || At(s, id, Aborted)
    case _ => true
  }

  function Apply(s: State, st: Step): State
    requires Enabled(s, st)
  {
    match st
    case Tick(to) => s.(clock := to)
    case LookUp(id, name) => s.With(id, NewRun(Slot(Legacy, name), s.shared.FindOp(name).value))
    case LookUpApp(id, a, o) => s.With(id, NewRun(Slot(OfApp, AppKey(a, o)), s.shared.FindAppOp(a, o).value))
    case Acquire(id) =>
      var r := s.runs[id];
      if s.shared.IsActive(r.slot) then s.With(id, r.(phase := Refused))
      else s.With(id, r.(phase := Holding)).(shared := s.shared.Taken(r.slot))
    case Register(id) =>
      s.With(id, s.runs[id].(phase := Registered)).(shared := s.shared.Registered(s.runs[id].slot, id))
    case Act(id, a) =>
      var r := s.runs[id];
      var s' := s.With(id, Acted(s, r, a));
      (match StatementOf(r, a)
       case None => s'
       case Some(st) => s'.(db := History.Apply(s.db, st), log := History.ApplyUnpruned(s.Log(), st).rows))
    case Release(id) => s.With(id, s.runs[id].(phase := Done)).(shared := s.shared.Released(s.runs[id].slot))
    case Cancel(slot) =>
      (match s.shared.CancelOf(slot) case None => s case Some(id) => s.(cancelled := s.cancelled + {id}))
    case Reload(ops) => s.(shared := s.shared.(ops := ops), loadedOps := ops, lateOps := {})
    case ReloadApps(apps) => s.(shared := s.shared.(apps := apps), loadedApps := apps, lateApps := {})
    case WriteBack(name, v) => s.(shared := s.shared.OpVersionSet(name, v), lateOps := s.lateOps + {name})
    case WriteBackApp(name, v) => s.(shared := s.shared.AppVersionSet(name, v), lateApps := s.lateApps + {name})
  }

  function Initial(origin: Origin, rows: History.Table, ops: map<string, Operation>, apps: map<string, App>): State
  {
    State(origin, origin.clock, Shared(ops, apps, map[], map[], map[], map[]), map[], {}, ops, apps, {}, {},
          History.Store(rows, origin.lastId), origin.log)
  }

  /** The rows found refine a log of all that earlier processes did; app runs have a colon in their names. */
  ghost predicate CanStart(origin: Origin, rows: History.Table)
  {
    && History.StoresInv(History.Store(rows, origin.lastId), History.Store(origin.log, origin.lastId))
    && forall row :: row in origin.appRows ==> row in origin.log && ':' in origin.log[row].name
  }

  // ---------- slots ----------

  /** Exactly the slots held by a run are active, and no two runs hold the same slot. */
  ghost predicate HoldersInv(s: State)
  {
    && (forall id :: id in s.runs && s.runs[id].Holds() ==> s.shared.IsActive(s.runs[id].slot))
    && (forall a, b :: a in s.runs && b in s.runs && a != b && s.runs[a].Holds() && s.runs[b].Holds()
         ==> s.runs[a].slot != s.runs[b].slot)
    && (forall slot :: s.shared.IsActive(slot) ==> Held(s, slot))
  }

  ghost predicate Held(s: State, slot: Slot)
  {
    exists id :: id in s.runs && s.runs[id].Holds() && s.runs[id].slot == slot
  }

  /** The cancel functions are exactly those of the runs between registration and release. */
  ghost predicate CancelsInv(s: State)
  {
    && (forall slot :: CancelIsOwn(s, slot, s.shared.CancelOf(slot)))
    && (forall id :: id in s.runs && s.runs[id].Cancellable() ==> s.shared.CancelOf(s.runs[id].slot) == Some(id))
    && (forall id :: id in s.cancelled ==> id in s.runs && (s.runs[id].Cancellable() || s.runs[id].phase == Done))
  }

  ghost predicate CancelIsOwn(s: State, slot: Slot, cancel: Option<RunId>)
  {
    cancel.Some? ==> cancel.value in s.runs && s.runs[cancel.value].slot == slot && s.runs[cancel.value].Cancellable()
  }

  ghost predicate SlotsInv(s: State)
  {
    HoldersInv(s) && CancelsInv(s)
  }

  /** A run changes without entering or leaving its slot. */
  ghost predicate SameRun(r: Run, r': Run)
  {
    && r'.slot == r.slot && r'.Holds() == r.Holds() && r'.Cancellable() == r.Cancellable()
    && (r.phase == Done ==> r'.phase == Done)
  }

  /** Steps that leave the tables and the standing of every run as they were. */
  ghost predicate SameStanding(s: State, s': State)
  {
    && s'.shared.active == s.shared.active && s'.shared.cancels == s.shared.cancels
    && s'.shared.appsActive == s.shared.appsActive && s'.shared.appsCancels == s.shared.appsCancels
    && s'.cancelled == s.cancelled
    && (forall id :: id in s.runs ==> id in s'.runs && SameRun(s.runs[id], s'.runs[id]))
    && (forall id :: id in s'.runs && id !in s.runs ==> !s'.runs[id].Holds())
  }

  lemma HoldersFrame(s: State, s': State)
    requires HoldersInv(s) && SameStanding(s, s')
    ensures HoldersInv(s')
  {
    forall slot | s'.shared.IsActive(slot) ensures Held(s', slot) {
      assert s.shared.IsActive(slot);
      var id :| id in s.runs && s.runs[id].Holds() && s.runs[id].slot == slot;
      assert id in s'.runs && s'.runs[id].Holds();
    }
  }

  lemma CancelsFrame(s: State, s': State)
    requires CancelsInv(s) && SameStanding(s, s')
    ensures CancelsInv(s')
  {
    forall slot ensures CancelIsOwn(s', slot, s'.shared.CancelOf(slot)) {
      assert s'.shared.CancelOf(slot) == s.shared.CancelOf(slot);
      assert CancelIsOwn(s, slot, s.shared.CancelOf(slot));
    }
    forall id | id in s'.runs && s'.runs[id].Cancellable()
      ensures s'.shared.CancelOf(s'.runs[id].slot) == Some(id)
    {
      assert id in s.runs && s.runs[id].Cancellable();
    }
  }

  /** Slot `mine` is taken or left by run `id`; all other slots and runs stay. */
  lemma HoldersChange(s: State, s': State, id: RunId, mine: Slot)
    requires HoldersInv(s) && id in s.runs && s.runs[id].slot == mine
    requires id in s'.runs && s'.runs == s.runs[id := s'.runs[id]] && s'.runs[id].slot == mine
    requires forall slot :: slot != mine ==> (s'.shared.IsActive(slot) <==> s.shared.IsActive(slot))
    requires s'.runs[id].Holds() <==> s'.shared.IsActive(mine)
    requires s.runs[id].Holds() || !s.shared.IsActive(mine)
    ensures HoldersInv(s')
  {
    forall slot | s'.shared.IsActive(slot) ensures Held(s', slot) {
      if slot == mine {
        assert s'.runs[id].Holds();
      } else {
        assert Held(s, slot);
        var i :| i in s.runs && s.runs[i].Holds() && s.runs[i].slot == slot;
        assert s'.runs[i].Holds();
      }
    }
  }

  lemma AcquireKeepsCancels(s: State, id: RunId)
    requires CancelsInv(s) && Enabled(s, Acquire(id))
    ensures CancelsInv(Apply(s, Acquire(id)))
  {
    var s', mine := Apply(s, Acquire(id)), s.runs[id].slot;
    forall slot ensures s'.shared.CancelOf(slot) == s.shared.CancelOf(slot) {
      TakenOnSlots(s.shared, mine, slot);
    }
    CancelsStay(s, s', id);
  }

  lemma AcquireKeepsHolders(s: State, id: RunId)
    requires HoldersInv(s) && Enabled(s, Acquire(id))
    ensures HoldersInv(Apply(s, Acquire(id)))
  {
    var s', mine := Apply(s, Acquire(id)), s.runs[id].slot;
    if s.shared.IsActive(mine) {
      RunChangeIsMinor(s, s', id, s'.runs[id]);
      HoldersFrame(s, s');
    } else {
      forall slot ensures s'.shared.IsActive(slot) <==> slot == mine || s.shared.IsActive(slot) {
        TakenOnSlots(s.shared, mine, slot);
      }
      HoldersChange(s, s', id, mine);
    }
  }

  lemma CancelsStay(s: State, s': State, id: RunId)
    requires CancelsInv(s) && id in s.runs
    requires id in s'.runs && s'.runs == s.runs[id := s'.runs[id]] && s'.cancelled == s.cancelled
    requires SameRun(s.runs[id], s'.runs[id])
      || (!s.runs[id].Cancellable() && !s'.runs[id].Cancellable() && s.runs[id].phase != Done)
    requires forall slot :: s'.shared.CancelOf(slot) == s.shared.CancelOf(slot)
    ensures CancelsInv(s')
  {
    forall slot ensures CancelIsOwn(s', slot, s'.shared.CancelOf(slot)) {
      assert CancelIsOwn(s, slot, s.shared.CancelOf(slot));
    }
  }

  /** Run `id` gains or loses the cancel function of its slot. */
  lemma CancelsChange(s: State, s': State, id: RunId, mine: Slot)
    requires HoldersInv(s) && CancelsInv(s) && id in s.runs && s.runs[id].slot == mine && s.runs[id].Holds()
    requires id in s'.runs && s'.runs == s.runs[id := s'.runs[id]] && s'.runs[id].slot == mine
    requires s'.cancelled == s.cancelled
    requires s'.runs[id].Cancellable() || s'.runs[id].phase == Done
    requires forall slot :: slot != mine ==> s'.shared.CancelOf(slot) == s.shared.CancelOf(slot)
    requires s'.shared.CancelOf(mine) == if s'.runs[id].Cancellable() then Some(id) else None
    ensures CancelsInv(s')
  {
    forall slot ensures CancelIsOwn(s', slot, s'.shared.CancelOf(slot)) {
      assert CancelIsOwn(s, slot, s.shared.CancelOf(slot));
    }
  }

  lemma RegisterKeepsSlots(s: State, id: RunId)
    requires SlotsInv(s) && Enabled(s, Register(id))
    ensures SlotsInv(Apply(s, Register(id)))
  {
    var s', mine := Apply(s, Register(id)), s.runs[id].slot;
    forall slot ensures s'.shared.IsActive(slot) <==> s.shared.IsActive(slot)
      ensures s'.shared.CancelOf(slot) == if slot == mine then Some(id) else s.shared.CancelOf(slot)
    {
      RegisteredOnSlots(s.shared, mine, id, slot);
    }
    HoldersChange(s, s', id, mine);
    CancelsChange(s, s', id, mine);
  }

  lemma ReleaseKeepsSlots(s: State, id: RunId)
    requires SlotsInv(s) && Enabled(s, Release(id))
    ensures SlotsInv(Apply(s, Release(id)))
  {
    var s', mine := Apply(s, Release(id)), s.runs[id].slot;
    forall slot ensures s'.shared.IsActive(slot) <==> slot != mine && s.shared.IsActive(slot)
      ensures s'.shared.CancelOf(slot) == if slot == mine then None else s.shared.CancelOf(slot)
    {
      ReleasedOnSlots(s.shared, mine, slot);
    }
    HoldersChange(s, s', id, mine);
    CancelsChange(s, s', id, mine);
  }

  lemma CancelKeepsSlots(s: State, slot: Slot)
    requires SlotsInv(s)
    ensures SlotsInv(Apply(s, Cancel(slot)))
  {
    var s' := Apply(s, Cancel(slot));
    forall o ensures CancelIsOwn(s', o, s'.shared.CancelOf(o)) {
      assert CancelIsOwn(s, o, s.shared.CancelOf(o));
    }
  }

  /** A run changes in place, with any change to clock, history and configuration. */
  lemma RunChangeIsMinor(s: State, s': State, id: RunId, r: Run)
    requires s'.runs == s.runs[id := r] && s'.shared == s.shared && s'.cancelled == s.cancelled
    requires if id in s.runs then SameRun(s.runs[id], r) else !r.Holds()
    ensures SameStanding(s, s')
  {
  }

  lemma ActionStaysInSlot(s: State, r: Run, a: Action)
    requires CanAct(s, r, a)
    ensures SameRun(r, Acted(s, r, a)) && r.Holds()
  {
  }

  lemma OtherStepsAreMinor(s: State, st: Step)
    requires Enabled(s, st)
    requires !st.Acquire? && !st.Register? && !st.Release? && !st.Cancel? && !st.Act?
    ensures SameStanding(s, Apply(s, st))
  {
  }

  lemma SlotsFrame(s: State, s': State)
    requires SlotsInv(s) && SameStanding(s, s')
    ensures SlotsInv(s')
  {
    HoldersFrame(s, s');
    CancelsFrame(s, s');
  }

  lemma ActKeepsSlots(s: State, id: RunId, a: Action)
    requires SlotsInv(s) && Enabled(s, Act(id, a))
    ensures SlotsInv(Apply(s, Act(id, a)))
  {
    var s' := Apply(s, Act(id, a));
    ActionStaysInSlot(s, s.runs[id], a);
    RunChangeIsMinor(s, s', id, s'.runs[id]);
    SlotsFrame(s, s');
  }

  lemma OtherStepsKeepSlots(s: State, st: Step)
    requires SlotsInv(s) && Enabled(s, st)
    requires !st.Acquire? && !st.Register? && !st.Release? && !st.Cancel? && !st.Act?
    ensures SlotsInv(Apply(s, st))
  {
    OtherStepsAreMinor(s, st);
    SlotsFrame(s, Apply(s, st));
  }

  lemma StepKeepsSlots(s: State, st: Step)
    requires SlotsInv(s) && Enabled(s, st)
    ensures SlotsInv(Apply(s, st))
  {
    match st
    case Acquire(id) =>
      AcquireKeepsHolders(s, id);
      AcquireKeepsCancels(s, id);
    case Register(id) => RegisterKeepsSlots(s, id);
    case Release(id) => ReleaseKeepsSlots(s, id);
    case Cancel(slot) => CancelKeepsSlots(s, slot);
    case Act(id, a) => ActKeepsSlots(s, id, a);
    case _ => OtherStepsKeepSlots(s, st);
  }

  // ---------- each run by itself ----------

  /** The output captured so far, and what its phase says about a run. */
  ghost predicate OutputOk(r: Run)
  {
    && NewlineFree(r.stdout) && NewlineFree(r.stderr) && NewlineFree(r.lines)
    && r.outDone <= |r.stdout| && r.errDone <= |r.stderr|
    && Output.IsMerge(r.lines, r.stdout[..r.outDone], r.stderr[..r.errDone])
    && (r.finishedAt.Some? || r.phase == Exited ==> r.outDone == |r.stdout| && r.errDone == |r.stderr|)
    && (r.executed.None? ==> r.lines == r.stdout == r.stderr == [])
  }

  ghost predicate CapturedOk(r: Run)
  {
    r.finishedAt.Some? ==> r.captured == Output.Truncate(Output.Emitted(r.lines), Output.MAX_STORED)
  }

  ghost predicate PhaseOk(clock: int, r: Run)
  {
    && (r.executed.Some? ==> r.executed == Some(r.job))
    && (r.phase in {LookedUp, Refused, Holding, Stamped, Inserted, Registered, Aborted} ==>
          r.executed.None? && r.finishedAt.None?)
    && (r.phase in {Started, Exited} ==> r.executed.Some? && r.finishedAt.None?)
    && (r.phase in {Finished, Saved, Trimmed} ==> r.executed.Some? && r.finishedAt.Some?)
    && (r.phase == Done ==> r.executed.Some? == r.finishedAt.Some?)
    && (r.HasStart() ==> r.startedAt <= clock)
    && (r.finishedAt.Some? ==> r.startedAt <= r.finishedAt.value <= clock)
    && (r.updated ==> r.row.Some? && r.finishedAt.Some?)
    && (r.phase in {LookedUp, Refused, Holding, Stamped} ==> r.row.None?)
    && (r.phase in {Finished, Exited, Started} ==> !r.updated)
  }

  ghost predicate RunOk(clock: int, r: Run)
  {
    OutputOk(r) && CapturedOk(r) && PhaseOk(clock, r)
  }

  ghost predicate RunsInv(s: State)
  {
    forall id :: id in s.runs ==> RunOk(s.clock, s.runs[id])
  }

  lemma EmitOutKeepsOutput(r: Run)
    requires OutputOk(r) && r.finishedAt.None? && r.executed.Some? && r.phase == Started && r.outDone < |r.stdout|
    ensures OutputOk(r.(lines := r.lines + [r.stdout[r.outDone]], outDone := r.outDone + 1))
  {
    var line := r.stdout[r.outDone];
    Output.MergeExtend(r.lines, r.stdout[..r.outDone], r.stderr[..r.errDone], line);
    assert r.stdout[..r.outDone + 1] == r.stdout[..r.outDone] + [line];
  }

  lemma EmitErrKeepsOutput(r: Run)
    requires OutputOk(r) && r.finishedAt.None? && r.executed.Some? && r.phase == Started && r.errDone < |r.stderr|
    ensures OutputOk(r.(lines := r.lines + [r.stderr[r.errDone]], errDone := r.errDone + 1))
  {
    var line := r.stderr[r.errDone];
    Output.MergeExtend(r.lines, r.stdout[..r.outDone], r.stderr[..r.errDone], line);
    assert r.stderr[..r.errDone + 1] == r.stderr[..r.errDone] + [line];
  }

  lemma ActionKeepsOutput(s: State, r: Run, a: Action)
    requires OutputOk(r) && PhaseOk(s.clock, r) && CanAct(s, r, a)
    ensures OutputOk(Acted(s, r, a))
  {
    match a
    case EmitOut => EmitOutKeepsOutput(r);
    case EmitErr => EmitErrKeepsOutput(r);
    case Start(out, err) => assert r.outDone == r.errDone == 0 && out[..0] == err[..0] == [];
    case _ =>
  }

  lemma ActionKeepsCaptured(s: State, r: Run, a: Action)
    requires CapturedOk(r) && PhaseOk(s.clock, r) && CanAct(s, r, a)
    ensures CapturedOk(Acted(s, r, a))
  {
  }

  lemma ActionKeepsPhase(s: State, r: Run, a: Action)
    requires PhaseOk(s.clock, r) && CanAct(s, r, a)
    ensures PhaseOk(s.clock, Acted(s, r, a))
  {
  }

  lemma RunChangeKeepsRuns(s: State, s': State, id: RunId, r: Run)
    requires RunsInv(s) && s'.clock == s.clock && s'.runs == s.runs[id := r]
    requires RunOk(s.clock, r)
    ensures RunsInv(s')
  {
  }

  lemma TickKeepsRuns(s: State, to: int)
    requires RunsInv(s) && s.clock <= to
    ensures RunsInv(s.(clock := to))
  {
  }

  lemma ActKeepsRuns(s: State, id: RunId, a: Action)
    requires RunsInv(s) && Enabled(s, Act(id, a))
    ensures RunsInv(Apply(s, Act(id, a)))
  {
    var s' := Apply(s, Act(id, a));
    ActionKeepsOutput(s, s.runs[id], a);
    ActionKeepsCaptured(s, s.runs[id], a);
    ActionKeepsPhase(s, s.runs[id], a);
    RunChangeKeepsRuns(s, s', id, s'.runs[id]);
  }

  /** The moves that the sections under the mutex make. */
  predicate CanMove(p: Phase, q: Phase)
  {
    (p, q) in {(LookedUp, Refused), (LookedUp, Holding), (Inserted, Registered), (Trimmed, Done), (Aborted, Done)}
  }

  /** What a step other than an action does to the runs: nothing, one new run, or one move. */
  datatype Effect = Nothing | Adds(id: RunId, slot: Slot, job: Job) | Moves(id: RunId, to: Phase)

  ghost predicate HasEffect(s: State, s': State, e: Effect)
  {
    && s'.db == s.db && s'.log == s.log && s'.origin == s.origin
    && match e
       case Nothing => s'.runs == s.runs
       case Adds(id, slot, job) => id !in s.runs && s'.runs == s.runs[id := NewRun(slot, job)]
       case Moves(id, to) =>
         id in s.runs && CanMove(s.runs[id].phase, to) && s'.runs == s.runs[id := s.runs[id].(phase := to)]
  }

  function EffectOf(s: State, st: Step): Effect
    requires Enabled(s, st)
  {
    match st
    case LookUp(id, name) => Adds(id, Slot(Legacy, name), s.shared.FindOp(name).value)
    case LookUpApp(id, a, o) => Adds(id, Slot(OfApp, AppKey(a, o)), s.shared.FindAppOp(a, o).value)
    case Acquire(id) => Moves(id, if s.shared.IsActive(s.runs[id].slot) then Refused else Holding)
    case Register(id) => Moves(id, Registered)
    case Release(id) => Moves(id, Done)
    case _ => Nothing
  }

  lemma StepHasEffect(s: State, st: Step)
    requires Enabled(s, st) && !st.Act?
    ensures HasEffect(s, Apply(s, st), EffectOf(s, st))
    ensures s.clock <= Apply(s, st).clock
  {
    if st.Acquire? || st.Register? || st.Release? {
      SectionHasEffect(s, st);
    } else {
      OtherHasEffect(s, st);
    }
  }

  lemma SectionHasEffect(s: State, st: Step)
    requires Enabled(s, st) && (st.Acquire? || st.Register? || st.Release?)
    ensures HasEffect(s, Apply(s, st), EffectOf(s, st)) && s.clock == Apply(s, st).clock
  {
  }

  lemma OtherHasEffect(s: State, st: Step)
    requires Enabled(s, st) && !st.Act? && !st.Acquire? && !st.Register? && !st.Release?
    ensures HasEffect(s, Apply(s, st), EffectOf(s, st)) && s.clock <= Apply(s, st).clock
  {
  }

  lemma MoveKeepsRunOk(clock: int, r: Run, to: Phase)
    requires RunOk(clock, r) && CanMove(r.phase, to)
    ensures RunOk(clock, r.(phase := to))
  {
  }

  lemma EffectKeepsRuns(s: State, s': State, e: Effect)
    requires RunsInv(s) && HasEffect(s, s', e) && s.clock <= s'.clock
    ensures RunsInv(s')
  {
    TickKeepsRuns(s, s'.clock);
    var t := s.(clock := s'.clock);
    match e
    case Nothing =>
    case Adds(id, slot, job) => RunChangeKeepsRuns(t, s', id, NewRun(slot, job));
    case Moves(id, to) =>
      MoveKeepsRunOk(t.clock, t.runs[id], to);
      RunChangeKeepsRuns(t, s', id, t.runs[id].(phase := to));
  }

  lemma StepKeepsRuns(s: State, st: Step)
    requires RunsInv(s) && Enabled(s, st)
    ensures RunsInv(Apply(s, st))
  {
    if st.Act? {
      ActKeepsRuns(s, st.id, st.action);
    } else {
      StepHasEffect(s, st);
      EffectKeepsRuns(s, Apply(s, st), EffectOf(s, st));
    }
  }

  // ---------- the history ----------

  ghost predicate RowKept(s: State, r: Run)
  {
    r.row.Some? ==> r.row.value in s.log && s.log[r.row.value] == r.RowOf()
  }

  ghost predicate Owned(s: State, row: History.RowId)
  {
    exists id :: id in s.runs && s.runs[id].row == Some(row)
  }

  /** Rows and runs correspond one to one, and each row says what its run did. */
  ghost predicate HistoryInv(s: State)
  {
    && History.StoresInv(s.db, s.Log())
    && (forall id :: id in s.runs ==> RowKept(s, s.runs[id]))
    && (forall a, b :: a in s.runs && b in s.runs && a != b && s.runs[a].row.Some? ==> s.runs[a].row != s.runs[b].row)
    && (forall row :: row in s.log && row.n > s.origin.lastId ==> Owned(s, row))
  }

  /** Steps that leave the tables and each run's row alone. */
  lemma HistoryFrame(s: State, s': State)
    requires HistoryInv(s) && s'.db == s.db && s'.log == s.log && s'.origin == s.origin && s.runs.Keys <= s'.runs.Keys
    requires forall id :: id in s.runs ==> s'.runs[id].row == s.runs[id].row
    requires forall id :: id in s.runs && s.runs[id].row.Some? ==> s'.runs[id].RowOf() == s.runs[id].RowOf()
    requires forall id :: id in s'.runs && id !in s.runs ==> s'.runs[id].row.None?
    ensures HistoryInv(s')
  {
    forall row | row in s'.log && row.n > s'.origin.lastId ensures Owned(s', row) {
      assert Owned(s, row);
      var id :| id in s.runs && s.runs[id].row == Some(row);
      assert s'.runs[id].row == Some(row);
    }
    forall id | id in s'.runs ensures RowKept(s', s'.runs[id]) {
      if id in s.runs {
        assert RowKept(s, s.runs[id]);
      }
    }
  }

  /** Run `id` gets a row of its own, or rewrites the one it has; all other rows stay. */
  lemma HistoryChange(s: State, s': State, id: RunId, row: History.RowId)
    requires HistoryInv(s) && RowChanges(s, s', id, row) && History.StoresInv(s'.db, s'.Log())
    ensures HistoryInv(s')
  {
    forall o | o in s'.runs ensures RowKept(s', s'.runs[o]) {
      if o != id {
        assert RowKept(s, s.runs[o]);
      }
    }
    OwnersAfterChange(s, s', id, row);
    forall a, b | a in s'.runs && b in s'.runs && a != b && s'.runs[a].row.Some?
      ensures s'.runs[a].row != s'.runs[b].row
    {
      assert RowKept(s, s.runs[a]) && RowKept(s, s.runs[b]);
    }
  }

  ghost predicate RowChanges(s: State, s': State, id: RunId, row: History.RowId)
  {
    && id in s.runs && (s.runs[id].row == Some(row) || (s.runs[id].row.None? && row !in s.log))
    && id in s'.runs && s'.runs == s.runs[id := s'.runs[id]]
    && s'.runs[id].row == Some(row) && s'.origin == s.origin
    && s'.log == s.log[row := s'.runs[id].RowOf()]
  }

  lemma OwnersAfterChange(s: State, s': State, id: RunId, row: History.RowId)
    requires RowChanges(s, s', id, row)
    requires forall x :: x in s.log && x.n > s.origin.lastId ==> Owned(s, x)
    ensures forall x :: x in s'.log && x.n > s'.origin.lastId ==> Owned(s', x)
  {
    forall x | x in s'.log && x.n > s'.origin.lastId ensures Owned(s', x) {
      if x == row {
        assert s'.runs[id].row == Some(row);
      } else {
        assert Owned(s, x);
        var o :| o in s.runs && s.runs[o].row == Some(x);
        assert s'.runs[o].row == Some(x);
      }
    }
  }

  lemma InsertKeepsHistory(s: State, id: RunId)
    requires HistoryInv(s) && RunsInv(s) && Enabled(s, Act(id, Insert(true)))
    ensures HistoryInv(Apply(s, Act(id, Insert(true))))
  {
    var s', r := Apply(s, Act(id, Insert(true))), s.runs[id];
    History.StatementRefines(s.db, s.Log(), StatementOf(r, Insert(true)).value);
    assert s'.runs[id].RowOf() == History.Row(r.slot.key, r.startedAt, None, None, None);
    HistoryChange(s, s', id, NextRow(s));
  }

  /** What the successful update of a run does to the state. */
  lemma UpdateChangesRow(s: State, id: RunId)
    requires Enabled(s, Act(id, Update(true))) && s.runs[id].row.Some? && RowKept(s, s.runs[id])
    ensures var r, s' := s.runs[id], Apply(s, Act(id, Update(true)));
      && RowChanges(s, s', id, r.row.value)
      && s'.db == History.Apply(s.db, StatementOf(r, Update(true)).value)
      && s'.Log().rows == History.ApplyUnpruned(s.Log(), StatementOf(r, Update(true)).value).rows
  {
  }

  lemma UpdateKeepsHistory(s: State, id: RunId)
    requires HistoryInv(s) && RunsInv(s) && Enabled(s, Act(id, Update(true))) && s.runs[id].row.Some?
    ensures HistoryInv(Apply(s, Act(id, Update(true))))
  {
    var s', r := Apply(s, Act(id, Update(true))), s.runs[id];
    UpdateChangesRow(s, id);
    History.StatementRefines(s.db, s.Log(), StatementOf(r, Update(true)).value);
    HistoryChange(s, s', id, r.row.value);
  }

  lemma NewStoreKeepsHistory(s: State, db: History.Store)
    requires HistoryInv(s) && History.StoresInv(db, s.(db := db).Log())
    ensures HistoryInv(s.(db := db))
  {
    assert forall id :: id in s.runs ==> RowKept(s, s.runs[id]) && RowKept(s.(db := db), s.runs[id]);
    forall row | row in s.log && row.n > s.origin.lastId ensures Owned(s.(db := db), row) {
      assert Owned(s, row);
    }
  }

  lemma TrimKeepsHistory(s: State, id: RunId, keep: seq<History.RowId>)
    requires HistoryInv(s) && RunsInv(s) && Enabled(s, Act(id, Trim(true, keep))) && s.runs[id].row.Some?
    ensures HistoryInv(Apply(s, Act(id, Trim(true, keep))))
  {
    var s', r := Apply(s, Act(id, Trim(true, keep))), s.runs[id];
    History.StatementRefines(s.db, s.Log(), StatementOf(r, Trim(true, keep)).value);
    NewStoreKeepsHistory(s, s'.db);
    RowStays(s.(db := s'.db), s', id, s'.runs[id]);
  }

  lemma QuietActionKeepsRow(s: State, r: Run, a: Action)
    requires PhaseOk(s.clock, r) && CanAct(s, r, a) && StatementOf(r, a).None?
    ensures var r' := Acted(s, r, a); r'.row == r.row && (r.row.Some? ==> r'.RowOf() == r.RowOf())
  {
  }

  lemma QuietActKeepsHistory(s: State, id: RunId, a: Action)
    requires HistoryInv(s) && RunsInv(s) && Enabled(s, Act(id, a)) && StatementOf(s.runs[id], a).None?
    ensures HistoryInv(Apply(s, Act(id, a)))
  {
    var s', r := Apply(s, Act(id, a)), s.runs[id];
    QuietActionKeepsRow(s, r, a);
    RowStays(s, s', id, Acted(s, r, a));
  }

  lemma RowStays(s: State, s': State, id: RunId, r: Run)
    requires HistoryInv(s) && id in s.runs && s' == s.With(id, r)
    requires r.row == s.runs[id].row && (r.row.Some? ==> r.RowOf() == s.runs[id].RowOf())
    ensures HistoryInv(s')
  {
    HistoryFrame(s, s');
  }

  lemma ActKeepsHistory(s: State, id: RunId, a: Action)
    requires HistoryInv(s) && RunsInv(s) && Enabled(s, Act(id, a))
    ensures HistoryInv(Apply(s, Act(id, a)))
  {
    match StatementOf(s.runs[id], a)
    case None => QuietActKeepsHistory(s, id, a);
    case Some(Insert(_, _)) => InsertKeepsHistory(s, id);
    case Some(Update(_, _, _, _)) => UpdateKeepsHistory(s, id);
    case Some(Prune(_, keep)) => TrimKeepsHistory(s, id, keep);
  }

  lemma EffectKeepsHistory(s: State, s': State, e: Effect)
    requires HistoryInv(s) && HasEffect(s, s', e)
    ensures HistoryInv(s')
  {
    HistoryFrame(s, s');
  }

  lemma StepKeepsHistory(s: State, st: Step)
    requires HistoryInv(s) && RunsInv(s) && Enabled(s, st)
    ensures HistoryInv(Apply(s, st))
  {
    if st.Act? {
      ActKeepsHistory(s, st.id, st.action);
    } else {
      StepHasEffect(s, st);
      EffectKeepsHistory(s, Apply(s, st), EffectOf(s, st));
    }
  }

  // ---------- time ----------

  ghost predicate EndsBefore(a: Run, b: Run)
  {
    a.startedAt <= b.startedAt && (a.finishedAt.Some? ==> a.finishedAt.value <= b.startedAt)
  }

  ghost predicate RowBefore(a: Run, b: Run)
  {
    a.row.Some? && b.row.Some? && a.row.value.n < b.row.value.n
  }

  /** A later holder of a slot, or of a later row of it, started after the earlier one had finished. */
  ghost predicate PairOk(a: Run, b: Run)
  {
    a.slot == b.slot ==>
      && (a.phase == Done && b.Holds() && b.HasStart() ==> EndsBefore(a, b))
      && (RowBefore(a, b) ==> a.phase == Done && EndsBefore(a, b))
  }

  ghost predicate OrderInv(s: State)
  {
    forall a, b :: a in s.runs && b in s.runs ==> PairOk(s.runs[a], s.runs[b])
  }

  lemma OrderChange(s: State, s': State, id: RunId, r: Run)
    requires OrderInv(s) && s'.runs == s.runs[id := r]
    requires forall o :: o in s.runs && o != id ==> PairOk(s.runs[o], r) && PairOk(r, s.runs[o])
    ensures OrderInv(s')
  {
    assert PairOk(r, r);
  }

  /** Nothing that matters for the order changes. */
  ghost predicate SameTimes(r: Run, r': Run)
  {
    && r'.slot == r.slot && r'.row == r.row && r'.startedAt == r.startedAt
    && (r'.phase == Done <==> r.phase == Done)
    && (r'.phase == Done ==> r'.finishedAt == r.finishedAt)
    && (r'.Holds() && r'.HasStart() ==> r.Holds() && r.HasStart())
  }

  lemma SameTimesKeepsPairs(r: Run, r': Run, o: Run)
    requires SameTimes(r, r') && PairOk(o, r) && PairOk(r, o)
    ensures PairOk(o, r') && PairOk(r', o)
  {
  }

  lemma QuietChangeKeepsOrder(s: State, s': State, id: RunId, r: Run)
    requires OrderInv(s) && id in s.runs && SameTimes(s.runs[id], r) && s'.runs == s.runs[id := r]
    ensures OrderInv(s')
  {
    forall o | o in s.runs && o != id ensures PairOk(s.runs[o], r) && PairOk(r, s.runs[o]) {
      SameTimesKeepsPairs(s.runs[id], r, s.runs[o]);
    }
    OrderChange(s, s', id, r);
  }

  /** Reading the start time: every run of this slot that is done had finished by now. */
  lemma StampKeepsOrder(s: State, id: RunId)
    requires OrderInv(s) && RunsInv(s) && Enabled(s, Act(id, Stamp))
    ensures OrderInv(Apply(s, Act(id, Stamp)))
  {
    var r := Acted(s, s.runs[id], Stamp);
    assert RunOk(s.clock, s.runs[id]);
    forall o | o in s.runs && o != id ensures PairOk(s.runs[o], r) && PairOk(r, s.runs[o]) {
      assert RunOk(s.clock, s.runs[o]);
    }
    OrderChange(s, Apply(s, Act(id, Stamp)), id, r);
  }

  /** A row handed out before belongs to a run that is done, unless that run holds another slot. */
  lemma EarlierRow(s: State, id: RunId, o: RunId)
    requires RunsInv(s) && HistoryInv(s) && HoldersInv(s)
    requires id in s.runs && o in s.runs && o != id && s.runs[id].Holds() && s.runs[o].slot == s.runs[id].slot
    requires s.runs[o].row.Some?
    ensures s.runs[o].phase == Done && s.runs[o].row.value.n < NextRow(s).n
  {
    assert RowKept(s, s.runs[o]) && RunOk(s.clock, s.runs[o]);
    assert !s.runs[o].Holds();
  }

  function WithRow(s: State, r: Run): Run
  {
    r.(phase := Inserted, row := Some(NextRow(s)))
  }

  lemma PairsWithLastRow(o: Run, r: Run, row: History.RowId)
    requires PairOk(o, r) && r.phase == Stamped
    requires o.slot == r.slot && o.row.Some? ==> o.phase == Done && o.row.value.n < row.n
    ensures var r' := r.(phase := Inserted, row := Some(row)); PairOk(o, r') && PairOk(r', o)
  {
  }

  /** The new row is the last one, and only done runs of this slot have rows. */
  lemma InsertPairs(s: State, id: RunId, o: RunId)
    requires OrderInv(s) && RunsInv(s) && HistoryInv(s) && HoldersInv(s) && id in s.runs && s.runs[id].phase == Stamped
    requires o in s.runs && o != id
    ensures var r := WithRow(s, s.runs[id]); PairOk(s.runs[o], r) && PairOk(r, s.runs[o])
  {
    assert PairOk(s.runs[o], s.runs[id]);
    if s.runs[o].row.Some? && s.runs[o].slot == s.runs[id].slot {
      EarlierRow(s, id, o);
    }
    PairsWithLastRow(s.runs[o], s.runs[id], NextRow(s));
  }

  lemma InsertAddsRow(s: State, id: RunId)
    requires Enabled(s, Act(id, Insert(true)))
    ensures Apply(s, Act(id, Insert(true))).runs == s.runs[id := WithRow(s, s.runs[id])]
  {
  }

  lemma InsertKeepsOrder(s: State, s': State, id: RunId)
    requires OrderInv(s) && RunsInv(s) && HistoryInv(s) && HoldersInv(s) && id in s.runs && s.runs[id].phase == Stamped
    requires s'.runs == s.runs[id := WithRow(s, s.runs[id])]
    ensures OrderInv(s')
  {
    InsertAllPairs(s, id, WithRow(s, s.runs[id]));
    OrderChange(s, s', id, WithRow(s, s.runs[id]));
  }

  lemma InsertAllPairs(s: State, id: RunId, r: Run)
    requires OrderInv(s) && RunsInv(s) && HistoryInv(s) && HoldersInv(s) && id in s.runs && s.runs[id].phase == Stamped
    requires r == WithRow(s, s.runs[id])
    ensures forall o :: o in s.runs && o != id ==> PairOk(s.runs[o], r) && PairOk(r, s.runs[o])
  {
    forall o | o in s.runs && o != id ensures PairOk(s.runs[o], r) && PairOk(r, s.runs[o]) {
      InsertPairs(s, id, o);
    }
  }

  lemma QuietActionKeepsTimes(s: State, r: Run, a: Action)
    requires PhaseOk(s.clock, r) && CanAct(s, r, a) && a != Stamp && a != Insert(true)
    ensures SameTimes(r, Acted(s, r, a))
  {
  }

  lemma ActKeepsOrder(s: State, id: RunId, a: Action)
    requires OrderInv(s) && RunsInv(s) && HistoryInv(s) && HoldersInv(s) && Enabled(s, Act(id, a))
    ensures OrderInv(Apply(s, Act(id, a)))
  {
    if a == Stamp {
      StampKeepsOrder(s, id);
    } else if a == Insert(true) {
      InsertAddsRow(s, id);
      InsertKeepsOrder(s, Apply(s, Act(id, a)), id);
    } else {
      QuietActKeepsOrder(s, id, a);
    }
  }

  lemma QuietActKeepsOrder(s: State, id: RunId, a: Action)
    requires OrderInv(s) && RunsInv(s) && Enabled(s, Act(id, a)) && a != Stamp && a != Insert(true)
    ensures OrderInv(Apply(s, Act(id, a)))
  {
    var r := s.runs[id];
    assert RunOk(s.clock, r);
    QuietActionKeepsTimes(s, r, a);
    QuietChangeKeepsOrder(s, Apply(s, Act(id, a)), id, Acted(s, r, a));
  }

  /** The released run becomes a done one; no other run holds its slot. */
  lemma ReleaseKeepsOrder(s: State, id: RunId)
    requires OrderInv(s) && HoldersInv(s) && Enabled(s, Release(id))
    ensures OrderInv(Apply(s, Release(id)))
  {
    var r := s.runs[id].(phase := Done);
    forall o | o in s.runs && o != id ensures PairOk(s.runs[o], r) && PairOk(r, s.runs[o]) {
      assert PairOk(s.runs[o], s.runs[id]) && PairOk(s.runs[id], s.runs[o]);
      assert s.runs[o].slot == r.slot ==> !s.runs[o].Holds();
    }
    OrderChange(s, Apply(s, Release(id)), id, r);
  }

  lemma EffectKeepsOrder(s: State, s': State, e: Effect)
    requires OrderInv(s) && HasEffect(s, s', e) && (e.Moves? ==> e.to != Done)
    ensures OrderInv(s')
  {
    match e
    case Nothing =>
    case Adds(id, slot, job) => OrderChange(s, s', id, NewRun(slot, job));
    case Moves(id, to) => QuietChangeKeepsOrder(s, s', id, s.runs[id].(phase := to));
  }

  lemma StepKeepsOrder(s: State, st: Step)
    requires OrderInv(s) && RunsInv(s) && HistoryInv(s) && HoldersInv(s) && Enabled(s, st)
    ensures OrderInv(Apply(s, st))
  {
    if st.Act? {
      ActKeepsOrder(s, st.id, st.action);
    } else if st.Release? {
      ReleaseKeepsOrder(s, st.id);
    } else {
      StepHasEffect(s, st);
      EffectKeepsOrder(s, Apply(s, st), EffectOf(s, st));
    }
  }

  // ---------- the configuration ----------

  /** Every loaded entry is stored as loaded, except for its version; late names hold zero entries. */
  ghost predicate OpsInv(ops: map<string, Operation>, loaded: map<string, Operation>, late: set<string>)
  {
    && ops.Keys == loaded.Keys + late
    && forall n :: n in ops ==>
         ops[n].(currentVersion := "") == (if n in loaded then loaded[n] else ZERO_OPERATION).(currentVersion := "")
  }

  ghost predicate AppsInv(apps: map<string, App>, loaded: map<string, App>, late: set<string>)
  {
    && apps.Keys == loaded.Keys + late
    && forall n :: n in apps ==>
         apps[n].(currentVersion := "") == (if n in loaded then loaded[n] else ZERO_APP).(currentVersion := "")
  }

  ghost predicate ConfigInv(s: State)
  {
    OpsInv(s.shared.ops, s.loadedOps, s.lateOps) && AppsInv(s.shared.apps, s.loadedApps, s.lateApps)
  }

  ghost predicate SameConfig(s: State, s': State)
  {
    && s'.shared.ops == s.shared.ops && s'.shared.apps == s.shared.apps
    && s'.loadedOps == s.loadedOps && s'.loadedApps == s.loadedApps
    && s'.lateOps == s.lateOps && s'.lateApps == s.lateApps
  }

  lemma AcquireKeepsConfig(s: State, id: RunId)
    requires Enabled(s, Acquire(id))
    ensures SameConfig(s, Apply(s, Acquire(id)))
  {
  }

  lemma RegisterKeepsConfig(s: State, id: RunId)
    requires Enabled(s, Register(id))
    ensures SameConfig(s, Apply(s, Register(id)))
  {
  }

  lemma ReleaseKeepsConfig(s: State, id: RunId)
    requires Enabled(s, Release(id))
    ensures SameConfig(s, Apply(s, Release(id)))
  {
  }

  lemma ActKeepsConfig(s: State, id: RunId, a: Action)
    requires Enabled(s, Act(id, a))
    ensures SameConfig(s, Apply(s, Act(id, a)))
  {
  }

  lemma OthersKeepConfig(s: State, st: Step)
    requires Enabled(s, st) && (st.Tick? || st.LookUp? || st.LookUpApp? || st.Cancel?)
    ensures SameConfig(s, Apply(s, st))
  {
  }

  lemma StepKeepsConfig(s: State, st: Step)
    requires ConfigInv(s) && Enabled(s, st)
    ensures ConfigInv(Apply(s, st))
  {
    match st
    case Acquire(id) => AcquireKeepsConfig(s, id);
    case Register(id) => RegisterKeepsConfig(s, id);
    case Release(id) => ReleaseKeepsConfig(s, id);
    case Act(id, a) => ActKeepsConfig(s, id, a);
    case Reload(ops) => ReloadKeepsConfig(s, ops);
    case ReloadApps(apps) => ReloadAppsKeepsConfig(s, apps);
    case WriteBack(name, v) => WriteBackKeepsConfig(s, name, v);
    case WriteBackApp(name, v) => WriteBackAppKeepsConfig(s, name, v);
    case _ => OthersKeepConfig(s, st);
  }

  lemma WriteBackKeepsOps(sh: Shared, loaded: map<string, Operation>, late: set<string>, name: string, v: string)
    requires OpsInv(sh.ops, loaded, late)
    ensures OpsInv(sh.OpVersionSet(name, v).ops, loaded, late + {name})
  {
  }

  lemma WriteBackKeepsApps(sh: Shared, loaded: map<string, App>, late: set<string>, name: string, v: string)
    requires AppsInv(sh.apps, loaded, late)
    ensures AppsInv(sh.AppVersionSet(name, v).apps, loaded, late + {name})
  {
  }

  lemma WriteBackKeepsConfig(s: State, name: string, v: string)
    requires ConfigInv(s)
    ensures ConfigInv(Apply(s, WriteBack(name, v)))
  {
    WriteBackKeepsOps(s.shared, s.loadedOps, s.lateOps, name, v);
  }

  lemma WriteBackAppKeepsConfig(s: State, name: string, v: string)
    requires ConfigInv(s)
    ensures ConfigInv(Apply(s, WriteBackApp(name, v)))
  {
    WriteBackKeepsApps(s.shared, s.loadedApps, s.lateApps, name, v);
  }

  lemma ReloadKeepsConfig(s: State, ops: map<string, Operation>)
    requires ConfigInv(s)
    ensures ConfigInv(Apply(s, Reload(ops)))
  {
  }

  lemma ReloadAppsKeepsConfig(s: State, apps: map<string, App>)
    requires ConfigInv(s)
    ensures ConfigInv(Apply(s, ReloadApps(apps)))
  {
  }

  // ---------- every reachable state ----------

  /** App keys have a colon. */
  ghost predicate KeysInv(s: State)
  {
    forall id :: id in s.runs && s.runs[id].slot.kind == OfApp ==> ':' in s.runs[id].slot.key
  }

  /** What a run is for never changes, and its key is made when it is added. */
  lemma StepKeepsTargets(s: State, st: Step, id: RunId)
    requires Enabled(s, st) && id in s.runs
    ensures id in Apply(s, st).runs
    ensures Apply(s, st).runs[id].slot == s.runs[id].slot && Apply(s, st).runs[id].job == s.runs[id].job
  {
    if st.Act? {
      ActionKeepsTarget(s, s.runs[st.id], st.action);
      assert Apply(s, st).runs == s.runs[st.id := Acted(s, s.runs[st.id], st.action)];
    } else {
      StepHasEffect(s, st);
    }
  }

  lemma ActionKeepsTarget(s: State, r: Run, a: Action)
    requires CanAct(s, r, a)
    ensures Acted(s, r, a).slot == r.slot && Acted(s, r, a).job == r.job
  {
  }

  lemma StepKeepsKeys(s: State, st: Step)
    requires KeysInv(s) && Enabled(s, st)
    ensures KeysInv(Apply(s, st))
  {
    var s' := Apply(s, st);
    forall id | id in s'.runs && s'.runs[id].slot.kind == OfApp ensures ':' in s'.runs[id].slot.key {
      if id in s.runs {
        StepKeepsTargets(s, st, id);
      } else {
        NewKeyHasColon(s, st, id);
      }
    }
  }

  lemma NewKeyHasColon(s: State, st: Step, id: RunId)
    requires Enabled(s, st) && id !in s.runs && id in Apply(s, st).runs && Apply(s, st).runs[id].slot.kind == OfApp
    ensures ':' in Apply(s, st).runs[id].slot.key
  {
    if st.LookUpApp? {
      assert AppKey(st.appName, st.opName)[|st.appName|] == ':';
    } else if !st.Act? {
      StepHasEffect(s, st);
    }
  }

  // ---------- the rows of earlier processes ----------

  /** They stay in the log as they were found, and only they have ids that were handed out before the start. */
  ghost predicate InheritedInv(s: State)
  {
    && s.origin.lastId <= s.db.lastId
    && (forall id :: id in s.runs && s.runs[id].row.Some? ==> s.runs[id].row.value.n > s.origin.lastId)
    && (forall row :: row in s.origin.log ==>
          row.n <= s.origin.lastId && row in s.log && s.log[row] == s.origin.log[row])
    && (forall row :: row in s.log && row.n <= s.origin.lastId ==> row in s.origin.log)
    && (forall row :: row in s.origin.appRows ==> row in s.origin.log && ':' in s.origin.log[row].name)
  }

  /** No run has started before the process. */
  ghost predicate EpochInv(s: State)
  {
    && s.origin.clock <= s.clock
    && forall id :: id in s.runs && s.runs[id].HasStart() ==> s.origin.clock <= s.runs[id].startedAt
  }

  lemma InheritedFrame(s: State, s': State)
    requires InheritedInv(s) && s'.origin == s.origin && s.db.lastId <= s'.db.lastId
    requires forall row: History.RowId :: row.n <= s.origin.lastId ==> (row in s'.log <==> row in s.log)
    requires forall row: History.RowId :: row.n <= s.origin.lastId && row in s.log && row in s'.log ==>
      s'.log[row] == s.log[row]
    requires forall id :: id in s'.runs && s'.runs[id].row.Some? ==> s'.runs[id].row.value.n > s.origin.lastId
    ensures InheritedInv(s')
  {
  }

  lemma RowOfAction(s: State, r: Run, a: Action)
    requires CanAct(s, r, a)
    ensures Acted(s, r, a).row in {r.row, None, Some(NextRow(s))}
  {
  }

  /** A statement of a run of this process leaves the log of earlier ones alone. */
  lemma LogOfStatement(log: History.Table, lastId: nat, since: nat, st: History.Statement)
    requires since <= lastId && (st.Update? ==> st.id.n > since)
    ensures var log' := History.ApplyUnpruned(History.Store(log, lastId), st).rows;
      forall row: History.RowId :: row.n <= since ==>
        (row in log' <==> row in log) && (row in log && row in log' ==> log'[row] == log[row])
  {
  }

  lemma StateOfAction(s: State, id: RunId, a: Action)
    requires Enabled(s, Act(id, a))
    ensures var s', st := Apply(s, Act(id, a)), StatementOf(s.runs[id], a);
      && s'.origin == s.origin && s.db.lastId <= s'.db.lastId && s'.runs == s.runs[id := Acted(s, s.runs[id], a)]
      && s'.log == if st.None? then s.log else History.ApplyUnpruned(s.Log(), st.value).rows
    ensures var st := StatementOf(s.runs[id], a); st.Some? && st.value.Update? ==> s.runs[id].row == Some(st.value.id)
  {
  }

  lemma LogOfAction(s: State, id: RunId, a: Action)
    requires InheritedInv(s) && Enabled(s, Act(id, a))
    ensures var s' := Apply(s, Act(id, a));
      && s'.origin == s.origin && s.db.lastId <= s'.db.lastId && s'.runs == s.runs[id := Acted(s, s.runs[id], a)]
      && forall row: History.RowId :: row.n <= s.origin.lastId ==>
           (row in s'.log <==> row in s.log) && (row in s.log && row in s'.log ==> s'.log[row] == s.log[row])
  {
    StateOfAction(s, id, a);
    match StatementOf(s.runs[id], a)
    case None =>
    case Some(st) => LogOfStatement(s.log, s.db.lastId, s.origin.lastId, st);
  }

  lemma StepKeepsInherited(s: State, st: Step)
    requires InheritedInv(s) && Enabled(s, st)
    ensures InheritedInv(Apply(s, st))
  {
    if st.Act? {
      RowOfAction(s, s.runs[st.id], st.action);
      LogOfAction(s, st.id, st.action);
    } else {
      StepHasEffect(s, st);
    }
    InheritedFrame(s, Apply(s, st));
  }

  lemma ActionKeepsEpoch(s: State, r: Run, a: Action)
    requires CanAct(s, r, a) && s.origin.clock <= s.clock && (r.HasStart() ==> s.origin.clock <= r.startedAt)
    ensures Acted(s, r, a).HasStart() ==> s.origin.clock <= Acted(s, r, a).startedAt
  {
  }

  lemma StepKeepsEpoch(s: State, st: Step)
    requires EpochInv(s) && InheritedInv(s) && Enabled(s, st)
    ensures EpochInv(Apply(s, st))
  {
    if st.Act? {
      ActionKeepsEpoch(s, s.runs[st.id], st.action);
      LogOfAction(s, st.id, st.action);
      assert Apply(s, st).clock == s.clock;
    } else {
      StepHasEffect(s, st);
    }
  }

  ghost predicate Inv(s: State)
  {
    && SlotsInv(s) && RunsInv(s) && HistoryInv(s) && OrderInv(s) && ConfigInv(s) && KeysInv(s)
    && InheritedInv(s) && EpochInv(s)
  }

  lemma StepKeepsInv(s: State, st: Step)
    requires Inv(s) && Enabled(s, st)
    ensures Inv(Apply(s, st))
  {
    StepKeepsSlots(s, st);
    StepKeepsRuns(s, st);
    StepKeepsHistory(s, st);
    StepKeepsOrder(s, st);
    StepKeepsConfig(s, st);
    StepKeepsKeys(s, st);
    StepKeepsInherited(s, st);
    StepKeepsEpoch(s, st);
  }

  /** A run of the whole system: `steps[k]` leads from `states[k]` to `states[k + 1]`. */
  ghost predicate IsBehavior(states: seq<State>, steps: seq<Step>)
  {
    && |states| == |steps| + 1
    && states[0] == Initial(states[0].origin, states[0].db.rows, states[0].loadedOps, states[0].loadedApps)
    && CanStart(states[0].origin, states[0].db.rows)
    && forall k :: 0 <= k < |steps| ==> Enabled(states[k], steps[k]) && states[k + 1] == Apply(states[k], steps[k])
  }

  /** The invariants hold in every state of every behaviour. */
  lemma {:induction false} Reachable(states: seq<State>, steps: seq<Step>, k: nat)
    requires IsBehavior(states, steps) && k <= |steps|
    ensures Inv(states[k])
  {
    if k > 0 {
      Reachable(states, steps, k - 1);
      StepKeepsInv(states[k - 1], steps[k - 1]);
    }
  }

  // ---------- what users of the runner can rely on ----------

  /**
   * In every reachable state: a cancel request succeeds exactly while the run holding the slot is
   * registered, and then it cancels that run and changes nothing else. It is refused for a run that has
   * just taken its slot.
   */
  lemma CancelHitsTheHolder(states: seq<State>, steps: seq<Step>, k: nat, slot: Slot, id: RunId)
    requires IsBehavior(states, steps) && k <= |steps|
    requires id in states[k].runs && states[k].runs[id].slot == slot && states[k].runs[id].Holds()
    ensures states[k].shared.IsActive(slot)
    ensures states[k].shared.CancelOf(slot) == if states[k].runs[id].Cancellable() then Some(id) else None
    ensures Apply(states[k], Cancel(slot)) ==
      if states[k].runs[id].Cancellable() then states[k].(cancelled := states[k].cancelled + {id}) else states[k]
  {
    ReachableSlots(states, steps, k);
    HolderCancel(states[k], slot, id);
    CancelOutcome(states[k], slot);
  }

  lemma ReachableSlots(states: seq<State>, steps: seq<Step>, k: nat)
    requires IsBehavior(states, steps) && k <= |steps|
    ensures SlotsInv(states[k])
  {
    Reachable(states, steps, k);
  }

  lemma CancelOutcome(s: State, slot: Slot)
    ensures Apply(s, Cancel(slot)) ==
      if s.shared.CancelOf(slot).Some? then s.(cancelled := s.cancelled + {s.shared.CancelOf(slot).value}) else s
  {
  }

  lemma HolderCancel(s: State, slot: Slot, id: RunId)
    requires SlotsInv(s) && id in s.runs && s.runs[id].slot == slot && s.runs[id].Holds()
    ensures s.shared.IsActive(slot)
    ensures s.shared.CancelOf(slot) == if s.runs[id].Cancellable() then Some(id) else None
  {
    OwnCancel(s, slot);
  }

  lemma OwnCancel(s: State, slot: Slot)
    requires SlotsInv(s)
    ensures CancelIsOwn(s, slot, s.shared.CancelOf(slot))
  {
  }

  lemma CancelOfFreeSlot(states: seq<State>, steps: seq<Step>, k: nat, slot: Slot)
    requires IsBehavior(states, steps) && k <= |steps| && !states[k].shared.IsActive(slot)
    ensures states[k].shared.CancelOf(slot) == None && Apply(states[k], Cancel(slot)) == states[k]
  {
    ReachableSlots(states, steps, k);
    OwnCancel(states[k], slot);
    CancelOutcome(states[k], slot);
  }

  lemma OnlyCancelCancels(s: State, st: Step)
    requires Enabled(s, st) && !st.Cancel?
    ensures Apply(s, st).cancelled == s.cancelled
  {
  }

  /** A run is cancelled only by a request for its slot made while it was registered, never by an earlier one. */
  lemma CancelledByOwnRequest(states: seq<State>, steps: seq<Step>, k: nat, id: RunId)
    requires IsBehavior(states, steps) && k < |steps|
    requires id !in states[k].cancelled && id in states[k + 1].cancelled
    ensures id in states[k].runs && states[k].runs[id].Cancellable() && steps[k] == Cancel(states[k].runs[id].slot)
  {
    if steps[k].Cancel? {
      Reachable(states, steps, k);
      OwnCancel(states[k], steps[k].slot);
    } else {
      OnlyCancelCancels(states[k], steps[k]);
    }
  }

  /** Every statement that finalises or inserts succeeds. */
  predicate WritesSucceed(st: Step)
  {
    !(st.Act? && st.action in {Insert(false), Update(false)})
  }

  ghost predicate SavedInv(s: State)
  {
    forall id :: id in s.runs ==> Saves(s.runs[id])
  }

  ghost predicate Saves(r: Run)
  {
    && (r.phase !in {LookedUp, Refused, Holding, Stamped} ==> r.row.Some?)
    && (r.phase in {Saved, Trimmed} || (r.phase == Done && r.executed.Some?) ==> r.updated)
  }

  lemma ActionKeepsSaves(s: State, r: Run, a: Action)
    requires Saves(r) && PhaseOk(s.clock, r) && CanAct(s, r, a) && a !in {Insert(false), Update(false)}
    ensures Saves(Acted(s, r, a))
  {
  }

  lemma MoveKeepsSaves(clock: int, r: Run, to: Phase)
    requires Saves(r) && PhaseOk(clock, r) && CanMove(r.phase, to)
    ensures Saves(r.(phase := to))
  {
  }

  lemma ActKeepsSaved(s: State, id: RunId, a: Action)
    requires SavedInv(s) && RunsInv(s) && Enabled(s, Act(id, a)) && WritesSucceed(Act(id, a))
    ensures SavedInv(Apply(s, Act(id, a)))
  {
    assert RunOk(s.clock, s.runs[id]);
    ActionKeepsSaves(s, s.runs[id], a);
    assert Apply(s, Act(id, a)).runs == s.runs[id := Acted(s, s.runs[id], a)];
  }

  lemma EffectKeepsSaved(s: State, s': State, e: Effect)
    requires SavedInv(s) && RunsInv(s) && HasEffect(s, s', e)
    ensures SavedInv(s')
  {
    if e.Moves? {
      assert RunOk(s.clock, s.runs[e.id]);
      MoveKeepsSaves(s.clock, s.runs[e.id], e.to);
    }
  }

  lemma StepKeepsSaved(s: State, st: Step)
    requires SavedInv(s) && RunsInv(s) && Enabled(s, st) && WritesSucceed(st)
    ensures SavedInv(Apply(s, st))
  {
    if st.Act? {
      ActKeepsSaved(s, st.id, st.action);
    } else {
      StepHasEffect(s, st);
      EffectKeepsSaved(s, Apply(s, st), EffectOf(s, st));
    }
  }

  lemma {:induction false} ReachableSaved(states: seq<State>, steps: seq<Step>, k: nat)
    requires IsBehavior(states, steps) && k <= |steps|
    requires forall i :: 0 <= i < k ==> WritesSucceed(steps[i])
    ensures SavedInv(states[k])
  {
    if k > 0 {
      ReachableSaved(states, steps, k - 1);
      Reachable(states, steps, k - 1);
      StepKeepsSaved(states[k - 1], steps[k - 1]);
    }
  }

  /** The finalised row of a run: its own exit code, times and output, under its own name. */
  ghost predicate FinalRow(row: History.Row, r: Run)
  {
    && row == History.Row(r.slot.key, r.startedAt, r.finishedAt, Some(r.exitCode), Some(r.captured))
    && r.finishedAt.Some? && r.startedAt <= r.finishedAt.value
    && Output.IsMerge(r.lines, r.stdout, r.stderr)
    && Output.IsStored(r.lines, 65536, r.captured) && |r.captured| < 65536 + 15
  }

  /**
   * While history writes succeed: whenever a slot is free, every command that was started in it has a
   * row of its own in the log with its exit code and its stored output; and if the row has not been
   * pruned, that is what the table holds.
   */
  lemma FreeSlotHistory(states: seq<State>, steps: seq<Step>, k: nat, id: RunId)
    requires IsBehavior(states, steps) && k <= |steps| && forall i :: 0 <= i < k ==> WritesSucceed(steps[i])
    requires id in states[k].runs && states[k].runs[id].executed.Some?
    requires !states[k].shared.IsActive(states[k].runs[id].slot)
    ensures states[k].runs[id].phase == Done && states[k].runs[id].updated
    ensures HasFinalRow(states[k], states[k].runs[id])
  {
    Reachable(states, steps, k);
    ReachableSaved(states, steps, k);
    DoneRunHasFinalRow(states[k], id);
  }

  ghost predicate HasFinalRow(s: State, r: Run)
  {
    && r.row.Some? && r.row.value in s.log && FinalRow(s.log[r.row.value], r)
    && (r.row.value in s.db.rows ==> s.db.rows[r.row.value] == s.log[r.row.value])
  }

  lemma DoneRunHasFinalRow(s: State, id: RunId)
    requires RunsInv(s) && HistoryInv(s) && HoldersInv(s) && SavedInv(s) && id in s.runs && s.runs[id].executed.Some?
    requires !s.shared.IsActive(s.runs[id].slot)
    ensures s.runs[id].phase == Done && s.runs[id].updated && HasFinalRow(s, s.runs[id])
  {
    var r := s.runs[id];
    assert RunOk(s.clock, r) && Saves(r) && RowKept(s, r);
    assert !r.Holds();
    FinishedRunHasFinalRow(s.clock, r);
  }

  lemma FinishedRunHasFinalRow(clock: int, r: Run)
    requires RunOk(clock, r) && r.updated
    ensures FinalRow(r.RowOf(), r)
  {
    assert r.stdout[..r.outDone] == r.stdout && r.stderr[..r.errDone] == r.stderr;
    Output.StoredOutput(r.lines, Output.MAX_STORED);
    Output.StoredSize(r.lines, Output.MAX_STORED, r.captured);
  }

  /** The first row starts first, and finishes, if it does, before the second starts. */
  ghost predicate InOrder(x: History.Row, y: History.Row)
  {
    x.startedAt <= y.startedAt && (x.finishedAt.Some? ==> x.startedAt <= x.finishedAt.value <= y.startedAt)
  }

  /** Runs of one slot never overlap in the log, and their rows are in the order of their intervals. */
  lemma IntervalsDoNotOverlap(states: seq<State>, steps: seq<Step>, k: nat, a: RunId, b: RunId)
    requires IsBehavior(states, steps) && k <= |steps| && a in states[k].runs && b in states[k].runs
    requires states[k].runs[a].slot == states[k].runs[b].slot && RowBefore(states[k].runs[a], states[k].runs[b])
    ensures var x, y := states[k].runs[a].row.value, states[k].runs[b].row.value;
      x in states[k].log && y in states[k].log && InOrder(states[k].log[x], states[k].log[y])
  {
    Reachable(states, steps, k);
    RowsInOrder(states[k], a, b);
  }

  lemma RowsInOrder(s: State, a: RunId, b: RunId)
    requires RunsInv(s) && HistoryInv(s) && OrderInv(s)
    requires a in s.runs && b in s.runs && s.runs[a].slot == s.runs[b].slot
    requires RowBefore(s.runs[a], s.runs[b])
    ensures var x, y := s.runs[a].row.value, s.runs[b].row.value;
      x in s.log && y in s.log && InOrder(s.log[x], s.log[y])
  {
    assert RowKept(s, s.runs[a]) && RowKept(s, s.runs[b]) && PairOk(s.runs[a], s.runs[b]);
    assert RunOk(s.clock, s.runs[a]);
  }

  /**
   * No legacy operation that has a row, from this process or an earlier one, has a colon in its name, as
   * every app key does.
   */
  ghost predicate LegacyNamesAreColonFree(s: State)
  {
    && (forall id :: id in s.runs && s.runs[id].row.Some? && s.runs[id].slot.kind == Legacy ==>
          ':' !in s.runs[id].slot.key)
    && (forall row :: row in s.origin.log && row !in s.origin.appRows ==> ':' !in s.origin.log[row].name)
  }

  /**
   * What the history found at the start must be: in order for each name, and over by the time of the
   * start, or never.
   */
  ghost predicate EarlierRowsAreOrdered(o: Origin)
  {
    && (forall x :: x in o.log ==> RowIsPast(o.log[x], o.clock))
    && (forall x, y :: x in o.log && y in o.log && o.log[x].name == o.log[y].name && x.n < y.n ==>
          InOrder(o.log[x], o.log[y]))
  }

  ghost predicate RowIsPast(row: History.Row, clock: int)
  {
    row.startedAt <= clock && (row.finishedAt.Some? ==> row.startedAt <= row.finishedAt.value <= clock)
  }

  /** Then the rows of one name in the log, whoever wrote them and when, are intervals in the order of their ids. */
  lemma RowsOfOneNameAreOrdered(states: seq<State>, steps: seq<Step>, k: nat, x: History.RowId, y: History.RowId)
    requires IsBehavior(states, steps) && k <= |steps| && LegacyNamesAreColonFree(states[k])
    requires EarlierRowsAreOrdered(states[k].origin)
    requires x in states[k].log && y in states[k].log && states[k].log[x].name == states[k].log[y].name && x.n < y.n
    ensures InOrder(states[k].log[x], states[k].log[y])
  {
    Reachable(states, steps, k);
    AllRowsInOrder(states[k], x, y);
  }

  lemma AllRowsInOrder(s: State, x: History.RowId, y: History.RowId)
    requires RunsInv(s) && HistoryInv(s) && OrderInv(s) && KeysInv(s) && InheritedInv(s) && EpochInv(s)
    requires LegacyNamesAreColonFree(s) && EarlierRowsAreOrdered(s.origin)
    requires x in s.log && y in s.log && s.log[x].name == s.log[y].name && x.n < y.n
    ensures InOrder(s.log[x], s.log[y])
  {
    if x.n > s.origin.lastId {
      NamesInOrder(s, x, y);
    } else if y.n > s.origin.lastId {
      assert RowIsPast(s.origin.log[x], s.origin.clock);
      NewRowIsLater(s, y);
    }
  }

  lemma NewRowIsLater(s: State, y: History.RowId)
    requires RunsInv(s) && HistoryInv(s) && EpochInv(s) && y in s.log && y.n > s.origin.lastId
    ensures RowIsPast(s.log[y], s.clock) && s.origin.clock <= s.log[y].startedAt
  {
    assert Owned(s, y);
    var b :| b in s.runs && s.runs[b].row == Some(y);
    assert RowKept(s, s.runs[b]) && RunOk(s.clock, s.runs[b]);
  }

  lemma NamesInOrder(s: State, x: History.RowId, y: History.RowId)
    requires RunsInv(s) && HistoryInv(s) && OrderInv(s) && KeysInv(s) && LegacyNamesAreColonFree(s)
    requires x in s.log && y in s.log && s.log[x].name == s.log[y].name && s.origin.lastId < x.n < y.n
    ensures InOrder(s.log[x], s.log[y])
  {
    assert Owned(s, x) && Owned(s, y);
    var a :| a in s.runs && s.runs[a].row == Some(x);
    var b :| b in s.runs && s.runs[b].row == Some(y);
    RowSlot(s, a);
    RowSlot(s, b);
    RowsInOrder(s, a, b);
  }

  /** The rows of app runs of this process and of earlier ones. */
  function AppRows(s: State): set<History.RowId>
  {
    s.origin.appRows
    + set id | id in s.runs && s.runs[id].slot.kind == OfApp && s.runs[id].row.Some? :: s.runs[id].row.value
  }

  /** What a process leaves behind when it ends at any point, the next one can start with, and the order goes on. */
  lemma RestartKeepsOrder(states: seq<State>, steps: seq<Step>, k: nat, clock: int)
    requires IsBehavior(states, steps) && k <= |steps| && states[k].clock <= clock
    requires LegacyNamesAreColonFree(states[k]) && EarlierRowsAreOrdered(states[k].origin)
    ensures var s := states[k];
      var next := Origin(clock, s.db.lastId, s.log, AppRows(s));
      CanStart(next, s.db.rows) && EarlierRowsAreOrdered(next)
  {
    Reachable(states, steps, k);
    var s := states[k];
    AppRowsHaveColons(s);
    forall x | x in s.log ensures RowIsPast(s.log[x], clock) {
      if x.n > s.origin.lastId {
        NewRowIsLater(s, x);
      } else {
        assert RowIsPast(s.origin.log[x], s.origin.clock);
      }
    }
    forall x, y | x in s.log && y in s.log && s.log[x].name == s.log[y].name && x.n < y.n
      ensures InOrder(s.log[x], s.log[y])
    {
      AllRowsInOrder(s, x, y);
    }
  }

  lemma AppRowsHaveColons(s: State)
    requires HistoryInv(s) && KeysInv(s) && InheritedInv(s)
    ensures forall row :: row in AppRows(s) ==> row in s.log && ':' in s.log[row].name
  {
    forall row | row in AppRows(s) ensures row in s.log && ':' in s.log[row].name {
      if row !in s.origin.appRows {
        var id :| id in s.runs && s.runs[id].slot.kind == OfApp && s.runs[id].row == Some(row);
        assert RowKept(s, s.runs[id]);
      }
    }
  }

  lemma RowSlot(s: State, id: RunId)
    requires HistoryInv(s) && KeysInv(s) && LegacyNamesAreColonFree(s) && id in s.runs && s.runs[id].row.Some?
    ensures var row := s.runs[id].row.value;
      row in s.log && s.runs[id].slot == Slot(if ':' in s.log[row].name then OfApp else Legacy, s.log[row].name)
  {
    assert RowKept(s, s.runs[id]);
  }

  /**
   * The app history ranks exactly the rows of app runs, those of earlier processes included, if and only
   * if no legacy operation that has a row carries a colon in its name.
   */
  lemma AppHistoryIsAppRuns(states: seq<State>, steps: seq<Step>, k: nat)
    requires IsBehavior(states, steps) && k <= |steps|
    ensures History.Ids(states[k].log, History.AppNames) == AppRows(states[k]) <==> LegacyNamesAreColonFree(states[k])
  {
    Reachable(states, steps, k);
    AppRowsHaveColons(states[k]);
    if LegacyNamesAreColonFree(states[k]) {
      ColonRowsAreAppRows(states[k]);
    }
    if History.Ids(states[k].log, History.AppNames) == AppRows(states[k]) {
      AppRowsOnly(states[k]);
    }
  }

  lemma ColonRowsAreAppRows(s: State)
    requires HistoryInv(s) && KeysInv(s) && InheritedInv(s) && LegacyNamesAreColonFree(s)
    requires forall row :: row in AppRows(s) ==> row in s.log && ':' in s.log[row].name
    ensures History.Ids(s.log, History.AppNames) == AppRows(s)
  {
    forall row | row in History.Ids(s.log, History.AppNames) ensures row in AppRows(s) {
      if row.n > s.origin.lastId {
        assert Owned(s, row);
        var id :| id in s.runs && s.runs[id].row == Some(row);
        assert RowKept(s, s.runs[id]);
      }
    }
  }

  lemma AppRowsOnly(s: State)
    requires HistoryInv(s) && InheritedInv(s) && History.Ids(s.log, History.AppNames) == AppRows(s)
    ensures LegacyNamesAreColonFree(s)
  {
    forall id | id in s.runs && s.runs[id].row.Some? && s.runs[id].slot.kind == Legacy
      ensures ':' !in s.runs[id].slot.key
    {
      assert RowKept(s, s.runs[id]);
      LegacyRowIsNoAppRow(s, id);
    }
    forall row | row in s.origin.log && row !in s.origin.appRows ensures ':' !in s.origin.log[row].name {
      EarlierRowIsNoAppRow(s, row);
    }
  }

  lemma LegacyRowIsNoAppRow(s: State, id: RunId)
    requires HistoryInv(s) && InheritedInv(s) && id in s.runs && s.runs[id].row.Some? && s.runs[id].slot.kind == Legacy
    ensures s.runs[id].row.value !in AppRows(s)
  {
    forall o | o in s.runs && s.runs[o].slot.kind == OfApp && s.runs[o].row.Some?
      ensures s.runs[o].row.value != s.runs[id].row.value
    {
    }
    assert forall row :: row in s.origin.appRows ==> row.n <= s.origin.lastId;
  }

  lemma EarlierRowIsNoAppRow(s: State, row: History.RowId)
    requires InheritedInv(s) && row in s.origin.log && row !in s.origin.appRows
    ensures row !in AppRows(s)
  {
    forall o | o in s.runs && s.runs[o].slot.kind == OfApp && s.runs[o].row.Some? ensures s.runs[o].row.value != row {
    }
  }

  // ---------- when listings fail ----------

  /** The statement that finalises the row has been left behind without effect. */
  predicate UpdateFailed(r: Run)
  {
    r.phase in {Saved, Trimmed, Done} && r.executed.Some? && !r.updated
  }

  /** Between the insert and the update; or the command never started, which ends the run; or the update failed. */
  predicate LacksOutput(r: Run)
  {
    || r.phase in {Inserted, Registered, Started, Exited, Finished}
    || (r.phase in {Aborted, Done} && r.executed.None?)
    || UpdateFailed(r)
  }

  ghost predicate OutputMissing(s: State, row: History.RowId)
  {
    || (exists id :: id in s.runs && s.runs[id].row == Some(row) && LacksOutput(s.runs[id]))
    || (row in s.origin.log && s.origin.log[row].output.None?)
  }

  /**
   * The rows without output are exactly those of runs between insert and update, those of runs whose
   * command never started or whose update failed, which stay so for good, and those found so.
   */
  lemma RowsWithoutOutput(states: seq<State>, steps: seq<Step>, k: nat, row: History.RowId)
    requires IsBehavior(states, steps) && k <= |steps| && row in states[k].log
    ensures states[k].log[row].output.None? <==> OutputMissing(states[k], row)
  {
    Reachable(states, steps, k);
    OutputOfRow(states[k], row);
  }

  /** An update fails only with its statement. */
  lemma UpdatesDoNotFail(states: seq<State>, steps: seq<Step>, k: nat, id: RunId)
    requires IsBehavior(states, steps) && k <= |steps| && forall i :: 0 <= i < k ==> WritesSucceed(steps[i])
    requires id in states[k].runs
    ensures !UpdateFailed(states[k].runs[id])
  {
    ReachableSaved(states, steps, k);
    assert Saves(states[k].runs[id]);
  }

  /** A run that is over and has left its row without output never gets one. */
  lemma DoneRunsStayDone(s: State, st: Step, id: RunId)
    requires Enabled(s, st) && id in s.runs && s.runs[id].phase == Done
    ensures id in Apply(s, st).runs && Apply(s, st).runs[id] == s.runs[id]
  {
    if !st.Act? {
      StepHasEffect(s, st);
    }
  }

  lemma OutputOfRow(s: State, row: History.RowId)
    requires RunsInv(s) && HistoryInv(s) && InheritedInv(s) && row in s.log
    ensures s.log[row].output.None? <==> OutputMissing(s, row)
  {
    if row.n > s.origin.lastId {
      assert Owned(s, row);
      var id :| id in s.runs && s.runs[id].row == Some(row);
      assert RowKept(s, s.runs[id]) && RunOk(s.clock, s.runs[id]);
      RowOfRun(s.clock, s.runs[id]);
    }
  }

  lemma RowOfRun(clock: int, r: Run)
    requires PhaseOk(clock, r) && r.row.Some?
    ensures r.RowOf().output.None? <==> LacksOutput(r)
  {
  }

  /** Row `x` is in the table without an output, and fewer than `n` of the listed rows are newer. */
  ghost predicate Spoils(s: State, f: History.Filter, n: nat, x: History.RowId)
  {
    && x in History.Ids(s.db.rows, f) && OutputMissing(s, x)
    && |Availability.Newer(s.db.rows, f, x)| < n
  }

  ghost predicate SpoilsAll(s: State, f: History.Filter, n: nat, x: History.RowId)
  {
    && x in History.Ids(s.db.rows, f) && OutputMissing(s, x)
    && |Availability.Newer(s.db.rows, f, x)| + |Availability.GoodTies(s.db.rows, f, x)| < n
  }

  /**
   * In every reachable state a listing of `n` rows can fail exactly if such a row has fewer than `n`
   * newer ones, and fails for sure exactly if the good rows of its second do not fill it either.
   */
  lemma ListingFailsIff(states: seq<State>, steps: seq<Step>, k: nat, f: History.Filter, n: nat)
    requires IsBehavior(states, steps) && k <= |steps|
    ensures History.IsAnswer(states[k].db.rows, f, n, None) <==> exists x :: Spoils(states[k], f, n, x)
    ensures (forall r :: History.IsAnswer(states[k].db.rows, f, n, r) ==> r.None?)
      <==> exists x :: SpoilsAll(states[k], f, n, x)
  {
    var s := states[k];
    forall x ensures Spoils(s, f, n, x) <==> Availability.MaySpoil(s.db.rows, f, n, x)
      ensures SpoilsAll(s, f, n, x) <==> Availability.MustSpoil(s.db.rows, f, n, x)
    {
      if x in s.db.rows {
        RowInTable(states, steps, k, x);
      }
    }
    Availability.SomeAnswerFailsIff(s.db.rows, f, n);
    Availability.EveryAnswerFailsIff(s.db.rows, f, n);
  }

  /** A listing does fail: a run on an empty history has just inserted its row. */
  lemma StartingRunHidesHistory(name: string, op: Operation, n: nat) returns (states: seq<State>, steps: seq<Step>)
    requires n > 0
    ensures IsBehavior(states, steps) && |steps| == 4
    ensures forall r :: History.IsAnswer(states[4].db.rows, History.ByName(name), n, r) ==> r.None?
  {
    var s0, s1, s2 := FirstRun(name, op);
    var s3, s4 := RowIsInserted(s2, RunId(0), name);
    steps := [LookUp(RunId(0), name), Acquire(RunId(0)), Act(RunId(0), Stamp), Act(RunId(0), Insert(true))];
    states := [s0, s1, s2, s3, s4];
    FourSteps(states, steps);
    OnlyRowSpoils(s4.db.rows, name, n, History.RowId(1));
  }

  lemma FourSteps(states: seq<State>, steps: seq<Step>)
    requires |states| == 5 && |steps| == 4 && CanStart(states[0].origin, states[0].db.rows)
    requires states[0] == Initial(states[0].origin, states[0].db.rows, states[0].loadedOps, states[0].loadedApps)
    requires Enabled(states[0], steps[0]) && states[1] == Apply(states[0], steps[0])
    requires Enabled(states[1], steps[1]) && states[2] == Apply(states[1], steps[1])
    requires Enabled(states[2], steps[2]) && states[3] == Apply(states[2], steps[2])
    requires Enabled(states[3], steps[3]) && states[4] == Apply(states[3], steps[3])
    ensures IsBehavior(states, steps)
  {
    forall k | 0 <= k < 4 ensures Enabled(states[k], steps[k]) && states[k + 1] == Apply(states[k], steps[k]) {
      assert k == 0 || k == 1 || k == 2 || k == 3;
    }
  }

  lemma FirstRun(name: string, op: Operation) returns (s0: State, s1: State, s2: State)
    ensures s0 == Initial(s0.origin, map[], map[name := op], map[]) && CanStart(s0.origin, map[])
    ensures Enabled(s0, LookUp(RunId(0), name)) && s1 == Apply(s0, LookUp(RunId(0), name))
    ensures Enabled(s1, Acquire(RunId(0))) && s2 == Apply(s1, Acquire(RunId(0)))
    ensures At(s2, RunId(0), Holding) && s2.runs[RunId(0)].slot.key == name && s2.db == History.EMPTY
  {
    s0 := Initial(Origin(0, 0, map[], {}), map[], map[name := op], map[]);
    s1 := Apply(s0, LookUp(RunId(0), name));
    s2 := Apply(s1, Acquire(RunId(0)));
  }

  lemma RowIsInserted(s2: State, id: RunId, name: string) returns (s3: State, s4: State)
    requires At(s2, id, Holding) && s2.runs[id].slot.key == name && s2.db == History.EMPTY
    ensures Enabled(s2, Act(id, Stamp)) && s3 == Apply(s2, Act(id, Stamp))
    ensures Enabled(s3, Act(id, Insert(true))) && s4 == Apply(s3, Act(id, Insert(true)))
    ensures s4.db.rows == History.Inserted(map[], History.RowId(1), name, s2.clock)
  {
    s3 := Apply(s2, Act(id, Stamp));
    s4 := Apply(s3, Act(id, Insert(true)));
  }

  lemma OnlyRowSpoils(t: History.Table, name: string, n: nat, x: History.RowId)
    requires t.Keys == {x} && t[x].name == name && t[x].output.None? && n > 0
    ensures forall r :: History.IsAnswer(t, History.ByName(name), n, r) ==> r.None?
  {
    assert Availability.Newer(t, History.ByName(name), x) == {};
    assert Availability.GoodTies(t, History.ByName(name), x) == {};
    assert Availability.MustSpoil(t, History.ByName(name), n, x);
    Availability.EveryAnswerFailsIff(t, History.ByName(name), n);
  }

  lemma RowInTable(states: seq<State>, steps: seq<Step>, k: nat, x: History.RowId)
    requires IsBehavior(states, steps) && k <= |steps| && x in states[k].db.rows
    ensures states[k].db.rows[x].output.None? <==> OutputMissing(states[k], x)
  {
    Reachable(states, steps, k);
    assert x in states[k].log && states[k].log[x] == states[k].db.rows[x];
    RowsWithoutOutput(states, steps, k, x);
  }

  /** A reload decides what can be run, except that a late write-back revives a name as an empty operation. */
  lemma KnownOperations(states: seq<State>, steps: seq<Step>, k: nat, name: string)
    requires IsBehavior(states, steps) && k <= |steps|
    ensures var s := states[k];
      var job := s.shared.FindOp(name);
      && (job.Some? <==> name in s.loadedOps || name in s.lateOps)
      && (name in s.loadedOps ==>
           var op := s.loadedOps[name];
           IsConfigured(job.value, op.command, op.workingDir, op.timeout, op.persistent))
      && (job.Some? && name !in s.loadedOps ==> job.value == Job("", "/", 300_000_000_000, false))
  {
    Reachable(states, steps, k);
    KnownNow(states[k], name);
    if name in states[k].loadedOps {
      var op := states[k].loadedOps[name];
      JobIsConfigured(op.command, op.workingDir, op.timeout, op.persistent);
    }
  }

  lemma KnownNow(s: State, name: string)
    requires ConfigInv(s)
    ensures s.shared.FindOp(name).Some? <==> name in s.loadedOps || name in s.lateOps
    ensures name in s.loadedOps ==> s.shared.FindOp(name) == Some(JobOf(s.loadedOps[name]))
    ensures name in s.lateOps && name !in s.loadedOps ==> s.shared.FindOp(name) == Some(JobOf(ZERO_OPERATION))
  {
    assert OpsInv(s.shared.ops, s.loadedOps, s.lateOps);
    if name in s.shared.ops {
      VersionIsNotInJob(s.shared.ops[name], if name in s.loadedOps then s.loadedOps[name] else ZERO_OPERATION);
    }
  }

  /** Every loaded operation is stored as it was loaded, and any other one is empty, but for their versions. */
  lemma LoadedOperationsAreKept(states: seq<State>, steps: seq<Step>, k: nat, name: string)
    requires IsBehavior(states, steps) && k <= |steps|
    ensures var s := states[k];
      && (name in s.shared.ops <==> name in s.loadedOps || name in s.lateOps)
      && (name in s.shared.ops ==>
            s.shared.ops[name] == (if name in s.loadedOps then s.loadedOps[name] else ZERO_OPERATION)
                                  .(currentVersion := s.shared.ops[name].currentVersion))
  {
    Reachable(states, steps, k);
    assert OpsInv(states[k].shared.ops, states[k].loadedOps, states[k].lateOps);
  }

  lemma LoadedAppsAreKept(states: seq<State>, steps: seq<Step>, k: nat, name: string)
    requires IsBehavior(states, steps) && k <= |steps|
    ensures var s := states[k];
      && (name in s.shared.apps <==> name in s.loadedApps || name in s.lateApps)
      && (name in s.shared.apps ==>
            s.shared.apps[name] == (if name in s.loadedApps then s.loadedApps[name] else ZERO_APP)
                                   .(currentVersion := s.shared.apps[name].currentVersion))
  {
    Reachable(states, steps, k);
    assert AppsInv(states[k].shared.apps, states[k].loadedApps, states[k].lateApps);
  }

  lemma VersionIsNotInJob(a: Operation, b: Operation)
    requires a.(currentVersion := "") == b.(currentVersion := "")
    ensures JobOf(a) == JobOf(b)
  {
    assert JobOf(a) == JobOf(a.(currentVersion := "")) && JobOf(b) == JobOf(b.(currentVersion := ""));
  }

  /** For apps a late write-back revives no operation: what can be run is what was loaded. */
  lemma KnownAppOperations(states: seq<State>, steps: seq<Step>, k: nat, appName: string, opName: string)
    requires IsBehavior(states, steps) && k <= |steps|
    ensures var s := states[k];
      var job := s.shared.FindAppOp(appName, opName);
      && (job.Some? <==> appName in s.loadedApps && opName in s.loadedApps[appName].operations)
      && (job.Some? ==>
           var op := s.loadedApps[appName].operations[opName];
           IsConfigured(job.value, op.command, op.workingDir, op.timeout, op.persistent))
  {
    var s := states[k];
    Reachable(states, steps, k);
    if appName in s.shared.apps {
      SameOperations(s, appName);
    }
    if appName in s.loadedApps && opName in s.loadedApps[appName].operations {
      var op := s.loadedApps[appName].operations[opName];
      JobIsConfigured(op.command, op.workingDir, op.timeout, op.persistent);
    }
  }

  lemma SameOperations(s: State, appName: string)
    requires ConfigInv(s) && appName in s.shared.apps
    ensures s.shared.apps[appName].operations
         == if appName in s.loadedApps then s.loadedApps[appName].operations else map[]
  {
    var app := s.shared.apps[appName];
    var src := if appName in s.loadedApps then s.loadedApps[appName] else ZERO_APP;
    assert app.(currentVersion := "").operations == src.(currentVersion := "").operations;
  }

  /** Whatever is reloaded meanwhile, a command that was started is the job its run looked up. */
  lemma ExecutesWhatItLookedUp(states: seq<State>, steps: seq<Step>, j: nat, k: nat, id: RunId)
    requires IsBehavior(states, steps) && j <= k <= |steps| && id in states[j].runs
    ensures id in states[k].runs && states[k].runs[id].job == states[j].runs[id].job
    ensures states[k].runs[id].executed.Some? ==> states[k].runs[id].executed == Some(states[j].runs[id].job)
  {
    for i := j to k
      invariant id in states[i].runs && states[i].runs[id].job == states[j].runs[id].job
    {
      StepKeepsTargets(states[i], steps[i], id);
    }
    Reachable(states, steps, k);
    assert RunOk(states[k].clock, states[k].runs[id]);
  }
}
