/**
 * The same behaviours, told by their steps: what a run's fields, its history row and its record in a
 * listing say about what happened to it, and which reload and write-back the configuration stands for.
 */
module RunnerSteps {
  import opened Strings
  import opened Config
  import opened Runner
  import opened RunnerProtocol
  import Output
  import History

  /** How far a run has come. */
  function Rank(p: Phase): nat
  {
    match p
    case LookedUp => 0
    case Holding => 1
    case Stamped => 2
    case Inserted => 3
    case Registered => 4
    case Started => 5
    case Exited => 6
    case Finished => 7
    case Saved => 8
    case Trimmed => 9
    case Aborted => 9
    case Refused => 10
    case Done => 10
  }

  /** What an action taken at time `clock` leaves in its run for good. */
  ghost predicate Left(a: Action, clock: int, r: Run)
  {
    match a
    case Stamp => Rank(r.phase) >= 2 && r.startedAt == clock
    case Insert(ok) => Rank(r.phase) >= 3 && r.row.Some? == ok
    case Start(out, err) => Rank(r.phase) >= 5 && r.executed == Some(r.job) && r.stdout == out && r.stderr == err
    case Exit(code) => Rank(r.phase) >= 6 && r.exitCode == code
    case Finish => Rank(r.phase) >= 7 && r.finishedAt == Some(clock)
    case Update(ok) => Rank(r.phase) >= 8 && r.updated == (ok && r.row.Some?)
    case _ => true
  }

  lemma ActionLeaves(s: State, r: Run, a: Action)
    requires CanAct(s, r, a)
    ensures Left(a, s.clock, Acted(s, r, a))
  {
  }

  lemma ActionKeepsLeft(s: State, r: Run, b: Action, a: Action, clock: int)
    requires CanAct(s, r, b) && Left(a, clock, r)
    ensures Left(a, clock, Acted(s, r, b))
  {
  }

  lemma MoveKeepsLeft(r: Run, to: Phase, a: Action, clock: int)
    requires CanMove(r.phase, to) && Left(a, clock, r)
    ensures Left(a, clock, r.(phase := to))
  {
  }

  lemma StepKeepsLeft(s: State, st: Step, id: RunId, a: Action, clock: int)
    requires RunnerProtocol.Enabled(s, st) && id in s.runs && Left(a, clock, s.runs[id])
    ensures id in Apply(s, st).runs && Left(a, clock, Apply(s, st).runs[id])
  {
    if st.Act? {
      assert Apply(s, st).runs == s.runs[st.id := Acted(s, s.runs[st.id], st.action)];
      if st.id == id {
        ActionKeepsLeft(s, s.runs[id], st.action, a, clock);
      }
    } else {
      StepHasEffect(s, st);
      if EffectOf(s, st).Moves? && EffectOf(s, st).id == id {
        MoveKeepsLeft(s.runs[id], EffectOf(s, st).to, a, clock);
      }
    }
  }

  /** In every behaviour, a run keeps what each of its actions left. */
  lemma ActionsLast(states: seq<State>, steps: seq<Step>, j: nat, k: nat, id: RunId, a: Action)
    requires IsBehavior(states, steps) && j < k <= |steps| && steps[j] == Act(id, a)
    ensures id in states[k].runs && Left(a, states[j].clock, states[k].runs[id])
  {
    ActionLeaves(states[j], states[j].runs[id], a);
    assert states[j + 1].runs == states[j].runs[id := Acted(states[j], states[j].runs[id], a)];
    for i := j + 1 to k
      invariant id in states[i].runs && Left(a, states[j].clock, states[i].runs[id])
    {
      StepKeepsLeft(states[i], steps[i], id, a, states[j].clock);
    }
  }

  // ---------- a record tells what happened ----------

  /** Step `j` is the action `a` of run `id`. */
  ghost predicate IsAct(steps: seq<Step>, j: nat, id: RunId, a: Action)
  {
    j < |steps| && steps[j] == Act(id, a)
  }

  /** The run took this action among the first `k` steps. */
  ghost predicate Took(steps: seq<Step>, k: nat, id: RunId, a: Action)
  {
    exists j: nat :: j < k && IsAct(steps, j, id, a)
  }

  /** And did so at this time. */
  ghost predicate TookAt(states: seq<State>, steps: seq<Step>, k: nat, id: RunId, a: Action, clock: int)
    requires |states| > |steps|
  {
    exists j: nat :: j < k && IsAct(steps, j, id, a) && states[j].clock == clock
  }

  predicate HasExited(r: Run)
  {
    r.phase in {Exited, Finished, Saved, Trimmed} || (r.phase == Done && r.executed.Some?)
  }

  /** Every field of the run is there because of a step. */
  ghost predicate Told(states: seq<State>, steps: seq<Step>, k: nat, id: RunId, r: Run)
    requires |states| > |steps|
  {
    && (r.HasStart() ==> TookAt(states, steps, k, id, Stamp, r.startedAt))
    && (r.executed.Some? ==> Took(steps, k, id, Start(r.stdout, r.stderr)))
    && (HasExited(r) ==> Took(steps, k, id, Exit(r.exitCode)))
    && (r.finishedAt.Some? ==> TookAt(states, steps, k, id, Finish, r.finishedAt.value))
  }

  lemma ToldLater(states: seq<State>, steps: seq<Step>, k: nat, id: RunId, r: Run)
    requires |states| > |steps| && Told(states, steps, k, id, r)
    ensures Told(states, steps, k + 1, id, r)
  {
  }

  lemma TakenNow(states: seq<State>, steps: seq<Step>, k: nat, id: RunId, a: Action)
    requires |states| > |steps| && IsAct(steps, k, id, a)
    ensures Took(steps, k + 1, id, a) && TookAt(states, steps, k + 1, id, a, states[k].clock)
  {
  }

  lemma ActionIsTold(states: seq<State>, steps: seq<Step>, k: nat, id: RunId, r: Run, a: Action)
    requires |states| > |steps| && IsAct(steps, k, id, a) && Told(states, steps, k, id, r)
    requires CanAct(states[k], r, a)
    ensures Told(states, steps, k + 1, id, Acted(states[k], r, a))
  {
    ToldLater(states, steps, k, id, r);
    TakenNow(states, steps, k, id, a);
  }

  lemma MoveIsTold(states: seq<State>, steps: seq<Step>, k: nat, id: RunId, r: Run, to: Phase)
    requires |states| > |steps| && Told(states, steps, k, id, r) && CanMove(r.phase, to)
    requires r.phase == Aborted ==> r.executed.None?
    ensures Told(states, steps, k, id, r.(phase := to))
  {
  }

  /** In every behaviour. */
  lemma {:induction false} RunsAreTold(states: seq<State>, steps: seq<Step>, k: nat, id: RunId)
    requires IsBehavior(states, steps) && k <= |steps| && id in states[k].runs
    ensures Told(states, steps, k, id, states[k].runs[id])
  {
    if k > 0 {
      var n := k - 1;
      var s, st := states[n], steps[n];
      if id !in s.runs {
        NewRunIsTold(states, steps, n, id);
      } else {
        RunsAreTold(states, steps, n, id);
        Reachable(states, steps, n);
        StepIsTold(states, steps, n, id);
      }
    }
  }

  lemma NewRunIsTold(states: seq<State>, steps: seq<Step>, n: nat, id: RunId)
    requires IsBehavior(states, steps) && n < |steps| && id !in states[n].runs && id in states[n + 1].runs
    ensures Told(states, steps, n + 1, id, states[n + 1].runs[id])
  {
    if !steps[n].Act? {
      StepHasEffect(states[n], steps[n]);
    }
  }

  lemma StepIsTold(states: seq<State>, steps: seq<Step>, n: nat, id: RunId)
    requires IsBehavior(states, steps) && n < |steps| && RunsInv(states[n])
    requires id in states[n].runs && Told(states, steps, n, id, states[n].runs[id])
    ensures id in states[n + 1].runs && Told(states, steps, n + 1, id, states[n + 1].runs[id])
  {
    var s, st := states[n], steps[n];
    var r := s.runs[id];
    ToldLater(states, steps, n, id, r);
    if st.Act? {
      assert states[n + 1].runs == s.runs[st.id := Acted(s, s.runs[st.id], st.action)];
      if st.id == id {
        ActionIsTold(states, steps, n, id, r, st.action);
      }
    } else {
      StepHasEffect(s, st);
      var e := EffectOf(s, st);
      if e.Moves? && e.id == id {
        assert RunOk(s.clock, r);
        MoveIsTold(states, steps, n + 1, id, r, e.to);
      }
    }
  }

  /**
   * A listing that succeeds shows of a run whose update succeeded (see FreeSlotHistory): under its own key,
   * the times of its start and its end, its own exit code, and the stored form of its own two streams.
   */
  lemma ListedRunIsShown(states: seq<State>, steps: seq<Step>, k: nat, f: History.Filter, n: nat,
      records: seq<History.Record>, i: nat, id: RunId)
    returns (out: seq<string>, err: seq<string>, lines: seq<string>)
    requires IsBehavior(states, steps) && k <= |steps|
    requires History.IsAnswer(states[k].db.rows, f, n, Some(records)) && i < |records|
    requires id in states[k].runs && states[k].runs[id].row == Some(records[i].id) && states[k].runs[id].updated
    ensures records[i].name == states[k].runs[id].slot.key
    ensures records[i].finishedAt.Some? && records[i].exitCode.Some?
    ensures TookAt(states, steps, k, id, Stamp, records[i].startedAt)
    ensures TookAt(states, steps, k, id, Finish, records[i].finishedAt.value)
    ensures Took(steps, k, id, Exit(records[i].exitCode.value))
    ensures Took(steps, k, id, Start(out, err)) && Output.IsMerge(lines, out, err)
    ensures Output.IsStored(lines, 65536, records[i].output)
  {
    var r := states[k].runs[id];
    History.AnswerIsNewest(states[k].db.rows, f, n, records);
    RunsAreTold(states, steps, k, id);
    Reachable(states, steps, k);
    out, err, lines := r.stdout, r.stderr, r.lines;
    UpdatedRunHasFinalRow(states[k], id);
    RecordIsFinal(states[k].db.rows, records[i], r);
  }

  lemma UpdatedRunHasFinalRow(s: State, id: RunId)
    requires RunsInv(s) && HistoryInv(s) && id in s.runs && s.runs[id].updated
    ensures HasFinalRow(s, s.runs[id]) && HasExited(s.runs[id]) && s.runs[id].HasStart() && s.runs[id].executed.Some?
  {
    assert RunOk(s.clock, s.runs[id]) && RowKept(s, s.runs[id]);
    FinishedRunHasFinalRow(s.clock, s.runs[id]);
  }

  lemma RecordIsFinal(rows: History.Table, rec: History.Record, r: Run)
    requires rec.id in rows && FinalRow(rows[rec.id], r)
    requires rows[rec.id] == History.Row(rec.name, rec.startedAt, rec.finishedAt, rec.exitCode, Some(rec.output))
    ensures rec.name == r.slot.key && rec.startedAt == r.startedAt && rec.finishedAt == r.finishedAt
    ensures rec.exitCode == Some(r.exitCode) && rec.output == r.captured
  {
  }

  // ---------- look-ups ----------

  /** A run is for the slot and the job of its look-up: what was configured at that moment. */
  lemma RunsAreLookUps(states: seq<State>, steps: seq<Step>, j: nat, k: nat, id: RunId, name: string)
    requires IsBehavior(states, steps) && j < k <= |steps| && steps[j] == LookUp(id, name)
    ensures name in states[j].shared.ops && id in states[k].runs
    ensures states[k].runs[id].slot == Slot(Legacy, name)
    ensures var op, r := states[j].shared.ops[name], states[k].runs[id];
      && IsConfigured(r.job, op.command, op.workingDir, op.timeout, op.persistent)
      && (r.executed.Some? ==> r.executed == Some(r.job))
  {
    var op := states[j].shared.ops[name];
    StaysFor(states, steps, j + 1, k, id);
    ExecutesWhatItLookedUp(states, steps, j + 1, k, id);
    JobIsConfigured(op.command, op.workingDir, op.timeout, op.persistent);
  }

  lemma AppRunsAreLookUps(states: seq<State>, steps: seq<Step>, j: nat, k: nat, id: RunId, appName: string,
      opName: string)
    requires IsBehavior(states, steps) && j < k <= |steps| && steps[j] == LookUpApp(id, appName, opName)
    ensures appName in states[j].shared.apps && opName in states[j].shared.apps[appName].operations
    ensures id in states[k].runs && states[k].runs[id].slot == Slot(OfApp, appName + ":" + opName)
    ensures var op, r := states[j].shared.apps[appName].operations[opName], states[k].runs[id];
      && IsConfigured(r.job, op.command, op.workingDir, op.timeout, op.persistent)
      && (r.executed.Some? ==> r.executed == Some(r.job))
  {
    var op := states[j].shared.apps[appName].operations[opName];
    StaysFor(states, steps, j + 1, k, id);
    ExecutesWhatItLookedUp(states, steps, j + 1, k, id);
    JobIsConfigured(op.command, op.workingDir, op.timeout, op.persistent);
  }

  lemma StaysFor(states: seq<State>, steps: seq<Step>, j: nat, k: nat, id: RunId)
    requires IsBehavior(states, steps) && j <= k <= |steps| && id in states[j].runs
    ensures id in states[k].runs && states[k].runs[id].slot == states[j].runs[id].slot
  {
    for i := j to k
      invariant id in states[i].runs && states[i].runs[id].slot == states[j].runs[id].slot
    {
      StepKeepsTargets(states[i], steps[i], id);
    }
  }

  // ---------- reloads and write-backs ----------

  /** Since the last reload an operation is what that reload says, until its version is written back. */
  lemma OperationsAreReloaded(states: seq<State>, steps: seq<Step>, j: nat, k: nat, newOps: map<string, Operation>)
    requires IsBehavior(states, steps) && j < k <= |steps| && steps[j] == Reload(newOps)
    requires forall i :: j < i < k ==> !steps[i].Reload?
    ensures states[k].loadedOps == newOps
    ensures forall name :: name in states[k].lateOps ==> exists i :: j < i < k && WritesOp(steps[i], name)
    ensures forall name :: name in newOps && name !in states[k].lateOps ==>
      name in states[k].shared.ops && states[k].shared.ops[name] == newOps[name]
  {
    for m := j + 1 to k
      invariant states[m].loadedOps == newOps
      invariant forall name :: name in states[m].lateOps ==> exists i :: j < i < m && WritesOp(steps[i], name)
      invariant forall name :: name in newOps && name !in states[m].lateOps ==>
        name in states[m].shared.ops && states[m].shared.ops[name] == newOps[name]
    {
      OpsStep(states[m], steps[m]);
    }
  }

  predicate WritesOp(st: Step, name: string)
  {
    st.WriteBack? && st.name == name
  }

  ghost predicate OpsOfStep(s: State, st: Step, s': State)
  {
    && s'.loadedOps == s.loadedOps
    && s'.lateOps == (if st.WriteBack? then s.lateOps + {st.name} else s.lateOps)
    && (forall name :: !WritesOp(st, name) ==>
          (name in s'.shared.ops <==> name in s.shared.ops)
          && (name in s.shared.ops ==> s'.shared.ops[name] == s.shared.ops[name]))
    && (st.WriteBack? ==> st.name in s'.shared.ops && s'.shared.ops[st.name].currentVersion == st.version)
  }

  lemma OpsStep(s: State, st: Step)
    requires RunnerProtocol.Enabled(s, st) && !st.Reload?
    ensures OpsOfStep(s, st, Apply(s, st))
  {
    match st
    case WriteBack(name, version) =>
    case WriteBackApp(name, version) =>
    case ReloadApps(newApps) =>
    case Act(id, a) => ActKeepsConfig(s, id, a);
    case Acquire(id) => AcquireKeepsConfig(s, id);
    case Register(id) => RegisterKeepsConfig(s, id);
    case Release(id) => ReleaseKeepsConfig(s, id);
    case _ => OthersKeepConfig(s, st);
  }

  /** And then its version is the last one written. */
  lemma VersionIsTheLastWritten(states: seq<State>, steps: seq<Step>, j: nat, k: nat, name: string, version: string)
    requires IsBehavior(states, steps) && j < k <= |steps| && steps[j] == WriteBack(name, version)
    requires forall i :: j < i < k ==> !steps[i].Reload? && !WritesOp(steps[i], name)
    ensures name in states[k].shared.ops && states[k].shared.ops[name].currentVersion == version
  {
    OpsStep(states[j], steps[j]);
    for m := j + 1 to k
      invariant name in states[m].shared.ops && states[m].shared.ops[name].currentVersion == version
    {
      OpsStep(states[m], steps[m]);
    }
  }

  predicate WritesApp(st: Step, name: string)
  {
    st.WriteBackApp? && st.name == name
  }

  ghost predicate AppsOfStep(s: State, st: Step, s': State)
  {
    && s'.loadedApps == s.loadedApps
    && s'.lateApps == (if st.WriteBackApp? then s.lateApps + {st.name} else s.lateApps)
    && (forall name :: !WritesApp(st, name) ==>
          (name in s'.shared.apps <==> name in s.shared.apps)
          && (name in s.shared.apps ==> s'.shared.apps[name] == s.shared.apps[name]))
    && (st.WriteBackApp? ==> st.name in s'.shared.apps && s'.shared.apps[st.name].currentVersion == st.version)
  }

  lemma AppsStep(s: State, st: Step)
    requires RunnerProtocol.Enabled(s, st) && !st.ReloadApps?
    ensures AppsOfStep(s, st, Apply(s, st))
  {
    match st
    case WriteBack(name, version) =>
    case WriteBackApp(name, version) =>
    case Reload(newOps) =>
    case Act(id, a) => ActKeepsConfig(s, id, a);
    case Acquire(id) => AcquireKeepsConfig(s, id);
    case Register(id) => RegisterKeepsConfig(s, id);
    case Release(id) => ReleaseKeepsConfig(s, id);
    case _ => OthersKeepConfig(s, st);
  }

  /** The same for apps. */
  lemma AppsAreReloaded(states: seq<State>, steps: seq<Step>, j: nat, k: nat, newApps: map<string, App>)
    requires IsBehavior(states, steps) && j < k <= |steps| && steps[j] == ReloadApps(newApps)
    requires forall i :: j < i < k ==> !steps[i].ReloadApps?
    ensures states[k].loadedApps == newApps
    ensures forall name :: name in states[k].lateApps ==> exists i :: j < i < k && WritesApp(steps[i], name)
    ensures forall name :: name in newApps && name !in states[k].lateApps ==>
      name in states[k].shared.apps && states[k].shared.apps[name] == newApps[name]
  {
    for m := j + 1 to k
      invariant states[m].loadedApps == newApps
      invariant forall name :: name in states[m].lateApps ==> exists i :: j < i < m && WritesApp(steps[i], name)
      invariant forall name :: name in newApps && name !in states[m].lateApps ==>
        name in states[m].shared.apps && states[m].shared.apps[name] == newApps[name]
    {
      AppsStep(states[m], steps[m]);
    }
  }

  lemma AppVersionIsTheLastWritten(states: seq<State>, steps: seq<Step>, j: nat, k: nat, name: string, version: string)
    requires IsBehavior(states, steps) && j < k <= |steps| && steps[j] == WriteBackApp(name, version)
    requires forall i :: j < i < k ==> !steps[i].ReloadApps? && !WritesApp(steps[i], name)
    ensures name in states[k].shared.apps && states[k].shared.apps[name].currentVersion == version
  {
    AppsStep(states[j], steps[j]);
    for m := j + 1 to k
      invariant name in states[m].shared.apps && states[m].shared.apps[name].currentVersion == version
    {
      AppsStep(states[m], steps[m]);
    }
  }
}
