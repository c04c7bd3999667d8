/** One run from the look-up to the release of its slot, while no other run interferes. */
module Execution {
  import opened Strings
  import opened Config
  import opened Runner
  import opened History
  import Output

  datatype Exit = Clean | Status(code: int) | OtherError

  /** A command: whether it starts, its lines in the order in which they are emitted, and how it ends. */
  datatype Command = Command(starts: bool, lines: seq<string>, exit: Exit)

  /** Which of the history statements succeed. */
  datatype Writes = Writes(inserts: bool, updates: bool, prunes: bool)

  datatype Result = UnknownName | AlreadyRunning | NotStarted | Finished(exitCode: int, output: string)

  function CodeOf(e: Exit): int
  {
    match e case Clean => 0 case Status(code) => code case OtherError => 1
  }

  /** The command's own status, 0 for a clean end, and 1 for an end without a status. */
  ghost predicate IsCode(code: int, e: Exit)
  {
    && (e.Clean? ==> code == 0) && (e.Status? ==> code == e.code) && (e.OtherError? ==> code == 1)
  }

  /** Only the slot of this run differs: it is free, and nothing can be cancelled in it. */
  ghost predicate SlotFreed(before: Shared, after: Shared, mine: Slot)
  {
    && after.ops == before.ops && after.apps == before.apps
    && !after.IsActive(mine) && after.CancelOf(mine).None?
    && forall slot :: slot != mine ==>
         after.IsActive(slot) == before.IsActive(slot) && after.CancelOf(slot) == before.CancelOf(slot)
  }

  lemma SectionsFreeSlot(before: Shared, slot: Slot, id: RunId)
    ensures SlotFreed(before, before.Taken(slot).Registered(slot, id).Released(slot), slot)
  {
    forall o ensures var after := before.Taken(slot).Registered(slot, id).Released(slot);
      && (after.IsActive(o) <==> o != slot && before.IsActive(o))
      && after.CancelOf(o) == if o == slot then None else before.CancelOf(o)
    {
      TakenOnSlots(before, slot, o);
      RegisteredOnSlots(before.Taken(slot), slot, id, o);
      ReleasedOnSlots(before.Taken(slot).Registered(slot, id), slot, o);
    }
  }

  /** The row of a finished run is finalised, and the rows of its name are pruned. */
  method Record(db: DB, key: string, row: RowId, code: int, captured: string, t1: int, w: Writes)
    requires db.Valid() && row in db.log
    modifies db
    ensures db.Valid() && db.lastId == old(db.lastId)
    ensures db.log == if w.updates then Updated(old(db.log), row, t1, code, captured) else old(db.log)
    ensures w.prunes ==> |Ids(db.rows, ByName(key))| <= 50
    ensures OthersKept(old(db.rows), db.rows, key, row)
  {
    db.UpdateRun(row, t1, code, captured, w.updates);
    ghost var mid := db.rows;
    ghost var keep := db.Prune(key, w.prunes);
    if w.prunes {
      PruneKeeps(mid, key, keep);
    }
  }

  ghost predicate OthersKept(before: Table, after: Table, key: string, row: RowId)
  {
    forall id :: id in before && before[id].name != key && id != row ==> id in after && after[id] == before[id]
  }

  /** Each line goes to the caller and, with a newline, to the buffer. */
  method Drain(lines: seq<string>) returns (buf: string, sent: seq<string>)
    ensures sent == lines && buf == Output.Emitted(lines)
  {
    buf, sent := "", [];
    for i := 0 to |lines|
      invariant sent == lines[..i] && buf == Output.Emitted(sent)
    {
      Output.EmittedAppend(sent, lines[i]);
      sent := sent + [lines[i]];
      buf := buf + lines[i];
      buf := buf + [NL];
    }
  }

  /** The command itself, and its row; row 0 means that there is none. */
  method Execute(db: DB, key: string, row: RowId, cmd: Command, t1: int, w: Writes)
    returns (r: Result, sent: seq<string>)
    requires db.Valid() && (row.n == 0 || row in db.log)
    modifies db
    ensures db.Valid() && db.lastId == old(db.lastId)
    ensures !cmd.starts ==> r == NotStarted
    ensures cmd.starts ==>
      && r.Finished? && IsCode(r.exitCode, cmd.exit)
      && r.output == Output.Truncate(Output.Emitted(cmd.lines), 65536)
    ensures sent == if cmd.starts then cmd.lines else []
    ensures db.log == if r.Finished? && w.updates && row.n > 0
      then Updated(old(db.log), row, t1, r.exitCode, r.output) else old(db.log)
    ensures r.Finished? && row.n > 0 && w.prunes ==> |Ids(db.rows, ByName(key))| <= 50
    ensures if row.n == 0 then db.rows == old(db.rows) else OthersKept(old(db.rows), db.rows, key, row)
  {
    sent := [];
    if !cmd.starts {
      return NotStarted, sent;
    }
    var buf;
    buf, sent := Drain(cmd.lines);
    var captured := Output.Truncate(buf, Output.MAX_STORED);
    if row.n > 0 {
      Record(db, key, row, CodeOf(cmd.exit), captured, t1, w);
    }
    r := Finished(CodeOf(cmd.exit), captured);
  }

  /**
   * What a run leaves behind, whatever its slot; `rows`, `log` and `lastId` are the database before it. A
   * failed command is never recorded as a success: the code is 0 exactly if the command ended so.
   */
  ghost predicate Ran(db: DB, key: string, cmd: Command, t0: int, t1: int, w: Writes, r: Result, sent: seq<string>,
      rows: Table, log: Table, lastId: nat)
    reads db
  {
    && (!cmd.starts ==> r.NotStarted? && sent == [])
    && (cmd.starts ==>
         && r.Finished? && sent == cmd.lines && IsCode(r.exitCode, cmd.exit)
         && (r.exitCode == 0 <==> cmd.exit.Clean? || cmd.exit == Status(0))
         && (NewlineFree(cmd.lines) ==> Output.IsStored(cmd.lines, 65536, r.output)))
    && IsLogOf(db.log, log, RowId(lastId + 1), key, t0, t1, w, r)
    && (r.Finished? && w.inserts && w.prunes ==> |Ids(db.rows, ByName(key))| <= 50)
    && (if w.inserts then OthersKept(rows, db.rows, key, RowId(lastId + 1)) else db.rows == rows)
  }

  /** The log of a run: no row without an insert, and a final one if the update succeeds too. */
  ghost predicate IsLogOf(after: Table, before: Table, id: RowId, key: string, t0: int, t1: int, w: Writes, r: Result)
  {
    && (!w.inserts ==> after == before)
    && (w.inserts && r.Finished? && w.updates ==>
         after == before[id := Row(key, t0, Some(t1), Some(r.exitCode), Some(r.output))])
    && (w.inserts && !(r.Finished? && w.updates) ==> after == before[id := Row(key, t0, None, None, None)])
  }

  /** The row has been inserted; what follows leaves everything that Ran says. */
  method ExecuteWithRow(db: DB, key: string, row: RowId, cmd: Command, t0: int, t1: int, w: Writes, ghost rows: Table,
      ghost log: Table, ghost lastId: nat)
    returns (r: Result, sent: seq<string>)
    requires db.Valid() && row == RowId(if w.inserts then lastId + 1 else 0)
    requires db.log == (if w.inserts then Inserted(log, row, key, t0) else log)
    requires db.rows == (if w.inserts then Inserted(rows, row, key, t0) else rows)
    modifies db
    ensures db.Valid() && Ran(db, key, cmd, t0, t1, w, r, sent, rows, log, lastId)
  {
    r, sent := Execute(db, key, row, cmd, t1, w);
    if NewlineFree(cmd.lines) {
      Output.StoredOutput(cmd.lines, 65536);
    }
  }

  method Run(runner: Runner, db: DB, name: string, id: RunId, cmd: Command, t0: int, t1: int, w: Writes)
    returns (r: Result, sent: seq<string>, job: Option<Job>)
    requires db.Valid()
    modifies runner`active, runner`cancels, db
    ensures db.Valid() && job == old(runner.View()).FindOp(name)
    ensures r == UnknownName <==> job.None?
    ensures job.Some? <==> name in old(runner.ops)
    ensures job.Some? ==>
      var op := old(runner.ops)[name];
      IsConfigured(job.value, op.command, op.workingDir, op.timeout, op.persistent)
    ensures r == AlreadyRunning <==> job.Some? && old(runner.View()).IsActive(Slot(Legacy, name))
    ensures r in {UnknownName, AlreadyRunning} ==> runner.View() == old(runner.View()) && unchanged(db) && sent == []
    ensures r !in {UnknownName, AlreadyRunning} ==>
      && SlotFreed(old(runner.View()), runner.View(), Slot(Legacy, name))
      && Ran(db, name, cmd, t0, t1, w, r, sent, old(db.rows), old(db.log), old(db.lastId))
  {
    sent := [];
    job := runner.LookUp(name);
    if job.None? {
      return UnknownName, sent, job;
    }
    var ok := runner.TakeSlot(name);
    if !ok {
      return AlreadyRunning, sent, job;
    }
    var row := db.InsertRun(name, t0, w.inserts);
    runner.RegisterCancel(name, id);
    r, sent := ExecuteWithRow(db, name, row, cmd, t0, t1, w, old(db.rows), old(db.log), old(db.lastId));
    runner.ReleaseSlot(name);
    SectionsFreeSlot(old(runner.View()), Slot(Legacy, name), id);
  }

  method RunApp(runner: Runner, db: DB, appName: string, opName: string, id: RunId, cmd: Command, t0: int, t1: int,
      w: Writes)
    returns (r: Result, sent: seq<string>, job: Option<Job>)
    requires db.Valid()
    modifies runner`appsActive, runner`appsCancels, db
    ensures db.Valid() && job == old(runner.View()).FindAppOp(appName, opName)
    ensures r == UnknownName <==> job.None?
    ensures job.Some? <==> appName in old(runner.apps) && opName in old(runner.apps)[appName].operations
    ensures job.Some? ==>
      var op := old(runner.apps)[appName].operations[opName];
      IsConfigured(job.value, op.command, op.workingDir, op.timeout, op.persistent)
    ensures r == AlreadyRunning <==> job.Some? && old(runner.View()).IsActive(Slot(OfApp, AppKey(appName, opName)))
    ensures r in {UnknownName, AlreadyRunning} ==> runner.View() == old(runner.View()) && unchanged(db) && sent == []
    ensures r !in {UnknownName, AlreadyRunning} ==>
      && SlotFreed(old(runner.View()), runner.View(), Slot(OfApp, AppKey(appName, opName)))
      && Ran(db, AppKey(appName, opName), cmd, t0, t1, w, r, sent, old(db.rows), old(db.log), old(db.lastId))
  {
    sent := [];
    job := runner.LookUpApp(appName, opName);
    if job.None? {
      return UnknownName, sent, job;
    }
    var key := AppKey(appName, opName);
    var ok := runner.TakeAppSlot(key);
    if !ok {
      return AlreadyRunning, sent, job;
    }
    var row := db.InsertRun(key, t0, w.inserts);
    runner.RegisterAppCancel(key, id);
    r, sent := ExecuteWithRow(db, key, row, cmd, t0, t1, w, old(db.rows), old(db.log), old(db.lastId));
    runner.ReleaseAppSlot(key);
    SectionsFreeSlot(old(runner.View()), Slot(OfApp, key), id);
  }
}
