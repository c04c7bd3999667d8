/**
 * Which own writes of the configuration file the watcher skips, and which it reloads on. Writes are named
 * by the step that renames.
 */
module OwnWrites {
  import opened Strings
  import opened Writer
  import opened WriteBack

  // ---------- what the variables hold, told from the steps alone ----------

  /** The write whose time the file has after `k` steps; None is the file found at the start. */
  function LastRename(steps: seq<Step>, k: nat): (i: Option<nat>)
    requires k <= |steps|
    ensures i.Some? ==> i.value < k && steps[i.value].Rename?
  {
    if k == 0 then None else if steps[k - 1].Rename? then Some(k - 1) else LastRename(steps, k - 1)
  }

  /** The write whose time was recorded last. */
  function LastRecorded(steps: seq<Step>, k: nat): (i: Option<nat>)
    requires k <= |steps|
    ensures i.Some? ==> i.value < k && steps[i.value].Rename?
  {
    if k == 0 then None
    else if steps[k - 1] == Record(true) then LastRename(steps, k - 1)
    else LastRecorded(steps, k - 1)
  }

  /** The write whose time the watcher read last. */
  function LastSeen(steps: seq<Step>, k: nat): (i: Option<nat>)
    requires k <= |steps|
    ensures i.Some? ==> i.value < k && steps[i.value].Rename?
    ensures i.Some? ==> LastRename(steps, k).Some?
  {
    if k == 0 then None else if steps[k - 1] == Stat(true) then LastRename(steps, k - 1) else LastSeen(steps, k - 1)
  }

  /** The write whose time is about to be compared. */
  function Pending(steps: seq<Step>, k: nat): (i: Option<nat>)
    requires k <= |steps|
    ensures i.Some? ==> i.value < k && steps[i.value].Rename?
  {
    if k == 0 || steps[k - 1] == Compare then None
    else if steps[k - 1] == Stat(true) && LastRename(steps, k - 1) != LastSeen(steps, k - 1)
    then LastRename(steps, k - 1)
    else Pending(steps, k - 1)
  }

  function StartTimes(s: State): set<int>
  {
    {s.mtime, s.lastWriteTime, s.lastMod} + if s.poll.Some? then {s.poll.value} else {}
  }

  /** Every write gives the file a time that it never had, and that no variable held at the start. */
  ghost predicate FreshTimes(s: State, steps: seq<Step>)
  {
    && (forall i :: 0 <= i < |steps| && steps[i].Rename? ==>
          steps[i].mtime != ZERO_TIME && steps[i].mtime !in StartTimes(s))
    && (forall i, j :: 0 <= i < j < |steps| && steps[i].Rename? && steps[j].Rename? ==>
          steps[i].mtime != steps[j].mtime)
  }

  /** A run from a state in which no write is in progress. */
  ghost predicate IsFreshRun(vs: Versions, states: seq<State>, steps: seq<Step>)
  {
    IsRun(vs, states, steps) && states[0].write == NoWrite && FreshTimes(states[0], steps)
  }

  ghost predicate Holds(steps: seq<Step>, from: Option<nat>, time: int, start: State)
    requires from.Some? ==> from.value < |steps| && steps[from.value].Rename?
  {
    if from.Some? then time == steps[from.value].mtime else time in StartTimes(start)
  }

  ghost predicate Tracked(steps: seq<Step>, k: nat, start: State, s: State)
    requires k <= |steps|
  {
    && Holds(steps, LastRename(steps, k), s.mtime, start)
    && Holds(steps, LastRecorded(steps, k), s.lastWriteTime, start)
    && Holds(steps, LastSeen(steps, k), s.lastMod, start)
    && (Pending(steps, k).Some? ==> s.poll.Some?)
    && (s.poll.Some? ==> Holds(steps, Pending(steps, k), s.poll.value, start))
    && (s.write == Renamed ==> LastRename(steps, k).Some?)
  }

  lemma StepIsTracked(vs: Versions, steps: seq<Step>, k: nat, start: State, s: State)
    requires k < |steps| && FreshTimes(start, steps) && Tracked(steps, k, start, s) && Enabled(vs, s, steps[k])
    ensures Tracked(steps, k + 1, start, Apply(vs, s, steps[k]))
  {
  }

  lemma {:induction false} RunIsTracked(vs: Versions, states: seq<State>, steps: seq<Step>, k: nat)
    requires IsFreshRun(vs, states, steps) && k <= |steps|
    ensures Tracked(steps, k, states[0], states[k])
  {
    if k > 0 {
      RunIsTracked(vs, states, steps, k - 1);
      StepIsTracked(vs, steps, k - 1, states[0], states[k - 1]);
    }
  }

  // ---------- the positions of the steps ----------

  /** Write `i` was recorded before step `k`, and no later write was. */
  ghost predicate RecordedLast(steps: seq<Step>, i: nat, k: nat)
    requires k <= |steps|
  {
    exists r :: Records(steps, i, r, k)
  }

  ghost predicate Records(steps: seq<Step>, i: nat, r: nat, k: nat)
    requires k <= |steps|
  {
    && i < r < k && steps[i].Rename? && steps[r] == Record(true)
    && (forall p :: i < p < r ==> !steps[p].Rename?)
    && (forall p :: r < p < k ==> steps[p] != Record(true))
  }

  /**
   * Step `q` is the first to read the time of write `i`, before the next write, and `k` is reached before
   * a comparison.
   */
  ghost predicate Sees(steps: seq<Step>, i: nat, q: nat, k: nat)
    requires k <= |steps|
  {
    && i < q < k && steps[i].Rename? && steps[q] == Stat(true)
    && (forall p :: i < p < q ==> !steps[p].Rename? && steps[p] != Stat(true))
    && (forall p :: q < p < k ==> steps[p] != Compare)
  }

  lemma {:induction false} LastRenameIff(steps: seq<Step>, i: nat, k: nat)
    requires k <= |steps|
    ensures LastRename(steps, k) == Some(i) <==>
      i < k && steps[i].Rename? && forall p :: i < p < k ==> !steps[p].Rename?
  {
    if k > 0 {
      LastRenameIff(steps, i, k - 1);
    }
  }

  lemma {:induction false} LastRecordedIff(steps: seq<Step>, i: nat, k: nat)
    requires k <= |steps|
    ensures LastRecorded(steps, k) == Some(i) <==> RecordedLast(steps, i, k)
  {
    if k > 0 {
      LastRecordedIff(steps, i, k - 1);
      LastRenameIff(steps, i, k - 1);
      if steps[k - 1] == Record(true) {
        if r :| Records(steps, i, r, k) {
          assert r == k - 1;
        }
        assert LastRename(steps, k - 1) == Some(i) ==> Records(steps, i, k - 1, k);
      } else {
        if r :| Records(steps, i, r, k) {
          assert Records(steps, i, r, k - 1);
        }
        var n := k - 1;
        if r :| Records(steps, i, r, n) {
          assert Records(steps, i, r, k);
        }
      }
    }
  }

  /** The watcher has read the time of the last write exactly if it read a time after it. */
  lemma {:induction false} LastSeenIff(steps: seq<Step>, i: nat, k: nat)
    requires k <= |steps| && LastRename(steps, k) == Some(i)
    ensures LastSeen(steps, k) == Some(i) <==> exists p :: i < p < k && steps[p] == Stat(true)
  {
    if steps[k - 1].Rename? {
      assert i == k - 1;
    } else {
      LastSeenIff(steps, i, k - 1);
    }
  }

  /** Where the pending comparison comes from. */
  lemma {:induction false} PendingIsSeen(steps: seq<Step>, k: nat) returns (q: nat)
    requires k <= |steps| && Pending(steps, k).Some?
    ensures Sees(steps, Pending(steps, k).value, q, k)
  {
    var i := Pending(steps, k).value;
    if steps[k - 1] == Stat(true) && LastRename(steps, k - 1) != LastSeen(steps, k - 1) {
      q := k - 1;
      LastRenameIff(steps, i, k - 1);
      LastSeenIff(steps, i, k - 1);
    } else {
      q := PendingIsSeen(steps, k - 1);
    }
  }

  /** Nothing but a comparison ends it: meanwhile the watcher does not read the time again. */
  lemma {:induction false} SeenIsPending(vs: Versions, states: seq<State>, steps: seq<Step>, i: nat, q: nat, k: nat)
    requires IsFreshRun(vs, states, steps) && k <= |steps| && Sees(steps, i, q, k)
    ensures Pending(steps, k) == Some(i)
  {
    if k == q + 1 {
      LastRenameIff(steps, i, q);
      LastSeenIff(steps, i, q);
    } else {
      SeenIsPending(vs, states, steps, i, q, k - 1);
      RunIsTracked(vs, states, steps, k - 1);
    }
  }

  // ---------- the watcher and the writes ----------

  /** Step `k` compares the time of write `i`. */
  predicate Compares(states: seq<State>, steps: seq<Step>, i: nat, k: nat)
    requires |states| == |steps| + 1 && i < k < |steps|
  {
    steps[k] == Compare && steps[i].Rename? && states[k].poll == Some(steps[i].mtime)
  }

  predicate Reloads(states: seq<State>, k: nat)
    requires k + 1 < |states|
  {
    states[k + 1].reloads == states[k].reloads + 1
  }

  /**
   * A comparison with the time of an own write reloads exactly unless that write was recorded before it
   * and no later one was.
   */
  lemma ComparisonReloadsIff(vs: Versions, states: seq<State>, steps: seq<Step>, i: nat, k: nat)
    requires IsFreshRun(vs, states, steps) && i < k < |steps| && Compares(states, steps, i, k)
    ensures Reloads(states, k) <==> !RecordedLast(steps, i, k)
  {
    RunIsTracked(vs, states, steps, k);
    LastRecordedIff(steps, i, k);
    assert Enabled(vs, states[k], steps[k]) && states[k + 1] == Apply(vs, states[k], steps[k]);
  }

  /** Whose time a comparison reads: the watcher read it first, before the next write, and compares only now. */
  lemma ComparedWriteIff(vs: Versions, states: seq<State>, steps: seq<Step>, i: nat, k: nat)
    requires IsFreshRun(vs, states, steps) && i < k < |steps| && steps[k] == Compare && steps[i].Rename?
    ensures Compares(states, steps, i, k) <==> exists q :: Sees(steps, i, q, k)
  {
    RunIsTracked(vs, states, steps, k);
    assert Enabled(vs, states[k], steps[k]);
    if Compares(states, steps, i, k) {
      assert Pending(steps, k) == Some(i);
      var q := PendingIsSeen(steps, k);
    }
    if q :| Sees(steps, i, q, k) {
      SeenIsPending(vs, states, steps, i, q, k);
    }
  }

  ghost predicate ReloadsOnOwnWrite(states: seq<State>, steps: seq<Step>, i: nat, k: nat)
    requires |states| == |steps| + 1
  {
    i < k < |steps| && Compares(states, steps, i, k) && Reloads(states, k)
  }

  /**
   * The positions at which the watcher reloads on an own write: read at `q`, compared at `k`, not the last
   * one recorded by then.
   */
  ghost predicate Slips(steps: seq<Step>, i: nat, q: nat, k: nat)
  {
    k < |steps| && steps[k] == Compare && Sees(steps, i, q, k) && !RecordedLast(steps, i, k)
  }

  lemma OwnWriteReloadedIff(vs: Versions, states: seq<State>, steps: seq<Step>, i: nat, k: nat)
    requires IsFreshRun(vs, states, steps)
    ensures ReloadsOnOwnWrite(states, steps, i, k) <==> exists q :: Slips(steps, i, q, k)
  {
    if i < k < |steps| && steps[k] == Compare && steps[i].Rename? {
      ComparedWriteIff(vs, states, steps, i, k);
      if Compares(states, steps, i, k) {
        ComparisonReloadsIff(vs, states, steps, i, k);
        var q :| Sees(steps, i, q, k);
        assert Slips(steps, i, q, k) <==> Reloads(states, k);
      }
    }
  }

  /** In a run without such positions, and only there, the watcher never reloads on an own write. */
  lemma OwnWritesAreSkippedIff(vs: Versions, states: seq<State>, steps: seq<Step>)
    requires IsFreshRun(vs, states, steps)
    ensures (forall i, k :: !ReloadsOnOwnWrite(states, steps, i, k)) <==> (forall i, q, k :: !Slips(steps, i, q, k))
  {
    forall i, q, k | Slips(steps, i, q, k) ensures ReloadsOnOwnWrite(states, steps, i, k) {
      OwnWriteReloadedIff(vs, states, steps, i, k);
    }
    forall i, k | ReloadsOnOwnWrite(states, steps, i, k) ensures exists q :: Slips(steps, i, q, k) {
      OwnWriteReloadedIff(vs, states, steps, i, k);
    }
  }

  function FreshTime(s: State): int
  {
    1 + (if s.mtime > 0 then s.mtime else 0) + (if s.lastMod > 0 then s.lastMod else 0)
    + if s.lastWriteTime > 0 then s.lastWriteTime else 0
  }

  /** A write that is recorded, and the step that follows. */
  function WriteThen(tg: Target, m: int, last: Step): seq<Step>
  {
    [Begin(tg), Rename(m), Record(true), last]
  }

  lemma OvertakenSlips(a: Target, b: Target, m: int)
    ensures Slips(WriteThen(a, m, Stat(true)) + WriteThen(b, m + 1, Compare), 1, 3, 7)
  {
    var steps := WriteThen(a, m, Stat(true)) + WriteThen(b, m + 1, Compare);
    assert steps[5] == Rename(m + 1) && steps[6] == Record(true);
    assert Sees(steps, 1, 3, 7);
    assert !RecordedLast(steps, 1, 7);
  }

  lemma WriteRuns(vs: Versions, s: State, tg: Target, m: int, last: Step) returns (states: seq<State>)
    requires s.write == NoWrite && tg in vs && Wants(s.file, tg, vs[tg])
    requires if s.poll.Some? then last == Compare else last == Stat(true) && m != ZERO_TIME && m != s.lastMod
    ensures IsRun(vs, states, WriteThen(tg, m, last)) && states[0] == s
    ensures states[4].write == NoWrite && states[4].file == AfterWrite(s.file, tg, vs[tg])
    ensures last == Stat(true) ==> states[4].poll.Some?
  {
    var s1 := Apply(vs, s, Begin(tg));
    var s2 := Apply(vs, s1, Rename(m));
    var s3 := Apply(vs, s2, Record(true));
    states := [s, s1, s2, s3, Apply(vs, s3, last)];
  }

  function Overtaken(s: State, a: Target, b: Target): seq<Step>
  {
    WriteThen(a, FreshTime(s), Stat(true)) + WriteThen(b, FreshTime(s) + 1, Compare)
  }

  lemma OvertakenIsFresh(s: State, a: Target, b: Target)
    requires s.poll.None?
    ensures FreshTimes(s, Overtaken(s, a, b))
  {
  }

  lemma OvertakenRun(vs: Versions, s: State, a: Target, b: Target) returns (states: seq<State>)
    requires Quiet(s) && a in vs && b in vs && Wants(s.file, a, vs[a]) && Wants(AfterWrite(s.file, a, vs[a]), b, vs[b])
    ensures IsRun(vs, states, Overtaken(s, a, b)) && states[0] == s
  {
    var p, q := WriteThen(a, FreshTime(s), Stat(true)), WriteThen(b, FreshTime(s) + 1, Compare);
    var head := WriteRuns(vs, s, a, FreshTime(s), Stat(true));
    var tail := WriteRuns(vs, head[4], b, FreshTime(s) + 1, Compare);
    RunsJoin(vs, head, p, tail, q);
    states := head[..4] + tail;
  }

  /**
   * The second way, besides a poll between a rename and its recording: the watcher reads the time after
   * the recording, and another write is recorded before it compares.
   */
  lemma OvertakenWriteReloads(vs: Versions, s: State, a: Target, b: Target)
    returns (states: seq<State>, steps: seq<Step>)
    requires Quiet(s) && a in vs && b in vs && Wants(s.file, a, vs[a]) && Wants(AfterWrite(s.file, a, vs[a]), b, vs[b])
    ensures IsFreshRun(vs, states, steps) && states[0] == s && |steps| == 8
    ensures ReloadsOnOwnWrite(states, steps, 1, 7) && Slips(steps, 1, 3, 7)
  {
    steps := Overtaken(s, a, b);
    states := OvertakenRun(vs, s, a, b);
    OvertakenIsFresh(s, a, b);
    OvertakenSlips(a, b, FreshTime(s));
    OwnWriteReloadedIff(vs, states, steps, 1, 7);
  }

  /** The third way: the time of the renamed file could not be read, so it was not recorded at all. */
  lemma UnrecordedWriteReloads(vs: Versions, s: State, a: Target) returns (states: seq<State>, steps: seq<Step>)
    requires Quiet(s) && a in vs && Wants(s.file, a, vs[a])
    ensures IsFreshRun(vs, states, steps) && states[0] == s && |steps| == 5
    ensures ReloadsOnOwnWrite(states, steps, 1, 4) && Slips(steps, 1, 3, 4)
  {
    var m := FreshTime(s);
    steps := [Begin(a), Rename(m), Record(false), Stat(true), Compare];
    var s1 := Apply(vs, s, steps[0]);
    var s2 := Apply(vs, s1, steps[1]);
    var s3 := Apply(vs, s2, steps[2]);
    var s4 := Apply(vs, s3, steps[3]);
    states := [s, s1, s2, s3, s4, Apply(vs, s4, steps[4])];
    assert Sees(steps, 1, 3, 4);
    assert !RecordedLast(steps, 1, 4);
  }
}
