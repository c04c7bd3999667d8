/** The loop of version write-backs, polls and reloads after the last external edit of the file. */
module WriteBack {
  import opened Strings
  import opened Yaml
  import opened YamlNodes
  import opened Writer

  /** The write in progress, under the lock: nothing yet renamed, or renamed but its time not yet recorded. */
  datatype Write = NoWrite | Writing(tg: Target, out: Tree) | Renamed

  datatype State = State(
    file: Tree,
    mtime: int,
    lastWriteTime: int,
    lastMod: int,
    /** The time that a poll has read and is about to compare with the last own write. */
    poll: Option<int>,
    write: Write,
    /** What was written since the edit, in order, and how often the file was reloaded. */
    written: seq<Target>,
    reloads: nat,
    /** How many writes had been made when the watcher last saw a new time. */
    seen: Option<nat>
  )

  /** Reloads run the version commands again, so write-backs may begin at any time. */
  datatype Step =
    | Begin(tg: Target)
    | Fail
    | Rename(mtime: int)
    | Record(ok: bool)
    | Stat(ok: bool)
    | Compare

  /** What the version command of each target prints, always the same. */
  type Versions = map<Target, string>

  predicate Enabled(vs: Versions, s: State, st: Step)
  {
    match st
    case Begin(tg) => s.write == NoWrite && tg in vs
    case Fail => s.write.Writing?
    case Rename(_) => s.write.Writing?
    case Record(_) => s.write == Renamed
    case Stat(_) => s.poll.None?
    case Compare => s.poll.Some?
  }

  function Apply(vs: Versions, s: State, st: Step): State
    requires Enabled(vs, s, st)
  {
    match st
    case Begin(tg) =>
      if Wants(s.file, tg, vs[tg]) then s.(write := Writing(tg, AfterWrite(s.file, tg, vs[tg]))) else s
    case Fail => s.(write := NoWrite)
    case Rename(m) => s.(file := s.write.out, mtime := m, written := s.written + [s.write.tg], write := Renamed)
    case Record(ok) => s.(lastWriteTime := if ok then s.mtime else s.lastWriteTime, write := NoWrite)
    case Stat(ok) =>
      if ok && s.mtime != ZERO_TIME && s.mtime != s.lastMod
      then s.(lastMod := s.mtime, poll := Some(s.mtime), seen := Some(|s.written|))
      else s
    case Compare =>
      s.(poll := None, reloads := if IsOwn(s.lastWriteTime, s.poll.value) then s.reloads else s.reloads + 1)
  }

  ghost predicate IsRun(vs: Versions, states: seq<State>, steps: seq<Step>)
  {
    && |states| == |steps| + 1
    && forall k :: 0 <= k < |steps| ==>
         Enabled(vs, states[k], steps[k]) && states[k + 1] == Apply(vs, states[k], steps[k])
  }

  /** Just after an edit made while no write was in progress; the watcher may be anywhere. */
  predicate JustEdited(s: State)
  {
    && s.write == NoWrite && s.written == [] && s.reloads == 0 && s.seen.None?
    && Plain(s.file) && s.file.kind == Document
  }

  ghost predicate AllGood(vs: Versions, file: Tree)
  {
    forall tg :: tg in vs ==> vs[tg] != "" && Good(file, tg)
  }

  // ---------- writes ----------

  /** A parsed document in which every target can take its version. */
  ghost predicate Sound(vs: Versions, file: Tree)
  {
    Plain(file) && file.kind == Document && AllGood(vs, file)
  }

  ghost predicate FileInv(vs: Versions, s: State)
  {
    && Plain(s.file) && s.file.kind == Document && AllGood(vs, s.file)
    && (forall i :: 0 <= i < |s.written| ==> s.written[i] in vs && !Wants(s.file, s.written[i], vs[s.written[i]]))
    && (forall i, j :: 0 <= i < j < |s.written| ==> s.written[i] != s.written[j])
    && (s.write.Writing? ==>
          && s.write.tg in vs && Wants(s.file, s.write.tg, vs[s.write.tg])
          && s.write.out == AfterWrite(s.file, s.write.tg, vs[s.write.tg]))
  }

  /** A write gives its target its version and leaves the others as they were. */
  lemma WriteKeepsTargets(vs: Versions, file: Tree, tg: Target, other: Target)
    requires Sound(vs, file) && tg in vs && other in vs
    ensures Sound(vs, AfterWrite(file, tg, vs[tg]))
    ensures Wants(AfterWrite(file, tg, vs[tg]), other, vs[other]) <==> other != tg && Wants(file, other, vs[other])
  {
    PrintedEdit(file, tg, vs[tg]);
    SettlesIffGood(file, tg, vs[tg]);
    forall o | o in vs ensures Good(AfterWrite(file, tg, vs[tg]), o) {
      if o == tg {
        TargetStaysGood(file, tg, vs[tg]);
      } else {
        OtherTargets(file, tg, vs[tg], o, vs[o]);
      }
    }
    if other != tg {
      OtherTargets(file, tg, vs[tg], other, vs[other]);
    }
  }

  lemma RenameKeepsFile(vs: Versions, s: State, m: int)
    requires FileInv(vs, s) && Enabled(vs, s, Rename(m))
    ensures FileInv(vs, Apply(vs, s, Rename(m)))
  {
    var s', tg := Apply(vs, s, Rename(m)), s.write.tg;
    WriteKeepsTargets(vs, s.file, tg, tg);
    forall i | 0 <= i < |s'.written| ensures s'.written[i] in vs && !Wants(s'.file, s'.written[i], vs[s'.written[i]]) {
      if i < |s.written| {
        assert s'.written[i] == s.written[i];
        WriteKeepsTargets(vs, s.file, tg, s.written[i]);
      }
    }
  }

  lemma StepKeepsFile(vs: Versions, s: State, st: Step)
    requires FileInv(vs, s) && Enabled(vs, s, st)
    ensures FileInv(vs, Apply(vs, s, st))
  {
    if st.Rename? {
      RenameKeepsFile(vs, s, st.mtime);
    }
  }

  // ---------- reloads ----------

  function Pending(s: State): nat
  {
    if s.poll.Some? then 1 else 0
  }

  /** A reload needs a new time, and only an edit or a write makes one. `extra` is a poll under way at the edit. */
  ghost predicate ReloadInv(extra: nat, s: State)
  {
    match s.seen
    case None => s.reloads + Pending(s) <= extra
    case Some(n) =>
      && s.reloads + Pending(s) <= extra + 1 + n && n <= |s.written|
      && (n == |s.written| ==> s.lastMod == s.mtime)
  }

  lemma StepKeepsReloads(vs: Versions, extra: nat, s: State, st: Step)
    requires ReloadInv(extra, s) && Enabled(vs, s, st)
    ensures ReloadInv(extra, Apply(vs, s, st))
  {
  }

  // ---------- convergence ----------

  lemma {:induction false} InvariantsHold(vs: Versions, states: seq<State>, steps: seq<Step>, k: nat)
    requires IsRun(vs, states, steps) && k <= |steps|
    requires JustEdited(states[0]) && AllGood(vs, states[0].file)
    ensures FileInv(vs, states[k]) && ReloadInv(Pending(states[0]), states[k])
  {
    if k > 0 {
      InvariantsHold(vs, states, steps, k - 1);
      StepKeepsFile(vs, states[k - 1], steps[k - 1]);
      StepKeepsReloads(vs, Pending(states[0]), states[k - 1], steps[k - 1]);
    }
  }

  lemma {:induction false} DistinctFits(xs: seq<Target>, of: set<Target>)
    requires forall i :: 0 <= i < |xs| ==> xs[i] in of
    requires forall i, j :: 0 <= i < j < |xs| ==> xs[i] != xs[j]
    ensures |xs| <= |of|
  {
    if xs != [] {
      var last := xs[|xs| - 1];
      assert last in of;
      DistinctFits(xs[..|xs| - 1], of - {last});
    }
  }

  /**
   * If every target is good, then in every run, whatever the polls, times and failures: no target is
   * written twice, and the file is reloaded at most once for the edit and once for each write, plus
   * once for a poll that was under way at the edit.
   */
  lemma Converges(vs: Versions, states: seq<State>, steps: seq<Step>, k: nat)
    requires IsRun(vs, states, steps) && k <= |steps|
    requires JustEdited(states[0]) && AllGood(vs, states[0].file)
    ensures forall i, j :: 0 <= i < j < |states[k].written| ==> states[k].written[i] != states[k].written[j]
    ensures |states[k].written| <= |vs.Keys|
    ensures states[k].reloads <= 1 + |states[k].written| + Pending(states[0])
  {
    InvariantsHold(vs, states, steps, k);
    DistinctFits(states[k].written, vs.Keys);
  }

  /**
   * A write that is wanted can be seen by a poll before its time is recorded: then it is reloaded as if it
   * were foreign.
   */
  function Cycle(tg: Target, m: int): seq<Step>
  {
    [Begin(tg), Rename(m), Stat(true), Compare, Record(true)]
  }

  predicate Quiet(s: State)
  {
    s.write == NoWrite && s.poll.None?
  }

  lemma OwnWriteReloads(vs: Versions, s: State, tg: Target) returns (states: seq<State>, steps: seq<Step>)
    requires Quiet(s) && tg in vs && Wants(s.file, tg, vs[tg])
    ensures IsRun(vs, states, steps) && states[0] == s && |steps| == 5
    ensures Quiet(states[5]) && states[5].file == AfterWrite(s.file, tg, vs[tg])
    ensures states[5].written == s.written + [tg] && states[5].reloads == s.reloads + 1
  {
    var m := 1 + (if s.lastMod > 0 then s.lastMod else 0) + (if s.lastWriteTime > 0 then s.lastWriteTime else 0);
    steps := Cycle(tg, m);
    var s1 := Apply(vs, s, Begin(tg));
    var s2 := Apply(vs, s1, Rename(m));
    var s3 := Apply(vs, s2, Stat(true));
    var s4 := Apply(vs, s3, Compare);
    states := [s, s1, s2, s3, s4, Apply(vs, s4, Record(true))];
  }

  /** A target that is not good is written again and again, and each time the file can be reloaded. */
  lemma {:induction false} NeverSettles(vs: Versions, s: State, tg: Target, n: nat)
    returns (states: seq<State>, steps: seq<Step>)
    requires Quiet(s) && Plain(s.file) && s.file.kind == Document
    requires tg in vs && vs[tg] != "" && !Good(s.file, tg)
    ensures IsRun(vs, states, steps) && states[0] == s
    ensures var last := states[|steps|]; |last.written| == |s.written| + n && last.reloads == s.reloads + n
    decreases n
  {
    NotGoodIsWanted(s.file, tg, vs[tg]);
    if n == 0 {
      states, steps := [s], [];
    } else {
      var head, first := OwnWriteReloads(vs, s, tg);
      var t := head[5];
      PrintedEdit(s.file, tg, vs[tg]);
      TargetStaysGood(s.file, tg, vs[tg]);
      var tail, more := NeverSettles(vs, t, tg, n - 1);
      states, steps := head[..5] + tail, first + more;
      RunsJoin(vs, head, first, tail, more);
    }
  }

  lemma NotGoodIsWanted(file: Tree, tg: Target, version: string)
    requires Plain(file) && version != "" && !Good(file, tg)
    ensures Wants(file, tg, version)
  {
    WantsByEntry(file, tg, version);
    LookupIsPlain(file.content[0], tg.Path());
    var entry := LookupIn(file, tg.Path()).value;
    match Find(entry, CURRENT_VERSION)
    case Some(k) => assert Versioned(entry, version).content[k].value == version != entry.content[k].value;
    case None => assert |Versioned(entry, version).content| == |entry.content| + 2;
  }

  /** Every run from a state has at most one write for each target. */
  ghost predicate Settles(vs: Versions, s: State)
  {
    forall states: seq<State>, steps: seq<Step> :: IsRun(vs, states, steps) && states[0] == s ==>
      |states[|steps|].written| <= |vs.Keys|
  }

  /** The loop comes to rest whatever happens exactly if every target is good. */
  lemma SettlesExactlyIfAllGood(vs: Versions, s: State)
    requires JustEdited(s) && Quiet(s) && forall tg :: tg in vs ==> vs[tg] != ""
    ensures Settles(vs, s) <==> AllGood(vs, s.file)
  {
    if AllGood(vs, s.file) {
      forall states: seq<State>, steps: seq<Step> | IsRun(vs, states, steps) && states[0] == s
        ensures |states[|steps|].written| <= |vs.Keys|
      {
        Converges(vs, states, steps, |steps|);
      }
    } else {
      var tg :| tg in vs && !Good(s.file, tg);
      var states, steps := NeverSettles(vs, s, tg, |vs.Keys| + 1);
      assert !Settles(vs, s);
    }
  }

  lemma RunsJoin(vs: Versions, a: seq<State>, p: seq<Step>, b: seq<State>, q: seq<Step>)
    requires IsRun(vs, a, p) && IsRun(vs, b, q) && a[|p|] == b[0]
    ensures IsRun(vs, a[..|p|] + b, p + q)
  {
    var c, r := a[..|p|] + b, p + q;
    forall k | 0 <= k < |r| ensures Enabled(vs, c[k], r[k]) && c[k + 1] == Apply(vs, c[k], r[k]) {
      if k < |p| {
        assert c[k] == a[k] && r[k] == p[k] && c[k + 1] == a[k + 1];
      } else {
        assert c[k] == b[k - |p|] && r[k] == q[k - |p|] && c[k + 1] == b[k - |p| + 1];
      }
    }
  }
}
