/** The removal of the enrollment token, which reads and rewrites the file without the lock, among write-backs. */
module ClearRace {
  import opened Strings
  import opened Yaml
  import opened YamlNodes
  import opened Writer
  import WriteBack

  /** `clear` is what the removal has read and is about to write, without the token. */
  datatype State = State(base: WriteBack.State, clear: Option<Tree>)

  datatype Step = Other(step: WriteBack.Step) | ClearRead | ClearWrite(mtime: int)

  predicate Enabled(vs: WriteBack.Versions, s: State, st: Step)
  {
    match st
    case Other(step) => WriteBack.Enabled(vs, s.base, step)
    case ClearRead => s.clear.None?
    case ClearWrite(_) => s.clear.Some?
  }

  function Apply(vs: WriteBack.Versions, s: State, st: Step): State
    requires Enabled(vs, s, st)
  {
    match st
    case Other(step) => s.(base := WriteBack.Apply(vs, s.base, step))
    case ClearRead => s.(clear := Some(AfterClear(s.base.file)))
    case ClearWrite(m) => s.(base := s.base.(file := s.clear.value, mtime := m), clear := None)
  }

  ghost predicate IsRun(vs: WriteBack.Versions, states: seq<State>, steps: seq<Step>)
  {
    && |states| == |steps| + 1
    && forall k :: 0 <= k < |steps| ==>
         Enabled(vs, states[k], steps[k]) && states[k + 1] == Apply(vs, states[k], steps[k])
  }

  /** A run with one removal, which reads at step `a` and writes at step `c`; it starts with no write in progress. */
  ghost predicate IsRace(vs: WriteBack.Versions, states: seq<State>, steps: seq<Step>, a: nat, c: nat)
  {
    && IsRun(vs, states, steps) && states[0].base.write == WriteBack.NoWrite && states[0].clear.None?
    && a < c < |steps| && steps[a] == ClearRead && steps[c].ClearWrite?
    && (forall k :: 0 <= k < |steps| && k != a && k != c ==> steps[k].Other?)
    && forall tg :: tg in vs ==> tg.section != "runner"
  }

  // ---------- the runner's part of the document ----------

  function Runner(doc: Tree): Option<Tree>
  {
    LookupIn(doc, ["runner"])
  }

  function Dropped(runner: Option<Tree>): Option<Tree>
  {
    match runner case None => None case Some(t) => Some(WithoutToken(t))
  }

  lemma WriteKeepsRunner(doc: Tree, tg: Target, version: string)
    requires tg.section != "runner"
    ensures Runner(AfterWrite(doc, tg, version)) == Runner(doc)
  {
    if doc.content != [] {
      LookupApart(doc.content[0], tg.Path(), WriteVersion(version), ["runner"]);
    }
  }

  lemma ClearDropsToken(doc: Tree)
    ensures Runner(AfterClear(doc)) == Dropped(Runner(doc))
  {
    if doc.content != [] {
      LookupUpdated(doc.content[0], ["runner"], DropToken);
    }
  }

  /** The runner's part of a write in progress. */
  ghost predicate Carries(s: State, runner: Option<Tree>)
  {
    s.base.write.Writing? ==> Runner(s.base.write.out) == runner
  }

  predicate EndsWrite(st: Step)
  {
    st.Other? && (st.step.Rename? || st.step.Fail?)
  }

  lemma OtherStep(vs: WriteBack.Versions, s: State, st: Step)
    requires Enabled(vs, s, st) && st.Other? && forall tg :: tg in vs ==> tg.section != "runner"
    ensures var s' := Apply(vs, s, st);
      && s'.clear == s.clear
      && Runner(s'.base.file) == (if st.step.Rename? then Runner(s.base.write.out) else Runner(s.base.file))
      && (EndsWrite(st) ==> s.base.write.Writing? && !s'.base.write.Writing?)
      && (!EndsWrite(st) && s.base.write.Writing? ==> s'.base.write == s.base.write)
      && (!EndsWrite(st) && !s.base.write.Writing? ==> Carries(s', Runner(s.base.file)))
  {
    if st.step.Begin? {
      WriteKeepsRunner(s.base.file, st.step.tg, vs[st.step.tg]);
    }
  }

  // ---------- before and after the write of the removal ----------

  /** Until then the runner's part is as it was, and what the removal will write is what it read, without the token. */
  lemma {:induction false} BeforeClear(vs: WriteBack.Versions, states: seq<State>, steps: seq<Step>, a: nat, c: nat,
      k: nat)
    requires IsRace(vs, states, steps, a, c) && k <= c
    ensures Runner(states[k].base.file) == Runner(states[0].base.file)
    ensures Carries(states[k], Runner(states[0].base.file))
    ensures states[k].clear == if k <= a then None else Some(AfterClear(states[a].base.file))
  {
    if k > 0 {
      BeforeClear(vs, states, steps, a, c, k - 1);
      StepOf(vs, states, steps, a, c, k - 1);
      BeforeStep(vs, states[k - 1], steps[k - 1], Runner(states[0].base.file));
    }
  }

  lemma StepOf(vs: WriteBack.Versions, states: seq<State>, steps: seq<Step>, a: nat, c: nat, k: nat)
    requires IsRace(vs, states, steps, a, c) && k < |steps|
    ensures Enabled(vs, states[k], steps[k]) && states[k + 1] == Apply(vs, states[k], steps[k])
    ensures if k == a then steps[k] == ClearRead else if k == c then steps[k].ClearWrite? else steps[k].Other?
    ensures forall tg :: tg in vs ==> tg.section != "runner"
  {
  }

  lemma BeforeStep(vs: WriteBack.Versions, s: State, st: Step, runner: Option<Tree>)
    requires Enabled(vs, s, st) && !st.ClearWrite? && forall tg :: tg in vs ==> tg.section != "runner"
    requires Runner(s.base.file) == runner && Carries(s, runner)
    ensures var s' := Apply(vs, s, st);
      && Runner(s'.base.file) == runner && Carries(s', runner)
      && s'.clear == if st.ClearRead? then Some(AfterClear(s.base.file)) else s.clear
  {
    if st.Other? {
      OtherStep(vs, s, st);
    }
  }

  /** The write-back that was in progress at the removal's write still is. */
  ghost predicate StillOpen(states: seq<State>, steps: seq<Step>, c: nat, k: nat)
    requires c < k <= |steps| && c < |states|
  {
    states[c].base.write.Writing? && forall p :: c < p < k ==> !EndsWrite(steps[p])
  }

  /** A write-back that read the file before the removal's write renames after it, at step `r`. */
  ghost predicate Spans(states: seq<State>, steps: seq<Step>, c: nat, r: nat)
    requires |states| == |steps| + 1
  {
    c < r < |steps| && StillOpen(states, steps, c, r) && steps[r].Other? && steps[r].step.Rename?
  }

  ghost predicate SpannedBy(states: seq<State>, steps: seq<Step>, c: nat, k: nat)
    requires |states| == |steps| + 1
  {
    exists r: nat :: r < k && Spans(states, steps, c, r)
  }

  lemma SpannedStep(states: seq<State>, steps: seq<Step>, c: nat, k: nat)
    requires |states| == |steps| + 1 && c < k < |steps|
    ensures SpannedBy(states, steps, c, k + 1) <==> SpannedBy(states, steps, c, k) || Spans(states, steps, c, k)
    ensures StillOpen(states, steps, c, k + 1) <==> StillOpen(states, steps, c, k) && !EndsWrite(steps[k])
    ensures SpannedBy(states, steps, c, k) ==> !StillOpen(states, steps, c, k)
  {
    if r: nat :| r < k + 1 && Spans(states, steps, c, r) {
      assert r < k || r == k;
    }
  }

  /** What the file and a write in progress hold after the removal's write. */
  ghost predicate AfterwardsOk(states: seq<State>, steps: seq<Step>, c: nat, k: nat)
    requires |states| == |steps| + 1 && c < k <= |steps|
  {
    var was := Runner(states[0].base.file);
    var now := if SpannedBy(states, steps, c, k) then was else Dropped(was);
    && Runner(states[k].base.file) == now
    && Carries(states[k], if StillOpen(states, steps, c, k) then was else now)
    && (StillOpen(states, steps, c, k) ==> states[k].base.write.Writing?)
  }

  lemma {:induction false} AfterClearWrite(vs: WriteBack.Versions, states: seq<State>, steps: seq<Step>, a: nat,
      c: nat, k: nat)
    requires IsRace(vs, states, steps, a, c) && c < k <= |steps|
    ensures AfterwardsOk(states, steps, c, k)
  {
    var n := k - 1;
    StepOf(vs, states, steps, a, c, n);
    if n == c {
      BeforeClear(vs, states, steps, a, c, c);
      BeforeClear(vs, states, steps, a, c, a);
      ClearDropsToken(states[a].base.file);
      assert !SpannedBy(states, steps, c, k);
    } else {
      AfterClearWrite(vs, states, steps, a, c, n);
      SpannedStep(states, steps, c, n);
      OtherStep(vs, states[n], steps[n]);
    }
  }

  /**
   * At the end the runner's part is as it was if a write-back spans the removal's write, and otherwise
   * without the token.
   */
  lemma RunnerAtTheEnd(vs: WriteBack.Versions, states: seq<State>, steps: seq<Step>, a: nat, c: nat)
    requires IsRace(vs, states, steps, a, c)
    ensures Runner(states[|steps|].base.file) ==
      if exists r: nat :: Spans(states, steps, c, r) then Runner(states[0].base.file)
      else Dropped(Runner(states[0].base.file))
  {
    AfterClearWrite(vs, states, steps, a, c, |steps|);
    if r: nat :| Spans(states, steps, c, r) {
      assert r < |steps|;
    }
  }

  ghost predicate HasToken(doc: Tree)
  {
    LookupIn(doc, ["runner", "enrollment_token"]).Some?
  }

  lemma TokenOfRunner(doc: Tree)
    ensures HasToken(doc) <==> Runner(doc).Some? && Find(Runner(doc).value, "enrollment_token").Some?
  {
    if doc.content != [] {
      assert ["runner", "enrollment_token"] == ["runner"] + ["enrollment_token"];
      LookupBelow(doc.content[0], ["runner"], ["enrollment_token"]);
    }
  }

  /** The runner's mapping has the token once, not twice. */
  ghost predicate HasOneToken(doc: Tree)
  {
    && Runner(doc).Some? && Find(Runner(doc).value, "enrollment_token").Some?
    && var runner := Runner(doc).value;
       ValueIndex(runner.content, "enrollment_token", Find(runner, "enrollment_token").value + 1).None?
  }

  /**
   * A token that was there is gone at the end exactly if it was there once and no write-back spans the
   * removal's write.
   */
  lemma TokenIsGoneIff(vs: WriteBack.Versions, states: seq<State>, steps: seq<Step>, a: nat, c: nat)
    requires IsRace(vs, states, steps, a, c) && HasToken(states[0].base.file)
    ensures !HasToken(states[|steps|].base.file) <==>
      HasOneToken(states[0].base.file) && forall r: nat :: !Spans(states, steps, c, r)
  {
    RunnerAtTheEnd(vs, states, steps, a, c);
    TokenOfRunner(states[0].base.file);
    TokenOfRunner(states[|steps|].base.file);
    TokenIsGone(Runner(states[0].base.file).value);
  }

  /** The removal also undoes every version that was written between its read and its write. */
  lemma ClearUndoesWrites(vs: WriteBack.Versions, states: seq<State>, steps: seq<Step>, a: nat, c: nat)
    requires IsRace(vs, states, steps, a, c)
    ensures states[c + 1].base.file == AfterClear(states[a].base.file) && states[c + 1].clear.None?
  {
    BeforeClear(vs, states, steps, a, c, c);
    StepOf(vs, states, steps, a, c, c);
  }

  // ---------- the versions that were written ----------

  /** A race in which every version can be stored; `written` starts with the run. */
  ghost predicate IsGoodRace(vs: WriteBack.Versions, states: seq<State>, steps: seq<Step>, a: nat, c: nat)
  {
    && IsRace(vs, states, steps, a, c) && states[0].base.written == []
    && WriteBack.Sound(vs, states[0].base.file)
  }

  /** Step `i` puts the version of a target into the file. */
  predicate Renames(states: seq<State>, steps: seq<Step>, i: nat, tg: Target)
    requires i < |steps| && |states| == |steps| + 1
  {
    steps[i].Other? && steps[i].step.Rename? && states[i].base.write.Writing? && states[i].base.write.tg == tg
  }

  lemma ClearKeepsTargets(vs: WriteBack.Versions, file: Tree, tg: Target)
    requires WriteBack.Sound(vs, file) && tg in vs && forall o :: o in vs ==> o.section != "runner"
    ensures WriteBack.Sound(vs, AfterClear(file)) && (Wants(AfterClear(file), tg, vs[tg]) <==> Wants(file, tg, vs[tg]))
  {
    PrintedClear(file);
    forall o | o in vs ensures LookupIn(AfterClear(file), o.Path()) == LookupIn(file, o.Path()) {
      if file.content != [] {
        LookupApart(file.content[0], ["runner"], DropToken, o.Path());
      }
    }
    WantsByEntry(file, tg, vs[tg]);
    WantsByEntry(AfterClear(file), tg, vs[tg]);
  }

  lemma {:induction false} FileBefore(vs: WriteBack.Versions, states: seq<State>, steps: seq<Step>, a: nat, c: nat,
      k: nat)
    requires IsGoodRace(vs, states, steps, a, c) && k <= c
    ensures WriteBack.FileInv(vs, states[k].base)
  {
    if k > 0 {
      FileBefore(vs, states, steps, a, c, k - 1);
      StepOf(vs, states, steps, a, c, k - 1);
      if k - 1 != a {
        WriteBack.StepKeepsFile(vs, states[k - 1].base, steps[k - 1].step);
      }
    }
  }

  /** One step before the removal's write: only the rename of a target ends its want, and nothing starts it. */
  lemma WantBefore(vs: WriteBack.Versions, states: seq<State>, steps: seq<Step>, a: nat, c: nat, k: nat, tg: Target)
    requires IsGoodRace(vs, states, steps, a, c) && k < c && tg in vs
    ensures Wants(states[k + 1].base.file, tg, vs[tg]) <==>
      Wants(states[k].base.file, tg, vs[tg]) && !Renames(states, steps, k, tg)
    ensures Renames(states, steps, k, tg) ==> Wants(states[k].base.file, tg, vs[tg])
  {
    FileBefore(vs, states, steps, a, c, k);
    StepOf(vs, states, steps, a, c, k);
    WantStep(vs, states[k], steps[k], tg);
  }

  lemma WantStep(vs: WriteBack.Versions, s: State, st: Step, tg: Target)
    requires WriteBack.FileInv(vs, s.base) && Enabled(vs, s, st) && !st.ClearWrite? && tg in vs
    ensures var renames := st.Other? && st.step.Rename? && s.base.write.tg == tg;
      && (Wants(Apply(vs, s, st).base.file, tg, vs[tg]) <==> Wants(s.base.file, tg, vs[tg]) && !renames)
      && (renames ==> Wants(s.base.file, tg, vs[tg]))
  {
    if st.Other? {
      if st.step.Rename? {
        RenameBefore(vs, s.base, st.step, tg);
      } else {
        QuietStep(vs, s.base, st.step);
      }
    }
  }

  lemma RenameBefore(vs: WriteBack.Versions, s: WriteBack.State, st: WriteBack.Step, tg: Target)
    requires WriteBack.FileInv(vs, s) && WriteBack.Enabled(vs, s, st) && st.Rename? && tg in vs
    ensures Wants(WriteBack.Apply(vs, s, st).file, tg, vs[tg]) <==> Wants(s.file, tg, vs[tg]) && s.write.tg != tg
    ensures Wants(s.file, s.write.tg, vs[s.write.tg])
  {
    WriteBack.WriteKeepsTargets(vs, s.file, s.write.tg, tg);
  }

  /** Once ended, it stays so until the removal's write. */
  lemma {:induction false} WantsFade(vs: WriteBack.Versions, states: seq<State>, steps: seq<Step>, a: nat, c: nat,
      i: nat, k: nat, tg: Target)
    requires IsGoodRace(vs, states, steps, a, c) && i <= k <= c && tg in vs
    ensures Wants(states[k].base.file, tg, vs[tg]) ==> Wants(states[i].base.file, tg, vs[tg])
    decreases k
  {
    if i < k {
      var n := k - 1;
      WantsFade(vs, states, steps, a, c, i, n, tg);
      WantBefore(vs, states, steps, a, c, n, tg);
    }
  }

  ghost predicate RenamedAfter(states: seq<State>, steps: seq<Step>, c: nat, k: nat, tg: Target)
    requires k <= |steps| && |states| == |steps| + 1
  {
    exists j: nat :: c < j < k && Renames(states, steps, j, tg)
  }

  /** The document that the write in progress started from. */
  function Base(states: seq<State>, c: nat, k: nat, open: bool): Tree
    requires c < |states| && k < |states|
  {
    if open then states[c].base.file else states[k].base.file
  }

  ghost predicate ComesFrom(vs: WriteBack.Versions, w: WriteBack.Write, file: Tree)
  {
    w.Writing? ==> w.tg in vs && w.out == AfterWrite(file, w.tg, vs[w.tg])
  }

  /** After the removal's write: what the file wants, and where the write in progress comes from. */
  ghost predicate VersionsOk(vs: WriteBack.Versions, states: seq<State>, steps: seq<Step>, a: nat, c: nat, k: nat,
      tg: Target)
    requires |states| == |steps| + 1 && a < c < k <= |steps| && tg in vs
  {
    var s := states[k].base;
    && WriteBack.Sound(vs, s.file)
    && (StillOpen(states, steps, c, k) ==> s.write == states[c].base.write)
    && ComesFrom(vs, s.write, Base(states, c, k, StillOpen(states, steps, c, k)))
    && (Wants(s.file, tg, vs[tg]) <==>
          !RenamedAfter(states, steps, c, k, tg)
          && Wants(states[if SpannedBy(states, steps, c, k) then c else a].base.file, tg, vs[tg]))
  }

  lemma RenamedStep(states: seq<State>, steps: seq<Step>, c: nat, k: nat, tg: Target)
    requires c < k < |steps| && |states| == |steps| + 1
    ensures RenamedAfter(states, steps, c, k + 1, tg) <==>
      RenamedAfter(states, steps, c, k, tg) || Renames(states, steps, k, tg)
  {
    if j: nat :| c < j < k + 1 && Renames(states, steps, j, tg) {
      assert j < k || j == k;
    }
  }

  /** While the write that was open at the removal's write still is, nothing has been renamed since. */
  lemma OpenMeansNoRename(states: seq<State>, steps: seq<Step>, c: nat, k: nat, tg: Target)
    requires |states| == |steps| + 1 && c < k <= |steps| && StillOpen(states, steps, c, k)
    ensures !RenamedAfter(states, steps, c, k, tg)
  {
    if j: nat :| c < j < k && Renames(states, steps, j, tg) {
      assert EndsWrite(steps[j]);
    }
  }

  lemma {:induction false} VersionsAfter(vs: WriteBack.Versions, states: seq<State>, steps: seq<Step>, a: nat, c: nat,
      k: nat, tg: Target)
    requires IsGoodRace(vs, states, steps, a, c) && c < k <= |steps| && tg in vs
    ensures VersionsOk(vs, states, steps, a, c, k, tg)
    decreases k
  {
    var n := k - 1;
    StepOf(vs, states, steps, a, c, n);
    if n == c {
      AtClearWrite(vs, states, steps, a, c, tg);
    } else {
      VersionsAfter(vs, states, steps, a, c, n, tg);
      if steps[n].step.Rename? {
        RenameAfter(vs, states, steps, a, c, n, tg);
      } else {
        OtherAfter(vs, states, steps, a, c, n, tg);
      }
    }
  }

  /** A step that leaves the file alone may begin, fail or record a write. */
  lemma QuietStep(vs: WriteBack.Versions, s: WriteBack.State, st: WriteBack.Step)
    requires WriteBack.Enabled(vs, s, st) && !st.Rename?
    ensures var s' := WriteBack.Apply(vs, s, st);
      && s'.file == s.file
      && (s'.write == s.write || ComesFrom(vs, s'.write, s.file))
      && (s.write.Writing? && !st.Fail? ==> s'.write == s.write)
  {
  }

  lemma OtherAfter(vs: WriteBack.Versions, states: seq<State>, steps: seq<Step>, a: nat, c: nat, n: nat, tg: Target)
    requires IsGoodRace(vs, states, steps, a, c) && c < n < |steps| && tg in vs
    requires VersionsOk(vs, states, steps, a, c, n, tg) && steps[n].Other? && !steps[n].step.Rename?
    ensures VersionsOk(vs, states, steps, a, c, n + 1, tg)
  {
    StepOf(vs, states, steps, a, c, n);
    QuietStep(vs, states[n].base, steps[n].step);
    SpannedStep(states, steps, c, n);
    RenamedStep(states, steps, c, n, tg);
    OpenWrite(vs, states, steps, c, n);
  }

  /** The open write is the one of the removal's write, so a step that leaves it open leaves it as it is. */
  lemma OpenWrite(vs: WriteBack.Versions, states: seq<State>, steps: seq<Step>, c: nat, n: nat)
    requires |states| == |steps| + 1 && c < n < |steps| && steps[n].Other? && Enabled(vs, states[n], steps[n])
    requires StillOpen(states, steps, c, n) ==> states[n].base.write == states[c].base.write
    ensures StillOpen(states, steps, c, n + 1) ==> StillOpen(states, steps, c, n) && states[n].base.write.Writing?
    ensures StillOpen(states, steps, c, n) && !StillOpen(states, steps, c, n + 1) ==> EndsWrite(steps[n])
  {
    SpannedStep(states, steps, c, n);
  }

  lemma AtClearWrite(vs: WriteBack.Versions, states: seq<State>, steps: seq<Step>, a: nat, c: nat, tg: Target)
    requires IsGoodRace(vs, states, steps, a, c) && tg in vs
    ensures VersionsOk(vs, states, steps, a, c, c + 1, tg)
  {
    StepOf(vs, states, steps, a, c, c);
    FileBefore(vs, states, steps, a, c, a);
    FileBefore(vs, states, steps, a, c, c);
    BeforeClear(vs, states, steps, a, c, c);
    ClearKeepsTargets(vs, states[a].base.file, tg);
    assert !SpannedBy(states, steps, c, c + 1) && !RenamedAfter(states, steps, c, c + 1, tg);
  }

  lemma RenameAfter(vs: WriteBack.Versions, states: seq<State>, steps: seq<Step>, a: nat, c: nat, n: nat, tg: Target)
    requires IsGoodRace(vs, states, steps, a, c) && c < n < |steps| && tg in vs
    requires VersionsOk(vs, states, steps, a, c, n, tg) && steps[n].Other? && steps[n].step.Rename?
    ensures VersionsOk(vs, states, steps, a, c, n + 1, tg)
  {
    StepOf(vs, states, steps, a, c, n);
    FileBefore(vs, states, steps, a, c, c);
    SpannedStep(states, steps, c, n);
    RenamedStep(states, steps, c, n, tg);
    if StillOpen(states, steps, c, n) {
      OpenMeansNoRename(states, steps, c, n, tg);
      assert Spans(states, steps, c, n);
    }
    WriteBack.WriteKeepsTargets(vs, Base(states, c, n, StillOpen(states, steps, c, n)), states[n].base.write.tg, tg);
  }

  /** Step `i` is the last one to write this target. */
  ghost predicate LastRenames(states: seq<State>, steps: seq<Step>, i: nat, tg: Target)
    requires |states| == |steps| + 1
  {
    i < |steps| && Renames(states, steps, i, tg) && forall j: nat :: i < j < |steps| ==> !Renames(states, steps, j, tg)
  }

  /**
   * A version that was written is missing at the end exactly if its last write fell between the removal's
   * read and its write, and no write-back spans the removal's write: one that does brings it back.
   */
  lemma WrittenVersionIsLostIff(vs: WriteBack.Versions, states: seq<State>, steps: seq<Step>, a: nat, c: nat, i: nat,
      tg: Target)
    requires IsGoodRace(vs, states, steps, a, c) && tg in vs && LastRenames(states, steps, i, tg)
    ensures Wants(states[|steps|].base.file, tg, vs[tg]) <==>
      a < i < c && forall r: nat :: !Spans(states, steps, c, r)
  {
    VersionsAfter(vs, states, steps, a, c, |steps|, tg);
    assert RenamedAfter(states, steps, c, |steps|, tg) <==> i > c;
    assert SpannedBy(states, steps, c, |steps|) <==> exists r: nat :: Spans(states, steps, c, r);
    if i < c {
      WantBefore(vs, states, steps, a, c, i, tg);
      WantsFade(vs, states, steps, a, c, i + 1, c, tg);
      if i < a {
        WantsFade(vs, states, steps, a, c, i + 1, a, tg);
      } else {
        WantsFade(vs, states, steps, a, c, a, i, tg);
      }
    }
  }

  /** A token can come back: a write-back that read it before the removal's write renames after it. */
  lemma TokenComesBack(vs: WriteBack.Versions, s: State, tg: Target) returns (states: seq<State>, steps: seq<Step>)
    requires s.base.write == WriteBack.NoWrite && s.clear.None? && HasToken(s.base.file)
    requires tg in vs && Wants(s.base.file, tg, vs[tg]) && forall o :: o in vs ==> o.section != "runner"
    ensures IsRace(vs, states, steps, 1, 2) && states[0] == s && HasToken(states[|steps|].base.file)
  {
    steps := [Other(WriteBack.Begin(tg)), ClearRead, ClearWrite(2), Other(WriteBack.Rename(3))];
    var s1 := Apply(vs, s, steps[0]);
    var s2 := Apply(vs, s1, steps[1]);
    var s3 := Apply(vs, s2, steps[2]);
    states := [s, s1, s2, s3, Apply(vs, s3, steps[3])];
    WriteKeepsRunner(s.base.file, tg, vs[tg]);
    TokenOfRunner(s.base.file);
    TokenOfRunner(states[4].base.file);
  }
}
