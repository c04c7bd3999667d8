/** Replacing a standalone container by one created from the same configuration, with rollback. */
module Upgrade {
  import opened Strings
  import opened Daemon

  datatype Stage = AtInspect | AtPull | AtImageInspect | AtStop | AtRename | AtCreate | AtStart

  datatype Result = Upgraded(oldImage: string, newImage: string) | Failed(at: Stage)

  /** Container names are kept here without the slash that the daemon puts in front of them. */
  function BackupName(name: string, now: nat): (r: string)
    ensures r != name
  {
    var r := name + "_old_" + Digits(now);
    assert |r| > |name|;
    r
  }

  // ---------- network configuration ----------

  /** Same networks, each with the same IPAM configuration, links and aliases. */
  ghost predicate SameAttachments(a: Networks, b: Networks)
  {
    && a.Keys == b.Keys
    && forall n :: n in a ==> a[n].ipam == b[n].ipam && a[n].links == b[n].links && a[n].aliases == b[n].aliases
  }

  /** A stopped container with the name, the configuration and the networks of `c`. */
  ghost predicate IsLike(made: Container, c: Container)
  {
    && made.name == c.name && made.config == c.config && made.hostConfig == c.hostConfig && !made.running
    && SameAttachments(made.networks, c.networks)
  }

  /** What the user configured is kept, and what the daemon fills in is left empty. */
  method BuildNetworkConfig(networks: Networks) returns (cfg: Networks)
    ensures cfg.Keys == networks.Keys
    ensures forall n :: n in networks ==>
      && cfg[n].ipam == networks[n].ipam && cfg[n].links == networks[n].links && cfg[n].aliases == networks[n].aliases
      && cfg[n].filledIn == ""
  {
    cfg := map[];
    var left := networks.Keys;
    while left != {}
      invariant left <= networks.Keys
      invariant cfg.Keys == networks.Keys - left
      invariant forall n :: n in cfg ==>
        && cfg[n].ipam == networks[n].ipam && cfg[n].links == networks[n].links && cfg[n].aliases == networks[n].aliases
        && cfg[n].filledIn == ""
      decreases left
    {
      var n :| n in left;
      cfg := cfg[n := Endpoint(networks[n].ipam, networks[n].links, networks[n].aliases, "")];
      left := left - {n};
    }
  }

  // ---------- the calls of an upgrade ----------

  /** What is fixed during one upgrade: where it starts, and the replacement it would create. */
  datatype Setting = Setting(before: Containers, id: ContainerId, newId: ContainerId, made: Container, backup: string) {

    ghost predicate Valid()
    {
      UniqueNames(before) && Fits()
    }

    /** The replacement is made from the old container, for the same name and networks. */
    ghost predicate Fits()
    {
      && id in before && newId !in before
      && IsLike(made, before[id]) && made.name != backup
    }

    /** The calls that can change containers, by how the upgrade ends. */
    function Script(r: Result): seq<Call>
    {
      var stop, setAside := Stop(ById(id)), Rename(ById(id), backup);
      var create, startNew := Create(newId, made), Start(ById(newId));
      var nameBack, startOld := Rename(ByName(backup), made.name), Start(ById(id));
      match r
      case Upgraded(_, _) => [stop, setAside, create, startNew, Remove(ByName(backup))]
      case Failed(AtStop) => [stop]
      case Failed(AtRename) => [stop, setAside, startOld]
      case Failed(AtCreate) => [stop, setAside, create, nameBack, startOld]
      case Failed(AtStart) => [stop, setAside, create, startNew, Remove(ById(newId)), nameBack, startOld]
      case Failed(_) => []
    }
  }

  /** The query that failed, when that is how the upgrade ends. */
  function RefusedIn(r: Result): seq<Query>
  {
    match r
    case Failed(AtInspect) => [Inspect]
    case Failed(AtPull) => [Pull]
    case Failed(AtImageInspect) => [InspectImage]
    case _ => []
  }

  /** How many forward calls succeed; the call after them fails, and the rest undoes earlier ones. */
  function Succeeding(r: Result): nat
  {
    match r
    case Upgraded(_, _) => 4
    case Failed(AtRename) => 1
    case Failed(AtCreate) => 2
    case Failed(AtStart) => 3
    case Failed(_) => 0
  }

  /** The calls made, and which of the forward ones succeeded. */
  ghost predicate FollowsScript(s: Setting, r: Result, run: seq<Entry>)
  {
    && |run| == |s.Script(r)|
    && (forall k :: 0 <= k < |run| ==> run[k].call == s.Script(r)[k])
    && (forall k :: 0 <= k < Succeeding(r) && k < |run| ==> run[k].ok)
    && (r.Failed? && Succeeding(r) < |run| ==> !run[Succeeding(r)].ok)
  }

  /** `run` is what the daemon did in an upgrade that ended in `r`. */
  ghost predicate IsUpgrade(strict: bool, s: Setting, r: Result, run: seq<Entry>)
  {
    IsRun(strict, s.before, run) && FollowsScript(s, r, run)
  }

  ghost predicate AllOk(run: seq<Entry>)
  {
    forall k :: 0 <= k < |run| ==> run[k].ok
  }

  // ---------- what an upgrade promises ----------

  ghost predicate OldKept(s: Setting, cs: Containers)
    requires s.Valid()
  {
    s.id in cs && cs[s.id] == s.before[s.id].(name := cs[s.id].name, running := cs[s.id].running)
  }

  ghost predicate ReplacementRuns(s: Setting, cs: Containers)
    requires s.Valid()
  {
    s.newId in cs && cs[s.newId] == s.made.(running := true)
  }

  /**
   * Never without a container: the old one is still there with its configuration, or a replacement
   * made from it runs. All other containers are as before, and at most the replacement is new.
   */
  ghost predicate SafeState(s: Setting, cs: Containers)
    requires s.Valid()
  {
    && (OldKept(s, cs) || ReplacementRuns(s, cs))
    && (forall x :: x in s.before && x != s.id ==> x in cs && cs[x] == s.before[x])
    && (forall x :: x in cs ==> x in s.before || x == s.newId)
  }

  /** The initial state, except that the old container now runs. */
  ghost function RolledBack(s: Setting): Containers
    requires s.Valid()
  {
    s.before[s.id := s.before[s.id].(running := true)]
  }

  // ---------- shapes: the few states an upgrade can pass through ----------

  datatype OldState = Gone | Kept(renamed: bool, running: bool)
  datatype NewState = Absent | Present(running: bool)
  datatype Shape = Shape(prior: OldState, made: NewState)

  ghost function Concrete(s: Setting, sh: Shape): Containers
    requires s.Valid()
  {
    var c := s.before[s.id];
    map x | x in s.before.Keys + {s.newId}
            && (x == s.id ==> sh.prior.Kept?) && (x == s.newId ==> sh.made.Present?) ::
      if x == s.id then c.(name := if sh.prior.renamed then s.backup else c.name, running := sh.prior.running)
      else if x == s.newId then s.made.(running := sh.made.running)
      else s.before[x]
  }

  /** The effect of the calls of an upgrade on shapes. */
  function Next(s: Setting, sh: Shape, call: Call): Shape
    requires s.id != s.newId
  {
    match call
    case Stop(_) => if sh.prior.Kept? then sh.(prior := sh.prior.(running := false)) else sh
    case Start(ById(x)) =>
      if x == s.id && sh.prior.Kept? then sh.(prior := sh.prior.(running := true))
      else if x == s.newId && sh.made.Present? then sh.(made := Present(true))
      else sh
    case Rename(ById(_), _) => if sh.prior.Kept? then sh.(prior := sh.prior.(renamed := true)) else sh
    case Rename(ByName(_), _) => if sh.prior.Kept? then sh.(prior := sh.prior.(renamed := false)) else sh
    case Create(_, _) => sh.(made := Present(false))
    case Remove(ById(_)) => sh.(made := Absent)
    case Remove(ByName(_)) => sh.(prior := Gone)
    case _ => sh
  }

  /** A call by the backup name is made only once the old container has that name. */
  ghost predicate Expected(s: Setting, sh: Shape, call: Call)
    requires s.Valid()
  {
    || call in {Stop(ById(s.id)), Start(ById(s.id)), Start(ById(s.newId)), Rename(ById(s.id), s.backup),
                Create(s.newId, s.made), Remove(ById(s.newId))}
    || (sh.prior.Kept? && sh.prior.renamed && call in {Rename(ByName(s.backup), s.made.name), Remove(ByName(s.backup))})
  }

  /** The old container is the only one that can carry the backup name. */
  lemma BackupNameRefers(s: Setting, sh: Shape, x: ContainerId)
    requires s.Valid() && UniqueNames(Concrete(s, sh)) && sh.prior.Kept? && sh.prior.renamed
    ensures x in Concrete(s, sh) ==> (Refers(Concrete(s, sh), ByName(s.backup), x) <==> x == s.id)
  {
    assert Concrete(s, sh)[s.id].name == s.backup;
  }

  lemma EffectByName(s: Setting, sh: Shape, call: Call)
    requires s.Valid() && UniqueNames(Concrete(s, sh)) && sh.prior.Kept? && sh.prior.renamed
    requires call in {Rename(ByName(s.backup), s.made.name), Remove(ByName(s.backup))}
    ensures Effect(Concrete(s, sh), call) == Concrete(s, Next(s, sh, call))
  {
    var a, b := Effect(Concrete(s, sh), call), Concrete(s, Next(s, sh, call));
    forall x ensures x in a <==> x in b
      ensures x in a && x in b ==> a[x] == b[x]
    {
      BackupNameRefers(s, sh, x);
    }
  }

  lemma EffectOfSwitch(s: Setting, sh: Shape, call: Call)
    requires s.Valid() && call in {Stop(ById(s.id)), Start(ById(s.id)), Start(ById(s.newId))}
    ensures Effect(Concrete(s, sh), call) == Concrete(s, Next(s, sh, call))
  {
  }

  lemma EffectById(s: Setting, sh: Shape, call: Call)
    requires s.Valid() && call in {Rename(ById(s.id), s.backup), Create(s.newId, s.made), Remove(ById(s.newId))}
    ensures Effect(Concrete(s, sh), call) == Concrete(s, Next(s, sh, call))
  {
  }

  lemma EffectOnShape(s: Setting, sh: Shape, call: Call)
    requires s.Valid() && Expected(s, sh, call) && UniqueNames(Concrete(s, sh))
    ensures Effect(Concrete(s, sh), call) == Concrete(s, Next(s, sh, call))
  {
    match call
    case Stop(_) => EffectOfSwitch(s, sh, call);
    case Start(_) => EffectOfSwitch(s, sh, call);
    case Rename(ByName(_), _) => EffectByName(s, sh, call);
    case Remove(ByName(_)) => EffectByName(s, sh, call);
    case _ => EffectById(s, sh, call);
  }

  function InitialShape(s: Setting): Shape
    requires s.id in s.before
  {
    Shape(Kept(false, s.before[s.id].running), Absent)
  }

  /** One call of an upgrade moves to the next shape or, when it fails, may stay. */
  ghost predicate ShapeStep(strict: bool, s: Setting, sh: Shape, e: Entry, sh': Shape)
    requires s.id != s.newId
  {
    if e.ok then sh' == Next(s, sh, e.call) else sh' == sh || (!strict && sh' == Next(s, sh, e.call))
  }

  /** Shape by shape, what the run did. */
  ghost predicate ShapeRun(strict: bool, s: Setting, run: seq<Entry>, shs: seq<Shape>)
    requires s.Valid()
  {
    && |shs| == |run| + 1 && shs[0] == InitialShape(s)
    && forall k :: 0 <= k < |run| ==> ShapeStep(strict, s, shs[k], run[k], shs[k + 1])
  }

  lemma StepShape(strict: bool, s: Setting, sh: Shape, e: Entry) returns (sh': Shape)
    requires s.Valid() && Expected(s, sh, e.call) && UniqueNames(Concrete(s, sh))
    requires Happened(strict, Concrete(s, sh), e)
    ensures ShapeStep(strict, s, sh, e, sh')
    ensures e.after == Concrete(s, sh') && UniqueNames(e.after)
  {
    if e.after == Concrete(s, sh) && !e.ok {
      sh' := sh;
    } else {
      EffectOnShape(s, sh, e.call);
      EffectKeepsNamesUnique(Concrete(s, sh), e.call);
      sh' := Next(s, sh, e.call);
    }
  }

  /** The position of the call that uses the backup name, when there is one. */
  function ByNameAt(r: Result): nat
  {
    match r
    case Upgraded(_, _) => 4
    case Failed(AtCreate) => 3
    case Failed(AtStart) => 5
    case Failed(_) => 1
  }

  lemma ScriptIsExpected(s: Setting, r: Result, sh: Shape, k: nat)
    requires s.Valid() && k < |s.Script(r)|
    requires k == ByNameAt(r) && k > 1 ==> sh.prior == Kept(true, false)
    ensures Expected(s, sh, s.Script(r)[k])
  {
  }

  /** When the backup name is used, the old container has it. */
  lemma SetAsideByThen(strict: bool, s: Setting, r: Result, run: seq<Entry>, shs: seq<Shape>)
    requires s.Valid() && FollowsScript(s, r, run) && ByNameAt(r) > 1
    requires ShapeRun(strict, s, run[..ByNameAt(r)], shs)
    ensures shs[ByNameAt(r)].prior == Kept(true, false)
  {
    var init := run[..ByNameAt(r)];
    assert ShapeStep(strict, s, shs[0], init[0], shs[1]);
    assert ShapeStep(strict, s, shs[1], init[1], shs[2]);
    assert ShapeStep(strict, s, shs[2], init[2], shs[3]);
    if ByNameAt(r) > 3 {
      assert ShapeStep(strict, s, shs[3], init[3], shs[4]);
    }
    if ByNameAt(r) > 4 {
      assert ShapeStep(strict, s, shs[4], init[4], shs[5]);
    }
  }

  /** The state after `k` calls has the last of the shapes `shs`. */
  lemma {:induction false} ShapesUpTo(strict: bool, s: Setting, r: Result, run: seq<Entry>, k: nat)
    returns (shs: seq<Shape>)
    requires s.Valid() && IsUpgrade(strict, s, r, run) && k <= |run|
    ensures ShapeRun(strict, s, run[..k], shs)
    ensures Prior(s.before, run, k) == Concrete(s, shs[k]) && UniqueNames(Concrete(s, shs[k]))
  {
    if k == 0 {
      shs := [InitialShape(s)];
      assert s.before == Concrete(s, shs[0]);
    } else {
      var n := k - 1;
      var upTo := ShapesUpTo(strict, s, r, run, n);
      if n == ByNameAt(r) && n > 1 {
        SetAsideByThen(strict, s, r, run, upTo);
      }
      ScriptIsExpected(s, r, upTo[n], n);
      RunStep(strict, s.before, run, n);
      var sh := StepShape(strict, s, upTo[n], run[n]);
      ExtendShapes(strict, s, run, n, upTo, sh);
      shs := upTo + [sh];
    }
  }

  lemma ExtendShapes(strict: bool, s: Setting, run: seq<Entry>, n: nat, shs: seq<Shape>, sh: Shape)
    requires s.Valid() && n < |run| && ShapeRun(strict, s, run[..n], shs) && ShapeStep(strict, s, shs[n], run[n], sh)
    ensures ShapeRun(strict, s, run[..n + 1], shs + [sh])
  {
    assert run[..n + 1] == run[..n] + [run[n]];
  }

  // ---------- the promises, for every pattern of failures ----------

  /** The old container is kept, or its replacement runs. */
  lemma ShapesAreSafe(strict: bool, s: Setting, r: Result, run: seq<Entry>, k: nat, shs: seq<Shape>)
    requires s.Valid() && FollowsScript(s, r, run) && k <= |run| && ShapeRun(strict, s, run[..k], shs)
    ensures shs[k].prior.Kept? || shs[k].made == Present(true)
    ensures k < |run| || r.Failed? ==> shs[k].prior.Kept?
  {
    var init := run[..k];
    for i := 0 to k
      invariant i < |run| || r.Failed? ==> shs[i].prior.Kept?
      invariant r.Upgraded? && i >= 4 ==> shs[i].made == Present(true)
      invariant r.Upgraded? && i == 3 ==> shs[i].made == Present(false)
    {
      assert ShapeStep(strict, s, shs[i], init[i], shs[i + 1]);
    }
  }

  /**
   * Whatever fails, and even if failed calls took effect, every state on the way is safe; and after a
   * failed upgrade the old container is there under its own name or the backup name.
   */
  lemma EveryStateIsSafe(strict: bool, s: Setting, r: Result, run: seq<Entry>, k: nat)
    requires s.Valid() && IsUpgrade(strict, s, r, run) && k <= |run|
    ensures var cs := Prior(s.before, run, k);
      && SafeState(s, cs)
      && UniqueNames(cs)
      && (k < |run| || r.Failed? ==> OldKept(s, cs) && cs[s.id].name in {s.made.name, s.backup})
  {
    var shs := ShapesUpTo(strict, s, r, run, k);
    ShapesAreSafe(strict, s, r, run, k, shs);
    ShapeIsSafe(s, shs[k]);
  }

  lemma ShapeIsSafe(s: Setting, sh: Shape)
    requires s.Valid() && (sh.prior.Kept? || sh.made == Present(true))
    ensures SafeState(s, Concrete(s, sh))
    ensures sh.prior.Kept? ==> OldKept(s, Concrete(s, sh)) && Concrete(s, sh)[s.id].name in {s.made.name, s.backup}
  {
  }

  lemma StepAt(strict: bool, s: Setting, run: seq<Entry>, shs: seq<Shape>, k: nat)
    requires s.Valid() && ShapeRun(strict, s, run, shs) && k < |run|
    ensures ShapeStep(strict, s, shs[k], run[k], shs[k + 1])
  {
  }

  /** The final shape of a failed upgrade is the rolled-back one iff all compensations succeeded. */
  lemma RollbackShape(s: Setting, r: Result, run: seq<Entry>, shs: seq<Shape>)
    requires s.Valid() && FollowsScript(s, r, run) && ShapeRun(true, s, run, shs)
    requires r.Failed? && r.at in {AtRename, AtCreate, AtStart}
    ensures shs[|run|] == Shape(Kept(false, true), Absent) <==> AllOk(run[Succeeding(r) + 1..])
  {
    StepAt(true, s, run, shs, 0);
    StepAt(true, s, run, shs, 1);
    StepAt(true, s, run, shs, 2);
    var n := Succeeding(r) + 1;
    var undo := run[n..];
    match r.at
    case AtRename =>
      assert AllOk(undo) <==> run[2].ok by { assert undo == [run[2]]; }
    case AtCreate =>
      StepAt(true, s, run, shs, 3);
      StepAt(true, s, run, shs, 4);
      assert AllOk(undo) <==> run[3].ok && run[4].ok by { assert undo == [run[3], run[4]]; }
    case AtStart =>
      StepAt(true, s, run, shs, 3);
      StepAt(true, s, run, shs, 4);
      StepAt(true, s, run, shs, 5);
      StepAt(true, s, run, shs, 6);
      assert AllOk(undo) <==> run[4].ok && run[5].ok && run[6].ok by { assert undo == [run[4], run[5], run[6]]; }
  }

  /** Different shapes are different states. */
  lemma RolledBackIsAShape(s: Setting, sh: Shape)
    requires s.Valid()
    ensures Concrete(s, sh) == RolledBack(s) <==> sh == Shape(Kept(false, true), Absent)
  {
    var cs, back := Concrete(s, sh), RolledBack(s);
    assert s.newId in cs <==> sh.made.Present?;
    assert s.id in cs <==> sh.prior.Kept?;
    if sh == Shape(Kept(false, true), Absent) {
      assert cs == back;
    } else if sh.prior.Kept? {
      assert s.newId in cs || cs[s.id] != back[s.id];
    }
  }

  /**
   * In a daemon whose errors mean that nothing happened: a failure up to the stop changes nothing, and
   * after a later failure the initial state is restored, with the old container running under its
   * original name and no replacement left, if and only if every compensation succeeds.
   */
  lemma RollbackIsExact(s: Setting, r: Result, run: seq<Entry>)
    requires s.Valid() && IsUpgrade(true, s, r, run) && r.Failed?
    ensures var cs := Prior(s.before, run, |run|);
      if r.at in {AtRename, AtCreate, AtStart} then cs == RolledBack(s) <==> AllOk(run[Succeeding(r) + 1..])
      else cs == s.before
  {
    if r.at in {AtRename, AtCreate, AtStart} {
      var shs := ShapesUpTo(true, s, r, run, |run|);
      assert run[..|run|] == run;
      RollbackShape(s, r, run, shs);
      RolledBackIsAShape(s, shs[|run|]);
    } else if r.at == AtStop {
      RunStep(true, s.before, run, 0);
    }
  }

  /** The initial containers with the replacement running under the original name, in place of `id`. */
  ghost function Replaced(s: Setting): Containers
    requires s.Valid()
  {
    (s.before - {s.id})[s.newId := s.made.(running := true)]
  }

  /** As Replaced, with the old container left behind, stopped, under the backup name. */
  ghost function ReplacedBeside(s: Setting): Containers
    requires s.Valid()
  {
    s.before[s.id := s.before[s.id].(name := s.backup, running := false)][s.newId := s.made.(running := true)]
  }

  lemma SuccessShape(strict: bool, s: Setting, r: Result, run: seq<Entry>, shs: seq<Shape>)
    requires s.Valid() && FollowsScript(s, r, run) && ShapeRun(strict, s, run, shs) && r.Upgraded?
    ensures shs[5] in {Shape(Gone, Present(true)), Shape(Kept(true, false), Present(true))}
    ensures run[4].ok ==> shs[5].prior.Gone?
    ensures !run[4].ok && strict ==> shs[5].prior.Kept?
  {
    StepAt(strict, s, run, shs, 0);
    StepAt(strict, s, run, shs, 1);
    StepAt(strict, s, run, shs, 2);
    StepAt(strict, s, run, shs, 3);
    StepAt(strict, s, run, shs, 4);
  }

  lemma SuccessStates(s: Setting)
    requires s.Valid()
    ensures Concrete(s, Shape(Gone, Present(true))) == Replaced(s)
    ensures Concrete(s, Shape(Kept(true, false), Present(true))) == ReplacedBeside(s)
  {
  }

  /**
   * A successful upgrade ends in one of two states, told apart by whether the last call succeeded. In both
   * the container under the original name runs with the old configuration, on the old networks with the
   * same IPAM configuration, links and aliases.
   */
  lemma SuccessIsReplacement(strict: bool, s: Setting, r: Result, run: seq<Entry>)
    requires s.Valid() && IsUpgrade(strict, s, r, run) && r.Upgraded?
    ensures var cs := Prior(s.before, run, |run|);
      && (run[4].ok ==> cs == Replaced(s))
      && (!run[4].ok && strict ==> cs == ReplacedBeside(s))
      && (cs == Replaced(s) || cs == ReplacedBeside(s))
    ensures var cs, was := Prior(s.before, run, |run|), s.before[s.id];
      && s.newId in cs && cs[s.newId].running && cs[s.newId].name == was.name
      && cs[s.newId].config == was.config && cs[s.newId].hostConfig == was.hostConfig
      && cs[s.newId].networks.Keys == was.networks.Keys
      && forall n :: n in was.networks ==>
           && cs[s.newId].networks[n].ipam == was.networks[n].ipam
           && cs[s.newId].networks[n].links == was.networks[n].links
           && cs[s.newId].networks[n].aliases == was.networks[n].aliases
  {
    var shs := ShapesUpTo(strict, s, r, run, |run|);
    assert run[..|run|] == run;
    SuccessShape(strict, s, r, run, shs);
    SuccessStates(s);
  }

  // ---------- the upgrade itself ----------

  const NO_CONTAINER := Container("", Config("", ""), "", map[], "", false)

  /** What one upgrade starts from; the daemon decides the id and the filled-in part of `made`. */
  ghost function Start0(d: Daemon, id: ContainerId, now: nat): Setting
    reads d
  {
    var c := if id in d.containers then d.containers[id] else NO_CONTAINER;
    Setting(d.containers, id, ContainerId(d.nextId), c.(running := false), BackupName(c.name, now))
  }

  /**
   * Replace container `id`. The ghost results describe what happened: `run` is what the daemon did,
   * and `s` the setting it happened in. With them, EveryStateIsSafe, RollbackIsExact and
   * SuccessIsReplacement say what every state on the way and the final state can be.
   */
  method UpgradeStandalone(d: Daemon, id: ContainerId, now: nat)
    returns (r: Result, ghost s: Setting, ghost run: seq<Entry>)
    requires d.Valid()
    modifies d
    ensures d.Valid() && d.start == old(d.start) && Entries(d.log) == Entries(old(d.log)) + run
    ensures d.containers == Prior(old(d.containers), run, |run|)
    ensures id !in old(d.containers) ==> r == Failed(AtInspect) && run == []
    ensures id in old(d.containers) ==>
      && s.Valid() && IsUpgrade(d.strict, s, r, run)
      && s.before == old(d.containers) && s.id == id
      && s.backup == s.before[id].name + "_old_" + Digits(now)
    ensures r.Upgraded? ==> r.oldImage == s.before[id].config.image && r.newImage == s.made.imageId
    ensures d.refused == old(d.refused) + RefusedIn(r)
  {
    RunKeepsNamesUnique(d.strict, d.start, Entries(d.log));
    r, s, run := Replace(d, id, now);
    RunSuffix(d.strict, d.start, Entries(old(d.log)), run);
  }

  predicate Ended(e: Entry, call: Call, ok: bool)
  {
    e.call == call && e.ok == ok
  }

  lemma EntriesThen(before: Log, log: Log, run: seq<Entry>, e: Entry)
    requires Entries(log) == Entries(before) + run
    ensures Entries(Then(log, e)) == Entries(before) + (run + [e])
  {
  }

  lemma Entries3(before: Log, e1: Entry, e2: Entry, e3: Entry)
    ensures Entries(Then(Then(Then(before, e1), e2), e3)) == Entries(before) + [e1, e2, e3]
  {
    EntriesThen(before, Then(before, e1), [e1], e2);
    EntriesThen(before, Then(Then(before, e1), e2), [e1, e2], e3);
  }

  lemma Entries5(before: Log, e1: Entry, e2: Entry, e3: Entry, e4: Entry, e5: Entry)
    ensures Entries(Then(Then(Then(Then(Then(before, e1), e2), e3), e4), e5)) == Entries(before) + [e1, e2, e3, e4, e5]
  {
    Entries3(before, e1, e2, e3);
    var log := Then(Then(Then(before, e1), e2), e3);
    EntriesThen(before, log, [e1, e2, e3], e4);
    EntriesThen(before, Then(log, e4), [e1, e2, e3, e4], e5);
  }

  /** The calls of a log after `before`, oldest first, are those of the script. */
  lemma FollowsStopFailed(s: Setting, before: Log, e1: Entry) returns (run: seq<Entry>)
    requires Ended(e1, Stop(ById(s.id)), false)
    ensures Entries(Then(before, e1)) == Entries(before) + run && FollowsScript(s, Failed(AtStop), run)
  {
    run := [e1];
  }

  lemma FollowsRenameFailed(s: Setting, before: Log, e1: Entry, e2: Entry, e3: Entry) returns (run: seq<Entry>)
    requires Ended(e1, Stop(ById(s.id)), true) && Ended(e2, Rename(ById(s.id), s.backup), false)
    requires e3.call == Start(ById(s.id))
    ensures Entries(Then(Then(Then(before, e1), e2), e3)) == Entries(before) + run
    ensures FollowsScript(s, Failed(AtRename), run)
  {
    run := [e1, e2, e3];
    Entries3(before, e1, e2, e3);
  }

  lemma FollowsCreateFailed(s: Setting, before: Log, e1: Entry, e2: Entry, e3: Entry, e4: Entry, e5: Entry)
    returns (run: seq<Entry>)
    requires Ended(e1, Stop(ById(s.id)), true) && Ended(e2, Rename(ById(s.id), s.backup), true)
    requires Ended(e3, Create(s.newId, s.made), false)
    requires e4.call == Rename(ByName(s.backup), s.made.name) && e5.call == Start(ById(s.id))
    ensures Entries(Then(Then(Then(Then(Then(before, e1), e2), e3), e4), e5)) == Entries(before) + run
    ensures FollowsScript(s, Failed(AtCreate), run)
  {
    run := [e1, e2, e3, e4, e5];
    Entries5(before, e1, e2, e3, e4, e5);
  }

  lemma FollowsStartFailed(s: Setting, before: Log, e1: Entry, e2: Entry, e3: Entry, e4: Entry, e5: Entry, e6: Entry,
      e7: Entry)
    returns (run: seq<Entry>)
    requires Ended(e1, Stop(ById(s.id)), true) && Ended(e2, Rename(ById(s.id), s.backup), true)
    requires Ended(e3, Create(s.newId, s.made), true) && Ended(e4, Start(ById(s.newId)), false)
    requires e5.call == Remove(ById(s.newId))
    requires e6.call == Rename(ByName(s.backup), s.made.name) && e7.call == Start(ById(s.id))
    ensures Entries(Then(Then(Then(Then(Then(Then(Then(before, e1), e2), e3), e4), e5), e6), e7))
         == Entries(before) + run
    ensures FollowsScript(s, Failed(AtStart), run)
  {
    run := [e1, e2, e3, e4, e5, e6, e7];
    Entries5(before, e1, e2, e3, e4, e5);
    var log := Then(Then(Then(Then(Then(before, e1), e2), e3), e4), e5);
    EntriesThen(before, log, [e1, e2, e3, e4, e5], e6);
    EntriesThen(before, Then(log, e6), [e1, e2, e3, e4, e5, e6], e7);
  }

  lemma FollowsSuccess(s: Setting, r: Result, before: Log, e1: Entry, e2: Entry, e3: Entry, e4: Entry, e5: Entry)
    returns (run: seq<Entry>)
    requires r.Upgraded?
    requires Ended(e1, Stop(ById(s.id)), true) && Ended(e2, Rename(ById(s.id), s.backup), true)
    requires Ended(e3, Create(s.newId, s.made), true) && Ended(e4, Start(ById(s.newId)), true)
    requires e5.call == Remove(ByName(s.backup))
    ensures Entries(Then(Then(Then(Then(Then(before, e1), e2), e3), e4), e5)) == Entries(before) + run
    ensures FollowsScript(s, r, run)
  {
    run := [e1, e2, e3, e4, e5];
    Entries5(before, e1, e2, e3, e4, e5);
  }

  /** A container like `c`; the daemon decides its id. */
  method CreateFrom(d: Daemon, c: Container) returns (ok: bool, newId: ContainerId, ghost made: Container)
    requires d.Valid()
    modifies d`containers, d`nextId, d`log
    ensures d.Logged(Create(newId, made), ok) && d.Valid()
    ensures newId == ContainerId(old(d.nextId))
    ensures IsLike(made, c)
    ensures c.config.image in d.images ==> made.imageId == d.images[c.config.image]
  {
    var endpoints := BuildNetworkConfig(c.networks);
    ok, newId, made := d.ContainerCreate(c.config, c.hostConfig, endpoints, c.name);
  }

  /** Undo the rename and the stop; errors are ignored. */
  method RestoreOld(d: Daemon, id: ContainerId, backupName: string, originalName: string)
    returns (ghost e: Entry, ghost e': Entry)
    requires d.Valid()
    modifies d`containers, d`log
    ensures d.Valid() && d.start == old(d.start) && d.log == Then(Then(old(d.log), e), e')
    ensures e.call == Rename(ByName(backupName), originalName) && e'.call == Start(ById(id))
  {
    var ok := d.ContainerRename(ByName(backupName), originalName);
    e := Entry(Rename(ByName(backupName), originalName), ok, d.containers);
    ok := d.ContainerStart(id);
    e' := Entry(Start(ById(id)), ok, d.containers);
  }

  /** The container and the image that its reference means after a pull, or where that failed. */
  method Prepare(d: Daemon, id: ContainerId) returns (at: Option<Stage>, c: Container, newImage: string)
    modifies d`images, d`refused
    ensures at.None? ==> id in d.containers && c == d.containers[id]
    ensures at.None? ==> c.config.image in d.images && newImage == d.images[c.config.image]
    ensures id !in d.containers ==> at == Some(AtInspect)
    ensures at.Some? ==> at.value in {AtInspect, AtPull, AtImageInspect}
    ensures d.refused == if at.None? then old(d.refused) else old(d.refused) + RefusedIn(Failed(at.value))
  {
    newImage := "";
    c := NO_CONTAINER;
    var inspect := d.ContainerInspect(id);
    if inspect.None? {
      return Some(AtInspect), c, newImage;
    }
    c := inspect.value;
    var pulled := d.ImagePull(c.config.image);
    if !pulled {
      return Some(AtPull), c, newImage;
    }
    var image := d.ImageInspect(c.config.image);
    if image.None? {
      return Some(AtImageInspect), c, newImage;
    }
    return None, c, image.value;
  }

  method Replace(d: Daemon, id: ContainerId, now: nat) returns (r: Result, ghost s: Setting, ghost run: seq<Entry>)
    requires d.Valid()
    modifies d
    ensures d.Valid() && d.start == old(d.start) && Entries(d.log) == Entries(old(d.log)) + run
    ensures id !in old(d.containers) ==> r == Failed(AtInspect) && run == []
    ensures id in old(d.containers) ==>
      && s.Fits() && FollowsScript(s, r, run)
      && s.before == old(d.containers) && s.id == id
      && s.backup == s.before[id].name + "_old_" + Digits(now)
    ensures r.Upgraded? ==> r.oldImage == s.before[id].config.image && r.newImage == s.made.imageId
    ensures d.refused == old(d.refused) + RefusedIn(r)
  {
    s := Start0(d, id, now);
    run := [];
    var at, c, newImage := Prepare(d, id);
    if at.Some? {
      return Failed(at.value), s, run;
    }
    r, s, run := Swap(d, id, c, newImage, now);
  }

  /** The calls that change containers, each error exit undoing what came before it. */
  method Swap(d: Daemon, id: ContainerId, c: Container, newImage: string, now: nat)
    returns (r: Result, ghost s: Setting, ghost run: seq<Entry>)
    requires d.Valid() && id in d.containers && c == d.containers[id]
    requires c.config.image in d.images && newImage == d.images[c.config.image]
    modifies d`containers, d`nextId, d`log
    ensures d.Valid() && Entries(d.log) == Entries(old(d.log)) + run
    ensures s.Fits() && FollowsScript(s, r, run)
    ensures s.before == old(d.containers) && s.id == id && s.backup == c.name + "_old_" + Digits(now)
    ensures r.Upgraded? ==> r.oldImage == c.config.image && r.newImage == s.made.imageId
    ensures r.Upgraded? || r.at in {AtStop, AtRename, AtCreate, AtStart}
  {
    s := Start0(d, id, now);
    ghost var log := d.log;
    var ok := d.ContainerStop(id);
    ghost var e1 := Entry(Stop(ById(id)), ok, d.containers);
    if !ok {
      run := FollowsStopFailed(s, log, e1);
      return Failed(AtStop), s, run;
    }
    var backupName := BackupName(c.name, now);
    ok := d.ContainerRename(ById(id), backupName);
    ghost var e2 := Entry(Rename(ById(id), backupName), ok, d.containers);
    if !ok {
      ok := d.ContainerStart(id);
      ghost var e3 := Entry(Start(ById(id)), ok, d.containers);
      run := FollowsRenameFailed(s, log, e1, e2, e3);
      return Failed(AtRename), s, run;
    }
    r, s, run := PutReplacement(d, id, c, newImage, backupName, s, log, e1, e2);
  }

  /** From the creation on: `s0` is the setting up to what is created, and e1 and e2 are the calls before. */
  method PutReplacement(d: Daemon, id: ContainerId, c: Container, newImage: string, backupName: string,
      ghost s0: Setting, ghost log: Log, ghost e1: Entry, ghost e2: Entry)
    returns (r: Result, ghost s: Setting, ghost run: seq<Entry>)
    requires d.Valid() && d.log == Then(Then(log, e1), e2)
    requires Ended(e1, Stop(ById(id)), true) && Ended(e2, Rename(ById(id), backupName), true)
    requires s0.id == id && s0.newId == ContainerId(d.nextId) && s0.backup == backupName && s0.made.name == c.name
    requires c.config.image in d.images && newImage == d.images[c.config.image]
    modifies d`containers, d`nextId, d`log
    ensures d.Valid() && Entries(d.log) == Entries(log) + run
    ensures s == s0.(made := s.made) && IsLike(s.made, c)
    ensures FollowsScript(s, r, run) && (r.Upgraded? || r.at in {AtCreate, AtStart})
    ensures r.Upgraded? ==> r.oldImage == c.config.image && r.newImage == s.made.imageId
  {
    s := s0;
    var ok, newId;
    ghost var made;
    ok, newId, made := CreateFrom(d, c);
    s := s.(made := made);
    ghost var e3 := Entry(Create(newId, made), ok, d.containers);
    if !ok {
      ghost var e4, e5 := RestoreOld(d, id, backupName, c.name);
      run := FollowsCreateFailed(s, log, e1, e2, e3, e4, e5);
      return Failed(AtCreate), s, run;
    }
    ok := d.ContainerStart(newId);
    ghost var e4 := Entry(Start(ById(newId)), ok, d.containers);
    if !ok {
      ok := d.ContainerRemove(ById(newId));
      ghost var e5 := Entry(Remove(ById(newId)), ok, d.containers);
      ghost var e6, e7 := RestoreOld(d, id, backupName, c.name);
      run := FollowsStartFailed(s, log, e1, e2, e3, e4, e5, e6, e7);
      return Failed(AtStart), s, run;
    }
    ok := d.ContainerRemove(ByName(backupName));
    ghost var e5 := Entry(Remove(ByName(backupName)), ok, d.containers);
    r := Upgraded(c.config.image, newImage);
    run := FollowsSuccess(s, r, log, e1, e2, e3, e4, e5);
  }
}
