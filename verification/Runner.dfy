/** The runner's shared tables, changed only inside sections that hold its mutex. */
module Runner {
  import opened Strings
  import opened Config

  datatype RunId = RunId(n: nat)

  /** Legacy operations and app operations have separate slot tables. */
  datatype Kind = Legacy | OfApp

  /** What at most one run may hold: an operation name, or an "app:operation" key. */
  datatype Slot = Slot(kind: Kind, key: string)

  function AppKey(appName: string, opName: string): string
  {
    appName + ":" + opName
  }

  /** App names without a colon make the key, and so the slot and the history name, unambiguous. */
  lemma AppKeyInjective(a: string, x: string, b: string, y: string)
    requires ':' !in a && ':' !in b
    requires AppKey(a, x) == AppKey(b, y)
    ensures a == b && x == y
  {
    var k := AppKey(a, x);
    ColonAt(a, ":" + x);
    ColonAt(b, ":" + y);
    assert k == a + (":" + x) == b + (":" + y);
    assert k[..|a|] == a && k[|a| + 1..] == x;
    assert k[..|b|] == b && k[|b| + 1..] == y;
  }

  /** Another app operation that would have the same key: the key split at another colon. */
  lemma OtherSplit(a: string, x: string) returns (b: string, y: string)
    requires ':' in a || ':' in x
    ensures (b != a || y != x) && AppKey(b, y) == AppKey(a, x)
  {
    if ':' in a {
      var i :| 0 <= i < |a| && a[i] == ':';
      b, y := a[..i], a[i + 1..] + ":" + x;
      assert a == a[..i] + ":" + a[i + 1..];
      assert |b| < |a|;
    } else {
      var i :| 0 <= i < |x| && x[i] == ':';
      b, y := a + ":" + x[..i], x[i + 1..];
      assert x == x[..i] + ":" + x[i + 1..];
      assert |b| > |a|;
    }
    assert AppKey(b, y) == AppKey(a, x);
  }

  /** A key with only its own colon has no other reading. */
  lemma OneColonOneSplit(a: string, x: string, b: string, y: string)
    requires ':' !in a && ':' !in x && AppKey(b, y) == AppKey(a, x)
    ensures b == a && y == x
  {
    var k := AppKey(a, x);
    assert AppKey(b, y)[|b|] == ':';
    assert forall i :: 0 <= i < |a| ==> k[i] == a[i];
    assert forall i :: |a| < i < |k| ==> k[i] == x[i - |a| - 1];
    assert |b| == |a|;
    assert k[..|a|] == a && AppKey(b, y)[..|b|] == b;
    assert k[|a| + 1..] == x && AppKey(b, y)[|b| + 1..] == y;
  }

  /** Some other app operation would have the key of this one exactly if one of its two names has a colon. */
  lemma AppKeyIsSharedIff(a: string, x: string)
    ensures (exists b, y :: (b != a || y != x) && AppKey(b, y) == AppKey(a, x)) <==> ':' in a || ':' in x
  {
    if ':' in a || ':' in x {
      var b, y := OtherSplit(a, x);
      assert AppKey(b, y) == AppKey(a, x);
    } else {
      forall b, y | AppKey(b, y) == AppKey(a, x) ensures b == a && y == x {
        OneColonOneSplit(a, x, b, y);
      }
    }
  }

  /** The longer app name goes on, after a colon, with the start of the other operation's name. */
  ghost predicate ReadsOn(a: string, x: string, b: string, y: string)
  {
    exists m :: b == a + ":" + m && x == m + ":" + y
  }

  /** Two different app operations share a slot and a history name exactly if one app name reads on into the other. */
  lemma AppKeysCollideIff(a: string, x: string, b: string, y: string)
    requires a != b || x != y
    ensures AppKey(a, x) == AppKey(b, y) <==> ReadsOn(a, x, b, y) || ReadsOn(b, y, a, x)
  {
    if AppKey(a, x) == AppKey(b, y) {
      if |a| < |b| {
        LongerReadsOn(a, x, b, y);
      } else if |b| < |a| {
        LongerReadsOn(b, y, a, x);
      } else {
        SameLengthSameNames(a, x, b, y);
      }
    }
    if ReadsOn(a, x, b, y) {
      ReadsOnCollides(a, x, b, y);
    }
    if ReadsOn(b, y, a, x) {
      ReadsOnCollides(b, y, a, x);
    }
  }

  /** A key is its two names with a colon between them. */
  lemma KeyParts(a: string, x: string)
    ensures var k := AppKey(a, x);
      |k| == |a| + 1 + |x| && k[..|a|] == a && k[|a|] == ':' && k[|a| + 1..] == x
  {
  }

  lemma SameLengthSameNames(a: string, x: string, b: string, y: string)
    requires AppKey(a, x) == AppKey(b, y) && |a| == |b|
    ensures a == b && x == y
  {
    KeyParts(a, x);
    KeyParts(b, y);
  }

  lemma LongerReadsOn(a: string, x: string, b: string, y: string)
    requires AppKey(a, x) == AppKey(b, y) && |a| < |b|
    ensures ReadsOn(a, x, b, y)
  {
    var k, n := AppKey(a, x), |a|;
    KeyParts(a, x);
    KeyParts(b, y);
    var m := k[n + 1..|b|];
    assert k[..|b|] == k[..n] + [k[n]] + m;
    assert k[n + 1..] == m + [k[|b|]] + k[|b| + 1..];
    assert b == a + ":" + m && x == m + ":" + y;
  }

  lemma ReadsOnCollides(a: string, x: string, b: string, y: string)
    requires ReadsOn(a, x, b, y)
    ensures AppKey(a, x) == AppKey(b, y)
  {
    var m :| b == a + ":" + m && x == m + ":" + y;
    assert AppKey(a, x) == a + ":" + m + ":" + y == AppKey(b, y);
  }

  /** Such a pair. */
  lemma AppKeyCollision()
    ensures AppKey("a:b", "c") == AppKey("a", "b:c")
  {
    assert AppKey("a:b", "c") == "a:b:c";
    assert AppKey("a", "b:c") == "a:b:c";
  }

  /** The tables guarded by the mutex. */
  datatype Shared = Shared(
    ops: map<string, Operation>,
    apps: map<string, App>,
    active: map<string, bool>,
    cancels: map<string, RunId>,
    appsActive: map<string, bool>,
    appsCancels: map<string, RunId>
  ) {

    function Active(kind: Kind): map<string, bool>
    {
      match kind case Legacy => active case OfApp => appsActive
    }

    function Cancels(kind: Kind): map<string, RunId>
    {
      match kind case Legacy => cancels case OfApp => appsCancels
    }

    predicate IsActive(slot: Slot)
    {
      slot.key in Active(slot.kind) && Active(slot.kind)[slot.key]
    }

    function CancelOf(slot: Slot): Option<RunId>
    {
      if slot.key in Cancels(slot.kind) then Some(Cancels(slot.kind)[slot.key]) else None
    }

    function Taken(slot: Slot): Shared
    {
      match slot.kind
      case Legacy => this.(active := active[slot.key := true])
      case OfApp => this.(appsActive := appsActive[slot.key := true])
    }

    function Registered(slot: Slot, id: RunId): Shared
    {
      match slot.kind
      case Legacy => this.(cancels := cancels[slot.key := id])
      case OfApp => this.(appsCancels := appsCancels[slot.key := id])
    }

    function Released(slot: Slot): Shared
    {
      match slot.kind
      case Legacy => this.(active := active - {slot.key}, cancels := cancels - {slot.key})
      case OfApp => this.(appsActive := appsActive - {slot.key}, appsCancels := appsCancels - {slot.key})
    }

    function OpVersionSet(name: string, version: string): Shared
    {
      var op := if name in ops then ops[name] else ZERO_OPERATION;
      this.(ops := ops[name := op.(currentVersion := version)])
    }

    function AppVersionSet(name: string, version: string): Shared
    {
      var app := if name in apps then apps[name] else ZERO_APP;
      this.(apps := apps[name := app.(currentVersion := version)])
    }

    /** What Run and RunApp look up: the job to execute, when the name is known. */
    function FindOp(name: string): Option<Job>
    {
      if name in ops then Some(JobOf(ops[name])) else None
    }

    function FindAppOp(appName: string, opName: string): Option<Job>
    {
      if appName in apps && opName in apps[appName].operations
      then Some(AppJobOf(apps[appName].operations[opName])) else None
    }
  }

  /** The effect of each section on one slot, and that it leaves every other slot alone. */
  lemma TakenOnSlots(s: Shared, slot: Slot, other: Slot)
    ensures s.Taken(slot).IsActive(other) <==> other == slot || s.IsActive(other)
    ensures s.Taken(slot).CancelOf(other) == s.CancelOf(other)
  {
  }

  lemma RegisteredOnSlots(s: Shared, slot: Slot, id: RunId, other: Slot)
    ensures s.Registered(slot, id).CancelOf(other) == if other == slot then Some(id) else s.CancelOf(other)
    ensures s.Registered(slot, id).IsActive(other) <==> s.IsActive(other)
  {
  }

  lemma ReleasedOnSlots(s: Shared, slot: Slot, other: Slot)
    ensures s.Released(slot).IsActive(other) <==> other != slot && s.IsActive(other)
    ensures s.Released(slot).CancelOf(other) == if other == slot then None else s.CancelOf(other)
  {
  }

  class Runner {
    var ops: map<string, Operation>
    var apps: map<string, App>
    var active: map<string, bool>
    var cancels: map<string, RunId>
    var appsActive: map<string, bool>
    var appsCancels: map<string, RunId>
    /** The runs whose context was cancelled by Cancel or CancelApp. */
    var cancelled: set<RunId>

    function View(): Shared
      reads this
    {
      Shared(ops, apps, active, cancels, appsActive, appsCancels)
    }

    constructor (ops: map<string, Operation>, apps: map<string, App>)
      ensures View() == Shared(ops, apps, map[], map[], map[], map[]) && cancelled == {}
    {
      this.ops, this.apps := ops, apps;
      active, cancels, appsActive, appsCancels, cancelled := map[], map[], map[], map[], {};
    }

    method LookUp(name: string) returns (r: Option<Job>)
      ensures r == View().FindOp(name)
      ensures r.Some? <==> name in ops
      ensures r.Some? ==>
        IsConfigured(r.value, ops[name].command, ops[name].workingDir, ops[name].timeout, ops[name].persistent)
    {
      if name !in ops {
        return None;
      }
      var op := ops[name];
      JobIsConfigured(op.command, op.workingDir, op.timeout, op.persistent);
      return Some(JobOf(op));
    }

    method LookUpApp(appName: string, opName: string) returns (r: Option<Job>)
      ensures r == View().FindAppOp(appName, opName)
      ensures r.Some? <==> appName in apps && opName in apps[appName].operations
      ensures r.Some? ==>
        var op := apps[appName].operations[opName];
        IsConfigured(r.value, op.command, op.workingDir, op.timeout, op.persistent)
    {
      if appName !in apps {
        return None;
      }
      var app := apps[appName];
      if opName !in app.operations {
        return None;
      }
      var op := app.operations[opName];
      JobIsConfigured(op.command, op.workingDir, op.timeout, op.persistent);
      return Some(AppJobOf(op));
    }

    method TakeSlot(name: string) returns (ok: bool)
      modifies this`active
      ensures ok <==> !(name in old(active) && old(active)[name])
      ensures ok <==> !old(View()).IsActive(Slot(Legacy, name))
      ensures View() == if ok then old(View()).Taken(Slot(Legacy, name)) else old(View())
    {
      if name in active && active[name] {
        return false;
      }
      active := active[name := true];
      return true;
    }

    method TakeAppSlot(key: string) returns (ok: bool)
      modifies this`appsActive
      ensures ok <==> !(key in old(appsActive) && old(appsActive)[key])
      ensures ok <==> !old(View()).IsActive(Slot(OfApp, key))
      ensures View() == if ok then old(View()).Taken(Slot(OfApp, key)) else old(View())
    {
      if key in appsActive && appsActive[key] {
        return false;
      }
      appsActive := appsActive[key := true];
      return true;
    }

    method RegisterCancel(name: string, id: RunId)
      modifies this`cancels
      ensures View() == old(View()).Registered(Slot(Legacy, name), id)
    {
      cancels := cancels[name := id];
    }

    method RegisterAppCancel(key: string, id: RunId)
      modifies this`appsCancels
      ensures View() == old(View()).Registered(Slot(OfApp, key), id)
    {
      appsCancels := appsCancels[key := id];
    }

    method ReleaseSlot(name: string)
      modifies this`active, this`cancels
      ensures View() == old(View()).Released(Slot(Legacy, name))
    {
      active := active - {name};
      cancels := cancels - {name};
    }

    method ReleaseAppSlot(key: string)
      modifies this`appsActive, this`appsCancels
      ensures View() == old(View()).Released(Slot(OfApp, key))
    {
      appsActive := appsActive - {key};
      appsCancels := appsCancels - {key};
    }

    method Cancel(name: string) returns (ok: bool)
      modifies this`cancelled
      ensures ok <==> View().CancelOf(Slot(Legacy, name)).Some?
      ensures cancelled == if ok then old(cancelled) + {View().CancelOf(Slot(Legacy, name)).value} else old(cancelled)
    {
      if name !in cancels {
        return false;
      }
      cancelled := cancelled + {cancels[name]};
      return true;
    }

    method CancelApp(appName: string, opName: string) returns (ok: bool)
      modifies this`cancelled
      ensures var slot := Slot(OfApp, AppKey(appName, opName));
        && (ok <==> View().CancelOf(slot).Some?)
        && cancelled == if ok then old(cancelled) + {View().CancelOf(slot).value} else old(cancelled)
    {
      var key := appName + ":" + opName;
      if key !in appsCancels {
        return false;
      }
      cancelled := cancelled + {appsCancels[key]};
      return true;
    }

    method Reload(newOps: map<string, Operation>)
      modifies this`ops
      ensures View() == old(View()).(ops := newOps)
    {
      ops := newOps;
    }

    method ReloadApps(newApps: map<string, App>)
      modifies this`apps
      ensures View() == old(View()).(apps := newApps)
    {
      apps := newApps;
    }

    /** The last section of a version check; a missing name reads as the zero value, as in Go. */
    method WriteBack(name: string, version: string)
      modifies this`ops
      ensures View() == old(View()).OpVersionSet(name, version)
      ensures name in ops && ops[name] ==
        if name in old(ops) then old(ops)[name].(currentVersion := version)
        else Operation("", "", 0, "", false, version, "", None)
    {
      var updated := if name in ops then ops[name] else ZERO_OPERATION;
      updated := updated.(currentVersion := version);
      ops := ops[name := updated];
    }

    method WriteBackApp(appName: string, version: string)
      modifies this`apps
      ensures View() == old(View()).AppVersionSet(appName, version)
      ensures appName in apps && apps[appName] ==
        if appName in old(apps) then old(apps)[appName].(currentVersion := version)
        else App("", version, "", None, "", None, "", map[])
    {
      var updated := if appName in apps then apps[appName] else ZERO_APP;
      updated := updated.(currentVersion := version);
      apps := apps[appName := updated];
    }
  }
}
