/** The Docker daemon as an upgrade sees it: containers, images, and calls any of which may fail. */
module Daemon {
  import opened Strings

  datatype ContainerId = ContainerId(n: nat)

  /** How a call names its container; a daemon id never equals a name. */
  datatype Ref = ById(id: ContainerId) | ByName(name: string)

  /** `filledIn` stands for what the daemon fills in: network and endpoint ids, gateway, addresses. */
  datatype Endpoint = Endpoint(ipam: Option<string>, links: seq<string>, aliases: seq<string>, filledIn: string)

  type Networks = map<string, Endpoint>

  /** `rest` stands for the fields that an upgrade passes through unread. */
  datatype Config = Config(image: string, rest: string)

  datatype Container = Container(
    name: string,
    config: Config,
    hostConfig: string,
    networks: Networks,
    imageId: string,
    running: bool
  )

  type Containers = map<ContainerId, Container>

  ghost predicate UniqueNames(cs: Containers)
  {
    forall a, b :: a in cs && b in cs && cs[a].name == cs[b].name ==> a == b
  }

  predicate NameFree(cs: Containers, name: string)
  {
    forall a :: a in cs ==> cs[a].name != name
  }

  predicate Refers(cs: Containers, ref: Ref, id: ContainerId)
  {
    id in cs && match ref case ById(i) => i == id case ByName(n) => cs[id].name == n
  }

  ghost predicate Resolves(cs: Containers, ref: Ref)
  {
    exists id :: id in cs && Refers(cs, ref, id)
  }

  /** The calls that only ask, or fetch an image. */
  datatype Query = Inspect | Pull | InspectImage

  /** The calls that can change containers; Create carries the container it would make. */
  datatype Call =
    | Stop(ref: Ref)
    | Start(ref: Ref)
    | Rename(ref: Ref, newName: string)
    | Create(id: ContainerId, container: Container)
    | Remove(ref: Ref)

  ghost predicate Possible(cs: Containers, call: Call)
  {
    match call
    case Rename(ref, newName) => Resolves(cs, ref) && NameFree(cs, newName)
    case Create(id, c) => id !in cs && NameFree(cs, c.name)
    case _ => Resolves(cs, call.ref)
  }

  function Effect(cs: Containers, call: Call): Containers
  {
    match call
    case Stop(ref) => map id | id in cs :: if Refers(cs, ref, id) then cs[id].(running := false) else cs[id]
    case Start(ref) => map id | id in cs :: if Refers(cs, ref, id) then cs[id].(running := true) else cs[id]
    case Rename(ref, newName) => map id | id in cs :: if Refers(cs, ref, id) then cs[id].(name := newName) else cs[id]
    case Create(id, c) => cs[id := c]
    case Remove(ref) => map id | id in cs && !Refers(cs, ref, id) :: cs[id]
  }

  /** One call, what it answered, and the containers right after it. */
  datatype Entry = Entry(call: Call, ok: bool, after: Containers)

  /**
   * How a call may turn out. Success means that it was possible and took effect. After an error
   * nothing changed, or, unless the daemon is strict, the effect may have happened all the same.
   */
  ghost predicate Happened(strict: bool, before: Containers, e: Entry)
  {
    if e.ok then Possible(before, e.call) && e.after == Effect(before, e.call)
    else e.after == before || (!strict && Possible(before, e.call) && e.after == Effect(before, e.call))
  }

  /** The calls made so far, latest first. */
  datatype Log = NoCalls | Then(earlier: Log, last: Entry)

  function Entries(log: Log): seq<Entry>
  {
    match log case NoCalls => [] case Then(earlier, last) => Entries(earlier) + [last]
  }

  /** The containers that the k-th call of a run finds. */
  function Prior(before: Containers, run: seq<Entry>, k: nat): Containers
    requires k <= |run|
  {
    if k == 0 then before else run[k - 1].after
  }

  /** A sequence of calls made one after the other. */
  ghost predicate IsRun(strict: bool, before: Containers, run: seq<Entry>)
  {
    run == [] ||
    var n := |run| - 1;
    IsRun(strict, before, run[..n]) && Happened(strict, Prior(before, run, n), run[n])
  }

  lemma {:induction false} RunStep(strict: bool, before: Containers, run: seq<Entry>, k: nat)
    requires IsRun(strict, before, run) && k < |run|
    ensures Happened(strict, Prior(before, run, k), run[k])
  {
    var n := |run| - 1;
    if k < n {
      RunStep(strict, before, run[..n], k);
      assert Prior(before, run, k) == Prior(before, run[..n], k);
    }
  }

  lemma ExtendRun(strict: bool, before: Containers, run: seq<Entry>, e: Entry)
    requires IsRun(strict, before, run) && Happened(strict, Prior(before, run, |run|), e)
    ensures IsRun(strict, before, run + [e])
    ensures Prior(before, run + [e], |run| + 1) == e.after
  {
    assert (run + [e])[..|run|] == run;
    assert Prior(before, run + [e], |run|) == Prior(before, run, |run|);
  }

  lemma {:induction false} RunKeepsNamesUnique(strict: bool, before: Containers, run: seq<Entry>)
    requires UniqueNames(before) && IsRun(strict, before, run)
    ensures UniqueNames(Prior(before, run, |run|))
  {
    if run != [] {
      var n := |run| - 1;
      RunKeepsNamesUnique(strict, before, run[..n]);
      assert Prior(before, run, n) == Prior(before, run[..n], n);
      if run[n].after != Prior(before, run, n) {
        EffectKeepsNamesUnique(Prior(before, run, n), run[n].call);
      }
    }
  }

  /** The later part of a run is a run from where the earlier part ended. */
  lemma {:induction false} RunSuffix(strict: bool, before: Containers, a: seq<Entry>, b: seq<Entry>)
    requires IsRun(strict, before, a + b)
    ensures IsRun(strict, Prior(before, a, |a|), b)
    ensures Prior(before, a + b, |a + b|) == Prior(Prior(before, a, |a|), b, |b|)
  {
    if b != [] {
      var n := |b| - 1;
      assert (a + b)[..|a| + n] == a + b[..n];
      RunSuffix(strict, before, a, b[..n]);
      assert Prior(before, a + b, |a| + n) == Prior(before, a + b[..n], |a| + n);
      assert Prior(Prior(before, a, |a|), b, n) == Prior(Prior(before, a, |a|), b[..n], n);
    }
  }

  lemma EffectKeepsNamesUnique(cs: Containers, call: Call)
    requires UniqueNames(cs) && Possible(cs, call)
    ensures UniqueNames(Effect(cs, call))
  {
  }

  lemma CreateHappened(strict: bool, cs: Containers, id: ContainerId, c: Container, ok: bool, took: bool)
    requires id !in cs && (took ==> NameFree(cs, c.name)) && (ok ==> took) && (took && !ok ==> !strict)
    ensures Happened(strict, cs, Entry(Create(id, c), ok, if took then cs[id := c] else cs))
  {
  }

  class Daemon {
    /** In a strict daemon an error means that the call had no effect. */
    const strict: bool
    const assign: (ContainerId, string) -> string
    var containers: Containers
    var images: map<string, string>
    var nextId: nat
    /** What happened since the containers were `start`. */
    ghost var log: Log
    ghost var start: Containers
    /** The queries that failed. */
    ghost var refused: seq<Query>

    ghost predicate Valid()
      reads this
    {
      && UniqueNames(start)
      && IsRun(strict, start, Entries(log))
      && containers == Prior(start, Entries(log), |Entries(log)|)
      && (forall id :: id in containers ==> id.n < nextId)
    }

    /** The one state change of a call: its entry is appended to the history. */
    twostate predicate Logged(call: Call, ok: bool)
      reads this
    {
      log == Then(old(log), Entry(call, ok, containers)) && start == old(start)
    }

    constructor (strict: bool, assign: (ContainerId, string) -> string, containers: Containers, images: map<string,
        string>, nextId: nat)
      requires UniqueNames(containers) && forall id :: id in containers ==> id.n < nextId
      ensures Valid() && this.strict == strict && this.containers == start == containers
      ensures log == NoCalls && refused == []
    {
      this.strict, this.assign := strict, assign;
      this.containers, this.images, this.nextId, this.start, log := containers, images, nextId, containers, NoCalls;
      refused := [];
    }

    ghost method Note(e: Entry)
      requires IsRun(strict, start, Entries(log))
      requires Happened(strict, Prior(start, Entries(log), |Entries(log)|), e)
      modifies this`log
      ensures log == Then(old(log), e)
      ensures IsRun(strict, start, Entries(log)) && Prior(start, Entries(log), |Entries(log)|) == e.after
    {
      ExtendRun(strict, start, Entries(log), e);
      log := Then(log, e);
    }

    /** Some failure pattern: any call may fail, and a failed call may have taken effect. */
    method Attempt(possible: bool) returns (ok: bool, took: bool)
      ensures ok ==> took
      ensures took ==> possible
      ensures took && !ok ==> !strict
    {
      var works: bool := *;
      var lingers: bool := *;
      ok := possible && works;
      took := ok || (possible && !strict && lingers);
    }

    method ContainerInspect(id: ContainerId) returns (r: Option<Container>)
      modifies this`refused
      ensures r.Some? ==> id in containers && r.value == containers[id]
      ensures refused == if r.Some? then old(refused) else old(refused) + [Inspect]
    {
      var ok, took := Attempt(id in containers);
      r := if ok then Some(containers[id]) else None;
      refused := if ok then refused else refused + [Inspect];
    }

    method ImagePull(ref: string) returns (ok: bool)
      modifies this`images, this`refused
      ensures refused == if ok then old(refused) else old(refused) + [Pull]
      ensures forall r :: r != ref ==>
        (r in images <==> r in old(images)) && (r in images ==> images[r] == old(images)[r])
      ensures ok ==> ref in images
    {
      var digest: string := *;
      var took;
      ok, took := Attempt(true);
      if took {
        images := images[ref := digest];
      }
      refused := if ok then refused else refused + [Pull];
    }

    method ImageInspect(ref: string) returns (r: Option<string>)
      modifies this`refused
      ensures r.Some? ==> ref in images && r.value == images[ref]
      ensures refused == if r.Some? then old(refused) else old(refused) + [InspectImage]
    {
      var ok, took := Attempt(ref in images);
      r := if ok then Some(images[ref]) else None;
      refused := if ok then refused else refused + [InspectImage];
    }

    method ContainerStop(id: ContainerId) returns (ok: bool)
      requires Valid()
      modifies this`containers, this`log
      ensures Logged(Stop(ById(id)), ok) && Valid()
    {
      var took;
      ok, took := Attempt(id in containers);
      if took {
        containers := containers[id := containers[id].(running := false)];
        assert containers == Effect(old(containers), Stop(ById(id)));
      }
      Note(Entry(Stop(ById(id)), ok, containers));
    }

    method ContainerStart(id: ContainerId) returns (ok: bool)
      requires Valid()
      modifies this`containers, this`log
      ensures Logged(Start(ById(id)), ok) && Valid()
    {
      var took;
      ok, took := Attempt(id in containers);
      if took {
        containers := containers[id := containers[id].(running := true)];
        assert containers == Effect(old(containers), Start(ById(id)));
      }
      Note(Entry(Start(ById(id)), ok, containers));
    }

    method ContainerRename(ref: Ref, newName: string) returns (ok: bool)
      requires Valid()
      modifies this`containers, this`log
      ensures Logged(Rename(ref, newName), ok) && Valid()
    {
      RunKeepsNamesUnique(strict, start, Entries(log));
      var found, id := Resolve(ref);
      var took;
      ok, took := Attempt(found && NameFree(containers, newName));
      if took {
        containers := containers[id := containers[id].(name := newName)];
        assert containers == Effect(old(containers), Rename(ref, newName));
      }
      Note(Entry(Rename(ref, newName), ok, containers));
    }

    /** A created container is stopped, and has the image its reference means at that moment. */
    method ContainerCreate(config: Config, hostConfig: string, endpoints: Networks, name: string)
      returns (ok: bool, id: ContainerId, ghost made: Container)
      requires Valid()
      modifies this`containers, this`nextId, this`log
      ensures Logged(Create(id, made), ok) && Valid()
      ensures id == ContainerId(old(nextId))
      ensures made.name == name && made.config == config && made.hostConfig == hostConfig && !made.running
      ensures made.networks == Attached(endpoints, id)
      ensures config.image in images ==> made.imageId == images[config.image]
    {
      id := ContainerId(nextId);
      var known := config.image in images;
      var imageId := if known then images[config.image] else "";
      var c := Container(name, config, hostConfig, Attached(endpoints, id), imageId, false);
      made := c;
      var took;
      ok, took := Attempt(known && NameFree(containers, name));
      CreateHappened(strict, containers, id, c, ok, took);
      if took {
        nextId := nextId + 1;
        containers := containers[id := c];
      }
      Note(Entry(Create(id, c), ok, containers));
    }

    /** Forced removal, so a running container is removed as well. */
    method ContainerRemove(ref: Ref) returns (ok: bool)
      requires Valid()
      modifies this`containers, this`log
      ensures Logged(Remove(ref), ok) && Valid()
    {
      RunKeepsNamesUnique(strict, start, Entries(log));
      var found, id := Resolve(ref);
      var took;
      ok, took := Attempt(found);
      if took {
        containers := containers - {id};
        assert containers == Effect(old(containers), Remove(ref));
      }
      Note(Entry(Remove(ref), ok, containers));
    }

    method Resolve(ref: Ref) returns (found: bool, id: ContainerId)
      requires UniqueNames(containers)
      ensures found <==> Resolves(containers, ref)
      ensures found ==> Refers(containers, ref, id)
      ensures found ==> forall i :: i in containers && Refers(containers, ref, i) ==> i == id
    {
      if i :| i in containers && Refers(containers, ref, i) {
        return true, i;
      }
      return false, ContainerId(0);
    }

    function Attached(endpoints: Networks, id: ContainerId): Networks
    {
      map n | n in endpoints :: endpoints[n].(filledIn := assign(id, n))
    }
  }
}
