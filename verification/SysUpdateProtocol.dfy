/** Forced, unforced and freeform update checks in every interleaving: one step is one section under a lock. */
module SysUpdateProtocol {
  import opened Strings
  import opened Config
  import opened SysUpdate

  datatype CheckId = CheckId(n: nat)

  /** Where a check is: running its command, about to read the tracker, about to write the cache, or over. */
  datatype Phase = Checking(builtin: bool) | Republishing | Publishing(count: int) | Over

  datatype Check = Check(app: string, phase: Phase)

  datatype Report = Report(app: string, outcome: Outcome, at: int)

  datatype Attempt = Attempt(app: string, forced: bool, at: int)

  datatype State = State(
    clock: int,
    statuses: Statuses,
    entries: Entries,
    checks: map<CheckId, Check>,
    /** Everything that was ever recorded, attempted and cached as a version. */
    reports: seq<Report>,
    attempts: seq<Attempt>,
    versioned: set<string>
  ) {

    function With(id: CheckId, app: string, phase: Phase): State
    {
      this.(checks := checks[id := Check(app, phase)])
    }

    function Trying(app: string, forced: bool): State
    {
      this.(statuses := Attempted(statuses, app, clock), attempts := attempts + [Attempt(app, forced, clock)])
    }

    function Caching(name: string, version: string): State
    {
      this.(entries := entries[name := Entry(version, clock)])
    }
  }

  datatype Step =
    | Tick(to: int)
    | Force(id: CheckId, app: string)
    | Try(id: CheckId, app: string, interval: int)
    | Freeform(id: CheckId, app: string)
    | Finish(id: CheckId, outcome: Outcome)
    | Reread(id: CheckId)
    | Publish(id: CheckId)
    | CacheVersion(name: string, version: string)
    | CacheLatest(name: string, version: string)

  predicate Enabled(s: State, st: Step)
  {
    match st
    case Tick(to) => s.clock <= to
    case Force(id, _) => id !in s.checks
    case Try(id, _, interval) => id !in s.checks && interval >= MIN_SYS_UPDATE_REFRESH
    case Freeform(id, _) => id !in s.checks
    case Finish(id, _) => id in s.checks && s.checks[id].phase.Checking?
    case Reread(id) => id in s.checks && s.checks[id].phase == Republishing
    case Publish(id) => id in s.checks && s.checks[id].phase.Publishing?
    case _ => true
  }

  function Apply(s: State, st: Step): State
    requires Enabled(s, st)
  {
    match st
    case Tick(to) => s.(clock := to)
    case Force(id, app) => s.Trying(app, true).With(id, app, Checking(true))
    case Try(id, app, interval) =>
      if IsDue(StatusOf(s.statuses, app), interval, s.clock)
      then s.Trying(app, false).With(id, app, Checking(true))
      else s.With(id, app, Republishing)
    case Freeform(id, app) => s.With(id, app, Checking(false))
    case Finish(id, outcome) =>
      var app := s.checks[id].app;
      s.(statuses := Reported(s.statuses, app, outcome, s.clock),
         reports := s.reports + [Report(app, outcome, s.clock)])
      .With(id, app,
            if outcome.Success? then Publishing(outcome.count)
            else if s.checks[id].phase.builtin then Republishing
            else Over)
    case Reread(id) =>
      var app := s.checks[id].app;
      var status := StatusOf(s.statuses, app);
      s.With(id, app, if status.hasCount then Publishing(status.count) else Over)
    case Publish(id) =>
      s.Caching(CountKey(s.checks[id].app), Itoa(s.checks[id].phase.count)).With(id, s.checks[id].app, Over)
    case CacheVersion(name, version) => s.Caching(name, version).(versioned := s.versioned + {name})
    case CacheLatest(name, version) => s.Caching(LatestKey(name), version)
  }

  function Initial(clock: int): State
  {
    State(clock, map[], map[], map[], [], [], {})
  }

  // ---------- the counts ----------

  /** The last report of an app that was a success. */
  function LastSuccess(reports: seq<Report>, app: string): (r: Option<Report>)
    ensures r.Some? ==> r.value.outcome.Success?
  {
    if reports == [] then None
    else
      var last := reports[|reports| - 1];
      if last.app == app && last.outcome.Success? then Some(last) else LastSuccess(reports[..|reports| - 1], app)
  }

  function LastReport(reports: seq<Report>, app: string): Option<Report>
  {
    if reports == [] then None
    else if reports[|reports| - 1].app == app then Some(reports[|reports| - 1])
    else LastReport(reports[..|reports| - 1], app)
  }

  /** The status of an app: its last success, and its last report if that is a failure. */
  ghost predicate Agrees(st: Status, success: Option<Report>, last: Option<Report>)
  {
    && (st.hasCount <==> success.Some?)
    && (success.Some? && success.value.outcome.Success? ==>
         st.count == success.value.outcome.count && st.lastChecked == success.value.at)
    && (if last.Some? && last.value.outcome.Failure?
        then st.lastError == last.value.outcome.message && st.lastErrorTime == last.value.at
        else st.lastError == "" && st.lastErrorTime == ZERO_TIME)
  }

  ghost predicate TrackerInv(s: State)
  {
    forall app :: Agrees(StatusOf(s.statuses, app), LastSuccess(s.reports, app), LastReport(s.reports, app))
  }

  /** A count is published only after one was recorded. */
  ghost predicate CacheInv(s: State)
  {
    && (forall id :: id in s.checks && s.checks[id].phase.Publishing? ==>
          StatusOf(s.statuses, s.checks[id].app).hasCount)
    && (forall app :: CountKey(app) in s.entries ==> CountKey(app) in s.versioned || StatusOf(s.statuses, app).hasCount)
  }

  lemma ReportKeepsTracker(s: State, id: CheckId, outcome: Outcome)
    requires TrackerInv(s) && Enabled(s, Finish(id, outcome))
    ensures TrackerInv(Apply(s, Finish(id, outcome)))
  {
    var s', mine := Apply(s, Finish(id, outcome)), s.checks[id].app;
    assert s'.reports[..|s'.reports| - 1] == s.reports;
    forall app
      ensures Agrees(StatusOf(s'.statuses, app), LastSuccess(s'.reports, app), LastReport(s'.reports, app))
    {
      assert Agrees(StatusOf(s.statuses, app), LastSuccess(s.reports, app), LastReport(s.reports, app));
    }
  }

  lemma StepKeepsTracker(s: State, st: Step)
    requires TrackerInv(s) && Enabled(s, st)
    ensures TrackerInv(Apply(s, st))
  {
    if st.Finish? {
      ReportKeepsTracker(s, st.id, st.outcome);
    } else {
      var s' := Apply(s, st);
      forall app
        ensures Agrees(StatusOf(s'.statuses, app), LastSuccess(s'.reports, app), LastReport(s'.reports, app))
      {
        assert Agrees(StatusOf(s.statuses, app), LastSuccess(s.reports, app), LastReport(s.reports, app));
      }
    }
  }

  /** A recorded count is never lost. */
  lemma CountsStay(s: State, st: Step, app: string)
    requires Enabled(s, st) && StatusOf(s.statuses, app).hasCount
    ensures StatusOf(Apply(s, st).statuses, app).hasCount
  {
  }

  lemma NewEntry(s: State, st: Step, app: string)
    requires CacheInv(s) && Enabled(s, st) && CountKey(app) in Apply(s, st).entries
    ensures CountKey(app) in Apply(s, st).versioned || StatusOf(Apply(s, st).statuses, app).hasCount
  {
    if CountKey(app) in s.entries {
      if StatusOf(s.statuses, app).hasCount {
        CountsStay(s, st, app);
      }
    } else if st.Publish? {
      CountKeyFacts(app, s.checks[st.id].app);
    } else if st.CacheLatest? {
      CountKeyFacts(app, st.name);
    }
  }

  lemma StepKeepsCache(s: State, st: Step)
    requires CacheInv(s) && Enabled(s, st)
    ensures CacheInv(Apply(s, st))
  {
    var s' := Apply(s, st);
    forall app | CountKey(app) in s'.entries
      ensures CountKey(app) in s'.versioned || StatusOf(s'.statuses, app).hasCount
    {
      NewEntry(s, st, app);
    }
    forall id | id in s'.checks && s'.checks[id].phase.Publishing?
      ensures StatusOf(s'.statuses, s'.checks[id].app).hasCount
    {
      if id in s.checks && s.checks[id].phase.Publishing? {
        CountsStay(s, st, s.checks[id].app);
      }
    }
  }

  // ---------- the attempts ----------

  ghost predicate AttemptsInv(s: State)
  {
    && 0 < s.clock
    && (forall i :: 0 <= i < |s.attempts| ==>
          0 < s.attempts[i].at <= StatusOf(s.statuses, s.attempts[i].app).lastAttempt)
    && (forall app :: StatusOf(s.statuses, app).lastAttempt <= s.clock)
  }

  /** An unforced attempt comes at least 15 minutes after every earlier attempt of its app, forced or not. */
  ghost predicate Spaced(attempts: seq<Attempt>)
  {
    forall i, j :: 0 <= i < j < |attempts| && attempts[i].app == attempts[j].app && !attempts[j].forced ==>
      attempts[j].at - attempts[i].at >= MIN_SYS_UPDATE_REFRESH
  }

  lemma StepKeepsAttempts(s: State, st: Step)
    requires AttemptsInv(s) && Enabled(s, st)
    ensures AttemptsInv(Apply(s, st))
  {
    var s' := Apply(s, st);
    forall app ensures StatusOf(s'.statuses, app).lastAttempt <= s'.clock {
      assert StatusOf(s.statuses, app).lastAttempt <= s.clock;
    }
  }

  lemma StepKeepsSpacing(s: State, st: Step)
    requires AttemptsInv(s) && Spaced(s.attempts) && Enabled(s, st)
    ensures Spaced(Apply(s, st).attempts)
  {
  }

  // ---------- every reachable state ----------

  ghost predicate IsBehavior(states: seq<State>, steps: seq<Step>)
  {
    && |states| == |steps| + 1
    && states[0].clock > 0 && states[0] == Initial(states[0].clock)
    && forall k :: 0 <= k < |steps| ==> Enabled(states[k], steps[k]) && states[k + 1] == Apply(states[k], steps[k])
  }

  lemma {:induction false} Reachable(states: seq<State>, steps: seq<Step>, k: nat)
    requires IsBehavior(states, steps) && k <= |steps|
    ensures TrackerInv(states[k]) && CacheInv(states[k]) && AttemptsInv(states[k]) && Spaced(states[k].attempts)
  {
    if k > 0 {
      var s, st := states[k - 1], steps[k - 1];
      Reachable(states, steps, k - 1);
      StepKeepsTracker(s, st);
      StepKeepsCache(s, st);
      StepKeepsAttempts(s, st);
      StepKeepsSpacing(s, st);
    }
  }

  function ExpectedCount(s: State, app: string): int
  {
    match LastSuccess(s.reports, app)
    case Some(r) => r.outcome.count
    case None => 0
  }

  /**
   * At any time from any reachable state on, the count is the last one recorded, or zero if none was,
   * unless no count was recorded and a version cached under the app's own count key still reads as a
   * number other than zero.
   */
  lemma CountIsTheLastSuccess(states: seq<State>, steps: seq<Step>, k: nat, app: string, now: int)
    requires IsBehavior(states, steps) && k <= |steps|
    ensures var s := states[k];
      CountOf(s.statuses, s.entries, app, now) == ExpectedCount(s, app)
      <==> (LastSuccess(s.reports, app).Some? || CountKey(app) !in s.versioned
            || PublishedCount(Cached(s.entries, CountKey(app), now).GetOr("")) == 0)
  {
    Reachable(states, steps, k);
    var s := states[k];
    assert Agrees(StatusOf(s.statuses, app), LastSuccess(s.reports, app), LastReport(s.reports, app));
  }

  /** Step `i` is the last of the first `k` to cache a version under the app's count key. */
  ghost predicate CachesLast(steps: seq<Step>, i: nat, k: nat, app: string)
    requires k <= |steps|
  {
    && i < k && steps[i].CacheVersion? && steps[i].name == CountKey(app)
    && forall j :: i < j < k ==> !(steps[j].CacheVersion? && steps[j].name == CountKey(app))
  }

  lemma SuccessStays(s: State, st: Step, app: string)
    requires Enabled(s, st) && LastSuccess(s.reports, app).Some?
    ensures LastSuccess(Apply(s, st).reports, app).Some?
  {
    if st.Finish? {
      assert Apply(s, st).reports[..|s.reports|] == s.reports;
    }
  }

  /** What a step that records no success for the app does under its count key. */
  lemma KeyStep(s: State, st: Step, app: string)
    requires TrackerInv(s) && CacheInv(s) && Enabled(s, st) && LastSuccess(s.reports, app).None?
    ensures var s', key := Apply(s, st), CountKey(app);
      if st.CacheVersion? && st.name == key then key in s'.entries && s'.entries[key] == Entry(st.version, s.clock)
      else (key in s'.entries <==> key in s.entries) && (key in s.entries ==> s'.entries[key] == s.entries[key])
  {
    if st.Publish? {
      CountKeyFacts(app, s.checks[st.id].app);
      assert Agrees(StatusOf(s.statuses, app), LastSuccess(s.reports, app), LastReport(s.reports, app));
    } else if st.CacheLatest? {
      CountKeyFacts(app, st.name);
    }
  }

  /** As long as no success was recorded, the count key holds the last version cached under it. */
  lemma {:induction false} KeyHoldsVersion(states: seq<State>, steps: seq<Step>, k: nat, app: string)
    requires IsBehavior(states, steps) && k <= |steps| && LastSuccess(states[k].reports, app).None?
    ensures CountKey(app) in states[k].entries <==> exists i: nat :: CachesLast(steps, i, k, app)
    ensures forall i: nat :: CachesLast(steps, i, k, app) ==>
      CountKey(app) in states[k].entries && states[k].entries[CountKey(app)] == Entry(steps[i].version, states[i].clock)
  {
    if k > 0 {
      var n := k - 1;
      var s, st := states[n], steps[n];
      if LastSuccess(s.reports, app).Some? {
        SuccessStays(s, st, app);
      }
      KeyHoldsVersion(states, steps, n, app);
      Reachable(states, steps, n);
      KeyStep(s, st, app);
      forall i: nat ensures CachesLast(steps, i, k, app) <==>
        if st.CacheVersion? && st.name == CountKey(app) then i == n else CachesLast(steps, i, n, app)
      {
        LastCacherStep(steps, n, i, app);
      }
      if st.CacheVersion? && st.name == CountKey(app) {
        assert CachesLast(steps, n, k, app);
      } else if CountKey(app) in s.entries {
        var i: nat :| CachesLast(steps, i, n, app);
        assert CachesLast(steps, i, k, app);
      }
    }
  }

  lemma LastCacherStep(steps: seq<Step>, n: nat, i: nat, app: string)
    requires n < |steps|
    ensures CachesLast(steps, i, n + 1, app) <==>
      if steps[n].CacheVersion? && steps[n].name == CountKey(app) then i == n else CachesLast(steps, i, n, app)
  {
  }

  /**
   * A version cached at step `i` under the count key is the last one, still valid, and reads as a number
   * other than zero.
   */
  ghost predicate Shadows(states: seq<State>, steps: seq<Step>, i: nat, k: nat, app: string, now: int)
    requires k <= |steps| && |states| == |steps| + 1
  {
    && CachesLast(steps, i, k, app)
    && now - states[i].clock <= VERSION_CACHE_TTL && PublishedCount(steps[i].version) != 0
  }

  /**
   * The same told by the steps: the count is wrong exactly while such a version shadows a count that was
   * never recorded.
   */
  lemma CountIsWrongIff(states: seq<State>, steps: seq<Step>, k: nat, app: string, now: int)
    requires IsBehavior(states, steps) && k <= |steps|
    ensures CountOf(states[k].statuses, states[k].entries, app, now) != ExpectedCount(states[k], app)
      <==> LastSuccess(states[k].reports, app).None? && exists i: nat :: Shadows(states, steps, i, k, app, now)
  {
    Reachable(states, steps, k);
    var s := states[k];
    assert Agrees(StatusOf(s.statuses, app), LastSuccess(s.reports, app), LastReport(s.reports, app));
    if LastSuccess(s.reports, app).None? {
      KeyHoldsVersion(states, steps, k, app);
      if CountKey(app) in s.entries {
        var i: nat :| CachesLast(steps, i, k, app);
        assert forall j: nat :: CachesLast(steps, j, k, app) ==> j == i;
        assert Shadows(states, steps, i, k, app, now) <==>
          PublishedCount(Cached(s.entries, CountKey(app), now).GetOr("")) != 0;
      }
    }
  }

  lemma {:induction false} VersionedNames(states: seq<State>, steps: seq<Step>, k: nat, name: string)
    requires IsBehavior(states, steps) && k <= |steps|
    ensures name in states[k].versioned <==> exists i :: 0 <= i < k && steps[i].CacheVersion? && steps[i].name == name
  {
    if k > 0 {
      VersionedNames(states, steps, k - 1, name);
    }
  }

  /** With no operation or app whose name starts with two underscores, the count is always right. */
  lemma CountIsRight(states: seq<State>, steps: seq<Step>, k: nat, app: string, now: int)
    requires IsBehavior(states, steps) && k <= |steps|
    requires forall i :: 0 <= i < k && steps[i].CacheVersion? ==> !("__" <= steps[i].name)
    ensures CountOf(states[k].statuses, states[k].entries, app, now) == ExpectedCount(states[k], app)
  {
    CountIsTheLastSuccess(states, steps, k, app, now);
    VersionedNames(states, steps, k, CountKey(app));
    CountKeyFacts(app, app);
  }

  /** With such a name it can be wrong: nothing was ever checked, and seven updates are reported. */
  lemma VersionReadAsCount() returns (states: seq<State>, steps: seq<Step>)
    ensures IsBehavior(states, steps) && |steps| == 1 && states[1].reports == []
    ensures CountOf(states[1].statuses, states[1].entries, "web", states[1].clock) == 7
  {
    steps := [CacheVersion("__sysupdate:web", "7")];
    states := [Initial(1), Apply(Initial(1), steps[0])];
    assert CountKey("web") == "__sysupdate:web";
    assert "7"[..0] == "" && ValueOf("7") == 10 * ValueOf("") + 7;
  }

  /** The error shown is that of the last check if it failed, and a success clears it. */
  lemma ErrorIsTheLastFailure(states: seq<State>, steps: seq<Step>, k: nat, app: string)
    requires IsBehavior(states, steps) && k <= |steps|
    ensures var last := LastReport(states[k].reports, app);
      StatusOf(states[k].statuses, app).lastError ==
        if last.Some? && last.value.outcome.Failure? then last.value.outcome.message else ""
  {
    Reachable(states, steps, k);
    var s := states[k];
    assert Agrees(StatusOf(s.statuses, app), LastSuccess(s.reports, app), LastReport(s.reports, app));
  }

  // ---------- how often checks run ----------

  /** Step `j` starts a built-in check of the app. */
  ghost predicate Starts(states: seq<State>, steps: seq<Step>, j: nat, app: string, forced: bool)
    requires |states| == |steps| + 1
  {
    && j < |steps| && (if forced then steps[j].Force? else steps[j].Try?) && steps[j].app == app
    && steps[j].id in states[j + 1].checks && states[j + 1].checks[steps[j].id].phase == Checking(true)
  }

  /** Every start is an attempt that is recorded with its time, and stays. */
  lemma StartIsAttempt(states: seq<State>, steps: seq<Step>, j: nat, k: nat, app: string, forced: bool)
    requires IsBehavior(states, steps) && j < k <= |steps| && Starts(states, steps, j, app, forced)
    ensures var n := |states[j].attempts|;
      n < |states[k].attempts| && states[k].attempts[n] == Attempt(app, forced, states[j].clock)
  {
    var n := |states[j].attempts|;
    for m := j + 1 to k
      invariant n < |states[m].attempts| && states[m].attempts[n] == Attempt(app, forced, states[j].clock)
    {
      AttemptsGrow(states[m], steps[m]);
    }
  }

  lemma AttemptsGrow(s: State, st: Step)
    requires Enabled(s, st)
    ensures s.attempts <= Apply(s, st).attempts
  {
  }

  /** In every run, an unforced check starts at least 15 minutes after any earlier start for its app, forced or not. */
  lemma ChecksAreSpaced(states: seq<State>, steps: seq<Step>, i: nat, j: nat, app: string, forced: bool)
    requires IsBehavior(states, steps) && i < j
    requires Starts(states, steps, i, app, forced) && Starts(states, steps, j, app, false)
    ensures states[j].clock - states[i].clock >= 900_000_000_000
  {
    var k := j + 1;
    Reachable(states, steps, k);
    StartIsAttempt(states, steps, i, k, app, forced);
    StartIsAttempt(states, steps, j, k, app, false);
    StartIsAttempt(states, steps, i, j, app, forced);
  }

  /** So any window of time holds at most one unforced start per 15 minutes, and one more. */
  lemma {:induction false} ChecksAreRare(states: seq<State>, steps: seq<Step>, starts: seq<nat>, app: string, from: int,
      to: int)
    requires IsBehavior(states, steps) && from <= to
    requires forall i, j :: 0 <= i < j < |starts| ==> starts[i] < starts[j]
    requires forall i :: 0 <= i < |starts| ==>
      Starts(states, steps, starts[i], app, false) && from <= states[starts[i]].clock <= to
    ensures |starts| <= (to - from) / 900_000_000_000 + 1
  {
    if |starts| > 1 {
      var n := |starts| - 1;
      var a, b := states[starts[n - 1]].clock, states[starts[n]].clock;
      ChecksAreSpaced(states, steps, starts[n - 1], starts[n], app, false);
      StartsAreEarlier(states, steps, starts[..n], app, a);
      ChecksAreRare(states, steps, starts[..n], app, from, a);
      Quotients(a - from, to - from);
    }
  }

  lemma StartsAreEarlier(states: seq<State>, steps: seq<Step>, starts: seq<nat>, app: string, to: int)
    requires IsBehavior(states, steps) && starts != [] && starts[|starts| - 1] < |steps|
    requires states[starts[|starts| - 1]].clock == to
    requires forall i, j :: 0 <= i < j < |starts| ==> starts[i] < starts[j]
    ensures forall i :: 0 <= i < |starts| ==> states[starts[i]].clock <= to
  {
    forall i | 0 <= i < |starts| ensures states[starts[i]].clock <= to {
      ClockGoesOn(states, steps, starts[i], starts[|starts| - 1]);
    }
  }

  lemma ClockGoesOn(states: seq<State>, steps: seq<Step>, j: nat, k: nat)
    requires IsBehavior(states, steps) && j <= k <= |steps|
    ensures states[j].clock <= states[k].clock
  {
    for m := j to k
      invariant states[j].clock <= states[m].clock
    {
      assert states[m + 1] == Apply(states[m], steps[m]);
    }
  }

  lemma Quotients(a: int, b: int)
    requires 0 <= a && a + 900_000_000_000 <= b
    ensures a / 900_000_000_000 + 1 <= b / 900_000_000_000
  {
    assert (a + 900_000_000_000) / 900_000_000_000 == a / 900_000_000_000 + 1;
  }

  // ---------- one check alone ----------

  /** What the steps of one check do when nothing comes between them: that of CheckSystemUpdates. */
  ghost predicate Leads(s: State, steps: seq<Step>, s': State)
    decreases |steps|
  {
    if steps == [] then s' == s else Enabled(s, steps[0]) && Leads(Apply(s, steps[0]), steps[1..], s')
  }

  lemma LeadsOn(s: State, st: Step, steps: seq<Step>, s': State)
    requires Enabled(s, st) && Leads(Apply(s, st), steps, s')
    ensures Leads(s, [st] + steps, s')
  {
    assert ([st] + steps)[1..] == steps;
  }

  /** What is left after the report: a success is published, and after a failure the last count is. */
  lemma PublishAlone(s: State, id: CheckId) returns (steps: seq<Step>, s': State)
    requires id in s.checks && s.checks[id].phase == Republishing
    ensures Leads(s, steps, s') && id in s'.checks && s'.checks[id].phase == Over
    ensures s'.statuses == s.statuses
    ensures s'.entries == Republished(s.statuses, s.entries, s.checks[id].app, s.clock)
  {
    var s1 := Apply(s, Reread(id));
    if s1.checks[id].phase.Publishing? {
      s' := Apply(s1, Publish(id));
      steps := [Reread(id)] + [Publish(id)];
      LeadsOn(s1, Publish(id), [], s');
      LeadsOn(s, Reread(id), [Publish(id)], s');
    } else {
      s' := s1;
      steps := [Reread(id)] + [];
      LeadsOn(s, Reread(id), [], s');
    }
  }

  lemma FinishAlone(s: State, id: CheckId, outcome: Outcome) returns (steps: seq<Step>, s': State)
    requires id in s.checks && s.checks[id].phase.Checking?
    ensures Leads(s, steps, s') && id in s'.checks && s'.checks[id].phase == Over
    ensures s'.statuses == Reported(s.statuses, s.checks[id].app, outcome, s.clock)
    ensures s'.entries ==
      if outcome.Success? || s.checks[id].phase.builtin
      then Republished(s'.statuses, s.entries, s.checks[id].app, s.clock) else s.entries
  {
    var s1, more := Apply(s, Finish(id, outcome)), [];
    if outcome.Success? {
      s' := Apply(s1, Publish(id));
      more := [Publish(id)];
      LeadsOn(s1, Publish(id), [], s');
    } else if s.checks[id].phase.builtin {
      more, s' := PublishAlone(s1, id);
    } else {
      s' := s1;
    }
    steps := [Finish(id, outcome)] + more;
    LeadsOn(s, Finish(id, outcome), more, s');
  }

  /** The built-in check, forced or not. */
  lemma BuiltinAlone(s: State, id: CheckId, app: string, interval: int, force: bool, outcome: Outcome)
    returns (steps: seq<Step>, s': State)
    requires id !in s.checks && interval >= MIN_SYS_UPDATE_REFRESH
    ensures Leads(s, steps, s') && id in s'.checks && s'.checks[id].phase == Over
    ensures s'.statuses ==
      if force || IsDue(StatusOf(s.statuses, app), interval, s.clock)
      then Reported(Attempted(s.statuses, app, s.clock), app, outcome, s.clock) else s.statuses
    ensures s'.entries == Republished(s'.statuses, s.entries, app, s.clock)
  {
    var st := if force then Force(id, app) else Try(id, app, interval);
    var s1, more := Apply(s, st), [];
    if s1.checks[id].phase.Checking? {
      more, s' := FinishAlone(s1, id, outcome);
    } else {
      more, s' := PublishAlone(s1, id);
    }
    steps := [st] + more;
    LeadsOn(s, st, more, s');
  }

  /** The freeform check. */
  lemma FreeformAlone(s: State, id: CheckId, app: string, outcome: Outcome) returns (steps: seq<Step>, s': State)
    requires id !in s.checks
    ensures Leads(s, steps, s') && id in s'.checks && s'.checks[id].phase == Over
    ensures s'.statuses == Reported(s.statuses, app, outcome, s.clock)
    ensures s'.entries == if outcome.Success? then Republished(s'.statuses, s.entries, app, s.clock) else s.entries
  {
    var st := Freeform(id, app);
    var s1, more := Apply(s, st), [];
    more, s' := FinishAlone(s1, id, outcome);
    steps := [st] + more;
    LeadsOn(s, st, more, s');
  }
}
