/** Replaying the committed log into the persistent store: loading bundles in batches, applying them to
    the write batch with retries, committing batch and milestone at once, crashing and recovering. */
module ApplyLoop {
  import opened Base

  datatype LogEntry = Noop | Bundle(events: seq<Event>)

  /** A bundle together with its log index; the first log entry has index 1. */
  datatype Loaded = Loaded(index: nat, events: seq<Event>)

  /** `log` is the committed log of the cluster; this node knows it to be committed up to `commitIndex`,
      which a restart forgets. `db` and `milestone` survive a crash, everything after them does not:
      the write batch, the event store's cached bundles with its applied and loaded indexes, the bundle
      being applied, and the loop's own indexes. `delivered` lists the bundles applied since the
      last recovery, which started at `start`. */
  datatype State = State(
    log: seq<LogEntry>, commitIndex: nat,
    db: Store, milestone: Option<nat>,
    batch: seq<Event>, cached: seq<Loaded>, applied: nat, loaded: nat,
    working: Option<Loaded>, appliedIndex: nat, lastMilestone: nat, keyVersion: nat,
    running: bool, start: nat, delivered: seq<Loaded>)

  // ----- what the log means

  function EventsOf(e: LogEntry): seq<Event> {
    if e.Noop? then [] else e.events
  }

  function LogReplay(log: seq<LogEntry>, i: nat): Store
    requires i <= |log|
  {
    if i == 0 then map[] else Replay(EventsOf(log[i - 1]), LogReplay(log, i - 1))
  }

  /** The bundles with an index in (a, b]. */
  function Bundles(log: seq<LogEntry>, a: nat, b: nat): seq<Loaded>
    requires a <= b <= |log|
  {
    if a == b then []
    else Bundles(log, a, b - 1) + if log[b - 1].Noop? then [] else [Loaded(b, log[b - 1].events)]
  }

  /** All entries with an index in (a, b] are no-ops. */
  predicate Noops(log: seq<LogEntry>, a: nat, b: nat)
    requires b <= |log|
  {
    forall i :: a <= i < b ==> log[i].Noop?
  }

  function Max(a: nat, b: nat): nat {
    if a < b then b else a
  }

  function Stored(s: State): nat {
    if s.milestone.None? then 0 else s.milestone.value
  }

  /** What the batch holds after some failed attempts at a bundle and one that goes through. */
  function WithRetries(es: seq<Event>, failures: seq<nat>): seq<Event>
    requires forall i :: 0 <= i < |failures| ==> failures[i] <= |es|
  {
    if failures == [] then es else es[..failures[0]] + WithRetries(es, failures[1..])
  }

  // ----- the steps

  datatype Step =
    | Append(entries: seq<LogEntry>)
    | LearnCommit(index: nat)
    | Load(count: nat)
    | Pop
    | Apply(failures: seq<nat>)
    | Commit
    | Crash
    | Recover

  ghost predicate Enabled(s: State, st: Step) {
    match st
    case Append(es) => forall i :: 0 <= i < |es| && es[i].Bundle? ==> es[i].events != []
    case LearnCommit(i) => s.commitIndex <= i <= |s.log|
    case Load(n) =>
      s.running && s.working.None? && s.cached == [] && s.loaded < s.commitIndex <= |s.log|
      && 0 < n <= s.commitIndex - s.loaded
    case Pop => s.running && s.working.None? && s.cached != []
    case Apply(fs) =>
      s.running && s.working.Some? && forall i :: 0 <= i < |fs| ==> fs[i] <= |s.working.value.events|
    case Commit =>
      && s.running && s.working.None? && s.appliedIndex > s.lastMilestone
      && s.appliedIndex <= |s.log| && EventsOf(s.log[s.appliedIndex - 1]) != []
    case Crash => true
    case Recover => !s.running && s.batch == [] && s.applied == 0 && s.loaded == 0
  }

  ghost function Next(s: State, st: Step): State
    requires Enabled(s, st)
  {
    match st
    case Append(es) => s.(log := s.log + es)
    case LearnCommit(i) => s.(commitIndex := i)
    case Load(n) => LoadedOn(s, n)
    case Pop => Popped(s)
    case Apply(fs) => AppliedBundle(s, fs)
    case Commit => Committed(s)
    case Crash => Down(s.log, 0, s.db, s.milestone)
    case Recover => Recovered(s)
  }

  /** A node that has just started and not yet recovered. */
  function Down(log: seq<LogEntry>, commitIndex: nat, db: Store, milestone: Option<nat>): State {
    State(log, commitIndex, db, milestone, [], [], 0, 0, None, 0, 0, INVALID_VERSION, false, 0, [])
  }

  function LoadedOn(s: State, n: nat): State
    requires s.loaded + n <= |s.log|
  {
    s.(cached := Bundles(s.log, s.loaded, s.loaded + n), loaded := s.loaded + n)
  }

  function Popped(s: State): State
    requires s.cached != []
  {
    var l := s.cached[0];
    s.(cached := s.cached[1..], applied := Max(s.applied, l.index), working := Some(l))
  }

  function AppliedBundle(s: State, fs: seq<nat>): State
    requires s.working.Some? && forall i :: 0 <= i < |fs| ==> fs[i] <= |s.working.value.events|
  {
    var l := s.working.value;
    s.(batch := s.batch + WithRetries(l.events, fs), working := None, appliedIndex := l.index,
       delivered := s.delivered + [l])
  }

  function Committed(s: State): State
    requires 0 < s.appliedIndex <= |s.log| && EventsOf(s.log[s.appliedIndex - 1]) != []
  {
    s.(db := Replay(s.batch, s.db), batch := [], milestone := Some(s.appliedIndex), lastMilestone := s.appliedIndex,
       keyVersion := BundleVersion(EventsOf(s.log[s.appliedIndex - 1])))
  }

  function Recovered(s: State): State {
    var m := Stored(s);
    s.(applied := m, loaded := m, appliedIndex := m, lastMilestone := m, running := true, start := m, delivered := [])
  }

  // ----- the invariant

  ghost predicate WellFormedLog(log: seq<LogEntry>) {
    forall i :: 0 <= i < |log| && log[i].Bundle? ==> log[i].events != []
  }

  ghost predicate DurableOk(s: State) {
    && WellFormedLog(s.log) && s.commitIndex <= |s.log|
    && Stored(s) <= |s.log| && s.db == LogReplay(s.log, Stored(s))
    && (Stored(s) > 0 ==> s.log[Stored(s) - 1].Bundle?)
  }

  ghost predicate LoadOk(s: State)
    requires DurableOk(s)
  {
    && s.start <= s.applied <= s.loaded <= |s.log|
    && s.cached == Bundles(s.log, s.applied, s.loaded)
    && (s.applied > 0 ==> s.log[s.applied - 1].Bundle?)
    && s.lastMilestone == Stored(s)
    && (if s.lastMilestone == s.start then s.keyVersion == INVALID_VERSION
        else Stored(s) > s.start && s.keyVersion == BundleVersion(s.log[Stored(s) - 1].events))
  }

  ghost predicate WorkOk(s: State)
    requires s.start <= s.applied <= |s.log|
  {
    if s.working.None? then
      && s.appliedIndex == s.applied
      && Replay(s.batch, s.db) == LogReplay(s.log, s.applied)
      && s.delivered == Bundles(s.log, s.start, s.applied)
    else
      && s.working.value.index == s.applied > s.start
      && s.log[s.applied - 1] == Bundle(s.working.value.events)
      && Replay(s.batch, s.db) == LogReplay(s.log, s.applied - 1)
      && s.delivered == Bundles(s.log, s.start, s.applied - 1)
  }

  ghost predicate Inv(s: State) {
    && DurableOk(s)
    && (s.running ==> LoadOk(s) && WorkOk(s))
    && (!s.running ==> s == Down(s.log, s.commitIndex, s.db, s.milestone))
  }

  // ----- facts about the log

  lemma {:induction false} LogReplayExtend(log: seq<LogEntry>, es: seq<LogEntry>, i: nat)
    requires i <= |log|
    ensures LogReplay(log + es, i) == LogReplay(log, i)
  {
    if i > 0 {
      LogReplayExtend(log, es, i - 1);
    }
  }

  lemma {:induction false} BundlesExtend(log: seq<LogEntry>, es: seq<LogEntry>, a: nat, b: nat)
    requires a <= b <= |log|
    ensures Bundles(log + es, a, b) == Bundles(log, a, b)
  {
    if a < b {
      BundlesExtend(log, es, a, b - 1);
    }
  }

  lemma {:induction false} BundlesJoin(log: seq<LogEntry>, a: nat, b: nat, c: nat)
    requires a <= b <= c <= |log|
    ensures Bundles(log, a, b) + Bundles(log, b, c) == Bundles(log, a, c)
  {
    if b < c {
      BundlesJoin(log, a, b, c - 1);
    }
  }

  lemma BundlesFrom(log: seq<LogEntry>, a: nat, b: nat, c: nat)
    requires a <= b <= c <= |log| && Bundles(log, a, b) == []
    ensures Bundles(log, b, c) == Bundles(log, a, c)
  {
    BundlesJoin(log, a, b, c);
    assert [] + Bundles(log, b, c) == Bundles(log, b, c);
  }

  /** The first bundle in a stretch, with only no-ops before it. */
  lemma {:induction false} FirstBundle(log: seq<LogEntry>, a: nat, b: nat)
    requires a <= b <= |log| && Bundles(log, a, b) != []
    ensures
      var l := Bundles(log, a, b)[0];
      && a < l.index <= b && log[l.index - 1] == Bundle(l.events)
      && Noops(log, a, l.index - 1)
      && Bundles(log, a, b)[1..] == Bundles(log, l.index, b)
  {
    if Bundles(log, a, b - 1) == [] {
      NoBundles(log, a, b - 1);
    } else {
      FirstBundle(log, a, b - 1);
      var l := Bundles(log, a, b - 1)[0];
      var more := if log[b - 1].Noop? then [] else [Loaded(b, log[b - 1].events)];
      assert Bundles(log, a, b)[1..] == Bundles(log, a, b - 1)[1..] + more;
    }
  }

  lemma {:induction false} NoBundles(log: seq<LogEntry>, a: nat, b: nat)
    requires a <= b <= |log|
    ensures Bundles(log, a, b) == [] <==> Noops(log, a, b)
  {
    if a < b {
      NoBundles(log, a, b - 1);
    }
  }

  lemma {:induction false} NoopsChangeNothing(log: seq<LogEntry>, start: nat, a: nat, b: nat)
    requires start <= a <= b <= |log| && Noops(log, a, b)
    ensures LogReplay(log, b) == LogReplay(log, a) && Bundles(log, start, b) == Bundles(log, start, a)
  {
    if a < b {
      NoopsChangeNothing(log, start, a, b - 1);
      assert log[b - 1].Noop?;
    }
  }

  /** However often a bundle was tried, the store ends as if it had been applied once. */
  lemma {:induction false} RetriesReplay(es: seq<Event>, fs: seq<nat>, m: Store)
    requires forall i :: 0 <= i < |fs| ==> fs[i] <= |es|
    ensures Replay(WithRetries(es, fs), m) == Replay(es, m)
  {
    if fs != [] {
      ReplayAppend(es[..fs[0]], WithRetries(es, fs[1..]), m);
      RetriesReplay(es, fs[1..], Replay(es[..fs[0]], m));
      ReplayRetry(es, fs[0], m);
    }
  }

  // ----- each step keeps the invariant

  lemma AppendDurable(s: State, es: seq<LogEntry>)
    requires DurableOk(s) && WellFormedLog(es)
    ensures DurableOk(s.(log := s.log + es))
  {
    LogReplayExtend(s.log, es, Stored(s));
  }

  lemma AppendLoad(s: State, es: seq<LogEntry>)
    requires DurableOk(s) && LoadOk(s) && DurableOk(s.(log := s.log + es))
    ensures LoadOk(s.(log := s.log + es))
  {
    BundlesExtend(s.log, es, s.applied, s.loaded);
  }

  lemma AppendWork(s: State, es: seq<LogEntry>)
    requires s.start <= s.applied <= |s.log| && WorkOk(s)
    ensures WorkOk(s.(log := s.log + es))
  {
    var i := if s.working.None? then s.applied else s.applied - 1;
    LogReplayExtend(s.log, es, i);
    BundlesExtend(s.log, es, s.start, i);
  }

  lemma AppendKeeps(s: State, es: seq<LogEntry>)
    requires Inv(s) && Enabled(s, Append(es))
    ensures Inv(Next(s, Append(es)))
  {
    AppendDurable(s, es);
    if s.running {
      AppendLoad(s, es);
      AppendWork(s, es);
    }
  }

  lemma LoadedMore(s: State, n: nat)
    requires DurableOk(s) && LoadOk(s) && s.cached == [] && s.loaded + n <= |s.log|
    ensures DurableOk(LoadedOn(s, n)) && LoadOk(LoadedOn(s, n))
  {
    BundlesFrom(s.log, s.applied, s.loaded, s.loaded + n);
  }

  lemma LoadKeeps(s: State, n: nat)
    requires Inv(s) && Enabled(s, Load(n))
    ensures Inv(LoadedOn(s, n))
  {
    LoadedMore(s, n);
    assert WorkOk(LoadedOn(s, n));
  }

  /** The cached bundle at the front is the next one after the applied index. */
  lemma PoppedLoad(s: State)
    requires DurableOk(s) && LoadOk(s) && s.cached != []
    ensures DurableOk(Popped(s)) && LoadOk(Popped(s))
    ensures var l := s.cached[0];
      && s.applied < l.index == Popped(s).applied <= |s.log| && s.log[l.index - 1] == Bundle(l.events)
      && Noops(s.log, s.applied, l.index - 1)
  {
    FirstBundle(s.log, s.applied, s.loaded);
  }

  lemma NothingCached(s: State)
    requires Inv(s) && s.running && s.cached == []
    ensures Fetched(s.log, true, s.applied, s.applied, s.loaded, None)
  {
    NoBundles(s.log, s.applied, s.loaded);
  }

  lemma PopKeeps(s: State)
    requires Inv(s) && Enabled(s, Pop)
    ensures Inv(Popped(s))
  {
    PoppedLoad(s);
    PopKeepsWork(s);
  }

  lemma PopKeepsWork(s: State)
    requires DurableOk(s) && LoadOk(s) && WorkOk(s) && s.working.None? && s.cached != []
    ensures Popped(s).start <= Popped(s).applied <= |s.log| && WorkOk(Popped(s))
  {
    var l := s.cached[0];
    PoppedLoad(s);
    NoopsChangeNothing(s.log, s.start, s.applied, l.index - 1);
    PoppedWork(s, l, Popped(s));
  }

  lemma PoppedWork(s: State, l: Loaded, s': State)
    requires s.start <= s.applied < l.index <= |s.log| && s.log[l.index - 1] == Bundle(l.events)
    requires s.working.None? && WorkOk(s)
    requires LogReplay(s.log, l.index - 1) == LogReplay(s.log, s.applied)
    requires Bundles(s.log, s.start, l.index - 1) == Bundles(s.log, s.start, s.applied)
    requires s' == s.(cached := s'.cached, applied := l.index, working := Some(l))
    ensures WorkOk(s')
  {
  }

  lemma ApplyKeeps(s: State, fs: seq<nat>)
    requires Inv(s) && Enabled(s, Apply(fs))
    ensures Inv(AppliedBundle(s, fs))
  {
    AppliedWork(s, fs);
    AppliedLoad(s, fs);
  }

  lemma AppliedLoad(s: State, fs: seq<nat>)
    requires DurableOk(s) && LoadOk(s) && s.working.Some?
    requires forall i :: 0 <= i < |fs| ==> fs[i] <= |s.working.value.events|
    ensures DurableOk(AppliedBundle(s, fs)) && LoadOk(AppliedBundle(s, fs))
  {
  }

  lemma RetriedBatch(batch: seq<Event>, es: seq<Event>, fs: seq<nat>, db: Store)
    requires forall i :: 0 <= i < |fs| ==> fs[i] <= |es|
    ensures Replay(batch + WithRetries(es, fs), db) == Replay(es, Replay(batch, db))
  {
    ReplayAppend(batch, WithRetries(es, fs), db);
    RetriesReplay(es, fs, Replay(batch, db));
  }

  lemma OneMoreBundle(log: seq<LogEntry>, a: nat, b: nat, es: seq<Event>)
    requires a < b <= |log| && log[b - 1] == Bundle(es)
    ensures LogReplay(log, b) == Replay(es, LogReplay(log, b - 1))
    ensures Bundles(log, a, b) == Bundles(log, a, b - 1) + [Loaded(b, es)]
  {
  }

  lemma AppliedWork(s: State, fs: seq<nat>)
    requires s.start <= s.applied <= |s.log| && s.working.Some? && WorkOk(s)
    requires forall i :: 0 <= i < |fs| ==> fs[i] <= |s.working.value.events|
    ensures WorkOk(AppliedBundle(s, fs))
  {
    var es := s.working.value.events;
    RetriedBatch(s.batch, es, fs, s.db);
    OneMoreBundle(s.log, s.start, s.applied, es);
    assert s.working.value == Loaded(s.applied, es);
  }

  lemma CommitKeeps(s: State)
    requires Inv(s) && Enabled(s, Commit)
    ensures Inv(Committed(s))
  {
    var s' := Committed(s);
    assert Replay([], s'.db) == s'.db;
    assert DurableOk(s') && LoadOk(s');
  }

  lemma CommitEnabled(s: State)
    requires Inv(s) && s.running && s.working.None? && s.appliedIndex > s.lastMilestone
    ensures Enabled(s, Commit)
  {
  }

  lemma RecoverKeeps(s: State)
    requires Inv(s) && Enabled(s, Recover)
    ensures Inv(Recovered(s))
  {
    assert Replay([], s.db) == s.db;
    assert LoadOk(Recovered(s));
  }

  lemma LearnKeeps(s: State, i: nat)
    requires Inv(s) && i <= |s.log|
    ensures Inv(s.(commitIndex := i))
  {
    var s' := s.(commitIndex := i);
    assert DurableOk(s');
    assert s.running ==> LoadOk(s') && WorkOk(s');
  }

  lemma StepKeepsInv(s: State, st: Step)
    requires Inv(s) && Enabled(s, st)
    ensures Inv(Next(s, st))
  {
    match st
    case Append(es) => AppendKeeps(s, es);
    case LearnCommit(i) => LearnKeeps(s, i);
    case Load(n) => LoadKeeps(s, n);
    case Pop => PopKeeps(s);
    case Apply(fs) => ApplyKeeps(s, fs);
    case Commit => CommitKeeps(s);
    case Crash =>
    case Recover => RecoverKeeps(s);
  }

  // ----- main results

  ghost predicate Init(s: State) {
    s == Down([], 0, map[], None)
  }

  ghost predicate IsRun(run: seq<State>, steps: seq<Step>) {
    && |run| == |steps| + 1 && Init(run[0])
    && forall i :: 0 <= i < |steps| ==> Enabled(run[i], steps[i]) && run[i + 1] == Next(run[i], steps[i])
  }

  lemma {:induction false} RunInv(run: seq<State>, steps: seq<Step>, n: nat)
    requires IsRun(run, steps) && n < |run|
    ensures Inv(run[n])
  {
    if n > 0 {
      RunInv(run, steps, n - 1);
      StepKeepsInv(run[n - 1], steps[n - 1]);
    }
  }

  /** In every run, through any crashes and retries, the persistent store is the replay of exactly the log
      up to its stored milestone; store and batch together are the replay up to the applied index;
      and the bundles applied since recovery are all the bundles of that stretch, in order. */
  lemma StoreFollowsLog(run: seq<State>, steps: seq<Step>, n: nat)
    requires IsRun(run, steps) && n < |run|
    ensures
      var s := run[n];
      && Stored(s) <= |s.log| && s.db == LogReplay(s.log, Stored(s))
      && (s.running && s.working.None? ==>
            && s.start <= s.appliedIndex <= |s.log|
            && Replay(s.batch, s.db) == LogReplay(s.log, s.appliedIndex)
            && s.delivered == Bundles(s.log, s.start, s.appliedIndex))
  {
    RunInv(run, steps, n);
  }

  /** The version that guards evictions is none until the first commit since recovery, and from then on the one that
      the events of the bundle at the milestone carry. */
  lemma GuardIsMilestoneVersion(run: seq<State>, steps: seq<Step>, n: nat)
    requires IsRun(run, steps) && n < |run| && run[n].running
    ensures Stored(run[n]) == run[n].start ==> run[n].keyVersion == INVALID_VERSION
    ensures Stored(run[n]) != run[n].start ==>
      var s := run[n];
      && 0 < Stored(s) <= |s.log| && s.log[Stored(s) - 1].Bundle? && s.log[Stored(s) - 1].events != []
      && s.keyVersion == BundleVersion(s.log[Stored(s) - 1].events)
      && var es := s.log[Stored(s) - 1].events; forall v :: Carries(es, v) ==> s.keyVersion == v
  {
    RunInv(run, steps, n);
    if Stored(run[n]) != run[n].start {
      var es := run[n].log[Stored(run[n]) - 1].events;
      forall v | Carries(es, v)
        ensures run[n].keyVersion == v
      {
        CarriesBundleVersion(es, v);
      }
    }
  }

  /** Every bundle has one version, and versions increase along the log. */
  ghost predicate WellVersioned(log: seq<LogEntry>) {
    && (forall i :: 0 <= i < |log| && log[i].Bundle? ==> Carries(log[i].events, BundleVersion(log[i].events)))
    && (forall i, j :: 0 <= i < j < |log| && log[i].Bundle? && log[j].Bundle? ==>
          BundleVersion(log[i].events) < BundleVersion(log[j].events))
  }

  lemma RecordStays(log: seq<LogEntry>, i: nat, k: Key)
    requires 0 < i <= |log| && !TouchesAny(EventsOf(log[i - 1]), k)
    ensures Lookup(LogReplay(log, i), k) == Lookup(LogReplay(log, i - 1), k)
  {
    ReplayUntouched(EventsOf(log[i - 1]), LogReplay(log, i - 1), k);
  }

  /** A record in the replay of a log has the version of one of its bundles. */
  lemma {:induction false} StoredRecord(log: seq<LogEntry>, i: nat, k: Key) returns (p: nat)
    requires WellVersioned(log) && i <= |log| && k in LogReplay(log, i)
    ensures p < i && log[p].Bundle? && LogReplay(log, i)[k].entry.version == BundleVersion(log[p].events)
  {
    var es := EventsOf(log[i - 1]);
    if TouchesAny(es, k) {
      p := i - 1;
      ReplayRecord(es, BundleVersion(es), LogReplay(log, p), k);
    } else {
      RecordStays(log, i, k);
      p := StoredRecord(log, i - 1, k);
    }
  }

  /** In every run over a log of increasing versions, from the first commit since recovery on, the guard parts the store
      from what is still to come: no record in the store is newer than it, and every event above the milestone is. */
  lemma GuardSeparates(run: seq<State>, steps: seq<Step>, n: nat)
    requires IsRun(run, steps) && n < |run| && run[n].running && Stored(run[n]) != run[n].start
    requires WellVersioned(run[n].log)
    ensures forall k :: k in run[n].db ==> run[n].db[k].entry.version <= run[n].keyVersion
    ensures forall i :: Stored(run[n]) <= i < |run[n].log| && run[n].log[i].Bundle? ==>
      exists v :: v > run[n].keyVersion && Carries(run[n].log[i].events, v)
  {
    GuardIsMilestoneVersion(run, steps, n);
    RunInv(run, steps, n);
    var s := run[n];
    forall k | k in s.db
      ensures s.db[k].entry.version <= s.keyVersion
    {
      var p := StoredRecord(s.log, Stored(s), k);
    }
    forall i | Stored(s) <= i < |s.log| && s.log[i].Bundle?
      ensures exists v :: v > s.keyVersion && Carries(s.log[i].events, v)
    {
      assert BundleVersion(s.log[i].events) > s.keyVersion;
    }
  }

  // ----- the loop and the event store as they run

  /** No bundle is skipped: only no-ops lie before the one fetched. If there is none, only no-ops have been loaded, and
      the log has been read up to the commit index unless a read of it was empty. */
  ghost predicate Fetched(log: seq<LogEntry>, complete: bool, was: nat, applied: nat, loaded: nat, r: Option<Loaded>) {
    match r
    case Some(l) =>
      && was < l.index == applied <= |log| && log[applied - 1] == Bundle(l.events)
      && Noops(log, was, applied - 1)
    case None => applied == was && loaded <= |log| && Noops(log, was, loaded) && complete
  }

  class Applier {
    var db: Store
    var milestone: Option<nat>
    var batch: seq<Event>
    var cached: seq<Loaded>
    var applied: nat
    var loaded: nat
    var appliedIndex: nat
    var lastMilestone: nat
    var keyVersion: nat
    var running: bool
    ghost var start: nat
    ghost var delivered: seq<Loaded>

    ghost function View(log: seq<LogEntry>, commitIndex: nat, working: Option<Loaded>): State
      reads this
    {
      State(log, commitIndex, db, milestone, batch, cached, applied, loaded, working, appliedIndex, lastMilestone,
            keyVersion, running, start, delivered)
    }

    constructor (db: Store, milestone: Option<nat>)
      ensures forall log, c ::
        View(log, c, None) == Down(log, c, db, milestone)
    {
      this.db, this.milestone := db, milestone;
      batch, cached, applied, loaded := [], [], 0, 0;
      appliedIndex, lastMilestone, keyVersion, running := 0, 0, INVALID_VERSION, false;
      start, delivered := 0, [];
    }

    method RecoverSelf(ghost log: seq<LogEntry>, ghost commitIndex: nat)
      requires Inv(View(log, commitIndex, None)) && !running
      modifies this
      ensures View(log, commitIndex, None) == Recovered(old(View(log, commitIndex, None)))
      ensures Inv(View(log, commitIndex, None))
    {
      RecoverKeeps(View(log, commitIndex, None));
      var m := if milestone.Some? then milestone.value else 0;
      applied, loaded, lastMilestone, appliedIndex, running := m, m, m, m, true;
      start, delivered := m, [];
    }

    /** Takes the bundle at the front of the cache. */
    method PopCached(ghost log: seq<LogEntry>, ghost commitIndex: nat) returns (l: Loaded)
      requires Inv(View(log, commitIndex, None)) && running && cached != []
      modifies this`cached, this`applied
      ensures View(log, commitIndex, Some(l)) == Popped(old(View(log, commitIndex, None)))
      ensures Inv(View(log, commitIndex, Some(l)))
      ensures Fetched(log, true, old(applied), applied, loaded, Some(l))
    {
      PopKeeps(View(log, commitIndex, None));
      PoppedLoad(View(log, commitIndex, None));
      l := cached[0];
      applied := Max(applied, l.index);
      cached := cached[1..];
    }

    /** The read itself. */
    method ReadBundles(log: seq<LogEntry>, ghost commitIndex: nat, size: nat)
      requires loaded + size <= |log|
      modifies this`cached, this`loaded
      ensures View(log, commitIndex, None) == LoadedOn(old(View(log, commitIndex, None)), size)
    {
      cached := LoadBundles(log, loaded, size);
      loaded := loaded + size;
    }

    /** Fills the empty cache with the next stretch of the log. */
    method ReadOn(log: seq<LogEntry>, commitIndex: nat, size: nat)
      requires Inv(View(log, commitIndex, None)) && running && cached == []
      requires 0 < size <= commitIndex - loaded
      modifies this`cached, this`loaded
      ensures loaded == old(loaded) + size
      ensures View(log, commitIndex, None) == LoadedOn(old(View(log, commitIndex, None)), size)
      ensures Inv(View(log, commitIndex, None))
    {
      ghost var before := View(log, commitIndex, None);
      LoadKeeps(before, size);
      ReadBundles(log, commitIndex, size);
      assert View(log, commitIndex, None) == LoadedOn(before, size);
    }

    /** Reads on in the log until there is a bundle in the cache or nothing left to read. A read of the log from an
        index gives as many entries as `size` says, and none at all ends it. */
    method FillCache(log: seq<LogEntry>, commitIndex: nat, size: nat -> nat)
      requires Inv(View(log, commitIndex, None)) && running
      modifies this`cached, this`loaded
      ensures Inv(View(log, commitIndex, None))
      ensures cached == [] ==> commitIndex <= loaded || size(loaded) == 0
      decreases commitIndex - loaded
    {
      if cached == [] && loaded < commitIndex && size(loaded) != 0 {
        var left := commitIndex - loaded;
        ReadOn(log, commitIndex, if size(loaded) < left then size(loaded) else left);
        FillCache(log, commitIndex, size);
      }
    }

    /** Takes the next bundle: from the cache, or after reading on in the log. */
    method LoadNextBundle(log: seq<LogEntry>, commitIndex: nat, size: nat -> nat) returns (r: Option<Loaded>)
      requires Inv(View(log, commitIndex, None)) && running
      modifies this`cached, this`applied, this`loaded
      ensures Inv(View(log, commitIndex, r))
      ensures Fetched(log, commitIndex <= loaded || size(loaded) == 0, old(applied), applied, loaded, r)
    {
      FillCache(log, commitIndex, size);
      if cached == [] {
        NothingCached(View(log, commitIndex, None));
        return None;
      }
      var l := PopCached(log, commitIndex);
      r := Some(l);
    }

    /** Applies one bundle, however often it takes. */
    method ApplyBundle(ghost log: seq<LogEntry>, ghost commitIndex: nat, l: Loaded, failures: seq<nat>)
      requires Inv(View(log, commitIndex, Some(l))) && running
      requires forall i :: 0 <= i < |failures| ==> failures[i] <= |l.events|
      modifies this`batch, this`appliedIndex, this`delivered
      ensures View(log, commitIndex, None) == AppliedBundle(old(View(log, commitIndex, Some(l))), failures)
      ensures Inv(View(log, commitIndex, None))
    {
      ApplyKeeps(View(log, commitIndex, Some(l)), failures);
      batch := Attempts(batch, l.events, failures);
      appliedIndex, delivered := l.index, delivered + [l];
    }

    /** The write itself. */
    method Flush(log: seq<LogEntry>, ghost commitIndex: nat)
      requires 0 < appliedIndex <= |log| && EventsOf(log[appliedIndex - 1]) != []
      modifies this`db, this`milestone, this`batch, this`lastMilestone, this`keyVersion
      ensures View(log, commitIndex, None) == Committed(old(View(log, commitIndex, None)))
    {
      db, batch, milestone := Replay(batch, db), [], Some(appliedIndex);
      lastMilestone, keyVersion := appliedIndex, BundleVersion(EventsOf(log[appliedIndex - 1]));
    }

    /** Writes the batch and the milestone in one go. */
    method CommitMilestone(log: seq<LogEntry>, ghost commitIndex: nat)
      requires Inv(View(log, commitIndex, None)) && running && appliedIndex > lastMilestone
      modifies this`db, this`milestone, this`batch, this`lastMilestone, this`keyVersion
      ensures View(log, commitIndex, None) == Committed(old(View(log, commitIndex, None)))
      ensures Inv(View(log, commitIndex, None))
    {
      CommitEnabled(View(log, commitIndex, None));
      CommitKeeps(View(log, commitIndex, None));
      Flush(log, commitIndex);
    }
  }

  /** Puts the events of a bundle into the batch: some attempts that stop half way, then all of it. */
  method Attempts(batch: seq<Event>, es: seq<Event>, failures: seq<nat>) returns (batch': seq<Event>)
    requires forall i :: 0 <= i < |failures| ==> failures[i] <= |es|
    ensures batch' == batch + WithRetries(es, failures)
  {
    batch' := batch;
    var attempt := 0;
    while attempt < |failures|
      invariant 0 <= attempt <= |failures|
      invariant batch + WithRetries(es, failures) == batch' + WithRetries(es, failures[attempt..])
    {
      batch' := batch' + es[..failures[attempt]];
      assert failures[attempt..][1..] == failures[attempt + 1..];
      attempt := attempt + 1;
    }
    batch' := batch' + es;
  }

  /** Reads a stretch of the log and drops the no-ops. */
  method LoadBundles(log: seq<LogEntry>, from: nat, size: nat) returns (bundles: seq<Loaded>)
    requires from + size <= |log|
    ensures bundles == Bundles(log, from, from + size)
  {
    bundles := [];
    for i := from to from + size
      invariant bundles == Bundles(log, from, i)
    {
      if log[i].Bundle? {
        bundles := bundles + [Loaded(i + 1, log[i].events)];
      }
    }
  }
}
