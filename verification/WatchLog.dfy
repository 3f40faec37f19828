/** The watch registry under the apply loop. Every event that goes into the write batch is reported to the registry,
    except writes with a ttl; a bundle that is tried again reports its events again; watches come and go between any
    two events. */
module WatchLog {
  import opened Base
  import A = ApplyLoop
  import W = Watch

  /** An event and how many events of the log come before it. */
  datatype Place = Place(position: nat, event: Event)

  /** When a watch was registered: the events applied by then, and how many had been passed by failed attempts. */
  datatype Mark = Mark(before: seq<Event>, failed: nat)

  /** `at` events of the bundle in work are applied in the current attempt; `failures` says where earlier attempts
      stopped. `told` are the events reported so far and `failed` those passed by failed attempts. A crash forgets the
      registry and everything else here. */
  datatype State = State(
    loop: A.State, at: nat, failures: seq<nat>, watch: W.State,
    told: seq<Place>, failed: seq<Place>, marks: map<W.WatchId, Mark>)

  datatype Step =
    | Loop(step: A.Step)
    | ApplyNext
    | Retry
    | Done
    | Watcher(action: W.Step)

  /** Whether the store reports the event. */
  predicate Told(e: Event) {
    match e
    case Write(_, entry, _, noop) => !noop && entry.ttl == INFINITE_TTL
    case Delete(_, _, _) => true
  }

  function ChangeOf(e: Event): W.Change {
    match e
    case Write(k, entry, _, _) => W.Change(k, entry.value, entry.version, entry.version, false)
    case Delete(k, version, deletedVersion) => W.Change(k, "", deletedVersion, version, true)
  }

  /** The events of the first `i` log entries, one after the other. */
  ghost function Flat(log: seq<A.LogEntry>, i: nat): seq<Event> {
    if i == 0 then [] else Flat(log, i - 1) + if i <= |log| then A.EventsOf(log[i - 1]) else []
  }

  /** The index of the last finished entry. */
  function Reached(loop: A.State): nat {
    if loop.working.Some? then if loop.working.value.index == 0 then 0 else loop.working.value.index - 1
    else if loop.running then loop.appliedIndex else A.Stored(loop)
  }

  /** The events of the finished bundles. */
  ghost function Finished(s: State): seq<Event> {
    Flat(s.loop.log, Reached(s.loop))
  }

  /** The events of the bundle in work. */
  function InWork(s: State): seq<Event> {
    if s.loop.working.Some? then s.loop.working.value.events else []
  }

  /** The events applied: those of the finished bundles and those that the current attempt has come to. */
  ghost function Upto(s: State): seq<Event> {
    Finished(s) + if s.at <= |InWork(s)| then InWork(s)[..s.at] else []
  }

  ghost function Places(es: seq<Event>): (ps: seq<Place>)
    ensures |ps| == |es|
  {
    if es == [] then [] else Places(es[..|es| - 1]) + [Place(|es| - 1, es[|es| - 1])]
  }

  // ----- the steps

  const INITIAL: State :=
    State(A.Down([], 0, map[], None), 0, [], W.INITIAL, [], [], map[])

  ghost predicate Enabled(s: State, st: Step) {
    match st
    case Loop(step) => !step.Apply? && A.Enabled(s.loop, step)
    case ApplyNext => s.loop.running && s.at < |InWork(s)|
    case Retry => s.loop.running && s.loop.working.Some?
    case Done => s.at == |InWork(s)| && A.Enabled(s.loop, A.Apply(s.failures))
    case Watcher(action) => !action.Notify? && W.Enabled(s.watch, action)
  }

  ghost function Next(s: State, st: Step): State
    requires Enabled(s, st)
  {
    match st
    case Loop(step) =>
      if step.Crash? then INITIAL.(loop := A.Next(s.loop, step)) else s.(loop := A.Next(s.loop, step))
    case ApplyNext =>
      var e := InWork(s)[s.at];
      if Told(e) then
        s.(at := s.at + 1, watch := W.Next(s.watch, W.Notify(ChangeOf(e))), told := s.told + [Place(|Upto(s)|, e)])
      else s.(at := s.at + 1)
    case Retry => s.(at := 0, failures := s.failures + [s.at], failed := s.failed + Attempted(s))
    case Done => s.(loop := A.Next(s.loop, A.Apply(s.failures)), at := 0, failures := [])
    case Watcher(action) =>
      var s' := s.(watch := W.Next(s.watch, action));
      if action.Register? then s'.(marks := s.marks[action.id := Mark(Upto(s), |s.failed|)]) else s'
  }

  /** What the current attempt has passed. */
  ghost function Attempted(s: State): seq<Place> {
    if |Finished(s)| <= |Upto(s)| then Places(Upto(s))[|Finished(s)|..] else []
  }

  // ----- the events of one key

  /** The places that change a key. */
  ghost function On(ps: seq<Place>, k: Key): seq<Place> {
    if ps == [] then []
    else On(ps[..|ps| - 1], k) + if Touches(ps[|ps| - 1].event, k) then [ps[|ps| - 1]] else []
  }

  /** Those among them that are reported. */
  ghost function ToldOn(ps: seq<Place>, k: Key): seq<Place> {
    if ps == [] then []
    else
      var last := ps[|ps| - 1];
      ToldOn(ps[..|ps| - 1], k) + if Touches(last.event, k) && Told(last.event) then [last] else []
  }

  ghost function ChangesOf(ps: seq<Place>): seq<W.Change> {
    if ps == [] then [] else ChangesOf(ps[..|ps| - 1]) + [ChangeOf(ps[|ps| - 1].event)]
  }

  lemma {:induction false} ToldOnAppend(a: seq<Place>, b: seq<Place>, k: Key)
    ensures ToldOn(a + b, k) == ToldOn(a, k) + ToldOn(b, k)
  {
    if b == [] {
      assert a + b == a;
    } else {
      assert (a + b)[..|a + b| - 1] == a + b[..|b| - 1];
      ToldOnAppend(a, b[..|b| - 1], k);
    }
  }

  lemma {:induction false} OnAppend(a: seq<Place>, b: seq<Place>, k: Key)
    ensures On(a + b, k) == On(a, k) + On(b, k)
  {
    if b == [] {
      assert a + b == a;
    } else {
      assert (a + b)[..|a + b| - 1] == a + b[..|b| - 1];
      OnAppend(a, b[..|b| - 1], k);
    }
  }

  lemma {:induction false} PlacesAppend(a: seq<Event>, b: seq<Event>)
    ensures Places(a + b)[..|a|] == Places(a)
  {
    if b == [] {
      assert a + b == a;
    } else {
      assert (a + b)[..|a + b| - 1] == a + b[..|b| - 1];
      PlacesAppend(a, b[..|b| - 1]);
    }
  }

  /** The places of the events in `b` when they come after those in `a`. */
  lemma PlacesSplit(a: seq<Event>, b: seq<Event>, k: Key)
    ensures ToldOn(Places(a + b), k) == ToldOn(Places(a), k) + ToldOn(Places(a + b)[|a|..], k)
    ensures On(Places(a + b), k) == On(Places(a), k) + On(Places(a + b)[|a|..], k)
  {
    PlacesAppend(a, b);
    var ps := Places(a + b);
    assert ps == ps[..|a|] + ps[|a|..];
    ToldOnAppend(ps[..|a|], ps[|a|..], k);
    OnAppend(ps[..|a|], ps[|a|..], k);
  }

  ghost predicate AllTold(ps: seq<Place>) {
    forall i :: 0 <= i < |ps| ==> Told(ps[i].event)
  }

  /** The reported places are all of them exactly when every one is reported. */
  lemma {:induction false} ToldOnIsOnIff(ps: seq<Place>, k: Key)
    ensures |ToldOn(ps, k)| <= |On(ps, k)| && AllTold(ToldOn(ps, k))
    ensures ToldOn(ps, k) == On(ps, k) <==> AllTold(On(ps, k))
  {
    if ps != [] {
      var front, last := ps[..|ps| - 1], ps[|ps| - 1];
      ToldOnIsOnIff(front, k);
      if Touches(last.event, k) {
        assert On(ps, k) == On(front, k) + [last];
        assert AllTold(On(ps, k)) <==> AllTold(On(front, k)) && Told(last.event) by {
          assert On(ps, k)[|On(front, k)|] == last;
          assert forall i :: 0 <= i < |On(front, k)| ==> On(ps, k)[i] == On(front, k)[i];
        }
      } else {
        assert On(ps, k) == On(front, k) && ToldOn(ps, k) == ToldOn(front, k);
      }
    }
  }

  /** The registry sees the reported places of a key as the changes of that key. */
  lemma {:induction false} ChangesOfKey(ps: seq<Place>, k: Key)
    requires AllTold(ps)
    ensures W.OfKey(ChangesOf(ps), k) == ChangesOf(ToldOn(ps, k)) && |ChangesOf(ps)| == |ps|
  {
    if ps != [] {
      var front, last := ps[..|ps| - 1], ps[|ps| - 1];
      ChangesOfKey(front, k);
      assert ChangesOf(ps)[..|ChangesOf(ps)| - 1] == ChangesOf(front);
      assert Told(last.event) && (Touches(last.event, k) <==> ChangeOf(last.event).key == k);
      if Touches(last.event, k) {
        assert ToldOn(ps, k)[..|ToldOn(ps, k)| - 1] == ToldOn(front, k);
      } else {
        assert ToldOn(ps, k) == ToldOn(front, k);
      }
    }
  }

  // ----- the invariant

  ghost predicate LoopOk(s: State) {
    && A.Inv(s.loop) && s.at <= |InWork(s)|
    && (forall i :: 0 <= i < |s.failures| ==> s.failures[i] <= |InWork(s)|)
    && (s.loop.working.None? ==> s.failures == [])
  }

  /** The registry was told what the places say. */
  ghost predicate WatchOk(s: State) {
    && W.Inv(s.watch) && AllTold(s.told) && s.watch.history == ChangesOf(s.told)
    && s.marks.Keys == s.watch.start.Keys
  }

  ghost predicate MarkOk(s: State, id: W.WatchId) {
    id in s.marks && id in s.watch.start ==>
      && s.watch.start[id] <= |s.told| && s.marks[id].failed <= |s.failed|
      && s.marks[id].before <= Finished(s) + InWork(s)
  }

  /** What was reported of a key since a watch was registered. */
  ghost function Reported(s: State, id: W.WatchId, k: Key): seq<Place>
    requires id in s.watch.start && s.watch.start[id] <= |s.told|
  {
    ToldOn(s.told[s.watch.start[id]..], k)
  }

  /** Of that key, what attempts that failed since then had reported. */
  ghost function Repeated(s: State, id: W.WatchId, k: Key): seq<Place>
    requires id in s.marks && s.marks[id].failed <= |s.failed|
  {
    ToldOn(s.failed[s.marks[id].failed..], k)
  }

  /** Of a key, what was reported since registration is what the log has to report in between, and once more for each
      failed attempt. Without such repeats it is that stretch of the log itself. */
  ghost predicate Balanced(before: seq<Place>, reported: seq<Place>, upto: seq<Place>, repeated: seq<Place>) {
    && |before| + |reported| == |upto| + |repeated|
    && (repeated == [] ==> before + reported == upto)
  }

  ghost predicate KeyOk(s: State, id: W.WatchId, k: Key)
    requires MarkOk(s, id)
  {
    id in s.marks && id in s.watch.start ==>
      Balanced(ToldOn(Places(s.marks[id].before), k), Reported(s, id, k), ToldOn(Places(Upto(s)), k),
               Repeated(s, id, k))
  }

  ghost predicate Inv(s: State) {
    && LoopOk(s) && WatchOk(s)
    && (forall id :: MarkOk(s, id))
    && (forall id, k :: KeyOk(s, id, k))
  }

  // ----- the log under the loop

  lemma {:induction false} FlatExtend(log: seq<A.LogEntry>, es: seq<A.LogEntry>, i: nat)
    requires i <= |log|
    ensures Flat(log + es, i) == Flat(log, i)
  {
    if i > 0 {
      FlatExtend(log, es, i - 1);
    }
  }

  lemma {:induction false} FlatNoops(log: seq<A.LogEntry>, a: nat, b: nat)
    requires a <= b <= |log| && A.Noops(log, a, b)
    ensures Flat(log, b) == Flat(log, a)
  {
    if a < b {
      FlatNoops(log, a, b - 1);
      assert log[b - 1].Noop?;
    }
  }

  lemma ReachedInLog(loop: A.State)
    requires A.Inv(loop)
    ensures Reached(loop) <= |loop.log|
    ensures loop.working.Some? ==> loop.running && Reached(loop) < |loop.log|
    ensures loop.working.Some? ==> loop.log[Reached(loop)] == A.Bundle(loop.working.value.events)
  {
  }

  lemma StepsAside(loop: A.State, step: A.Step)
    requires A.Inv(loop) && A.Enabled(loop, step) && !step.Apply? && !step.Crash?
    ensures var loop' := A.Next(loop, step);
      && loop.log <= loop'.log && Reached(loop) <= Reached(loop')
      && (step.Pop? ==> loop'.log == loop.log && loop.working.None? && loop'.working.Some?
                        && Reached(loop') <= |loop.log| && A.Noops(loop.log, Reached(loop), Reached(loop')))
      && (!step.Pop? ==> loop'.working == loop.working && Reached(loop') == Reached(loop))
  {
    if step.Pop? {
      A.PoppedLoad(loop);
    }
  }

  /** Loading, popping, committing, recovering and growing the log all leave the applied events as they are. */
  lemma LoopStepsAside(s: State, step: A.Step)
    requires A.Inv(s.loop) && s.at <= |InWork(s)| && Enabled(s, Loop(step)) && !step.Crash?
    ensures var s' := Next(s, Loop(step));
      Upto(s') == Upto(s) && Finished(s) + InWork(s) <= Finished(s') + InWork(s')
  {
    var loop, loop' := s.loop, A.Next(s.loop, step);
    ReachedInLog(loop);
    StepsAside(loop, step);
    if step.Pop? {
      FlatNoops(loop.log, Reached(loop), Reached(loop'));
    } else {
      assert loop'.log == loop.log + loop'.log[|loop.log|..];
      FlatExtend(loop.log, loop'.log[|loop.log|..], Reached(loop));
    }
  }

  lemma LoopStaysOk(s: State, step: A.Step)
    requires LoopOk(s) && Enabled(s, Loop(step)) && !step.Crash?
    ensures LoopOk(Next(s, Loop(step)))
  {
    A.StepKeepsInv(s.loop, step);
    StepsAside(s.loop, step);
  }

  lemma DoneReaches(loop: A.State, failures: seq<nat>)
    requires A.Inv(loop) && A.Enabled(loop, A.Apply(failures))
    ensures var loop' := A.Next(loop, A.Apply(failures));
      loop'.log == loop.log && loop'.working.None? && Reached(loop') == Reached(loop) + 1
  {
  }

  /** Finishing a bundle moves its events from the work to what is finished. */
  lemma DoneMoves(s: State)
    requires A.Inv(s.loop) && Enabled(s, Done)
    ensures var s' := Next(s, Done);
      Upto(s') == Upto(s) && InWork(s') == [] && Finished(s') + InWork(s') == Finished(s) + InWork(s)
  {
    DoneReaches(s.loop, s.failures);
    ReachedInLog(s.loop);
    assert InWork(s)[..s.at] == InWork(s);
    assert Flat(s.loop.log, Reached(s.loop) + 1) == Finished(s) + InWork(s);
  }

  lemma DoneStaysOk(s: State)
    requires LoopOk(s) && Enabled(s, Done)
    ensures LoopOk(Next(s, Done))
  {
    A.StepKeepsInv(s.loop, A.Apply(s.failures));
    DoneReaches(s.loop, s.failures);
  }

  // ----- each step

  /** A step that leaves told and failed places and the applied events as they are. */
  lemma KeepsKeys(s: State, s': State)
    requires Inv(s) && s'.told == s.told && s'.failed == s.failed && s'.marks == s.marks
    requires s'.watch.start == s.watch.start && Upto(s') == Upto(s)
    requires Finished(s) + InWork(s) <= Finished(s') + InWork(s')
    ensures forall id :: MarkOk(s', id)
    ensures forall id, k :: KeyOk(s', id, k)
  {
    forall id
      ensures MarkOk(s', id)
    {
      assert MarkOk(s, id);
    }
    forall id, k
      ensures KeyOk(s', id, k)
    {
      assert MarkOk(s, id) && KeyOk(s, id, k);
    }
  }

  lemma LoopKeeps(s: State, step: A.Step)
    requires Inv(s) && Enabled(s, Loop(step))
    ensures Inv(Next(s, Loop(step)))
  {
    if step.Crash? {
      A.StepKeepsInv(s.loop, step);
    } else {
      LoopStepsAside(s, step);
      LoopStaysOk(s, step);
      KeepsKeys(s, Next(s, Loop(step)));
    }
  }

  lemma DoneKeeps(s: State)
    requires Inv(s) && Enabled(s, Done)
    ensures Inv(Next(s, Done))
  {
    DoneMoves(s);
    DoneStaysOk(s);
    KeepsKeys(s, Next(s, Done));
  }

  lemma OneMorePlace(es: seq<Event>, e: Event, k: Key)
    ensures ToldOn(Places(es + [e]), k) ==
      ToldOn(Places(es), k) + if Touches(e, k) && Told(e) then [Place(|es|, e)] else []
  {
    assert (es + [e])[..|es + [e]| - 1] == es;
    var ps := Places(es + [e]);
    assert ps[..|ps| - 1] == Places(es);
  }

  lemma OneMoreTold(told: seq<Place>, p: Place, start: nat, k: Key)
    requires start <= |told|
    ensures ToldOn((told + [p])[start..], k) ==
      ToldOn(told[start..], k) + if Touches(p.event, k) && Told(p.event) then [p] else []
  {
    assert (told + [p])[start..] == told[start..] + [p];
    assert (told[start..] + [p])[..|told[start..] + [p]| - 1] == told[start..];
  }

  lemma BalancedMore(before: seq<Place>, reported: seq<Place>, upto: seq<Place>, repeated: seq<Place>, more: seq<Place>)
    requires Balanced(before, reported, upto, repeated)
    ensures Balanced(before, reported + more, upto + more, repeated)
  {
    assert before + (reported + more) == (before + reported) + more;
  }

  /** One more event is applied, and is reported if it is one that is told. */
  ghost predicate AppliesOne(s: State, s': State, e: Event) {
    && s'.loop == s.loop && s'.failed == s.failed && s'.marks == s.marks && s'.watch.start == s.watch.start
    && s'.told == s.told + (if Told(e) then [Place(|Upto(s)|, e)] else [])
    && Upto(s') == Upto(s) + [e]
  }

  lemma ApplyKeepsKey(s: State, s': State, e: Event, id: W.WatchId, k: Key)
    requires AppliesOne(s, s', e) && MarkOk(s, id) && KeyOk(s, id, k)
    ensures MarkOk(s', id) && KeyOk(s', id, k)
  {
    OneMorePlace(Upto(s), e, k);
    if id in s.marks && id in s.watch.start {
      var more := if Touches(e, k) && Told(e) then [Place(|Upto(s)|, e)] else [];
      if Told(e) {
        OneMoreTold(s.told, Place(|Upto(s)|, e), s.watch.start[id], k);
      } else {
        assert s'.told == s.told;
      }
      assert Reported(s', id, k) == Reported(s, id, k) + more;
      BalancedMore(ToldOn(Places(s.marks[id].before), k), Reported(s, id, k), ToldOn(Places(Upto(s)), k),
                   Repeated(s, id, k), more);
    }
  }

  lemma ApplyKeepsWatch(s: State)
    requires WatchOk(s) && Enabled(s, ApplyNext)
    ensures WatchOk(Next(s, ApplyNext))
  {
    var e := InWork(s)[s.at];
    if Told(e) {
      var p := Place(|Upto(s)|, e);
      W.StepKeepsInv(s.watch, W.Notify(ChangeOf(e)));
      assert (s.told + [p])[..|s.told + [p]| - 1] == s.told;
    }
  }

  lemma ApplyAppliesOne(s: State)
    requires Enabled(s, ApplyNext)
    ensures AppliesOne(s, Next(s, ApplyNext), InWork(s)[s.at])
  {
    assert InWork(s)[..s.at + 1] == InWork(s)[..s.at] + [InWork(s)[s.at]];
    var s' := Next(s, ApplyNext);
    assert Finished(s') == Finished(s) && InWork(s') == InWork(s) && s'.at == s.at + 1;
    assert Upto(s') == Finished(s) + InWork(s)[..s.at + 1];
  }

  lemma ApplyKeepsKeys(s: State, s': State, e: Event)
    requires AppliesOne(s, s', e) && (forall id :: MarkOk(s, id)) && (forall id, k :: KeyOk(s, id, k))
    ensures (forall id :: MarkOk(s', id)) && (forall id, k :: KeyOk(s', id, k))
  {
    forall id, k
      ensures MarkOk(s', id) && KeyOk(s', id, k)
    {
      ApplyKeepsKey(s, s', e, id, k);
    }
    forall id
      ensures MarkOk(s', id)
    {
      ApplyKeepsKey(s, s', e, id, "");
    }
  }

  lemma ApplyKeeps(s: State)
    requires Inv(s) && Enabled(s, ApplyNext)
    ensures Inv(Next(s, ApplyNext))
  {
    ApplyKeepsWatch(s);
    ApplyAppliesOne(s);
    ApplyKeepsKeys(s, Next(s, ApplyNext), InWork(s)[s.at]);
    assert LoopOk(Next(s, ApplyNext));
  }

  lemma BalancedRetry(before: seq<Place>, reported: seq<Place>, upto: seq<Place>, repeated: seq<Place>,
                      more: seq<Place>)
    requires Balanced(before, reported, upto + more, repeated)
    ensures Balanced(before, reported, upto, repeated + more)
  {
    if repeated + more == [] {
      assert more == [] && upto + more == upto;
    }
  }

  /** An attempt has failed. */
  ghost predicate GoesBack(s: State, s': State) {
    && s'.loop == s.loop && s'.at == 0 && s.at <= |InWork(s)| && s'.watch == s.watch && s'.marks == s.marks
    && s'.told == s.told && s'.failed == s.failed + Attempted(s)
  }

  lemma RepeatedMore(failed: seq<Place>, more: seq<Place>, n: nat, k: Key)
    requires n <= |failed|
    ensures ToldOn((failed + more)[n..], k) == ToldOn(failed[n..], k) + ToldOn(more, k)
  {
    assert (failed + more)[n..] == failed[n..] + more;
    ToldOnAppend(failed[n..], more, k);
  }

  /** A failed attempt goes back to the start of the bundle, and everything it has reported counts as repeated. */
  lemma RetryKeepsKey(s: State, s': State, id: W.WatchId, k: Key)
    requires GoesBack(s, s') && MarkOk(s, id) && KeyOk(s, id, k)
    ensures MarkOk(s', id) && KeyOk(s', id, k)
  {
    assert Upto(s') == Finished(s);
    if id in s.marks && id in s.watch.start {
      PlacesSplit(Finished(s), InWork(s)[..s.at], k);
      RepeatedMore(s.failed, Attempted(s), s.marks[id].failed, k);
      BalancedRetry(ToldOn(Places(s.marks[id].before), k), Reported(s, id, k), ToldOn(Places(Finished(s)), k),
                    Repeated(s, id, k), ToldOn(Attempted(s), k));
    }
  }

  lemma RetryKeeps(s: State)
    requires Inv(s) && Enabled(s, Retry)
    ensures Inv(Next(s, Retry))
  {
    var s' := Next(s, Retry);
    forall id, k
      ensures MarkOk(s', id) && KeyOk(s', id, k)
    {
      RetryKeepsKey(s, s', id, k);
    }
    forall id
      ensures MarkOk(s', id)
    {
      RetryKeepsKey(s, s', id, "");
    }
  }

  /** A watch is registered, or none is. */
  ghost predicate Marks(s: State, s': State, registered: Option<W.WatchId>) {
    && s'.loop == s.loop && s'.at == s.at && s'.told == s.told && s'.failed == s.failed
    && match registered
       case None => s'.marks == s.marks && s'.watch.start == s.watch.start
       case Some(id) =>
         && s'.marks == s.marks[id := Mark(Upto(s), |s.failed|)]
         && s'.watch.start == s.watch.start[id := |s.told|]
  }

  lemma MarksKey(s: State, s': State, registered: Option<W.WatchId>, id: W.WatchId, k: Key)
    requires Marks(s, s', registered) && s.at <= |InWork(s)| && MarkOk(s, id) && KeyOk(s, id, k)
    ensures MarkOk(s', id) && KeyOk(s', id, k)
  {
    if registered == Some(id) {
      assert s.told[|s.told|..] == [] && s.failed[|s.failed|..] == [];
      assert Upto(s) <= Finished(s) + InWork(s);
    }
  }

  lemma WatcherMarks(s: State, action: W.Step)
    requires WatchOk(s) && Enabled(s, Watcher(action))
    ensures Marks(s, Next(s, Watcher(action)), if action.Register? then Some(action.id) else None)
    ensures WatchOk(Next(s, Watcher(action)))
  {
    ChangesOfKey(s.told, "");
    W.StepKeepsInv(s.watch, action);
  }

  lemma WatcherKeeps(s: State, action: W.Step)
    requires Inv(s) && Enabled(s, Watcher(action))
    ensures Inv(Next(s, Watcher(action)))
  {
    var s', registered := Next(s, Watcher(action)), if action.Register? then Some(action.id) else None;
    WatcherMarks(s, action);
    forall id, k
      ensures MarkOk(s', id) && KeyOk(s', id, k)
    {
      MarksKey(s, s', registered, id, k);
    }
    forall id
      ensures MarkOk(s', id)
    {
      MarksKey(s, s', registered, id, "");
    }
  }

  lemma StepKeepsInv(s: State, st: Step)
    requires Inv(s) && Enabled(s, st)
    ensures Inv(Next(s, st))
  {
    match st
    case Loop(step) => LoopKeeps(s, step);
    case ApplyNext => ApplyKeeps(s);
    case Retry => RetryKeeps(s);
    case Done => DoneKeeps(s);
    case Watcher(action) => WatcherKeeps(s, action);
  }

  ghost predicate IsRun(run: seq<State>, steps: seq<Step>) {
    && |run| == |steps| + 1 && run[0] == INITIAL
    && forall i :: 0 <= i < |steps| ==> Takes(run[i], steps[i], run[i + 1])
  }

  ghost predicate Takes(s: State, st: Step, s': State) {
    Enabled(s, st) && s' == Next(s, st)
  }

  lemma {:induction false} RunInv(run: seq<State>, steps: seq<Step>, n: nat)
    requires IsRun(run, steps) && n < |run|
    ensures Inv(run[n])
  {
    if n > 0 {
      RunInv(run, steps, n - 1);
      assert Takes(run[n - 1], steps[n - 1], run[n]);
      StepKeepsInv(run[n - 1], steps[n - 1]);
    }
  }

  // ----- main results

  /** What the log holds of a key from the registration of a watch up to now. */
  ghost function Logged(s: State, id: W.WatchId, k: Key): seq<Place>
    requires id in s.marks && s.marks[id].before <= Upto(s)
  {
    On(Places(Upto(s))[|s.marks[id].before|..], k)
  }

  lemma CompleteIff(before: seq<Place>, told: seq<Place>, logged: seq<Place>, reported: seq<Place>,
                    repeated: seq<Place>)
    requires Balanced(before, reported, before + told, repeated) && AllTold(reported)
    requires told == logged <==> AllTold(logged)
    ensures reported == logged <==> repeated == [] && AllTold(logged)
  {
    if repeated == [] {
      assert (before + reported)[|before|..] == reported && (before + told)[|before|..] == told;
    }
    assert reported == logged ==> AllTold(logged);
  }

  lemma BalancedIff(before: seq<Event>, rest: seq<Event>, reported: seq<Place>, repeated: seq<Place>, k: Key)
    requires AllTold(reported)
    requires Balanced(ToldOn(Places(before), k), reported, ToldOn(Places(before + rest), k), repeated)
    ensures var logged := On(Places(before + rest)[|before|..], k);
      reported == logged <==> repeated == [] && AllTold(logged)
  {
    var tail := Places(before + rest)[|before|..];
    PlacesSplit(before, rest, k);
    ToldOnIsOnIff(tail, k);
    CompleteIff(ToldOn(Places(before), k), ToldOn(tail, k), On(tail, k), reported, repeated);
  }

  /** A watch has been handed, or has pending, what was reported. */
  lemma KeyDelivers(s: State, id: W.WatchId, k: Key)
    requires WatchOk(s) && MarkOk(s, id) && id in s.marks && W.Exact(s.watch, id, k)
    ensures W.Delivers(W.OfKey(W.Handed(s.watch, id), k), W.EntriesOf(W.Wraps(s.watch.reg, k), id),
                       ChangesOf(Reported(s, id, k)), W.Named(s.watch.reg, id, k))
  {
    var start := s.watch.start[id];
    ChangesFrom(s.told, start);
    ChangesOfKey(s.told[start..], k);
  }

  lemma KeyCompleteIff(s: State, id: W.WatchId, k: Key)
    requires MarkOk(s, id) && KeyOk(s, id, k) && id in s.marks && id in s.watch.start && s.marks[id].before <= Upto(s)
    ensures Reported(s, id, k) == Logged(s, id, k) <==> Repeated(s, id, k) == [] && AllTold(Logged(s, id, k))
  {
    var before := s.marks[id].before;
    assert Upto(s) == before + Upto(s)[|before|..];
    ToldOnIsOnIff(s.told[s.watch.start[id]..], k);
    BalancedIff(before, Upto(s)[|before|..], Reported(s, id, k), Repeated(s, id, k), k);
  }

  /** After any run, a watch has been handed, or has pending, exactly what was reported of a key since it was
      registered. Between bundles, that is what the log holds of the key in the same stretch, event for event, if and
      only if no failed attempt has reported the key since then and no write in the stretch gave it a ttl. */
  lemma DeliversLogIff(run: seq<State>, steps: seq<Step>, n: nat, id: W.WatchId, k: Key)
    requires IsRun(run, steps) && n < |run| && W.Named(run[n].watch.reg, id, k) > 0
    ensures MarkOk(run[n], id) && id in run[n].marks && id in run[n].watch.start
    ensures var s := run[n];
      && W.Delivers(W.OfKey(W.Handed(s.watch, id), k), W.EntriesOf(W.Wraps(s.watch.reg, k), id),
                    ChangesOf(Reported(s, id, k)), W.Named(s.watch.reg, id, k))
      && (s.loop.working.None? ==> s.marks[id].before <= Upto(s))
      && (s.marks[id].before <= Upto(s) ==>
            (Reported(s, id, k) == Logged(s, id, k)
             <==> Repeated(s, id, k) == [] && AllTold(Logged(s, id, k))))
  {
    var s := run[n];
    RunInv(run, steps, n);
    assert W.Exact(s.watch, id, k) && MarkOk(s, id) && KeyOk(s, id, k);
    KeyDelivers(s, id, k);
    if s.marks[id].before <= Upto(s) {
      KeyCompleteIff(s, id, k);
    }
  }

  /** In every state with the registration behind it: the reports since then are those of the stretch of the log in
      between, and those of failed attempts on top. */
  lemma ReportsAddUp(run: seq<State>, steps: seq<Step>, n: nat, id: W.WatchId, k: Key)
    requires IsRun(run, steps) && n < |run| && id in run[n].marks && run[n].marks[id].before <= Upto(run[n])
    ensures MarkOk(run[n], id) && id in run[n].watch.start
    ensures var s := run[n];
      var stretch := Places(Upto(s))[|s.marks[id].before|..];
      |Reported(s, id, k)| == |ToldOn(stretch, k)| + |Repeated(s, id, k)|
  {
    RunInv(run, steps, n);
    var s := run[n];
    var before := s.marks[id].before;
    assert MarkOk(s, id) && KeyOk(s, id, k);
    assert Upto(s) == before + Upto(s)[|before|..];
    PlacesSplit(before, Upto(s)[|before|..], k);
  }

  lemma {:induction false} ChangesAppend(a: seq<Place>, b: seq<Place>)
    ensures ChangesOf(a + b) == ChangesOf(a) + ChangesOf(b) && |ChangesOf(b)| == |b|
  {
    if b == [] {
      assert a + b == a;
    } else {
      assert (a + b)[..|a + b| - 1] == a + b[..|b| - 1];
      ChangesAppend(a, b[..|b| - 1]);
    }
  }

  lemma ChangesFrom(ps: seq<Place>, start: nat)
    requires start <= |ps|
    ensures |ChangesOf(ps)| == |ps| && ChangesOf(ps)[start..] == ChangesOf(ps[start..])
  {
    assert ps == ps[..start] + ps[start..];
    ChangesAppend(ps[..start], ps[start..]);
    ChangesAppend([], ps[..start]);
  }

  /** The applied events are those behind the store: between bundles, store and batch are their replay. */
  lemma UptoIsStored(run: seq<State>, steps: seq<Step>, n: nat)
    requires IsRun(run, steps) && n < |run| && run[n].loop.running && run[n].loop.working.None?
    ensures Replay(run[n].loop.batch, run[n].loop.db) == Replay(Upto(run[n]), map[])
  {
    RunInv(run, steps, n);
    var s := run[n];
    FlatReplay(s.loop.log, s.loop.appliedIndex);
    assert Upto(s) == Flat(s.loop.log, s.loop.appliedIndex);
  }

  lemma {:induction false} FlatReplay(log: seq<A.LogEntry>, i: nat)
    requires i <= |log|
    ensures A.LogReplay(log, i) == Replay(Flat(log, i), map[])
  {
    if i > 0 {
      FlatReplay(log, i - 1);
      ReplayMore(Flat(log, i - 1), A.EventsOf(log[i - 1]), A.LogReplay(log, i - 1), Flat(log, i));
    }
  }

  lemma ReplayMore(front: seq<Event>, es: seq<Event>, m: Store, all: seq<Event>)
    requires m == Replay(front, map[]) && all == front + es
    ensures Replay(es, m) == Replay(all, map[])
  {
    ReplayAppend(front, es, map[]);
  }

  // ----- runs in which deliveries and log part

  ghost predicate Ends(run: seq<State>, steps: seq<Step>, s: State) {
    IsRun(run, steps) && run[|steps|] == s
  }

  lemma Go(run: seq<State>, steps: seq<Step>, s: State, st: Step)
    returns (run': seq<State>, steps': seq<Step>, s': State)
    requires Ends(run, steps, s) && Enabled(s, st)
    ensures s' == Next(s, st) && Ends(run', steps', s')
  {
    s' := Next(s, st);
    run', steps' := run + [s'], steps + [st];
  }

  /** The loop with a bundle of one event in work. */
  function LoopWith(e: Event): A.State {
    A.State([A.Bundle([e])], 1, map[], None, [], [], 1, 1, Some(A.Loaded(1, [e])), 0, 0, INVALID_VERSION, true, 0, [])
  }

  function Watching(id: W.WatchId, k: Key): W.State {
    W.Next(W.INITIAL, W.Register(id, [k]))
  }

  lemma LoopGoes(run: seq<State>, steps: seq<Step>, s: State, step: A.Step, loop: A.State)
    returns (run': seq<State>, steps': seq<Step>, s': State)
    requires Ends(run, steps, s) && A.Enabled(s.loop, step) && A.Next(s.loop, step) == loop
    requires !step.Apply? && !step.Crash?
    ensures s' == s.(loop := loop) && Ends(run', steps', s')
  {
    run', steps', s' := Go(run, steps, s, Loop(step));
  }

  /** A log of one bundle is recovered from nothing, and a watch is registered. */
  lemma RunToWatching(id: W.WatchId, k: Key, e: Event) returns (run: seq<State>, steps: seq<Step>, s: State)
    ensures var loop := A.Recovered(A.Down([A.Bundle([e])], 1, map[], None));
      s == State(loop, 0, [], Watching(id, k), [], [], map[id := Mark([], 0)])
    ensures Ends(run, steps, s)
  {
    var log := [A.Bundle([e])];
    run, steps, s := [INITIAL], [], INITIAL;
    assert [] + log == log;
    run, steps, s := LoopGoes(run, steps, s, A.Append(log), A.Down(log, 0, map[], None));
    run, steps, s := LoopGoes(run, steps, s, A.LearnCommit(1), A.Down(log, 1, map[], None));
    run, steps, s := LoopGoes(run, steps, s, A.Recover, A.Recovered(A.Down(log, 1, map[], None)));
    assert Upto(s) == [] && W.Enabled(s.watch, W.Register(id, [k]));
    run, steps, s := Go(run, steps, s, Watcher(W.Register(id, [k])));
  }

  lemma LoadsOne(e: Event)
    ensures var loop := A.Recovered(A.Down([A.Bundle([e])], 1, map[], None));
      var loaded := loop.(cached := [A.Loaded(1, [e])], loaded := 1);
      && A.Enabled(loop, A.Load(1)) && A.Next(loop, A.Load(1)) == loaded
      && A.Enabled(loaded, A.Pop) && A.Next(loaded, A.Pop) == LoopWith(e)
  {
    var log := [A.Bundle([e])];
    assert A.Bundles(log, 0, 1) == A.Bundles(log, 0, 0) + [A.Loaded(1, [e])] == [A.Loaded(1, [e])];
  }

  /** The bundle is about to be applied. */
  lemma RunToWork(id: W.WatchId, k: Key, e: Event) returns (run: seq<State>, steps: seq<Step>, s: State)
    ensures s == State(LoopWith(e), 0, [], Watching(id, k), [], [], map[id := Mark([], 0)])
    ensures Ends(run, steps, s)
  {
    run, steps, s := RunToWatching(id, k, e);
    LoadsOne(e);
    run, steps, s := LoopGoes(run, steps, s, A.Load(1), s.loop.(cached := [A.Loaded(1, [e])], loaded := 1));
    run, steps, s := LoopGoes(run, steps, s, A.Pop, LoopWith(e));
  }

  lemma OneEvent(e: Event)
    ensures Flat([A.Bundle([e])], 0) == [] && Flat([A.Bundle([e])], 1) == [e]
    ensures Places([e]) == [Place(0, e)] && Places([]) == [] && Replay([e], map[]) == ApplyEvent(map[], e)
  {
    assert [e][..0] == [];
    assert Flat([A.Bundle([e])], 1) == Flat([A.Bundle([e])], 0) + [e];
  }

  /** A write with a ttl is in the store, and a watch on its key has heard nothing. */
  lemma TtlWriteIsNotReported(id: W.WatchId, k: Key, entry: Entry)
    returns (run: seq<State>, steps: seq<Step>, s: State)
    requires entry.ttl != INFINITE_TTL
    ensures Ends(run, steps, s) && s.loop.working.None? && W.Named(s.watch.reg, id, k) == 1
    ensures Replay(s.loop.batch, s.loop.db) == map[k := Record(entry, NO_META)]
    ensures W.Handed(s.watch, id) == [] && W.EntriesOf(W.Wraps(s.watch.reg, k), id) == []
  {
    var e := Write(k, entry, NO_META, false);
    run, steps, s := RunToWork(id, k, e);
    run, steps, s := Go(run, steps, s, ApplyNext);
    OneEvent(e);
    run, steps, s := Go(run, steps, s, Done);
    FreshWatch(id, k);
    assert s.loop.batch == [e];
  }

  lemma FreshWatch(id: W.WatchId, k: Key)
    ensures W.Named(Watching(id, k).reg, id, k) == 1 && W.Handed(Watching(id, k), id) == []
    ensures W.Wraps(Watching(id, k).reg, k) == [W.Wrap(id, [])] && W.EntriesOf([W.Wrap(id, [])], id) == []
  {
    W.WrapsRegistered(W.EMPTY, id, [k], k);
    assert multiset([k])[k] == 1 && W.Fresh(id, 1) == W.Fresh(id, 0) + [W.Wrap(id, [])];
    assert [W.Wrap(id, [])][..0] == [];
  }

  function Heard(w: W.State, e: Event): W.State {
    W.Next(w, W.Notify(ChangeOf(e)))
  }

  /** A change of the only watched key comes behind what is pending. */
  lemma HeardOnce(w: W.State, id: W.WatchId, k: Key, e: Event, pending: seq<W.Change>)
    requires W.Wraps(w.reg, k) == [W.Wrap(id, pending)] && ChangeOf(e).key == k
    ensures W.Wraps(Heard(w, e).reg, k) == [W.Wrap(id, pending + [ChangeOf(e)])]
    ensures Heard(w, e).reg.byId == w.reg.byId && Heard(w, e).handed == w.handed
  {
    W.WrapsChanged(w.reg, ChangeOf(e), k);
    var ws := [W.Wrap(id, pending)];
    assert ws[..0] == [] && W.Notified([], ChangeOf(e)) == [];
  }

  /** The bundle is applied, then tried again and finished. */
  lemma RunTwice(id: W.WatchId, k: Key, e: Event) returns (run: seq<State>, steps: seq<Step>, s: State)
    requires Told(e)
    ensures Ends(run, steps, s) && s.loop.working.None? && s.loop.log == [A.Bundle([e])]
    ensures s.watch == Heard(Heard(Watching(id, k), e), e)
  {
    run, steps, s := RunToWork(id, k, e);
    run, steps, s := Go(run, steps, s, ApplyNext);
    run, steps, s := Go(run, steps, s, Retry);
    run, steps, s := Go(run, steps, s, ApplyNext);
    run, steps, s := Go(run, steps, s, Done);
  }

  /** A bundle that was tried twice is in the log once, and a watch on its key hears of it twice. */
  lemma RetriedWriteComesTwice(id: W.WatchId, k: Key, entry: Entry)
    returns (run: seq<State>, steps: seq<Step>, s: State)
    requires entry.ttl == INFINITE_TTL
    ensures Ends(run, steps, s) && s.loop.working.None? && W.Named(s.watch.reg, id, k) == 1
    ensures s.loop.log == [A.Bundle([Write(k, entry, NO_META, false)])] && W.Handed(s.watch, id) == []
    ensures var c := W.Change(k, entry.value, entry.version, entry.version, false);
      W.EntriesOf(W.Wraps(s.watch.reg, k), id) == [c, c]
  {
    var e := Write(k, entry, NO_META, false);
    var c := ChangeOf(e);
    run, steps, s := RunTwice(id, k, e);
    FreshWatch(id, k);
    HeardOnce(Watching(id, k), id, k, e, []);
    HeardOnce(Heard(Watching(id, k), e), id, k, e, [] + [c]);
    assert [] + [c] + [c] == [c, c];
    OneWrap(W.Wrap(id, [c, c]));
  }

  /** A delete reaches a watch as a deletion, with the version it deletes and its own as the record version. */
  lemma DeleteIsReported(id: W.WatchId, k: Key, version: nat, deletedVersion: nat)
    returns (run: seq<State>, steps: seq<Step>, s: State)
    ensures Ends(run, steps, s) && s.loop.working.None? && W.Named(s.watch.reg, id, k) == 1
    ensures s.loop.log == [A.Bundle([Delete(k, version, deletedVersion)])] && W.Handed(s.watch, id) == []
    ensures W.EntriesOf(W.Wraps(s.watch.reg, k), id) == [W.Change(k, "", deletedVersion, version, true)]
  {
    var e := Delete(k, version, deletedVersion);
    run, steps, s := RunToWork(id, k, e);
    run, steps, s := Go(run, steps, s, ApplyNext);
    run, steps, s := Go(run, steps, s, Done);
    FreshWatch(id, k);
    assert s.watch == Heard(Watching(id, k), e);
    HeardOnce(Watching(id, k), id, k, e, []);
    assert [] + [ChangeOf(e)] == [ChangeOf(e)];
    OneWrap(W.Wrap(id, [ChangeOf(e)]));
  }

  lemma OneWrap(w: W.Wrap)
    ensures W.EntriesOf([w], w.id) == w.entries
  {
    assert [w][..0] == [] && W.EntriesOf([], w.id) == [];
  }
}
