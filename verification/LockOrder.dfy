/** Locking of working sets and segments: the plan of locks a command takes for its keys, and any
    number of commands taking, using and releasing their locks concurrently. */
module LockOrder {
  import opened Base

  /** A segment of a working set: the set's name and the segment index. */
  type Lock = (string, nat)

  const CONCUR_LEVEL: nat := 4096
  /** Two to the power 52: the segment is taken from the top twelve bits of a 64-bit hash. */
  const SEGMENT_SHIFT: nat := 0x10_0000_0000_0000

  /** How keys are spread: the working set and the hash of each key. */
  datatype Layout = Layout(workingSet: Key -> string, hash: Key -> nat)

  function SegmentOf(lay: Layout, k: Key): (i: nat)
    ensures i < CONCUR_LEVEL
    ensures lay.hash(k) < CONCUR_LEVEL * SEGMENT_SHIFT ==>
      i * SEGMENT_SHIFT <= lay.hash(k) < (i + 1) * SEGMENT_SHIFT
  {
    (lay.hash(k) / SEGMENT_SHIFT) % CONCUR_LEVEL
  }

  function LockOf(lay: Layout, k: Key): Lock {
    (lay.workingSet(k), SegmentOf(lay, k))
  }

  // ----- the order of locks

  predicate NameLess(a: string, b: string) {
    if b == [] then false
    else if a == [] then true
    else a[0] < b[0] || (a[0] == b[0] && NameLess(a[1..], b[1..]))
  }

  predicate Before(x: Lock, y: Lock) {
    NameLess(x.0, y.0) || (x.0 == y.0 && x.1 < y.1)
  }

  lemma {:induction false} NameTotal(a: string, b: string)
    ensures NameLess(a, b) || NameLess(b, a) || a == b
    ensures !(NameLess(a, b) && NameLess(b, a))
  {
    if a != [] && b != [] && a[0] == b[0] {
      NameTotal(a[1..], b[1..]);
      assert a == [a[0]] + a[1..] && b == [b[0]] + b[1..];
    }
  }

  /** The names part at some character, or the one ends where the other goes on. */
  ghost predicate PartsAt(a: string, b: string, n: nat) {
    n <= |a| && n < |b| && a[..n] == b[..n] && (n == |a| || a[n] < b[n])
  }

  lemma {:induction false} LessParts(a: string, b: string) returns (n: nat)
    requires NameLess(a, b)
    ensures PartsAt(a, b, n)
  {
    n := 0;
    if a != [] && a[0] == b[0] {
      var m := LessParts(a[1..], b[1..]);
      assert a[..m + 1] == [a[0]] + a[1..][..m] && b[..m + 1] == [b[0]] + b[1..][..m];
      n := m + 1;
    }
  }

  lemma {:induction false} PartsLess(a: string, b: string, n: nat)
    requires PartsAt(a, b, n)
    ensures NameLess(a, b)
  {
    if n > 0 {
      assert a[..n][0] == b[..n][0];
      assert a[1..][..n - 1] == a[..n][1..] && b[1..][..n - 1] == b[..n][1..];
      PartsLess(a[1..], b[1..], n - 1);
    }
  }

  /** The order of names is that of a dictionary. */
  lemma NameLessIff(a: string, b: string)
    ensures NameLess(a, b) <==> exists n :: PartsAt(a, b, n)
  {
    if NameLess(a, b) {
      var n := LessParts(a, b);
    }
    if n: nat :| PartsAt(a, b, n) {
      PartsLess(a, b, n);
    }
  }

  lemma {:induction false} NameTransitive(a: string, b: string, c: string)
    requires NameLess(a, b) && NameLess(b, c)
    ensures NameLess(a, c)
  {
    if a != [] && a[0] == b[0] == c[0] {
      NameTransitive(a[1..], b[1..], c[1..]);
    }
  }

  lemma BeforeTotal(x: Lock, y: Lock)
    ensures Before(x, y) || Before(y, x) || x == y
    ensures !(Before(x, y) && Before(y, x))
  {
    NameTotal(x.0, y.0);
    NameTotal(x.0, x.0);
  }

  lemma BeforeTransitive(x: Lock, y: Lock, z: Lock)
    requires Before(x, y) && Before(y, z)
    ensures Before(x, z)
  {
    if NameLess(x.0, y.0) && NameLess(y.0, z.0) {
      NameTransitive(x.0, y.0, z.0);
    }
  }

  ghost predicate Ordered(plan: seq<Lock>) {
    forall i, j :: 0 <= i < j < |plan| ==> Before(plan[i], plan[j])
  }

  // ----- the plan of a command

  ghost predicate Needed(l: Lock, lay: Layout, keys: set<Key>) {
    exists k :: k in keys && LockOf(lay, k) == l
  }

  ghost predicate Covers(plan: seq<Lock>, lay: Layout, keys: set<Key>) {
    && (forall k :: k in keys ==> LockOf(lay, k) in plan)
    && (forall i :: 0 <= i < |plan| ==> Needed(plan[i], lay, keys))
  }

  /** One of the keys lives in the segment. */
  ghost predicate Marked(lay: Layout, keys: set<Key>, segment: nat) {
    exists k :: k in keys && SegmentOf(lay, k) == segment
  }

  lemma MarkedIsNeeded(lay: Layout, keys: set<Key>, name: string, segment: nat)
    requires (forall k :: k in keys ==> lay.workingSet(k) == name) && Marked(lay, keys, segment)
    ensures Needed((name, segment), lay, keys)
  {
    var k :| k in keys && SegmentOf(lay, k) == segment;
    assert LockOf(lay, k) == (name, segment);
  }

  /** The locks of one working set: mark the segments of the keys, then go through them in order. */
  method SegmentPlan(lay: Layout, keys: set<Key>, name: string) returns (plan: seq<Lock>)
    requires forall k :: k in keys ==> lay.workingSet(k) == name
    ensures Ordered(plan) && Covers(plan, lay, keys)
    ensures forall i :: 0 <= i < |plan| ==> plan[i].0 == name
  {
    var flags := new bool[CONCUR_LEVEL](_ => false);
    var todo := keys;
    while todo != {}
      invariant todo <= keys
      invariant forall k :: k in keys - todo ==> flags[SegmentOf(lay, k)]
      invariant forall i :: 0 <= i < CONCUR_LEVEL && flags[i] ==> Marked(lay, keys, i)
      decreases |todo|
    {
      var key :| key in todo;
      flags[SegmentOf(lay, key)] := true;
      todo := todo - {key};
    }
    plan := [];
    for i := 0 to CONCUR_LEVEL
      invariant forall j :: 0 <= j < |plan| ==> plan[j].0 == name && plan[j].1 < i && flags[plan[j].1]
      invariant forall j :: 0 <= j < i && flags[j] ==> (name, j) in plan
      invariant Ordered(plan)
    {
      if flags[i] {
        plan := plan + [(name, i)];
      }
    }
    forall i | 0 <= i < |plan|
      ensures Needed(plan[i], lay, keys)
    {
      MarkedIsNeeded(lay, keys, name, plan[i].1);
    }
  }

  lemma {:induction false} LeastName(names: set<string>) returns (least: string)
    requires names != {}
    ensures least in names && forall m :: m in names ==> m == least || NameLess(least, m)
  {
    var n :| n in names;
    if names == {n} {
      least := n;
    } else {
      var rest := LeastName(names - {n});
      NameTotal(n, rest);
      if NameLess(rest, n) {
        least := rest;
      } else {
        least := n;
        forall m | m in names
          ensures m == n || NameLess(n, m)
        {
          if m != n && m != rest {
            NameTransitive(n, rest, m);
          }
        }
      }
    }
  }

  function KeysOf(lay: Layout, keys: set<Key>, name: string): set<Key> {
    set k | k in keys && lay.workingSet(k) == name
  }

  /** The locks of a command: group its keys by working set, and go through the sets in name order. */
  method LockPlan(lay: Layout, keys: set<Key>) returns (plan: seq<Lock>)
    ensures Ordered(plan) && Covers(plan, lay, keys)
  {
    var names := set k | k in keys :: lay.workingSet(k);
    plan := [];
    var rest := names;
    while rest != {}
      invariant rest <= names
      invariant Ordered(plan)
      invariant forall k :: k in keys && lay.workingSet(k) !in rest ==> LockOf(lay, k) in plan
      invariant forall i :: 0 <= i < |plan| ==> Needed(plan[i], lay, keys)
      invariant forall i, m :: 0 <= i < |plan| && m in rest ==> NameLess(plan[i].0, m)
      decreases |rest|
    {
      ghost var _ := LeastName(rest);
      var name :| name in rest && forall m :: m in rest ==> m == name || NameLess(name, m);
      var part := SegmentPlan(lay, KeysOf(lay, keys, name), name);
      forall i, j | 0 <= i < j < |plan + part|
        ensures Before((plan + part)[i], (plan + part)[j])
      {
      }
      forall m | m in rest - {name}
        ensures NameLess(name, m)
      {
        NameTotal(name, m);
      }
      forall i | 0 <= i < |plan + part|
        ensures Needed((plan + part)[i], lay, keys)
      {
        if i >= |plan| {
          assert Needed(part[i - |plan|], lay, KeysOf(lay, keys, name));
        }
      }
      plan, rest := plan + part, rest - {name};
    }
  }

  // ----- commands taking, using and releasing their locks

  /** A command: its keys and mode, its lock plan, how many locks it has taken and released so far, and
      whether it has run. */
  datatype Worker = Worker(keys: set<Key>, exclusive: bool, plan: seq<Lock>, taken: nat, ran: bool, released: nat)

  datatype Step =
    | Arrive(keys: set<Key>, exclusive: bool, plan: seq<Lock>)
    | Take(w: nat)
    | Run(w: nat)
    | Release(w: nat)

  predicate Finished(w: Worker) {
    w.ran && w.released == |w.plan|
  }

  /** Between prepare and finish. */
  predicate Critical(w: Worker) {
    w.taken == |w.plan| && w.released == 0
  }

  predicate Holds(w: Worker, l: Lock) {
    w.released <= w.taken <= |w.plan| && l in w.plan[w.released..w.taken]
  }

  predicate Free(s: seq<Worker>, w: nat, l: Lock)
    requires w < |s|
  {
    forall v :: 0 <= v < |s| && v != w && Holds(s[v], l) ==> !s[v].exclusive && !s[w].exclusive
  }

  ghost predicate Enabled(lay: Layout, s: seq<Worker>, st: Step) {
    match st
    case Arrive(keys, _, plan) => Ordered(plan) && Covers(plan, lay, keys)
    case Take(w) => w < |s| && s[w].taken < |s[w].plan| && Free(s, w, s[w].plan[s[w].taken])
    case Run(w) => w < |s| && s[w].taken == |s[w].plan| && !s[w].ran
    case Release(w) => w < |s| && s[w].ran && s[w].released < |s[w].plan|
  }

  function Next(s: seq<Worker>, st: Step): seq<Worker>
    requires !st.Arrive? ==> st.w < |s|
  {
    match st
    case Arrive(keys, exclusive, plan) => s + [Worker(keys, exclusive, plan, 0, false, 0)]
    case Take(w) => s[w := s[w].(taken := s[w].taken + 1)]
    case Run(w) => s[w := s[w].(ran := true)]
    case Release(w) => s[w := s[w].(released := s[w].released + 1)]
  }

  ghost predicate WorkerOk(lay: Layout, w: Worker) {
    && Ordered(w.plan) && Covers(w.plan, lay, w.keys)
    && w.released <= w.taken <= |w.plan|
    && (w.ran ==> w.taken == |w.plan|)
    && (!w.ran ==> w.released == 0)
  }

  ghost predicate Inv(lay: Layout, s: seq<Worker>) {
    && (forall w :: 0 <= w < |s| ==> WorkerOk(lay, s[w]))
    && (forall v, w, l | 0 <= v < |s| && 0 <= w < |s| && v != w && Holds(s[v], l) && Holds(s[w], l) ::
          !s[v].exclusive && !s[w].exclusive)
  }

  lemma HoldsIff(w: Worker, l: Lock)
    requires w.released <= w.taken <= |w.plan|
    ensures Holds(w, l) <==> exists at :: w.released <= at < w.taken && w.plan[at] == l
  {
    var held := w.plan[w.released..w.taken];
    if Holds(w, l) {
      var i :| 0 <= i < |held| && held[i] == l;
      assert w.plan[w.released + i] == l;
    }
    if at :| w.released <= at < w.taken && w.plan[at] == l {
      assert held[at - w.released] == l;
    }
  }

  lemma HeldAfter(s: seq<Worker>, st: Step, v: nat, l: Lock)
    requires !st.Arrive? ==> st.w < |s| && s[st.w].taken <= |s[st.w].plan|
    requires v < |Next(s, st)| && Holds(Next(s, st)[v], l)
    ensures v < |s|
    ensures Holds(s[v], l) || (st.Take? && st.w == v && s[v].taken < |s[v].plan| && l == s[v].plan[s[v].taken])
  {
    var w' := Next(s, st)[v];
    HoldsIff(w', l);
    var at :| w'.released <= at < w'.taken && w'.plan[at] == l;
    assert v < |s|;
    if at < s[v].taken {
      HoldsIff(s[v], l);
      assert s[v].plan[at] == l;
    }
  }

  lemma StepKeepsInv(lay: Layout, s: seq<Worker>, st: Step)
    requires Inv(lay, s) && Enabled(lay, s, st)
    ensures Inv(lay, Next(s, st))
  {
    var s' := Next(s, st);
    forall w | 0 <= w < |s'|
      ensures WorkerOk(lay, s'[w])
    {
      if w < |s| {
        assert WorkerOk(lay, s[w]);
      }
    }
    forall v, w, l | 0 <= v < |s'| && 0 <= w < |s'| && v != w && Holds(s'[v], l) && Holds(s'[w], l)
      ensures !s'[v].exclusive && !s'[w].exclusive
    {
      HeldAfter(s, st, v, l);
      HeldAfter(s, st, w, l);
    }
  }

  // ----- main results

  /** Two commands that conflict on a key are never both between prepare and finish. */
  lemma ConflictingCommandsExclude(lay: Layout, s: seq<Worker>, v: nat, w: nat, k: Key)
    requires Inv(lay, s) && v < |s| && w < |s| && v != w
    requires k in s[v].keys && k in s[w].keys && (s[v].exclusive || s[w].exclusive)
    ensures !(Critical(s[v]) && Critical(s[w]))
  {
    var l := LockOf(lay, k);
    assert WorkerOk(lay, s[v]) && WorkerOk(lay, s[w]);
    assert s[v].plan[0..|s[v].plan|] == s[v].plan && s[w].plan[0..|s[w].plan|] == s[w].plan;
    assert Critical(s[v]) ==> Holds(s[v], l);
    assert Critical(s[w]) ==> Holds(s[w], l);
  }

  predicate Waiting(w: Worker) {
    w.taken < |w.plan|
  }

  /** Among the first n commands, one that waits for the last lock any of them waits for. */
  lemma {:induction false} FurthestWaiting(s: seq<Worker>, n: nat) returns (w: nat)
    requires n <= |s| && exists v :: 0 <= v < n && Waiting(s[v])
    ensures w < n && Waiting(s[w])
    ensures forall v :: 0 <= v < n && Waiting(s[v]) ==>
      s[v].plan[s[v].taken] == s[w].plan[s[w].taken] || Before(s[v].plan[s[v].taken], s[w].plan[s[w].taken])
  {
    var last := n - 1;
    if !(exists v :: 0 <= v < last && Waiting(s[v])) {
      w := last;
    } else {
      var u := FurthestWaiting(s, last);
      if !Waiting(s[last]) {
        w := u;
      } else {
        var a, b := s[u].plan[s[u].taken], s[last].plan[s[last].taken];
        BeforeTotal(a, b);
        if Before(a, b) {
          w := last;
          forall v | 0 <= v < last && Waiting(s[v])
            ensures Before(s[v].plan[s[v].taken], b)
          {
            if s[v].plan[s[v].taken] != a {
              BeforeTransitive(s[v].plan[s[v].taken], a, b);
            }
          }
        } else {
          w := u;
        }
      }
    }
  }

  /** A waiting command holds no lock at or after the one it waits for. */
  lemma HoldsOnlyEarlier(lay: Layout, v: Worker, l: Lock)
    requires WorkerOk(lay, v) && Waiting(v) && !Before(l, v.plan[v.taken])
    ensures !Holds(v, l)
  {
    var held := v.plan[v.released..v.taken];
    forall i | 0 <= i < |held|
      ensures held[i] != l
    {
      assert Before(v.plan[v.released + i], v.plan[v.taken]);
    }
  }

  /** No reachable state is deadlocked: while some command is unfinished, some command can go on. */
  lemma NoDeadlock(lay: Layout, s: seq<Worker>) returns (st: Step)
    requires Inv(lay, s) && exists w :: 0 <= w < |s| && !Finished(s[w])
    ensures !st.Arrive? && Enabled(lay, s, st)
  {
    if w :| 0 <= w < |s| && !Waiting(s[w]) && !Finished(s[w]) {
      assert WorkerOk(lay, s[w]);
      st := if s[w].ran then Release(w) else Run(w);
    } else {
      var u :| 0 <= u < |s| && !Finished(s[u]);
      assert Waiting(s[u]);
      var w := FurthestWaiting(s, |s|);
      var l := s[w].plan[s[w].taken];
      forall v | 0 <= v < |s| && v != w
        ensures !Holds(s[v], l)
      {
        assert WorkerOk(lay, s[v]);
        if Waiting(s[v]) {
          BeforeTotal(l, s[v].plan[s[v].taken]);
          HoldsOnlyEarlier(lay, s[v], l);
        }
      }
      st := Take(w);
    }
  }

  function Remaining(w: Worker): int {
    (|w.plan| - w.taken) + (if w.ran then 0 else 1) + (|w.plan| - w.released)
  }

  function TotalRemaining(s: seq<Worker>): int {
    if s == [] then 0 else TotalRemaining(s[..|s| - 1]) + Remaining(s[|s| - 1])
  }

  lemma {:induction false} TotalAfter(s: seq<Worker>, i: nat, w: Worker)
    requires i < |s|
    ensures TotalRemaining(s[i := w]) == TotalRemaining(s) - Remaining(s[i]) + Remaining(w)
  {
    var front := s[..|s| - 1];
    if i == |s| - 1 {
      assert s[i := w][..|s| - 1] == front;
    } else {
      assert s[i := w][..|s| - 1] == front[i := w];
      TotalAfter(front, i, w);
    }
  }

  /** Every step of a command that has arrived uses up one unit of the work that is left, so a run without
      arrivals is no longer than that work, and by NoDeadlock it can only stop when all have finished. */
  lemma {:induction false} RunsAreBounded(lay: Layout, run: seq<seq<Worker>>, steps: seq<Step>)
    requires |run| == |steps| + 1 && Inv(lay, run[0])
    requires forall i :: 0 <= i < |steps| ==>
      !steps[i].Arrive? && Enabled(lay, run[i], steps[i]) && run[i + 1] == Next(run[i], steps[i])
    ensures Inv(lay, run[|steps|])
    ensures |steps| == TotalRemaining(run[0]) - TotalRemaining(run[|steps|])
  {
    if steps != [] {
      var n := |steps| - 1;
      RunsAreBounded(lay, run[..n + 1], steps[..n]);
      var s, st := run[n], steps[n];
      StepKeepsInv(lay, s, st);
      TotalAfter(s, st.w, Next(s, st)[st.w]);
      assert run[n + 1] == s[st.w := Next(s, st)[st.w]];
    }
  }

  ghost predicate IsRun(lay: Layout, run: seq<seq<Worker>>, steps: seq<Step>) {
    && |run| == |steps| + 1 && run[0] == []
    && forall i :: 0 <= i < |steps| ==> Enabled(lay, run[i], steps[i]) && run[i + 1] == Next(run[i], steps[i])
  }

  lemma {:induction false} RunInv(lay: Layout, run: seq<seq<Worker>>, steps: seq<Step>, i: nat)
    requires IsRun(lay, run, steps) && i < |run|
    ensures Inv(lay, run[i])
  {
    if i > 0 {
      RunInv(lay, run, steps, i - 1);
      StepKeepsInv(lay, run[i - 1], steps[i - 1]);
    }
  }

  /** In every state that any arrivals and interleavings lead to, conflicting commands exclude each other, and while
      a command is unfinished some command that has arrived can go on. */
  lemma ReachableIsSafe(lay: Layout, run: seq<seq<Worker>>, steps: seq<Step>, i: nat)
    requires IsRun(lay, run, steps) && i < |run|
    ensures var s := run[i];
      && (forall v, w, k | 0 <= v < |s| && 0 <= w < |s| && v != w && k in s[v].keys && k in s[w].keys ::
            s[v].exclusive || s[w].exclusive ==> !(Critical(s[v]) && Critical(s[w])))
      && ((exists w :: 0 <= w < |s| && !Finished(s[w])) ==> exists st: Step :: !st.Arrive? && Enabled(lay, s, st))
  {
    RunInv(lay, run, steps, i);
    var s := run[i];
    forall v, w, k | 0 <= v < |s| && 0 <= w < |s| && v != w && k in s[v].keys && k in s[w].keys
      ensures s[v].exclusive || s[w].exclusive ==> !(Critical(s[v]) && Critical(s[w]))
    {
      if s[v].exclusive || s[w].exclusive {
        ConflictingCommandsExclude(lay, s, v, w, k);
      }
    }
    if exists w :: 0 <= w < |s| && !Finished(s[w]) {
      var st := NoDeadlock(lay, s);
    }
  }

  /** Commands that only read never wait for each other. */
  lemma SharedNeverWait(lay: Layout, s: seq<Worker>, w: nat)
    requires w < |s| && s[w].taken < |s[w].plan| && !s[w].exclusive
    requires forall v :: 0 <= v < |s| && v != w && Holds(s[v], s[w].plan[s[w].taken]) ==> !s[v].exclusive
    ensures Enabled(lay, s, Take(w))
  {
  }
}
