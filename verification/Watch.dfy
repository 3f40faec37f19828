/** The watch registry: from each key to the watches on it with the changes they have yet to deliver, and from
    each watch to its keys. */
module Watch {
  import opened Base

  type WatchId = string

  /** A write of a key, or its deletion. */
  datatype Change = Change(key: Key, value: Value, version: nat, recordVersion: nat, deleted: bool)

  /** One registration of a watch on a key. */
  datatype Wrap = Wrap(id: WatchId, entries: seq<Change>)

  datatype Registry = Registry(byKey: map<Key, seq<Wrap>>, byId: map<WatchId, seq<Key>>)

  const EMPTY := Registry(map[], map[])

  function Wraps(r: Registry, k: Key): seq<Wrap> {
    if k in r.byKey then r.byKey[k] else []
  }

  /** How often a watch names a key. */
  function Named(r: Registry, id: WatchId, k: Key): nat {
    if id in r.byId then multiset(r.byId[id])[k] else 0
  }

  // ----- one key's wraps

  function Notified(ws: seq<Wrap>, c: Change): seq<Wrap> {
    if ws == [] then []
    else Notified(ws[..|ws| - 1], c) + [Wrap(ws[|ws| - 1].id, ws[|ws| - 1].entries + [c])]
  }

  function Drained(ws: seq<Wrap>, id: WatchId): seq<Wrap> {
    if ws == [] then []
    else Drained(ws[..|ws| - 1], id) + [if ws[|ws| - 1].id == id then Wrap(id, []) else ws[|ws| - 1]]
  }

  function WithoutId(ws: seq<Wrap>, id: WatchId): seq<Wrap> {
    if ws == [] then []
    else WithoutId(ws[..|ws| - 1], id) + if ws[|ws| - 1].id == id then [] else [ws[|ws| - 1]]
  }

  function Fresh(id: WatchId, n: nat): seq<Wrap> {
    if n == 0 then [] else Fresh(id, n - 1) + [Wrap(id, [])]
  }

  /** What is pending for a watch. */
  function EntriesOf(ws: seq<Wrap>, id: WatchId): seq<Change> {
    if ws == [] then []
    else EntriesOf(ws[..|ws| - 1], id) + if ws[|ws| - 1].id == id then ws[|ws| - 1].entries else []
  }

  function WrapCount(ws: seq<Wrap>, id: WatchId): nat {
    if ws == [] then 0 else WrapCount(ws[..|ws| - 1], id) + if ws[|ws| - 1].id == id then 1 else 0
  }

  lemma {:induction false} NothingPending(ws: seq<Wrap>, id: WatchId)
    requires WrapCount(ws, id) == 0
    ensures EntriesOf(ws, id) == []
  {
    if ws != [] {
      NothingPending(ws[..|ws| - 1], id);
    }
  }

  lemma {:induction false} NoWrap(ws: seq<Wrap>, id: WatchId)
    requires WrapCount(ws, id) == 0
    ensures EntriesOf(ws, id) == [] && WithoutId(ws, id) == ws
  {
    NothingPending(ws, id);
    if ws != [] {
      NoWrap(ws[..|ws| - 1], id);
      assert ws == ws[..|ws| - 1] + [ws[|ws| - 1]];
    }
  }

  lemma {:induction false} CountNotified(ws: seq<Wrap>, c: Change, id: WatchId)
    ensures WrapCount(Notified(ws, c), id) == WrapCount(ws, id)
  {
    if ws != [] {
      CountNotified(ws[..|ws| - 1], c, id);
      assert Notified(ws, c)[..|Notified(ws, c)| - 1] == Notified(ws[..|ws| - 1], c);
    }
  }

  lemma {:induction false} OneNotified(ws: seq<Wrap>, c: Change, id: WatchId)
    requires WrapCount(ws, id) == 1
    ensures EntriesOf(Notified(ws, c), id) == EntriesOf(ws, id) + [c]
  {
    var front := ws[..|ws| - 1];
    assert Notified(ws, c)[..|Notified(ws, c)| - 1] == Notified(front, c);
    if ws[|ws| - 1].id == id {
      CountNotified(front, c, id);
      NoWrap(front, id);
      NoWrap(Notified(front, c), id);
    } else {
      OneNotified(front, c, id);
    }
  }

  /** How often a change occurs. */
  function Times(cs: seq<Change>, x: Change): nat {
    multiset(cs)[x]
  }

  lemma TimesAppend(a: seq<Change>, b: seq<Change>, x: Change)
    ensures Times(a + b, x) == Times(a, x) + Times(b, x)
  {
  }

  lemma {:induction false} TimesNotified(ws: seq<Wrap>, c: Change, id: WatchId, x: Change)
    ensures Times(EntriesOf(Notified(ws, c), id), x)
         == Times(EntriesOf(ws, id), x) + if x == c then WrapCount(ws, id) else 0
  {
    if ws != [] {
      var front, last := ws[..|ws| - 1], ws[|ws| - 1];
      TimesNotified(front, c, id, x);
      assert Notified(ws, c)[..|Notified(ws, c)| - 1] == Notified(front, c);
      if last.id == id {
        TimesAppend(EntriesOf(front, id), last.entries, x);
        TimesAppend(EntriesOf(Notified(front, c), id), last.entries + [c], x);
        TimesAppend(last.entries, [c], x);
      }
    }
  }

  lemma {:induction false} ListDrained(ws: seq<Wrap>, id: WatchId, other: WatchId)
    ensures WrapCount(Drained(ws, id), other) == WrapCount(ws, other)
    ensures EntriesOf(Drained(ws, id), other) == if other == id then [] else EntriesOf(ws, other)
  {
    if ws != [] {
      var front := ws[..|ws| - 1];
      ListDrained(front, id, other);
      assert Drained(ws, id)[..|Drained(ws, id)| - 1] == Drained(front, id);
    }
  }

  lemma {:induction false} ListWithout(ws: seq<Wrap>, id: WatchId, other: WatchId)
    ensures WrapCount(WithoutId(ws, id), other) == if other == id then 0 else WrapCount(ws, other)
    ensures other != id ==> EntriesOf(WithoutId(ws, id), other) == EntriesOf(ws, other)
  {
    if ws != [] {
      var front := ws[..|ws| - 1];
      ListWithout(front, id, other);
      if ws[|ws| - 1].id == id {
        assert WithoutId(ws, id) == WithoutId(front, id);
      } else {
        assert WithoutId(ws, id)[..|WithoutId(ws, id)| - 1] == WithoutId(front, id);
      }
    }
  }

  lemma {:induction false} ListExtended(ws: seq<Wrap>, id: WatchId, n: nat, other: WatchId)
    ensures WrapCount(ws + Fresh(id, n), other) == WrapCount(ws, other) + if other == id then n else 0
    ensures EntriesOf(ws + Fresh(id, n), other) == EntriesOf(ws, other)
  {
    if n == 0 {
      assert ws + Fresh(id, n) == ws;
    } else {
      ListExtended(ws, id, n - 1, other);
      var more := ws + Fresh(id, n);
      assert more[..|more| - 1] == ws + Fresh(id, n - 1);
    }
  }

  // ----- the whole registry

  function Registered(r: Registry, id: WatchId, keys: seq<Key>): Registry {
    Registry(
      map k | k in r.byKey.Keys + (set x | x in keys) :: Wraps(r, k) + Fresh(id, multiset(keys)[k]),
      r.byId[id := keys])
  }

  function Unregistered(r: Registry, id: WatchId): Registry {
    Registry(map k | k in r.byKey && WithoutId(r.byKey[k], id) != [] :: WithoutId(r.byKey[k], id), r.byId - {id})
  }

  function PurgedOnce(r: Registry, id: WatchId): Registry {
    r.(byKey := map k | k in r.byKey :: Drained(r.byKey[k], id))
  }

  /** What a purge hands out: the entries of the watch on one key after the other. */
  function Gathered(r: Registry, id: WatchId, keys: seq<Key>): seq<Change> {
    if keys == [] then []
    else
      var front, k := keys[..|keys| - 1], keys[|keys| - 1];
      Gathered(r, id, front) + if k in front then [] else EntriesOf(Wraps(r, k), id)
  }

  function Changed(r: Registry, c: Change): Registry {
    if c.key in r.byKey then r.(byKey := r.byKey[c.key := Notified(r.byKey[c.key], c)]) else r
  }

  /** The two indexes agree: a key holds one wrap for each time a watch names it, and holds no empty list. */
  ghost predicate Linked(r: Registry) {
    && (forall k :: k in r.byKey ==> r.byKey[k] != [])
    && (forall id, k :: Agree(r, id, k))
  }

  ghost predicate Agree(r: Registry, id: WatchId, k: Key) {
    WrapCount(Wraps(r, k), id) == Named(r, id, k)
  }

  // ----- runs, with what was notified and what was handed out

  /** `history` is every change ever notified, `start` how long it was when a watch was registered, `handed`
      what a watch has been handed so far. */
  datatype State =
    State(reg: Registry, history: seq<Change>, start: map<WatchId, nat>, handed: map<WatchId, seq<Change>>)

  datatype Step =
    | Register(id: WatchId, keys: seq<Key>)
    | Unregister(id: WatchId)
    | Purge(id: WatchId)
    | Notify(c: Change)

  predicate Enabled(s: State, st: Step) {
    match st
    case Register(id, _) => id !in s.reg.byId
    case Unregister(id) => id in s.reg.byId
    case Purge(id) => id in s.reg.byId
    case Notify(_) => true
  }

  function Handed(s: State, id: WatchId): seq<Change> {
    if id in s.handed then s.handed[id] else []
  }

  function Next(s: State, st: Step): State
    requires Enabled(s, st)
  {
    match st
    case Register(id, keys) =>
      s.(reg := Registered(s.reg, id, keys), start := s.start[id := |s.history|], handed := s.handed[id := []])
    case Unregister(id) => s.(reg := Unregistered(s.reg, id))
    case Purge(id) =>
      s.(reg := PurgedOnce(s.reg, id),
         handed := s.handed[id := Handed(s, id) + Gathered(s.reg, id, s.reg.byId[id])])
    case Notify(c) => s.(reg := Changed(s.reg, c), history := s.history + [c])
  }

  /** The changes of one key, in order. */
  function OfKey(cs: seq<Change>, k: Key): seq<Change> {
    if cs == [] then []
    else OfKey(cs[..|cs| - 1], k) + if cs[|cs| - 1].key == k then [cs[|cs| - 1]] else []
  }

  lemma {:induction false} OfKeyAppend(a: seq<Change>, b: seq<Change>, k: Key)
    ensures OfKey(a + b, k) == OfKey(a, k) + OfKey(b, k)
  {
    if b == [] {
      assert a + b == a;
    } else {
      assert (a + b)[..|a + b| - 1] == a + b[..|b| - 1];
      OfKeyAppend(a, b[..|b| - 1], k);
    }
  }

  ghost predicate AllOf(cs: seq<Change>, k: Key) {
    forall i :: 0 <= i < |cs| ==> cs[i].key == k
  }

  lemma {:induction false} OfKeyAll(cs: seq<Change>, k: Key, j: Key)
    requires AllOf(cs, k)
    ensures OfKey(cs, j) == if j == k then cs else []
  {
    if cs != [] {
      OfKeyAll(cs[..|cs| - 1], k, j);
    }
  }

  /** A watch on a key that it names `n` times. Handed out and still pending together are what was notified since
      the watch was registered: every change `n` times and, if `n` is one, in order. */
  ghost predicate Delivers(handed: seq<Change>, pending: seq<Change>, notified: seq<Change>, n: nat) {
    && (n == 1 ==> handed + pending == notified)
    && forall c :: Times(handed, c) + Times(pending, c) == n * Times(notified, c)
  }

  ghost predicate Exact(s: State, id: WatchId, k: Key) {
    && id in s.start && s.start[id] <= |s.history|
    && AllOf(EntriesOf(Wraps(s.reg, k), id), k)
    && Delivers(OfKey(Handed(s, id), k), EntriesOf(Wraps(s.reg, k), id), OfKey(s.history[s.start[id]..], k),
                Named(s.reg, id, k))
  }

  ghost predicate Inv(s: State) {
    Linked(s.reg) && forall id, k | Named(s.reg, id, k) > 0 :: Exact(s, id, k)
  }

  // ----- each step, seen on one key

  lemma WrapsRegistered(r: Registry, id: WatchId, keys: seq<Key>, k: Key)
    ensures Wraps(Registered(r, id, keys), k) == Wraps(r, k) + Fresh(id, multiset(keys)[k])
  {
    if k !in keys {
      assert Wraps(r, k) + Fresh(id, multiset(keys)[k]) == Wraps(r, k);
    }
  }

  lemma WrapsUnregistered(r: Registry, id: WatchId, k: Key)
    ensures Wraps(Unregistered(r, id), k) == WithoutId(Wraps(r, k), id)
  {
  }

  lemma WrapsPurged(r: Registry, id: WatchId, k: Key)
    ensures Wraps(PurgedOnce(r, id), k) == Drained(Wraps(r, k), id)
  {
  }

  lemma WrapsChanged(r: Registry, c: Change, k: Key)
    ensures Wraps(Changed(r, c), k) == if k == c.key then Notified(Wraps(r, k), c) else Wraps(r, k)
  {
  }

  /** Every operation keeps the two indexes in agreement. */
  lemma LinkedStep(s: State, st: Step)
    requires Linked(s.reg) && Enabled(s, st)
    ensures Linked(Next(s, st).reg)
  {
    var r := Next(s, st).reg;
    forall id, k
      ensures Agree(r, id, k)
    {
      LinkedAt(s, st, id, k);
    }
    forall k | k in r.byKey
      ensures r.byKey[k] != []
    {
      match st {
        case Register(id, keys) =>
          WrapsRegistered(s.reg, id, keys, k);
        case Unregister(id) =>
        case Purge(id) =>
        case Notify(c) =>
      }
    }
  }

  lemma LinkedAt(s: State, st: Step, id: WatchId, k: Key)
    requires Linked(s.reg) && Enabled(s, st)
    ensures Agree(Next(s, st).reg, id, k)
  {
    assert Agree(s.reg, id, k);
    match st
    case Register(w, keys) =>
      WrapsRegistered(s.reg, w, keys, k);
      ListExtended(Wraps(s.reg, k), w, multiset(keys)[k], id);
    case Unregister(w) =>
      WrapsUnregistered(s.reg, w, k);
      ListWithout(Wraps(s.reg, k), w, id);
    case Purge(w) =>
      WrapsPurged(s.reg, w, k);
      ListDrained(Wraps(s.reg, k), w, id);
    case Notify(c) =>
      WrapsChanged(s.reg, c, k);
      CountNotified(Wraps(s.reg, k), c, id);
  }

  lemma NothingPendingAtFirst(s: State, id: WatchId, keys: seq<Key>, k: Key)
    requires Linked(s.reg) && id !in s.reg.byId
    ensures EntriesOf(Wraps(Registered(s.reg, id, keys), k), id) == []
  {
    WrapsRegistered(s.reg, id, keys, k);
    ListExtended(Wraps(s.reg, k), id, multiset(keys)[k], id);
    assert Agree(s.reg, id, k);
    NoWrap(Wraps(s.reg, k), id);
  }

  lemma DeliversNothing(n: nat)
    ensures Delivers([], [], [], n)
  {
    assert forall c :: Times([], c) == 0;
    assert n * 0 == 0;
  }

  /** A watch that has just been registered. */
  lemma ExactFresh(s: State, id: WatchId, keys: seq<Key>, k: Key)
    requires Linked(s.reg) && id !in s.reg.byId
    ensures Exact(Next(s, Register(id, keys)), id, k)
  {
    NothingPendingAtFirst(s, id, keys, k);
    assert s.history[|s.history|..] == [];
    DeliversNothing(multiset(keys)[k]);
  }

  /** A step that does not touch what is pending for a watch, nor what it was handed. */
  lemma ExactFrame(s: State, st: Step, id: WatchId, k: Key)
    requires Enabled(s, st) && Exact(s, id, k)
    requires !st.Notify? ==> st.id != id
    requires st.Notify? ==> st.c.key != k
    ensures Exact(Next(s, st), id, k)
  {
    var s' := Next(s, st);
    match st {
      case Register(w, keys) =>
        WrapsRegistered(s.reg, w, keys, k);
        ListExtended(Wraps(s.reg, k), w, multiset(keys)[k], id);
      case Unregister(w) =>
        WrapsUnregistered(s.reg, w, k);
        ListWithout(Wraps(s.reg, k), w, id);
      case Purge(w) =>
        WrapsPurged(s.reg, w, k);
        ListDrained(Wraps(s.reg, k), w, id);
      case Notify(c) =>
        WrapsChanged(s.reg, c, k);
        OfKeySnoc(s, c, id, k);
    }
    assert EntriesOf(Wraps(s'.reg, k), id) == EntriesOf(Wraps(s.reg, k), id);
    assert Named(s'.reg, id, k) == Named(s.reg, id, k);
  }

  lemma OfKeySnoc(s: State, c: Change, id: WatchId, k: Key)
    requires id in s.start && s.start[id] <= |s.history|
    ensures OfKey((s.history + [c])[s.start[id]..], k)
         == OfKey(s.history[s.start[id]..], k) + if c.key == k then [c] else []
  {
    var tail := s.history[s.start[id]..];
    assert (s.history + [c])[s.start[id]..] == tail + [c];
    assert (tail + [c])[..|tail + [c]| - 1] == tail;
  }

  lemma {:induction false} AllOfNotified(ws: seq<Wrap>, c: Change, id: WatchId)
    requires AllOf(EntriesOf(ws, id), c.key)
    ensures AllOf(EntriesOf(Notified(ws, c), id), c.key)
  {
    if ws != [] {
      var front, last := ws[..|ws| - 1], ws[|ws| - 1];
      var before := EntriesOf(front, id);
      assert forall i :: 0 <= i < |before| ==> before[i] == EntriesOf(ws, id)[i];
      AllOfNotified(front, c, id);
      assert Notified(ws, c)[..|Notified(ws, c)| - 1] == Notified(front, c);
      if last.id == id {
        assert forall i :: 0 <= i < |last.entries| ==> last.entries[i] == EntriesOf(ws, id)[|before| + i];
      }
    }
  }

  lemma DeliversOneMoreTimes(handed: nat, pending: nat, notified: nat, n: nat, more: nat)
    requires handed + pending == n * notified && more <= 1
    ensures handed + (pending + more * n) == n * (notified + more)
  {
    assert n * (notified + more) == n * notified + n * more;
  }

  lemma DeliversOneMore(handed: seq<Change>, pending: seq<Change>, notified: seq<Change>, n: nat, c: Change,
                        pending': seq<Change>)
    requires Delivers(handed, pending, notified, n)
    requires n == 1 ==> pending' == pending + [c]
    requires forall x :: Times(pending', x) == Times(pending, x) + if x == c then n else 0
    ensures Delivers(handed, pending', notified + [c], n)
  {
    forall x
      ensures Times(handed, x) + Times(pending', x) == n * Times(notified + [c], x)
    {
      TimesAppend(notified, [c], x);
      var more := if x == c then 1 else 0;
      assert Times(notified + [c], x) == Times(notified, x) + more;
      DeliversOneMoreTimes(Times(handed, x), Times(pending, x), Times(notified, x), n, more);
    }
    if n == 1 {
      assert handed + (pending + [c]) == (handed + pending) + [c];
    }
  }

  lemma ExactNotify(s: State, c: Change, id: WatchId)
    requires Linked(s.reg) && Exact(s, id, c.key)
    ensures Exact(Next(s, Notify(c)), id, c.key)
  {
    var ws := Wraps(s.reg, c.key);
    var n := Named(s.reg, id, c.key);
    WrapsChanged(s.reg, c, c.key);
    OfKeySnoc(s, c, id, c.key);
    AllOfNotified(ws, c, id);
    assert Agree(s.reg, id, c.key);
    if n == 1 {
      OneNotified(ws, c, id);
    }
    forall x
      ensures Times(EntriesOf(Notified(ws, c), id), x) == Times(EntriesOf(ws, id), x) + if x == c then n else 0
    {
      TimesNotified(ws, c, id, x);
    }
    DeliversOneMore(OfKey(Handed(s, id), c.key), EntriesOf(ws, id), OfKey(s.history[s.start[id]..], c.key), n, c,
                    EntriesOf(Notified(ws, c), id));
  }

  /** Of one key, a purge hands out exactly what was pending for it. */
  lemma {:induction false} GatheredOf(r: Registry, id: WatchId, keys: seq<Key>, k: Key)
    requires forall j :: j in keys ==> AllOf(EntriesOf(Wraps(r, j), id), j)
    ensures OfKey(Gathered(r, id, keys), k) == if k in keys then EntriesOf(Wraps(r, k), id) else []
  {
    if keys != [] {
      var front, last := keys[..|keys| - 1], keys[|keys| - 1];
      assert forall j :: j in keys <==> j in front || j == last;
      GatheredOf(r, id, front, k);
      if last in front {
        assert Gathered(r, id, keys) == Gathered(r, id, front);
      } else {
        assert Gathered(r, id, keys) == Gathered(r, id, front) + EntriesOf(Wraps(r, last), id);
        OfKeyAppend(Gathered(r, id, front), EntriesOf(Wraps(r, last), id), k);
        OfKeyAll(EntriesOf(Wraps(r, last), id), last, k);
      }
    }
  }

  lemma DeliversHanded(handed: seq<Change>, pending: seq<Change>, notified: seq<Change>, n: nat)
    requires Delivers(handed, pending, notified, n)
    ensures Delivers(handed + pending, [], notified, n)
  {
    forall x
      ensures Times(handed + pending, x) + Times([], x) == n * Times(notified, x)
    {
      TimesAppend(handed, pending, x);
    }
    assert (handed + pending) + [] == handed + pending;
  }

  lemma ExactPurge(s: State, id: WatchId, k: Key)
    requires id in s.reg.byId && k in s.reg.byId[id]
    requires forall j :: j in s.reg.byId[id] ==> Exact(s, id, j)
    ensures Exact(Next(s, Purge(id)), id, k)
  {
    var keys := s.reg.byId[id];
    var given := Gathered(s.reg, id, keys);
    WrapsPurged(s.reg, id, k);
    ListDrained(Wraps(s.reg, k), id, id);
    GatheredOf(s.reg, id, keys, k);
    OfKeyAppend(Handed(s, id), given, k);
    assert Exact(s, id, k);
    DeliversHanded(OfKey(Handed(s, id), k), EntriesOf(Wraps(s.reg, k), id), OfKey(s.history[s.start[id]..], k),
                   Named(s.reg, id, k));
  }

  lemma ExactStep(s: State, st: Step, id: WatchId, k: Key)
    requires Inv(s) && Enabled(s, st) && Named(Next(s, st).reg, id, k) > 0
    ensures Exact(Next(s, st), id, k)
  {
    if st.Register? && st.id == id {
      ExactFresh(s, id, st.keys, k);
    } else {
      assert Named(s.reg, id, k) > 0;
      if st.Purge? && st.id == id {
        forall j | j in s.reg.byId[id]
          ensures Exact(s, id, j)
        {
          assert Named(s.reg, id, j) > 0;
        }
        ExactPurge(s, id, k);
      } else if st.Notify? && st.c.key == k {
        ExactNotify(s, st.c, id);
      } else {
        ExactFrame(s, st, id, k);
      }
    }
  }

  lemma StepKeepsInv(s: State, st: Step)
    requires Inv(s) && Enabled(s, st)
    ensures Inv(Next(s, st))
  {
    LinkedStep(s, st);
    forall id, k | Named(Next(s, st).reg, id, k) > 0
      ensures Exact(Next(s, st), id, k)
    {
      ExactStep(s, st, id, k);
    }
  }

  const INITIAL := State(EMPTY, [], map[], map[])

  ghost predicate IsRun(run: seq<State>, steps: seq<Step>) {
    && |run| == |steps| + 1 && run[0] == INITIAL
    && forall i | 0 <= i < |steps| :: Enabled(run[i], steps[i]) && run[i + 1] == Next(run[i], steps[i])
  }

  lemma {:induction false} RunInv(run: seq<State>, steps: seq<Step>, i: nat)
    requires IsRun(run, steps) && i < |run|
    ensures Inv(run[i])
  {
    if i > 0 {
      RunInv(run, steps, i - 1);
      assert Enabled(run[i - 1], steps[i - 1]) && run[i] == Next(run[i - 1], steps[i - 1]);
      StepKeepsInv(run[i - 1], steps[i - 1]);
    }
  }

  /** After any run, a watch that names a key once has been handed, or has pending, the changes of that key that the
      registry was told of since: each once and in order. One that names it `n` times gets each of them `n` times. */
  lemma WatchDelivers(run: seq<State>, steps: seq<Step>, i: nat, id: WatchId, k: Key)
    requires IsRun(run, steps) && i < |run| && Named(run[i].reg, id, k) > 0
    ensures var s := run[i];
      && id in s.start && s.start[id] <= |s.history|
      && Delivers(OfKey(Handed(s, id), k), EntriesOf(Wraps(s.reg, k), id), OfKey(s.history[s.start[id]..], k),
                  Named(s.reg, id, k))
  {
    RunInv(run, steps, i);
    assert Exact(run[i], id, k);
  }

  lemma SameProductIff(n: nat, t: nat)
    requires t > 0
    ensures n * t == t <==> n == 1
  {
    if n > 1 {
      assert n * t == (n - 1) * t + t && (n - 1) * t >= t;
    }
  }

  /** Deliveries repeat exactly for the keys that a watch names more than once. */
  lemma DeliversOnceIff(handed: seq<Change>, pending: seq<Change>, notified: seq<Change>, n: nat)
    requires Delivers(handed, pending, notified, n) && notified != [] && n > 0
    ensures handed + pending == notified <==> n == 1
  {
    var c := notified[0];
    TimesAppend(handed, pending, c);
    SameProductIff(n, Times(notified, c));
  }

  /** After any run, a watch that is not registered has left no trace in either index. */
  lemma UnregisteredLeavesNothing(run: seq<State>, steps: seq<Step>, i: nat, id: WatchId, k: Key)
    requires IsRun(run, steps) && i < |run|
    ensures WrapCount(Wraps(run[i].reg, k), id) > 0 <==> id in run[i].reg.byId && k in run[i].reg.byId[id]
    ensures k in run[i].reg.byKey ==> exists w :: w in run[i].reg.byId && k in run[i].reg.byId[w]
  {
    RunInv(run, steps, i);
    var r := run[i].reg;
    assert Agree(r, id, k);
    if k in r.byKey {
      var last := r.byKey[k][|r.byKey[k]| - 1];
      assert Agree(r, last.id, k);
      assert Named(r, last.id, k) > 0;
    }
  }

  // ----- the registry as it is updated in place

  method NotifyWraps(ws: seq<Wrap>, c: Change) returns (ws': seq<Wrap>)
    ensures ws' == Notified(ws, c)
  {
    ws' := [];
    for i := 0 to |ws|
      invariant ws' == Notified(ws[..i], c)
    {
      assert ws[..i + 1][..i] == ws[..i];
      ws' := ws' + [Wrap(ws[i].id, ws[i].entries + [c])];
    }
    assert ws[..|ws|] == ws;
  }

  method DrainWraps(ws: seq<Wrap>, id: WatchId) returns (ws': seq<Wrap>, out: seq<Change>)
    ensures ws' == Drained(ws, id) && out == EntriesOf(ws, id)
  {
    ws', out := [], [];
    for i := 0 to |ws|
      invariant ws' == Drained(ws[..i], id) && out == EntriesOf(ws[..i], id)
    {
      assert ws[..i + 1][..i] == ws[..i];
      if ws[i].id == id {
        ws', out := ws' + [Wrap(id, [])], out + ws[i].entries;
      } else {
        ws' := ws' + [ws[i]];
      }
    }
    assert ws[..|ws|] == ws;
  }

  lemma {:induction false} RemovedAt(ws: seq<Wrap>, i: nat)
    requires i < |ws|
    ensures WithoutId(ws[..i] + ws[i + 1..], ws[i].id) == WithoutId(ws, ws[i].id)
    ensures WrapCount(ws[..i] + ws[i + 1..], ws[i].id) == WrapCount(ws, ws[i].id) - 1
  {
    var n := |ws| - 1;
    var rest := ws[..i] + ws[i + 1..];
    if i == n {
      assert rest == ws[..n];
    } else {
      RemovedAt(ws[..n], i);
      assert rest[..|rest| - 1] == ws[..n][..i] + ws[..n][i + 1..] && rest[|rest| - 1] == ws[n];
    }
  }

  lemma {:induction false} CountedSomewhere(ws: seq<Wrap>, id: WatchId)
    requires forall i :: 0 <= i < |ws| ==> ws[i].id != id
    ensures WrapCount(ws, id) == 0
  {
    if ws != [] {
      CountedSomewhere(ws[..|ws| - 1], id);
    }
  }

  /** Erases the first wrap of the watch. */
  method EraseFirst(ws: seq<Wrap>, id: WatchId) returns (ws': seq<Wrap>)
    ensures WithoutId(ws', id) == WithoutId(ws, id)
    ensures WrapCount(ws', id) == if WrapCount(ws, id) == 0 then 0 else WrapCount(ws, id) - 1
  {
    for i := 0 to |ws|
      invariant forall j :: 0 <= j < i ==> ws[j].id != id
    {
      if ws[i].id == id {
        RemovedAt(ws, i);
        return ws[..i] + ws[i + 1..];
      }
    }
    CountedSomewhere(ws, id);
    ws' := ws;
  }

  lemma CountOneMore(keys: seq<Key>, i: nat, k: Key)
    requires i < |keys|
    ensures multiset(keys[..i + 1])[k] == multiset(keys[..i])[k] + if k == keys[i] then 1 else 0
    ensures multiset(keys[i..])[k] == multiset(keys[i + 1..])[k] + if k == keys[i] then 1 else 0
  {
    assert keys[..i + 1] == keys[..i] + [keys[i]];
    assert keys[i..] == [keys[i]] + keys[i + 1..];
  }

  lemma FreshOneMore(ws: seq<Wrap>, id: WatchId, n: nat)
    ensures ws + Fresh(id, n + 1) == ws + Fresh(id, n) + [Wrap(id, [])]
  {
    assert Fresh(id, n + 1) == Fresh(id, n) + [Wrap(id, [])];
  }

  lemma PushOneMoreAt(r: Registry, id: WatchId, some: seq<Key>, key: Key, k: Key)
    ensures Wraps(Registered(r, id, some + [key]), k)
         == if k == key then Wraps(Registered(r, id, some), k) + [Wrap(id, [])] else Wraps(Registered(r, id, some), k)
  {
    WrapsRegistered(r, id, some, k);
    WrapsRegistered(r, id, some + [key], k);
    assert multiset(some + [key])[k] == multiset(some)[k] + if k == key then 1 else 0;
    FreshOneMore(Wraps(r, k), id, multiset(some)[k]);
  }

  lemma PushOneMoreKeys(r: Registry, id: WatchId, some: seq<Key>, key: Key)
    ensures Registered(r, id, some + [key]).byKey.Keys == Registered(r, id, some).byKey.Keys + {key}
  {
  }

  lemma PushOneMore(r: Registry, id: WatchId, some: seq<Key>, key: Key)
    ensures Registered(r, id, some).byKey[key := Wraps(Registered(r, id, some), key) + [Wrap(id, [])]]
         == Registered(r, id, some + [key]).byKey
  {
    var was, now := Registered(r, id, some), Registered(r, id, some + [key]);
    PushOneMoreKeys(r, id, some, key);
    forall k | k in now.byKey
      ensures now.byKey[k] == was.byKey[key := Wraps(was, key) + [Wrap(id, [])]][k]
    {
      PushOneMoreAt(r, id, some, key, k);
      assert now.byKey[k] == Wraps(now, k);
    }
  }

  /** Midway through a registration, with the keys of `done` visited. */
  ghost predicate Pushing(r: Registry, now: Registry, id: WatchId, done: seq<Key>) {
    now == Registry(Registered(r, id, done).byKey, r.byId)
  }

  lemma PushStarts(r: Registry, id: WatchId)
    ensures Pushing(r, r, id, [])
  {
    forall k | k in r.byKey
      ensures Registered(r, id, []).byKey[k] == r.byKey[k]
    {
      assert Wraps(r, k) + Fresh(id, 0) == r.byKey[k];
    }
  }

  lemma PushKey(r: Registry, now: Registry, id: WatchId, keys: seq<Key>, i: nat)
    requires i < |keys| && Pushing(r, now, id, keys[..i])
    ensures Pushing(r, Registry(now.byKey[keys[i] := Wraps(now, keys[i]) + [Wrap(id, [])]], now.byId), id,
                    keys[..i + 1])
  {
    PushOneMore(r, id, keys[..i], keys[i]);
    assert keys[..i + 1] == keys[..i] + [keys[i]];
  }

  /** Midway through an unregistration, with the keys of `todo` still to visit. */
  ghost predicate Erasing(r: Registry, now: Registry, id: WatchId, todo: seq<Key>) {
    && (forall k :: k in now.byKey ==> now.byKey[k] != [])
    && forall k :: ErasingAt(r, now, id, todo, k)
  }

  ghost predicate ErasingAt(r: Registry, now: Registry, id: WatchId, todo: seq<Key>, k: Key) {
    WithoutId(Wraps(now, k), id) == WithoutId(Wraps(r, k), id) && WrapCount(Wraps(now, k), id) == multiset(todo)[k]
  }

  /** The list of a key is replaced, and the key removed when the list is empty. */
  function Replaced(byKey: map<Key, seq<Wrap>>, key: Key, vec: seq<Wrap>): map<Key, seq<Wrap>> {
    if vec == [] then byKey - {key} else byKey[key := vec]
  }

  lemma WrapsReplaced(now: Registry, key: Key, vec: seq<Wrap>, k: Key)
    ensures Wraps(now.(byKey := Replaced(now.byKey, key, vec)), k) == if k == key then vec else Wraps(now, k)
  {
  }

  lemma EraseOneMoreAt(r: Registry, now: Registry, id: WatchId, keys: seq<Key>, i: nat, vec: seq<Wrap>, k: Key)
    requires i < |keys| && ErasingAt(r, now, id, keys[i..], k)
    requires WithoutId(vec, id) == WithoutId(Wraps(now, keys[i]), id)
    requires WrapCount(vec, id) == WrapCount(Wraps(now, keys[i]), id) - 1
    ensures ErasingAt(r, now.(byKey := Replaced(now.byKey, keys[i], vec)), id, keys[i + 1..], k)
  {
    CountOneMore(keys, i, k);
    WrapsReplaced(now, keys[i], vec, k);
  }

  lemma EraseOneMore(r: Registry, now: Registry, id: WatchId, keys: seq<Key>, i: nat, vec: seq<Wrap>)
    requires i < |keys| && Erasing(r, now, id, keys[i..])
    requires WithoutId(vec, id) == WithoutId(Wraps(now, keys[i]), id)
    requires WrapCount(vec, id) == WrapCount(Wraps(now, keys[i]), id) - 1
    ensures Erasing(r, now.(byKey := Replaced(now.byKey, keys[i], vec)), id, keys[i + 1..])
  {
    var next, rest := now.(byKey := Replaced(now.byKey, keys[i], vec)), keys[i + 1..];
    forall k
      ensures ErasingAt(r, next, id, rest, k)
    {
      EraseOneMoreAt(r, now, id, keys, i, vec, k);
    }
  }

  lemma EraseNext(r: Registry, now: Registry, id: WatchId, keys: seq<Key>, i: nat)
    requires i < |keys| && Erasing(r, now, id, keys[i..])
    ensures keys[i] in now.byKey && WrapCount(Wraps(now, keys[i]), id) > 0
  {
    CountOneMore(keys, i, keys[i]);
    assert ErasingAt(r, now, id, keys[i..], keys[i]);
  }

  lemma ErasedAllAt(r: Registry, now: Registry, id: WatchId, k: Key)
    requires ErasingAt(r, now, id, [], k)
    ensures Wraps(now, k) == Wraps(Unregistered(r, id), k)
  {
    NoWrap(Wraps(now, k), id);
    WrapsUnregistered(r, id, k);
  }

  /** What is left when every wrap of the watch was erased one by one. */
  lemma ErasedAll(r: Registry, now: Registry, id: WatchId)
    requires Erasing(r, now, id, [])
    ensures now.byKey == Unregistered(r, id).byKey
  {
    var end := Unregistered(r, id);
    forall k
      ensures Wraps(now, k) == Wraps(end, k)
    {
      assert ErasingAt(r, now, id, [], k);
      ErasedAllAt(r, now, id, k);
    }
    assert forall k :: k in now.byKey <==> Wraps(now, k) != [];
    assert forall k :: k in end.byKey <==> Wraps(end, k) != [];
  }

  lemma EraseAllAhead(r: Registry, id: WatchId)
    requires Linked(r) && id in r.byId
    ensures Erasing(r, r, id, r.byId[id])
  {
    forall k
      ensures ErasingAt(r, r, id, r.byId[id], k)
    {
      assert Agree(r, id, k);
    }
  }

  /** Midway through a purge, with the keys of `done` visited. */
  function DrainedKeys(r: Registry, id: WatchId, done: seq<Key>): map<Key, seq<Wrap>> {
    map k | k in r.byKey :: if k in done then Drained(r.byKey[k], id) else r.byKey[k]
  }

  lemma {:induction false} DrainedTwice(ws: seq<Wrap>, id: WatchId)
    ensures Drained(Drained(ws, id), id) == Drained(ws, id) && EntriesOf(Drained(ws, id), id) == []
  {
    ListDrained(ws, id, id);
    if ws != [] {
      DrainedTwice(ws[..|ws| - 1], id);
      assert Drained(ws, id)[..|Drained(ws, id)| - 1] == Drained(ws[..|ws| - 1], id);
    }
  }

  lemma {:induction false} DrainedNone(ws: seq<Wrap>, id: WatchId)
    requires WrapCount(ws, id) == 0
    ensures Drained(ws, id) == ws
  {
    if ws != [] {
      DrainedNone(ws[..|ws| - 1], id);
    }
  }

  lemma NamedKeyIsKnown(r: Registry, id: WatchId, k: Key)
    requires Linked(r) && id in r.byId && k in r.byId[id]
    ensures k in r.byKey
  {
    assert Agree(r, id, k);
  }

  lemma DrainOneMore(r: Registry, id: WatchId, done: seq<Key>, key: Key)
    requires key in r.byKey
    ensures DrainedKeys(r, id, done)[key := Drained(DrainedKeys(r, id, done)[key], id)]
         == DrainedKeys(r, id, done + [key])
  {
    DrainedTwice(r.byKey[key], id);
  }

  lemma GatherOneMore(r: Registry, id: WatchId, done: seq<Key>, key: Key)
    requires key in r.byKey
    ensures Gathered(r, id, done) + EntriesOf(DrainedKeys(r, id, done)[key], id) == Gathered(r, id, done + [key])
  {
    assert (done + [key])[..|done|] == done;
    DrainedTwice(r.byKey[key], id);
  }

  ghost predicate Purging(r: Registry, now: Registry, id: WatchId, done: seq<Key>, out: seq<Change>) {
    now == Registry(DrainedKeys(r, id, done), r.byId) && out == Gathered(r, id, done)
  }

  lemma PurgeKey(r: Registry, now: Registry, id: WatchId, done: seq<Key>, out: seq<Change>, key: Key)
    requires key in r.byKey && Purging(r, now, id, done, out)
    ensures key in now.byKey
    ensures Purging(r, Registry(now.byKey[key := Drained(now.byKey[key], id)], now.byId), id, done + [key],
                    out + EntriesOf(now.byKey[key], id))
  {
    DrainOneMore(r, id, done, key);
    GatherOneMore(r, id, done, key);
  }

  lemma PurgeOneMore(r: Registry, now: Registry, id: WatchId, keys: seq<Key>, i: nat, out: seq<Change>)
    requires Linked(r) && id in r.byId && r.byId[id] == keys && i < |keys| && Purging(r, now, id, keys[..i], out)
    ensures keys[i] in now.byKey
    ensures Purging(r, Registry(now.byKey[keys[i] := Drained(now.byKey[keys[i]], id)], now.byId), id, keys[..i + 1],
                    out + EntriesOf(now.byKey[keys[i]], id))
  {
    NamedKeyIsKnown(r, id, keys[i]);
    assert keys[..i + 1] == keys[..i] + [keys[i]];
    PurgeKey(r, now, id, keys[..i], out, keys[i]);
  }

  lemma PurgeStarts(r: Registry, id: WatchId)
    ensures Purging(r, r, id, [], [])
  {
    assert DrainedKeys(r, id, []) == r.byKey;
  }

  lemma DrainedEverywhere(r: Registry, id: WatchId)
    requires Linked(r) && id in r.byId
    ensures DrainedKeys(r, id, r.byId[id]) == PurgedOnce(r, id).byKey
  {
    forall k | k in r.byKey && k !in r.byId[id]
      ensures Drained(r.byKey[k], id) == r.byKey[k]
    {
      assert Agree(r, id, k);
      DrainedNone(r.byKey[k], id);
    }
  }

  lemma PurgeEnds(r: Registry, now: Registry, id: WatchId, out: seq<Change>)
    requires Linked(r) && id in r.byId && Purging(r, now, id, r.byId[id], out)
    ensures now == PurgedOnce(r, id) && out == Gathered(r, id, r.byId[id])
  {
    DrainedEverywhere(r, id);
  }

  class WatchCenter {
    var byKey: map<Key, seq<Wrap>>
    var byId: map<WatchId, seq<Key>>

    function Contents(): Registry
      reads this
    {
      Registry(byKey, byId)
    }

    constructor ()
      ensures Contents() == EMPTY
    {
      byKey, byId := map[], map[];
    }

    /** `id` is a new random identifier. */
    method RegisterWatch(id: WatchId, keys: seq<Key>)
      requires id !in byId
      modifies this
      ensures Contents() == Registered(old(Contents()), id, keys)
    {
      ghost var before := Contents();
      PushStarts(before, id);
      assert keys[..0] == [];
      for i := 0 to |keys|
        invariant Pushing(before, Contents(), id, keys[..i])
      {
        ghost var now := Contents();
        PushKey(before, now, id, keys, i);
        var ws := if keys[i] in byKey then byKey[keys[i]] else [];
        byKey := byKey[keys[i] := ws + [Wrap(id, [])]];
        assert Contents() == Registry(now.byKey[keys[i] := Wraps(now, keys[i]) + [Wrap(id, [])]], now.byId);
      }
      assert keys[..|keys|] == keys;
      byId := byId[id := keys];
    }

    method UnRegisterWatch(id: WatchId) returns (ok: bool)
      requires Linked(Contents())
      modifies this
      ensures ok == (id in old(byId))
      ensures Contents() == if ok then Unregistered(old(Contents()), id) else old(Contents())
    {
      if id !in byId {
        return false;
      }
      ghost var before := Contents();
      var keys := byId[id];
      assert keys[0..] == keys;
      EraseAllAhead(before, id);
      for i := 0 to |keys|
        invariant byId == before.byId && Erasing(before, Contents(), id, keys[i..])
      {
        EraseNext(before, Contents(), id, keys, i);
        var vec := EraseFirst(byKey[keys[i]], id);
        EraseOneMore(before, Contents(), id, keys, i, vec);
        byKey := Replaced(byKey, keys[i], vec);
      }
      assert keys[|keys|..] == [];
      ErasedAll(before, Contents(), id);
      byId := byId - {id};
      ok := true;
    }

    method PurgeWatchValue(id: WatchId) returns (ok: bool, out: seq<Change>)
      requires Linked(Contents())
      modifies this
      ensures ok == (id in old(byId))
      ensures Contents() == if ok then PurgedOnce(old(Contents()), id) else old(Contents())
      ensures out == if ok then Gathered(old(Contents()), id, old(byId)[id]) else []
    {
      if id !in byId {
        return false, [];
      }
      out := [];
      ghost var before := Contents();
      var keys := byId[id];
      PurgeStarts(before, id);
      assert keys[..0] == [];
      for i := 0 to |keys|
        invariant Purging(before, Contents(), id, keys[..i], out)
      {
        ghost var now := Contents();
        PurgeOneMore(before, now, id, keys, i, out);
        var vec, more := DrainWraps(byKey[keys[i]], id);
        byKey, out := byKey[keys[i] := vec], out + more;
        assert Contents() == Registry(now.byKey[keys[i] := vec], now.byId);
      }
      assert keys[..|keys|] == keys;
      PurgeEnds(before, Contents(), id, out);
      ok := true;
    }

    method OnWriteValue(key: Key, value: Value, version: nat)
      modifies this
      ensures Contents() == Changed(old(Contents()), Change(key, value, version, version, false))
    {
      if key !in byKey {
        return;
      }
      var vec := NotifyWraps(byKey[key], Change(key, value, version, version, false));
      byKey := byKey[key := vec];
    }

    method OnDeleteKey(key: Key, version: nat, deleteRecordVersion: nat)
      modifies this
      ensures Contents() == Changed(old(Contents()), Change(key, "", version, deleteRecordVersion, true))
    {
      if key !in byKey {
        return;
      }
      var vec := NotifyWraps(byKey[key], Change(key, "", version, deleteRecordVersion, true));
      byKey := byKey[key := vec];
    }
  }
}
