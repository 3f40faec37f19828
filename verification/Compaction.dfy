/** The compaction filter of the persistent store drops expired entries behind the back of everything above it.
    Two copies of a node run side by side, one compacting and one never compacting: no client can tell them apart. */
module Compaction {
  import opened Base
  import opened InMemoryStore

  // ----- the filter and the inheritance of a time to live

  /** What the filter decides about one record. */
  predicate Filter(r: Record, now: nat) {
    r.entry.ttl != INFINITE_TTL && r.entry.deadline <= now
  }

  /** A compaction visits some of the keys and drops the records that the filter accepts. */
  function Compacted(db: Store, visited: set<Key>, now: nat): Store {
    map k | k in db && !(k in visited && Filter(db[k], now)) :: db[k]
  }

  /** A put that enables a time to live without giving one takes over that of the record it replaces, unless there
      is none or it has run out. */
  function EffectiveTTL(found: MetaResult, enableTTL: bool, ttl: nat, now: nat): nat {
    if !enableTTL then INFINITE_TTL
    else if ttl != INFINITE_TTL then ttl
    else if found.MetaFound? && found.ttl != INFINITE_TTL && found.deadline > now then found.ttl
    else INFINITE_TTL
  }

  function PutEntry(found: MetaResult, value: Value, version: nat, enableTTL: bool, ttl: nat, now: nat): Entry {
    var t := EffectiveTTL(found, enableTTL, ttl, now);
    Entry(value, version, t, if t == INFINITE_TTL then 0 else t + now, now)
  }

  /** The put as it runs, on what it finds under the key. */
  method ExecutePut(found: MetaResult, value: Value, version: nat, enableTTL: bool, ttl: nat, now: nat)
    returns (e: Entry)
    ensures e == PutEntry(found, value, version, enableTTL, ttl, now)
  {
    var enable, t := enableTTL, if enableTTL then ttl else INFINITE_TTL;
    if enable && t == INFINITE_TTL {
      if found.MetaFound? {
        if found.ttl != INFINITE_TTL && found.deadline > now {
          t := found.ttl;
        } else {
          enable := false;
        }
      } else {
        enable := false;
      }
    }
    e := if enable then Entry(value, version, t, t + now, now) else Entry(value, version, INFINITE_TTL, 0, now);
  }

  // ----- one node

  /** `applied` events of the log have reached the persistent store. */
  datatype State = State(overlay: Overlay, db: Store, log: seq<Event>, applied: nat, now: nat)

  datatype Step =
    | Put(key: Key, value: Value, version: nat, enableTTL: bool, ttl: nat, meta: UserMeta)
    | Get(key: Key)
    | GetStale(key: Key)
    | Remove(key: Key, target: nat, version: nat)
    | Commit(upTo: nat)
    | Evict(keys: set<Key>, guard: nat)
    | TakeLeadership
    | Tick(seconds: nat)
    | Compact(visited: set<Key>)

  /** What a client gets to see. */
  datatype Seen = Nothing | Value(result: ReadResult, meta: MetaResult) | Stored(event: Event)

  function GetSeen(r: ReadResult, m: MetaResult): Seen {
    Seen.Value(r, if r.Found? then m else MetaNotFound)
  }

  /** A removal goes through when the key is found and its version is the wanted one, if one is wanted. */
  predicate Removes(r: ReadResult, target: nat) {
    r.Found? && (target == INVALID_VERSION || target == r.version)
  }

  function Logged(s: State, e: Event): State {
    s.(overlay := Applied(s.overlay, e), log := s.log + [e])
  }

  function PutEvent(s: State, st: Step): Event
    requires st.Put?
  {
    var found := ReadMeta(s.overlay, s.db, st.key);
    Write(st.key, PutEntry(found, st.value, st.version, st.enableTTL, st.ttl, s.now), st.meta, false)
  }

  function AfterGet(s: State, k: Key): State {
    s.(overlay := AfterRead(s.overlay, k, s.now))
  }

  function Observed(s: State, st: Step): Seen {
    match st
    case Put(_, _, _, _, _, _) => Stored(PutEvent(s, st))
    case Get(k) => GetSeen(Read(s.overlay, s.db, k, s.now), ReadMeta(s.overlay, s.db, k))
    case GetStale(k) => GetSeen(DbRead(s.db, k, s.now), DbReadMeta(s.db, k))
    case Remove(k, target, version) =>
      var r := Read(s.overlay, s.db, k, s.now);
      if Removes(r, target) then Stored(Delete(k, version, r.version)) else GetSeen(r, MetaNotFound)
    case _ => Nothing
  }

  function Next(s: State, st: Step): State {
    match st
    case Put(_, _, _, _, _, _) => Logged(s, PutEvent(s, st))
    case Get(k) => AfterGet(s, k)
    case GetStale(_) => s
    case Remove(k, target, version) =>
      var r := Read(s.overlay, s.db, k, s.now);
      if Removes(r, target) then Logged(AfterGet(s, k), Delete(k, version, r.version)) else AfterGet(s, k)
    case Commit(upTo) =>
      if s.applied <= upTo <= |s.log|
      then s.(db := Replay(s.log[s.applied..upTo], s.db), applied := upTo)
      else s
    case Evict(keys, guard) => s.(overlay := Evicted(s.overlay, s.db, keys, guard, s.now))
    case TakeLeadership => s.(overlay := EMPTY)
    case Tick(seconds) => s.(now := s.now + seconds)
    case Compact(visited) => s.(db := Compacted(s.db, visited, s.now))
  }

  /** The same step on a node that never compacts. */
  function NextPlain(s: State, st: Step): State {
    if st.Compact? then s else Next(s, st)
  }

  function Run(s: State, steps: seq<Step>): (State, seq<Seen>)
    decreases |steps|
  {
    if steps == [] then (s, [])
    else
      var (end, seen) := Run(Next(s, steps[0]), steps[1..]);
      (end, [Observed(s, steps[0])] + seen)
  }

  function RunPlain(s: State, steps: seq<Step>): (State, seq<Seen>)
    decreases |steps|
  {
    if steps == [] then (s, [])
    else
      var (end, seen) := RunPlain(NextPlain(s, steps[0]), steps[1..]);
      (end, [Observed(s, steps[0])] + seen)
  }

  // ----- the relation between the two

  /** Under a key, the compacted store has the same record, or none where the other has an expired one. */
  predicate Hidden(a: Store, b: Store, k: Key, now: nat) {
    Lookup(a, k) == Lookup(b, k) || (k !in a && k in b && Expired(b[k].entry, now))
  }

  ghost predicate Shadows(a: Store, b: Store, now: nat) {
    forall k :: Hidden(a, b, k, now)
  }

  ghost predicate Alike(a: State, b: State) {
    && a.overlay == b.overlay && a.log == b.log && a.applied == b.applied && a.now == b.now
    && Shadows(a.db, b.db, a.now)
  }

  lemma ReadsAlike(o: Overlay, a: Store, b: Store, k: Key, now: nat)
    requires Hidden(a, b, k, now)
    ensures Read(o, a, k, now) == Read(o, b, k, now) && DbRead(a, k, now) == DbRead(b, k, now)
    ensures DbRead(b, k, now).Found? ==> DbReadMeta(a, k) == DbReadMeta(b, k)
    ensures Read(o, b, k, now).Found? ==> ReadMeta(o, a, k) == ReadMeta(o, b, k)
  {
    assert k in a ==> Lookup(a, k) == Some(a[k]);
    assert k in b ==> Lookup(b, k) == Some(b[k]);
  }

  lemma PutsAlike(a: State, b: State, st: Step)
    requires st.Put? && Alike(a, b)
    ensures PutEvent(a, st) == PutEvent(b, st)
  {
    assert Hidden(a.db, b.db, st.key, a.now);
    assert st.key in a.db ==> Lookup(a.db, st.key) == Some(a.db[st.key]);
    assert st.key in b.db ==> Lookup(b.db, st.key) == Some(b.db[st.key]);
  }

  lemma EvictsAlike(o: Overlay, a: Store, b: Store, keys: set<Key>, guard: nat, now: nat)
    requires Shadows(a, b, now)
    ensures Evicted(o, a, keys, guard, now) == Evicted(o, b, keys, guard, now)
  {
    forall k
      ensures Evictable(o, a, k, guard, now) == Evictable(o, b, k, guard, now)
    {
      assert Hidden(a, b, k, now);
      ReadsAlike(o, a, b, k, now);
    }
    assert EvictableKeys(o, a, keys, guard, now) == EvictableKeys(o, b, keys, guard, now);
  }

  lemma {:induction false} ReplaysAlike(es: seq<Event>, a: Store, b: Store, now: nat)
    requires Shadows(a, b, now)
    ensures Shadows(Replay(es, a), Replay(es, b), now)
  {
    if es != [] {
      var front, last := es[..|es| - 1], es[|es| - 1];
      ReplaysAlike(front, a, b, now);
      forall k
        ensures Hidden(ApplyEvent(Replay(front, a), last), ApplyEvent(Replay(front, b), last), k, now)
      {
        assert Hidden(Replay(front, a), Replay(front, b), k, now);
      }
    }
  }

  lemma CompactsAlike(a: Store, b: Store, visited: set<Key>, now: nat)
    requires Shadows(a, b, now)
    ensures Shadows(Compacted(a, visited, now), b, now)
  {
    forall k
      ensures Hidden(Compacted(a, visited, now), b, k, now)
    {
      assert Hidden(a, b, k, now);
      assert k in a ==> Lookup(a, k) == Some(a[k]);
      assert k in b ==> Lookup(b, k) == Some(b[k]);
    }
  }

  lemma LaterAlike(a: Store, b: Store, now: nat, later: nat)
    requires Shadows(a, b, now) && now <= later
    ensures Shadows(a, b, later)
  {
    forall k
      ensures Hidden(a, b, k, later)
    {
      assert Hidden(a, b, k, now);
    }
  }

  /** Every step keeps the two nodes alike, and they answer the same. */
  lemma StepAlike(a: State, b: State, st: Step)
    requires Alike(a, b)
    ensures Observed(a, st) == Observed(b, st)
    ensures Alike(Next(a, st), NextPlain(b, st))
  {
    match st
    case Put(k, _, _, _, _, _) =>
      PutsAlike(a, b, st);
    case Get(k) =>
      assert Hidden(a.db, b.db, k, a.now);
      ReadsAlike(a.overlay, a.db, b.db, k, a.now);
    case GetStale(k) =>
      assert Hidden(a.db, b.db, k, a.now);
      ReadsAlike(a.overlay, a.db, b.db, k, a.now);
    case Remove(k, _, _) =>
      assert Hidden(a.db, b.db, k, a.now);
      ReadsAlike(a.overlay, a.db, b.db, k, a.now);
    case Commit(upTo) =>
      if a.applied <= upTo <= |a.log| {
        ReplaysAlike(a.log[a.applied..upTo], a.db, b.db, a.now);
      }
    case Evict(keys, guard) =>
      EvictsAlike(a.overlay, a.db, b.db, keys, guard, a.now);
    case TakeLeadership =>
    case Tick(seconds) =>
      LaterAlike(a.db, b.db, a.now, a.now + seconds);
    case Compact(visited) =>
      CompactsAlike(a.db, b.db, visited, a.now);
  }

  lemma {:induction false} RunAlike(a: State, b: State, steps: seq<Step>)
    requires Alike(a, b)
    ensures Run(a, steps).1 == RunPlain(b, steps).1
    ensures Alike(Run(a, steps).0, RunPlain(b, steps).0)
    decreases |steps|
  {
    if steps != [] {
      StepAlike(a, b, steps[0]);
      RunAlike(Next(a, steps[0]), NextPlain(b, steps[0]), steps[1..]);
    }
  }

  /** Whatever compactions a run has, at whatever moments: every read, every version that a removal finds, and the
      ttl and deadline of every put are those of the same run without compactions. */
  lemma CompactionIsInvisible(s: State, steps: seq<Step>)
    ensures Run(s, steps).1 == RunPlain(s, steps).1
    ensures Run(s, steps).0.log == RunPlain(s, steps).0.log
    ensures Run(s, steps).0.overlay == RunPlain(s, steps).0.overlay
  {
    assert Shadows(s.db, s.db, s.now);
    RunAlike(s, s, steps);
  }

  /** The meta of a record, read on its own, does show a compaction: exactly when the key is not cached and the
      filter accepts what is stored. */
  lemma MetaChangesIff(o: Overlay, db: Store, visited: set<Key>, now: nat, k: Key)
    ensures ReadMeta(o, Compacted(db, visited, now), k) != ReadMeta(o, db, k)
       <==> k !in o.data && k in visited && k in db && Expired(db[k].entry, now)
  {
  }

  /** What a put stores is the value and version given, alive, and its time to live is the request's own, or that of a
      record alive until now. */
  lemma PutIsAlive(found: MetaResult, value: Value, version: nat, enableTTL: bool, ttl: nat, now: nat)
    ensures var e := PutEntry(found, value, version, enableTTL, ttl, now);
      && !Expired(e, now) && e.value == value && e.version == version && e.updateTime == now
      && (enableTTL && ttl != INFINITE_TTL ==> e.ttl == ttl)
      && (enableTTL && ttl == INFINITE_TTL && e.ttl != INFINITE_TTL ==> found.MetaFound? && e.ttl == found.ttl)
      && (e.ttl != INFINITE_TTL <==>
            && enableTTL
            && (ttl != INFINITE_TTL || (found.MetaFound? && found.ttl != INFINITE_TTL && found.deadline > now)))
      && forall later | now <= later :: Expired(e, later) <==> e.ttl != INFINITE_TTL && later - now >= e.ttl
  {
  }

  // ----- what clients see of their own commands

  /** A read after a put shows it, with the meta given or the one kept before; also from the store below, once the put
      has reached it and a new leader has cleared the overlay. */
  lemma PutReadsBack(s: State, put: Step)
    requires put.Put? && s.applied <= |s.log|
    ensures var s1, e := Next(s, put), PutEvent(s, put).entry;
      var meta := if put.meta == NO_META && put.key in s.overlay.metas then s.overlay.metas[put.key] else put.meta;
      Observed(s1, Get(put.key)) ==
        Seen.Value(Found(put.value, put.version, e.ttl), MetaFound(put.version, e.ttl, e.deadline, s.now, meta))
    ensures var s1, e := Next(s, put), PutEvent(s, put).entry;
      var s2 := Next(Next(s1, Commit(|s1.log|)), TakeLeadership);
      Observed(s2, Get(put.key)) == Observed(s2, GetStale(put.key)) ==
        Seen.Value(Found(put.value, put.version, INFINITE_TTL),
                   MetaFound(put.version, e.ttl, e.deadline, s.now, put.meta))
  {
    PutIsAlive(ReadMeta(s.overlay, s.db, put.key), put.value, put.version, put.enableTTL, put.ttl, s.now);
    var s1, e := Next(s, put), PutEvent(s, put);
    assert s1.log[s.applied..] == s.log[s.applied..] + [e];
    assert s1.log[s.applied..|s1.log|] == s1.log[s.applied..];
    ReplayAppend(s.log[s.applied..], [e], s.db);
    assert [e][..0] == [];
    assert Replay([e], Replay(s.log[s.applied..], s.db)) == ApplyEvent(Replay(s.log[s.applied..], s.db), e);
  }

  /** A removal after a put goes through exactly when it names no version or that of the put, and then the key is
      gone. */
  lemma RemoveAfterPutIff(s: State, put: Step, target: nat, version: nat)
    requires put.Put?
    ensures var s1, remove := Next(s, put), Remove(put.key, target, version);
      var gone := Stored(Delete(put.key, version, put.version));
      && (Observed(s1, remove) == gone <==> target == INVALID_VERSION || target == put.version)
      && (Observed(s1, remove) == gone ==>
            Next(s1, remove).log == s1.log + [gone.event] && Observed(Next(s1, remove), Get(put.key)).result.NotFound?)
      && (Observed(s1, remove) != gone ==> Next(s1, remove) == s1)
  {
    PutIsAlive(ReadMeta(s.overlay, s.db, put.key), put.value, put.version, put.enableTTL, put.ttl, s.now);
  }

  /** An eviction drops a put exactly when its guard has reached the version. */
  lemma EvictAfterPutIff(s: State, put: Step, keys: set<Key>, guard: nat)
    requires put.Put? && put.key in keys
    ensures put.key in Next(Next(s, put), Evict(keys, guard)).overlay.data <==> put.version > guard
  {
    PutIsAlive(ReadMeta(s.overlay, s.db, put.key), put.value, put.version, put.enableTTL, put.ttl, s.now);
  }
}
