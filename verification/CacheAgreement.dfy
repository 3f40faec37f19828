/** The leader's cache against the log it speeds up: commands that put a bundle of events into the log and later into
    the overlay, reads that drop expired entries, evictions, the apply loop moving the persistent store along the log,
    the clock, and the clearing of the overlay when leadership is taken. */
module CacheAgreement {
  import opened Base
  import opened InMemoryStore
  import A = ApplyLoop

  /** `log` holds the bundles, committed or not. The persistent store is the replay of the first `milestone` of them.
      `inflight` are the positions of bundles whose commands have not finished; such a command holds the locks of the
      keys it changes. `guards` are the versions carried by submitted evict commands. */
  datatype State =
    State(overlay: Overlay, log: seq<seq<Event>>, milestone: nat, inflight: set<nat>, guards: set<nat>, now: nat)

  datatype Step =
    | Persist(events: seq<Event>)
    | Finish(pos: nat)
    | ReadKey(key: Key)
    | SubmitEvict(guard: nat)
    | Evict(keys: set<Key>, guard: nat)
    | Commit(index: nat)
    | Tick(seconds: nat)
    | TakeLeadership

  ghost function Db(log: seq<seq<Event>>, m: nat): Store
    requires m <= |log|
  {
    if m == 0 then map[] else Replay(log[m - 1], Db(log, m - 1))
  }

  function VersionAt(log: seq<seq<Event>>, m: nat): nat
    requires m <= |log|
  {
    if m == 0 then INVALID_VERSION else BundleVersion(log[m - 1])
  }

  /** All events of a bundle carry its version. */
  ghost predicate OneVersion(es: seq<Event>) {
    es != [] && Carries(es, BundleVersion(es))
  }

  /** The overlay after the events of a bundle. */
  function AppliedAll(o: Overlay, es: seq<Event>): Overlay {
    if es == [] then o else Applied(AppliedAll(o, es[..|es| - 1]), es[|es| - 1])
  }

  /** What a client can tell about a key: value and version, or that it is missing. */
  function Visible(r: ReadResult): Option<(Value, nat)> {
    if r.Found? then Some((r.value, r.version)) else None
  }

  function Seen(m: Store, k: Key, now: nat): Option<(Value, nat)> {
    if k in m && !Expired(m[k].entry, now) then Some((m[k].entry.value, m[k].entry.version)) else None
  }

  ghost predicate Locked(s: State, k: Key) {
    exists p :: p in s.inflight && p < |s.log| && TouchesAny(s.log[p], k)
  }

  ghost predicate Init(s: State) {
    && WellFormedLog(s.log) && s.milestone == |s.log|
    && s.overlay == EMPTY && s.inflight == {} && s.guards == {}
  }

  /** When the step can happen. Commands and evictions wait for the locks of their keys; taking leadership waits for
      all commands. */
  ghost predicate Enabled(s: State, st: Step)
    requires s.milestone <= |s.log|
  {
    match st
    case Persist(es) =>
      && OneVersion(es) && BundleVersion(es) > VersionAt(s.log, |s.log|)
      && forall k :: TouchesAny(es, k) ==> !Locked(s, k)
    case Finish(p) => p in s.inflight && p < |s.log|
    case ReadKey(k) => !Locked(s, k)
    case SubmitEvict(g) => g == INVALID_VERSION || g == VersionAt(s.log, s.milestone)
    case Evict(keys, _) => forall k :: k in keys ==> !Locked(s, k)
    case Commit(m) => s.milestone <= m <= |s.log|
    case Tick(_) => true
    case TakeLeadership => s.inflight == {}
  }

  ghost function Next(s: State, st: Step): State
    requires s.milestone <= |s.log| && Enabled(s, st)
  {
    match st
    case Persist(es) => s.(log := s.log + [es], inflight := s.inflight + {|s.log|})
    case Finish(p) => s.(overlay := AppliedAll(s.overlay, s.log[p]), inflight := s.inflight - {p})
    case ReadKey(k) => s.(overlay := AfterRead(s.overlay, k, s.now))
    case SubmitEvict(g) => s.(guards := s.guards + {g})
    case Evict(keys, g) => s.(overlay := Evicted(s.overlay, Db(s.log, s.milestone), keys, g, s.now))
    case Commit(m) => s.(milestone := m)
    case Tick(d) => s.(now := s.now + d)
    case TakeLeadership => s.(overlay := EMPTY)
  }

  /** The key reads, from now on and however far the apply loop gets, as the replay of the whole log says. */
  ghost predicate KeyAgrees(s: State, k: Key)
    requires s.milestone <= |s.log|
  {
    forall m, now: nat | s.milestone <= m <= |s.log| && s.now <= now :: AgreesAt(s, k, m, now)
  }

  ghost predicate AgreesAt(s: State, k: Key, m: nat, now: nat)
    requires m <= |s.log|
  {
    Visible(Read(s.overlay, Db(s.log, m), k, now)) == Seen(Db(s.log, |s.log|), k, now)
  }

  /** Every key that no running command holds agrees. */
  ghost predicate Agreement(s: State)
    requires s.milestone <= |s.log|
  {
    forall k :: !Locked(s, k) ==> KeyAgrees(s, k)
  }

  /** The persistent store has no live record of the key, and will not pass through one before it has applied the
      first `upTo` bundles. */
  ghost predicate NoneAlive(s: State, k: Key, upTo: nat) {
    forall m | s.milestone <= m <= upTo && m <= |s.log| :: Seen(Db(s.log, m), k, s.now) == None
  }

  /** A bundle above the milestone touches the key. */
  ghost predicate Pending(s: State, k: Key) {
    exists p :: s.milestone <= p < |s.log| && TouchesAny(s.log[p], k)
  }

  /** Dropping the entry of a cached key: one that has expired must not uncover a live record, and one that is alive
      must be in the persistent store. */
  ghost predicate MayDrop(s: State, k: Key)
    requires s.milestone <= |s.log| && k in s.overlay.data
  {
    if Expired(s.overlay.data[k], s.now) then NoneAlive(s, k, |s.log|)
    else s.overlay.data[k].version <= VersionAt(s.log, s.milestone)
  }

  /** What a finished bundle leaves for a key: an entry, a tombstone, or nothing that matters below. */
  ghost predicate Settles(s: State, p: nat, k: Key)
    requires p < |s.log|
  {
    var o := AppliedAll(s.overlay, s.log[p]);
    k in o.data || k in o.tombs || NoneAlive(s, k, p)
  }

  /** The steps that keep the agreement. */
  ghost predicate Safe(s: State, st: Step)
    requires s.milestone <= |s.log| && Enabled(s, st)
  {
    match st
    case Finish(p) => forall k :: TouchesAny(s.log[p], k) ==> Settles(s, p, k)
    case ReadKey(k) => k in s.overlay.data && Expired(s.overlay.data[k], s.now) ==> MayDrop(s, k)
    case Evict(keys, g) =>
      forall k | k in keys && k in s.overlay.data :: Drops(s, k, g) ==> MayDrop(s, k)
    case TakeLeadership => forall k :: Pending(s, k) ==> NoneAlive(s, k, |s.log|)
    case _ => true
  }

  /** An eviction guarded by a version drops the cached entry of a key. */
  predicate Drops(s: State, k: Key, g: nat)
    requires k in s.overlay.data
  {
    Expired(s.overlay.data[k], s.now) || s.overlay.data[k].version <= g
  }

  // ----- the invariant

  ghost predicate WellFormedLog(log: seq<seq<Event>>) {
    && (forall i :: 0 <= i < |log| ==> OneVersion(log[i]) && BundleVersion(log[i]) > INVALID_VERSION)
    && (forall i, j :: 0 <= i < j < |log| ==> BundleVersion(log[i]) < BundleVersion(log[j]))
  }

  /** No later bundle touches a key of an unfinished one. */
  ghost predicate LastOn(log: seq<seq<Event>>, p: nat, k: Key) {
    p < |log| && forall q :: p < q < |log| ==> !TouchesAny(log[q], k)
  }

  /** The cached entry of a key that no command holds is the record that the whole log leaves. */
  ghost predicate CachedIsLogged(s: State, k: Key) {
    k in s.overlay.data && !Locked(s, k) ==>
      k in Db(s.log, |s.log|) && s.overlay.data[k] == Db(s.log, |s.log|)[k].entry
  }

  ghost predicate WellFormed(s: State) {
    && WellFormedLog(s.log) && s.milestone <= |s.log|
    && s.overlay.data.Keys !! s.overlay.tombs.Keys
    && (forall p :: p in s.inflight ==> p < |s.log|)
    && (forall p, k :: p in s.inflight && TouchesAny(s.log[p], k) ==> LastOn(s.log, p, k))
    && (forall g :: g in s.guards ==> g <= VersionAt(s.log, s.milestone))
    && (forall k :: CachedIsLogged(s, k))
  }

  ghost predicate Inv(s: State) {
    WellFormed(s) && Agreement(s)
  }

  // ----- facts about the log

  lemma {:induction false} DbQuiet(log: seq<seq<Event>>, m: nat, n: nat, k: Key)
    requires m <= n <= |log| && forall q :: m <= q < n ==> !TouchesAny(log[q], k)
    ensures Lookup(Db(log, m), k) == Lookup(Db(log, n), k)
  {
    if m < n {
      DbQuiet(log, m, n - 1, k);
      ReplayUntouched(log[n - 1], Db(log, n - 1), k);
    }
  }

  lemma SeenSame(a: Store, b: Store, k: Key, now: nat)
    requires Lookup(a, k) == Lookup(b, k)
    ensures Seen(a, k, now) == Seen(b, k, now) && (k in a <==> k in b) && (k in a ==> a[k] == b[k])
  {
    assert k in a ==> Lookup(a, k) == Some(a[k]);
    assert k in b ==> Lookup(b, k) == Some(b[k]);
  }

  /** What is missing or expired stays so. */
  lemma SeenFades(a: Store, k: Key, now: nat, later: nat)
    requires Seen(a, k, now) == None && now <= later
    ensures Seen(a, k, later) == None
  {
  }

  lemma {:induction false} DbExtend(log: seq<seq<Event>>, es: seq<Event>, m: nat)
    requires m <= |log|
    ensures Db(log + [es], m) == Db(log, m)
  {
    if m > 0 {
      DbExtend(log, es, m - 1);
    }
  }

  /** A record comes from the last bundle on its key. */
  lemma {:induction false} DbRecord(log: seq<seq<Event>>, m: nat, k: Key) returns (p: nat)
    requires WellFormedLog(log) && m <= |log| && k in Db(log, m)
    ensures p < m && Db(log, m)[k].entry.version == BundleVersion(log[p])
    ensures forall q :: p < q < m ==> !TouchesAny(log[q], k)
  {
    if TouchesAny(log[m - 1], k) {
      p := m - 1;
      ReplayRecord(log[p], BundleVersion(log[p]), Db(log, p), k);
    } else {
      ReplayUntouched(log[m - 1], Db(log, m - 1), k);
      SeenSame(Db(log, m), Db(log, m - 1), k, 0);
      p := DbRecord(log, m - 1, k);
    }
  }

  // ----- the overlay after a bundle

  lemma {:induction false} AppliedUntouched(o: Overlay, es: seq<Event>, k: Key)
    requires !TouchesAny(es, k)
    ensures Lookup(AppliedAll(o, es).data, k) == Lookup(o.data, k)
    ensures Lookup(AppliedAll(o, es).tombs, k) == Lookup(o.tombs, k)
  {
    if es != [] {
      assert !Touches(es[|es| - 1], k);
      assert forall i :: 0 <= i < |es| - 1 ==> es[..|es| - 1][i] == es[i];
      AppliedUntouched(o, es[..|es| - 1], k);
    }
  }

  lemma {:induction false} AppliedDisjoint(o: Overlay, es: seq<Event>)
    requires o.data.Keys !! o.tombs.Keys
    ensures AppliedAll(o, es).data.Keys !! AppliedAll(o, es).tombs.Keys
  {
    if es != [] {
      AppliedDisjoint(o, es[..|es| - 1]);
    }
  }

  /** The entry cached for a key that the bundle touches is the record that its replay leaves. */
  lemma {:induction false} AppliedTouched(o: Overlay, es: seq<Event>, m: Store, k: Key)
    requires TouchesAny(es, k)
    ensures k in AppliedAll(o, es).data <==> k in Replay(es, m)
    ensures k in Replay(es, m) ==> AppliedAll(o, es).data[k] == Replay(es, m)[k].entry
  {
    var front, last := es[..|es| - 1], es[|es| - 1];
    if !Touches(last, k) {
      var i :| 0 <= i < |es| && Touches(es[i], k);
      assert front[i] == es[i];
      AppliedTouched(o, front, m, k);
    }
  }

  // ----- each step, key by key

  lemma ReadThrough(o: Overlay, o': Overlay, a: Store, b: Store, k: Key, now: nat)
    requires Lookup(o.data, k) == Lookup(o'.data, k) && Lookup(o.tombs, k) == Lookup(o'.tombs, k)
    requires Lookup(a, k) == Lookup(b, k)
    ensures Read(o, a, k, now) == Read(o', b, k, now)
  {
    assert k in o.data ==> Lookup(o.data, k) == Some(o.data[k]);
    assert k in o'.data ==> Lookup(o'.data, k) == Some(o'.data[k]);
    assert k in o.tombs ==> Lookup(o.tombs, k) == Some(o.tombs[k]);
    assert k in o'.tombs ==> Lookup(o'.tombs, k) == Some(o'.tombs[k]);
    SeenSame(a, b, k, now);
  }

  /** A step that leaves log, milestone and clock alone, and the overlay on one key. */
  lemma SameOverlay(s: State, s': State, k: Key)
    requires s.milestone <= |s.log| && s'.log == s.log && s'.milestone == s.milestone && s'.now == s.now
    requires Lookup(s.overlay.data, k) == Lookup(s'.overlay.data, k)
    requires Lookup(s.overlay.tombs, k) == Lookup(s'.overlay.tombs, k)
    ensures KeyAgrees(s, k) <==> KeyAgrees(s', k)
  {
    forall m, now: nat | s.milestone <= m <= |s.log|
      ensures AgreesAt(s, k, m, now) <==> AgreesAt(s', k, m, now)
    {
      ReadThrough(s.overlay, s'.overlay, Db(s.log, m), Db(s.log, m), k, now);
    }
  }

  lemma PersistKeepsKey(s: State, es: seq<Event>, k: Key)
    requires s.milestone <= |s.log| && !TouchesAny(es, k) && KeyAgrees(s, k)
    ensures KeyAgrees(s.(log := s.log + [es]), k)
  {
    var s', n := s.(log := s.log + [es]), |s.log|;
    DbExtend(s.log, es, n);
    ReplayUntouched(es, Db(s.log, n), k);
    forall m, now: nat | s.milestone <= m <= n + 1 && s.now <= now
      ensures AgreesAt(s', k, m, now)
    {
      var m' := if m <= n then m else n;
      DbExtend(s.log, es, m');
      assert AgreesAt(s, k, m', now);
      ReadThrough(s.overlay, s.overlay, Db(s'.log, m), Db(s.log, m'), k, now);
      SeenSame(Db(s'.log, n + 1), Db(s.log, n), k, now);
    }
  }

  ghost predicate ShowsFinal(s: State, k: Key, m: nat, now: nat)
    requires m <= |s.log|
  {
    Seen(Db(s.log, m), k, now) == Seen(Db(s.log, |s.log|), k, now)
  }

  /** With neither entry nor tombstone, a key agrees exactly when the store below shows the same all the way. */
  lemma BareKeyIff(s: State, k: Key)
    requires s.milestone <= |s.log| && k !in s.overlay.data && k !in s.overlay.tombs
    ensures KeyAgrees(s, k)
       <==> forall m, now: nat | s.milestone <= m <= |s.log| && s.now <= now :: ShowsFinal(s, k, m, now)
  {
    forall m, now: nat | s.milestone <= m <= |s.log|
      ensures AgreesAt(s, k, m, now) <==> ShowsFinal(s, k, m, now)
    {
    }
    if KeyAgrees(s, k) {
      forall m, now: nat | s.milestone <= m <= |s.log| && s.now <= now
        ensures ShowsFinal(s, k, m, now)
      {
        assert AgreesAt(s, k, m, now);
      }
    }
  }

  /** A bare key that the whole log leaves missing or expired agrees exactly when no live record lies below. */
  lemma BareGoneIff(s: State, k: Key)
    requires s.milestone <= |s.log| && k !in s.overlay.data && k !in s.overlay.tombs
    requires Seen(Db(s.log, |s.log|), k, s.now) == None
    ensures KeyAgrees(s, k) <==> NoneAlive(s, k, |s.log|)
  {
    BareKeyIff(s, k);
    if NoneAlive(s, k, |s.log|) {
      forall m, now: nat | s.milestone <= m <= |s.log| && s.now <= now
        ensures ShowsFinal(s, k, m, now)
      {
        SeenFades(Db(s.log, m), k, s.now, now);
        SeenFades(Db(s.log, |s.log|), k, s.now, now);
      }
    }
    if KeyAgrees(s, k) {
      forall m | s.milestone <= m <= |s.log|
        ensures Seen(Db(s.log, m), k, s.now) == None
      {
        assert ShowsFinal(s, k, m, s.now);
      }
    }
  }

  lemma FinishKeepsOther(s: State, p: nat, k: Key)
    requires s.milestone <= |s.log| && p < |s.log| && !TouchesAny(s.log[p], k)
    ensures KeyAgrees(s.(overlay := AppliedAll(s.overlay, s.log[p]), inflight := s.inflight - {p}), k)
       <==> KeyAgrees(s, k)
  {
    AppliedUntouched(s.overlay, s.log[p], k);
    SameOverlay(s, s.(overlay := AppliedAll(s.overlay, s.log[p]), inflight := s.inflight - {p}), k);
  }

  /** The final record of a key is that of the last bundle on it. */
  lemma FinalIsLast(log: seq<seq<Event>>, p: nat, k: Key, m: nat)
    requires LastOn(log, p, k) && p < m <= |log|
    ensures Lookup(Db(log, m), k) == Lookup(Replay(log[p], Db(log, p)), k) == Lookup(Db(log, |log|), k)
  {
    DbQuiet(log, p + 1, m, k);
    DbQuiet(log, p + 1, |log|, k);
  }

  lemma FinishKeepsKeyIff(s: State, p: nat, k: Key)
    requires s.milestone <= |s.log| && LastOn(s.log, p, k) && TouchesAny(s.log[p], k)
    ensures KeyAgrees(s.(overlay := AppliedAll(s.overlay, s.log[p]), inflight := s.inflight - {p}), k)
       <==> Settles(s, p, k)
  {
    var s' := s.(overlay := AppliedAll(s.overlay, s.log[p]), inflight := s.inflight - {p});
    var final, left := Db(s.log, |s.log|), Replay(s.log[p], Db(s.log, p));
    AppliedTouched(s.overlay, s.log[p], Db(s.log, p), k);
    FinalIsLast(s.log, p, k, |s.log|);
    SeenSame(left, final, k, s.now);
    if k in s'.overlay.data || k in s'.overlay.tombs {
      forall m, now: nat | s.milestone <= m <= |s.log| && s.now <= now
        ensures AgreesAt(s', k, m, now)
      {
      }
    } else {
      BareGoneIff(s', k);
      forall m | p < m <= |s.log|
        ensures Seen(Db(s.log, m), k, s.now) == None
      {
        FinalIsLast(s.log, p, k, m);
        SeenSame(Db(s.log, m), final, k, s.now);
      }
    }
  }

  lemma VersionsUpTo(log: seq<seq<Event>>, p: nat, m: nat)
    requires WellFormedLog(log) && p < |log| && m <= |log|
    ensures p < m <==> BundleVersion(log[p]) <= VersionAt(log, m)
  {
  }

  /** A live cached key is covered by the persistent store exactly when its version is at most that of the milestone. */
  lemma LiveDropIff(s: State, s': State, k: Key)
    requires WellFormedLog(s.log) && s.milestone <= |s.log| && KeyAgrees(s, k)
    requires k in s.overlay.data && !Expired(s.overlay.data[k], s.now)
    requires k !in s'.overlay.data && k !in s'.overlay.tombs
    requires s'.log == s.log && s'.milestone == s.milestone && s'.now == s.now
    ensures KeyAgrees(s', k) <==> s.overlay.data[k].version <= VersionAt(s.log, s.milestone)
  {
    var final := Db(s.log, |s.log|);
    assert AgreesAt(s, k, s.milestone, s.now);
    assert Seen(final, k, s.now) == Some((s.overlay.data[k].value, s.overlay.data[k].version));
    BareKeyIff(s', k);
    var p := DbRecord(s.log, |s.log|, k);
    VersionsUpTo(s.log, p, s.milestone);
    if p < s.milestone {
      forall m, now: nat | s.milestone <= m <= |s.log| && s.now <= now
        ensures ShowsFinal(s', k, m, now)
      {
        DbQuiet(s.log, m, |s.log|, k);
        SeenSame(Db(s.log, m), final, k, now);
      }
    } else {
      assert ShowsFinal(s', k, s.milestone, s.now) ==> Seen(Db(s.log, s.milestone), k, s.now) == Seen(final, k, s.now);
      OlderSeen(s.log, s.milestone, k, s.now, p);
    }
  }

  /** What the store shows of a key before a bundle does not have the version of that bundle. */
  lemma OlderSeen(log: seq<seq<Event>>, m: nat, k: Key, now: nat, p: nat)
    requires WellFormedLog(log) && m <= p < |log|
    ensures Seen(Db(log, m), k, now).Some? ==> Seen(Db(log, m), k, now).value.1 != BundleVersion(log[p])
  {
    if k in Db(log, m) {
      var q := DbRecord(log, m, k);
      assert q < p;
    }
  }

  lemma DropIff(s: State, s': State, k: Key)
    requires WellFormedLog(s.log) && s.milestone <= |s.log| && KeyAgrees(s, k) && k in s.overlay.data
    requires k !in s'.overlay.data && k !in s'.overlay.tombs
    requires s'.log == s.log && s'.milestone == s.milestone && s'.now == s.now
    ensures KeyAgrees(s', k) <==> MayDrop(s, k)
  {
    if Expired(s.overlay.data[k], s.now) {
      assert AgreesAt(s, k, s.milestone, s.now);
      BareGoneIff(s', k);
      assert NoneAlive(s', k, |s.log|) <==> NoneAlive(s, k, |s.log|);
    } else {
      LiveDropIff(s, s', k);
    }
  }

  /** What an eviction does to one key of the overlay. */
  lemma EvictedKey(o: Overlay, db: Store, keys: set<Key>, g: nat, now: nat, k: Key)
    requires o.data.Keys !! o.tombs.Keys
    ensures var o' := Evicted(o, db, keys, g, now);
      if k in keys && k in o.data && (Expired(o.data[k], now) || o.data[k].version <= g)
      then k !in o'.data && k !in o'.tombs
      else Lookup(o'.data, k) == Lookup(o.data, k) && Lookup(o'.tombs, k) == Lookup(o.tombs, k)
  {
  }

  /** A key with a live final record and a bundle above the milestone does not agree once it is bare: the last bundle
      on it shows. */
  lemma PendingShows(s: State, k: Key)
    requires WellFormedLog(s.log) && s.milestone <= |s.log| && k !in s.overlay.data && k !in s.overlay.tombs
    requires Pending(s, k) && Seen(Db(s.log, |s.log|), k, s.now).Some?
    ensures !KeyAgrees(s, k)
  {
    BareKeyIff(s, k);
    var p := DbRecord(s.log, |s.log|, k);
    assert s.milestone <= p;
    OlderSeen(s.log, p, k, s.now, p);
    assert !ShowsFinal(s, k, p, s.now);
  }

  /** A key agrees after the overlay was cleared exactly when no bundle above the milestone touches it, or no record of
      it is alive from there on. */
  lemma ClearedKeyIff(s: State, k: Key)
    requires WellFormedLog(s.log) && s.milestone <= |s.log|
    ensures KeyAgrees(s.(overlay := EMPTY), k) <==> (Pending(s, k) ==> NoneAlive(s, k, |s.log|))
  {
    var s' := s.(overlay := EMPTY);
    if !Pending(s, k) {
      BareKeyIff(s', k);
      forall m, now: nat | s.milestone <= m <= |s.log|
        ensures ShowsFinal(s', k, m, now)
      {
        DbQuiet(s.log, m, |s.log|, k);
        SeenSame(Db(s.log, m), Db(s.log, |s.log|), k, now);
      }
    } else if Seen(Db(s.log, |s.log|), k, s.now) == None {
      BareGoneIff(s', k);
      assert NoneAlive(s', k, |s.log|) <==> NoneAlive(s, k, |s.log|);
    } else {
      assert Pending(s', k);
      PendingShows(s', k);
      assert !NoneAlive(s, k, |s.log|);
    }
  }

  // ----- each step

  lemma LockedAfterPersist(s: State, es: seq<Event>, k: Key)
    requires forall p :: p in s.inflight ==> p < |s.log|
    ensures Locked(s.(log := s.log + [es], inflight := s.inflight + {|s.log|}), k)
       <==> Locked(s, k) || TouchesAny(es, k)
  {
    var s' := s.(log := s.log + [es], inflight := s.inflight + {|s.log|});
    assert s'.log[|s.log|] == es && |s.log| in s'.inflight;
    if Locked(s, k) {
      var p :| p in s.inflight && p < |s.log| && TouchesAny(s.log[p], k);
      assert s'.log[p] == s.log[p];
    }
    if Locked(s', k) && !TouchesAny(es, k) {
      var p :| p in s'.inflight && p < |s'.log| && TouchesAny(s'.log[p], k);
      assert s'.log[p] == s.log[p];
    }
  }

  lemma PersistedStays(log: seq<seq<Event>>, es: seq<Event>, k: Key)
    requires !TouchesAny(es, k)
    ensures Lookup(Db(log + [es], |log| + 1), k) == Lookup(Db(log, |log|), k)
    ensures k in Db(log, |log|) ==> k in Db(log + [es], |log| + 1) && Db(log + [es], |log| + 1)[k] == Db(log, |log|)[k]
  {
    DbExtend(log, es, |log|);
    ReplayUntouched(es, Db(log, |log|), k);
    SeenSame(Db(log + [es], |log| + 1), Db(log, |log|), k, 0);
  }

  lemma PersistKeepsShape(s: State, es: seq<Event>)
    requires WellFormed(s) && Enabled(s, Persist(es))
    ensures WellFormed(Next(s, Persist(es)))
  {
    var s' := Next(s, Persist(es));
    assert forall i :: 0 <= i < |s.log| ==> s'.log[i] == s.log[i];
    forall p, k | p in s'.inflight && TouchesAny(s'.log[p], k)
      ensures LastOn(s'.log, p, k)
    {
      if p < |s.log| {
        assert TouchesAny(s.log[p], k) && LastOn(s.log, p, k) && Locked(s, k);
      }
    }
    forall k
      ensures CachedIsLogged(s', k)
    {
      assert CachedIsLogged(s, k);
      LockedAfterPersist(s, es, k);
      if !TouchesAny(es, k) {
        PersistedStays(s.log, es, k);
      }
    }
  }

  lemma PersistKeeps(s: State, es: seq<Event>)
    requires Inv(s) && Enabled(s, Persist(es))
    ensures Inv(Next(s, Persist(es)))
  {
    var s' := Next(s, Persist(es));
    PersistKeepsShape(s, es);
    forall k | !Locked(s', k)
      ensures KeyAgrees(s', k)
    {
      LockedAfterPersist(s, es, k);
      PersistKeepsKey(s, es, k);
      SameOverlay(s.(log := s.log + [es]), s', k);
    }
  }

  lemma LockedAfterFinish(s: State, p: nat, k: Key)
    requires WellFormed(s) && p in s.inflight
    ensures Locked(s.(overlay := AppliedAll(s.overlay, s.log[p]), inflight := s.inflight - {p}), k)
       <==> Locked(s, k) && !TouchesAny(s.log[p], k)
  {
    var s' := s.(overlay := AppliedAll(s.overlay, s.log[p]), inflight := s.inflight - {p});
    if Locked(s, k) {
      var q :| q in s.inflight && q < |s.log| && TouchesAny(s.log[q], k);
      if TouchesAny(s.log[p], k) {
        assert LastOn(s.log, p, k) && LastOn(s.log, q, k);
      } else {
        assert q in s'.inflight;
      }
    }
  }

  lemma FinishKeepsCached(s: State, p: nat, k: Key)
    requires WellFormed(s) && p in s.inflight
    ensures CachedIsLogged(s.(overlay := AppliedAll(s.overlay, s.log[p]), inflight := s.inflight - {p}), k)
  {
    assert CachedIsLogged(s, k);
    LockedAfterFinish(s, p, k);
    if TouchesAny(s.log[p], k) {
      AppliedTouched(s.overlay, s.log[p], Db(s.log, p), k);
      FinalIsLast(s.log, p, k, |s.log|);
      SeenSame(Replay(s.log[p], Db(s.log, p)), Db(s.log, |s.log|), k, 0);
    } else {
      AppliedUntouched(s.overlay, s.log[p], k);
      assert k in s.overlay.data ==> Lookup(s.overlay.data, k) == Some(s.overlay.data[k]);
    }
  }

  lemma FinishKeepsIff(s: State, p: nat)
    requires Inv(s) && Enabled(s, Finish(p))
    ensures WellFormed(Next(s, Finish(p)))
    ensures Inv(Next(s, Finish(p))) <==> Safe(s, Finish(p))
  {
    var s' := Next(s, Finish(p));
    AppliedDisjoint(s.overlay, s.log[p]);
    forall k
      ensures !Locked(s', k) && !TouchesAny(s.log[p], k) ==> KeyAgrees(s', k)
      ensures TouchesAny(s.log[p], k) ==> !Locked(s', k) && (KeyAgrees(s', k) <==> Settles(s, p, k))
      ensures CachedIsLogged(s', k)
    {
      FinishKeepsCached(s, p, k);
      LockedAfterFinish(s, p, k);
      if TouchesAny(s.log[p], k) {
        FinishKeepsKeyIff(s, p, k);
      } else {
        FinishKeepsOther(s, p, k);
      }
    }
  }

  /** A step that only takes things out of the overlay, or changes neither log nor overlay. */
  lemma StillLogged(s: State, s': State)
    requires (forall k :: CachedIsLogged(s, k)) && s'.log == s.log && s'.inflight == s.inflight
    requires forall k :: k in s'.overlay.data ==> k in s.overlay.data && s'.overlay.data[k] == s.overlay.data[k]
    ensures forall k :: CachedIsLogged(s', k)
  {
    forall k
      ensures CachedIsLogged(s', k)
    {
      assert CachedIsLogged(s, k);
      assert Locked(s', k) <==> Locked(s, k);
    }
  }

  lemma ReadKeepsIff(s: State, k: Key)
    requires Inv(s) && Enabled(s, ReadKey(k))
    ensures WellFormed(Next(s, ReadKey(k)))
    ensures Inv(Next(s, ReadKey(k))) <==> Safe(s, ReadKey(k))
  {
    var s' := Next(s, ReadKey(k));
    StillLogged(s, s');
    if k in s.overlay.data && Expired(s.overlay.data[k], s.now) {
      DropIff(s, s', k);
    }
    forall j
      ensures Locked(s', j) <==> Locked(s, j)
      ensures j != k || s' == s ==> (KeyAgrees(s', j) <==> KeyAgrees(s, j))
    {
      if j != k || s' == s {
        SameOverlay(s, s', j);
      }
    }
  }

  lemma EvictKeepsKeyIff(s: State, keys: set<Key>, g: nat, k: Key)
    requires WellFormed(s) && KeyAgrees(s, k) && Enabled(s, Evict(keys, g))
    ensures KeyAgrees(Next(s, Evict(keys, g)), k)
       <==> (k in keys && k in s.overlay.data && Drops(s, k, g) ==> MayDrop(s, k))
  {
    var s' := Next(s, Evict(keys, g));
    EvictedKey(s.overlay, Db(s.log, s.milestone), keys, g, s.now, k);
    if k in keys && k in s.overlay.data && Drops(s, k, g) {
      DropIff(s, s', k);
    } else {
      SameOverlay(s, s', k);
    }
  }

  lemma EvictKeepsIff(s: State, keys: set<Key>, g: nat)
    requires Inv(s) && Enabled(s, Evict(keys, g))
    ensures WellFormed(Next(s, Evict(keys, g)))
    ensures Inv(Next(s, Evict(keys, g))) <==> Safe(s, Evict(keys, g))
  {
    var s' := Next(s, Evict(keys, g));
    StillLogged(s, s');
    forall k
      ensures Locked(s', k) <==> Locked(s, k)
      ensures !Locked(s, k) ==> (KeyAgrees(s', k)
         <==> (k in keys && k in s.overlay.data && Drops(s, k, g) ==> MayDrop(s, k)))
    {
      if !Locked(s, k) {
        EvictKeepsKeyIff(s, keys, g, k);
      }
    }
  }

  lemma CommitKeeps(s: State, m: nat)
    requires Inv(s) && Enabled(s, Commit(m))
    ensures Inv(Next(s, Commit(m)))
  {
    var s' := Next(s, Commit(m));
    StillLogged(s, s');
    forall k | !Locked(s', k)
      ensures KeyAgrees(s', k)
    {
      assert !Locked(s, k) && KeyAgrees(s, k);
      forall n, now: nat | m <= n <= |s.log| && s.now <= now
        ensures AgreesAt(s', k, n, now)
      {
        assert AgreesAt(s, k, n, now);
      }
    }
  }

  lemma TickKeeps(s: State, d: nat)
    requires Inv(s)
    ensures Inv(s.(now := s.now + d))
  {
    var s' := s.(now := s.now + d);
    StillLogged(s, s');
    forall k | !Locked(s', k)
      ensures KeyAgrees(s', k)
    {
      assert !Locked(s, k) && KeyAgrees(s, k);
      forall n, now: nat | s.milestone <= n <= |s.log| && s'.now <= now
        ensures AgreesAt(s', k, n, now)
      {
        assert AgreesAt(s, k, n, now);
      }
    }
  }

  lemma SubmitKeeps(s: State, g: nat)
    requires Inv(s) && Enabled(s, SubmitEvict(g))
    ensures Inv(Next(s, SubmitEvict(g)))
  {
    StillLogged(s, Next(s, SubmitEvict(g)));
    forall k
      ensures Locked(Next(s, SubmitEvict(g)), k) <==> Locked(s, k)
      ensures KeyAgrees(Next(s, SubmitEvict(g)), k) <==> KeyAgrees(s, k)
    {
      SameOverlay(s, Next(s, SubmitEvict(g)), k);
    }
  }

  lemma TakeLeadershipKeepsIff(s: State)
    requires Inv(s) && Enabled(s, TakeLeadership)
    ensures WellFormed(Next(s, TakeLeadership))
    ensures Inv(Next(s, TakeLeadership)) <==> Safe(s, TakeLeadership)
  {
    StillLogged(s, Next(s, TakeLeadership));
    forall k
      ensures !Locked(Next(s, TakeLeadership), k)
      ensures KeyAgrees(Next(s, TakeLeadership), k) <==> (Pending(s, k) ==> NoneAlive(s, k, |s.log|))
    {
      ClearedKeyIff(s, k);
    }
  }

  /** From a state in which every key that no command holds agrees, a step leads to such a state exactly when it is
      safe. */
  lemma StepAgreesIff(s: State, st: Step)
    requires Inv(s) && Enabled(s, st)
    ensures WellFormed(Next(s, st))
    ensures Agreement(Next(s, st)) <==> Safe(s, st)
  {
    match st
    case Persist(es) => PersistKeeps(s, es);
    case Finish(p) => FinishKeepsIff(s, p);
    case ReadKey(k) => ReadKeepsIff(s, k);
    case SubmitEvict(g) => SubmitKeeps(s, g);
    case Evict(keys, g) => EvictKeepsIff(s, keys, g);
    case Commit(m) => CommitKeeps(s, m);
    case Tick(d) => TickKeeps(s, d);
    case TakeLeadership => TakeLeadershipKeepsIff(s);
  }

  ghost predicate IsRun(run: seq<State>, steps: seq<Step>) {
    && |run| == |steps| + 1 && Init(run[0])
    && forall i :: 0 <= i < |steps| ==> Takes(run[i], steps[i], run[i + 1])
  }

  ghost predicate Takes(s: State, st: Step, s': State) {
    s.milestone <= |s.log| && Enabled(s, st) && s' == Next(s, st)
  }

  ghost predicate TakesSafely(s: State, st: Step, s': State) {
    Takes(s, st, s') && Safe(s, st)
  }

  lemma InitInv(s: State)
    requires Init(s)
    ensures Inv(s)
  {
    forall k
      ensures KeyAgrees(s, k)
    {
      BareKeyIff(s, k);
    }
  }

  /** Every run of safe steps agrees with its log in every state. */
  lemma {:induction false} RunAgrees(run: seq<State>, steps: seq<Step>, n: nat)
    requires IsRun(run, steps) && n < |run| && forall i :: 0 <= i < n ==> TakesSafely(run[i], steps[i], run[i + 1])
    ensures Inv(run[n])
  {
    if n == 0 {
      InitInv(run[0]);
    } else {
      RunAgrees(run, steps, n - 1);
      assert TakesSafely(run[n - 1], steps[n - 1], run[n]);
      StepAgreesIff(run[n - 1], steps[n - 1]);
    }
  }

  // ----- what makes a step safe

  /** An entry whose version the persistent store has may be dropped, expired or not. */
  lemma PersistedMayDrop(s: State, k: Key)
    requires WellFormed(s) && k in s.overlay.data && !Locked(s, k)
    requires s.overlay.data[k].version <= VersionAt(s.log, s.milestone)
    ensures MayDrop(s, k)
  {
    assert CachedIsLogged(s, k);
    var final := Db(s.log, |s.log|);
    var p := DbRecord(s.log, |s.log|, k);
    VersionsUpTo(s.log, p, s.milestone);
    if Expired(s.overlay.data[k], s.now) {
      forall m | s.milestone <= m <= |s.log|
        ensures Seen(Db(s.log, m), k, s.now) == None
      {
        DbQuiet(s.log, m, |s.log|, k);
        SeenSame(Db(s.log, m), final, k, s.now);
      }
    }
  }

  /** An eviction submitted with the version of an earlier milestone never drops a live entry too soon. It is safe
      exactly when no expired entry among its keys, written after the milestone, hides a live record. */
  lemma SubmittedEvictionIsSafeIff(s: State, keys: set<Key>, g: nat)
    requires Inv(s) && Enabled(s, Evict(keys, g)) && g in s.guards
    ensures Safe(s, Evict(keys, g)) <==>
      forall k | k in keys && k in s.overlay.data && Expired(s.overlay.data[k], s.now) ::
        s.overlay.data[k].version > VersionAt(s.log, s.milestone) ==> NoneAlive(s, k, |s.log|)
  {
    forall k | k in keys && k in s.overlay.data && s.overlay.data[k].version <= VersionAt(s.log, s.milestone)
      ensures MayDrop(s, k)
    {
      PersistedMayDrop(s, k);
    }
  }

  /** Leadership is taken safely over a persistent store that has the whole log, and not while a bundle above the
      milestone writes or deletes a key with a live record. */
  lemma LeadershipNeedsLog(s: State, p: nat, k: Key, m: nat)
    requires WellFormed(s) && s.inflight == {}
    ensures s.milestone == |s.log| ==> Safe(s, TakeLeadership)
    ensures s.milestone <= p < |s.log| && TouchesAny(s.log[p], k) && s.milestone <= m <= |s.log|
      ==> Seen(Db(s.log, m), k, s.now).Some? ==> !Safe(s, TakeLeadership)
  {
    if s.milestone <= p < |s.log| && TouchesAny(s.log[p], k) && s.milestone <= m <= |s.log| {
      assert Pending(s, k);
    }
  }

  /** Once the apply loop has caught up, leadership may be taken and every eviction goes through. */
  lemma CaughtUpIsSafe(s: State, keys: set<Key>)
    requires Inv(s) && s.inflight == {}
    ensures var s', g := Next(s, Commit(|s.log|)), VersionAt(s.log, |s.log|);
      && Safe(s', TakeLeadership) && Enabled(s', SubmitEvict(g)) && Safe(s', Evict(keys, g))
      && forall k :: k in keys ==> k !in Next(s', Evict(keys, g)).overlay.data
  {
    var s', g := Next(s, Commit(|s.log|)), VersionAt(s.log, |s.log|);
    CommitKeeps(s, |s.log|);
    forall k | k in s'.overlay.data
      ensures s'.overlay.data[k].version <= g && MayDrop(s', k)
    {
      assert CachedIsLogged(s', k);
      var p := DbRecord(s'.log, |s'.log|, k);
      VersionsUpTo(s'.log, p, |s'.log|);
      PersistedMayDrop(s', k);
    }
  }

  /** What the steps of a careful leader look like: it logs no ttl, finishes a bundle with an entry or a tombstone for
      each of its keys, evicts with a submitted guard, and takes leadership over a store that has caught up. */
  ghost predicate Careful(s: State, st: Step) {
    match st
    case Persist(es) => Lasting(es)
    case Finish(p) => p < |s.log| ==> forall k :: TouchesAny(s.log[p], k) ==>
      k in AppliedAll(s.overlay, s.log[p]).data || k in AppliedAll(s.overlay, s.log[p]).tombs
    case Evict(_, g) => g in s.guards
    case TakeLeadership => s.milestone == |s.log|
    case _ => true
  }

  ghost predicate Lasting(es: seq<Event>) {
    forall i :: 0 <= i < |es| && es[i].Write? ==> es[i].entry.ttl == INFINITE_TTL
  }

  /** Nothing in the overlay, or on its way there, ever expires. */
  ghost predicate NeverExpires(s: State) {
    && (forall k :: k in s.overlay.data ==> s.overlay.data[k].ttl == INFINITE_TTL)
    && (forall p :: p in s.inflight && p < |s.log| ==> Lasting(s.log[p]))
  }

  lemma {:induction false} AppliedLasts(o: Overlay, es: seq<Event>)
    requires Lasting(es) && forall k :: k in o.data ==> o.data[k].ttl == INFINITE_TTL
    ensures forall k :: k in AppliedAll(o, es).data ==> AppliedAll(o, es).data[k].ttl == INFINITE_TTL
  {
    if es != [] {
      assert Lasting(es[..|es| - 1]);
      AppliedLasts(o, es[..|es| - 1]);
    }
  }

  lemma CarefulIsSafe(s: State, st: Step)
    requires Inv(s) && NeverExpires(s) && Enabled(s, st) && Careful(s, st)
    ensures Safe(s, st) && NeverExpires(Next(s, st))
  {
    match st
    case Persist(es) =>
    case Finish(p) => AppliedLasts(s.overlay, s.log[p]);
    case Evict(keys, g) => SubmittedEvictionIsSafeIff(s, keys, g);
    case _ =>
  }

  /** Every run of a careful leader agrees with its log in every state. */
  lemma {:induction false} CarefulRunAgrees(run: seq<State>, steps: seq<Step>, n: nat)
    requires IsRun(run, steps) && n < |run| && forall i :: 0 <= i < n ==> Careful(run[i], steps[i])
    ensures Inv(run[n]) && NeverExpires(run[n])
  {
    if n == 0 {
      InitInv(run[0]);
    } else {
      CarefulRunAgrees(run, steps, n - 1);
      assert Takes(run[n - 1], steps[n - 1], run[n]);
      CarefulIsSafe(run[n - 1], steps[n - 1]);
      StepAgreesIff(run[n - 1], steps[n - 1]);
    }
  }

  // ----- the apply loop under the cache

  /** The bundles among the first `b` log entries. */
  ghost function BundlesOf(log: seq<A.LogEntry>, b: nat): seq<seq<Event>>
    requires b <= |log|
  {
    if b == 0 then []
    else BundlesOf(log, b - 1) + if log[b - 1].Noop? then [] else [log[b - 1].events]
  }

  lemma {:induction false} BundlesOfPrefix(log: seq<A.LogEntry>, a: nat, b: nat)
    requires a <= b <= |log|
    ensures BundlesOf(log, a) <= BundlesOf(log, b)
  {
    if a < b {
      BundlesOfPrefix(log, a, b - 1);
    }
  }

  lemma {:induction false} DbPrefix(log: seq<seq<Event>>, longer: seq<seq<Event>>, m: nat)
    requires m <= |log| && log <= longer
    ensures Db(log, m) == Db(longer, m)
  {
    if m > 0 {
      DbPrefix(log, longer, m - 1);
    }
  }

  lemma {:induction false} ReplayIsDb(log: seq<A.LogEntry>, i: nat)
    requires i <= |log|
    ensures A.LogReplay(log, i) == Db(BundlesOf(log, i), |BundlesOf(log, i)|)
  {
    if i > 0 {
      ReplayIsDb(log, i - 1);
      BundlesOfPrefix(log, i - 1, i);
      DbPrefix(BundlesOf(log, i - 1), BundlesOf(log, i), |BundlesOf(log, i - 1)|);
      if log[i - 1].Noop? {
        assert BundlesOf(log, i) == BundlesOf(log, i - 1);
      }
    }
  }

  /** In every run of the apply loop, its store is the persistent store of a leader over the same bundles with as many
      of them below the milestone, and the version it gives out is one that evictions of that leader may be submitted
      with. */
  lemma LoopServesCache(run: seq<A.State>, steps: seq<A.Step>, n: nat, c: State)
    requires A.IsRun(run, steps) && n < |run| && run[n].running && A.Stored(run[n]) <= |run[n].log|
    requires c.log == BundlesOf(run[n].log, |run[n].log|) && c.milestone == |BundlesOf(run[n].log, A.Stored(run[n]))|
    ensures c.milestone <= |c.log| && run[n].db == Db(c.log, c.milestone)
    ensures Enabled(c, SubmitEvict(run[n].keyVersion))
  {
    var s := run[n];
    var m := A.Stored(s);
    A.RunInv(run, steps, n);
    BundlesOfPrefix(s.log, m, |s.log|);
    ReplayIsDb(s.log, m);
    DbPrefix(BundlesOf(s.log, m), c.log, c.milestone);
    A.GuardIsMilestoneVersion(run, steps, n);
    if m != s.start {
      assert BundlesOf(s.log, m) == BundlesOf(s.log, m - 1) + [s.log[m - 1].events];
    }
  }

  // ----- runs with one step that is not safe

  ghost predicate Ends(run: seq<State>, steps: seq<Step>, s: State) {
    IsRun(run, steps) && run[|steps|] == s
  }

  lemma Go(run: seq<State>, steps: seq<Step>, s: State, st: Step, s': State)
    returns (run': seq<State>, steps': seq<Step>)
    requires Ends(run, steps, s) && Takes(s, st, s')
    ensures Ends(run', steps', s')
  {
    run', steps' := run + [s'], steps + [st];
  }

  function Put(k: Key, v: Value, version: nat, ttl: nat): Event {
    Write(k, Entry(v, version, ttl, ttl, 0), NO_META, false)
  }

  lemma ReplayOne(e: Event, m: Store)
    ensures Replay([e], m) == ApplyEvent(m, e)
    ensures forall k :: TouchesAny([e], k) <==> Touches(e, k)
  {
    assert [e][..0] == [];
    forall k
      ensures TouchesAny([e], k) <==> Touches(e, k)
    {
      assert Touches(e, k) ==> Touches([e][0], k);
    }
  }

  lemma AppliedOne(o: Overlay, e: Event)
    ensures AppliedAll(o, [e]) == Applied(o, e)
  {
    assert [e][..0] == [];
  }

  /** A bundle of one event is logged and finished. */
  lemma PutThrough(run: seq<State>, steps: seq<Step>, s: State, e: Event)
    returns (run': seq<State>, steps': seq<Step>, s': State)
    requires Ends(run, steps, s) && s.milestone <= |s.log| && s.inflight == {}
    requires EventVersion(e) > VersionAt(s.log, |s.log|)
    ensures s' == s.(log := s.log + [[e]], overlay := Applied(s.overlay, e)) && Ends(run', steps', s')
  {
    var s1 := s.(log := s.log + [[e]], inflight := {|s.log|});
    assert s.inflight + {|s.log|} == {|s.log|};
    run', steps' := Go(run, steps, s, Persist([e]), s1);
    AppliedOne(s.overlay, e);
    assert s1.inflight - {|s.log|} == {};
    s' := s.(log := s.log + [[e]], overlay := Applied(s.overlay, e));
    run', steps' := Go(run', steps', s1, Finish(|s.log|), s');
  }

  lemma FirstDb(e: Event)
    ensures Db([[e]], 1) == ApplyEvent(map[], e)
  {
    ReplayOne(e, map[]);
  }

  lemma SecondDb(a: Event, b: Event)
    ensures Db([[a]] + [[b]], 1) == ApplyEvent(map[], a)
    ensures Db([[a]] + [[b]], 2) == ApplyEvent(ApplyEvent(map[], a), b)
  {
    FirstDb(a);
    DbExtend([[a]], [b], 1);
    ReplayOne(b, Db([[a]], 1));
  }

  /** A put that was persisted and is not cached, and then deleted: the delete leaves no tombstone, and the key stays
      readable although the log has removed it. */
  lemma DeleteOfEvictedKeyStaysReadable(k: Key, v: Value) returns (run: seq<State>, steps: seq<Step>, s: State)
    ensures Ends(run, steps, s) && s.milestone <= |s.log| && s.inflight == {}
    ensures Visible(Read(s.overlay, Db(s.log, s.milestone), k, s.now)) == Some((v, 1))
    ensures Seen(Db(s.log, |s.log|), k, s.now) == None
  {
    var put, del := Put(k, v, 1, INFINITE_TTL), Delete(k, 2, 1);
    s := State(EMPTY, [[put]], 1, {}, {}, 0);
    run, steps := [s], [];
    run, steps, s := PutThrough(run, steps, s, del);
    SecondDb(put, del);
  }

  /** A put that is logged and cached but not yet persisted is unreadable once leadership has been taken. */
  lemma TakenLeadershipHidesWrite(k: Key, v: Value) returns (run: seq<State>, steps: seq<Step>, s: State)
    ensures Ends(run, steps, s) && s.milestone <= |s.log| && s.inflight == {}
    ensures Visible(Read(s.overlay, Db(s.log, s.milestone), k, s.now)) == None
    ensures Seen(Db(s.log, |s.log|), k, s.now) == Some((v, 1))
  {
    var put := Put(k, v, 1, INFINITE_TTL);
    s := State(EMPTY, [], 0, {}, {}, 0);
    run, steps := [s], [];
    run, steps, s := PutThrough(run, steps, s, put);
    assert [] + [[put]] == [[put]];
    FirstDb(put);
    run, steps := Go(run, steps, s, TakeLeadership, s.(overlay := EMPTY));
    s := s.(overlay := EMPTY);
  }

  /** A put with a ttl over one without: when it has expired, the first read misses and the next finds the old value. */
  lemma ExpiredReadRevives(k: Key, v: Value, w: Value) returns (run: seq<State>, steps: seq<Step>, s: State)
    ensures Ends(run, steps, s) && s.milestone <= |s.log| && s.inflight == {}
    ensures Visible(Read(s.overlay, Db(s.log, s.milestone), k, s.now)) == Some((v, 1))
    ensures Seen(Db(s.log, |s.log|), k, s.now) == None
  {
    var put, brief := Put(k, v, 1, INFINITE_TTL), Put(k, w, 2, 1);
    s := State(EMPTY, [[put]], 1, {}, {}, 0);
    run, steps := [s], [];
    run, steps, s := PutThrough(run, steps, s, brief);
    SecondDb(put, brief);
    run, steps := Go(run, steps, s, Tick(1), s.(now := 1));
    s := s.(now := 1);
    var dropped := s.(overlay := AfterRead(s.overlay, k, 1));
    run, steps := Go(run, steps, s, ReadKey(k), dropped);
    s := dropped;
  }
}
