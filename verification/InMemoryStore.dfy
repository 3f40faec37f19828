/** The in-memory overlay that sits in front of the persistent store: cached entries, their user meta
    and tombstones. Reads that the overlay cannot answer go to the store it delegates to. */
module InMemoryStore {
  import opened Base

  datatype Overlay = Overlay(data: map<Key, Entry>, metas: map<Key, UserMeta>, tombs: map<Key, nat>)

  const EMPTY: Overlay := Overlay(map[], map[], map[])

  /** A miss carries the version of the tombstone it hit, or INVALID_VERSION. The store below leaves the ttl that it
      hands out as the caller has set it, which is to never expire. */
  datatype ReadResult = Found(value: Value, version: nat, ttl: nat) | NotFound(version: nat)

  datatype MetaResult = MetaFound(version: nat, ttl: nat, deadline: nat, updateTime: nat, meta: UserMeta) | MetaNotFound

  // ----- specification functions, one per operation

  function DbRead(db: Store, k: Key, now: nat): ReadResult {
    if k in db && !Expired(db[k].entry, now)
    then Found(db[k].entry.value, db[k].entry.version, INFINITE_TTL)
    else NotFound(INVALID_VERSION)
  }

  function DbReadMeta(db: Store, k: Key): MetaResult {
    if k in db then
      var Record(e, meta) := db[k];
      MetaFound(e.version, e.ttl, e.deadline, e.updateTime, meta)
    else MetaNotFound
  }

  function Read(o: Overlay, db: Store, k: Key, now: nat): ReadResult {
    if k in o.data then
      if Expired(o.data[k], now) then NotFound(INVALID_VERSION)
      else Found(o.data[k].value, o.data[k].version, o.data[k].ttl)
    else if k in o.tombs then NotFound(o.tombs[k])
    else DbRead(db, k, now)
  }

  /** Reading an expired entry drops it from the cache. */
  function AfterRead(o: Overlay, k: Key, now: nat): Overlay {
    if k in o.data && Expired(o.data[k], now) then o.(data := o.data - {k}) else o
  }

  function Written(o: Overlay, k: Key, e: Entry, meta: UserMeta): Overlay {
    Overlay(o.data[k := e], if meta == NO_META then o.metas else o.metas[k := meta], o.tombs - {k})
  }

  function Deleted(o: Overlay, k: Key, recordVersion: nat): Overlay {
    if k in o.data then
      Overlay(o.data - {k}, o.metas - {k}, if k in o.tombs then o.tombs else o.tombs[k := recordVersion])
    else o
  }

  /** Whether an eviction of k guarded by a version goes through. */
  predicate Evictable(o: Overlay, db: Store, k: Key, guard: nat, now: nat) {
    var r := Read(o, db, k, now);
    r.Found? && r.version <= guard
  }

  function EvictableKeys(o: Overlay, db: Store, keys: set<Key>, guard: nat, now: nat): set<Key> {
    set k | k in keys && Evictable(o, db, k, guard, now)
  }

  function ExpiredKeys(o: Overlay, keys: set<Key>, now: nat): set<Key> {
    set k | k in keys && k in o.data && Expired(o.data[k], now)
  }

  /** Evicting a set of keys treats each key on its own: an evictable key leaves no trace in the
      overlay, an expired one only loses its entry, every other key stays. */
  function Evicted(o: Overlay, db: Store, keys: set<Key>, guard: nat, now: nat): Overlay {
    var gone := EvictableKeys(o, db, keys, guard, now);
    Overlay(o.data - (gone + ExpiredKeys(o, keys, now)), o.metas - gone, o.tombs - gone)
  }

  function ReadMeta(o: Overlay, db: Store, k: Key): MetaResult {
    if k in o.data then
      var e := o.data[k];
      MetaFound(e.version, e.ttl, e.deadline, e.updateTime, if k in o.metas then o.metas[k] else NO_META)
    else DbReadMeta(db, k)
  }

  function Applied(o: Overlay, e: Event): Overlay {
    match e
    case Write(k, entry, meta, noop) => if noop then o else Written(o, k, entry, meta)
    case Delete(k, version, _) => Deleted(o, k, version)
  }

  // ----- the store itself

  class InMemoryKVStore {
    var data: map<Key, Entry>
    var metas: map<Key, UserMeta>
    var tombs: map<Key, nat>

    function Contents(): Overlay
      reads this
    {
      Overlay(data, metas, tombs)
    }

    constructor ()
      ensures Contents() == EMPTY
    {
      data, metas, tombs := map[], map[], map[];
    }

    method WriteKV(key: Key, value: Value, version: nat, updateTime: nat, meta: UserMeta)
      modifies this
      ensures Contents() == Written(old(Contents()), key, Entry(value, version, INFINITE_TTL, 0, updateTime), meta)
    {
      WriteTTLKV(key, value, version, INFINITE_TTL, 0, updateTime, meta);
    }

    method WriteTTLKV(key: Key, value: Value, version: nat, ttl: nat, deadline: nat, updateTime: nat, meta: UserMeta)
      modifies this
      ensures Contents() == Written(old(Contents()), key, Entry(value, version, ttl, deadline, updateTime), meta)
    {
      data := data[key := Entry(value, version, ttl, deadline, updateTime)];
      if meta.uints != [] || meta.strs != [] {
        metas := metas[key := meta];
      }
      tombs := tombs - {key};
    }

    method ReadKV(db: Store, key: Key, now: nat) returns (r: ReadResult)
      modifies this
      ensures r == Read(old(Contents()), db, key, now)
      ensures Contents() == AfterRead(old(Contents()), key, now)
    {
      if key !in data {
        if key in tombs {
          return NotFound(tombs[key]);
        }
        return DbRead(db, key, now);
      }
      if Expired(data[key], now) {
        data := data - {key};
        return NotFound(INVALID_VERSION);
      }
      return Found(data[key].value, data[key].version, data[key].ttl);
    }

    method DeleteKV(key: Key, recordVersion: nat)
      modifies this
      ensures Contents() == Deleted(old(Contents()), key, recordVersion)
    {
      if key in data {
        data := data - {key};
        metas := metas - {key};
        if key !in tombs {
          tombs := tombs[key := recordVersion];
        }
      }
    }

    method EvictKV(db: Store, keys: set<Key>, guard: nat, now: nat)
      modifies this
      ensures Contents() == Evicted(old(Contents()), db, keys, guard, now)
    {
      ghost var before := Contents();
      ghost var done: set<Key> := {};
      EvictNothing(before, db, guard, now);
      var todo := keys;
      while todo != {}
        invariant done !! todo && done + todo == keys
        invariant Contents() == Evicted(before, db, done, guard, now)
        decreases |todo|
      {
        var key :| key in todo;
        EvictOneMore(before, db, done, key, guard, now);
        EvictOneKey(db, key, guard, now);
        todo, done := todo - {key}, done + {key};
      }
      assert done == keys;
    }

    /** One round of the loop above. */
    method EvictOneKey(db: Store, key: Key, guard: nat, now: nat)
      modifies this
      ensures Contents() == Evicted(old(Contents()), db, {key}, guard, now)
    {
      ghost var o := Contents();
      var r := ReadKV(db, key, now);
      if r.Found? && r.version <= guard {
        data := data - {key};
        metas := metas - {key};
        tombs := tombs - {key};
      }
      assert EvictableKeys(o, db, {key}, guard, now) == if r.Found? && r.version <= guard then {key} else {};
      assert ExpiredKeys(o, {key}, now) == if key in o.data && Expired(o.data[key], now) then {key} else {};
      assert data == o.data - (EvictableKeys(o, db, {key}, guard, now) + ExpiredKeys(o, {key}, now));
      assert metas == o.metas - EvictableKeys(o, db, {key}, guard, now);
      assert tombs == o.tombs - EvictableKeys(o, db, {key}, guard, now);
    }

    method Clear()
      modifies this
      ensures Contents() == EMPTY
    {
      data, metas, tombs := map[], map[], map[];
    }
  }

  lemma EvictNothing(o: Overlay, db: Store, guard: nat, now: nat)
    ensures Evicted(o, db, {}, guard, now) == o
  {
    assert EvictableKeys(o, db, {}, guard, now) == {} == ExpiredKeys(o, {}, now);
    assert o.data - {} == o.data && o.metas - {} == o.metas && o.tombs - {} == o.tombs;
  }

  /** Evicting one key after others is evicting them together. */
  lemma EvictOneMore(o: Overlay, db: Store, keys: set<Key>, k: Key, guard: nat, now: nat)
    requires k !in keys
    ensures
      var mid := Evicted(o, db, keys, guard, now);
      Evicted(o, db, keys + {k}, guard, now) == Evicted(mid, db, {k}, guard, now)
  {
    var mid := Evicted(o, db, keys, guard, now);
    assert Read(mid, db, k, now) == Read(o, db, k, now);
    var gone, dead := EvictableKeys(o, db, keys, guard, now), ExpiredKeys(o, keys, now);
    var gone', dead' := EvictableKeys(mid, db, {k}, guard, now), ExpiredKeys(mid, {k}, now);
    assert EvictableKeys(o, db, keys + {k}, guard, now) == gone + gone';
    assert ExpiredKeys(o, keys + {k}, now) == dead + dead';
    SubtractTwice(o.metas, gone, gone');
    SubtractTwice(o.tombs, gone, gone');
    SubtractTwice(o.data, gone + dead, gone' + dead');
    assert (gone + gone') + (dead + dead') == (gone + dead) + (gone' + dead');
  }

  lemma SubtractTwice<V>(m: map<Key, V>, a: set<Key>, b: set<Key>)
    ensures m - a - b == m - (a + b)
  {
    assert (m - a - b).Keys == (m - (a + b)).Keys;
  }

  // ----- where the overlay departs from what was written

  /** The user meta read back after a write is the one written exactly when it is non-empty or the
      overlay held none for the key: an empty meta does not clear an older one. */
  lemma MetaReadBackIff(o: Overlay, db: Store, k: Key, e: Entry, meta: UserMeta)
    requires forall x :: x in o.metas ==> o.metas[x] != NO_META
    ensures ReadMeta(Written(o, k, e, meta), db, k) == MetaFound(e.version, e.ttl, e.deadline, e.updateTime, meta)
       <==> meta != NO_META || k !in o.metas
  {
  }

  /** After a read has dropped an expired entry, a key still reads as missing exactly when the
      persistent store has no live record for it. */
  lemma ExpiredReadStaysMissingIff(o: Overlay, db: Store, k: Key, now: nat)
    requires k in o.data && Expired(o.data[k], now) && k !in o.tombs
    ensures Read(o, db, k, now).NotFound?
    ensures Read(AfterRead(o, k, now), db, k, now).NotFound? <==> k !in db || Expired(db[k].entry, now)
  {
  }

  /** A miss on a tombstone still reads the meta of the record the delete has yet to remove below. */
  lemma MetaSurvivesDelete(o: Overlay, db: Store, k: Key, recordVersion: nat)
    requires k in o.data && k !in o.tombs && k in db
    ensures Read(Deleted(o, k, recordVersion), db, k, 0) == NotFound(recordVersion)
    ensures ReadMeta(Deleted(o, k, recordVersion), db, k) == DbReadMeta(db, k)
  {
  }

  // ----- what reads show

  /** A write reads back with its ttl until it expires, and touches no other key. */
  lemma WriteReadsBack(o: Overlay, db: Store, k: Key, e: Entry, meta: UserMeta, j: Key, now: nat)
    ensures Read(Written(o, k, e, meta), db, k, now) ==
      if e.ttl == INFINITE_TTL || now < e.deadline then Found(e.value, e.version, e.ttl) else NotFound(INVALID_VERSION)
    ensures j != k ==> Read(Written(o, k, e, meta), db, j, now) == Read(o, db, j, now)
    ensures j != k ==> ReadMeta(Written(o, k, e, meta), db, j) == ReadMeta(o, db, j)
  {
  }

  /** What is not cached shows as it was stored below, with the meta it was stored with. */
  lemma StoredReadsBack(db: Store, k: Key, e: Entry, meta: UserMeta, now: nat)
    ensures var db' := ApplyEvent(db, Write(k, e, meta, false));
      && DbReadMeta(db', k) == MetaFound(e.version, e.ttl, e.deadline, e.updateTime, meta)
      && DbRead(db', k, now) == if e.ttl == INFINITE_TTL || now < e.deadline
                                then Found(e.value, e.version, INFINITE_TTL) else NotFound(INVALID_VERSION)
    ensures DbReadMeta(ApplyEvent(db, Delete(k, e.version, 0)), k) == MetaNotFound
  {
  }

  /** The meta that a put without one shows. */
  function MetaAfterPut(o: Overlay, db: Store, k: Key, e: Entry): UserMeta {
    ReadMeta(Written(o, k, e, NO_META), db, k).meta
  }

  /** A key loses its meta when it is deleted while cached, and when an eviction goes through. Not when its entry only
      expires, nor when it is deleted without being cached: a later put without meta then shows the old one. */
  lemma MetaIsLostIff(o: Overlay, db: Store, k: Key, e: Entry, v: nat, keys: set<Key>, guard: nat, now: nat)
    requires forall x :: x in o.metas ==> o.metas[x] != NO_META
    ensures MetaAfterPut(Deleted(o, k, v), db, k, e) == NO_META <==> k in o.data || k !in o.metas
    ensures MetaAfterPut(AfterRead(o, k, now), db, k, e) == NO_META <==> k !in o.metas
    ensures MetaAfterPut(Evicted(o, db, keys, guard, now), db, k, e) == NO_META <==>
      (k in keys && Read(o, db, k, now).Found? && Read(o, db, k, now).version <= guard) || k !in o.metas
  {
  }

  /** A key that an eviction drops is gone from all three maps. */
  lemma EvictionLeavesNoTrace(o: Overlay, db: Store, keys: set<Key>, guard: nat, now: nat, k: Key)
    requires k in keys && Read(o, db, k, now).Found? && Read(o, db, k, now).version <= guard
    ensures var o' := Evicted(o, db, keys, guard, now); k !in o'.data && k !in o'.metas && k !in o'.tombs
  {
  }

  /** An eviction changes nothing that reads of the keys it leaves alone show. */
  lemma EvictionSpares(o: Overlay, db: Store, keys: set<Key>, guard: nat, now: nat, k: Key)
    requires k !in keys || (Read(o, db, k, now).Found? && Read(o, db, k, now).version > guard)
    ensures Read(Evicted(o, db, keys, guard, now), db, k, now) == Read(o, db, k, now)
    ensures ReadMeta(Evicted(o, db, keys, guard, now), db, k) == ReadMeta(o, db, k)
  {
  }
}
