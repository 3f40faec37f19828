/** Keys, stored records, events and the replay of events into a key-value map. */
module Base {

  type Key = string
  type Value = string

  datatype Option<+T> = None | Some(value: T)

  /** A key written with this ttl never expires. */
  const INFINITE_TTL: nat := 0
  /** The version that no allocated write ever carries. */
  const INVALID_VERSION: nat := 0

  datatype UserMeta = UserMeta(uints: seq<nat>, strs: seq<string>)

  const NO_META: UserMeta := UserMeta([], [])

  datatype Entry = Entry(value: Value, version: nat, ttl: nat, deadline: nat, updateTime: nat)

  /** What the persistent store keeps under a key. */
  datatype Record = Record(entry: Entry, meta: UserMeta)

  type Store = map<Key, Record>

  datatype Event =
    | Write(key: Key, entry: Entry, meta: UserMeta, noop: bool)
    | Delete(key: Key, version: nat, deletedVersion: nat)

  predicate Expired(e: Entry, now: nat) {
    e.ttl != INFINITE_TTL && e.deadline <= now
  }

  function EventVersion(e: Event): nat {
    match e
    case Write(_, entry, _, _) => entry.version
    case Delete(_, version, _) => version
  }

  /** The version of a bundle is that of its first event. */
  function BundleVersion(es: seq<Event>): nat {
    if es == [] then INVALID_VERSION else EventVersion(es[0])
  }

  /** Every event has the version: a write in its entry, a delete as its own and not as the one it deletes. */
  predicate Carries(es: seq<Event>, v: nat) {
    forall i :: 0 <= i < |es| ==>
      match es[i]
      case Write(_, entry, _, _) => entry.version == v
      case Delete(_, version, _) => version == v
  }

  lemma CarriesBundleVersion(es: seq<Event>, v: nat)
    requires es != [] && Carries(es, v)
    ensures BundleVersion(es) == v
  {
    assert es[0].Write? || es[0].Delete?;
  }

  function Lookup<K, V>(m: map<K, V>, k: K): Option<V> {
    if k in m then Some(m[k]) else None
  }

  /** The effect of one event on the persistent map. */
  function ApplyEvent(m: Store, e: Event): Store {
    match e
    case Write(k, entry, meta, noop) => if noop then m else m[k := Record(entry, meta)]
    case Delete(k, _, _) => m - {k}
  }

  function Replay(es: seq<Event>, m: Store): Store {
    if es == [] then m else ApplyEvent(Replay(es[..|es| - 1], m), es[|es| - 1])
  }

  predicate Touches(e: Event, k: Key) {
    e.key == k && !(e.Write? && e.noop)
  }

  predicate TouchesAny(es: seq<Event>, k: Key) {
    exists i :: 0 <= i < |es| && Touches(es[i], k)
  }

  lemma {:induction false} ReplayAppend(a: seq<Event>, b: seq<Event>, m: Store)
    ensures Replay(a + b, m) == Replay(b, Replay(a, m))
  {
    if b == [] {
      assert a + b == a;
    } else {
      assert (a + b)[..|a + b| - 1] == a + b[..|b| - 1];
      ReplayAppend(a, b[..|b| - 1], m);
    }
  }

  /** A key that no event touches keeps what it had. */
  lemma {:induction false} ReplayUntouched(es: seq<Event>, m: Store, k: Key)
    requires !TouchesAny(es, k)
    ensures Lookup(Replay(es, m), k) == Lookup(m, k)
  {
    if es != [] {
      assert !Touches(es[|es| - 1], k);
      assert forall i :: 0 <= i < |es| - 1 ==> es[..|es| - 1][i] == es[i];
      ReplayUntouched(es[..|es| - 1], m, k);
    }
  }

  /** What a replay leaves under a touched key does not depend on where the replay started. */
  lemma {:induction false} ReplayForgets(es: seq<Event>, m: Store, m': Store, k: Key)
    requires TouchesAny(es, k) || Lookup(m, k) == Lookup(m', k)
    ensures Lookup(Replay(es, m), k) == Lookup(Replay(es, m'), k)
  {
    if es != [] {
      var front := es[..|es| - 1];
      if !Touches(es[|es| - 1], k) {
        if TouchesAny(es, k) {
          var i :| 0 <= i < |es| && Touches(es[i], k);
          assert front[i] == es[i];
        }
        ReplayForgets(front, m, m', k);
      }
    }
  }

  /** A record that a bundle leaves under a key it touches has the version of the bundle. */
  lemma {:induction false} ReplayRecord(es: seq<Event>, v: nat, m: Store, k: Key)
    requires Carries(es, v) && TouchesAny(es, k) && k in Replay(es, m)
    ensures Replay(es, m)[k].entry.version == v
  {
    var front, last := es[..|es| - 1], es[|es| - 1];
    if !Touches(last, k) {
      var i :| 0 <= i < |es| && Touches(es[i], k);
      assert front[i] == es[i];
      ReplayRecord(front, v, m, k);
    }
  }

  /** Applying part of a bundle and then the whole bundle again is the same as applying it once. */
  lemma ReplayRetry(es: seq<Event>, j: nat, m: Store)
    requires j <= |es|
    ensures Replay(es, Replay(es[..j], m)) == Replay(es, m)
  {
    var once, twice := Replay(es, m), Replay(es, Replay(es[..j], m));
    forall k: Key
      ensures Lookup(once, k) == Lookup(twice, k)
    {
      if !TouchesAny(es, k) {
        assert forall i :: 0 <= i < j ==> es[..j][i] == es[i];
        ReplayUntouched(es[..j], m, k);
      }
      ReplayForgets(es, m, Replay(es[..j], m), k);
    }
    SameLookups(once, twice);
  }

  lemma SameLookups<K, V>(m: map<K, V>, m': map<K, V>)
    requires forall k :: Lookup(m, k) == Lookup(m', k)
    ensures m == m'
  {
    forall k: K
      ensures k in m <==> k in m'
      ensures k in m ==> m[k] == m'[k]
    {
      assert Lookup(m, k) == Lookup(m', k);
    }
    assert m.Keys == m'.Keys;
  }
}
