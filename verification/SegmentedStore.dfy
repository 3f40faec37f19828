/** The overlay split by working set and segment, so that commands on different keys can lock different parts.
    It behaves as one plain overlay. */
module SegmentedStore {
  import opened Base
  import opened InMemoryStore
  import opened LockOrder

  /** For each working set, its segments. */
  type Parts = map<string, seq<Overlay>>

  ghost predicate Shaped(parts: Parts) {
    forall ws :: ws in parts ==> |parts[ws]| == CONCUR_LEVEL
  }

  function PartOf(parts: Parts, lay: Layout, k: Key): Overlay
    requires lay.workingSet(k) in parts && |parts[lay.workingSet(k)]| == CONCUR_LEVEL
  {
    parts[lay.workingSet(k)][SegmentOf(lay, k)]
  }

  function WithPart(parts: Parts, lay: Layout, k: Key, o: Overlay): Parts
    requires lay.workingSet(k) in parts && |parts[lay.workingSet(k)]| == CONCUR_LEVEL
  {
    parts[lay.workingSet(k) := parts[lay.workingSet(k)][SegmentOf(lay, k) := o]]
  }

  predicate Mentions(o: Overlay, k: Key) {
    k in o.data || k in o.metas || k in o.tombs
  }

  /** Two overlays hold the same about a key. */
  predicate SameOn(a: Overlay, b: Overlay, k: Key) {
    && Lookup(a.data, k) == Lookup(b.data, k) && Lookup(a.metas, k) == Lookup(b.metas, k)
    && Lookup(a.tombs, k) == Lookup(b.tombs, k)
  }

  /** Every key lives in its own segment only, and there as in the plain overlay o. */
  ghost predicate Splits(parts: Parts, lay: Layout, o: Overlay) {
    && Shaped(parts)
    && (forall ws, i, k | ws in parts && 0 <= i < CONCUR_LEVEL && Mentions(parts[ws][i], k) ::
          LockOf(lay, k) == (ws, i))
    && (forall k :: lay.workingSet(k) in parts ==> SameOn(PartOf(parts, lay, k), o, k))
    && (forall k :: Mentions(o, k) ==> lay.workingSet(k) in parts)
  }

  /** An operation on one key that leaves other keys alone can be done in the key's segment. */
  lemma SplitStep(parts: Parts, lay: Layout, o: Overlay, k: Key, part': Overlay, o': Overlay)
    requires Splits(parts, lay, o) && lay.workingSet(k) in parts
    requires SameOn(part', o', k)
    requires forall j :: j != k ==> SameOn(part', PartOf(parts, lay, k), j) && SameOn(o', o, j)
    ensures Splits(WithPart(parts, lay, k, part'), lay, o')
  {
    var parts' := WithPart(parts, lay, k, part');
    forall ws, i, j | ws in parts' && 0 <= i < CONCUR_LEVEL && Mentions(parts'[ws][i], j)
      ensures LockOf(lay, j) == (ws, i)
    {
      if j != k && (ws, i) == LockOf(lay, k) {
        assert SameOn(part', PartOf(parts, lay, k), j);
        assert Mentions(parts[ws][i], j);
      } else if (ws, i) != LockOf(lay, k) {
        assert Mentions(parts[ws][i], j);
      }
    }
    forall j | lay.workingSet(j) in parts'
      ensures SameOn(PartOf(parts', lay, j), o', j)
    {
      assert SameOn(PartOf(parts, lay, j), o, j);
      if j != k {
        assert SameOn(part', PartOf(parts, lay, k), j) && SameOn(o', o, j);
      }
    }
    forall j | Mentions(o', j)
      ensures lay.workingSet(j) in parts'
    {
      assert j != k ==> SameOn(o', o, j);
    }
  }

  lemma SingleKeyOps(a: Overlay, b: Overlay, db: Store, k: Key, now: nat)
    requires SameOn(a, b, k)
    ensures Read(a, db, k, now) == Read(b, db, k, now)
    ensures SameOn(AfterRead(a, k, now), AfterRead(b, k, now), k)
    ensures forall e, meta :: SameOn(Written(a, k, e, meta), Written(b, k, e, meta), k)
    ensures forall v :: SameOn(Deleted(a, k, v), Deleted(b, k, v), k)
  {
    assert Lookup(a.data, k) == Lookup(b.data, k);
  }

  lemma SingleKeyEvict(a: Overlay, b: Overlay, db: Store, k: Key, guard: nat, now: nat)
    requires SameOn(a, b, k)
    ensures SameOn(Evicted(a, db, {k}, guard, now), Evicted(b, db, {k}, guard, now), k)
  {
    SingleKeyOps(a, b, db, k, now);
    assert Evictable(a, db, k, guard, now) == Evictable(b, db, k, guard, now);
  }

  predicate AllKnown(names: set<string>, lay: Layout, keys: set<Key>) {
    forall k :: k in keys ==> lay.workingSet(k) in names
  }

  lemma NothingLeft(keys: set<Key>)
    ensures keys - keys == {} && keys - {} == keys
  {
  }

  lemma OneLess(keys: set<Key>, todo: set<Key>, k: Key)
    requires todo <= keys && k in todo
    ensures keys - (todo - {k}) == (keys - todo) + {k} && todo - {k} <= keys && k !in keys - todo
  {
  }

  class WSConcurInMemoryKVStore {
    var parts: Parts
    const layout: Layout
    const names: set<string>
    ghost var contents: Overlay

    ghost predicate Valid()
      reads this
    {
      parts.Keys == names && Splits(parts, layout, contents)
    }

    constructor (names: set<string>, layout: Layout)
      ensures Valid() && contents == EMPTY && this.layout == layout && this.names == names
    {
      this.layout, this.names := layout, names;
      parts := map ws | ws in names :: seq(CONCUR_LEVEL, _ => EMPTY);
      contents := EMPTY;
    }

    method WriteTTLKV(k: Key, e: Entry, meta: UserMeta)
      requires Valid() && layout.workingSet(k) in names
      modifies this
      ensures Valid()
      ensures contents == Written(old(contents), k, e, meta)
    {
      var part := PartOf(parts, layout, k);
      SingleKeyOps(part, contents, map[], k, 0);
      SplitStep(parts, layout, contents, k, Written(part, k, e, meta), Written(contents, k, e, meta));
      parts := WithPart(parts, layout, k, Written(part, k, e, meta));
      contents := Written(contents, k, e, meta);
    }

    method ReadKV(db: Store, k: Key, now: nat) returns (r: ReadResult)
      requires Valid() && layout.workingSet(k) in names
      modifies this
      ensures Valid()
      ensures r == Read(old(contents), db, k, now) && contents == AfterRead(old(contents), k, now)
    {
      var part := PartOf(parts, layout, k);
      SingleKeyOps(part, contents, db, k, now);
      SplitStep(parts, layout, contents, k, AfterRead(part, k, now), AfterRead(contents, k, now));
      r := Read(part, db, k, now);
      parts := WithPart(parts, layout, k, AfterRead(part, k, now));
      contents := AfterRead(contents, k, now);
    }

    method DeleteKV(k: Key, recordVersion: nat)
      requires Valid() && layout.workingSet(k) in names
      modifies this
      ensures Valid()
      ensures contents == Deleted(old(contents), k, recordVersion)
    {
      var part := PartOf(parts, layout, k);
      SingleKeyOps(part, contents, map[], k, 0);
      SplitStep(parts, layout, contents, k, Deleted(part, k, recordVersion), Deleted(contents, k, recordVersion));
      parts := WithPart(parts, layout, k, Deleted(part, k, recordVersion));
      contents := Deleted(contents, k, recordVersion);
    }

    /** Evicts key by key, each in its own segment. */
    method EvictKV(db: Store, keys: set<Key>, guard: nat, now: nat)
      requires Valid() && AllKnown(names, layout, keys)
      modifies this
      ensures Valid()
      ensures contents == Evicted(old(contents), db, keys, guard, now)
    {
      ghost var before := contents;
      EvictNothing(before, db, guard, now);
      NothingLeft(keys);
      var todo := keys;
      while todo != {}
        invariant todo <= keys
        invariant Valid()
        invariant contents == Evicted(before, db, keys - todo, guard, now)
        decreases |todo|
      {
        var k :| k in todo;
        OneLess(keys, todo, k);
        EvictOne(db, k, guard, now, before, keys - todo);
        todo := todo - {k};
      }
      NothingLeft(keys);
    }

    method EvictOne(db: Store, k: Key, guard: nat, now: nat, ghost before: Overlay, ghost done: set<Key>)
      requires Valid() && layout.workingSet(k) in names && k !in done
      requires contents == Evicted(before, db, done, guard, now)
      modifies this
      ensures Valid()
      ensures contents == Evicted(before, db, done + {k}, guard, now)
    {
      EvictOneMore(before, db, done, k, guard, now);
      var part := PartOf(parts, layout, k);
      SingleKeyEvict(part, contents, db, k, guard, now);
      SplitStep(parts, layout, contents, k, Evicted(part, db, {k}, guard, now), Evicted(contents, db, {k}, guard, now));
      parts := WithPart(parts, layout, k, Evicted(part, db, {k}, guard, now));
      contents := Evicted(contents, db, {k}, guard, now);
    }

    method Clear()
      requires Valid()
      modifies this
      ensures Valid() && contents == EMPTY
    {
      parts := map ws | ws in parts :: seq(CONCUR_LEVEL, _ => EMPTY);
      contents := EMPTY;
    }
  }

  // ----- the split store against the plain one

  datatype Op =
    | WriteOp(key: Key, entry: Entry, meta: UserMeta)
    | ReadOp(key: Key)
    | DeleteOp(key: Key, version: nat)
    | EvictOp(keys: set<Key>, guard: nat)
    | ClearOp

  predicate Known(names: set<string>, lay: Layout, op: Op) {
    match op
    case EvictOp(keys, _) => AllKnown(names, lay, keys)
    case ClearOp => true
    case _ => lay.workingSet(op.key) in names
  }

  /** One operation, at a time and over a persistent store of its own. */
  datatype Call = Call(op: Op, db: Store, now: nat)

  method RunPlain(s: InMemoryKVStore, c: Call) returns (r: Option<ReadResult>)
    modifies s
    ensures s.Contents() == After(old(s.Contents()), c) && r == Answer(old(s.Contents()), c)
  {
    r := None;
    match c.op
    case WriteOp(k, e, meta) => s.WriteTTLKV(k, e.value, e.version, e.ttl, e.deadline, e.updateTime, meta);
    case ReadOp(k) =>
      var x := s.ReadKV(c.db, k, c.now);
      r := Some(x);
    case DeleteOp(k, v) => s.DeleteKV(k, v);
    case EvictOp(keys, g) => s.EvictKV(c.db, keys, g, c.now);
    case ClearOp => s.Clear();
  }

  method RunSplit(s: WSConcurInMemoryKVStore, c: Call) returns (r: Option<ReadResult>)
    requires s.Valid() && Known(s.names, s.layout, c.op)
    modifies s
    ensures s.Valid()
    ensures s.contents == After(old(s.contents), c) && r == Answer(old(s.contents), c)
  {
    r := None;
    match c.op
    case WriteOp(k, e, meta) => s.WriteTTLKV(k, e, meta);
    case ReadOp(k) =>
      var x := s.ReadKV(c.db, k, c.now);
      r := Some(x);
    case DeleteOp(k, v) => s.DeleteKV(k, v);
    case EvictOp(keys, g) => s.EvictKV(c.db, keys, g, c.now);
    case ClearOp => s.Clear();
  }

  function After(o: Overlay, c: Call): Overlay {
    match c.op
    case WriteOp(k, e, meta) => Written(o, k, e, meta)
    case ReadOp(k) => AfterRead(o, k, c.now)
    case DeleteOp(k, v) => Deleted(o, k, v)
    case EvictOp(keys, g) => Evicted(o, c.db, keys, g, c.now)
    case ClearOp => EMPTY
  }

  function Answer(o: Overlay, c: Call): Option<ReadResult> {
    if c.op.ReadOp? then Some(Read(o, c.db, c.op.key, c.now)) else None
  }

  method RunOnBoth(a: InMemoryKVStore, b: WSConcurInMemoryKVStore, c: Call)
    returns (x: Option<ReadResult>, y: Option<ReadResult>)
    requires b.Valid() && Known(b.names, b.layout, c.op) && a.Contents() == b.contents
    modifies a, b
    ensures b.Valid() && a.Contents() == b.contents == After(old(b.contents), c)
    ensures x == y == Answer(old(b.contents), c)
  {
    x := RunPlain(a, c);
    y := RunSplit(b, c);
  }

  /** What a plain overlay answers to a sequence of operations. */
  function Answers(o: Overlay, calls: seq<Call>): seq<Option<ReadResult>>
    decreases |calls|
  {
    if calls == [] then [] else [Answer(o, calls[0])] + Answers(After(o, calls[0]), calls[1..])
  }

  lemma OneMoreAnswer(done: seq<Option<ReadResult>>, o: Overlay, calls: seq<Call>, i: nat)
    requires i < |calls|
    ensures done + Answers(o, calls[i..]) == done + [Answer(o, calls[i])] + Answers(After(o, calls[i]), calls[i + 1..])
  {
    assert calls[i..][0] == calls[i] && calls[i..][1..] == calls[i + 1..];
  }

  /** Any sequence of operations, over any persistent stores at any times, gets the same answers from both. */
  method RunBoth(names: set<string>, layout: Layout, calls: seq<Call>)
    returns (plain: seq<Option<ReadResult>>, split: seq<Option<ReadResult>>)
    requires forall i :: 0 <= i < |calls| ==> Known(names, layout, calls[i].op)
    ensures plain == split == Answers(EMPTY, calls)
  {
    var a := new InMemoryKVStore();
    var b := new WSConcurInMemoryKVStore(names, layout);
    plain, split := [], [];
    assert calls[0..] == calls && [] + Answers(EMPTY, calls) == Answers(EMPTY, calls);
    for i := 0 to |calls|
      invariant b.Valid() && b.layout == layout && b.names == names
      invariant a.Contents() == b.contents
      invariant plain == split && plain + Answers(b.contents, calls[i..]) == Answers(EMPTY, calls)
    {
      OneMoreAnswer(plain, b.contents, calls, i);
      var x, y := RunOnBoth(a, b, calls[i]);
      plain, split := plain + [x], split + [y];
    }
  }
}
