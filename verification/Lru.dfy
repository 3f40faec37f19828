/** The least-recently-used list that decides which cached keys are proposed for eviction. */
module Lru {
  import opened Base

  const WORD: int := 0x1_0000_0000_0000_0000

  /** Sizes and the usage counter are 64-bit unsigned numbers. */
  type Word = x: int | 0 <= x < WORD

  /** Evicts above `optimal`, collects at most `maxBatch` keys and submits at least `minBatch`. */
  datatype Limits = Limits(optimal: nat, minBatch: nat, maxBatch: nat)

  datatype Cache = Cache(used: seq<Key>, sizes: map<Key, Word>, usage: Word, pending: set<Key>)

  const EMPTY := Cache([], map[], 0, {})

  function Plus(a: Word, b: Word): Word {
    if a + b < WORD then a + b else a + b - WORD
  }

  function Minus(a: Word, b: Word): Word {
    if a >= b then a - b else a - b + WORD
  }

  function IndexOf(used: seq<Key>, k: Key): (i: nat)
    requires k in used
    ensures i < |used| && used[i] == k
  {
    if used[0] == k then 0 else 1 + IndexOf(used[1..], k)
  }

  /** Without the element at a position. */
  function Erased(used: seq<Key>, i: nat): seq<Key>
    requires i < |used|
  {
    used[..i] + used[i + 1..]
  }

  /** A cached key moves to the front. */
  function ToFront(used: seq<Key>, k: Key): seq<Key> {
    [k] + if k in used then Erased(used, IndexOf(used, k)) else used
  }

  // ----- the operations

  function Touched(c: Cache, k: Key): Cache {
    if k in c.sizes then c.(used := ToFront(c.used, k)) else c
  }

  /** The first half of a write: a cached key moves to the front, a new one is put there. */
  function Stored(c: Cache, k: Key, size: Word): Cache {
    var usage := Plus(c.usage, size);
    if k in c.sizes
    then Cache(ToFront(c.used, k), c.sizes[k := size], Minus(usage, size), c.pending)
    else Cache([k] + c.used, c.sizes[k := size], usage, c.pending)
  }

  predicate Sheds(c: Cache, lim: Limits) {
    c.usage > 0 && c.used != [] && |c.pending| < lim.maxBatch
  }

  function SizeOf(sizes: map<Key, Word>, k: Key): Word {
    if k in sizes then sizes[k] else 0
  }

  function ShedOne(c: Cache): Cache
    requires c.used != []
  {
    var k := c.used[|c.used| - 1];
    Cache(c.used[..|c.used| - 1], c.sizes - {k}, Minus(c.usage, SizeOf(c.sizes, k)), c.pending + {k})
  }

  function Shed(c: Cache, lim: Limits): Cache
    decreases |c.used|
  {
    if Sheds(c, lim) then Shed(ShedOne(c), lim) else c
  }

  /** A full enough batch is submitted and forgotten. */
  function Flushed(c: Cache, lim: Limits): Cache {
    if |c.pending| >= lim.minBatch then c.(pending := {}) else c
  }

  function Batch(c: Cache, lim: Limits): seq<set<Key>> {
    if |c.pending| >= lim.minBatch then [c.pending] else []
  }

  /** The second half of a write. */
  function Trimmed(c: Cache, lim: Limits): Cache {
    if c.usage > lim.optimal then Flushed(Shed(c, lim), lim) else c
  }

  function Written(c: Cache, lim: Limits, k: Key, size: Word): Cache {
    Trimmed(Stored(c, k, size), lim)
  }

  function TrimmedBatch(c: Cache, lim: Limits): seq<set<Key>> {
    if c.usage > lim.optimal then Batch(Shed(c, lim), lim) else []
  }

  /** The batches that a write submits: at most one. */
  function Submitted(c: Cache, lim: Limits, k: Key, size: Word): seq<set<Key>> {
    TrimmedBatch(Stored(c, k, size), lim)
  }

  // ----- the class

  class LRUEviction {
    const lim: Limits
    var used: seq<Key>
    var sizes: map<Key, Word>
    var usage: Word
    var pending: set<Key>

    function Contents(): Cache
      reads this
    {
      Cache(used, sizes, usage, pending)
    }

    constructor (optimal: nat, minBatch: nat, maxBatch: nat)
      ensures Contents() == EMPTY && lim == Limits(optimal, minBatch, maxBatch)
    {
      lim := Limits(optimal, minBatch, maxBatch);
      used, sizes, usage, pending := [], map[], 0, {};
    }

    method MaybeSubmitEvictCommand() returns (batches: seq<set<Key>>)
      modifies this
      ensures Contents() == Flushed(old(Contents()), lim) && batches == Batch(old(Contents()), lim)
    {
      batches := [];
      if |pending| >= lim.minBatch {
        batches := [pending];
        pending := {};
      }
    }

    method OnReadValue(key: Key)
      modifies this
      ensures Contents() == Touched(old(Contents()), key)
    {
      if key in sizes {
        used := ToFront(used, key);
      }
    }

    method OnWriteValue(key: Key, size: Word) returns (batches: seq<set<Key>>)
      modifies this
      ensures Contents() == Written(old(Contents()), lim, key, size)
      ensures batches == Submitted(old(Contents()), lim, key, size)
    {
      batches := [];
      usage := Plus(usage, size);
      if key in sizes {
        used := ToFront(used, key);
        sizes := sizes[key := size];
        usage := Minus(usage, sizes[key]);
      } else {
        used := [key] + used;
        sizes := sizes[key := size];
      }
      assert Contents() == Stored(old(Contents()), key, size);
      if usage > lim.optimal {
        ghost var stored := Contents();
        while usage > 0 && used != [] && |pending| < lim.maxBatch
          invariant Shed(Contents(), lim) == Shed(stored, lim)
          decreases |used|
        {
          ghost var before := Contents();
          var k := used[|used| - 1];
          var valueSize := SizeOf(sizes, k);
          sizes := sizes - {k};
          used := used[..|used| - 1];
          pending := pending + {k};
          usage := Minus(usage, valueSize);
          assert Contents() == ShedOne(before);
        }
        batches := MaybeSubmitEvictCommand();
      }
    }
  }

  // ----- recency

  /** When a key was last touched, or -1. */
  function LastTouch(h: seq<Key>, k: Key): (r: int)
    ensures -1 <= r < |h|
  {
    if h == [] then -1
    else if h[|h| - 1] == k then |h| - 1
    else LastTouch(h[..|h| - 1], k)
  }

  lemma TouchNow(h: seq<Key>, k: Key, j: Key)
    ensures LastTouch(h + [k], j) == if j == k then |h| else LastTouch(h, j)
  {
    assert (h + [k])[..|h + [k]| - 1] == h;
  }

  /** Most recently touched first; in particular no key twice. */
  ghost predicate Ordered(used: seq<Key>, h: seq<Key>) {
    && (forall i :: 0 <= i < |used| ==> LastTouch(h, used[i]) >= 0)
    && forall i, j :: 0 <= i < j < |used| ==> LastTouch(h, used[i]) > LastTouch(h, used[j])
  }

  ghost predicate InBoth(c: Cache, k: Key) {
    k in c.used <==> k in c.sizes
  }

  ghost predicate SameKeys(c: Cache) {
    forall k :: InBoth(c, k)
  }

  lemma OrderedErased(used: seq<Key>, i: nat, h: seq<Key>)
    requires i < |used| && Ordered(used, h)
    ensures Ordered(Erased(used, i), h) && used[i] !in Erased(used, i)
    ensures forall k :: k in Erased(used, i) || k == used[i] <==> k in used
  {
    var rest := Erased(used, i);
    assert forall j :: 0 <= j < |rest| ==> rest[j] == used[if j < i then j else j + 1];
    forall j | 0 <= j < |used| && j != i
      ensures used[j] in rest
    {
      assert rest[if j < i then j else j - 1] == used[j];
    }
  }

  lemma OrderedPushed(rest: seq<Key>, k: Key, h: seq<Key>)
    requires Ordered(rest, h) && k !in rest
    ensures Ordered([k] + rest, h + [k])
  {
    var used := [k] + rest;
    forall i | 0 <= i < |used|
      ensures LastTouch(h + [k], used[i]) == if i == 0 then |h| else LastTouch(h, rest[i - 1])
    {
      TouchNow(h, k, used[i]);
      assert i > 0 ==> used[i] == rest[i - 1];
    }
  }

  /** Touching a key keeps the order, and changes what is cached by at most that key. */
  lemma OrderedFront(used: seq<Key>, k: Key, h: seq<Key>)
    requires Ordered(used, h)
    ensures Ordered(ToFront(used, k), h + [k])
    ensures forall j :: j in ToFront(used, k) <==> j == k || j in used
  {
    if k in used {
      OrderedErased(used, IndexOf(used, k), h);
      OrderedPushed(Erased(used, IndexOf(used, k)), k, h);
    } else {
      OrderedPushed(used, k, h);
    }
  }

  lemma OrderedPrefix(used: seq<Key>, n: nat, h: seq<Key>)
    requires n <= |used| && Ordered(used, h)
    ensures Ordered(used[..n], h)
  {
  }

  // ----- what a write sheds

  ghost predicate Healthy(c: Cache, h: seq<Key>) {
    SameKeys(c) && Ordered(c.used, h)
  }

  lemma HealthyStored(c: Cache, k: Key, size: Word, h: seq<Key>)
    requires Healthy(c, h)
    ensures Healthy(Stored(c, k, size), h + [k])
  {
    OrderedFront(c.used, k, h);
    assert InBoth(c, k);
    forall j
      ensures InBoth(Stored(c, k, size), j)
    {
      assert InBoth(c, j);
    }
  }

  lemma HealthyShedOne(c: Cache, h: seq<Key>)
    requires Healthy(c, h) && c.used != []
    ensures Healthy(ShedOne(c), h)
  {
    var n := |c.used| - 1;
    OrderedPrefix(c.used, n, h);
    assert forall i :: 0 <= i < n ==> c.used[i] != c.used[n];
    assert c.used == c.used[..n] + [c.used[n]];
    forall k
      ensures InBoth(ShedOne(c), k)
    {
      assert InBoth(c, k);
    }
  }

  function KeySet(keys: seq<Key>): set<Key> {
    set k | k in keys
  }

  lemma {:induction false} ShedHealthy(c: Cache, lim: Limits, h: seq<Key>)
    requires Healthy(c, h)
    ensures Healthy(Shed(c, lim), h) && !Sheds(Shed(c, lim), lim)
    decreases |c.used|
  {
    if Sheds(c, lim) {
      HealthyShedOne(c, h);
      ShedHealthy(ShedOne(c), lim, h);
    }
  }

  lemma {:induction false} ShedSizes(c: Cache, lim: Limits, k: Key)
    requires k in Shed(c, lim).sizes
    ensures k in c.sizes && Shed(c, lim).sizes[k] == c.sizes[k]
    decreases |c.used|
  {
    if Sheds(c, lim) {
      ShedSizes(ShedOne(c), lim, k);
    }
  }

  /** `d` came from `c` by moving a suffix of the list to the batch. */
  ghost predicate IsSuffixMoved(c: Cache, d: Cache) {
    && |d.used| <= |c.used| && d.used == c.used[..|d.used|]
    && d.pending == c.pending + KeySet(c.used[|d.used|..])
  }

  lemma SuffixOneMore(c: Cache, d: Cache)
    requires c.used != [] && IsSuffixMoved(ShedOne(c), d)
    ensures IsSuffixMoved(c, d)
  {
    var n, last := |d.used|, |c.used| - 1;
    assert c.used[..last][..n] == c.used[..n];
    assert c.used[n..] == c.used[..last][n..] + [c.used[last]];
    assert KeySet(c.used[n..]) == {c.used[last]} + KeySet(c.used[..last][n..]);
  }

  /** Shedding takes a suffix of the list, that is the least recently touched keys, and adds it to the batch. */
  lemma {:induction false} ShedIsSuffix(c: Cache, lim: Limits)
    ensures IsSuffixMoved(c, Shed(c, lim))
    decreases |c.used|
  {
    if Sheds(c, lim) {
      ShedIsSuffix(ShedOne(c), lim);
      SuffixOneMore(c, Shed(c, lim));
    } else {
      assert c.used[|c.used|..] == [];
    }
  }

  /** The cache after its `n` least recently touched keys were shed one by one. */
  function ShedTimes(c: Cache, n: nat): Cache
    requires n <= |c.used|
    decreases n
  {
    if n == 0 then c else ShedTimes(ShedOne(c), n - 1)
  }

  /** Shedding goes on as long as the counter is above zero and the batch has room, far below the optimum, and stops
      only when the counter is zero, the list is empty or the batch is full. */
  lemma {:induction false} ShedRunsUntil(c: Cache, lim: Limits) returns (n: nat)
    ensures n <= |c.used| && Shed(c, lim) == ShedTimes(c, n)
    ensures forall m :: 0 <= m < n ==> ShedTimes(c, m).usage > 0 && |ShedTimes(c, m).pending| < lim.maxBatch
    ensures Shed(c, lim).usage == 0 || Shed(c, lim).used == [] || |Shed(c, lim).pending| >= lim.maxBatch
    decreases |c.used|
  {
    n := 0;
    if Sheds(c, lim) {
      var rest := ShedRunsUntil(ShedOne(c), lim);
      n := rest + 1;
      forall m | 0 <= m < n
        ensures ShedTimes(c, m).usage > 0 && |ShedTimes(c, m).pending| < lim.maxBatch
      {
        if m > 0 {
          assert ShedTimes(c, m) == ShedTimes(ShedOne(c), m - 1);
        }
      }
    }
  }

  /** A write that leaves the counter at or below the optimum sheds and submits nothing. One that takes it above sheds
      until the counter is zero, the list empty or a batch full. */
  lemma WriteShedsIff(c: Cache, lim: Limits, k: Key, size: Word)
    ensures var stored, c', out := Stored(c, k, size), Written(c, lim, k, size), Submitted(c, lim, k, size);
      if stored.usage <= lim.optimal then c' == stored && out == []
      else
        || c'.usage == 0 || c'.used == [] || |c'.pending| >= lim.maxBatch
        || (|out| == 1 && |out[0]| >= lim.maxBatch)
  {
    var n := ShedRunsUntil(Stored(c, k, size), lim);
  }

  lemma FoundAfter(used: seq<Key>, n: nat, gone: Key) returns (j: nat)
    requires n <= |used| && gone in used && gone !in used[..n]
    ensures n <= j < |used| && used[j] == gone && gone in used[n..]
  {
    assert used == used[..n] + used[n..];
    assert gone in used[n..];
    var i :| 0 <= i < |used[n..]| && used[n..][i] == gone;
    j := n + i;
  }

  lemma SuffixIsLessRecent(used: seq<Key>, n: nat, h: seq<Key>, kept: Key, gone: Key)
    requires n <= |used| && Ordered(used, h) && kept in used[..n] && gone in used && gone !in used[..n]
    ensures LastTouch(h, kept) > LastTouch(h, gone) && gone in used[n..]
  {
    var i :| 0 <= i < n && used[..n][i] == kept;
    var j := FoundAfter(used, n, gone);
    assert used[i] == kept;
  }

  /** Every key that stays was touched after every key that goes. */
  lemma ShedAreLeastRecent(c: Cache, lim: Limits, h: seq<Key>, kept: Key, gone: Key)
    requires Healthy(c, h)
    requires kept in Shed(c, lim).sizes && gone in c.sizes && gone !in Shed(c, lim).sizes
    ensures LastTouch(h, kept) > LastTouch(h, gone) && gone in Shed(c, lim).pending
  {
    ShedIsSuffix(c, lim);
    ShedHealthy(c, lim, h);
    assert InBoth(c, gone) && InBoth(Shed(c, lim), gone) && InBoth(Shed(c, lim), kept);
    SuffixIsLessRecent(c.used, |Shed(c, lim).used|, h, kept, gone);
  }

  // ----- the usage counter

  function Total(keys: seq<Key>, sizes: map<Key, Word>): nat {
    if keys == [] then 0 else Total(keys[..|keys| - 1], sizes) + SizeOf(sizes, keys[|keys| - 1])
  }

  lemma {:induction false} TotalSame(keys: seq<Key>, sizes: map<Key, Word>, sizes': map<Key, Word>)
    requires forall i :: 0 <= i < |keys| ==> SizeOf(sizes, keys[i]) == SizeOf(sizes', keys[i])
    ensures Total(keys, sizes) == Total(keys, sizes')
  {
    if keys != [] {
      TotalSame(keys[..|keys| - 1], sizes, sizes');
    }
  }

  lemma {:induction false} TotalConcat(a: seq<Key>, b: seq<Key>, sizes: map<Key, Word>)
    ensures Total(a + b, sizes) == Total(a, sizes) + Total(b, sizes)
  {
    if b == [] {
      assert a + b == a;
    } else {
      assert (a + b)[..|a + b| - 1] == a + b[..|b| - 1];
      TotalConcat(a, b[..|b| - 1], sizes);
    }
  }

  lemma TotalOne(k: Key, sizes: map<Key, Word>)
    ensures Total([k], sizes) == SizeOf(sizes, k)
  {
    assert [k][..0] == [];
  }

  lemma TotalErased(used: seq<Key>, i: nat, sizes: map<Key, Word>)
    requires i < |used|
    ensures Total(used, sizes) == Total(Erased(used, i), sizes) + SizeOf(sizes, used[i])
  {
    assert used == (used[..i] + [used[i]]) + used[i + 1..];
    TotalConcat(used[..i] + [used[i]], used[i + 1..], sizes);
    TotalConcat(used[..i], [used[i]], sizes);
    TotalConcat(used[..i], used[i + 1..], sizes);
    TotalOne(used[i], sizes);
  }

  /** Storing a key replaces its share of the total. */
  lemma TotalPushed(rest: seq<Key>, k: Key, sizes: map<Key, Word>, size: Word)
    requires k !in rest
    ensures Total([k] + rest, sizes[k := size]) == Total(rest, sizes) + size
  {
    TotalConcat([k], rest, sizes[k := size]);
    TotalOne(k, sizes[k := size]);
    TotalSame(rest, sizes, sizes[k := size]);
  }

  lemma TotalStored(c: Cache, k: Key, size: Word, h: seq<Key>)
    requires Healthy(c, h)
    ensures Total(Stored(c, k, size).used, Stored(c, k, size).sizes)
         == Total(c.used, c.sizes) - SizeOf(c.sizes, k) + size
  {
    assert InBoth(c, k);
    if k in c.sizes {
      var i := IndexOf(c.used, k);
      OrderedErased(c.used, i, h);
      TotalErased(c.used, i, c.sizes);
      TotalPushed(Erased(c.used, i), k, c.sizes, size);
    } else {
      TotalPushed(c.used, k, c.sizes, size);
    }
  }

  lemma TotalShedOne(c: Cache, h: seq<Key>)
    requires Healthy(c, h) && c.used != []
    ensures Total(ShedOne(c).used, ShedOne(c).sizes)
         == Total(c.used, c.sizes) - SizeOf(c.sizes, c.used[|c.used| - 1])
  {
    var n := |c.used| - 1;
    assert forall i :: 0 <= i < n ==> c.used[i] != c.used[n];
    TotalSame(c.used[..n], c.sizes, ShedOne(c).sizes);
  }

  /** How far the counter is from the total of the cached sizes. */
  function Gap(c: Cache): int {
    c.usage - Total(c.used, c.sizes)
  }

  ghost predicate Same(gap: int, slip: int, q: int) {
    gap == slip + q * WORD
  }

  /** Two numbers that are the same as 64-bit numbers. */
  ghost predicate SameWord(gap: int, slip: int) {
    exists q :: Same(gap, slip, q)
  }

  /** The counter reads the total of the cached sizes plus a slip, as 64-bit numbers. */
  ghost predicate Counts(c: Cache, slip: int) {
    SameWord(Gap(c), slip)
  }

  /** What a write with another size makes the counter lose. */
  function Slip(c: Cache, k: Key, size: Word): int {
    if k in c.sizes then c.sizes[k] - size else 0
  }

  lemma SameShift(gap: int, slip: int, more: int, w: int)
    requires SameWord(gap, slip)
    ensures SameWord(gap + more + w * WORD, slip + more)
  {
    var q :| Same(gap, slip, q);
    assert Same(gap + more + w * WORD, slip + more, q + w);
  }

  lemma StoredGap(c: Cache, k: Key, size: Word, h: seq<Key>) returns (w: int)
    requires Healthy(c, h)
    ensures Gap(Stored(c, k, size)) == Gap(c) + Slip(c, k, size) + w * WORD
  {
    TotalStored(c, k, size, h);
    w := if k in c.sizes || c.usage + size < WORD then 0 else -1;
  }

  lemma ShedOneGap(c: Cache, h: seq<Key>) returns (w: int)
    requires Healthy(c, h) && c.used != []
    ensures Gap(ShedOne(c)) == Gap(c) + w * WORD
  {
    TotalShedOne(c, h);
    w := if c.usage >= SizeOf(c.sizes, c.used[|c.used| - 1]) then 0 else 1;
  }

  lemma {:induction false} ShedGap(c: Cache, lim: Limits, h: seq<Key>) returns (w: int)
    requires Healthy(c, h)
    ensures Gap(Shed(c, lim)) == Gap(c) + w * WORD
    decreases |c.used|
  {
    w := 0;
    if Sheds(c, lim) {
      HealthyShedOne(c, h);
      w := ShedOneGap(c, h);
      var more := ShedGap(ShedOne(c), lim, h);
      w := w + more;
    }
  }

  lemma TrimmedGap(c: Cache, lim: Limits, h: seq<Key>) returns (w: int)
    requires Healthy(c, h)
    ensures Gap(Trimmed(c, lim)) == Gap(c) + w * WORD
  {
    w := 0;
    if c.usage > lim.optimal {
      w := ShedGap(c, lim, h);
      assert Gap(Flushed(Shed(c, lim), lim)) == Gap(Shed(c, lim));
    }
  }

  /** Apart from whole turns of the 64-bit counter, a write moves the gap by the old size of the key minus the new
      one if the key was cached, and not at all otherwise. */
  lemma WrittenGap(c: Cache, lim: Limits, k: Key, size: Word, h: seq<Key>) returns (w: int)
    requires Healthy(c, h)
    ensures Gap(Written(c, lim, k, size)) == Gap(c) + Slip(c, k, size) + w * WORD
  {
    w := StoredGap(c, k, size, h);
    HealthyStored(c, k, size, h);
    var more := TrimmedGap(Stored(c, k, size), lim, h + [k]);
    w := w + more;
  }

  lemma CountsWritten(c: Cache, lim: Limits, k: Key, size: Word, h: seq<Key>, slip: int)
    requires Healthy(c, h) && Counts(c, slip)
    ensures Counts(Written(c, lim, k, size), slip + Slip(c, k, size))
  {
    var w := WrittenGap(c, lim, k, size, h);
    SameShift(Gap(c), slip, Slip(c, k, size), w);
  }

  lemma SmallSlip(gap: int, slip: int)
    requires -WORD < slip < WORD && SameWord(gap, slip) && SameWord(gap, 0)
    ensures slip == 0
  {
    var p :| Same(gap, slip, p);
    var q :| Same(gap, 0, q);
    assert slip == (q - p) * WORD;
  }

  /** A counter that was right stays right exactly when the key was not cached or has the size it had. */
  lemma WriteKeepsCountIff(c: Cache, lim: Limits, k: Key, size: Word, h: seq<Key>)
    requires Healthy(c, h) && Counts(c, 0)
    ensures Counts(Written(c, lim, k, size), 0) <==> k !in c.sizes || c.sizes[k] == size
  {
    CountsWritten(c, lim, k, size, h, 0);
    if Counts(Written(c, lim, k, size), 0) {
      SmallSlip(Gap(Written(c, lim, k, size)), Slip(c, k, size));
    }
  }

  // ----- runs

  datatype Step = ReadValue(key: Key) | WriteValue(key: Key, size: Word)

  /** `history` is every touch, `slip` what writes with another size have made the counter lose. */
  datatype State = State(cache: Cache, history: seq<Key>, slip: int, batches: seq<set<Key>>)

  function Next(s: State, lim: Limits, st: Step): State {
    match st
    case ReadValue(k) =>
      State(Touched(s.cache, k), if k in s.cache.sizes then s.history + [k] else s.history, s.slip, s.batches)
    case WriteValue(k, size) =>
      State(Written(s.cache, lim, k, size), s.history + [k],
            s.slip + Slip(s.cache, k, size),
            s.batches + Submitted(s.cache, lim, k, size))
  }

  ghost predicate Bounded(pending: set<Key>, lim: Limits) {
    |pending| <= lim.maxBatch && (|pending| < lim.minBatch || pending == {})
  }

  ghost predicate Fits(batch: set<Key>, lim: Limits) {
    lim.minBatch <= |batch| <= lim.maxBatch
  }

  ghost predicate Inv(s: State, lim: Limits) {
    && Healthy(s.cache, s.history) && Counts(s.cache, s.slip) && Bounded(s.cache.pending, lim)
    && AllFit(s.batches, lim)
  }

  ghost predicate AllFit(batches: seq<set<Key>>, lim: Limits) {
    forall i :: 0 <= i < |batches| ==> Fits(batches[i], lim)
  }

  lemma {:induction false} ShedPending(c: Cache, lim: Limits)
    requires |c.pending| <= lim.maxBatch
    ensures |Shed(c, lim).pending| <= lim.maxBatch
    decreases |c.used|
  {
    if Sheds(c, lim) {
      ShedPending(ShedOne(c), lim);
    }
  }

  lemma CountsTouched(c: Cache, k: Key, h: seq<Key>, slip: int)
    requires Healthy(c, h) && Counts(c, slip)
    ensures Counts(Touched(c, k), slip)
  {
    var d := Touched(c, k);
    assert InBoth(c, k);
    if k in c.sizes {
      var i := IndexOf(c.used, k);
      TotalErased(c.used, i, c.sizes);
      TotalConcat([k], Erased(c.used, i), c.sizes);
      TotalOne(k, c.sizes);
    }
    assert Gap(d) == Gap(c);
  }

  lemma ReadKeepsInv(s: State, lim: Limits, k: Key)
    requires Inv(s, lim)
    ensures Inv(Next(s, lim, ReadValue(k)), lim)
  {
    CountsTouched(s.cache, k, s.history, s.slip);
    if k in s.cache.sizes {
      OrderedFront(s.cache.used, k, s.history);
      forall j
        ensures InBoth(Touched(s.cache, k), j)
      {
        assert InBoth(s.cache, j) && InBoth(s.cache, k);
      }
    }
  }

  lemma HealthyTrimmed(c: Cache, lim: Limits, h: seq<Key>)
    requires Healthy(c, h)
    ensures Healthy(Trimmed(c, lim), h)
  {
    ShedHealthy(c, lim, h);
    var d := Shed(c, lim);
    forall k
      ensures InBoth(Flushed(d, lim), k)
    {
      assert InBoth(d, k);
    }
  }

  lemma HealthyWritten(c: Cache, lim: Limits, k: Key, size: Word, h: seq<Key>)
    requires Healthy(c, h)
    ensures Healthy(Written(c, lim, k, size), h + [k])
  {
    HealthyStored(c, k, size, h);
    HealthyTrimmed(Stored(c, k, size), lim, h + [k]);
  }

  lemma TrimBatches(c: Cache, lim: Limits)
    requires Bounded(c.pending, lim)
    ensures Bounded(Trimmed(c, lim).pending, lim) && AllFit(TrimmedBatch(c, lim), lim)
  {
    ShedPending(c, lim);
  }

  lemma MoreBatches(batches: seq<set<Key>>, more: seq<set<Key>>, lim: Limits)
    requires AllFit(batches, lim) && AllFit(more, lim)
    ensures AllFit(batches + more, lim)
  {
  }

  lemma WriteKeepsInv(s: State, lim: Limits, k: Key, size: Word)
    requires Inv(s, lim)
    ensures Inv(Next(s, lim, WriteValue(k, size)), lim)
  {
    HealthyWritten(s.cache, lim, k, size, s.history);
    CountsWritten(s.cache, lim, k, size, s.history, s.slip);
    TrimBatches(Stored(s.cache, k, size), lim);
    MoreBatches(s.batches, Submitted(s.cache, lim, k, size), lim);
  }

  lemma StepKeepsInv(s: State, lim: Limits, st: Step)
    requires Inv(s, lim)
    ensures Inv(Next(s, lim, st), lim)
  {
    match st
    case ReadValue(k) =>
      ReadKeepsInv(s, lim, k);
    case WriteValue(k, size) =>
      WriteKeepsInv(s, lim, k, size);
  }

  const INITIAL := State(EMPTY, [], 0, [])

  lemma InitInv(lim: Limits)
    ensures Inv(INITIAL, lim)
  {
    assert Same(Gap(EMPTY), 0, 0);
  }

  ghost predicate IsRun(run: seq<State>, steps: seq<Step>, lim: Limits) {
    && |run| == |steps| + 1 && run[0] == INITIAL
    && forall i | 0 <= i < |steps| :: run[i + 1] == Next(run[i], lim, steps[i])
  }

  lemma {:induction false} RunInv(run: seq<State>, steps: seq<Step>, lim: Limits, i: nat)
    requires IsRun(run, steps, lim) && i < |run|
    ensures Inv(run[i], lim)
  {
    if i == 0 {
      InitInv(lim);
    } else {
      RunInv(run, steps, lim, i - 1);
      assert run[i] == Next(run[i - 1], lim, steps[i - 1]);
      StepKeepsInv(run[i - 1], lim, steps[i - 1]);
    }
  }

  /** After any run: the list holds exactly the cached keys, each once, most recently touched first; the batch is
      below the minimum; every batch that was submitted is within its bounds. */
  lemma ListIsRecency(run: seq<State>, steps: seq<Step>, lim: Limits, i: nat)
    requires IsRun(run, steps, lim) && i < |run|
    ensures SameKeys(run[i].cache) && Ordered(run[i].cache.used, run[i].history)
    ensures |run[i].cache.pending| < lim.minBatch || run[i].cache.pending == {}
    ensures AllFit(run[i].batches, lim)
  {
    RunInv(run, steps, lim, i);
  }

  ghost predicate InBatch(batches: seq<set<Key>>, k: Key) {
    exists j :: 0 <= j < |batches| && k in batches[j]
  }

  /** In any run, a key that a write makes leave the list was touched before every key that stays, and is in the
      batch that the write leaves pending or submits. */
  lemma LeavesLeastRecent(run: seq<State>, steps: seq<Step>, lim: Limits, i: nat, kept: Key, gone: Key)
    requires IsRun(run, steps, lim) && i < |steps| && steps[i].WriteValue?
    requires kept in run[i + 1].cache.sizes && gone !in run[i + 1].cache.sizes
    requires gone in run[i].cache.sizes || gone == steps[i].key
    ensures LastTouch(run[i + 1].history, kept) > LastTouch(run[i + 1].history, gone)
    ensures gone in run[i + 1].cache.pending || InBatch(run[i + 1].batches, gone)
  {
    RunInv(run, steps, lim, i);
    var s, k, size := run[i], steps[i].key, steps[i].size;
    assert run[i + 1] == Next(s, lim, steps[i]);
    HealthyStored(s.cache, k, size, s.history);
    ShedAreLeastRecent(Stored(s.cache, k, size), lim, s.history + [k], kept, gone);
    if gone !in run[i + 1].cache.pending {
      assert run[i + 1].batches[|s.batches|] == Submitted(s.cache, lim, k, size)[0];
    }
  }

  /** Every write of a key has the same size. */
  ghost predicate SameSizes(steps: seq<Step>) {
    forall i, j | 0 <= i < |steps| && 0 <= j < |steps| && steps[i].WriteValue? && steps[j].WriteValue? ::
      steps[i].key == steps[j].key ==> steps[i].size == steps[j].size
  }

  ghost predicate WroteIt(steps: seq<Step>, n: nat, k: Key, size: Word) {
    exists j :: 0 <= j < n <= |steps| && steps[j] == WriteValue(k, size)
  }

  lemma WrittenSizes(c: Cache, lim: Limits, j: Key, size: Word, k: Key)
    requires k in Written(c, lim, j, size).sizes
    ensures k == j || k in c.sizes
    ensures Written(c, lim, j, size).sizes[k] == if k == j then size else c.sizes[k]
  {
    var s := Stored(c, j, size);
    if s.usage > lim.optimal {
      ShedSizes(s, lim, k);
    }
  }

  lemma {:induction false} SizesWereWritten(run: seq<State>, steps: seq<Step>, lim: Limits, i: nat, k: Key)
    requires IsRun(run, steps, lim) && i < |run| && k in run[i].cache.sizes
    ensures WroteIt(steps, i, k, run[i].cache.sizes[k])
  {
    if i > 0 {
      assert run[i] == Next(run[i - 1], lim, steps[i - 1]);
      var c := run[i - 1].cache;
      match steps[i - 1] {
        case ReadValue(j) =>
          SizesWereWritten(run, steps, lim, i - 1, k);
        case WriteValue(j, size) =>
          WrittenSizes(c, lim, j, size, k);
          if k == j {
            assert steps[i - 1] == WriteValue(k, size);
          } else {
            SizesWereWritten(run, steps, lim, i - 1, k);
          }
      }
    }
  }

  lemma {:induction false} NoSlip(run: seq<State>, steps: seq<Step>, lim: Limits, i: nat)
    requires IsRun(run, steps, lim) && i < |run| && SameSizes(steps)
    ensures run[i].slip == 0
  {
    if i > 0 {
      NoSlip(run, steps, lim, i - 1);
      assert run[i] == Next(run[i - 1], lim, steps[i - 1]);
      var st, c := steps[i - 1], run[i - 1].cache;
      if st.WriteValue? && st.key in c.sizes {
        SizesWereWritten(run, steps, lim, i - 1, st.key);
        var j :| 0 <= j < i - 1 <= |steps| && steps[j] == WriteValue(st.key, c.sizes[st.key]);
        assert steps[j].key == st.key;
      }
    }
  }

  lemma CountsExactly(c: Cache)
    requires Counts(c, 0) && Total(c.used, c.sizes) < WORD
    ensures c.usage == Total(c.used, c.sizes)
  {
    var q :| Same(Gap(c), 0, q);
    assert -WORD < q * WORD < WORD;
  }

  /** When every write of a key has the same size, the counter reads the total of the cached sizes after any run, as a
      64-bit number; and so the total itself as long as that fits. */
  lemma CounterIsTotal(run: seq<State>, steps: seq<Step>, lim: Limits, i: nat)
    requires IsRun(run, steps, lim) && i < |run| && SameSizes(steps)
    ensures Counts(run[i].cache, 0)
    ensures var c := run[i].cache; Total(c.used, c.sizes) < WORD ==> c.usage == Total(c.used, c.sizes)
  {
    RunInv(run, steps, lim, i);
    NoSlip(run, steps, lim, i);
    var c := run[i].cache;
    if Total(c.used, c.sizes) < WORD {
      CountsExactly(c);
    }
  }
}
