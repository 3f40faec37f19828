/** The consistent-hash ring: points on a circle of shards, each belonging to a cluster. A shard is
    served by the cluster at the nearest point at or before it. */
module HashRing {
  import opened Base

  const RING_LENGTH: nat := 4096

  /** From point to cluster. */
  type Points = map<nat, nat>

  ghost predicate OnRing(ring: Points) {
    forall p :: p in ring ==> p < RING_LENGTH
  }

  /** How far one walks forward from a to reach b. */
  function Distance(a: nat, b: nat): nat
    requires a < RING_LENGTH && b < RING_LENGTH
  {
    if a <= b then b - a else b + RING_LENGTH - a
  }

  function Wrap(x: nat): (r: nat)
    requires x < 2 * RING_LENGTH
    ensures r < RING_LENGTH
  {
    if x >= RING_LENGTH then x - RING_LENGTH else x
  }

  // ----- who serves a shard

  ghost predicate Serves(ring: Points, p: nat, s: nat)
    requires OnRing(ring) && s < RING_LENGTH
  {
    p in ring && forall x :: x in ring ==> Distance(p, s) <= Distance(x, s)
  }

  lemma {:induction false} SomePointServes(ring: Points, s: nat)
    requires OnRing(ring) && ring.Keys != {} && s < RING_LENGTH
    ensures exists p :: Serves(ring, p, s)
    decreases |ring|
  {
    var x :| x in ring;
    var rest := ring - {x};
    if rest.Keys == {} {
      assert ring.Keys == {x};
      assert Serves(ring, x, s);
    } else {
      assert |rest.Keys| < |ring.Keys|;
      SomePointServes(rest, s);
      var y :| Serves(rest, y, s);
      assert forall z :: z in ring ==> z == x || z in rest;
      assert Serves(ring, if Distance(x, s) <= Distance(y, s) then x else y, s);
    }
  }

  ghost function Nearest(ring: Points, s: nat): (p: nat)
    requires OnRing(ring) && ring.Keys != {} && s < RING_LENGTH
    ensures Serves(ring, p, s)
  {
    SomePointServes(ring, s);
    var p :| Serves(ring, p, s);
    p
  }

  ghost function Owner(ring: Points, s: nat): nat
    requires OnRing(ring) && ring.Keys != {} && s < RING_LENGTH
  {
    ring[Nearest(ring, s)]
  }

  /** No two points are equally near. */
  lemma ServesUnique(ring: Points, p: nat, s: nat)
    requires OnRing(ring) && ring.Keys != {} && s < RING_LENGTH && Serves(ring, p, s)
    ensures p == Nearest(ring, s) && Owner(ring, s) == ring[p]
  {
  }

  // ----- adding and removing points

  /** A new point takes over just the shards it is nearer to, and every other shard keeps its point. */
  lemma InsertMoves(ring: Points, p: nat, c: nat, s: nat)
    requires OnRing(ring) && ring.Keys != {} && p < RING_LENGTH && p !in ring && s < RING_LENGTH
    ensures OnRing(ring[p := c])
    ensures Nearest(ring[p := c], s) == if Distance(p, s) < Distance(Nearest(ring, s), s) then p else Nearest(ring, s)
  {
    var q, ring' := Nearest(ring, s), ring[p := c];
    if Distance(p, s) < Distance(q, s) {
      assert Serves(ring', p, s);
      ServesUnique(ring', p, s);
    } else {
      assert Serves(ring', q, s);
      ServesUnique(ring', q, s);
    }
  }

  function Without(ring: Points, c: nat): Points {
    map p | p in ring && ring[p] != c :: ring[p]
  }

  /** Removing a cluster leaves every shard of another cluster where it was. */
  lemma RemoveMovesOnlyOwn(ring: Points, c: nat, s: nat)
    requires OnRing(ring) && s < RING_LENGTH && ring.Keys != {} && Owner(ring, s) != c
    ensures Without(ring, c).Keys != {} && OnRing(Without(ring, c)) && Owner(Without(ring, c), s) == Owner(ring, s)
  {
    var p := Nearest(ring, s);
    assert p in Without(ring, c);
    assert Serves(Without(ring, c), p, s);
    ServesUnique(Without(ring, c), p, s);
  }

  /** The points between p and the next one q. */
  ghost predicate IsNext(ring: Points, p: nat, q: nat)
    requires OnRing(ring) && p < RING_LENGTH
  {
    q in ring && q != p && forall x :: x in ring && x != p ==> Distance(p, q) <= Distance(p, x)
  }

  ghost predicate IsPrevious(ring: Points, p: nat, q: nat)
    requires OnRing(ring) && p < RING_LENGTH
  {
    q in ring && q != p && forall x :: x in ring && x != p ==> Distance(q, p) <= Distance(x, p)
  }

  /** The shards that a new point p takes run from p up to the next point, and before all of them were
      served by the point that p has now right before it. */
  lemma ArcIsTaken(ring: Points, p: nat, c: nat, next: nat, prev: nat, s: nat)
    requires OnRing(ring) && p < RING_LENGTH && p !in ring && s < RING_LENGTH
    requires OnRing(ring[p := c]) && IsNext(ring[p := c], p, next) && IsPrevious(ring[p := c], p, prev)
    ensures ring.Keys != {}
    ensures Distance(p, s) < Distance(p, next) <==> Nearest(ring[p := c], s) == p
    ensures Distance(p, s) < Distance(p, next) ==> Nearest(ring, s) == prev
  {
    var ring' := ring[p := c];
    assert next in ring && prev in ring;
    if Distance(p, s) < Distance(p, next) {
      forall x | x in ring
        ensures Distance(prev, s) <= Distance(x, s) && Distance(p, s) <= Distance(x, s)
      {
        assert x in ring' && x != p;
        assert Distance(p, next) <= Distance(p, x);
        assert Distance(prev, p) <= Distance(x, p);
      }
      assert Serves(ring, prev, s);
      ServesUnique(ring, prev, s);
      assert Serves(ring', p, s);
      ServesUnique(ring', p, s);
    } else {
      assert Distance(next, s) < Distance(p, s);
      assert !Serves(ring', p, s);
    }
  }

  // ----- the ring object

  function UpperBound(ring: Points, x: nat): (r: nat)
    requires x < RING_LENGTH
    ensures x < r <= RING_LENGTH
    ensures r < RING_LENGTH ==> r in ring
    ensures forall y :: x < y < r ==> y !in ring
    decreases RING_LENGTH - x
  {
    if x + 1 == RING_LENGTH || x + 1 in ring then x + 1 else UpperBound(ring, x + 1)
  }

  function LowestPoint(ring: Points): (r: nat)
    ensures r <= RING_LENGTH
    ensures r < RING_LENGTH ==> r in ring
    ensures forall y :: 0 <= y < r ==> y !in ring
  {
    if 0 in ring then 0 else UpperBound(ring, 0)
  }

  function Below(ring: Points, x: nat): (r: Option<nat>)
    ensures r.Some? ==> r.value < x && r.value in ring && forall y :: r.value < y < x ==> y !in ring
    ensures r.None? ==> forall y :: 0 <= y < x ==> y !in ring
  {
    if x == 0 then None else if x - 1 in ring then Some(x - 1) else Below(ring, x - 1)
  }

  type HandOver = map<nat, seq<nat>>

  function Listed(m: HandOver, c: nat): seq<nat> {
    if c in m then m[c] else []
  }

  function Push(m: HandOver, c: nat, s: nat): HandOver {
    m[c := Listed(m, c) + [s]]
  }

  ghost predicate NoRepeats(s: seq<nat>) {
    forall i, j :: 0 <= i < j < |s| ==> s[i] != s[j]
  }

  lemma {:induction false} Crowded(ring: Points, n: nat)
    requires forall x :: 0 <= x < n ==> x in ring
    ensures |ring| >= n
  {
    if n > 0 {
      var rest := ring - {n - 1};
      assert rest.Keys == ring.Keys - {n - 1};
      Crowded(rest, n - 1);
    }
  }

  lemma FreeSlot(ring: Points)
    requires |ring| < RING_LENGTH
    ensures exists f :: 0 <= f < RING_LENGTH && f !in ring
  {
    if forall f :: 0 <= f < RING_LENGTH ==> f in ring {
      Crowded(ring, RING_LENGTH);
    }
  }

  /** Every slot on the way from start to p is taken. */
  ghost predicate FirstFree(ring: Points, start: nat, p: nat)
    requires start < RING_LENGTH && p < RING_LENGTH
  {
    forall x :: 0 <= x < RING_LENGTH && Distance(start, x) < Distance(start, p) ==> x in ring
  }

  /** A ring with points of a cluster put on it one after the other. */
  function WithPoints(ring: Points, points: seq<nat>, c: nat): Points {
    if points == [] then ring else WithPoints(ring, points[..|points| - 1], c)[points[|points| - 1] := c]
  }

  /** The virtual node of order `i` sits in the first slot, from its hash on, that the ring and the virtual nodes before
      it have left free. */
  ghost predicate ProbedAt(ring: Points, c: nat, hash: (nat, nat) -> nat, points: seq<nat>, i: nat)
    requires i < |points|
  {
    var before := WithPoints(ring, points[..i], c);
    points[i] < RING_LENGTH && points[i] !in before && FirstFree(before, hash(c, i) % RING_LENGTH, points[i])
  }

  ghost predicate Probed(ring: Points, c: nat, hash: (nat, nat) -> nat, points: seq<nat>) {
    forall i :: 0 <= i < |points| ==> ProbedAt(ring, c, hash, points, i)
  }

  lemma ProbedMore(ring: Points, c: nat, hash: (nat, nat) -> nat, points: seq<nat>, p: nat)
    requires Probed(ring, c, hash, points) && p < RING_LENGTH && p !in WithPoints(ring, points, c)
    requires FirstFree(WithPoints(ring, points, c), hash(c, |points|) % RING_LENGTH, p)
    ensures Probed(ring, c, hash, points + [p])
    ensures WithPoints(ring, points + [p], c) == WithPoints(ring, points, c)[p := c]
  {
    var more := points + [p];
    assert more[..|points|] == points;
    forall i | 0 <= i < |more|
      ensures ProbedAt(ring, c, hash, more, i)
    {
      if i < |points| {
        assert more[..i] == points[..i] && ProbedAt(ring, c, hash, points, i);
      }
    }
  }

  /** The first free slot is one and the same. */
  lemma FirstFreeUnique(ring: Points, start: nat, p: nat, q: nat)
    requires start < RING_LENGTH && p < RING_LENGTH && q < RING_LENGTH && p !in ring && q !in ring
    requires FirstFree(ring, start, p) && FirstFree(ring, start, q)
    ensures p == q
  {
  }

  /** Ring, cluster and hash fix the points. */
  lemma {:induction false} ProbedUnique(ring: Points, c: nat, hash: (nat, nat) -> nat, a: seq<nat>, b: seq<nat>)
    requires |a| == |b| && Probed(ring, c, hash, a) && Probed(ring, c, hash, b)
    ensures a == b
  {
    if a != [] {
      var n := |a| - 1;
      ProbedFront(ring, c, hash, a);
      ProbedFront(ring, c, hash, b);
      ProbedUnique(ring, c, hash, a[..n], b[..n]);
      assert ProbedAt(ring, c, hash, a, n) && ProbedAt(ring, c, hash, b, n);
      FirstFreeUnique(WithPoints(ring, a[..n], c), hash(c, n) % RING_LENGTH, a[n], b[n]);
      assert a == a[..n] + [a[n]] && b == b[..n] + [b[n]];
    }
  }

  lemma ProbedFront(ring: Points, c: nat, hash: (nat, nat) -> nat, points: seq<nat>)
    requires points != [] && Probed(ring, c, hash, points)
    ensures Probed(ring, c, hash, points[..|points| - 1])
  {
    var front := points[..|points| - 1];
    forall i | 0 <= i < |front|
      ensures ProbedAt(ring, c, hash, front, i)
    {
      assert front[..i] == points[..i] && ProbedAt(ring, c, hash, points, i);
    }
  }

  /** The shards from p on, n of them. */
  function Arc(p: nat, n: nat): seq<nat>
    requires p < RING_LENGTH && n <= RING_LENGTH
  {
    if n == 0 then [] else Arc(p, n - 1) + [Wrap(p + n - 1)]
  }

  lemma {:induction false} ArcIs(p: nat, n: nat)
    requires p < RING_LENGTH && n <= RING_LENGTH
    ensures |Arc(p, n)| == n && forall i :: 0 <= i < n ==> Arc(p, n)[i] == Wrap(p + i)
  {
    if n > 0 {
      ArcIs(p, n - 1);
    }
  }

  lemma ArcHas(p: nat, n: nat, s: nat)
    requires p < RING_LENGTH && n <= RING_LENGTH && s < RING_LENGTH
    ensures s in Arc(p, n) <==> Distance(p, s) < n
  {
    ArcIs(p, n);
    if Distance(p, s) < n {
      assert Arc(p, n)[Distance(p, s)] == s;
    }
  }

  /** For each cluster other than c, what the hand-over map lists for it. */
  ghost predicate Sound(before: Points, after: Points, c: nat, moved: HandOver)
    requires OnRing(before) && OnRing(after) && before.Keys != {} && after.Keys != {}
  {
    forall d, i | d != c && 0 <= i < |Listed(moved, d)| :: MovedTo(before, after, c, d, Listed(moved, d)[i])
  }

  ghost predicate MovedTo(before: Points, after: Points, c: nat, d: nat, s: nat)
    requires OnRing(before) && OnRing(after) && before.Keys != {} && after.Keys != {}
  {
    s < RING_LENGTH && Owner(before, s) == d && Owner(after, s) == c
  }

  ghost predicate Complete(before: Points, after: Points, c: nat, moved: HandOver)
    requires OnRing(before) && OnRing(after) && before.Keys != {} && after.Keys != {}
  {
    forall s | 0 <= s < RING_LENGTH && Owner(after, s) == c != Owner(before, s) :: s in Listed(moved, Owner(before, s))
  }

  /** Every shard stays or goes to c. */
  ghost predicate OnlyTo(before: Points, after: Points, c: nat)
    requires OnRing(before) && OnRing(after) && before.Keys != {} && after.Keys != {}
  {
    forall s :: 0 <= s < RING_LENGTH ==> Owner(after, s) == c || Owner(after, s) == Owner(before, s)
  }

  ghost predicate ListsOk(c: nat, moved: HandOver) {
    forall d :: d != c ==> NoRepeats(Listed(moved, d))
  }

  /** What holds of the hand-over map while points of c are being added. */
  ghost predicate Progress(before: Points, ring: Points, c: nat, moved: HandOver) {
    && OnRing(before) && OnRing(ring) && before.Keys != {} && before.Keys <= ring.Keys
    && OnlyTo(before, ring, c) && Sound(before, ring, c, moved) && ListsOk(c, moved)
  }

  /** One more point for c: who gets what, whether or not the map is told. */
  lemma PointMoves(before: Points, ring: Points, p: nat, c: nat)
    requires OnRing(before) && OnRing(ring) && before.Keys != {} && before.Keys <= ring.Keys && OnlyTo(before, ring, c)
    requires p < RING_LENGTH && p !in ring
    ensures OnRing(ring[p := c]) && OnlyTo(before, ring[p := c], c) && OnlyTo(ring, ring[p := c], c)
  {
    forall s | 0 <= s < RING_LENGTH
      ensures Owner(ring[p := c], s) == c || Owner(ring[p := c], s) == Owner(ring, s)
    {
      InsertMoves(ring, p, c, s);
    }
  }

  lemma SkippedPoint(before: Points, ring: Points, p: nat, c: nat, moved: HandOver)
    requires Progress(before, ring, c, moved) && p < RING_LENGTH && p !in ring
    ensures Progress(before, ring[p := c], c, moved)
  {
    PointMoves(before, ring, p, c);
    forall d, i | d != c && 0 <= i < |Listed(moved, d)|
      ensures MovedTo(before, ring[p := c], c, d, Listed(moved, d)[i])
    {
      assert MovedTo(before, ring, c, d, Listed(moved, d)[i]);
    }
  }

  /** Appending the arc of a new point to the list of its former owner. */
  lemma RecordedPoint(before: Points, ring: Points, p: nat, c: nat, next: nat, prev: nat,
                      moved: HandOver, moved': HandOver)
    requires Progress(before, ring, c, moved) && p < RING_LENGTH && p !in ring && OnRing(ring[p := c])
    requires IsNext(ring[p := c], p, next) && IsPrevious(ring[p := c], p, prev) && prev in ring
    requires moved' == moved[ring[prev] := Listed(moved, ring[prev]) + Arc(p, Distance(p, next))]
    ensures Progress(before, ring[p := c], c, moved')
    ensures Complete(before, ring, c, moved) ==> Complete(before, ring[p := c], c, moved')
  {
    var ring', w, n := ring[p := c], ring[prev], Distance(p, next);
    SkippedPoint(before, ring, p, c, moved);
    forall s | 0 <= s < RING_LENGTH
      ensures s in Arc(p, n) ==> Owner(ring, s) == w && Owner(ring', s) == c
      ensures s !in Arc(p, n) ==> Owner(ring', s) == Owner(ring, s)
    {
      ArcMoves(ring, p, c, next, prev, s);
    }
    RecordedSound(before, ring, ring', p, c, w, n, moved, moved');
    if Complete(before, ring, c, moved) {
      forall s | 0 <= s < RING_LENGTH && Owner(ring', s) == c != Owner(before, s)
        ensures s in Listed(moved', Owner(before, s))
      {
        if s !in Arc(p, n) {
          assert s in Listed(moved, Owner(before, s));
        }
      }
    }
  }

  lemma ArcMoves(ring: Points, p: nat, c: nat, next: nat, prev: nat, s: nat)
    requires OnRing(ring) && p < RING_LENGTH && p !in ring && s < RING_LENGTH && OnRing(ring[p := c])
    requires IsNext(ring[p := c], p, next) && IsPrevious(ring[p := c], p, prev) && prev in ring
    ensures s in Arc(p, Distance(p, next)) ==> Owner(ring, s) == ring[prev] && Owner(ring[p := c], s) == c
    ensures s !in Arc(p, Distance(p, next)) ==> Owner(ring[p := c], s) == Owner(ring, s)
  {
    ArcIsTaken(ring, p, c, next, prev, s);
    InsertMoves(ring, p, c, s);
    ArcHas(p, Distance(p, next), s);
  }

  lemma RecordedSound(before: Points, ring: Points, ring': Points, p: nat, c: nat, w: nat, n: nat,
                      moved: HandOver, moved': HandOver)
    requires Progress(before, ring, c, moved) && Progress(before, ring', c, moved)
    requires p < RING_LENGTH && n <= RING_LENGTH
    requires forall s :: 0 <= s < RING_LENGTH && s in Arc(p, n) ==> Owner(ring, s) == w && Owner(ring', s) == c
    requires moved' == moved[w := Listed(moved, w) + Arc(p, n)]
    ensures Sound(before, ring', c, moved') && ListsOk(c, moved')
  {
    ArcIs(p, n);
    var was, arc := Listed(moved, w), Arc(p, n);
    forall j | 0 <= j < n && w != c
      ensures MovedTo(before, ring', c, w, arc[j]) && Owner(ring, arc[j]) == w
    {
      assert arc[j] in arc;
      assert Owner(ring, arc[j]) == Owner(before, arc[j]);
    }
    forall d, i | d != c && 0 <= i < |Listed(moved', d)|
      ensures MovedTo(before, ring', c, d, Listed(moved', d)[i])
    {
      if d == w && i >= |was| {
        assert Listed(moved', w)[i] == arc[i - |was|];
      } else {
        assert Listed(moved', d)[i] == Listed(moved, d)[i];
      }
    }
    forall i, j | 0 <= i < |was| && 0 <= j < n && w != c
      ensures was[i] != arc[j]
    {
      assert MovedTo(before, ring, c, w, was[i]);
    }
    forall d | d != c
      ensures NoRepeats(Listed(moved', d))
    {
      assert NoRepeats(Listed(moved, d));
      if d == w {
        NoRepeatsJoin(was, arc);
      }
    }
  }

  lemma NoRepeatsJoin(a: seq<nat>, b: seq<nat>)
    requires NoRepeats(a) && NoRepeats(b) && forall i, j :: 0 <= i < |a| && 0 <= j < |b| ==> a[i] != b[j]
    ensures NoRepeats(a + b)
  {
  }

  lemma SomeOther(ring: Points)
    requires |ring| > 0
    ensures exists x :: x in ring
  {
    assert ring.Keys != {};
  }

  /** Lists the shards from one point up to the next for a cluster. */
  method PushArc(moved: HandOver, owner: nat, shard: nat, next: nat) returns (moved': HandOver)
    requires shard < RING_LENGTH && next < RING_LENGTH && shard != next
    ensures moved' == moved[owner := Listed(moved, owner) + Arc(shard, Distance(shard, next))]
  {
    moved' := moved[owner := Listed(moved, owner)];
    var start, end := shard, if next < shard then next + RING_LENGTH else next;
    while start < end
      invariant shard <= start <= end
      invariant moved' == moved[owner := Listed(moved', owner)]
      invariant Listed(moved', owner) == Listed(moved, owner) + Arc(shard, start - shard)
    {
      moved' := Push(moved', owner, Wrap(start));
      start := start + 1;
    }
  }

  /** Adding a cluster that was not there and deleting it again gives the ring back. */
  lemma AddThenDeleteRestores(before: Points, after: Points, c: nat)
    requires c !in before.Values
    requires forall p :: p in before ==> p in after && after[p] == before[p]
    requires forall p :: p in after && p !in before ==> after[p] == c
    ensures Without(after, c) == before
  {
    forall p | p in before
      ensures before[p] != c
    {
      assert before[p] in before.Values;
    }
  }

  // ----- the placement of all shards

  /** The shards from the first point on, upto - first of them, are listed once each under their owner. */
  ghost predicate Filled(ring: Points, result: HandOver, first: nat, upto: nat) {
    && OnRing(ring) && ring.Keys != {} && first < RING_LENGTH && first <= upto <= first + RING_LENGTH
    && (forall c, i | 0 <= i < |Listed(result, c)| :: PlacedAt(ring, first, upto, c, Listed(result, c)[i]))
    && (forall s :: 0 <= s < RING_LENGTH && Distance(first, s) < upto - first ==> s in Listed(result, Owner(ring, s)))
    && (forall c :: NoRepeats(Listed(result, c)))
  }

  ghost predicate PlacedAt(ring: Points, first: nat, upto: nat, c: nat, s: nat)
    requires OnRing(ring) && ring.Keys != {} && first < RING_LENGTH && first <= upto
  {
    s < RING_LENGTH && Distance(first, s) < upto - first && Owner(ring, s) == c
  }

  lemma FillNoRepeats(ring: Points, result: HandOver, first: nat, upto: nat, c: nat, d: nat)
    requires Filled(ring, result, first, upto) && upto < first + RING_LENGTH
    ensures NoRepeats(Listed(Push(result, c, Wrap(upto)), d))
  {
    assert NoRepeats(Listed(result, d));
    forall i | 0 <= i < |Listed(result, d)|
      ensures Listed(result, d)[i] != Wrap(upto)
    {
      assert PlacedAt(ring, first, upto, d, Listed(result, d)[i]);
    }
  }

  lemma FillPlaced(ring: Points, result: HandOver, first: nat, upto: nat, c: nat, d: nat, i: nat)
    requires Filled(ring, result, first, upto) && upto < first + RING_LENGTH && Owner(ring, Wrap(upto)) == c
    requires i < |Listed(Push(result, c, Wrap(upto)), d)|
    ensures PlacedAt(ring, first, upto + 1, d, Listed(Push(result, c, Wrap(upto)), d)[i])
  {
    if i < |Listed(result, d)| {
      assert PlacedAt(ring, first, upto, d, Listed(result, d)[i]);
    }
  }

  lemma FillListed(ring: Points, result: HandOver, first: nat, upto: nat, c: nat, s: nat)
    requires Filled(ring, result, first, upto) && upto < first + RING_LENGTH && Owner(ring, Wrap(upto)) == c
    requires s < RING_LENGTH && Distance(first, s) < upto + 1 - first
    ensures s in Listed(Push(result, c, Wrap(upto)), Owner(ring, s))
  {
    if s != Wrap(upto) {
      assert s in Listed(result, Owner(ring, s));
    }
  }

  lemma FillOneMore(ring: Points, result: HandOver, first: nat, upto: nat, c: nat)
    requires Filled(ring, result, first, upto) && upto < first + RING_LENGTH && Owner(ring, Wrap(upto)) == c
    ensures Filled(ring, Push(result, c, Wrap(upto)), first, upto + 1)
  {
    var result', upto' := Push(result, c, Wrap(upto)), upto + 1;
    forall d, i | 0 <= i < |Listed(result', d)|
      ensures PlacedAt(ring, first, upto', d, Listed(result', d)[i])
    {
      FillPlaced(ring, result, first, upto, c, d, i);
    }
    forall s | 0 <= s < RING_LENGTH && Distance(first, s) < upto' - first
      ensures s in Listed(result', Owner(ring, s))
    {
      FillListed(ring, result, first, upto, c, s);
    }
    forall d
      ensures NoRepeats(Listed(result', d))
    {
      FillNoRepeats(ring, result, first, upto, c, d);
    }
  }

  /** A shard after a point, with no point in between, is that point's. */
  lemma BetweenPoints(ring: Points, p: nat, pos: nat)
    requires OnRing(ring) && p in ring && p <= pos < p + RING_LENGTH
    requires forall x :: x in ring && x > p ==> x > pos
    requires forall x :: x in ring ==> pos < x + RING_LENGTH
    ensures Owner(ring, Wrap(pos)) == ring[p]
  {
    assert Serves(ring, p, Wrap(pos));
    ServesUnique(ring, p, Wrap(pos));
  }

  /** The points of a cluster. */
  function PointsOn(ring: Points, c: nat): set<nat> {
    set p | p in ring && ring[p] == c
  }

  /** Every cluster on the ring has all its virtual nodes there. */
  ghost predicate Full(ring: Points, virtualNodes: nat) {
    forall p :: p in ring ==> |PointsOn(ring, ring[p])| >= virtualNodes
  }

  lemma AtMost(a: set<nat>, b: set<nat>)
    requires a <= b
    ensures |a| <= |b|
  {
    assert b == a + (b - a);
  }

  /** A ring that is not empty has at least the points of one cluster. */
  lemma FullIsLarge(ring: Points, virtualNodes: nat)
    requires Full(ring, virtualNodes) && ring.Keys != {}
    ensures |ring| >= virtualNodes
  {
    var p :| p in ring;
    AtMost(PointsOn(ring, ring[p]), ring.Keys);
  }

  lemma FullAfterAdd(before: Points, after: Points, c: nat, virtualNodes: nat)
    requires Full(before, virtualNodes) && |after| == |before| + virtualNodes
    requires forall p :: p in before ==> p in after && after[p] == before[p]
    requires forall p :: p in after && p !in before ==> after[p] == c
    ensures Full(after, virtualNodes)
  {
    var added := after.Keys - before.Keys;
    assert after.Keys == before.Keys + added;
    AtMost(added, PointsOn(after, c));
    forall p | p in after && after[p] != c
      ensures |PointsOn(after, after[p])| >= virtualNodes
    {
      assert PointsOn(after, after[p]) == PointsOn(before, before[p]);
    }
  }

  lemma FullAfterDelete(ring: Points, c: nat, virtualNodes: nat)
    requires Full(ring, virtualNodes)
    ensures Full(Without(ring, c), virtualNodes)
  {
    forall p | p in Without(ring, c)
      ensures |PointsOn(Without(ring, c), ring[p])| >= virtualNodes
    {
      assert PointsOn(Without(ring, c), ring[p]) == PointsOn(ring, ring[p]);
    }
  }

  class HashRing {
    var ring: Points
    const virtualNodes: nat
    /** The hash of the key built from a cluster id and the order of a virtual node. */
    const hash: (nat, nat) -> nat

    ghost predicate Placed()
      reads this
    {
      OnRing(ring) && virtualNodes > 0
    }

    ghost predicate Valid()
      reads this
    {
      Placed() && Full(ring, virtualNodes)
    }

    constructor (virtualNodes: nat, hash: (nat, nat) -> nat)
      requires virtualNodes > 0
      ensures Valid() && ring == map[] && this.virtualNodes == virtualNodes && this.hash == hash
    {
      this.ring, this.virtualNodes, this.hash := map[], virtualNodes, hash;
    }

    /** Linear probing from the hash: the first free slot. */
    method CalcShard(h: nat) returns (shard: nat)
      requires Placed() && |ring| < RING_LENGTH
      ensures shard < RING_LENGTH && shard !in ring
      ensures FirstFree(ring, h % RING_LENGTH, shard)
    {
      var start := h % RING_LENGTH;
      shard := start;
      FreeSlot(ring);
      ghost var free :| 0 <= free < RING_LENGTH && free !in ring;
      while shard in ring
        invariant shard < RING_LENGTH
        invariant Distance(start, shard) <= Distance(start, free)
        invariant FirstFree(ring, start, shard)
        decreases Distance(shard, free)
      {
        shard := Wrap(shard + 1);
      }
    }

    /** The point before one that has just been put on a ring that had others. */
    method Previous(p: nat) returns (q: nat)
      requires Placed() && p in ring && exists x :: x in ring && x != p
      ensures IsPrevious(ring, p, q)
    {
      var b := Below(ring, p);
      if b.None? {
        b := Below(ring, RING_LENGTH);
      }
      q := b.value;
    }

    /** The point after it. */
    method Following(p: nat) returns (q: nat)
      requires Placed() && p in ring && exists x :: x in ring && x != p
      ensures IsNext(ring, p, q)
    {
      q := UpperBound(ring, p);
      if q == RING_LENGTH {
        q := LowestPoint(ring);
      }
    }

    /** Adds one virtual node of c. With more points on the ring than one cluster has, the shards it takes are
        listed for the cluster that had them. */
    method AddPoint(c: nat, h: nat, moved: HandOver, ghost before: Points) returns (moved': HandOver, ghost p: nat)
      requires Placed() && |ring| < RING_LENGTH
      requires before.Keys != {} ==> Progress(before, ring, c, moved)
      modifies this
      ensures Placed() && p < RING_LENGTH && p !in old(ring) && ring == old(ring)[p := c]
      ensures FirstFree(old(ring), h % RING_LENGTH, p)
      ensures before.Keys != {} ==> Progress(before, ring, c, moved')
      ensures before.Keys != {} && old(|ring|) >= virtualNodes && old(Complete(before, ring, c, moved))
        ==> Complete(before, ring, c, moved')
      ensures if old(|ring|) < virtualNodes then moved' == moved else moved' != map[]
    {
      var shard := CalcShard(h);
      p, moved' := shard, moved;
      ghost var ring0 := ring;
      if before.Keys != {} {
        SkippedPoint(before, ring, shard, c, moved);
      }
      ring := ring[shard := c];
      if |ring| > virtualNodes {
        SomeOther(ring0);
        ghost var x :| x in ring0;
        assert x in ring && x != shard;
        var prev := Previous(shard);
        var next := Following(shard);
        moved' := PushArc(moved, ring[prev], shard, next);
        assert ring[prev] in moved';
        if before.Keys != {} {
          RecordedPoint(before, ring0, shard, c, next, prev, moved, moved');
        }
      }
    }

    /** Adds a cluster at the points that its hashes lead to, and says which shards move to it. Whatever the ring held
        stays, every shard stays or moves to the new cluster, and the lists for the other clusters have just the shards
        that they owned before and the new cluster owns after, each once. They are empty altogether exactly when the
        ring was. */
    method AddClusterId(c: nat) returns (moved: HandOver, ghost points: seq<nat>)
      requires Valid() && |ring| + virtualNodes <= RING_LENGTH
      modifies this
      ensures Valid() && |ring| == old(|ring|) + virtualNodes
      ensures |points| == virtualNodes && Probed(old(ring), c, hash, points) && ring == WithPoints(old(ring), points, c)
      ensures forall p :: p in old(ring) ==> p in ring && ring[p] == old(ring)[p]
      ensures forall p :: p in ring && p !in old(ring) ==> ring[p] == c
      ensures old(ring).Keys != {} ==> Progress(old(ring), ring, c, moved) && Complete(old(ring), ring, c, moved)
      ensures moved == map[] <==> old(ring) == map[]
    {
      ghost var before := ring;
      if before.Keys != {} {
        FullIsLarge(before, virtualNodes);
      }
      moved, points := map[], [];
      for i := 0 to virtualNodes
        invariant Placed() && |ring| == |before| + i
        invariant |points| == i && Probed(before, c, hash, points) && ring == WithPoints(before, points, c)
        invariant forall p :: p in before ==> p in ring && ring[p] == before[p]
        invariant forall p :: p in ring && p !in before ==> ring[p] == c
        invariant before.Keys != {} ==> Progress(before, ring, c, moved) && Complete(before, ring, c, moved)
        invariant moved != map[] <==> i > 0 && |before| + i - 1 >= virtualNodes
      {
        ghost var p;
        moved, p := AddPoint(c, hash(c, i), moved, before);
        ProbedMore(before, c, hash, points, p);
        points := points + [p];
      }
      FullAfterAdd(before, ring, c, virtualNodes);
    }

    /** Adds a cluster when nobody asks which shards move. */
    method AddOnly(c: nat) returns (ghost points: seq<nat>)
      requires Valid() && |ring| + virtualNodes <= RING_LENGTH
      modifies this
      ensures Valid() && |ring| == old(|ring|) + virtualNodes
      ensures |points| == virtualNodes && Probed(old(ring), c, hash, points) && ring == WithPoints(old(ring), points, c)
      ensures forall p :: p in old(ring) ==> p in ring && ring[p] == old(ring)[p]
      ensures forall p :: p in ring && p !in old(ring) ==> ring[p] == c
    {
      var moved;
      moved, points := AddClusterId(c);
    }

    /** Lists the shards from `pre` on and below `upto` under the cluster of the last point before them. */
    method Fill(result: HandOver, first: nat, at: nat, pre: nat, upto: nat) returns (result': HandOver)
      requires Valid() && at in ring && Filled(ring, result, first, pre) && at <= pre <= upto <= first + RING_LENGTH
      requires forall x :: x in ring ==> first <= x && (x <= at || x >= upto)
      ensures Filled(ring, result', first, upto)
    {
      result' := result;
      for i := pre to upto
        invariant Filled(ring, result', first, i)
      {
        BetweenPoints(ring, at, i);
        FillOneMore(ring, result', first, i, ring[at]);
        result' := Push(result', ring[at], Wrap(i));
      }
    }

    /** Lists every shard once, under the cluster at the nearest point at or before it. */
    method ExtractShardConfig() returns (result: HandOver)
      requires Valid()
      ensures ring == map[] ==> result == map[]
      ensures ring != map[] ==> Filled(ring, result, LowestPoint(ring), LowestPoint(ring) + RING_LENGTH)
    {
      result := map[];
      if ring == map[] {
        return;
      }
      assert ring.Keys != {};
      var first := LowestPoint(ring);
      var at, it := first, UpperBound(ring, first);
      while it < RING_LENGTH
        invariant first <= at < it <= RING_LENGTH && at in ring
        invariant forall x :: x in ring ==> first <= x && (x <= at || x >= it)
        invariant it < RING_LENGTH ==> it in ring
        invariant Filled(ring, result, first, at)
        decreases RING_LENGTH - it
      {
        result := Fill(result, first, at, at, it);
        at, it := it, UpperBound(ring, it);
      }
      result := Fill(result, first, at, at, first + RING_LENGTH);
    }

    method DeleteClusterId(c: nat)
      requires Valid()
      modifies this
      ensures Valid() && ring == Without(old(ring), c)
    {
      var at, kept := 0, ring;
      while at < RING_LENGTH
        invariant at <= RING_LENGTH
        invariant kept == map p | p in ring && (p < at ==> ring[p] != c) :: ring[p]
      {
        if at in ring && ring[at] == c {
          kept := kept - {at};
        }
        at := at + 1;
      }
      assert kept == Without(ring, c);
      FullAfterDelete(ring, c, virtualNodes);
      ring := kept;
    }
  }

  /** Adds a fresh cluster and deletes it again: the ring is as it was. */
  method AddThenDelete(r: HashRing, c: nat)
    requires r.Valid() && |r.ring| + r.virtualNodes <= RING_LENGTH && c !in r.ring.Values
    modifies r
    ensures r.Valid() && r.ring == old(r.ring)
  {
    var _, _ := r.AddClusterId(c);
    AddThenDeleteRestores(old(r.ring), r.ring, c);
    r.DeleteClusterId(c);
  }

  /** The placement computed for a list of routing clusters: a partition of all shards over them. */
  ghost predicate IsPlacement(clusters: seq<nat>, result: HandOver) {
    && (forall s :: 0 <= s < RING_LENGTH ==> PlacedAmong(clusters, result, s))
    && (forall c, d, s | s in Listed(result, c) && s in Listed(result, d) :: c == d)
    && (forall c :: NoRepeats(Listed(result, c)))
    && (forall c, s | s in Listed(result, c) :: s < RING_LENGTH)
  }

  ghost predicate PlacedAmong(clusters: seq<nat>, result: HandOver, s: nat) {
    exists c :: c in clusters && s in Listed(result, c)
  }

  /** Every point belongs to one of the clusters. */
  ghost predicate PointsOf(ring: Points, clusters: seq<nat>) {
    forall p :: p in ring ==> ring[p] in clusters
  }

  lemma PointsOfOneMore(before: Points, after: Points, clusters: seq<nat>, i: nat)
    requires i < |clusters| && PointsOf(before, clusters[..i])
    requires forall p :: p in before ==> p in after && after[p] == before[p]
    requires forall p :: p in after && p !in before ==> after[p] == clusters[i]
    ensures PointsOf(after, clusters[..i + 1])
  {
    assert clusters[..i + 1] == clusters[..i] + [clusters[i]];
  }

  lemma RoomForOneMore(i: nat, n: nat, size: nat)
    requires i < n
    ensures i * size + size == (i + 1) * size <= n * size
  {
    assert n * size == (i + 1) * size + (n - i - 1) * size;
  }

  ghost predicate Sized(points: nat, clusters: nat, virtualNodes: nat) {
    points == clusters * virtualNodes
  }

  lemma SizedMore(points: nat, i: nat, n: nat, virtualNodes: nat)
    requires Sized(points, i, virtualNodes) && i < n && n * virtualNodes <= RING_LENGTH
    ensures points + virtualNodes <= RING_LENGTH && Sized(points + virtualNodes, i + 1, virtualNodes)
  {
    RoomForOneMore(i, n, virtualNodes);
  }

  /** All points of the clusters, and no others. */
  ghost predicate Holds(ring: Points, clusters: seq<nat>, virtualNodes: nat) {
    && PointsOf(ring, clusters) && Sized(|ring|, |clusters|, virtualNodes)
    && (ring == map[] <==> clusters == [])
  }

  lemma HoldsOneMore(before: Points, after: Points, clusters: seq<nat>, i: nat, virtualNodes: nat)
    requires i < |clusters| && virtualNodes > 0 && Holds(before, clusters[..i], virtualNodes)
    requires |after| == |before| + virtualNodes && Sized(|after|, i + 1, virtualNodes)
    requires forall p :: p in before ==> p in after && after[p] == before[p]
    requires forall p :: p in after && p !in before ==> after[p] == clusters[i]
    ensures Holds(after, clusters[..i + 1], virtualNodes)
  {
    PointsOfOneMore(before, after, clusters, i);
  }

  /** The ring that the clusters of a list give when each probes for its points in turn. */
  ghost predicate RingFrom(clusters: seq<nat>, virtualNodes: nat, hash: (nat, nat) -> nat, ring: Points) {
    if clusters == [] then ring == map[]
    else
      var front, last := clusters[..|clusters| - 1], clusters[|clusters| - 1];
      exists before, points :: RingFrom(front, virtualNodes, hash, before)
        && AddsPoints(before, last, virtualNodes, hash, points, ring)
  }

  ghost predicate AddsPoints(before: Points, c: nat, virtualNodes: nat, hash: (nat, nat) -> nat, points: seq<nat>,
                             after: Points)
  {
    |points| == virtualNodes && Probed(before, c, hash, points) && after == WithPoints(before, points, c)
  }

  lemma RingFromMore(clusters: seq<nat>, i: nat, virtualNodes: nat, hash: (nat, nat) -> nat, before: Points,
                     points: seq<nat>, after: Points)
    requires i < |clusters| && RingFrom(clusters[..i], virtualNodes, hash, before)
    requires AddsPoints(before, clusters[i], virtualNodes, hash, points, after)
    ensures RingFrom(clusters[..i + 1], virtualNodes, hash, after)
  {
    assert clusters[..i + 1][..i] == clusters[..i];
  }

  /** Clusters, number of virtual nodes and hash fix the ring. */
  lemma {:induction false} RingFromUnique(clusters: seq<nat>, virtualNodes: nat, hash: (nat, nat) -> nat, a: Points,
                                          b: Points)
    requires RingFrom(clusters, virtualNodes, hash, a) && RingFrom(clusters, virtualNodes, hash, b)
    ensures a == b
  {
    if clusters != [] {
      var front, last := clusters[..|clusters| - 1], clusters[|clusters| - 1];
      var a', p :| RingFrom(front, virtualNodes, hash, a') && AddsPoints(a', last, virtualNodes, hash, p, a);
      var b', q :| RingFrom(front, virtualNodes, hash, b') && AddsPoints(b', last, virtualNodes, hash, q, b);
      RingFromUnique(front, virtualNodes, hash, a', b');
      ProbedUnique(a', last, hash, p, q);
    }
  }

  /** A fresh ring with the clusters on it. */
  method RingOf(clusters: seq<nat>, virtualNodes: nat, hash: (nat, nat) -> nat) returns (r: HashRing)
    requires virtualNodes > 0 && |clusters| * virtualNodes <= RING_LENGTH
    ensures fresh(r) && r.Valid() && r.virtualNodes == virtualNodes && Holds(r.ring, clusters, virtualNodes)
    ensures r.hash == hash && RingFrom(clusters, virtualNodes, hash, r.ring)
  {
    r := new HashRing(virtualNodes, hash);
    for i := 0 to |clusters|
      invariant r.Valid() && fresh(r) && r.virtualNodes == virtualNodes && r.hash == hash
      invariant Holds(r.ring, clusters[..i], virtualNodes) && RingFrom(clusters[..i], virtualNodes, hash, r.ring)
    {
      SizedMore(|r.ring|, i, |clusters|, virtualNodes);
      ghost var before := r.ring;
      ghost var points := r.AddOnly(clusters[i]);
      HoldsOneMore(before, r.ring, clusters, i, virtualNodes);
      RingFromMore(clusters, i, virtualNodes, hash, before, points, r.ring);
    }
    assert clusters[..|clusters|] == clusters;
  }

  /** Every shard is listed under the cluster that serves it on the ring, and under no other. */
  ghost predicate ListsOwners(ring: Points, result: HandOver) {
    && OnRing(ring) && ring.Keys != {}
    && forall c, s :: ListedIfOwned(ring, result, c, s)
  }

  ghost predicate ListedIfOwned(ring: Points, result: HandOver, c: nat, s: nat)
    requires OnRing(ring) && ring.Keys != {}
  {
    s in Listed(result, c) <==> s < RING_LENGTH && Owner(ring, s) == c
  }

  /** Puts the clusters on a fresh ring and reads off the placement: every shard is placed, and placed once,
      unless there is no cluster at all. Where it goes is fixed by the list of clusters and the hash. */
  method PlaceShards(clusters: seq<nat>, virtualNodes: nat, hash: (nat, nat) -> nat)
    returns (result: HandOver, ghost ring: Points)
    requires virtualNodes > 0 && |clusters| * virtualNodes <= RING_LENGTH
    ensures if clusters == [] then result == map[] else IsPlacement(clusters, result)
    ensures RingFrom(clusters, virtualNodes, hash, ring) && (clusters != [] ==> ListsOwners(ring, result))
  {
    var r := RingOf(clusters, virtualNodes, hash);
    ring := r.ring;
    result := r.ExtractShardConfig();
    if clusters != [] {
      FilledIsPlacement(clusters, r.ring, LowestPoint(r.ring), result);
      FilledListsOwners(r.ring, LowestPoint(r.ring), result);
    }
  }

  lemma FilledListsOwners(ring: Points, first: nat, result: HandOver)
    requires Filled(ring, result, first, first + RING_LENGTH)
    ensures ListsOwners(ring, result)
  {
    forall c, s
      ensures ListedIfOwned(ring, result, c, s)
    {
      if s in Listed(result, c) {
        ListedIsOwned(ring, first, result, c, s);
      }
    }
  }

  /** Two placements of the same clusters under the same hash put every shard on the same cluster. */
  lemma PlacementIsFixed(clusters: seq<nat>, virtualNodes: nat, hash: (nat, nat) -> nat,
                         ring: Points, result: HandOver, ring': Points, result': HandOver, c: nat, s: nat)
    requires RingFrom(clusters, virtualNodes, hash, ring) && ListsOwners(ring, result)
    requires RingFrom(clusters, virtualNodes, hash, ring') && ListsOwners(ring', result')
    ensures s in Listed(result, c) <==> s in Listed(result', c)
  {
    RingFromUnique(clusters, virtualNodes, hash, ring, ring');
    assert ListedIfOwned(ring, result, c, s) && ListedIfOwned(ring, result', c, s);
  }

  lemma FilledIsPlacement(clusters: seq<nat>, ring: Points, first: nat, result: HandOver)
    requires Filled(ring, result, first, first + RING_LENGTH)
    requires PointsOf(ring, clusters)
    ensures IsPlacement(clusters, result)
  {
    forall s | 0 <= s < RING_LENGTH
      ensures PlacedAmong(clusters, result, s)
    {
      assert Owner(ring, s) in clusters && s in Listed(result, Owner(ring, s));
    }
    forall c, s | s in Listed(result, c)
      ensures s < RING_LENGTH && Owner(ring, s) == c
    {
      ListedIsOwned(ring, first, result, c, s);
    }
    forall c, d, s | s in Listed(result, c) && s in Listed(result, d)
      ensures c == d
    {
      ListedIsOwned(ring, first, result, c, s);
      ListedIsOwned(ring, first, result, d, s);
    }
  }

  lemma ListedIsOwned(ring: Points, first: nat, result: HandOver, c: nat, s: nat)
    requires Filled(ring, result, first, first + RING_LENGTH) && s in Listed(result, c)
    ensures s < RING_LENGTH && Owner(ring, s) == c
  {
    var i :| 0 <= i < |Listed(result, c)| && Listed(result, c)[i] == s;
    assert PlacedAt(ring, first, first + RING_LENGTH, c, Listed(result, c)[i]);
  }
}
