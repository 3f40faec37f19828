/** Transactions: preconditions, entries run against a scratch store over the locked keys, and the
    response built from the events once a version is known. Entries are plain reads, writes without ttl
    and removes. */
module Transaction {
  import opened Base

  datatype Cell = Cell(value: Value, version: nat)

  /** What the store under the transaction's locks shows. */
  type View = map<Key, Cell>

  datatype Precond =
    | VersionIs(key: Key, equal: bool, version: nat)
    | ExistIs(key: Key, shouldExist: bool)
    | UnknownCond

  datatype Item = ReadItem(key: Key) | WriteItem(key: Key, value: Value) | RemoveItem(key: Key, target: nat)

  datatype TransEvent =
    | ReadEvent(key: Key, value: Value, version: nat, notFound: bool)
    | WriteEvent(key: Key, value: Value)
    | DeleteEvent(key: Key, value: Value, deletedVersion: nat)

  datatype Result =
    | WriteResult(version: nat)
    | ReadResult(found: bool, value: Value, version: nat)
    | RemoveResult(found: bool, value: Value, version: nat)

  datatype Status = Ok | PrecondUnmatched | NotSupported

  // ----- running the entries one after the other, the meaning clients expect

  function RunItem(m: View, item: Item, v: nat): (View, Result) {
    match item
    case ReadItem(k) => (m, if k in m then ReadResult(true, m[k].value, m[k].version) else ReadResult(false, "", 0))
    case WriteItem(k, value) => (m[k := Cell(value, v)], WriteResult(v))
    case RemoveItem(k, target) =>
      if k in m && (target == INVALID_VERSION || target == m[k].version)
      then (m - {k}, RemoveResult(true, m[k].value, m[k].version))
      else (m, RemoveResult(false, "", 0))
  }

  function RunMap(base: View, items: seq<Item>, v: nat): View {
    if items == [] then base
    else RunItem(RunMap(base, items[..|items| - 1], v), items[|items| - 1], v).0
  }

  function RunResults(base: View, items: seq<Item>, v: nat): seq<Result> {
    if items == [] then []
    else
      var front := items[..|items| - 1];
      RunResults(base, front, v) + [RunItem(RunMap(base, front, v), items[|items| - 1], v).1]
  }

  // ----- what the code does: events against a scratch store, then a response

  /** The scratch store answers for keys written in this transaction, under the version that is not yet known;
      a remove leaves no mark in it. */
  function ScratchRead(base: View, scratch: map<Key, Value>, k: Key): Option<Cell> {
    if k in scratch then Some(Cell(scratch[k], INVALID_VERSION)) else Lookup(base, k)
  }

  function ItemEvent(base: View, scratch: map<Key, Value>, item: Item): TransEvent {
    match item
    case WriteItem(k, value) => WriteEvent(k, value)
    case ReadItem(k) =>
      var r := ScratchRead(base, scratch, k);
      if r.Some? then ReadEvent(k, r.value.value, r.value.version, false) else ReadEvent(k, "", 0, true)
    case RemoveItem(k, target) =>
      var r := ScratchRead(base, scratch, k);
      if r.None? then ReadEvent(k, "", 0, true)
      else if target != INVALID_VERSION && target != r.value.version then
        ReadEvent(k, r.value.value, r.value.version, true)
      else DeleteEvent(k, r.value.value, r.value.version)
  }

  function Scratch(items: seq<Item>): map<Key, Value> {
    if items == [] then map[]
    else
      var front, last := Scratch(items[..|items| - 1]), items[|items| - 1];
      if last.WriteItem? then front[last.key := last.value] else front
  }

  function Events(base: View, items: seq<Item>): seq<TransEvent> {
    if items == [] then []
    else
      var front := items[..|items| - 1];
      Events(base, front) + [ItemEvent(base, Scratch(front), items[|items| - 1])]
  }

  function ApplyEvent(m: View, e: TransEvent, v: nat): View {
    match e
    case ReadEvent(_, _, _, _) => m
    case WriteEvent(k, value) => m[k := Cell(value, v)]
    case DeleteEvent(k, _, _) => m - {k}
  }

  function ReplayEvents(m: View, es: seq<TransEvent>, v: nat): View {
    if es == [] then m else ApplyEvent(ReplayEvents(m, es[..|es| - 1], v), es[|es| - 1], v)
  }

  /** One line of the response; `written` are the keys this transaction has written before it. */
  function EventResult(item: Item, e: TransEvent, written: set<Key>, v: nat): Result {
    match item
    case WriteItem(_, _) => WriteResult(v)
    case ReadItem(_) =>
      if e.ReadEvent? && !e.notFound
      then ReadResult(true, e.value, if e.key in written then v else e.version)
      else ReadResult(false, "", 0)
    case RemoveItem(_, _) =>
      if e.DeleteEvent? then RemoveResult(true, e.value, e.deletedVersion) else RemoveResult(false, "", 0)
  }

  function CodeResults(base: View, items: seq<Item>, v: nat): seq<Result> {
    if items == [] then []
    else
      var front, last := items[..|items| - 1], items[|items| - 1];
      CodeResults(base, front, v)
      + [EventResult(last, ItemEvent(base, Scratch(front), last), Scratch(front).Keys, v)]
  }

  // ----- when the two agree

  /** The keys that the events so far delete and do not write again. */
  function Gone(base: View, items: seq<Item>): set<Key> {
    if items == [] then {}
    else
      var front := items[..|items| - 1];
      match ItemEvent(base, Scratch(front), items[|items| - 1])
      case ReadEvent(_, _, _, _) => Gone(base, front)
      case WriteEvent(k, _) => Gone(base, front) - {k}
      case DeleteEvent(k, _, _) => Gone(base, front) + {k}
  }

  /** An entry the scratch store serves faithfully: not a read of a key removed before it, and not a remove of a
      key written or removed before it unless its target version makes it miss either way. */
  predicate Served(base: View, front: seq<Item>, item: Item, v: nat) {
    var scratch, gone := Scratch(front), Gone(base, front);
    match item
    case WriteItem(_, _) => true
    case ReadItem(k) => k !in gone
    case RemoveItem(k, target) =>
      if k in gone then target != INVALID_VERSION && (k in scratch || (k in base ==> target != base[k].version))
      else if k in scratch then target != INVALID_VERSION && target != v
      else true
  }

  predicate Faithful(base: View, items: seq<Item>, v: nat) {
    forall i :: 0 <= i < |items| ==> ServedAt(base, items, i, v)
  }

  predicate ServedAt(base: View, items: seq<Item>, i: nat, v: nat)
    requires i < |items|
  {
    Served(base, items[..i], items[i], v)
  }

  /** How the map of the entries run in order stands to the scratch store. */
  ghost predicate Matches(base: View, items: seq<Item>, m: View, v: nat) {
    var scratch, gone := Scratch(items), Gone(base, items);
    forall k ::
      if k in gone then k !in m && ScratchRead(base, scratch, k).Some?
      else if k in scratch then k in m && m[k] == Cell(scratch[k], v)
      else Lookup(m, k) == Lookup(base, k)
  }

  lemma StepAgreesIff(base: View, front: seq<Item>, item: Item, m: View, v: nat)
    requires Matches(base, front, m, v) && v != INVALID_VERSION
    ensures
      var e := ItemEvent(base, Scratch(front), item);
      var same := EventResult(item, e, Scratch(front).Keys, v) == RunItem(m, item, v).1;
      && (same <==> Served(base, front, item, v))
      && (same ==> RunItem(m, item, v).0 == ApplyEvent(m, e, v))
  {
    var k := item.key;
    assert k in Gone(base, front) ==> k !in m && ScratchRead(base, Scratch(front), k).Some?;
  }

  lemma StepMatches(base: View, front: seq<Item>, item: Item, m: View, v: nat)
    requires Matches(base, front, m, v)
    ensures Matches(base, front + [item], ApplyEvent(m, ItemEvent(base, Scratch(front), item), v), v)
  {
    var items := front + [item];
    assert items[..|items| - 1] == front;
    var e := ItemEvent(base, Scratch(front), item);
    var m' := ApplyEvent(m, e, v);
    forall k
      ensures
        if k in Gone(base, items) then k !in m' && ScratchRead(base, Scratch(items), k).Some?
        else if k in Scratch(items) then k in m' && m'[k] == Cell(Scratch(items)[k], v)
        else Lookup(m', k) == Lookup(base, k)
    {
      assert Lookup(m, k) == Lookup(m, k);
      assert k in Gone(base, front) ==> k !in m;
    }
  }

  /** The code and the entries run in order have come to the same. */
  ghost predicate Agree(base: View, items: seq<Item>, v: nat) {
    && CodeResults(base, items, v) == RunResults(base, items, v)
    && ReplayEvents(base, Events(base, items), v) == RunMap(base, items, v)
    && Matches(base, items, RunMap(base, items, v), v)
  }

  lemma AgreeStep(base: View, front: seq<Item>, item: Item, v: nat)
    requires v != INVALID_VERSION && Agree(base, front, v) && Served(base, front, item, v)
    ensures Agree(base, front + [item], v)
  {
    var items, m := front + [item], RunMap(base, front, v);
    assert items[..|items| - 1] == front;
    StepAgreesIff(base, front, item, m, v);
    StepMatches(base, front, item, m, v);
    var e := ItemEvent(base, Scratch(front), item);
    assert Events(base, items) == Events(base, front) + [e];
    assert Events(base, items)[..|Events(base, items)| - 1] == Events(base, front);
  }

  lemma FaithfulFront(base: View, items: seq<Item>, n: nat, v: nat)
    requires n <= |items| && forall i :: 0 <= i < n ==> ServedAt(base, items, i, v)
    ensures Faithful(base, items[..n], v)
  {
    forall i | 0 <= i < n
      ensures ServedAt(base, items[..n], i, v)
    {
      assert items[..n][..i] == items[..i];
      assert ServedAt(base, items, i, v);
    }
  }

  /** While every entry is served, results, events and maps go together. */
  lemma {:induction false} ServedRunsAgree(base: View, items: seq<Item>, v: nat)
    requires v != INVALID_VERSION && Faithful(base, items, v)
    ensures Agree(base, items, v)
  {
    if items != [] {
      var n := |items| - 1;
      FaithfulFront(base, items, n, v);
      ServedRunsAgree(base, items[..n], v);
      assert ServedAt(base, items, n, v);
      AgreeStep(base, items[..n], items[n], v);
      assert items[..n] + [items[n]] == items;
    }
  }

  lemma {:induction false} ResultsLength(base: View, items: seq<Item>, v: nat)
    ensures |CodeResults(base, items, v)| == |RunResults(base, items, v)| == |items| == |Events(base, items)|
  {
    if items != [] {
      ResultsLength(base, items[..|items| - 1], v);
    }
  }

  lemma {:induction false} ResultsPrefix(base: View, items: seq<Item>, v: nat, n: nat)
    requires n <= |items|
    ensures |CodeResults(base, items, v)| == |RunResults(base, items, v)| == |items|
    ensures CodeResults(base, items, v)[..n] == CodeResults(base, items[..n], v)
    ensures RunResults(base, items, v)[..n] == RunResults(base, items[..n], v)
  {
    ResultsLength(base, items, v);
    if n == |items| {
      assert items[..n] == items;
    } else {
      var front := items[..|items| - 1];
      ResultsPrefix(base, front, v, n);
      assert front[..n] == items[..n];
    }
  }

  /** Results and stored map of a transaction are those of its entries run in order exactly when every entry
      is served; the first entry that is not gets a different result. */
  lemma SequentialIffFaithful(base: View, items: seq<Item>, v: nat)
    requires v != INVALID_VERSION
    ensures
      (CodeResults(base, items, v) == RunResults(base, items, v)
       && ReplayEvents(base, Events(base, items), v) == RunMap(base, items, v))
      <==> Faithful(base, items, v)
  {
    if Faithful(base, items, v) {
      ServedRunsAgree(base, items, v);
    } else {
      UnfaithfulDiffers(base, items, v);
    }
  }

  lemma UnfaithfulDiffers(base: View, items: seq<Item>, v: nat)
    requires v != INVALID_VERSION && !Faithful(base, items, v)
    ensures CodeResults(base, items, v) != RunResults(base, items, v)
  {
    var i := FirstUnserved(base, items, v);
    FaithfulFront(base, items, i, v);
    FirstDiffers(base, items[..i], items[i], v);
    assert items[..i + 1] == items[..i] + [items[i]];
    PrefixDiffers(base, items, v, i + 1);
  }

  lemma FirstDiffers(base: View, front: seq<Item>, item: Item, v: nat)
    requires v != INVALID_VERSION && Faithful(base, front, v) && !Served(base, front, item, v)
    ensures CodeResults(base, front + [item], v) != RunResults(base, front + [item], v)
  {
    ServedRunsAgree(base, front, v);
    UnservedDiffers(base, front, item, v);
  }

  lemma PrefixDiffers(base: View, items: seq<Item>, v: nat, n: nat)
    requires n <= |items| && CodeResults(base, items[..n], v) != RunResults(base, items[..n], v)
    ensures CodeResults(base, items, v) != RunResults(base, items, v)
  {
    ResultsPrefix(base, items, v, n);
  }

  lemma UnservedDiffers(base: View, front: seq<Item>, item: Item, v: nat)
    requires v != INVALID_VERSION && Agree(base, front, v) && !Served(base, front, item, v)
    ensures CodeResults(base, front + [item], v) != RunResults(base, front + [item], v)
  {
    var items, n := front + [item], |CodeResults(base, front, v)|;
    assert items[..|items| - 1] == front;
    StepAgreesIff(base, front, item, RunMap(base, front, v), v);
    assert CodeResults(base, items, v)[n] != RunResults(base, items, v)[n];
  }

  lemma {:induction false} FirstUnserved(base: View, items: seq<Item>, v: nat) returns (i: nat)
    requires !Faithful(base, items, v)
    ensures i < |items| && !Served(base, items[..i], items[i], v)
    ensures forall j :: 0 <= j < i ==> ServedAt(base, items, j, v)
  {
    i :| 0 <= i < |items| && !ServedAt(base, items, i, v);
    while exists j :: 0 <= j < i && !ServedAt(base, items, j, v)
      invariant 0 <= i < |items| && !ServedAt(base, items, i, v)
      decreases i
    {
      var j :| 0 <= j < i && !ServedAt(base, items, j, v);
      i := j;
    }
  }

  /** In particular it is enough that no other entry uses a removed key. */
  lemma LoneRemovesAreFaithful(base: View, items: seq<Item>, v: nat)
    requires forall i, j :: 0 <= i < |items| && 0 <= j < |items| && i != j && items[i].RemoveItem? ==>
      items[i].key != items[j].key
    ensures Faithful(base, items, v)
  {
    forall i | 0 <= i < |items|
      ensures ServedAt(base, items, i, v)
    {
      Marks(base, items[..i], items[i].key);
    }
  }

  /** A key is in the scratch store or gone only because an earlier entry wrote or removed it. */
  lemma {:induction false} Marks(base: View, items: seq<Item>, k: Key)
    ensures k in Gone(base, items) ==> exists j :: 0 <= j < |items| && items[j].RemoveItem? && items[j].key == k
    ensures k in Scratch(items) ==> exists j :: 0 <= j < |items| && items[j].WriteItem? && items[j].key == k
  {
    if items != [] {
      var front := items[..|items| - 1];
      Marks(base, front, k);
      assert forall j :: 0 <= j < |front| ==> front[j] == items[j];
      assert items[|items| - 1].key == k ==> items[|items| - 1].key == k;
    }
  }

  // ----- the command as it runs

  /** The locked scratch overlay of one transaction. */
  class ScratchStore {
    var data: map<Key, Value>
    const base: View

    constructor (base: View)
      ensures data == map[] && this.base == base
    {
      data, this.base := map[], base;
    }

    method WriteKV(k: Key, value: Value)
      modifies this
      ensures data == old(data)[k := value]
    {
      data := data[k := value];
    }

    method ReadKV(k: Key) returns (r: Option<Cell>)
      ensures r == ScratchRead(base, data, k)
    {
      if k in data {
        return Some(Cell(data[k], INVALID_VERSION));
      }
      return if k in base then Some(base[k]) else None;
    }
  }

  predicate Holds(base: View, c: Precond) {
    match c
    case VersionIs(k, equal, version) => k in base && equal && base[k].version == version
    case ExistIs(k, shouldExist) => shouldExist == (k in base)
    case UnknownCond => false
  }

  /** Stops at the first condition that does not hold. */
  method CheckPrecond(base: View, conds: seq<Precond>) returns (s: Status)
    ensures s == Ok <==> forall i :: 0 <= i < |conds| ==> Holds(base, conds[i])
    ensures s == Ok <==> forall i :: 0 <= i < |conds| ==>
      && !conds[i].UnknownCond?
      && (conds[i].ExistIs? ==> if conds[i].shouldExist then conds[i].key in base else conds[i].key !in base)
      && (conds[i].VersionIs? ==>
            conds[i].equal && conds[i].key in base && base[conds[i].key].version == conds[i].version)
    ensures s != Ok ==> exists i ::
      && 0 <= i < |conds| && !Holds(base, conds[i]) && (forall j :: 0 <= j < i ==> Holds(base, conds[j]))
      && (s == NotSupported <==>
            conds[i].UnknownCond? || (conds[i].VersionIs? && conds[i].key in base && !conds[i].equal))
  {
    for i := 0 to |conds|
      invariant forall j :: 0 <= j < i ==> Holds(base, conds[j])
    {
      match conds[i]
      case VersionIs(k, equal, version) =>
        if k !in base {
          return PrecondUnmatched;
        } else if !equal {
          return NotSupported;
        } else if version != base[k].version {
          return PrecondUnmatched;
        }
      case ExistIs(k, shouldExist) =>
        if shouldExist != (k in base) {
          return PrecondUnmatched;
        }
      case UnknownCond =>
        return NotSupported;
    }
    return Ok;
  }

  lemma EventsSnoc(base: View, items: seq<Item>, i: nat)
    requires i < |items|
    ensures Events(base, items[..i + 1]) == Events(base, items[..i]) + [ItemEvent(base, Scratch(items[..i]), items[i])]
    ensures Scratch(items[..i + 1]) ==
      if items[i].WriteItem? then Scratch(items[..i])[items[i].key := items[i].value] else Scratch(items[..i])
  {
    assert items[..i + 1][..i] == items[..i];
  }

  /** Runs the entries against a scratch store and collects one event each. */
  method Execute(base: View, items: seq<Item>) returns (events: seq<TransEvent>)
    ensures events == Events(base, items)
  {
    var temp := new ScratchStore(base);
    events := [];
    for i := 0 to |items|
      invariant temp.base == base && temp.data == Scratch(items[..i])
      invariant events == Events(base, items[..i])
    {
      EventsSnoc(base, items, i);
      match items[i]
      case WriteItem(k, value) =>
        temp.WriteKV(k, value);
        events := events + [WriteEvent(k, value)];
      case ReadItem(k) =>
        var r := temp.ReadKV(k);
        if r.None? {
          events := events + [ReadEvent(k, "", INVALID_VERSION, true)];
        } else {
          events := events + [ReadEvent(k, r.value.value, r.value.version, false)];
        }
      case RemoveItem(k, target) =>
        var r := temp.ReadKV(k);
        if r.None? {
          events := events + [ReadEvent(k, "", INVALID_VERSION, true)];
        } else if target != INVALID_VERSION && target != r.value.version {
          events := events + [ReadEvent(k, r.value.value, r.value.version, true)];
        } else {
          events := events + [DeleteEvent(k, r.value.value, r.value.version)];
        }
    }
    assert items[..|items|] == items;
  }

  lemma ResultsSnoc(base: View, items: seq<Item>, i: nat, v: nat)
    requires i < |items|
    ensures |Events(base, items)| == |items| && Events(base, items)[i] == ItemEvent(base, Scratch(items[..i]), items[i])
    ensures CodeResults(base, items[..i + 1], v) == CodeResults(base, items[..i], v)
      + [EventResult(items[i], Events(base, items)[i], Scratch(items[..i]).Keys, v)]
  {
    EventAt(base, items, i);
    assert items[..i + 1][..i] == items[..i];
  }

  lemma {:induction false} EventAt(base: View, items: seq<Item>, i: nat)
    requires i < |items|
    ensures |Events(base, items)| == |items| && Events(base, items)[i] == ItemEvent(base, Scratch(items[..i]), items[i])
  {
    var n := |items| - 1;
    if n > 0 {
      EventAt(base, items[..n], if i < n then i else 0);
    }
    if i < n {
      assert items[..n][..i] == items[..i];
    }
  }

  /** Turns events into the response once the version is known: a read of a key written earlier in the same
      transaction reports the version the write is stored under. */
  method InitSuccessResponse(ghost base: View, items: seq<Item>, events: seq<TransEvent>, v: nat)
    returns (results: seq<Result>)
    requires events == Events(base, items)
    ensures results == CodeResults(base, items, v)
  {
    results := [];
    if items != [] {
      EventAt(base, items, 0);
    }
    var newKeys: map<Key, nat> := map[];
    for i := 0 to |items|
      invariant items != [] ==> |events| == |items|
      invariant results == CodeResults(base, items[..i], v)
      invariant newKeys.Keys == Scratch(items[..i]).Keys && forall k :: k in newKeys ==> newKeys[k] == v
    {
      ResultsSnoc(base, items, i, v);
      EventsSnoc(base, items, i);
      var e := events[i];
      match items[i]
      case WriteItem(k, _) =>
        newKeys := newKeys[k := v];
        results := results + [WriteResult(v)];
      case ReadItem(_) =>
        if e.ReadEvent? && !e.notFound {
          results := results + [ReadResult(true, e.value, if e.key in newKeys then newKeys[e.key] else e.version)];
        } else {
          results := results + [ReadResult(false, "", INVALID_VERSION)];
        }
      case RemoveItem(_, _) =>
        if e.DeleteEvent? {
          results := results + [RemoveResult(true, e.value, e.deletedVersion)];
        } else {
          results := results + [RemoveResult(false, "", INVALID_VERSION)];
        }
    }
    assert items[..|items|] == items;
  }

  predicate ReadOnly(es: seq<TransEvent>) {
    forall i :: 0 <= i < |es| ==> es[i].ReadEvent?
  }

  lemma {:induction false} ReadOnlyChangesNothing(m: View, es: seq<TransEvent>, v: nat)
    requires ReadOnly(es)
    ensures ReplayEvents(m, es, v) == m
  {
    if es != [] {
      ReadOnlyChangesNothing(m, es[..|es| - 1], v);
    }
  }

  /** One transaction from its locked view to its answer. A failed precondition answers nothing, changes nothing
      and takes no version; so does a transaction that only reads take none; and otherwise answer
      and new view are those of the entries run in order exactly when every entry is served. */
  method Process(base: View, conds: seq<Precond>, items: seq<Item>, next: nat)
    returns (s: Status, results: seq<Result>, view: View, next': nat)
    requires next != INVALID_VERSION
    ensures s == Ok <==> forall i :: 0 <= i < |conds| ==> Holds(base, conds[i])
    ensures s != Ok ==> results == [] && view == base && next' == next
    ensures s == Ok ==> next' == if ReadOnly(Events(base, items)) then next else next + 1
    ensures s == Ok ==>
      results == CodeResults(base, items, next) && view == ReplayEvents(base, Events(base, items), next)
    ensures s == Ok ==>
      (results == RunResults(base, items, next) && view == RunMap(base, items, next) <==> Faithful(base, items, next))
  {
    results, view, next' := [], base, next;
    s := CheckPrecond(base, conds);
    if s == Ok {
      var events := Execute(base, items);
      results := InitSuccessResponse(base, items, events, next);
      if ReadOnly(events) {
        ReadOnlyChangesNothing(base, events, next);
      } else {
        next' := next + 1;
        view := ReplayEvents(base, events, next);
      }
      SequentialIffFaithful(base, items, next);
    }
  }

  /** What one more entry adds: to the scratch store, to the map of the entries run in order, and to both answers. */
  lemma OneMoreItem(base: View, front: seq<Item>, item: Item, v: nat)
    ensures Scratch(front + [item]) ==
      if item.WriteItem? then Scratch(front)[item.key := item.value] else Scratch(front)
    ensures RunMap(base, front + [item], v) == RunItem(RunMap(base, front, v), item, v).0
    ensures RunResults(base, front + [item], v) ==
      RunResults(base, front, v) + [RunItem(RunMap(base, front, v), item, v).1]
    ensures CodeResults(base, front + [item], v) == CodeResults(base, front, v)
      + [EventResult(item, ItemEvent(base, Scratch(front), item), Scratch(front).Keys, v)]
  {
    var items := front + [item];
    assert items[..|items| - 1] == front && items[|items| - 1] == item;
  }

  /** Removing a key and reading it in the same transaction still finds it. */
  lemma ReadAfterRemoveFindsIt(k: Key, value: Value, version: nat, v: nat)
    requires v != INVALID_VERSION
    ensures
      var base, items := map[k := Cell(value, version)], [RemoveItem(k, INVALID_VERSION), ReadItem(k)];
      && CodeResults(base, items, v) == [RemoveResult(true, value, version), ReadResult(true, value, version)]
      && RunResults(base, items, v) == [RemoveResult(true, value, version), ReadResult(false, "", 0)]
  {
    var base, remove, read := map[k := Cell(value, version)], RemoveItem(k, INVALID_VERSION), ReadItem(k);
    var first := [] + [remove];
    assert first == [remove] && first + [read] == [remove, read];
    OneMoreItem(base, [], remove, v);
    OneMoreItem(base, first, read, v);
    assert RunMap(base, first, v) == base - {k} && k !in RunMap(base, first, v);
    assert Scratch(first) == map[];
  }
}
