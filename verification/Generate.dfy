/** Generate commands, with the balance transfer as the function they run: sources are read without a lock,
    the new balances are computed, then all keys are locked, the versions read before are checked again, and the
    new balances are written under one new version. */
module Generate {
  import opened Base
  import LockOrder

  const UINT64: nat := 0x1_0000_0000_0000_0000
  /** The largest balance that the number parser accepts. */
  const INT_MAX: nat := 0x7FFF_FFFF

  datatype Cell = Cell(balance: nat, version: nat)
  type Accounts = map<Key, Cell>

  datatype Transfer = Transfer(from: Key, to: Key, amount: nat, sources: set<Key>, targets: seq<Key>)

  // ----- the generate function

  function BalanceOf(got: map<Key, Cell>, k: Key): nat {
    if k in got then got[k].balance else 0
  }

  /** The new balances in 64-bit arithmetic; a key given as both ends keeps only the second. */
  function NewBalances(got: map<Key, Cell>, t: Transfer): map<Key, nat> {
    map[t.from := (BalanceOf(got, t.from) + UINT64 - t.amount % UINT64) % UINT64,
        t.to := (BalanceOf(got, t.to) + t.amount) % UINT64]
  }

  /** The balance left at one end: the amount less, or that below zero counted down from the top of 64 bits. */
  predicate Debited(got: map<Key, Cell>, t: Transfer, left: nat) {
    var was := if t.from in got then got[t.from].balance else 0;
    if t.amount <= was then left + t.amount == was else left + t.amount == was + UINT64
  }

  /** The balance at the other end: the amount more, or what is over 64 bits. */
  predicate Credited(got: map<Key, Cell>, t: Transfer, now: nat) {
    var was := if t.to in got then got[t.to].balance else 0;
    if was + t.amount < UINT64 then now == was + t.amount else now + UINT64 == was + t.amount
  }

  /** One turn of 64-bit arithmetic. */
  lemma Turns(b: nat, n: nat)
    requires b <= INT_MAX && n < UINT64
    ensures (b + UINT64 - n % UINT64) % UINT64 == if n <= b then b - n else b + UINT64 - n
    ensures (b + n) % UINT64 == if b + n < UINT64 then b + n else b + n - UINT64
  {
    assert n % UINT64 == n;
  }

  predicate Parses(got: map<Key, Cell>, t: Transfer) {
    BalanceOf(got, t.from) <= INT_MAX && BalanceOf(got, t.to) <= INT_MAX
  }

  /** Both ends were read. */
  predicate BothRead(t: Transfer) {
    t.from in t.sources && t.to in t.sources
  }

  /** The transfers whose new balances add up: two accounts and neither or both sums wrap; or one account and
      nothing to move. */
  predicate AddsUp(got: map<Key, Cell>, t: Transfer) {
    if t.from == t.to then t.amount == 0
    else (BalanceOf(got, t.from) < t.amount <==> BalanceOf(got, t.to) + t.amount >= UINT64)
  }

  lemma AddsUpMeans(got: map<Key, Cell>, t: Transfer)
    requires t.amount < UINT64 && Parses(got, t)
    ensures var w := NewBalances(got, t);
      AddsUp(got, t) <==>
        if t.from == t.to then w[t.to] == BalanceOf(got, t.to)
        else w[t.from] + w[t.to] == BalanceOf(got, t.from) + BalanceOf(got, t.to)
  {
    Turns(BalanceOf(got, t.from), t.amount);
    Turns(BalanceOf(got, t.to), t.amount);
  }

  /** The two balances, each from the balance read and the amount alone. With one account at both ends the amount is
      only added. */
  lemma NewBalancesAre(got: map<Key, Cell>, t: Transfer)
    requires t.amount < UINT64 && Parses(got, t)
    ensures var w := NewBalances(got, t);
      && w.Keys == {t.from, t.to} && Credited(got, t, w[t.to])
      && (t.from != t.to ==> Debited(got, t, w[t.from]))
  {
    Turns(BalanceOf(got, t.from), t.amount);
    Turns(BalanceOf(got, t.to), t.amount);
  }

  /** Reads the balance of one end. */
  method Parse(got: map<Key, Cell>, k: Key) returns (r: Option<nat>)
    ensures r == if k in got && got[k].balance > INT_MAX then None else Some(BalanceOf(got, k))
  {
    if k in got {
      if got[k].balance > INT_MAX {
        return None;
      }
      return Some(got[k].balance);
    }
    r := Some(0);
  }

  /** The body as it runs, writing one balance after the other. */
  method Compute(got: map<Key, Cell>, t: Transfer) returns (r: Option<map<Key, nat>>)
    requires t.amount < UINT64
    ensures r == if Parses(got, t) then Some(NewBalances(got, t)) else None
    ensures r.None? <==>
      (t.from in got && got[t.from].balance > INT_MAX) || (t.to in got && got[t.to].balance > INT_MAX)
  {
    var inFrom := Parse(got, t.from);
    if inFrom.None? {
      return None;
    }
    var inTo := Parse(got, t.to);
    if inTo.None? {
      return None;
    }
    var a, b := inFrom.value, inTo.value;
    Turns(a, t.amount);
    Turns(b, t.amount);
    var out := map[];
    out := out[t.from := if a >= t.amount then a - t.amount else a + UINT64 - t.amount];
    out := out[t.to := if b + t.amount < UINT64 then b + t.amount else b + t.amount - UINT64];
    return Some(out);
  }

  /** The order of the keys a transfer writes, as an ordered set of strings has it. */
  function WrittenKeys(t: Transfer): seq<Key> {
    if t.from == t.to then [t.from]
    else if LockOrder.NameLess(t.from, t.to) then [t.from, t.to] else [t.to, t.from]
  }

  /** The check of generated keys against the requested targets compares only as far as the targets go. */
  predicate KeysAccepted(t: Transfer) {
    t.targets <= WrittenKeys(t)
  }

  /** The keys that the command locks: its sources and the requested targets. */
  function LockKeys(t: Transfer): set<Key> {
    t.sources + set k | k in t.targets
  }

  /** A transfer that is accepted writes only keys that it locks exactly when it reads every key it writes beyond the
      requested ones. */
  lemma AcceptedLocksIff(t: Transfer)
    requires KeysAccepted(t)
    ensures {t.from, t.to} <= LockKeys(t)
       <==> forall i :: |t.targets| <= i < |WrittenKeys(t)| ==> WrittenKeys(t)[i] in t.sources
  {
    var keys := WrittenKeys(t);
    assert forall i :: 0 <= i < |t.targets| ==> t.targets[i] == keys[i];
    assert forall k :: k in {t.from, t.to} <==> k in keys;
    if {t.from, t.to} <= LockKeys(t) {
      forall i | |t.targets| <= i < |keys|
        ensures keys[i] in t.sources
      {
        assert keys[i] in {t.from, t.to};
      }
    } else {
      var k :| k in {t.from, t.to} && k !in LockKeys(t);
      var i :| 0 <= i < |keys| && keys[i] == k;
      assert i >= |t.targets|;
    }
  }

  const BLIND: Transfer := Transfer("a", "b", 1, {"a"}, ["a"])

  /** Accepted, and yet it writes a key that it neither reads nor locks. */
  lemma AcceptedWritesUnlocked()
    ensures KeysAccepted(BLIND) && "b" in WrittenKeys(BLIND) && "b" !in LockKeys(BLIND)
  {
    assert LockOrder.NameLess("a", "b");
    assert ["a"] <= ["a", "b"];
  }

  // ----- commands

  datatype Handler =
    | Reading(t: Transfer, got: map<Key, Cell>)
    | Prepared(t: Transfer, got: map<Key, Cell>, writes: map<Key, nat>)
    | Locked(t: Transfer, got: map<Key, Cell>, writes: map<Key, nat>)
    | Validated(t: Transfer, got: map<Key, Cell>, writes: map<Key, nat>)
    | Done

  datatype State = State(accounts: Accounts, next: nat, handlers: map<nat, Handler>)

  datatype Step =
    | Begin(h: nat, t: Transfer)
    | ReadSource(h: nat, key: Key)
    | Prepare(h: nat)
    | Lock(h: nat)
    | Validate(h: nat)
    | Finish(h: nat)

  predicate Holding(h: Handler) {
    h.Locked? || h.Validated?
  }

  predicate Enabled(s: State, st: Step) {
    match st
    case Begin(h, t) => h !in s.handlers && t.amount < UINT64
    case ReadSource(h, k) =>
      h in s.handlers && s.handlers[h].Reading? && k in s.handlers[h].t.sources && k in s.accounts
    case Prepare(h) => h in s.handlers && s.handlers[h].Reading? && s.handlers[h].got.Keys == s.handlers[h].t.sources
    case Lock(h) =>
      && h in s.handlers && s.handlers[h].Prepared?
      && forall g | g in s.handlers && Holding(s.handlers[g]) ::
           LockKeys(s.handlers[g].t) !! LockKeys(s.handlers[h].t)
    case Validate(h) => h in s.handlers && s.handlers[h].Locked?
    case Finish(h) => h in s.handlers && s.handlers[h].Validated?
  }

  predicate StillCurrent(accounts: Accounts, got: map<Key, Cell>) {
    forall k :: k in got ==> k in accounts && accounts[k].version == got[k].version
  }

  function Written(accounts: Accounts, writes: map<Key, nat>, v: nat): Accounts {
    map k | k in accounts.Keys + writes.Keys :: if k in writes then Cell(writes[k], v) else accounts[k]
  }

  function NextHandler(s: State, st: Step): Handler
    requires Enabled(s, st)
  {
    match st
    case Begin(h, t) => Reading(t, map[])
    case ReadSource(h, k) =>
      var Reading(t, got) := s.handlers[h];
      Reading(t, got[k := s.accounts[k]])
    case Prepare(h) =>
      var Reading(t, got) := s.handlers[h];
      if Parses(got, t) && KeysAccepted(t) then Prepared(t, got, NewBalances(got, t)) else Done
    case Lock(h) => var Prepared(t, got, writes) := s.handlers[h]; Locked(t, got, writes)
    case Validate(h) =>
      var Locked(t, got, writes) := s.handlers[h];
      if StillCurrent(s.accounts, got) then Validated(t, got, writes) else Done
    case Finish(h) => Done
  }

  function Next(s: State, st: Step): State
    requires Enabled(s, st)
  {
    State(
      if st.Finish? then Written(s.accounts, s.handlers[st.h].writes, s.next) else s.accounts,
      if st.Finish? then s.next + 1 else s.next,
      s.handlers[st.h := NextHandler(s, st)])
  }

  // ----- the invariant

  ghost predicate HandlerOk(s: State, h: Handler) {
    !h.Done? ==>
      && h.t.amount < UINT64 && h.got.Keys <= h.t.sources
      && (forall k :: k in h.got ==> h.got[k].version < s.next && k in s.accounts
                                       && (s.accounts[k].version == h.got[k].version ==> s.accounts[k] == h.got[k]))
      && (!h.Reading? ==> h.got.Keys == h.t.sources && h.writes == NewBalances(h.got, h.t) && Parses(h.got, h.t))
  }

  ghost predicate Inv(s: State) {
    && (forall k :: k in s.accounts ==> s.accounts[k].version < s.next)
    && (forall h :: h in s.handlers ==> HandlerOk(s, s.handlers[h]))
    && LocksApart(s)
  }

  lemma HandlerStep(s: State, st: Step, h: nat)
    requires Enabled(s, st) && h in Next(s, st).handlers && (h in s.handlers ==> HandlerOk(s, s.handlers[h]))
    requires st.h in s.handlers ==> HandlerOk(s, s.handlers[st.h])
    requires forall k :: k in s.accounts ==> s.accounts[k].version < s.next
    ensures HandlerOk(Next(s, st), Next(s, st).handlers[h])
  {
  }

  /** Locks of commands that hold them are disjoint. */
  ghost predicate LocksApart(s: State) {
    forall g, h | g in s.handlers && h in s.handlers && g != h ::
      Holding(s.handlers[g]) && Holding(s.handlers[h]) ==> LockKeys(s.handlers[g].t) !! LockKeys(s.handlers[h].t)
  }

  lemma StepKeepsLocksApart(s: State, st: Step)
    requires Enabled(s, st) && LocksApart(s)
    ensures LocksApart(Next(s, st))
  {
  }

  lemma StepKeepsInv(s: State, st: Step)
    requires Inv(s) && Enabled(s, st)
    ensures Inv(Next(s, st))
  {
    StepKeepsLocksApart(s, st);
    forall h | h in Next(s, st).handlers
      ensures HandlerOk(Next(s, st), Next(s, st).handlers[h])
    {
      HandlerStep(s, st, h);
    }
  }

  /** A validated command has read the accounts as they are. */
  ghost predicate HandlerCurrent(accounts: Accounts, h: Handler) {
    h.Validated? ==> forall k :: k in h.got ==> k in accounts && accounts[k] == h.got[k]
  }

  ghost predicate Current(s: State) {
    forall h :: h in s.handlers ==> HandlerCurrent(s.accounts, s.handlers[h])
  }

  /** The finishing command writes what another validated command has read. */
  ghost predicate Tramples(s: State, st: Step)
    requires Enabled(s, st)
  {
    st.Finish? && exists h :: h in s.handlers && h != st.h && Trampled(s.handlers[st.h], s.handlers[h])
  }

  predicate Trampled(f: Handler, h: Handler)
    requires f.Validated?
  {
    h.Validated? && (f.t.from in h.got || f.t.to in h.got)
  }

  lemma FinishSparesIff(s: State, st: Step, h: nat)
    requires Inv(s) && Current(s) && Enabled(s, st) && st.Finish? && h in s.handlers && h != st.h
    ensures HandlerCurrent(Next(s, st).accounts, s.handlers[h]) <==> !Trampled(s.handlers[st.h], s.handlers[h])
  {
    var f, hd := s.handlers[st.h], s.handlers[h];
    assert HandlerOk(s, f) && HandlerOk(s, hd) && HandlerCurrent(s.accounts, hd);
    assert f.writes.Keys == {f.t.from, f.t.to};
    if Trampled(f, hd) {
      var k := if f.t.from in hd.got then f.t.from else f.t.to;
      assert Next(s, st).accounts[k].version == s.next > hd.got[k].version;
    }
  }

  lemma StepKeepsOthers(s: State, st: Step, h: nat)
    requires Inv(s) && Current(s) && Enabled(s, st) && !st.Finish? && h in Next(s, st).handlers
    ensures HandlerCurrent(Next(s, st).accounts, Next(s, st).handlers[h])
  {
    if h in s.handlers {
      assert HandlerCurrent(s.accounts, s.handlers[h]) && HandlerOk(s, s.handlers[h]);
    }
  }

  /** Validated commands stay up to date exactly as long as none of them writes what another has read. */
  lemma StepKeepsCurrentIff(s: State, st: Step)
    requires Inv(s) && Current(s) && Enabled(s, st)
    ensures Current(Next(s, st)) <==> !Tramples(s, st)
  {
    var s' := Next(s, st);
    if st.Finish? {
      forall h | h in s.handlers && h != st.h
        ensures HandlerCurrent(s'.accounts, s'.handlers[h]) <==> !Trampled(s.handlers[st.h], s.handlers[h])
      {
        FinishSparesIff(s, st, h);
      }
    } else {
      forall h | h in s'.handlers
        ensures HandlerCurrent(s'.accounts, s'.handlers[h])
      {
        StepKeepsOthers(s, st, h);
      }
    }
  }

  /** A command that has locked what it writes tramples on nobody. */
  lemma LockedNeverTramples(s: State, st: Step)
    requires Inv(s) && Enabled(s, st) && st.Finish?
    requires {s.handlers[st.h].t.from, s.handlers[st.h].t.to} <= LockKeys(s.handlers[st.h].t)
    ensures !Tramples(s, st)
  {
    var f := s.handlers[st.h];
    forall h | h in s.handlers && h != st.h && s.handlers[h].Validated?
      ensures !Trampled(f, s.handlers[h])
    {
      assert HandlerOk(s, s.handlers[h]);
      assert Holding(f) && Holding(s.handlers[h]);
      assert LockKeys(f.t) !! LockKeys(s.handlers[h].t);
    }
  }

  // ----- conservation

  /** The sum of the balances of a list of accounts. */
  function Total(accounts: Accounts, keys: seq<Key>): nat {
    if keys == [] then 0
    else Total(accounts, keys[..|keys| - 1]) + BalanceOf(accounts, keys[|keys| - 1])
  }

  ghost predicate Distinct(keys: seq<Key>) {
    forall i, j :: 0 <= i < j < |keys| ==> keys[i] != keys[j]
  }

  lemma {:induction false} TotalSame(a: Accounts, b: Accounts, keys: seq<Key>)
    requires forall k :: k in keys ==> BalanceOf(a, k) == BalanceOf(b, k)
    ensures Total(a, keys) == Total(b, keys)
  {
    if keys != [] {
      TotalSame(a, b, keys[..|keys| - 1]);
    }
  }

  /** Changing one account changes the total by the difference. */
  lemma {:induction false} TotalChange(a: Accounts, b: Accounts, keys: seq<Key>, k: Key)
    requires Distinct(keys) && k in keys && forall j :: j in keys && j != k ==> BalanceOf(a, j) == BalanceOf(b, j)
    ensures Total(b, keys) - BalanceOf(b, k) == Total(a, keys) - BalanceOf(a, k)
  {
    var front, last := keys[..|keys| - 1], keys[|keys| - 1];
    if last == k {
      assert k !in front;
      TotalSame(a, b, front);
    } else {
      TotalChange(a, b, front, k);
    }
  }

  lemma WrittenTotal(a: Accounts, writes: map<Key, nat>, t: Transfer, v: nat, keys: seq<Key>)
    requires writes.Keys == {t.from, t.to} && Distinct(keys) && t.from in keys && t.to in keys
    ensures Total(Written(a, writes, v), keys) - Total(a, keys) ==
      if t.from == t.to then writes[t.to] - BalanceOf(a, t.to)
      else writes[t.from] + writes[t.to] - BalanceOf(a, t.from) - BalanceOf(a, t.to)
  {
    var b := Written(a, writes, v);
    if t.from == t.to {
      TotalChange(a, b, keys, t.from);
    } else {
      var mid := a[t.from := b[t.from]];
      TotalChange(a, mid, keys, t.from);
      TotalChange(mid, b, keys, t.to);
    }
  }

  /** The ends of a transfer that it has not read. */
  ghost predicate UnreadEmpty(accounts: Accounts, t: Transfer) {
    && (t.from !in t.sources ==> BalanceOf(accounts, t.from) == 0)
    && (t.to !in t.sources ==> BalanceOf(accounts, t.to) == 0)
  }

  lemma ReadBalance(s: State, h: Handler, k: Key)
    requires HandlerOk(s, h) && HandlerCurrent(s.accounts, h) && h.Validated?
    ensures BalanceOf(h.got, k) == if k in h.t.sources then BalanceOf(s.accounts, k) else 0
  {
  }

  /** Finishing a validated transfer that reads both accounts keeps the total exactly when its balances add up. One
      whose balances add up keeps the total exactly when the accounts it does not read are empty. */
  lemma FinishConservesIff(s: State, st: Step, keys: seq<Key>)
    requires Inv(s) && Current(s) && Enabled(s, st) && st.Finish? && Distinct(keys)
    requires s.handlers[st.h].t.from in keys && s.handlers[st.h].t.to in keys
    ensures var t, got := s.handlers[st.h].t, s.handlers[st.h].got;
      var kept := Total(Next(s, st).accounts, keys) == Total(s.accounts, keys);
      && (BothRead(t) ==> (kept <==> AddsUp(got, t)))
      && (AddsUp(got, t) ==> (kept <==> UnreadEmpty(s.accounts, t)))
  {
    var h := s.handlers[st.h];
    assert HandlerOk(s, h) && HandlerCurrent(s.accounts, h);
    AddsUpMeans(h.got, h.t);
    ReadBalance(s, h, h.t.from);
    ReadBalance(s, h, h.t.to);
    WrittenTotal(s.accounts, h.writes, h.t, s.next, keys);
  }

  /** Validation passes exactly when every account that was read is still there as it was read. */
  lemma ValidatesIff(s: State, h: nat)
    requires Inv(s) && Enabled(s, Validate(h))
    ensures var hd, hd' := s.handlers[h], Next(s, Validate(h)).handlers[h];
      if forall k :: k in hd.got ==> k in s.accounts && s.accounts[k] == hd.got[k]
      then hd' == Validated(hd.t, hd.got, hd.writes) else hd' == Done
  {
    assert HandlerOk(s, s.handlers[h]);
  }

  /** Finishing a validated transfer between two accounts that it has read takes exactly the amount from one and gives
      it to the other, as long as neither sum wraps; both get the new version, and every other account stays as it
      is. */
  lemma FinishMoves(s: State, h: nat)
    requires Inv(s) && Current(s) && Enabled(s, Finish(h)) && BothRead(s.handlers[h].t)
    ensures var t, a, a' := s.handlers[h].t, s.accounts, Next(s, Finish(h)).accounts;
      && t.from in a && t.to in a && a'.Keys == a.Keys
      && (forall k :: k in a && k != t.from && k != t.to ==> a'[k] == a[k])
      && a'[t.from].version == a'[t.to].version == s.next
      && (t.from != t.to && t.amount <= a[t.from].balance ==> a'[t.from].balance == a[t.from].balance - t.amount)
      && (t.from != t.to && t.amount > a[t.from].balance ==>
            a'[t.from].balance == a[t.from].balance + UINT64 - t.amount)
      && a'[t.to].balance == if a[t.to].balance + t.amount < UINT64 then a[t.to].balance + t.amount
                             else a[t.to].balance + t.amount - UINT64
  {
    var hd := s.handlers[h];
    assert HandlerOk(s, hd) && HandlerCurrent(s.accounts, hd);
    assert hd.t.from in hd.got && hd.t.to in hd.got;
    NewBalancesAre(hd.got, hd.t);
  }

  /** The runs of the claim: a transfer locks what it writes, adds up when it is computed, and finds the accounts that
      it does not read empty when it writes them. */
  ghost predicate Fair(s: State, st: Step, keys: seq<Key>)
    requires Enabled(s, st)
  {
    && (st.Begin? ==> {st.t.from, st.t.to} <= LockKeys(st.t) && st.t.from in keys && st.t.to in keys)
    && (st.Prepare? ==> AddsUp(s.handlers[st.h].got, s.handlers[st.h].t))
    && (st.Finish? ==> UnreadEmpty(s.accounts, s.handlers[st.h].t))
  }

  ghost predicate HandlerFair(h: Handler, keys: seq<Key>) {
    !h.Done? ==>
      && {h.t.from, h.t.to} <= LockKeys(h.t) && h.t.from in keys && h.t.to in keys
      && (!h.Reading? ==> AddsUp(h.got, h.t))
  }

  ghost predicate FairSoFar(s: State, keys: seq<Key>) {
    forall h :: h in s.handlers ==> HandlerFair(s.handlers[h], keys)
  }

  lemma StepKeepsFair(s: State, st: Step, keys: seq<Key>)
    requires Enabled(s, st) && Fair(s, st, keys) && FairSoFar(s, keys)
    ensures FairSoFar(Next(s, st), keys)
  {
    forall h | h in Next(s, st).handlers
      ensures HandlerFair(Next(s, st).handlers[h], keys)
    {
      if h in s.handlers {
        assert HandlerFair(s.handlers[h], keys);
      }
    }
  }

  ghost predicate Init(s: State) {
    s.handlers == map[] && forall k :: k in s.accounts ==> s.accounts[k].version < s.next
  }

  ghost predicate IsRun(run: seq<State>, steps: seq<Step>) {
    && |run| == |steps| + 1 && Init(run[0])
    && forall i :: 0 <= i < |steps| ==> Takes(run[i], steps[i], run[i + 1])
  }

  ghost predicate Takes(s: State, st: Step, s': State) {
    Enabled(s, st) && s' == Next(s, st)
  }

  ghost predicate FairStep(s: State, st: Step, s': State, keys: seq<Key>) {
    Takes(s, st, s') && Fair(s, st, keys)
  }

  ghost predicate Safe(s: State, keys: seq<Key>) {
    Inv(s) && Current(s) && FairSoFar(s, keys)
  }

  lemma StepConserves(s: State, st: Step, s': State, keys: seq<Key>)
    requires Safe(s, keys) && FairStep(s, st, s', keys) && Distinct(keys)
    ensures Safe(s', keys) && Total(s'.accounts, keys) == Total(s.accounts, keys)
  {
    StepKeepsInv(s, st);
    StepKeepsFair(s, st, keys);
    if st.Finish? {
      assert HandlerFair(s.handlers[st.h], keys) && HandlerOk(s, s.handlers[st.h]);
      LockedNeverTramples(s, st);
      FinishConservesIff(s, st, keys);
    }
    StepKeepsCurrentIff(s, st);
  }

  /** In every interleaving of such transfers the total balance never changes. */
  lemma {:induction false} TransfersConserve(run: seq<State>, steps: seq<Step>, keys: seq<Key>, n: nat)
    requires |run| == |steps| + 1 && Init(run[0]) && n < |run| && Distinct(keys)
    requires forall i :: 0 <= i < n ==> FairStep(run[i], steps[i], run[i + 1], keys)
    ensures Safe(run[n], keys) && Total(run[n].accounts, keys) == Total(run[0].accounts, keys)
  {
    if n > 0 {
      TransfersConserve(run, steps, keys, n - 1);
      StepConserves(run[n - 1], steps[n - 1], run[n], keys);
    }
  }

  const BEFORE: Accounts := map["a" := Cell(10, 1), "b" := Cell(10, 1)]
  const AFTER: Accounts := map["a" := Cell(9, 2), "b" := Cell(1, 2)]
  const GOT: map<Key, Cell> := map["a" := Cell(10, 1)]

  lemma BlindBalances()
    ensures NewBalances(GOT, BLIND) == map["a" := 9, "b" := 1] && Written(BEFORE, NewBalances(GOT, BLIND), 2) == AFTER
  {
  }

  lemma TotalOfTwo(accounts: Accounts, k: Key, j: Key)
    ensures Total(accounts, [k, j]) == BalanceOf(accounts, k) + BalanceOf(accounts, j)
  {
    assert [k, j][..1] == [k] && [k][..0] == [];
    assert Total(accounts, [k]) == BalanceOf(accounts, k);
  }

  function Blind(h: Handler): State {
    State(BEFORE, 2, map[0 := h])
  }

  lemma BlindPrepares()
    ensures Takes(State(BEFORE, 2, map[]), Begin(0, BLIND), Blind(Reading(BLIND, map[])))
    ensures Takes(Blind(Reading(BLIND, map[])), ReadSource(0, "a"), Blind(Reading(BLIND, GOT)))
    ensures Takes(Blind(Reading(BLIND, GOT)), Prepare(0), Blind(Prepared(BLIND, GOT, NewBalances(GOT, BLIND))))
  {
    AcceptedWritesUnlocked();
  }

  lemma BlindWrites(writes: map<Key, nat>)
    requires writes == NewBalances(GOT, BLIND)
    ensures Takes(Blind(Prepared(BLIND, GOT, writes)), Lock(0), Blind(Locked(BLIND, GOT, writes)))
    ensures Takes(Blind(Locked(BLIND, GOT, writes)), Validate(0), Blind(Validated(BLIND, GOT, writes)))
    ensures Takes(Blind(Validated(BLIND, GOT, writes)), Finish(0), State(AFTER, 3, map[0 := Done]))
  {
    BlindBalances();
  }

  lemma BlindTotals()
    ensures Total(BEFORE, ["a", "b"]) == 20 && Total(AFTER, ["a", "b"]) == 10
  {
    TotalOfTwo(BEFORE, "a", "b");
    TotalOfTwo(AFTER, "a", "b");
  }

  /** A transfer of 1 from "a" that asks for "a" only is accepted, does not see the 10 on "b" and overwrites them. */
  lemma UnreadAccountIsOverwritten() returns (run: seq<State>, steps: seq<Step>)
    ensures IsRun(run, steps)
    ensures Total(run[0].accounts, ["a", "b"]) == 20 && Total(run[|steps|].accounts, ["a", "b"]) == 10
  {
    var writes := NewBalances(GOT, BLIND);
    BlindPrepares();
    BlindWrites(writes);
    run := [State(BEFORE, 2, map[]), Blind(Reading(BLIND, map[])), Blind(Reading(BLIND, GOT)),
            Blind(Prepared(BLIND, GOT, writes)), Blind(Locked(BLIND, GOT, writes)),
            Blind(Validated(BLIND, GOT, writes)), State(AFTER, 3, map[0 := Done])];
    steps := [Begin(0, BLIND), ReadSource(0, "a"), Prepare(0), Lock(0), Validate(0), Finish(0)];
    BlindTotals();
  }
}
