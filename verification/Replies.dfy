/** When clients are answered: reads that wait for the max version, and the max version that every reply raises after
    it has been sent. Runs on top of the write pipeline of all nodes. */
module Replies {
  import P = LeaderPipeline

  /** What a read found: nothing, a bundle that the node knows to be committed, or a command of the node's current
      term, which the overlay shows before it is committed. */
  datatype Found = Nothing | Stored(index: nat, entry: P.LogEntry) | Fresh(version: nat, cmd: nat)

  /** A read that waits for its reply: the term it ran in, the version it waits for and what it found. A read of
      several keys waits for the largest of their versions. */
  datatype ReadTask = ReadTask(term: nat, waits: nat, found: Found)

  /** `raises` are the versions of the replies sent since the node started; each may raise the max version at any
      later moment. `waiting` are the reads since then. */
  datatype Client = Client(maxVersion: nat, raises: set<nat>, waiting: set<ReadTask>)

  datatype State = State(core: P.State, clients: map<nat, Client>)

  datatype Step =
    | Pipeline(step: P.Step)
    | Read(node: nat, task: ReadTask)
    | AnswerRead(node: nat, task: ReadTask)
    | Raise(node: nat, version: nat)

  function Max(a: nat, b: nat): nat {
    if a < b then b else a
  }

  /** What a command of the node can find now, and the version that makes it wait for. A key that is nowhere waits for
      the current max version. */
  predicate CanFind(n: P.Node, c: Client, r: ReadTask) {
    && n.curTerm > 0 && r.term == n.curTerm
    && match r.found
       case Nothing => r.waits >= c.maxVersion
       case Stored(i, e) => i < n.commitIndex <= |n.log| && e == n.log[i] && e.Bundle? && r.waits >= e.version
       case Fresh(v, cmd) =>
         n.recovered < v < P.NextVersion(n) && cmd == n.alloc[v - n.recovered - 1] && r.waits >= v
  }

  predicate Enabled(s: State, st: Step) {
    match st
    case Pipeline(p) => P.Enabled(s.core, p) && p.n in s.clients
    case Read(id, r) => id in s.core.nodes && id in s.clients && CanFind(s.core.nodes[id], s.clients[id], r)
    case AnswerRead(id, r) => id in s.clients && r in s.clients[id].waiting && r.waits <= s.clients[id].maxVersion
    case Raise(id, v) => id in s.clients && v in s.clients[id].raises
  }

  function Replied(c: Client, v: nat): Client {
    c.(raises := c.raises + {v})
  }

  /** `corrected` is a variant that the source does not have: a failed write does not raise the max version. */
  function AfterPipeline(corrected: bool, s: State, p: P.Step): Client
    requires Enabled(s, Pipeline(p))
  {
    var c := s.clients[p.n];
    match p
    case EnterTerm(id, at, _) => c.(maxVersion := P.LastVersion(s.core.nodes[id].log[..at]))
    case AnswerOk(_, r) => Replied(c, r.version)
    case AnswerFailed(_, r) => if corrected then c else Replied(c, r.version)
    case Restart(_) => Client(0, {}, {})
    case _ => c
  }

  function Next(corrected: bool, s: State, st: Step): State
    requires Enabled(s, st)
  {
    match st
    case Pipeline(p) => State(P.Next(s.core, p), s.clients[p.n := AfterPipeline(corrected, s, p)])
    case Read(id, r) => s.(clients := s.clients[id := s.clients[id].(waiting := s.clients[id].waiting + {r})])
    case AnswerRead(id, r) => s.(clients := s.clients[id := Replied(s.clients[id], r.waits)])
    case Raise(id, v) =>
      s.(clients := s.clients[id := s.clients[id].(maxVersion := Max(s.clients[id].maxVersion, v))])
  }

  // ----- the version store

  /** The two counters of a node. */
  class VersionStore {
    var nextVersion: nat
    var maxVersion: nat

    ghost predicate Counts(n: P.Node, c: Client)
      reads this
    {
      nextVersion == P.NextVersion(n) && maxVersion == c.maxVersion
    }

    /** An expected version, which imports give, is taken over and never lowers the counter. */
    method AllocateNextVersion(expected: nat, cmd: nat, ghost n: P.Node, ghost c: Client) returns (version: nat)
      requires Counts(n, c)
      modifies this`nextVersion
      ensures expected == 0 ==> version == P.NextVersion(n) && Counts(P.Allocated(n, cmd), c)
      ensures expected != 0 ==> version == expected && nextVersion == Max(old(nextVersion), expected)
    {
      if expected == 0 {
        version := nextVersion;
        nextVersion := nextVersion + 1;
      } else if nextVersion >= expected {
        version := expected;
      } else {
        version := expected;
        nextVersion := expected;
      }
    }

    method UpdateCurMaxVersion(version: nat, ghost n: P.Node, ghost c: Client)
      requires Counts(n, c)
      modifies this`maxVersion
      ensures Counts(n, c.(maxVersion := Max(c.maxVersion, version)))
    {
      if version < maxVersion {
        return;
      }
      maxVersion := Max(version, maxVersion);
    }

    method RecoverMaxVersion(version: nat, ghost n: P.Node, ghost c: Client, ghost at: nat)
      requires at <= |n.log| && version == P.LastVersion(n.log[..at])
      modifies this
      ensures Counts(P.Entered(n, at), c.(maxVersion := version))
    {
      maxVersion := version;
      nextVersion := maxVersion + 1;
    }

    /** A read is answered once its version is at most the max version, and is put back otherwise; an answered read
        raises nothing. */
    method ReplyRead(r: ReadTask, ghost n: P.Node, ghost c: Client) returns (answered: bool)
      requires Counts(n, c)
      modifies this`maxVersion
      ensures answered <==> r.waits <= c.maxVersion
      ensures Counts(n, c)
    {
      if r.waits > maxVersion {
        return false;
      }
      UpdateCurMaxVersion(r.waits, n, c);
      answered := true;
    }
  }

  // ----- what the reads of a node have found

  /** The entry of a term with a version, wherever it was written, is that of the command. */
  ghost predicate Names(g: P.Shared, t: nat, v: nat, cmd: nat) {
    forall i | (i, t) in g.written :: NamesAt(g.written[(i, t)], v, cmd)
  }

  predicate NamesAt(e: P.LogEntry, v: nat, cmd: nat) {
    e.Bundle? && e.version == v ==> e.cmd == cmd
  }

  ghost predicate ReadOk(g: P.Shared, id: nat, n: P.Node, r: ReadTask) {
    && 0 < r.term <= n.curTerm && P.Leads(g, id, r.term)
    && match r.found
       case Nothing => true
       case Stored(i, e) => i < |g.chosen| && g.chosen[i] == e && e.Bundle? && e.version <= r.waits
       case Fresh(v, cmd) =>
         && v <= r.waits
         && if r.term == n.curTerm
            then n.recovered < v < P.NextVersion(n) && cmd == n.alloc[v - n.recovered - 1]
            else Names(g, r.term, v, cmd)
  }

  ghost predicate ClientOk(g: P.Shared, id: nat, n: P.Node, c: Client) {
    forall r :: r in c.waiting ==> ReadOk(g, id, n, r)
  }

  ghost predicate Inv(s: State) {
    P.Inv(s.core) && s.clients.Keys == s.core.nodes.Keys && ClientsOk(s)
  }

  ghost predicate ClientsOk(s: State)
    requires s.clients.Keys == s.core.nodes.Keys
  {
    forall id :: id in s.clients ==> ClientOk(s.core.shared, id, s.core.nodes[id], s.clients[id])
  }

  lemma OthersReadOk(g: P.Shared, g': P.Shared, who: nat, id: nat, n: P.Node, r: ReadTask)
    requires P.GrowsBy(g, g', who) && who != id && ReadOk(g, id, n, r)
    ensures ReadOk(g', id, n, r)
  {
    forall i | (i, r.term) in g'.written
      ensures (i, r.term) in g.written
    {
    }
  }

  /** The commands of a term that is over keep their versions. */
  lemma EnteredNames(g: P.Shared, id: nat, n: P.Node, v: nat)
    requires P.NodeOk(g, id, n) && n.curTerm > 0 && n.recovered < v < P.NextVersion(n)
    ensures Names(g, n.curTerm, v, n.alloc[v - n.recovered - 1])
  {
    forall i | (i, n.curTerm) in g.written
      ensures NamesAt(g.written[(i, n.curTerm)], v, n.alloc[v - n.recovered - 1])
    {
    }
  }

  /** A step of the node itself within its term. */
  lemma SamePeriod(s: P.State, p: P.Step)
    requires P.Enabled(s, p) && !p.EnterTerm? && !p.Restart?
    ensures var n, n' := s.nodes[p.n], P.NextNode(s, p);
      && n'.curTerm == n.curTerm && n'.recovered == n.recovered && n'.readyIndex == n.readyIndex
      && n.alloc <= n'.alloc
  {
  }

  lemma OwnReadOk(s: P.State, p: P.Step, r: ReadTask)
    requires P.Enabled(s, p) && !p.Restart? && P.SharedOk(s.shared) && P.NodeOk(s.shared, p.n, s.nodes[p.n])
    requires ReadOk(s.shared, p.n, s.nodes[p.n], r)
    ensures ReadOk(P.NextShared(s, p), p.n, P.NextNode(s, p), r)
  {
    var g, g', n := s.shared, P.NextShared(s, p), s.nodes[p.n];
    P.SharedStep(s, p);
    if p.EnterTerm? {
      if r.term == n.curTerm && r.found.Fresh? {
        EnteredNames(g, p.n, n, r.found.version);
      }
    } else {
      SamePeriod(s, p);
      OldNamesKept(s, p, r.term);
    }
  }

  /** Nothing is written any more in a term that is over for its leader. */
  lemma OldNamesKept(s: P.State, p: P.Step, t: nat)
    requires P.Enabled(s, p) && P.NodeOk(s.shared, p.n, s.nodes[p.n]) && P.Leads(s.shared, p.n, t)
    requires P.GrowsBy(s.shared, P.NextShared(s, p), p.n)
    ensures t < s.nodes[p.n].curTerm ==>
      forall i | (i, t) in P.NextShared(s, p).written ::
        (i, t) in s.shared.written && P.NextShared(s, p).written[(i, t)] == s.shared.written[(i, t)]
  {
    if p.Admit? {
      assert P.TaskOk(s.shared, p.n, s.nodes[p.n], p.task);
    }
  }

  lemma ReadStep(s: P.State, p: P.Step, id: nat, r: ReadTask)
    requires P.Enabled(s, p) && P.SharedOk(s.shared) && P.NodeOk(s.shared, p.n, s.nodes[p.n])
    requires id in s.nodes && ReadOk(s.shared, id, s.nodes[id], r) && (p.Restart? ==> id != p.n)
    ensures ReadOk(P.NextShared(s, p), id, P.Next(s, p).nodes[id], r)
  {
    if id == p.n {
      OwnReadOk(s, p, r);
    } else {
      P.SharedStep(s, p);
      OthersReadOk(s.shared, P.NextShared(s, p), p.n, id, s.nodes[id], r);
    }
  }

  lemma ClientStep(s: P.State, p: P.Step, id: nat, c: Client)
    requires P.Enabled(s, p) && P.SharedOk(s.shared) && P.NodeOk(s.shared, p.n, s.nodes[p.n])
    requires id in s.nodes && ClientOk(s.shared, id, s.nodes[id], c) && (p.Restart? ==> id != p.n || c.waiting == {})
    ensures ClientOk(P.NextShared(s, p), id, P.Next(s, p).nodes[id], c)
  {
    forall r | r in c.waiting
      ensures ReadOk(P.NextShared(s, p), id, P.Next(s, p).nodes[id], r)
    {
      ReadStep(s, p, id, r);
    }
  }

  lemma SameReads(g: P.Shared, id: nat, n: P.Node, c: Client, c': Client)
    requires ClientOk(g, id, n, c) && c'.waiting <= c.waiting
    ensures ClientOk(g, id, n, c')
  {
  }

  lemma SameWaiting(corrected: bool, s: State, p: P.Step)
    requires Enabled(s, Pipeline(p))
    ensures AfterPipeline(corrected, s, p).waiting == if p.Restart? then {} else s.clients[p.n].waiting
  {
  }

  lemma PipelineKeepsClients(corrected: bool, s: State, p: P.Step)
    requires s.clients.Keys == s.core.nodes.Keys && Enabled(s, Pipeline(p)) && ClientsOk(s)
    requires P.SharedOk(s.core.shared) && P.NodeOk(s.core.shared, p.n, s.core.nodes[p.n])
    ensures ClientsOk(Next(corrected, s, Pipeline(p)))
  {
    var c' := AfterPipeline(corrected, s, p);
    SameWaiting(corrected, s, p);
    var clients' := s.clients[p.n := c'];
    forall id | id in clients'
      ensures ClientOk(P.NextShared(s.core, p), id, P.Next(s.core, p).nodes[id], clients'[id])
    {
      SameReads(s.core.shared, id, s.core.nodes[id], s.clients[id], clients'[id]);
      ClientStep(s.core, p, id, clients'[id]);
    }
  }

  lemma FoundIsOk(g: P.Shared, id: nat, n: P.Node, c: Client, r: ReadTask)
    requires P.RaftOk(g, id, n) && P.TermOk(g, id, n) && CanFind(n, c, r)
    ensures ReadOk(g, id, n, r)
  {
    if r.found.Stored? {
      assert n.log[..n.commitIndex][r.found.index] == n.log[r.found.index];
    }
  }

  lemma ReplyKeepsClients(corrected: bool, s: State, st: Step)
    requires s.clients.Keys == s.core.nodes.Keys && Enabled(s, st) && !st.Pipeline? && ClientsOk(s)
    requires st.Read? ==> ReadOk(s.core.shared, st.node, s.core.nodes[st.node], st.task)
    ensures ClientsOk(Next(corrected, s, st))
  {
    assert ClientOk(s.core.shared, st.node, s.core.nodes[st.node], s.clients[st.node]);
  }

  function Actor(st: Step): nat {
    if st.Pipeline? then st.step.n else st.node
  }

  lemma StepKeepsClients(corrected: bool, s: State, st: Step)
    requires s.clients.Keys == s.core.nodes.Keys && Enabled(s, st) && ClientsOk(s)
    requires P.SharedOk(s.core.shared) && P.NodeOk(s.core.shared, Actor(st), s.core.nodes[Actor(st)])
    ensures ClientsOk(Next(corrected, s, st))
  {
    if st.Pipeline? {
      PipelineKeepsClients(corrected, s, st.step);
    } else {
      if st.Read? {
        FoundIsOk(s.core.shared, st.node, s.core.nodes[st.node], s.clients[st.node], st.task);
      }
      ReplyKeepsClients(corrected, s, st);
    }
  }

  lemma StepKeepsInv(corrected: bool, s: State, st: Step)
    requires Inv(s) && Enabled(s, st)
    ensures Inv(Next(corrected, s, st))
  {
    StepKeepsClients(corrected, s, st);
    CoreKeepsInv(corrected, s, st);
  }

  lemma CoreKeepsInv(corrected: bool, s: State, st: Step)
    requires P.Inv(s.core) && s.clients.Keys == s.core.nodes.Keys && Enabled(s, st)
    ensures P.Inv(Next(corrected, s, st).core)
    ensures Next(corrected, s, st).clients.Keys == Next(corrected, s, st).core.nodes.Keys
  {
    if st.Pipeline? {
      P.StepKeepsInv(s.core, st.step);
    }
  }

  // ----- the max version and what the node knows to be committed

  function CountWhile(log: seq<P.LogEntry>, i: nat, t: nat): nat
    decreases |log| - i
  {
    if i < |log| && log[i].term == t then 1 + CountWhile(log, i + 1, t) else 0
  }

  lemma {:induction false} CountWhileIs(log: seq<P.LogEntry>, i: nat, t: nat, k: nat)
    requires i <= |log|
    ensures i + CountWhile(log, i, t) <= |log|
    ensures k < CountWhile(log, i, t) ==> log[i + k].term == t
    ensures i + k < |log| && (forall j :: i <= j <= i + k ==> log[j].term == t) ==> k < CountWhile(log, i, t)
    decreases |log| - i
  {
    if i < |log| && log[i].term == t {
      CountWhileIs(log, i + 1, t, if k == 0 then 0 else k - 1);
    }
  }

  lemma CountWhileGrows(log: seq<P.LogEntry>, log': seq<P.LogEntry>, i: nat, t: nat)
    requires i <= |log| && log <= log'
    ensures CountWhile(log, i, t) <= CountWhile(log', i, t)
  {
    var c := CountWhile(log, i, t);
    if c > 0 {
      CountWhileIs(log, i, t, 0);
      forall j | i <= j <= i + c - 1
        ensures log'[j].term == t
      {
        CountWhileIs(log, i, t, j - i);
      }
      CountWhileIs(log', i, t, c - 1);
    }
  }

  /** The version of the last bundle of the node's term that the node knows to be committed, or the version it
      recovered when it entered the term. */
  function Known(n: P.Node): nat {
    if 0 < n.curTerm && n.commitIndex <= |n.log|
    then n.recovered + CountWhile(n.log[..n.commitIndex], n.readyIndex, n.curTerm)
    else 0
  }

  lemma KnownIsInLog(g: P.Shared, id: nat, n: P.Node, v: nat)
    requires P.RaftOk(g, id, n) && P.TermOk(g, id, n) && n.curTerm > 0 && n.recovered < v <= Known(n)
    ensures var i := n.readyIndex + (v - n.recovered);
      && i <= n.commitIndex && n.log[i - 1] == g.chosen[i - 1]
      && P.Lookup(g, i, n.curTerm, n.log[i - 1])
  {
    var i, known := n.readyIndex + (v - n.recovered), n.log[..n.commitIndex];
    CountWhileIs(known, n.readyIndex, n.curTerm, v - n.recovered - 1);
    assert known[i - 1] == n.log[i - 1] == g.chosen[..n.commitIndex][i - 1];
    assert P.Lookup(g, i, n.log[i - 1].term, n.log[i - 1]);
  }

  /** Every version from the recovered one up to the known one is that of a committed bundle of the term. */
  lemma KnownIsCommitted(g: P.Shared, id: nat, n: P.Node, v: nat)
    requires P.NodeOk(g, id, n) && n.curTerm > 0 && n.recovered < v <= Known(n)
    ensures var i := n.readyIndex + (v - n.recovered);
      && P.Leftover(n) == 0 && v < P.NextVersion(n) && i <= n.commitIndex
      && n.log[i - 1] == g.chosen[i - 1] == P.Bundle(n.curTerm, v, n.alloc[v - n.recovered - 1])
  {
    KnownIsInLog(g, id, n, v);
    P.WrittenWithoutLeftover(g, id, n, n.readyIndex + (v - n.recovered));
  }

  /** The replies sent so far cover no more than what the node knows to be committed. */
  ghost predicate BoundAt(n: P.Node, c: Client) {
    c.maxVersion <= Known(n) && forall v :: v in c.raises ==> v <= Known(n)
  }

  ghost predicate Bound(s: State)
    requires s.clients.Keys == s.core.nodes.Keys
  {
    forall id :: id in s.clients ==> BoundAt(s.core.nodes[id], s.clients[id])
  }

  /** A leader that still leads its term fails only writes of earlier terms. */
  lemma SteadyLeaderFailsOnlyOld(g: P.Shared, id: nat, n: P.Node, r: P.Task)
    requires P.NodeOk(g, id, n) && n.leader && n.term == n.curTerm && r in n.numbered && P.IsLost(n, r)
    ensures r.term < n.curTerm
  {
    assert P.TaskOk(g, id, n, r);
  }

  /** A failed write of the current term has a version above everything known to be committed in that term. */
  lemma LostIsAboveKnown(g: P.Shared, id: nat, n: P.Node, r: P.Task)
    requires P.NodeOk(g, id, n) && r in n.numbered && P.IsLost(n, r) && r.term == n.curTerm
    ensures r.version > Known(n)
  {
    assert P.TaskOk(g, id, n, r);
    if r.version <= Known(n) {
      KnownIsCommitted(g, id, n, r.version);
    }
  }

  lemma {:induction false} LastVersionIs(log: seq<P.LogEntry>)
    ensures P.LastVersion(log) == 0
         || exists i :: 0 <= i < |log| && log[i].Bundle? && log[i].version == P.LastVersion(log)
  {
    if log != [] && !log[|log| - 1].Bundle? {
      LastVersionIs(log[..|log| - 1]);
    }
  }

  lemma LastVersionPrefix(log: seq<P.LogEntry>, k: nat)
    requires P.VersionsIncrease(log) && k <= |log|
    ensures P.LastVersion(log[..k]) <= P.LastVersion(log)
  {
    LastVersionIs(log[..k]);
    if P.LastVersion(log[..k]) > 0 {
      var i :| 0 <= i < k && log[..k][i].Bundle? && log[..k][i].version == P.LastVersion(log[..k]);
      P.LastVersionBounds(log, i);
    }
  }

  /** A write answered OK is known. */
  lemma CommittedIsKnown(g: P.Shared, id: nat, n: P.Node, r: P.Task)
    requires P.SharedOk(g) && P.NodeOk(g, id, n) && r in n.numbered && P.IsCommitted(n, r)
    ensures r.version <= Known(n)
  {
    assert P.TaskOk(g, id, n, r);
    P.OkEntryIsOwn(g, id, n, r);
    if r.term == n.curTerm {
      var known, k := n.log[..n.commitIndex], r.index - n.readyIndex - 1;
      assert P.Lookup(g, r.index, r.term, g.chosen[r.index - 1]);
      forall j | n.readyIndex <= j <= n.readyIndex + k
        ensures known[j].term == n.curTerm
      {
        assert n.log[n.readyIndex - 1].term <= n.log[j].term && n.log[j].term <= n.log[r.index - 1].term;
      }
      CountWhileIs(known, n.readyIndex, n.curTerm, k);
    } else {
      P.LogPrefix(g, g.chosen, n.readyIndex);
      assert g.chosen[..n.readyIndex][r.index - 1] == P.AsEntry(r);
      P.LastVersionBounds(g.chosen[..n.readyIndex], r.index - 1);
    }
  }

  lemma KnownGrows(g: P.Shared, g': P.Shared, id: nat, n: P.Node, n': P.Node)
    requires P.RaftOk(g, id, n) && P.TermOk(g, id, n) && P.RaftOk(g', id, n') && g.chosen <= g'.chosen
    requires n.commitIndex <= n'.commitIndex
    requires n'.curTerm == n.curTerm && n'.recovered == n.recovered && n'.readyIndex == n.readyIndex
    ensures Known(n) <= Known(n')
  {
    if n.curTerm > 0 {
      var known, known' := n.log[..n.commitIndex], n'.log[..n'.commitIndex];
      assert known' == g'.chosen[..n'.commitIndex] && known == g.chosen[..n.commitIndex];
      assert known <= known';
      CountWhileGrows(known, known', n.readyIndex, n.curTerm);
    }
  }

  lemma ReadyBefore(g: P.Shared, id: nat, n: P.Node, at: nat)
    requires P.RaftOk(g, id, n) && P.TermOk(g, id, n) && 0 < n.curTerm < n.expected
    requires 0 < at <= n.commitIndex && n.log[at - 1].term == n.expected
    ensures n.readyIndex <= at && n.recovered == P.LastVersion(n.log[..at][..n.readyIndex])
  {
    assert n.log[n.readyIndex - 1] == n.log[..n.commitIndex][n.readyIndex - 1] == g.chosen[n.readyIndex - 1];
    assert n.log[..n.commitIndex][..n.readyIndex] == n.log[..n.readyIndex] == n.log[..at][..n.readyIndex];
    assert g.chosen[..n.commitIndex][..n.readyIndex] == g.chosen[..n.readyIndex];
  }

  lemma EarlierVersion(g: P.Shared, log: seq<P.LogEntry>, i: nat, at: nat)
    requires P.LogOk(g, log) && 0 < i <= |log| && 0 < at <= |log|
    requires log[i - 1].Bundle? && log[i - 1].term < log[at - 1].term
    ensures log[i - 1].version <= P.LastVersion(log[..at])
  {
    P.LogPrefix(g, log, at);
    assert i <= at && log[..at][i - 1] == log[i - 1];
    P.LastVersionBounds(log[..at], i - 1);
  }

  /** Whatever was known in an earlier term is below what is recovered for the next. */
  lemma KnownIsRecovered(g: P.Shared, id: nat, n: P.Node, at: nat)
    requires P.NodeOk(g, id, n) && n.curTerm < n.expected
    requires 0 < at <= n.commitIndex && n.log[at - 1].term == n.expected
    ensures Known(n) <= P.LastVersion(n.log[..at])
  {
    if n.curTerm > 0 {
      if Known(n) == n.recovered {
        ReadyBefore(g, id, n, at);
        P.LogPrefix(g, n.log, at);
        LastVersionPrefix(n.log[..at], n.readyIndex);
      } else {
        KnownIsCommitted(g, id, n, Known(n));
        EarlierVersion(g, n.log, n.readyIndex + (Known(n) - n.recovered), at);
      }
    }
  }

  /** A failed write that raises nothing too far: it is of an earlier term, and its version is not above the last one
      known to be committed in the current term. */
  predicate Harmless(n: P.Node, r: P.Task) {
    r.term < n.curTerm && r.version <= Known(n)
  }

  ghost predicate HarmlessStep(s: State, st: Step)
    requires Enabled(s, st)
  {
    st.Pipeline? && st.step.AnswerFailed? ==> Harmless(s.core.nodes[st.step.n], st.step.task)
  }

  lemma AnswerKeepsBoundIff(corrected: bool, s: State, p: P.Step)
    requires Enabled(s, Pipeline(p)) && (p.AnswerOk? || p.AnswerFailed?)
    requires P.SharedOk(s.core.shared) && P.NodeOk(s.core.shared, p.n, s.core.nodes[p.n])
    requires BoundAt(s.core.nodes[p.n], s.clients[p.n])
    ensures BoundAt(s.core.nodes[p.n], AfterPipeline(corrected, s, p)) <==> corrected || HarmlessStep(s, Pipeline(p))
  {
    var g, n := s.core.shared, s.core.nodes[p.n];
    assert P.TaskOk(g, p.n, n, p.task);
    if p.AnswerOk? {
      CommittedIsKnown(g, p.n, n, p.task);
    } else if p.task.term == n.curTerm {
      LostIsAboveKnown(g, p.n, n, p.task);
    }
    assert !corrected || p.AnswerOk? ==> p.task.version in AfterPipeline(corrected, s, p).raises;
  }

  lemma CommitOnlyGrows(s: P.State, p: P.Step)
    requires P.Enabled(s, p) && !p.Restart?
    ensures s.nodes[p.n].commitIndex <= P.NextNode(s, p).commitIndex
  {
  }

  lemma EnterKeepsBound(g: P.Shared, id: nat, n: P.Node, c: Client, at: nat)
    requires P.NodeOk(g, id, n) && n.curTerm < n.expected && BoundAt(n, c)
    requires 0 < at <= n.commitIndex && n.log[at - 1].term == n.expected
    ensures BoundAt(P.Entered(n, at), c.(maxVersion := P.LastVersion(n.log[..at])))
  {
    KnownIsRecovered(g, id, n, at);
    assert Known(P.Entered(n, at)) >= P.LastVersion(n.log[..at]);
  }

  lemma PipelineKeepsBound(corrected: bool, s: State, p: P.Step)
    requires Enabled(s, Pipeline(p)) && !p.AnswerOk? && !p.AnswerFailed? && !p.EnterTerm? && !p.Restart?
    requires P.RaftOk(s.core.shared, p.n, s.core.nodes[p.n]) && P.TermOk(s.core.shared, p.n, s.core.nodes[p.n])
    requires P.RaftOk(P.NextShared(s.core, p), p.n, P.NextNode(s.core, p))
    requires BoundAt(s.core.nodes[p.n], s.clients[p.n])
    ensures BoundAt(P.NextNode(s.core, p), AfterPipeline(corrected, s, p))
  {
    P.StepChosen(s.core, p);
    SamePeriod(s.core, p);
    CommitOnlyGrows(s.core, p);
    KnownGrows(s.core.shared, P.NextShared(s.core, p), p.n, s.core.nodes[p.n], P.NextNode(s.core, p));
    assert AfterPipeline(corrected, s, p) == s.clients[p.n];
  }

  lemma SwitchKeepsBound(corrected: bool, s: State, p: P.Step)
    requires Enabled(s, Pipeline(p)) && (p.EnterTerm? || p.Restart?)
    requires P.NodeOk(s.core.shared, p.n, s.core.nodes[p.n]) && BoundAt(s.core.nodes[p.n], s.clients[p.n])
    ensures BoundAt(P.NextNode(s.core, p), AfterPipeline(corrected, s, p))
  {
    if p.EnterTerm? {
      var n := s.core.nodes[p.n];
      assert n.log[p.at - 1] == n.log[..p.at][p.at - 1];
      EnterKeepsBound(s.core.shared, p.n, n, s.clients[p.n], p.at);
    }
  }

  lemma NodeKeepsBoundIff(corrected: bool, s: State, p: P.Step)
    requires Enabled(s, Pipeline(p)) && P.SharedOk(s.core.shared)
    requires P.NodeOk(s.core.shared, p.n, s.core.nodes[p.n]) && BoundAt(s.core.nodes[p.n], s.clients[p.n])
    requires p.Replicate? ==> P.NodeOk(s.core.shared, p.from, s.core.nodes[p.from])
    ensures BoundAt(P.NextNode(s.core, p), AfterPipeline(corrected, s, p))
       <==> corrected || HarmlessStep(s, Pipeline(p))
  {
    if p.AnswerOk? || p.AnswerFailed? {
      AnswerKeepsBoundIff(corrected, s, p);
    } else if p.EnterTerm? || p.Restart? {
      SwitchKeepsBound(corrected, s, p);
    } else {
      P.NodeStep(s.core, p);
      PipelineKeepsBound(corrected, s, p);
    }
  }

  lemma BoundElsewhere(s: State, g': P.Shared, id: nat, n': P.Node, c': Client)
    requires s.clients.Keys == s.core.nodes.Keys && Bound(s) && id in s.clients
    ensures var s' := State(P.State(g', s.core.nodes[id := n']), s.clients[id := c']);
      s'.clients.Keys == s'.core.nodes.Keys && (Bound(s') <==> BoundAt(n', c'))
  {
    var s' := State(P.State(g', s.core.nodes[id := n']), s.clients[id := c']);
    assert s'.core.nodes[id] == n' && s'.clients[id] == c';
  }

  lemma ReplyKeepsBound(corrected: bool, s: State, st: Step)
    requires s.clients.Keys == s.core.nodes.Keys && Bound(s) && Enabled(s, st) && !st.Pipeline?
    ensures Next(corrected, s, st).clients.Keys == s.clients.Keys && Bound(Next(corrected, s, st))
  {
    assert BoundAt(s.core.nodes[st.node], s.clients[st.node]);
  }

  /** A step keeps the bound exactly when it is not a failed write of the current term, nor a failed write of an
      earlier term with a version above the last one known to be committed. */
  lemma StepKeepsBoundIff(corrected: bool, s: State, st: Step)
    requires Inv(s) && Bound(s) && Enabled(s, st)
    ensures Next(corrected, s, st).clients.Keys == Next(corrected, s, st).core.nodes.Keys
    ensures Bound(Next(corrected, s, st)) <==> corrected || HarmlessStep(s, st)
  {
    if st.Pipeline? {
      var p := st.step;
      assert P.NodeOk(s.core.shared, p.n, s.core.nodes[p.n]) && BoundAt(s.core.nodes[p.n], s.clients[p.n]);
      NodeKeepsBoundIff(corrected, s, p);
      BoundElsewhere(s, P.NextShared(s.core, p), p.n, P.NextNode(s.core, p), AfterPipeline(corrected, s, p));
    } else {
      ReplyKeepsBound(corrected, s, st);
    }
  }

  // ----- what an answered read returns

  ghost predicate Holds(log: seq<P.LogEntry>, e: P.LogEntry) {
    exists i :: 0 <= i < |log| && log[i] == e
  }

  /** What the read found is in the chosen log. */
  ghost predicate ReturnsChosen(g: P.Shared, r: ReadTask) {
    match r.found
    case Nothing => true
    case Stored(_, e) => Holds(g.chosen, e)
    case Fresh(v, cmd) => Holds(g.chosen, P.Bundle(r.term, v, cmd))
  }

  predicate HasVersion(log: seq<P.LogEntry>, t: nat, v: nat) {
    exists i :: 0 <= i < |log| && IsVersion(log[i], t, v)
  }

  predicate IsVersion(e: P.LogEntry, t: nat, v: nat) {
    e.Bundle? && e.term == t && e.version == v
  }

  lemma CurrentReadIsChosen(g: P.Shared, id: nat, n: P.Node, c: Client, r: ReadTask)
    requires P.NodeOk(g, id, n) && BoundAt(n, c) && ReadOk(g, id, n, r) && r.waits <= c.maxVersion
    requires r.term == n.curTerm
    ensures ReturnsChosen(g, r)
  {
    if r.found.Fresh? {
      var v := r.found.version;
      KnownIsCommitted(g, id, n, v);
      assert g.chosen[n.readyIndex + (v - n.recovered) - 1] == P.Bundle(r.term, v, r.found.cmd);
    }
  }

  /** A read that outlives its term: what it found is chosen exactly when the log that the node had when it entered its
      current term holds a bundle of the term and version of the read. */
  lemma OldReadIsChosenIff(g: P.Shared, id: nat, n: P.Node, r: ReadTask)
    requires P.SharedOk(g) && P.NodeOk(g, id, n) && ReadOk(g, id, n, r) && r.term < n.curTerm && r.found.Fresh?
    ensures n.readyIndex <= |n.log|
    ensures ReturnsChosen(g, r) <==> HasVersion(n.log[..n.readyIndex], r.term, r.found.version)
  {
    var log, v, e := n.log[..n.readyIndex], r.found.version, P.Bundle(r.term, r.found.version, r.found.cmd);
    assert log == n.log[..n.commitIndex][..n.readyIndex] && g.chosen[..n.commitIndex][..n.readyIndex] == log;
    assert g.chosen[..n.readyIndex] == log;
    if ReturnsChosen(g, r) {
      var i :| 0 <= i < |g.chosen| && g.chosen[i] == e;
      assert i < n.readyIndex;
      assert IsVersion(log[i], r.term, v);
    }
    if HasVersion(log, r.term, v) {
      var i :| 0 <= i < |log| && IsVersion(log[i], r.term, v);
      assert P.Lookup(g, i + 1, r.term, n.log[i]);
      assert NamesAt(g.written[(i + 1, r.term)], v, r.found.cmd);
      assert g.chosen[i] == e;
    }
  }

  // ----- runs

  ghost predicate Init(s: State) {
    && P.Init(s.core) && s.clients.Keys == s.core.nodes.Keys
    && forall id :: id in s.clients ==> s.clients[id] == Client(0, {}, {})
  }

  ghost predicate IsRun(corrected: bool, run: seq<State>, steps: seq<Step>) {
    && |run| == |steps| + 1 && Init(run[0])
    && forall i :: 0 <= i < |steps| ==> Enabled(run[i], steps[i]) && run[i + 1] == Next(corrected, run[i], steps[i])
  }

  lemma InitInv(s: State)
    requires Init(s)
    ensures Inv(s) && Bound(s)
  {
  }

  lemma {:induction false} RunInv(corrected: bool, run: seq<State>, steps: seq<Step>, i: nat)
    requires IsRun(corrected, run, steps) && i < |run|
    ensures Inv(run[i])
  {
    if i == 0 {
      InitInv(run[0]);
    } else {
      RunInv(corrected, run, steps, i - 1);
      StepKeepsInv(corrected, run[i - 1], steps[i - 1]);
    }
  }

  /** The runs of the claim: in the source every failed write so far was harmless; in the corrected variant all. */
  ghost predicate Fair(corrected: bool, run: seq<State>, steps: seq<Step>, n: nat)
    requires IsRun(corrected, run, steps)
  {
    corrected || forall i :: 0 <= i < n && i < |steps| ==> HarmlessStep(run[i], steps[i])
  }

  /** In these runs the max version never exceeds the version of what the node knows to be committed in its term. */
  lemma {:induction false} RunBound(corrected: bool, run: seq<State>, steps: seq<Step>, i: nat)
    requires IsRun(corrected, run, steps) && i < |run| && Fair(corrected, run, steps, i)
    ensures run[i].clients.Keys == run[i].core.nodes.Keys && Bound(run[i])
  {
    if i == 0 {
      InitInv(run[0]);
    } else {
      RunBound(corrected, run, steps, i - 1);
      RunInv(corrected, run, steps, i - 1);
      StepKeepsBoundIff(corrected, run[i - 1], steps[i - 1]);
    }
  }

  /** What decides whether an answered read returned a chosen value, on what the node itself holds: it found nothing or
      a committed bundle, or ran in the node's current term, or its bundle was in the log when that term was entered. */
  predicate IsSafe(n: P.Node, r: ReadTask) {
    r.found.Fresh? && r.term != n.curTerm ==>
      n.readyIndex <= |n.log| && HasVersion(n.log[..n.readyIndex], r.term, r.found.version)
  }

  lemma AnsweredIff(s: State, st: Step)
    requires Inv(s) && Bound(s) && Enabled(s, st) && st.AnswerRead?
    ensures ReturnsChosen(s.core.shared, st.task) <==> IsSafe(s.core.nodes[st.node], st.task)
  {
    var g, n, c := s.core.shared, s.core.nodes[st.node], s.clients[st.node];
    assert P.NodeOk(g, st.node, n) && BoundAt(n, c) && ClientOk(g, st.node, n, c);
    assert ReadOk(g, st.node, n, st.task);
    if st.task.term == n.curTerm {
      CurrentReadIsChosen(g, st.node, n, c, st.task);
    } else if st.task.found.Fresh? {
      OldReadIsChosenIff(g, st.node, n, st.task);
    }
  }

  /** In every such run, an answered read returned a chosen value exactly when it was safe. */
  lemma AnsweredReadIsChosenIff(corrected: bool, run: seq<State>, steps: seq<Step>, i: nat)
    requires IsRun(corrected, run, steps) && i < |steps| && steps[i].AnswerRead? && Fair(corrected, run, steps, i)
    ensures ReturnsChosen(run[i].core.shared, steps[i].task)
       <==> steps[i].node in run[i].core.nodes && IsSafe(run[i].core.nodes[steps[i].node], steps[i].task)
  {
    RunInv(corrected, run, steps, i);
    RunBound(corrected, run, steps, i);
    AnsweredIff(run[i], steps[i]);
  }

  lemma StepChosen(corrected: bool, s: State, st: Step)
    requires Enabled(s, st)
    ensures s.core.shared.chosen <= Next(corrected, s, st).core.shared.chosen
  {
    if st.Pipeline? {
      P.StepChosen(s.core, st.step);
    }
  }

  lemma {:induction false} ChosenGrows(corrected: bool, run: seq<State>, steps: seq<Step>, i: nat, j: nat)
    requires IsRun(corrected, run, steps) && i <= j < |run|
    ensures run[i].core.shared.chosen <= run[j].core.shared.chosen
  {
    if i < j {
      ChosenGrows(corrected, run, steps, i, j - 1);
      StepChosen(corrected, run[j - 1], steps[j - 1]);
    }
  }

  lemma StaysChosen(g: P.Shared, g': P.Shared, r: ReadTask)
    requires ReturnsChosen(g, r) && g.chosen <= g'.chosen
    ensures ReturnsChosen(g', r)
  {
    forall e | Holds(g.chosen, e)
      ensures Holds(g'.chosen, e)
    {
      var i :| 0 <= i < |g.chosen| && g.chosen[i] == e;
      assert g'.chosen[i] == e;
    }
  }

  /** In every such run, however replies and raises interleave, a read answered in the term it ran in returned a value
      that is in the chosen log then and in every later state. */
  lemma AnsweredReadIsChosen(corrected: bool, run: seq<State>, steps: seq<Step>, i: nat, j: nat)
    requires IsRun(corrected, run, steps) && i < |steps| && i <= j < |run|
    requires steps[i].AnswerRead? && Fair(corrected, run, steps, i)
    requires steps[i].node in run[i].core.nodes && steps[i].task.term == run[i].core.nodes[steps[i].node].curTerm
    ensures ReturnsChosen(run[j].core.shared, steps[i].task)
  {
    AnsweredReadIsChosenIff(corrected, run, steps, i);
    ChosenGrows(corrected, run, steps, i, j);
    StaysChosen(run[i].core.shared, run[j].core.shared, steps[i].task);
  }

  // ----- what replies raise and what reads wait for

  /** Every reply leaves its version to be raised: of a write, answered or failed, and of a read. */
  lemma EveryReplyRaises(s: State, st: Step)
    requires Enabled(s, st)
    ensures st.AnswerRead? ==> st.task.waits in Next(false, s, st).clients[st.node].raises
    ensures st.Pipeline? && (st.step.AnswerOk? || st.step.AnswerFailed?) ==>
      st.step.task.version in Next(false, s, st).clients[st.step.n].raises
  {
  }

  /** In every run, the max version is at an answered read no lower than the version of what the read found, and for a
      read that found nothing no lower than it was when it ran. */
  lemma AnsweredReadHasWaited(corrected: bool, run: seq<State>, steps: seq<Step>, i: nat, j: nat)
    requires IsRun(corrected, run, steps) && i < |steps| && j < |steps|
    requires steps[i].Read? && steps[j] == AnswerRead(steps[i].node, steps[i].task)
    ensures var max, found := run[j].clients[steps[j].node].maxVersion, steps[i].task.found;
      && (found.Nothing? ==> max >= run[i].clients[steps[i].node].maxVersion)
      && (found.Stored? ==> found.entry.Bundle? && max >= found.entry.version)
      && (found.Fresh? ==> max >= found.version)
  {
  }

  // ----- two runs of a single node in which a read returns a value that is lost

  function Alone(g: P.Shared, n: P.Node, c: Client): State {
    State(P.State(g, map[0 := n]), map[0 := c])
  }

  /** No step so far is a failed write. */
  ghost predicate NoneFailed(steps: seq<Step>) {
    forall i :: 0 <= i < |steps| ==> !Fails(steps[i])
  }

  predicate Fails(st: Step) {
    st.Pipeline? && st.step.AnswerFailed?
  }

  ghost predicate Ends(run: seq<State>, steps: seq<Step>, g: P.Shared, n: P.Node, c: Client) {
    IsRun(false, run, steps) && run[|steps|] == Alone(g, n, c)
  }

  ghost predicate Leads(g: P.Shared, n: P.Node, c: Client, st: Step, g': P.Shared, n': P.Node, c': Client) {
    && Enabled(Alone(g, n, c), st)
    && if st.Pipeline? then
         && st.step.n == 0 && g' == P.NextShared(Alone(g, n, c).core, st.step)
         && n' == P.NextNode(Alone(g, n, c).core, st.step) && c' == AfterPipeline(false, Alone(g, n, c), st.step)
       else st.node == 0 && g' == g && n' == n && c' == Next(false, Alone(g, n, c), st).clients[0]
  }

  lemma LeadsAlone(g: P.Shared, n: P.Node, c: Client, st: Step, g': P.Shared, n': P.Node, c': Client)
    requires Leads(g, n, c, st, g', n', c')
    ensures Next(false, Alone(g, n, c), st) == Alone(g', n', c')
  {
    assert map[0 := n][0 := n'] == map[0 := n'] && map[0 := c][0 := c'] == map[0 := c'];
  }

  lemma RunExtended(run: seq<State>, steps: seq<Step>, st: Step)
    requires IsRun(false, run, steps) && Enabled(run[|steps|], st)
    ensures IsRun(false, run + [Next(false, run[|steps|], st)], steps + [st])
  {
  }

  lemma Go(run: seq<State>, steps: seq<Step>, g: P.Shared, n: P.Node, c: Client, st: Step,
           g': P.Shared, n': P.Node, c': Client) returns (run': seq<State>, steps': seq<Step>)
    requires Ends(run, steps, g, n, c) && Leads(g, n, c, st, g', n', c')
    ensures Ends(run', steps', g', n', c')
    ensures NoneFailed(steps) && !Fails(st) ==> NoneFailed(steps')
  {
    LeadsAlone(g, n, c, st, g', n', c');
    RunExtended(run, steps, st);
    run', steps' := run + [Alone(g', n', c')], steps + [st];
  }

  /** The node is elected, its no-op is chosen and learnt, and it sees that it leads. */
  lemma Won(run: seq<State>, steps: seq<Step>, g: P.Shared, n: P.Node, c: Client, t: nat)
    returns (run': seq<State>, steps': seq<Step>, g': P.Shared, n': P.Node)
    requires Ends(run, steps, g, n, c) && n.term < t && t !in g.leaderOf
    requires g.chosen == n.log && n.commitIndex == |n.log|
    ensures var log := n.log + [P.Noop(t)];
      && g' == P.Shared(log, g.written[(|n.log| + 1, t) := P.Noop(t)], g.leaderOf[t := 0])
      && n' == n.(log := log, commitIndex := |log|, term := t, leader := true, expected := t)
    ensures Ends(run', steps', g', n', c) && (NoneFailed(steps) ==> NoneFailed(steps'))
  {
    var log := n.log + [P.Noop(t)];
    var g1 := P.Shared(g.chosen, g.written[(|n.log| + 1, t) := P.Noop(t)], g.leaderOf[t := 0]);
    var n1 := n.(log := log, term := t, leader := true);
    run', steps' := Go(run, steps, g, n, c, Pipeline(P.Elect(0, t)), g1, n1, c);
    assert log[..|log|] == log && g.chosen <= log;
    g' := g1.(chosen := log);
    run', steps' := Go(run', steps', g1, n1, c, Pipeline(P.Choose(0, |log|)), g', n1, c);
    run', steps', n' := Learnt(run', steps', g', n1, c);
  }

  lemma Learnt(run: seq<State>, steps: seq<Step>, g: P.Shared, n: P.Node, c: Client)
    returns (run': seq<State>, steps': seq<Step>, n': P.Node)
    requires Ends(run, steps, g, n, c) && g.chosen == n.log && n.commitIndex <= |n.log| && n.leader
    ensures n' == n.(commitIndex := |n.log|, expected := n.term)
    ensures Ends(run', steps', g, n', c) && (NoneFailed(steps) ==> NoneFailed(steps'))
  {
    var n1 := n.(commitIndex := |n.log|);
    run', steps' := Go(run, steps, g, n, c, Pipeline(P.LearnCommit(0, |n.log|)), g, n1, c);
    n' := n1.(expected := n.term);
    run', steps' := Go(run', steps', g, n1, c, Pipeline(P.Observe(0)), g, n', c);
  }

  /** A node with only no-ops in its log enters the term of the last of them. */
  lemma Enter(run: seq<State>, steps: seq<Step>, g: P.Shared, n: P.Node, c: Client)
    returns (run': seq<State>, steps': seq<Step>, n': P.Node)
    requires Ends(run, steps, g, n, c) && n.curTerm < n.expected && n.commitIndex == |n.log| > 0 && c.maxVersion == 0
    requires (forall i :: 0 <= i < |n.log| ==> n.log[i].Noop?) && n.log[|n.log| - 1].term == n.expected
    ensures n' == n.(curTerm := n.expected, recovered := 0, alloc := [], readyIndex := |n.log|, lastSent := |n.log|)
    ensures Ends(run', steps', g, n', c) && (NoneFailed(steps) ==> NoneFailed(steps'))
  {
    assert n.log[..|n.log|] == n.log;
    P.LastBundleDecides(n.log, 0);
    n' := P.Entered(n, |n.log|);
    run', steps' := Go(run, steps, g, n, c, Pipeline(P.EnterTerm(0, |n.log|, 0)), g, n', c);
  }

  /** The node takes its first command of the term, and a read sees it. */
  lemma TakenAndRead(run: seq<State>, steps: seq<Step>, g: P.Shared, n: P.Node, c: Client, cmd: nat, r: ReadTask)
    returns (run': seq<State>, steps': seq<Step>)
    requires Ends(run, steps, g, n, c) && n.curTerm > 0 && n.recovered == 0 && n.alloc == [] && n.queue == []
    requires r.found == Fresh(1, cmd) && r.term == n.curTerm && r.waits == 1
    ensures Ends(run', steps', g, n.(alloc := [cmd], queue := [P.Queued(1, n.curTerm, cmd)]),
                 c.(waiting := c.waiting + {r}))
    ensures NoneFailed(steps) ==> NoneFailed(steps')
  {
    var n1, c' := n.(alloc := [cmd], queue := [P.Queued(1, n.curTerm, cmd)]), c.(waiting := c.waiting + {r});
    Taken(g, n, c, cmd);
    run', steps' := Go(run, steps, g, n, c, Pipeline(P.Allocate(0, cmd)), g, n1, c);
    assert Leads(g, n1, c, Read(0, r), g, n1, c');
    run', steps' := Go(run', steps', g, n1, c, Read(0, r), g, n1, c');
  }

  /** The node takes its first command of the term, which a read sees, and numbers it. */
  lemma Sent(run: seq<State>, steps: seq<Step>, g: P.Shared, n: P.Node, c: Client, cmd: nat, r: ReadTask)
    returns (run': seq<State>, steps': seq<Step>, n': P.Node)
    requires Ends(run, steps, g, n, c) && n.curTerm > 0 && n.recovered == 0 && n.alloc == [] && n.queue == []
    requires r.found == Fresh(1, cmd) && r.term == n.curTerm && r.waits == 1
    ensures n' == n.(alloc := [cmd], lastSent := n.lastSent + 1,
                     numbered := n.numbered + {P.Task(n.lastSent + 1, n.curTerm, 1, cmd)})
    ensures Ends(run', steps', g, n', c.(waiting := c.waiting + {r})) && (NoneFailed(steps) ==> NoneFailed(steps'))
  {
    var n1, c' := n.(alloc := [cmd], queue := [P.Queued(1, n.curTerm, cmd)]), c.(waiting := c.waiting + {r});
    run', steps' := TakenAndRead(run, steps, g, n, c, cmd, r);
    n' := NumberedOnly(g, n1, c');
    run', steps' := Go(run', steps', g, n1, c', Pipeline(P.Number(0)), g, n', c');
  }

  lemma Taken(g: P.Shared, n: P.Node, c: Client, cmd: nat)
    requires n.curTerm > 0 && n.recovered == 0 && n.alloc == [] && n.queue == []
    ensures Leads(g, n, c, Pipeline(P.Allocate(0, cmd)), g,
                  n.(alloc := [cmd], queue := [P.Queued(1, n.curTerm, cmd)]), c)
  {
  }

  lemma NumberedOnly(g: P.Shared, n: P.Node, c: Client) returns (n': P.Node)
    requires |n.queue| == 1
    ensures var q := n.queue[0];
      n' == n.(queue := [], lastSent := n.lastSent + 1,
               numbered := n.numbered + {P.Task(n.lastSent + 1, q.term, q.version, q.cmd)})
    ensures Leads(g, n, c, Pipeline(P.Number(0)), g, n', c)
  {
    assert n.queue[1..] == [];
    n' := P.AfterNumber(n);
  }

  const READER: ReadTask := ReadTask(1, 1, Fresh(1, 7))

  const G1: P.Shared := P.Shared([P.Noop(1)], map[(1, 1) := P.Noop(1)], map[1 := 0])
  /** In term 1 the node has numbered command 7 under version 1, and a read waits for what that command wrote. */
  const SENT: P.Node := P.Node([P.Noop(1)], 1, 1, true, 1, 1, 0, 1, [7], [], 2, {P.Task(2, 1, 1, 7)})
  const WAITING: Client := Client(0, {}, {READER})

  lemma RunToSent() returns (run: seq<State>, steps: seq<Step>)
    ensures Ends(run, steps, G1, SENT, WAITING) && NoneFailed(steps)
  {
    var g, n, c := P.Shared([], map[], map[]), P.STOPPED, Client(0, {}, {});
    run, steps := [Alone(g, n, c)], [];
    run, steps, g, n := Won(run, steps, g, n, c, 1);
    run, steps, n := Enter(run, steps, g, n, c);
    run, steps, n := Sent(run, steps, g, n, c, 7, READER);
    assert [] + [P.Noop(1)] == [P.Noop(1)];
    assert g == G1 && n == SENT && c.waiting + {READER} == {READER};
  }

  /** The node loses its term and the write with it. The failed write raises the max version all the same, and the
      read is answered with a value that is not chosen, in the very term that it ran in. */
  lemma FailedWriteAnswersLostRead() returns (run: seq<State>, steps: seq<Step>, n: P.Node)
    ensures IsRun(false, run, steps) && Enabled(run[|steps|], AnswerRead(0, READER))
    ensures run[|steps|].core.nodes == map[0 := n] && READER.term == n.curTerm
    ensures !ReturnsChosen(run[|steps|].core.shared, READER)
  {
    run, steps := RunToSent();
    var task, c := P.Task(2, 1, 1, 7), WAITING.(raises := {1});
    n := SENT.(term := 2, leader := false);
    run, steps := Go(run, steps, G1, SENT, WAITING, Pipeline(P.LearnTerm(0, 2)), G1, n, WAITING);
    run, steps := Go(run, steps, G1, n, WAITING, Pipeline(P.AnswerFailed(0, task)), G1, n, c);
    run, steps := Go(run, steps, G1, n, c, Raise(0, 1), G1, n, c.(maxVersion := 1));
  }

  const OTHER: ReadTask := ReadTask(2, 1, Fresh(1, 8))
  const NOOPS: seq<P.LogEntry> := [P.Noop(1), P.Noop(2)]
  const LOG: seq<P.LogEntry> := [P.Noop(1), P.Noop(2), P.Bundle(2, 1, 8)]
  const G2: P.Shared := P.Shared(NOOPS, G1.written[(2, 2) := P.Noop(2)], G1.leaderOf[2 := 0])
  /** In term 2 the same version goes to command 8: command 7 is lost. */
  const AGAIN: P.Node :=
    P.Node(NOOPS, 2, 2, true, 2, 2, 0, 2, [8], [], 3, {P.Task(2, 1, 1, 7), P.Task(3, 2, 1, 8)})
  const BOTH: Client := Client(0, {}, {READER, OTHER})

  lemma RunToAgain() returns (run: seq<State>, steps: seq<Step>)
    ensures Ends(run, steps, G2, AGAIN, BOTH) && NoneFailed(steps)
  {
    run, steps := RunToSent();
    var g, n;
    run, steps, g, n := Won(run, steps, G1, SENT, WAITING, 2);
    assert [P.Noop(1)] + [P.Noop(2)] == NOOPS;
    run, steps, n := Enter(run, steps, g, n, WAITING);
    run, steps, n := Sent(run, steps, g, n, WAITING, 8, OTHER);
    assert g == G2 && n == AGAIN && WAITING.waiting + {OTHER} == {READER, OTHER};
  }

  /** Command 8 is admitted, chosen and learnt. */
  lemma RunToCommitted() returns (run: seq<State>, steps: seq<Step>, g: P.Shared)
    ensures Ends(run, steps, g, AGAIN.(log := LOG, commitIndex := 3), BOTH) && NoneFailed(steps) && g.chosen == LOG
  {
    run, steps := RunToAgain();
    var task, n := P.Task(3, 2, 1, 8), AGAIN.(log := LOG);
    var g1 := G2.(written := G2.written[(3, 2) := P.Bundle(2, 1, 8)]);
    assert NOOPS + [P.Bundle(2, 1, 8)] == LOG && LOG[..3] == LOG && NOOPS <= LOG;
    run, steps := Go(run, steps, G2, AGAIN, BOTH, Pipeline(P.Admit(0, task)), g1, n, BOTH);
    g := g1.(chosen := LOG);
    run, steps := Go(run, steps, g1, n, BOTH, Pipeline(P.Choose(0, 3)), g, n, BOTH);
    run, steps, n := Learnt(run, steps, g, n, BOTH);
  }

  /** No write fails in this run, so every step is harmless. Command 7 is lost, its version goes to command 8 of the
      next term, and the answer to that write lets the old read go out with the lost value. */
  lemma OldReadReturnsLostValue() returns (run: seq<State>, steps: seq<Step>, n: P.Node)
    ensures IsRun(false, run, steps) && Fair(false, run, steps, |steps|)
    ensures Enabled(run[|steps|], AnswerRead(0, READER)) && !ReturnsChosen(run[|steps|].core.shared, READER)
    ensures run[|steps|].core.nodes == map[0 := n] && READER.term < n.curTerm
  {
    var g;
    run, steps, g := RunToCommitted();
    var c := BOTH.(raises := {1});
    n := AGAIN.(log := LOG, commitIndex := 3);
    run, steps := Go(run, steps, g, n, BOTH, Pipeline(P.AnswerOk(0, P.Task(3, 2, 1, 8))), g, n, c);
    run, steps := Go(run, steps, g, n, c, Raise(0, 1), g, n, c.(maxVersion := 1));
    assert forall i :: 0 <= i < |steps| ==> !Fails(steps[i]);
  }
}
