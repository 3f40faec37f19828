/** The write pipeline of every node over an abstract Raft log: version allocation, the persist queue, numbering of
    log entries, admission, leader changes, and when a write is answered. Raft enters through its guarantees only:
    one leader a term, a new leader's log holds every chosen entry, the chosen log only grows, a node never drops an
    entry that it knows to be committed, and a leader admits a request only at the index and in the term that the
    request carries. */
module LeaderPipeline {

  datatype LogEntry = Noop(term: nat) | Bundle(term: nat, version: nat, cmd: nat)

  /** An entry of the persist queue: version and term fixed, index not yet. */
  datatype Queued = Queued(version: nat, term: nat, cmd: nat)

  /** A numbered request, which is also the reply task waiting for it. */
  datatype Task = Task(index: nat, term: nat, version: nat, cmd: nat)

  /** `log`, `commitIndex`, `term` and `leader` are the node's Raft state. `expected` is the last term in which the
      node saw itself lead since it started, `curTerm` the term the command processor runs in (0 before the first),
      `recovered` and `readyIndex` the version and log index it found when it entered that term, `alloc` the commands
      that got a version in it. `numbered` keeps every request numbered since the node started. */
  datatype Node = Node(
    log: seq<LogEntry>, commitIndex: nat, term: nat, leader: bool, expected: nat,
    curTerm: nat, recovered: nat, readyIndex: nat, alloc: seq<nat>,
    queue: seq<Queued>, lastSent: nat, numbered: set<Task>)

  const STOPPED: Node := Node([], 0, 0, false, 0, 0, 0, 0, [], [], 0, {})

  /** `chosen` is the committed log of the cluster, `written` every entry any leader ever created at
      an index in its term, `leaderOf` who led which term. */
  datatype Shared = Shared(chosen: seq<LogEntry>, written: map<(nat, nat), LogEntry>, leaderOf: map<nat, nat>)

  datatype State = State(shared: Shared, nodes: map<nat, Node>)

  datatype Step =
    | Elect(n: nat, term: nat)
    | LearnTerm(n: nat, term: nat)
    | Replicate(n: nat, from: nat, length: nat)
    | Choose(n: nat, length: nat)
    | LearnCommit(n: nat, index: nat)
    | Observe(n: nat)
    | EnterTerm(n: nat, at: nat, applied: nat)
    | Allocate(n: nat, cmd: nat)
    | Number(n: nat)
    | Admit(n: nat, task: Task)
    | AnswerOk(n: nat, task: Task)
    | AnswerFailed(n: nat, task: Task)
    | Restart(n: nat)

  function NextVersion(n: Node): nat {
    n.recovered + 1 + |n.alloc|
  }

  /** How many requests of earlier terms the queue held when the node entered its current term. */
  function Leftover(n: Node): int {
    n.lastSent + |n.queue| - n.readyIndex - |n.alloc|
  }

  function LastVersion(log: seq<LogEntry>): nat {
    if log == [] then 0
    else if log[|log| - 1].Bundle? then log[|log| - 1].version
    else LastVersion(log[..|log| - 1])
  }

  /** The readiness scan: everything after the last applied bundle is a no-op, the last one of the
      expected term. */
  predicate ReadyAfter(log: seq<LogEntry>, applied: nat, term: nat) {
    && applied < |log|
    && (forall i :: applied <= i < |log| ==> log[i].Noop?)
    && log[|log| - 1].term == term
    && (applied > 0 ==> log[applied - 1].Bundle?)
  }

  /** The scan as the code runs it, with the version it hands to the version store. */
  method ScanReady(log: seq<LogEntry>, applied: nat, term: nat) returns (ready: bool, version: nat)
    requires applied <= |log| && (applied > 0 ==> log[applied - 1].Bundle?)
    ensures ready <==> ReadyAfter(log, applied, term)
    ensures ready ==> version == LastVersion(log)
  {
    ready, version := false, 0;
    var index := applied;
    while index < |log| && log[index].Noop?
      invariant applied <= index <= |log| && !ready
      invariant forall i :: applied <= i < index ==> log[i].Noop?
      invariant applied < index == |log| ==> log[|log| - 1].term != term
    {
      if index == |log| - 1 && log[index].term == term {
        ready := true;
        if applied > 0 {
          version := log[applied - 1].version;
        }
        LastBundleDecides(log, applied);
        return;
      }
      index := index + 1;
    }
  }

  lemma {:induction false} LastBundleDecides(log: seq<LogEntry>, applied: nat)
    requires applied <= |log| && (applied > 0 ==> log[applied - 1].Bundle?)
    requires forall i :: applied <= i < |log| ==> log[i].Noop?
    ensures LastVersion(log) == if applied > 0 then log[applied - 1].version else 0
  {
    if applied < |log| {
      LastBundleDecides(log[..|log| - 1], applied);
    }
  }

  /** The entry at the index of a write is committed and of its term. */
  predicate IsCommitted(n: Node, r: Task) {
    0 < r.index <= n.commitIndex <= |n.log| && n.log[r.index - 1].term == r.term
  }

  /** The log does not reach the index of a write and its term is over, or the entry there is committed and of
      another term. */
  predicate IsLost(n: Node, r: Task) {
    && 0 < r.index
    && (|| (|n.log| < r.index && n.term > r.term)
        || (r.index <= n.commitIndex <= |n.log| && n.log[r.index - 1].term != r.term))
  }

  /** The wait of a reply worker, over the Raft states it polls until the reply loop stops. It goes past `at` of them.
      A write whose entry is in the log and uncommitted is waited for, whatever the term; it is given up only when the
      log is too short and its term is over, or another term has taken its index. */
  method WaitTillCommittedOrQuit(polls: seq<Node>, r: Task) returns (committed: bool, at: nat)
    requires r.index > 0 && forall i :: 0 <= i < |polls| ==> polls[i].commitIndex <= |polls[i].log|
    ensures at <= |polls| && (committed ==> at < |polls|)
    ensures at < |polls| ==> if committed then IsCommitted(polls[at], r) else IsLost(polls[at], r)
    ensures committed ==> r.index <= polls[at].commitIndex && polls[at].log[r.index - 1].term == r.term
    ensures at < |polls| && !committed ==> |polls[at].log| < r.index || polls[at].log[r.index - 1].term != r.term
    ensures forall i :: 0 <= i < |polls| && polls[i].commitIndex < r.index <= |polls[i].log| ==> i != at
    ensures forall i :: 0 <= i < |polls| && polls[i].commitIndex < r.index && polls[i].term <= r.term ==> i != at
    ensures forall i :: 0 <= i < |polls| && polls[i].commitIndex >= r.index ==> at <= i
    ensures forall i :: 0 <= i < |polls| && |polls[i].log| < r.index && polls[i].term > r.term ==> at <= i
  {
    committed, at := false, 0;
    while at < |polls|
      invariant at <= |polls| && !committed
      invariant forall j :: 0 <= j < at ==>
        polls[j].commitIndex < r.index && (r.index <= |polls[j].log| || polls[j].term <= r.term)
    {
      var n := polls[at];
      if |n.log| < r.index && n.term > r.term {
        return;
      }
      if n.commitIndex >= r.index {
        committed := n.log[r.index - 1].term == r.term;
        return;
      }
      at := at + 1;
    }
  }

  // ----- the steps

  predicate Enabled(s: State, st: Step) {
    && st.n in s.nodes
    && var n, g := s.nodes[st.n], s.shared;
    match st
    case Elect(_, t) => t > n.term && t !in g.leaderOf && g.chosen <= n.log
    case LearnTerm(_, t) => t > n.term
    case Replicate(_, l, k) =>
      && l in s.nodes && l != st.n && s.nodes[l].leader && s.nodes[l].term >= n.term
      && n.commitIndex <= k <= |s.nodes[l].log| && n.commitIndex <= |n.log|
      && n.log[..n.commitIndex] <= s.nodes[l].log[..k]
    case Choose(_, k) =>
      && n.leader && g.chosen <= n.log && |g.chosen| < k <= |n.log| && n.log[k - 1].term == n.term
    case LearnCommit(_, i) => n.commitIndex <= i <= |g.chosen| && i <= |n.log| && n.log[..i] == g.chosen[..i]
    case Observe(_) => n.leader
    case EnterTerm(_, at, applied) =>
      n.curTerm < n.expected && at <= n.commitIndex <= |n.log| && ReadyAfter(n.log[..at], applied, n.expected)
    case Allocate(_, _) => n.curTerm > 0
    case Number(_) => n.queue != []
    case Admit(_, r) => r in n.numbered && n.leader && n.term == r.term && r.index == |n.log| + 1
    case AnswerOk(_, r) => r in n.numbered && IsCommitted(n, r)
    case AnswerFailed(_, r) => r in n.numbered && IsLost(n, r)
    case Restart(_) => true
  }

  function Numbered(n: Node): Task
    requires n.queue != []
  {
    Task(n.lastSent + 1, n.queue[0].term, n.queue[0].version, n.queue[0].cmd)
  }

  function AfterNumber(n: Node): Node
    requires n.queue != []
  {
    n.(queue := n.queue[1..], lastSent := n.lastSent + 1, numbered := n.numbered + {Numbered(n)})
  }

  function Entered(n: Node, at: nat): Node
    requires at <= |n.log|
  {
    n.(curTerm := n.expected, recovered := LastVersion(n.log[..at]), alloc := [], readyIndex := at, lastSent := at)
  }

  function NextNode(s: State, st: Step): Node
    requires Enabled(s, st)
  {
    var n := s.nodes[st.n];
    match st
    case Elect(_, t) => n.(log := n.log + [Noop(t)], term := t, leader := true)
    case LearnTerm(_, t) => n.(term := t, leader := false)
    case Replicate(_, l, k) => n.(log := s.nodes[l].log[..k], term := s.nodes[l].term, leader := false)
    case Choose(_, _) => n
    case LearnCommit(_, i) => n.(commitIndex := i)
    case Observe(_) => n.(expected := n.term)
    case EnterTerm(_, at, _) => Entered(n, at)
    case Allocate(_, c) => Allocated(n, c)
    case Number(_) => AfterNumber(n)
    case Admit(_, r) => n.(log := n.log + [Bundle(r.term, r.version, r.cmd)])
    case AnswerOk(_, _) => n
    case AnswerFailed(_, _) => n
    case Restart(_) => STOPPED.(log := n.log, term := n.term)
  }

  function NextShared(s: State, st: Step): Shared
    requires Enabled(s, st)
  {
    var n, g := s.nodes[st.n], s.shared;
    match st
    case Elect(id, t) =>
      g.(written := g.written[(|n.log| + 1, t) := Noop(t)], leaderOf := g.leaderOf[t := id])
    case Choose(_, k) => g.(chosen := n.log[..k])
    case Admit(_, r) => g.(written := g.written[(r.index, r.term) := Bundle(r.term, r.version, r.cmd)])
    case _ => g
  }

  function Next(s: State, st: Step): State
    requires Enabled(s, st)
  {
    State(NextShared(s, st), s.nodes[st.n := NextNode(s, st)])
  }

  // ----- the invariant

  ghost predicate LogOk(g: Shared, log: seq<LogEntry>) {
    && (forall i :: 0 <= i < |log| ==> log[i].term > 0 && Lookup(g, i + 1, log[i].term, log[i]))
    && (forall i, j :: 0 <= i < j < |log| ==> log[i].term <= log[j].term)
    && VersionsIncrease(log)
  }

  ghost predicate Lookup(g: Shared, i: nat, t: nat, e: LogEntry) {
    (i, t) in g.written && g.written[(i, t)] == e
  }

  ghost predicate Leads(g: Shared, id: nat, t: nat) {
    t in g.leaderOf && g.leaderOf[t] == id
  }

  ghost predicate VersionsIncrease(log: seq<LogEntry>) {
    forall i, j :: 0 <= i < j < |log| && log[i].Bundle? && log[j].Bundle? ==> log[i].version < log[j].version
  }

  ghost predicate SharedOk(g: Shared) {
    && LogOk(g, g.chosen)
    && (forall i, t | (i, t) in g.written :: t in g.leaderOf)
  }

  /** The node's Raft state. */
  ghost predicate RaftOk(g: Shared, id: nat, n: Node) {
    && LogOk(g, n.log)
    && (forall i :: 0 <= i < |n.log| ==> n.log[i].term <= n.term)
    && n.commitIndex <= |g.chosen| && n.commitIndex <= |n.log|
    && n.log[..n.commitIndex] == g.chosen[..n.commitIndex]
    && (n.leader ==>
          && Leads(g, id, n.term)
          && forall i :: (i, n.term) in g.written ==> i <= |n.log|)
  }

  /** The node's current term: it started from a no-op of that term known to be chosen. */
  ghost predicate TermOk(g: Shared, id: nat, n: Node) {
    && n.curTerm <= n.term
    && (n.curTerm > 0 ==>
          && Leads(g, id, n.curTerm)
          && 0 < n.readyIndex <= n.commitIndex && n.readyIndex <= |g.chosen| && n.readyIndex <= n.lastSent
          && g.chosen[n.readyIndex - 1].term == n.curTerm
          && n.recovered == LastVersion(g.chosen[..n.readyIndex])
          && Leftover(n) >= 0)
    && (n.curTerm > 0 && n.leader && n.term == n.curTerm ==>
          && n.readyIndex <= |n.log| && n.log[..n.readyIndex] == g.chosen[..n.readyIndex]
          && forall i :: n.readyIndex <= i < |n.log| ==> n.log[i].term == n.curTerm)
  }

  /** The persist queue: entries of the current term sit at its end and carry the latest versions. */
  ghost predicate QueueOk(g: Shared, id: nat, n: Node) {
    && (forall q :: 0 <= q < |n.queue| ==> 0 < n.queue[q].term <= n.curTerm && Leads(g, id, n.queue[q].term))
    && (forall p, q :: 0 <= p < q < |n.queue| ==> n.queue[p].term <= n.queue[q].term)
    && (forall q :: 0 <= q < |n.queue| && n.queue[q].term == n.curTerm ==>
          && |n.queue| - q <= |n.alloc|
          && n.queue[q].version == NextVersion(n) - (|n.queue| - q)
          && n.queue[q].cmd == n.alloc[|n.alloc| - (|n.queue| - q)])
  }

  /** A request numbered behind a chosen entry of a later term. */
  ghost predicate Barred(g: Shared, n: Node, r: Task) {
    r.term < n.term && exists i :: 0 <= i < |g.chosen| && i + 1 < r.index && g.chosen[i].term > r.term
  }

  ghost predicate TaskOk(g: Shared, id: nat, n: Node, r: Task) {
    && 0 < r.term <= n.curTerm && Leads(g, id, r.term) && 0 < r.index
    && (Barred(g, n, r) || ((r.index, r.term) in g.written ==>
          g.written[(r.index, r.term)] == Bundle(r.term, r.version, r.cmd)))
    && (r.term == n.curTerm ==>
          && n.readyIndex < r.index <= n.lastSent
          && n.recovered < r.version < NextVersion(n)
          && r.index - n.readyIndex == r.version - n.recovered + Leftover(n)
          && r.cmd == n.alloc[r.version - n.recovered - 1]
          && forall q :: 0 <= q < |n.queue| && n.queue[q].term == n.curTerm ==> r.version < n.queue[q].version)
  }

  ghost predicate TasksOk(g: Shared, id: nat, n: Node) {
    && (forall r :: r in n.numbered ==> TaskOk(g, id, n, r))
    && (forall r, r' | r in n.numbered && r' in n.numbered && r.index == r'.index && r.term == r'.term ::
          Barred(g, n, r) || Barred(g, n, r') || r == r')
    && (forall r, r' | r in n.numbered && r' in n.numbered && r.index < r'.index ::
          r.term == r'.term == n.curTerm ==> r.version < r'.version)
  }

  /** The request that the node would have put at an index of its current term. */
  function Own(n: Node, i: nat): Task
    requires n.readyIndex < i <= n.readyIndex + |n.alloc|
  {
    Task(i, n.curTerm, n.recovered + (i - n.readyIndex), n.alloc[i - n.readyIndex - 1])
  }

  function AsEntry(r: Task): LogEntry {
    Bundle(r.term, r.version, r.cmd)
  }

  /** What the node wrote in its current term: its allocated commands, in order and without a gap. */
  ghost predicate OwnOk(g: Shared, n: Node) {
    n.curTerm > 0 ==> forall i :: (i, n.curTerm) in g.written ==>
      && i <= n.lastSent
      && (i <= n.readyIndex ==> g.written[(i, n.curTerm)].Noop?)
      && (i > n.readyIndex ==>
            && i <= n.readyIndex + |n.alloc|
            && Own(n, i) in n.numbered && g.written[(i, n.curTerm)] == AsEntry(Own(n, i)))
  }

  /** Nobody has written more than one entry in the term. */
  ghost predicate Single(g: Shared, t: nat) {
    forall i, j | (i, t) in g.written && (j, t) in g.written :: i == j
  }

  /** A term that the node leads or has led without entering it holds only the no-op that opened it. */
  ghost predicate ExpectedOk(g: Shared, id: nat, n: Node) {
    && n.expected <= n.term
    && (n.leader && n.curTerm < n.term ==> Single(g, n.term))
    && (n.curTerm < n.expected ==> Leads(g, id, n.expected) && Single(g, n.expected))
  }

  ghost predicate NodeOk(g: Shared, id: nat, n: Node) {
    && RaftOk(g, id, n) && TermOk(g, id, n) && QueueOk(g, id, n) && TasksOk(g, id, n) && OwnOk(g, n)
    && ExpectedOk(g, id, n)
  }

  ghost predicate Inv(s: State) {
    SharedOk(s.shared) && forall id :: id in s.nodes ==> NodeOk(s.shared, id, s.nodes[id])
  }

  // ----- what other nodes do does not disturb a node

  ghost predicate GrowsBy(g: Shared, g': Shared, who: nat) {
    && g.chosen <= g'.chosen
    && (forall t :: t in g.leaderOf ==> t in g'.leaderOf && g'.leaderOf[t] == g.leaderOf[t])
    && (forall i, t | (i, t) in g.written :: (i, t) in g'.written && g'.written[(i, t)] == g.written[(i, t)])
    && (forall i, t | (i, t) in g'.written && (i, t) !in g.written :: t in g'.leaderOf && g'.leaderOf[t] == who)
  }

  lemma LogGrows(g: Shared, g': Shared, who: nat, log: seq<LogEntry>)
    requires GrowsBy(g, g', who) && LogOk(g, log)
    ensures LogOk(g', log)
  {
    forall i | 0 <= i < |log|
      ensures Lookup(g', i + 1, log[i].term, log[i])
    {
      assert Lookup(g, i + 1, log[i].term, log[i]);
    }
  }

  lemma BarredGrows(g: Shared, g': Shared, who: nat, n: Node, r: Task)
    requires GrowsBy(g, g', who) && Barred(g, n, r)
    ensures Barred(g', n, r)
  {
    var i :| 0 <= i < |g.chosen| && i + 1 < r.index && g.chosen[i].term > r.term;
    assert g'.chosen[i] == g.chosen[i];
  }

  lemma TasksGrow(g: Shared, g': Shared, who: nat, id: nat, n: Node)
    requires GrowsBy(g, g', who) && TasksOk(g, id, n) && who != id
    ensures TasksOk(g', id, n)
  {
    forall r | r in n.numbered
      ensures TaskOk(g', id, n, r) && (Barred(g, n, r) ==> Barred(g', n, r))
    {
      assert TaskOk(g, id, n, r);
      if Barred(g, n, r) {
        BarredGrows(g, g', who, n, r);
      }
    }
  }

  lemma ExpectedGrows(g: Shared, g': Shared, who: nat, id: nat, n: Node)
    requires GrowsBy(g, g', who) && who != id && ExpectedOk(g, id, n) && (n.leader ==> Leads(g, id, n.term))
    ensures ExpectedOk(g', id, n)
  {
    forall i, t | (i, t) in g'.written && Leads(g, id, t)
      ensures (i, t) in g.written
    {
    }
    assert Leads(g, id, n.expected) && Single(g, n.expected) ==> Single(g', n.expected);
    assert Leads(g, id, n.term) && Single(g, n.term) ==> Single(g', n.term);
  }

  lemma NodeGrows(g: Shared, g': Shared, who: nat, id: nat, n: Node)
    requires GrowsBy(g, g', who) && NodeOk(g, id, n) && who != id
    ensures NodeOk(g', id, n)
  {
    ExpectedGrows(g, g', who, id, n);
    LogGrows(g, g', who, n.log);
    TasksGrow(g, g', who, id, n);
    if n.curTerm > 0 {
      assert g'.chosen[..n.readyIndex] == g.chosen[..n.readyIndex];
    }
    assert g'.chosen[..n.commitIndex] == g.chosen[..n.commitIndex];
  }

  // ----- each step keeps the invariant

  lemma LogPrefix(g: Shared, log: seq<LogEntry>, k: nat)
    requires LogOk(g, log) && k <= |log|
    ensures LogOk(g, log[..k])
  {
    var pre := log[..k];
    forall i | 0 <= i < |pre|
      ensures Lookup(g, i + 1, pre[i].term, pre[i])
    {
      assert Lookup(g, i + 1, log[i].term, log[i]);
    }
  }

  lemma LogExtend(g: Shared, g': Shared, who: nat, log: seq<LogEntry>, e: LogEntry)
    requires LogOk(g, log) && GrowsBy(g, g', who)
    requires e.term > 0 && Lookup(g', |log| + 1, e.term, e)
    requires forall i :: 0 <= i < |log| ==> log[i].term <= e.term
    requires e.Bundle? ==> forall i :: 0 <= i < |log| && log[i].Bundle? ==> log[i].version < e.version
    ensures LogOk(g', log + [e])
  {
    LogGrows(g, g', who, log);
    var log' := log + [e];
    forall i | 0 <= i < |log'|
      ensures log'[i].term > 0 && Lookup(g', i + 1, log'[i].term, log'[i])
    {
      if i < |log| {
        assert Lookup(g', i + 1, log[i].term, log[i]);
      }
    }
  }

  lemma {:induction false} LastVersionBounds(log: seq<LogEntry>, i: nat)
    requires VersionsIncrease(log) && i < |log| && log[i].Bundle?
    ensures log[i].version <= LastVersion(log)
  {
    if !log[|log| - 1].Bundle? {
      LastVersionBounds(log[..|log| - 1], i);
    }
  }

  /** A request that a leader admits is the next one in its term: no version is skipped. */
  lemma AdmittedIsOwn(g: Shared, id: nat, n: Node, r: Task)
    requires NodeOk(g, id, n) && r in n.numbered && n.leader && n.term == r.term && r.index == |n.log| + 1
    ensures n.curTerm == n.term && n.readyIndex <= |n.log| < n.readyIndex + |n.alloc|
    ensures r == Own(n, r.index) && Leftover(n) == 0
  {
    assert TaskOk(g, id, n, r);
    if n.readyIndex < |n.log| {
      var last := |n.log|;
      assert Lookup(g, last, n.log[last - 1].term, n.log[last - 1]);
      assert (last, n.curTerm) in g.written;
      assert TaskOk(g, id, n, Own(n, last));
    }
  }

  lemma AdmitFollowsVersions(g: Shared, id: nat, n: Node, r: Task, i: nat)
    requires SharedOk(g) && NodeOk(g, id, n)
    requires r in n.numbered && n.leader && n.term == r.term && r.index == |n.log| + 1
    requires i < |n.log| && n.log[i].Bundle?
    ensures n.log[i].version < r.version
  {
    AdmittedIsOwn(g, id, n, r);
    if i < n.readyIndex {
      var pre := g.chosen[..n.readyIndex];
      LogPrefix(g, g.chosen, n.readyIndex);
      assert n.log[i] == n.log[..n.readyIndex][i] == pre[i];
      LastVersionBounds(pre, i);
    } else {
      assert Lookup(g, i + 1, n.log[i].term, n.log[i]);
      assert (i + 1, n.curTerm) in g.written;
    }
  }

  lemma SharedStep(s: State, st: Step)
    requires SharedOk(s.shared) && Enabled(s, st) && NodeOk(s.shared, st.n, s.nodes[st.n])
    ensures GrowsBy(s.shared, NextShared(s, st), st.n) && SharedOk(NextShared(s, st))
  {
    var n, g, g' := s.nodes[st.n], s.shared, NextShared(s, st);
    match st
    case Elect(id, t) => LogGrows(g, g', st.n, g.chosen);
    case Choose(_, k) =>
      LogPrefix(g, n.log, k);
      LogGrows(g, g', st.n, n.log[..k]);
    case Admit(_, r) =>
      assert TaskOk(g, st.n, n, r);
      LogGrows(g, g', st.n, g.chosen);
    case _ =>
  }

  /** A node whose Raft term rises keeps its tasks in order. */
  lemma TasksTermUp(g: Shared, g': Shared, id: nat, n: Node, n': Node)
    requires TasksOk(g, id, n) && RaftOnly(g, g', id, n, n')
    ensures TasksOk(g', id, n')
  {
    forall r | r in n'.numbered
      ensures TaskOk(g', id, n', r) && (Barred(g, n, r) ==> Barred(g', n', r))
    {
      assert TaskOk(g, id, n, r);
      if Barred(g, n, r) {
        BarredGrows(g, g', id, n, r);
      }
    }
  }

  /** How a step of Raft alone changes a node. */
  ghost predicate RaftOnly(g: Shared, g': Shared, id: nat, n: Node, n': Node) {
    && GrowsBy(g, g', id) && n'.term >= n.term >= n.curTerm && n'.commitIndex >= n.commitIndex
    && (forall i, t | (i, t) in g'.written && (i, t) !in g.written :: t > n.term)
    && n' == n.(log := n'.log, commitIndex := n'.commitIndex, term := n'.term, leader := n'.leader)
    && (n'.leader && n'.term == n.curTerm ==> n.leader && n'.log == n.log)
  }

  lemma RaftOnlyTerm(g: Shared, g': Shared, id: nat, n: Node, n': Node)
    requires TermOk(g, id, n) && RaftOnly(g, g', id, n, n')
    ensures TermOk(g', id, n')
  {
    if n.curTerm > 0 {
      assert g'.chosen[..n.readyIndex] == g.chosen[..n.readyIndex];
      assert Leads(g, id, n.curTerm);
    }
  }

  lemma RaftOnlyOwn(g: Shared, g': Shared, id: nat, n: Node, n': Node)
    requires OwnOk(g, n) && RaftOnly(g, g', id, n, n')
    ensures OwnOk(g', n')
  {
    forall i | (i, n.curTerm) in g'.written
      ensures (i, n.curTerm) in g.written && g'.written[(i, n.curTerm)] == g.written[(i, n.curTerm)]
    {
    }
    forall i | n.readyIndex < i <= n.readyIndex + |n.alloc|
      ensures Own(n', i) == Own(n, i)
    {
    }
  }

  lemma RaftOnlyQueue(g: Shared, g': Shared, id: nat, n: Node, n': Node)
    requires QueueOk(g, id, n) && RaftOnly(g, g', id, n, n')
    ensures QueueOk(g', id, n')
  {
    assert NextVersion(n') == NextVersion(n);
  }

  /** Steps of Raft alone leave the pipeline in order once the Raft state is. */
  lemma RaftOnlyExpected(g: Shared, g': Shared, id: nat, n: Node, n': Node)
    requires ExpectedOk(g, id, n) && RaftOk(g', id, n') && RaftOnly(g, g', id, n, n')
    requires n'.leader ==> (n.leader && n'.term == n.term) || Single(g', n'.term)
    ensures ExpectedOk(g', id, n')
  {
    forall i, t | (i, t) in g'.written && t <= n.term
      ensures (i, t) in g.written
    {
    }
    assert Single(g, n.expected) && n.expected <= n.term ==> Single(g', n.expected);
    assert Single(g, n.term) ==> Single(g', n.term);
  }

  lemma RaftStepKeeps(g: Shared, g': Shared, id: nat, n: Node, n': Node)
    requires NodeOk(g, id, n) && RaftOk(g', id, n') && RaftOnly(g, g', id, n, n')
    requires n'.leader ==> (n.leader && n'.term == n.term) || Single(g', n'.term)
    ensures NodeOk(g', id, n')
  {
    RaftOnlyExpected(g, g', id, n, n');
    TasksTermUp(g, g', id, n, n');
    RaftOnlyTerm(g, g', id, n, n');
    RaftOnlyQueue(g, g', id, n, n');
    RaftOnlyOwn(g, g', id, n, n');
  }

  lemma RaftStepOk(s: State, st: Step)
    requires Enabled(s, st) && NodeOk(s.shared, st.n, s.nodes[st.n]) && SharedOk(s.shared)
    requires st.Elect? || st.LearnTerm? || st.Choose? || st.LearnCommit?
    ensures RaftOk(NextShared(s, st), st.n, NextNode(s, st))
  {
    var n, g, n', g' := s.nodes[st.n], s.shared, NextNode(s, st), NextShared(s, st);
    SharedStep(s, st);
    if st.Elect? {
      LogExtend(g, g', st.n, n.log, Noop(st.term));
      assert n'.log[..n.commitIndex] == n.log[..n.commitIndex];
    } else {
      LogGrows(g, g', st.n, n.log);
    }
    if st.Choose? {
      assert g'.chosen[..n.commitIndex] == g.chosen[..n.commitIndex];
    }
  }

  lemma ReplicateOk(s: State, st: Step)
    requires Enabled(s, st) && st.Replicate?
    requires NodeOk(s.shared, st.n, s.nodes[st.n]) && NodeOk(s.shared, st.from, s.nodes[st.from])
    ensures RaftOk(s.shared, st.n, NextNode(s, st))
  {
    var n, l, k := s.nodes[st.n], s.nodes[st.from], st.length;
    LogPrefix(s.shared, l.log, k);
    assert l.log[..k][..n.commitIndex] == n.log[..n.commitIndex];
  }

  lemma EnterTermRaft(g: Shared, id: nat, n: Node, at: nat)
    requires SharedOk(g) && NodeOk(g, id, n) && n.curTerm < n.expected
    requires 0 < at <= n.commitIndex && n.log[at - 1] == Noop(n.expected)
    ensures forall i :: (i, n.expected) in g.written ==> i == at && g.written[(i, n.expected)].Noop?
    ensures n.log[..at] == g.chosen[..at]
    ensures n.leader && n.term == n.expected ==> |n.log| == at
  {
    assert Lookup(g, at, n.expected, n.log[at - 1]);
    assert n.log[..n.commitIndex][..at] == n.log[..at] && g.chosen[..n.commitIndex][..at] == g.chosen[..at];
    if at < |n.log| {
      assert Lookup(g, |n.log|, n.log[|n.log| - 1].term, n.log[|n.log| - 1]);
    }
  }

  lemma EnterTermKeeps(g: Shared, id: nat, n: Node, at: nat)
    requires SharedOk(g) && NodeOk(g, id, n) && n.curTerm < n.expected
    requires 0 < at <= n.commitIndex && n.log[at - 1] == Noop(n.expected)
    ensures NodeOk(g, id, Entered(n, at))
  {
    var n' := Entered(n, at);
    EnterTermRaft(g, id, n, at);
    assert n.log[at - 1] == n.log[..at][at - 1];
    assert TermOk(g, id, n');
    EnterTermTasks(g, id, n, at);
    assert OwnOk(g, n') && QueueOk(g, id, n');
  }

  lemma EnterTermTasks(g: Shared, id: nat, n: Node, at: nat)
    requires TasksOk(g, id, n) && n.curTerm < n.expected && at <= |n.log|
    ensures TasksOk(g, id, Entered(n, at))
  {
    var n' := Entered(n, at);
    forall r | r in n'.numbered
      ensures TaskOk(g, id, n', r) && r.term < n'.curTerm && Barred(g, n', r) == Barred(g, n, r)
    {
      assert TaskOk(g, id, n, r);
    }
  }

  function Allocated(n: Node, cmd: nat): Node {
    n.(queue := n.queue + [Queued(NextVersion(n), n.curTerm, cmd)], alloc := n.alloc + [cmd])
  }

  lemma AllocateKeepsQueue(g: Shared, id: nat, n: Node, cmd: nat)
    requires QueueOk(g, id, n) && n.curTerm > 0 && Leads(g, id, n.curTerm)
    ensures QueueOk(g, id, Allocated(n, cmd))
  {
    var n' := Allocated(n, cmd);
    forall q | 0 <= q < |n'.queue| && n'.queue[q].term == n.curTerm
      ensures |n'.queue| - q <= |n'.alloc|
      ensures n'.queue[q].version == NextVersion(n') - (|n'.queue| - q)
      ensures n'.queue[q].cmd == n'.alloc[|n'.alloc| - (|n'.queue| - q)]
    {
      if q < |n.queue| {
        assert n'.queue[q] == n.queue[q];
      }
    }
  }

  lemma AllocateKeepsTasks(g: Shared, id: nat, n: Node, cmd: nat)
    requires TasksOk(g, id, n)
    ensures TasksOk(g, id, Allocated(n, cmd))
  {
    var n' := Allocated(n, cmd);
    forall r | r in n'.numbered
      ensures TaskOk(g, id, n', r) && Barred(g, n', r) == Barred(g, n, r)
    {
      assert TaskOk(g, id, n, r);
    }
  }

  lemma AllocateKeeps(g: Shared, id: nat, n: Node, cmd: nat)
    requires NodeOk(g, id, n) && n.curTerm > 0
    ensures NodeOk(g, id, Allocated(n, cmd))
  {
    AllocateKeepsQueue(g, id, n, cmd);
    AllocateKeepsTasks(g, id, n, cmd);
    forall i | (i, n.curTerm) in g.written && i > n.readyIndex
      ensures i <= n.readyIndex + |n.alloc| && Own(Allocated(n, cmd), i) == Own(n, i)
    {
    }
  }

  lemma NumberKeepsQueue(g: Shared, id: nat, n: Node)
    requires QueueOk(g, id, n) && n.queue != []
    ensures QueueOk(g, id, AfterNumber(n))
  {
    var n' := AfterNumber(n);
    forall q | 0 <= q < |n'.queue|
      ensures n'.queue[q] == n.queue[q + 1] && |n'.queue| - q == |n.queue| - (q + 1)
    {
    }
  }

  /** A queued request left over from an earlier term is numbered behind the no-op that opened the
      current one; a request of the current term gets an index and a term nobody has used. */
  lemma NumberedOk(g: Shared, id: nat, n: Node)
    requires TermOk(g, id, n) && QueueOk(g, id, n) && OwnOk(g, n) && n.queue != []
    ensures TaskOk(g, id, AfterNumber(n), Numbered(n))
    ensures Barred(g, n, Numbered(n)) || n.queue[0].term == n.curTerm
  {
    var head, r := n.queue[0], Numbered(n);
    if head.term < n.curTerm {
      assert g.chosen[n.readyIndex - 1].term > r.term;
      assert Barred(g, n, r);
    } else {
      var n' := AfterNumber(n);
      forall q | 0 <= q < |n'.queue|
        ensures n'.queue[q] == n.queue[q + 1]
      {
      }
    }
  }

  lemma NumberKeepsTasks(g: Shared, id: nat, n: Node)
    requires NodeOk(g, id, n) && n.queue != []
    ensures TasksOk(g, id, AfterNumber(n))
  {
    var n', task := AfterNumber(n), Numbered(n);
    NumberedOk(g, id, n);
    forall r | r in n.numbered
      ensures TaskOk(g, id, n', r) && Barred(g, n', r) == Barred(g, n, r)
      ensures r.term == n.curTerm ==> r.index < task.index
      ensures r.term == n.curTerm == task.term ==> r.version < task.version
    {
      assert TaskOk(g, id, n, r);
      forall q | 0 <= q < |n'.queue|
        ensures n'.queue[q] == n.queue[q + 1]
      {
      }
    }
  }

  lemma NumberKeepsOwn(g: Shared, n: Node)
    requires OwnOk(g, n) && n.queue != []
    ensures OwnOk(g, AfterNumber(n))
  {
    forall i | n.readyIndex < i <= n.readyIndex + |n.alloc|
      ensures Own(AfterNumber(n), i) == Own(n, i)
    {
    }
  }

  lemma NumberKeeps(g: Shared, id: nat, n: Node)
    requires NodeOk(g, id, n) && n.queue != []
    ensures NodeOk(g, id, AfterNumber(n))
  {
    NumberKeepsQueue(g, id, n);
    NumberKeepsTasks(g, id, n);
    NumberKeepsOwn(g, n);
  }

  ghost predicate Admitting(g: Shared, g': Shared, id: nat, n: Node, r: Task) {
    && r in n.numbered && n.leader && n.term == r.term && r.index == |n.log| + 1
    && g' == g.(written := g.written[(r.index, r.term) := AsEntry(r)])
  }

  lemma AdmitKeepsRaft(g: Shared, g': Shared, id: nat, n: Node, r: Task)
    requires SharedOk(g) && NodeOk(g, id, n) && Admitting(g, g', id, n, r) && GrowsBy(g, g', id)
    ensures RaftOk(g', id, n.(log := n.log + [AsEntry(r)]))
  {
    var n' := n.(log := n.log + [AsEntry(r)]);
    forall i | 0 <= i < |n.log| && n.log[i].Bundle?
      ensures n.log[i].version < r.version
    {
      AdmitFollowsVersions(g, id, n, r, i);
    }
    assert TaskOk(g, id, n, r);
    LogExtend(g, g', id, n.log, AsEntry(r));
    assert n'.log[..n.commitIndex] == n.log[..n.commitIndex];
  }

  lemma AdmitKeepsTasks(g: Shared, g': Shared, id: nat, n: Node, r: Task)
    requires NodeOk(g, id, n) && Admitting(g, g', id, n, r) && GrowsBy(g, g', id)
    ensures TasksOk(g', id, n.(log := n.log + [AsEntry(r)]))
  {
    var n' := n.(log := n.log + [AsEntry(r)]);
    assert TaskOk(g, id, n, r) && !Barred(g, n, r);
    forall r' | r' in n.numbered
      ensures TaskOk(g', id, n', r') && Barred(g', n', r') == Barred(g, n, r')
    {
      assert TaskOk(g, id, n, r');
    }
  }

  lemma AdmitKeepsOwn(g: Shared, g': Shared, id: nat, n: Node, r: Task)
    requires NodeOk(g, id, n) && Admitting(g, g', id, n, r)
    ensures OwnOk(g', n.(log := n.log + [AsEntry(r)]))
  {
    var n' := n.(log := n.log + [AsEntry(r)]);
    AdmittedIsOwn(g, id, n, r);
    assert TaskOk(g, id, n, r);
    forall i | n.readyIndex < i <= n.readyIndex + |n.alloc|
      ensures Own(n', i) == Own(n, i)
    {
    }
  }

  lemma AdmitKeepsTerm(g: Shared, g': Shared, id: nat, n: Node, r: Task)
    requires NodeOk(g, id, n) && Admitting(g, g', id, n, r)
    ensures TermOk(g', id, n.(log := n.log + [AsEntry(r)]))
  {
    AdmittedIsOwn(g, id, n, r);
    assert (n.log + [AsEntry(r)])[..n.readyIndex] == n.log[..n.readyIndex];
  }

  lemma AdmitKeepsQueue(g: Shared, g': Shared, id: nat, n: Node, r: Task)
    requires QueueOk(g, id, n) && Admitting(g, g', id, n, r)
    ensures QueueOk(g', id, n.(log := n.log + [AsEntry(r)]))
  {
    assert NextVersion(n.(log := n.log + [AsEntry(r)])) == NextVersion(n);
  }

  lemma AdmitKeeps(g: Shared, g': Shared, id: nat, n: Node, r: Task)
    requires SharedOk(g) && NodeOk(g, id, n) && Admitting(g, g', id, n, r) && GrowsBy(g, g', id)
    ensures NodeOk(g', id, n.(log := n.log + [AsEntry(r)]))
  {
    AdmitKeepsRaft(g, g', id, n, r);
    AdmitKeepsTerm(g, g', id, n, r);
    AdmitKeepsQueue(g, g', id, n, r);
    AdmitKeepsTasks(g, g', id, n, r);
    AdmitKeepsOwn(g, g', id, n, r);
  }

  lemma NodeRaftStep(s: State, st: Step)
    requires Enabled(s, st) && SharedOk(s.shared) && NodeOk(s.shared, st.n, s.nodes[st.n])
    requires st.Elect? || st.LearnTerm? || st.Choose? || st.LearnCommit?
    ensures NodeOk(NextShared(s, st), st.n, NextNode(s, st))
  {
    SharedStep(s, st);
    RaftStepOk(s, st);
    if st.Elect? {
      assert Single(NextShared(s, st), st.term);
    }
    assert RaftOnly(s.shared, NextShared(s, st), st.n, s.nodes[st.n], NextNode(s, st));
    RaftStepKeeps(s.shared, NextShared(s, st), st.n, s.nodes[st.n], NextNode(s, st));
  }

  lemma NodeReplicate(s: State, st: Step)
    requires Enabled(s, st) && st.Replicate?
    requires NodeOk(s.shared, st.n, s.nodes[st.n]) && NodeOk(s.shared, st.from, s.nodes[st.from])
    ensures NodeOk(s.shared, st.n, NextNode(s, st))
  {
    ReplicateOk(s, st);
    RaftStepKeeps(s.shared, s.shared, st.n, s.nodes[st.n], NextNode(s, st));
  }

  lemma ObserveKeepsTasks(g: Shared, id: nat, n: Node)
    requires TasksOk(g, id, n)
    ensures TasksOk(g, id, n.(expected := n.term))
  {
    var n' := n.(expected := n.term);
    forall r | r in n.numbered
      ensures TaskOk(g, id, n', r) && Barred(g, n', r) == Barred(g, n, r)
    {
      assert TaskOk(g, id, n, r);
    }
  }

  lemma ObserveKeeps(g: Shared, id: nat, n: Node)
    requires NodeOk(g, id, n) && n.leader
    ensures NodeOk(g, id, n.(expected := n.term))
  {
    var n' := n.(expected := n.term);
    ObserveKeepsTasks(g, id, n);
    forall i | n.readyIndex < i <= n.readyIndex + |n.alloc|
      ensures Own(n', i) == Own(n, i)
    {
    }
    assert NextVersion(n') == NextVersion(n);
  }

  lemma RestartKeeps(g: Shared, id: nat, n: Node)
    requires NodeOk(g, id, n)
    ensures NodeOk(g, id, STOPPED.(log := n.log, term := n.term))
  {
  }

  lemma NodePipelineStep(s: State, st: Step)
    requires Enabled(s, st) && SharedOk(s.shared) && NodeOk(s.shared, st.n, s.nodes[st.n])
    requires st.EnterTerm? || st.Allocate? || st.Number? || st.Admit?
    ensures NodeOk(NextShared(s, st), st.n, NextNode(s, st))
  {
    var n, g := s.nodes[st.n], s.shared;
    match st {
      case EnterTerm(_, at, _) =>
        assert n.log[at - 1] == n.log[..at][at - 1];
        EnterTermKeeps(g, st.n, n, at);
      case Allocate(_, c) => AllocateKeeps(g, st.n, n, c);
      case Number(_) => NumberKeeps(g, st.n, n);
      case Admit(_, r) => SharedStep(s, st); AdmitKeeps(g, NextShared(s, st), st.n, n, r);
    }
  }

  lemma NodeStep(s: State, st: Step)
    requires Enabled(s, st) && SharedOk(s.shared) && NodeOk(s.shared, st.n, s.nodes[st.n])
    requires st.Replicate? ==> NodeOk(s.shared, st.from, s.nodes[st.from])
    ensures NodeOk(NextShared(s, st), st.n, NextNode(s, st))
  {
    var n, g := s.nodes[st.n], s.shared;
    if st.Replicate? {
      NodeReplicate(s, st);
    } else if st.AnswerOk? || st.AnswerFailed? {
      assert NextNode(s, st) == n;
    } else if st.Observe? {
      ObserveKeeps(g, st.n, n);
    } else if st.Restart? {
      RestartKeeps(g, st.n, n);
    } else if st.Elect? || st.LearnTerm? || st.Choose? || st.LearnCommit? {
      NodeRaftStep(s, st);
    } else {
      NodePipelineStep(s, st);
    }
  }

  lemma EveryNode(s: State, st: Step, id: nat)
    requires Enabled(s, st) && SharedOk(s.shared) && NodeOk(s.shared, st.n, s.nodes[st.n])
    requires st.Replicate? ==> NodeOk(s.shared, st.from, s.nodes[st.from])
    requires id in s.nodes && NodeOk(s.shared, id, s.nodes[id])
    ensures NodeOk(NextShared(s, st), id, Next(s, st).nodes[id])
  {
    if id == st.n {
      NodeStep(s, st);
    } else {
      SharedStep(s, st);
      NodeGrows(s.shared, NextShared(s, st), st.n, id, s.nodes[id]);
    }
  }

  lemma StepKeepsInv(s: State, st: Step)
    requires Inv(s) && Enabled(s, st)
    ensures Inv(Next(s, st))
  {
    assert NodeOk(s.shared, st.n, s.nodes[st.n]);
    SharedStep(s, st);
    forall id | id in s.nodes
      ensures NodeOk(NextShared(s, st), id, Next(s, st).nodes[id])
    {
      EveryNode(s, st, id);
    }
  }

  // ----- runs

  ghost predicate Init(s: State) {
    && s.shared == Shared([], map[], map[])
    && forall id :: id in s.nodes ==> s.nodes[id] == STOPPED
  }

  ghost predicate IsRun(run: seq<State>, steps: seq<Step>) {
    && |run| == |steps| + 1 && Init(run[0])
    && forall i :: 0 <= i < |steps| ==> Enabled(run[i], steps[i]) && run[i + 1] == Next(run[i], steps[i])
  }

  lemma {:induction false} RunInv(run: seq<State>, steps: seq<Step>, i: nat)
    requires IsRun(run, steps) && i < |run|
    ensures Inv(run[i])
  {
    if i > 0 {
      RunInv(run, steps, i - 1);
      StepKeepsInv(run[i - 1], steps[i - 1]);
    }
  }

  lemma StepChosen(s: State, st: Step)
    requires Enabled(s, st)
    ensures s.shared.chosen <= Next(s, st).shared.chosen
  {
  }

  lemma {:induction false} ChosenGrows(run: seq<State>, steps: seq<Step>, i: nat, j: nat)
    requires IsRun(run, steps) && i <= j < |run|
    ensures run[i].shared.chosen <= run[j].shared.chosen
  {
    if i < j {
      ChosenGrows(run, steps, i, j - 1);
      StepChosen(run[j - 1], steps[j - 1]);
    }
  }

  // ----- main results

  /** Along the log of every node and along the chosen log, in every reachable state, versions strictly
      increase, within a term and across leader changes. */
  lemma VersionsIncreaseEverywhere(run: seq<State>, steps: seq<Step>, i: nat)
    requires IsRun(run, steps) && i < |run|
    ensures VersionsIncrease(run[i].shared.chosen)
    ensures forall id :: id in run[i].nodes ==> VersionsIncrease(run[i].nodes[id].log)
  {
    RunInv(run, steps, i);
    forall id | id in run[i].nodes
      ensures VersionsIncrease(run[i].nodes[id].log)
    {
      assert NodeOk(run[i].shared, id, run[i].nodes[id]);
    }
  }

  lemma OkEntryIsOwn(g: Shared, id: nat, n: Node, r: Task)
    requires SharedOk(g) && NodeOk(g, id, n)
    requires r in n.numbered && 0 < r.index <= n.commitIndex && n.log[r.index - 1].term == r.term
    ensures r.index <= |g.chosen| && g.chosen[r.index - 1] == AsEntry(r)
  {
    assert TaskOk(g, id, n, r);
    var e := n.log[r.index - 1];
    assert e == n.log[..n.commitIndex][r.index - 1] == g.chosen[r.index - 1];
    assert Lookup(g, r.index, e.term, e);
    assert forall i :: 0 <= i < r.index - 1 ==> g.chosen[i].term <= g.chosen[r.index - 1].term;
  }

  lemma AnsweredIsChosen(s: State, st: Step)
    requires Inv(s) && Enabled(s, st) && st.AnswerOk?
    ensures st.task.index <= |s.shared.chosen| && s.shared.chosen[st.task.index - 1] == AsEntry(st.task)
  {
    assert NodeOk(s.shared, st.n, s.nodes[st.n]);
    OkEntryIsOwn(s.shared, st.n, s.nodes[st.n], st.task);
  }

  /** A write is answered OK only when its own bundle is chosen at its index, and it stays there in every
      later state, whatever elections, truncations and stale queue entries there are. */
  lemma AnsweredWriteIsDurable(run: seq<State>, steps: seq<Step>, i: nat, j: nat)
    requires IsRun(run, steps) && i < |steps| && i <= j < |run| && steps[i].AnswerOk?
    ensures
      var r := steps[i].task;
      r.index <= |run[j].shared.chosen| && run[j].shared.chosen[r.index - 1] == Bundle(r.term, r.version, r.cmd)
  {
    RunInv(run, steps, i);
    AnsweredIsChosen(run[i], steps[i]);
    ChosenGrows(run, steps, i, j);
  }

  /** No step takes from a log what its node knows to be committed, and a restart takes nothing at all. */
  lemma CommittedStaysInLog(s: State, st: Step)
    requires Inv(s) && Enabled(s, st)
    ensures var n, n' := s.nodes[st.n], NextNode(s, st);
      && n.commitIndex <= |n.log| && n.log[..n.commitIndex] <= n'.log
      && (st.Restart? ==> n'.log == n.log && n'.term == n.term && n'.numbered == {} && n'.queue == [])
  {
    assert NodeOk(s.shared, st.n, s.nodes[st.n]);
  }

  // ----- writes that are given up

  /** The bundle of a request is at its index. */
  predicate Holds(log: seq<LogEntry>, r: Task) {
    0 < r.index <= |log| && log[r.index - 1] == Bundle(r.term, r.version, r.cmd)
  }

  /** Some node's log or the chosen log has it. */
  ghost predicate Held(s: State, r: Task) {
    Holds(s.shared.chosen, r) || exists id :: id in s.nodes && Holds(s.nodes[id].log, r)
  }

  /** The node can no longer admit the request: its term is over, or it leads without room for it. */
  predicate Spent(n: Node, r: Task) {
    n.term > r.term || (n.term == r.term && (!n.leader || |n.log| >= r.index))
  }

  lemma LostIsSpent(n: Node, r: Task)
    requires IsLost(n, r) && r.term <= n.term
    ensures (|n.log| < r.index || n.log[r.index - 1].term != r.term) && !Holds(n.log, r) && Spent(n, r)
  {
  }

  lemma TaskTerm(g: Shared, id: nat, n: Node, r: Task)
    requires NodeOk(g, id, n) && r in n.numbered
    ensures r.term <= n.term && Leads(g, id, r.term)
  {
    assert TaskOk(g, id, n, r);
  }

  /** In every run, a write is given up only while the log of the node does not hold its bundle. */
  lemma GivenUpIsGone(run: seq<State>, steps: seq<Step>, i: nat)
    requires IsRun(run, steps) && i < |steps| && steps[i].AnswerFailed?
    ensures var n, r := run[i].nodes[steps[i].n], steps[i].task;
      && (|n.log| < r.index || n.log[r.index - 1].term != r.term)
      && !Holds(n.log, r) && Spent(n, r) && Leads(run[i].shared, steps[i].n, r.term)
  {
    RunInv(run, steps, i);
    TaskTerm(run[i].shared, steps[i].n, run[i].nodes[steps[i].n], steps[i].task);
    LostIsSpent(run[i].nodes[steps[i].n], steps[i].task);
  }

  lemma SpentStays(s: State, st: Step, id: nat, r: Task)
    requires Inv(s) && Enabled(s, st) && id in s.nodes && Spent(s.nodes[id], r)
    ensures Spent(Next(s, st).nodes[id], r)
  {
  }

  /** The request of a node is spent, and its bundle is nowhere. */
  ghost predicate Gone(s: State, id: nat, r: Task) {
    id in s.nodes && Spent(s.nodes[id], r) && Leads(s.shared, id, r.term) && !Held(s, r)
  }

  /** The node that steps does not get the bundle. */
  lemma StaysOut(s: State, st: Step, id: nat, r: Task)
    requires Enabled(s, st) && NodeOk(s.shared, st.n, s.nodes[st.n]) && Gone(s, id, r)
    ensures !Holds(NextNode(s, st).log, r)
  {
    assert !Holds(s.nodes[st.n].log, r);
    if st.Replicate? {
      assert !Holds(s.nodes[st.from].log, r);
    }
  }

  lemma ChosenStaysOut(s: State, st: Step, id: nat, r: Task)
    requires Enabled(s, st) && Gone(s, id, r)
    ensures !Holds(NextShared(s, st).chosen, r)
  {
    assert !Holds(s.nodes[st.n].log, r);
  }

  lemma HeldBy(s: State, st: Step, r: Task)
    requires Enabled(s, st) && !Held(s, r)
    requires !Holds(NextNode(s, st).log, r) && !Holds(NextShared(s, st).chosen, r)
    ensures !Held(Next(s, st), r)
  {
    forall id | id in Next(s, st).nodes
      ensures !Holds(Next(s, st).nodes[id].log, r)
    {
      assert id != st.n ==> !Holds(s.nodes[id].log, r);
    }
  }

  /** Nobody brings back the bundle of a spent request that is in no log. */
  lemma GoneStays(s: State, st: Step, id: nat, r: Task)
    requires Inv(s) && Enabled(s, st) && Gone(s, id, r)
    ensures Gone(Next(s, st), id, r)
  {
    SpentStays(s, st, id, r);
    StaysOut(s, st, id, r);
    ChosenStaysOut(s, st, id, r);
    HeldBy(s, st, r);
  }

  lemma GoneStep(run: seq<State>, steps: seq<Step>, j: nat, id: nat, r: Task)
    requires IsRun(run, steps) && j < |steps| && Gone(run[j], id, r)
    ensures Gone(run[j + 1], id, r)
  {
    RunInv(run, steps, j);
    GoneStays(run[j], steps[j], id, r);
  }

  ghost predicate StaysGone(run: seq<State>, id: nat, r: Task) {
    forall i | 0 <= i < |run| - 1 && Gone(run[i], id, r) :: Gone(run[i + 1], id, r)
  }

  lemma {:induction false} GoneOn(run: seq<State>, i: nat, j: nat, id: nat, r: Task)
    requires StaysGone(run, id, r) && i <= j < |run| && Gone(run[i], id, r)
    ensures Gone(run[j], id, r)
  {
    if i < j {
      GoneOn(run, i, j - 1, id, r);
    }
  }

  lemma GoneForever(run: seq<State>, steps: seq<Step>, i: nat, j: nat, id: nat, r: Task)
    requires IsRun(run, steps) && i <= j < |run| && Gone(run[i], id, r)
    ensures Gone(run[j], id, r)
  {
    forall k | 0 <= k < |run| - 1 && Gone(run[k], id, r)
      ensures Gone(run[k + 1], id, r)
    {
      GoneStep(run, steps, k, id, r);
    }
    GoneOn(run, i, j, id, r);
  }

  /** A write that was given up is chosen later only if its bundle was chosen, or in the log of another node, already
      at that moment. */
  lemma GivenUpIsChosenOnlyIfHeld(run: seq<State>, steps: seq<Step>, i: nat, j: nat)
    requires IsRun(run, steps) && i < |steps| && i <= j < |run| && steps[i].AnswerFailed?
    requires Holds(run[j].shared.chosen, steps[i].task)
    ensures
      || Holds(run[i].shared.chosen, steps[i].task)
      || exists id :: id in run[i].nodes && id != steps[i].n && Holds(run[i].nodes[id].log, steps[i].task)
  {
    GivenUpIsGone(run, steps, i);
    if !Held(run[i], steps[i].task) {
      GoneForever(run, steps, i, j, steps[i].n, steps[i].task);
    }
  }

  // ----- requests left over from an earlier term

  /** The number of leftover requests is what the queue holds when a term is entered, and stays that. */
  lemma LeftoverIsFixed(s: State, st: Step)
    requires Enabled(s, st) && !st.Restart?
    ensures Leftover(NextNode(s, st)) == if st.EnterTerm? then |s.nodes[st.n].queue| else Leftover(s.nodes[st.n])
  {
  }

  /** A node that has got an entry of its term into a log had no leftover requests. */
  lemma WrittenWithoutLeftover(g: Shared, id: nat, n: Node, i: nat)
    requires TasksOk(g, id, n) && OwnOk(g, n) && n.curTerm > 0 && n.readyIndex < i && (i, n.curTerm) in g.written
    ensures Leftover(n) == 0
  {
    assert TaskOk(g, id, n, Own(n, i));
  }

  /** In every run a request is admitted only by a node that entered its current term with an empty queue: a single
      leftover request takes the first index of the new term, and every later one is numbered past the gap. */
  lemma LeftoverBlocksTerm(run: seq<State>, steps: seq<Step>, i: nat)
    requires IsRun(run, steps) && i < |steps| && steps[i].Admit?
    ensures Leftover(run[i].nodes[steps[i].n]) == 0
  {
    RunInv(run, steps, i);
    var s, st := run[i], steps[i];
    assert NodeOk(s.shared, st.n, s.nodes[st.n]);
    AdmittedIsOwn(s.shared, st.n, s.nodes[st.n], st.task);
  }
}
