/** The control plane: handlers that add and start clusters run concurrently over one key-value store,
    each reading the global record, the cluster records and the host records at different moments and then
    committing one transaction guarded by the versions it read. */
module ClusterSet {
  import opened Base
  import Ring = HashRing

  type Host = string

  datatype ClusterStatus = INIT | IN_SERVICE | EXPORTING | IMPORTING | OUT_OF_SERVICE

  datatype ClusterInfo = ClusterInfo(status: ClusterStatus, servers: seq<Host>)
  datatype GlobalInfo = GlobalInfo(ids: seq<nat>, routeVersion: nat)

  datatype Versioned<T> = Versioned(value: T, version: nat)

  /** The three kinds of records, each with the version of its last write. */
  datatype Records = Records(
    global: Option<Versioned<GlobalInfo>>, clusters: map<nat, Versioned<ClusterInfo>>, hosts: map<Host, nat>)

  datatype Request = AddCluster(servers: seq<Host>) | StartCluster(servers: seq<Host>)

  /** What a handler has loaded; version 0 stands for a missing global record. */
  datatype Manager = Manager(version: nat, info: GlobalInfo, clusters: seq<Versioned<ClusterInfo>>)

  // ----- computing a transaction

  /** A guarded write of the global record, of one cluster record and of the hosts of that cluster. */
  datatype Txn = Txn(info: GlobalInfo, id: nat, cluster: ClusterInfo, hosts: seq<Host>, create: bool)

  /** Crash is the failed assertion of onboarding a cluster while none is routing. */
  datatype Decision = Reject | NoChange | Crash | Commit(txn: Txn)

  /** The number of hosts that are taken and the one cluster they belong to; none if they differ. */
  function SameCluster(answers: seq<Option<nat>>): Option<(nat, nat)> {
    if answers == [] then Some((0, 0))
    else
      var front, last := SameCluster(answers[..|answers| - 1]), answers[|answers| - 1];
      if front.None? || last.None? then front
      else if front.value.0 == 0 then Some((1, last.value))
      else if front.value.1 == last.value then Some((front.value.0 + 1, last.value))
      else None
  }

  lemma {:induction false} SameClusterMeans(answers: seq<Option<nat>>)
    ensures var r := SameCluster(answers);
      if r.None? then
        exists i, j :: 0 <= i < j < |answers| && answers[i].Some? && answers[j].Some? && answers[i] != answers[j]
      else
        && (forall i :: 0 <= i < |answers| && answers[i].Some? ==> answers[i].value == r.value.1)
        && (r.value.0 == 0 <==> forall i :: 0 <= i < |answers| ==> answers[i].None?)
        && (r.value.0 == |answers| <==> forall i :: 0 <= i < |answers| ==> answers[i].Some?)
        && r.value.0 <= |answers|
  {
    if answers != [] {
      var front, last := answers[..|answers| - 1], answers[|answers| - 1];
      SameClusterMeans(front);
      var f := SameCluster(front);
      assert forall i :: 0 <= i < |front| ==> front[i] == answers[i];
      if f.None? {
        var i, j :| 0 <= i < j < |front| && front[i].Some? && front[j].Some? && front[i] != front[j];
        assert answers[i] != answers[j];
      } else if SameCluster(answers).None? {
        var i :| 0 <= i < |front| && front[i].Some?;
        assert answers[i] != answers[|front|];
      }
    }
  }

  /** The loop over the batch response. */
  method IsAddressInSameCluster(answers: seq<Option<nat>>) returns (r: Option<(nat, nat)>)
    ensures r == SameCluster(answers)
  {
    var count, id := 0, None;
    for i := 0 to |answers|
      invariant SameCluster(answers[..i]) == Some((count, if id.Some? then id.value else 0))
      invariant id.None? <==> count == 0
    {
      assert answers[..i + 1][..i] == answers[..i];
      if answers[i].Some? {
        count := count + 1;
        if id.None? {
          id := answers[i];
        } else if id != answers[i] {
          SameClusterStaysNone(answers, i + 1);
          return None;
        }
      }
    }
    assert answers[..|answers|] == answers;
    r := Some((count, if id.Some? then id.value else 0));
  }

  lemma {:induction false} SameClusterStaysNone(answers: seq<Option<nat>>, n: nat)
    requires n <= |answers| && SameCluster(answers[..n]).None?
    ensures SameCluster(answers).None?
  {
    if n < |answers| {
      assert answers[..|answers| - 1][..n] == answers[..n];
      SameClusterStaysNone(answers[..|answers| - 1], n);
    } else {
      assert answers[..n] == answers;
    }
  }

  function NewClusterId(ids: seq<nat>): nat {
    if ids == [] then 1 else ids[|ids| - 1] + 1
  }

  function IndexOf(ids: seq<nat>, id: nat): (r: Option<nat>)
    ensures r.Some? ==> r.value < |ids| && ids[r.value] == id
    ensures r.None? <==> id !in ids
  {
    if ids == [] then None
    else if ids[|ids| - 1] == id && id !in ids[..|ids| - 1] then Some(|ids| - 1)
    else IndexOf(ids[..|ids| - 1], id)
  }

  predicate Routing(c: ClusterInfo) {
    c.status == EXPORTING || c.status == IN_SERVICE
  }

  function RoutingIds(m: Manager, n: nat): seq<nat>
    requires n <= |m.clusters| && n <= |m.info.ids|
  {
    if n == 0 then []
    else RoutingIds(m, n - 1) + if Routing(m.clusters[n - 1].value) then [m.info.ids[n - 1]] else []
  }

  function Decide(req: Request, m: Manager, answers: seq<Option<nat>>): Decision
    requires |m.clusters| == |m.info.ids|
  {
    var check := SameCluster(answers);
    if check.None? then Reject
    else
      var (count, id) := check.value;
      match req
      case AddCluster(servers) =>
        if count == 0 then
          var id' := NewClusterId(m.info.ids);
          if id' in m.info.ids then Reject
          else Commit(Txn(m.info.(ids := m.info.ids + [id']), id', ClusterInfo(INIT, servers), servers, true))
        else
          var at := IndexOf(m.info.ids, id);
          if at.None? then Reject
          else Commit(Txn(m.info, id, m.clusters[at.value].value.(servers := servers), servers, false))
      case StartCluster(servers) =>
        if count < |servers| || id == 0 then Reject
        else
          var at := IndexOf(m.info.ids, id);
          if at.None? then Reject
          else
            var c := m.clusters[at.value].value;
            if c.status != INIT then NoChange
            else if |m.clusters| == 1 then
              Commit(Txn(m.info.(routeVersion := m.info.routeVersion + 1), id, c.(status := IN_SERVICE), [], false))
            else if RoutingIds(m, |m.clusters|) == [] then Crash
            else Commit(Txn(m.info, id, c.(status := IN_SERVICE), [], false))
  }

  /** The onboarding assertion on the ring: with the routing clusters on it, adding one more hands over shards
      exactly when there is a routing cluster at all. */
  method OnboardShards(routing: seq<nat>, id: nat, virtualNodes: nat, hash: (nat, nat) -> nat)
    returns (moved: Ring.HandOver)
    requires virtualNodes > 0 && (|routing| + 1) * virtualNodes <= Ring.RING_LENGTH
    ensures moved == map[] <==> routing == []
  {
    Ring.RoomForOneMore(|routing|, |routing| + 1, virtualNodes);
    var r := Ring.RingOf(routing, virtualNodes, hash);
    Ring.SizedMore(|r.ring|, |routing|, |routing| + 1, virtualNodes);
    ghost var points;
    moved, points := r.AddClusterId(id);
  }

  // ----- committing it

  predicate Admissible(kv: Records, m: Manager, t: Txn)
    requires |m.clusters| == |m.info.ids|
  {
    && (if m.version == 0 then kv.global.None?
        else
          && kv.global.Some? && kv.global.value.version == m.version
          && forall i :: 0 <= i < |m.clusters| ==>
               m.info.ids[i] in kv.clusters && kv.clusters[m.info.ids[i]].version == m.clusters[i].version)
    && (if t.create then t.id !in kv.clusters && forall h :: h in t.hosts ==> h !in kv.hosts else t.id in kv.clusters)
  }

  function Committed(kv: Records, t: Txn, v: nat): Records {
    Records(
      Some(Versioned(t.info, v)),
      kv.clusters[t.id := Versioned(t.cluster, v)],
      map h | h in kv.hosts.Keys + (set x | x in t.hosts) :: if h in t.hosts then t.id else kv.hosts[h])
  }

  // ----- handlers

  /** Each phase keeps, besides what the handler has read, the records as they were when it read the global
      one (a history variable). */
  datatype Handler =
    | Began(req: Request)
    | GotGlobal(req: Request, seen: Records, global: Option<Versioned<GlobalInfo>>)
    | Loaded(req: Request, seen: Records, manager: Manager, answers: map<nat, Option<nat>>)
    | Done

  datatype State = State(kv: Records, next: nat, handlers: map<nat, Handler>)

  datatype Step =
    | Begin(h: nat, req: Request)
    | ReadGlobal(h: nat)
    | LoadClusters(h: nat)
    | ReadHost(h: nat, i: nat)
    | Finish(h: nat)

  const NO_MANAGER: Manager := Manager(0, GlobalInfo([], 0), [])

  function ManagerOf(kv: Records): Manager
    requires kv.global.Some? ==> forall id :: id in kv.global.value.value.ids ==> id in kv.clusters
  {
    if kv.global.None? then NO_MANAGER
    else
      var g := kv.global.value;
      Manager(g.version, g.value, seq(|g.value.ids|, i requires 0 <= i < |g.value.ids| => kv.clusters[g.value.ids[i]]))
  }

  /** The second read of a handler, a transaction that only goes through while the global record is the one read
      first and every listed cluster exists. */
  predicate CanLoad(kv: Records, global: Option<Versioned<GlobalInfo>>) {
    global.Some? ==> kv.global == global && forall id :: id in global.value.value.ids ==> id in kv.clusters
  }

  predicate Answered(h: Handler) {
    h.Loaded? && forall i :: 0 <= i < |h.req.servers| ==> i in h.answers
  }

  function Answers(h: Handler): seq<Option<nat>>
    requires Answered(h)
  {
    seq(|h.req.servers|, i requires 0 <= i < |h.req.servers| => h.answers[i])
  }

  predicate Enabled(s: State, st: Step) {
    match st
    case Begin(h, req) => h !in s.handlers && |req.servers| > 0
    case ReadGlobal(h) => h in s.handlers && s.handlers[h].Began?
    case LoadClusters(h) => h in s.handlers && s.handlers[h].GotGlobal?
    case ReadHost(h, i) => h in s.handlers && s.handlers[h].Loaded? && i < |s.handlers[h].req.servers|
    case Finish(h) =>
      && h in s.handlers && Answered(s.handlers[h])
      && |s.handlers[h].manager.clusters| == |s.handlers[h].manager.info.ids|
  }

  /** The transaction a handler commits now, if it does. */
  function Commits(s: State, st: Step): Option<Txn>
    requires Enabled(s, st)
  {
    if st.Finish? then
      var h := s.handlers[st.h];
      var d := Decide(h.req, h.manager, Answers(h));
      if d.Commit? && Admissible(s.kv, h.manager, d.txn) then Some(d.txn) else None
    else None
  }

  function NextHandler(s: State, st: Step): Handler
    requires Enabled(s, st)
  {
    match st
    case Begin(h, req) => Began(req)
    case ReadGlobal(h) => GotGlobal(s.handlers[h].req, s.kv, s.kv.global)
    case LoadClusters(h) =>
      var GotGlobal(req, seen, global) := s.handlers[h];
      if !CanLoad(s.kv, global) then Done
      else Loaded(req, seen, if global.None? then NO_MANAGER else ManagerOf(s.kv), map[])
    case ReadHost(h, i) =>
      var hd := s.handlers[h];
      hd.(answers := hd.answers[i := Lookup(s.kv.hosts, hd.req.servers[i])])
    case Finish(h) => Done
  }

  function Next(s: State, st: Step): State
    requires Enabled(s, st)
  {
    var t := Commits(s, st);
    State(
      if t.Some? then Committed(s.kv, t.value, s.next) else s.kv,
      if t.Some? then s.next + 1 else s.next,
      s.handlers[st.h := NextHandler(s, st)])
  }

  // ----- the invariant

  ghost predicate RecordsOk(kv: Records, next: nat) {
    if kv.global.None? then kv.clusters == map[] && kv.hosts == map[]
    else 0 < kv.global.value.version < next && IdsOk(kv.global.value.value.ids, kv.clusters) && HostsOk(kv)
  }

  ghost predicate IdsOk(ids: seq<nat>, clusters: map<nat, Versioned<ClusterInfo>>) {
    && (forall i, j :: 0 <= i < j < |ids| ==> ids[i] < ids[j])
    && (forall i :: 0 <= i < |ids| ==> ids[i] > 0)
    && (forall id :: id in ids <==> id in clusters)
  }

  ghost predicate HostsOk(kv: Records) {
    && (forall id, h | id in kv.clusters && h in kv.clusters[id].value.servers :: h in kv.hosts && kv.hosts[h] == id)
    && (forall h :: h in kv.hosts ==> kv.hosts[h] in kv.clusters)
  }

  ghost predicate SameGlobal(a: Records, b: Records) {
    || (a.global.None? && b.global.None?)
    || (a.global.Some? && b.global.Some? && a.global.value.version == b.global.value.version)
  }

  /** A handler's view: while the global record is the one it saw, nothing at all has changed since. */
  ghost predicate HandlerOk(kv: Records, next: nat, h: Handler) {
    (h.GotGlobal? || h.Loaded?) ==>
      && (h.seen.global.Some? ==> kv.global.Some? && 0 < h.seen.global.value.version < next)
      && (SameGlobal(kv, h.seen) ==> kv == h.seen)
      && (h.GotGlobal? ==> h.global == h.seen.global)
      && (h.Loaded? ==>
            && (h.seen.global.Some? ==> forall id :: id in h.seen.global.value.value.ids ==> id in h.seen.clusters)
            && h.manager == ManagerOf(h.seen)
            && (SameGlobal(kv, h.seen) ==> forall i :: i in h.answers && i < |h.req.servers| ==>
                  h.answers[i] == Lookup(h.seen.hosts, h.req.servers[i])))
  }

  ghost predicate Inv(s: State) {
    && s.next > 0 && RecordsOk(s.kv, s.next)
    && forall h :: h in s.handlers ==> HandlerOk(s.kv, s.next, s.handlers[h])
  }

  // ----- a transaction computed from the records it meets keeps them in order

  /** The answers a handler gets when it asks the records as they are. */
  ghost predicate FreshAnswers(kv: Records, servers: seq<Host>, answers: seq<Option<nat>>) {
    |answers| == |servers| && forall i :: 0 <= i < |servers| ==> answers[i] == Lookup(kv.hosts, servers[i])
  }

  ghost predicate Decided(kv: Records, req: Request, answers: seq<Option<nat>>, t: Txn) {
    && (kv.global.Some? ==> forall id :: id in kv.global.value.value.ids ==> id in kv.clusters)
    && FreshAnswers(kv, req.servers, answers)
    && Decide(req, ManagerOf(kv), answers) == Commit(t) && Admissible(kv, ManagerOf(kv), t)
  }

  lemma DecidedHosts(kv: Records, req: Request, answers: seq<Option<nat>>, t: Txn, h: Host)
    requires Decided(kv, req, answers, t) && h in t.hosts
    ensures h in kv.hosts ==> !t.create && kv.hosts[h] == t.id
    ensures h in req.servers && t.cluster.servers == req.servers
  {
    SameClusterMeans(answers);
    var i :| 0 <= i < |req.servers| && req.servers[i] == h;
    assert answers[i] == Lookup(kv.hosts, h);
  }

  lemma DecidedCreate(kv: Records, next: nat, req: Request, answers: seq<Option<nat>>, t: Txn)
    requires RecordsOk(kv, next) && Decided(kv, req, answers, t) && t.create
    ensures req.AddCluster? && t.hosts == t.cluster.servers && t.id !in kv.clusters
    ensures t.info == ManagerOf(kv).info.(ids := ManagerOf(kv).info.ids + [t.id])
    ensures t.id == NewClusterId(ManagerOf(kv).info.ids)
  {
  }

  lemma DecidedUpdate(kv: Records, next: nat, req: Request, answers: seq<Option<nat>>, t: Txn)
    requires RecordsOk(kv, next) && Decided(kv, req, answers, t) && !t.create
    ensures kv.global.Some? && t.info.ids == kv.global.value.value.ids && t.id in kv.clusters
    ensures t.info.routeVersion >= kv.global.value.value.routeVersion
    ensures t.hosts == t.cluster.servers || (t.hosts == [] && t.cluster.servers == kv.clusters[t.id].value.servers)
  {
    if req.AddCluster? {
      AddTxn(kv, next, req.servers, answers, t);
    } else {
      StartTxn(kv, next, req.servers, answers, t);
    }
  }

  /** What a transaction does to the global record and to one cluster. */
  ghost predicate Shaped(kv: Records, t: Txn)
    requires kv.global.Some? ==> forall id :: id in kv.global.value.value.ids ==> id in kv.clusters
  {
    if t.create then
      && t.hosts == t.cluster.servers && t.id !in kv.clusters && t.id == NewClusterId(ManagerOf(kv).info.ids)
      && t.info == ManagerOf(kv).info.(ids := ManagerOf(kv).info.ids + [t.id])
    else
      && kv.global.Some? && t.info.ids == kv.global.value.value.ids && t.id in kv.clusters
      && t.info.routeVersion >= kv.global.value.value.routeVersion
      && (t.hosts == t.cluster.servers || (t.hosts == [] && t.cluster.servers == kv.clusters[t.id].value.servers))
  }

  lemma DecidedShape(kv: Records, next: nat, req: Request, answers: seq<Option<nat>>, t: Txn)
    requires RecordsOk(kv, next) && Decided(kv, req, answers, t)
    ensures Shaped(kv, t)
  {
    if t.create {
      DecidedCreate(kv, next, req, answers, t);
    } else {
      DecidedUpdate(kv, next, req, answers, t);
    }
  }

  /** Which hosts a transaction may rekey. */
  ghost predicate HostsAllowed(kv: Records, t: Txn) {
    && (forall h :: h in t.hosts && h in kv.hosts ==> kv.hosts[h] == t.id)
    && (t.hosts == t.cluster.servers ||
        (t.hosts == [] && t.id in kv.clusters && t.cluster.servers == kv.clusters[t.id].value.servers))
  }

  lemma DecidedHostsAllowed(kv: Records, next: nat, req: Request, answers: seq<Option<nat>>, t: Txn)
    requires RecordsOk(kv, next) && Decided(kv, req, answers, t)
    ensures HostsAllowed(kv, t)
  {
    DecidedShape(kv, next, req, answers, t);
    forall h | h in t.hosts && h in kv.hosts
      ensures kv.hosts[h] == t.id
    {
      DecidedHosts(kv, req, answers, t, h);
    }
  }

  lemma CommitKeepsHosts(kv: Records, t: Txn, v: nat)
    requires HostsOk(kv) && HostsAllowed(kv, t)
    ensures HostsOk(Committed(kv, t, v))
  {
    var kv' := Committed(kv, t, v);
    forall id, h | id in kv'.clusters && h in kv'.clusters[id].value.servers
      ensures h in kv'.hosts && kv'.hosts[h] == id
    {
      assert id != t.id ==> h in kv.clusters[id].value.servers;
    }
  }

  lemma CommitKeepsIds(ids: seq<nat>, clusters: map<nat, Versioned<ClusterInfo>>, t: Txn, v: nat)
    requires IdsOk(ids, clusters)
    requires t.create ==> t.info.ids == ids + [t.id] && t.id == NewClusterId(ids)
    requires !t.create ==> t.info.ids == ids && t.id in clusters
    ensures IdsOk(t.info.ids, clusters[t.id := Versioned(t.cluster, v)])
  {
    if t.create {
      assert forall id :: id in t.info.ids <==> id in ids || id == t.id;
    }
  }

  lemma CommitKeepsRecords(kv: Records, next: nat, req: Request, answers: seq<Option<nat>>, t: Txn)
    requires next > 0 && RecordsOk(kv, next) && Decided(kv, req, answers, t)
    ensures RecordsOk(Committed(kv, t, next), next + 1)
  {
    DecidedShape(kv, next, req, answers, t);
    DecidedHostsAllowed(kv, next, req, answers, t);
    CommitKeepsHosts(kv, t, next);
    CommitKeepsIds(ManagerOf(kv).info.ids, kv.clusters, t, next);
  }

  // ----- each step keeps the invariant

  /** What a handler commits it has computed from the very records it commits against. */
  lemma CommitIsDecided(s: State, st: Step)
    requires Inv(s) && Enabled(s, st) && Commits(s, st).Some?
    ensures var h := s.handlers[st.h]; h.seen == s.kv && Decided(s.kv, h.req, Answers(h), Commits(s, st).value)
  {
    var h := s.handlers[st.h];
    assert HandlerOk(s.kv, s.next, h);
    assert SameGlobal(s.kv, h.seen);
  }

  lemma OtherHandlerKept(s: State, st: Step, h: Handler)
    requires Enabled(s, st) && s.next > 0 && HandlerOk(s.kv, s.next, h)
    ensures HandlerOk(Next(s, st).kv, Next(s, st).next, h)
  {
  }

  lemma OwnHandlerKept(s: State, st: Step)
    requires Enabled(s, st) && s.next > 0 && RecordsOk(s.kv, s.next)
    requires st.h in s.handlers ==> HandlerOk(s.kv, s.next, s.handlers[st.h])
    ensures HandlerOk(Next(s, st).kv, Next(s, st).next, NextHandler(s, st))
  {
    if st.LoadClusters? {
      var h := s.handlers[st.h];
      if CanLoad(s.kv, h.global) && h.global.Some? {
        assert SameGlobal(s.kv, h.seen);
      }
    }
  }

  lemma StepKeepsInv(s: State, st: Step)
    requires Inv(s) && Enabled(s, st)
    ensures Inv(Next(s, st))
  {
    var s' := Next(s, st);
    if Commits(s, st).Some? {
      CommitIsDecided(s, st);
      CommitKeepsRecords(s.kv, s.next, s.handlers[st.h].req, Answers(s.handlers[st.h]), Commits(s, st).value);
    }
    forall h | h in s'.handlers
      ensures HandlerOk(s'.kv, s'.next, s'.handlers[h])
    {
      if h == st.h {
        OwnHandlerKept(s, st);
      } else {
        OtherHandlerKept(s, st, s.handlers[h]);
      }
    }
  }

  // ----- main results

  ghost predicate Init(s: State) {
    s.kv == Records(None, map[], map[]) && s.next > 0 && s.handlers == map[]
  }

  ghost predicate IsRun(run: seq<State>, steps: seq<Step>) {
    && |run| == |steps| + 1 && Init(run[0])
    && forall i :: 0 <= i < |steps| ==> Enabled(run[i], steps[i]) && run[i + 1] == Next(run[i], steps[i])
  }

  lemma {:induction false} RunInv(run: seq<State>, steps: seq<Step>, n: nat)
    requires IsRun(run, steps) && n < |run|
    ensures Inv(run[n])
  {
    if n > 0 {
      RunInv(run, steps, n - 1);
      StepKeepsInv(run[n - 1], steps[n - 1]);
    }
  }

  /** In every interleaving, a transaction that goes through is the one that the records it meets call for, even
      though its handler read them one by one at earlier moments. */
  lemma CommitsAreSerial(run: seq<State>, steps: seq<Step>, n: nat)
    requires IsRun(run, steps) && n < |steps| && Commits(run[n], steps[n]).Some?
    ensures
      var kv, h := run[n].kv, run[n].handlers[steps[n].h];
      exists answers :: Decided(kv, h.req, answers, Commits(run[n], steps[n]).value)
  {
    RunInv(run, steps, n);
    CommitIsDecided(run[n], steps[n]);
  }

  /** In every reachable state cluster ids are strictly increasing, every server of a cluster is keyed to it, and
      so no server belongs to two clusters. */
  lemma ClustersAreSeparate(run: seq<State>, steps: seq<Step>, n: nat, c: nat, d: nat, h: Host)
    requires IsRun(run, steps) && n < |run|
    requires c in run[n].kv.clusters && d in run[n].kv.clusters
    requires h in run[n].kv.clusters[c].value.servers && h in run[n].kv.clusters[d].value.servers
    ensures c == d && h in run[n].kv.hosts && run[n].kv.hosts[h] == c
    ensures run[n].kv.global.Some?
    ensures var ids := run[n].kv.global.value.value.ids;
      c in ids && forall i, j :: 0 <= i < j < |ids| ==> ids[i] < ids[j]
  {
    RunInv(run, steps, n);
    var kv := run[n].kv;
    assert HostsOk(kv) && kv.hosts[h] == c && kv.hosts[h] == d;
  }

  // ----- what the handlers do to the records

  function Ids(kv: Records): seq<nat> {
    if kv.global.None? then [] else kv.global.value.value.ids
  }

  function RouteVersion(kv: Records): nat {
    if kv.global.None? then 0 else kv.global.value.value.routeVersion
  }

  /** All clusters but one are as they were. */
  ghost predicate OthersStay(kv: Records, kv': Records, id: nat) {
    kv'.clusters.Keys == kv.clusters.Keys + {id} && kv'.global.Some?
    && forall c :: c in kv.clusters && c != id ==> kv'.clusters[c] == kv.clusters[c]
  }

  /** The servers are those of the cluster, which is new with status INIT if none of them was taken, and otherwise the
      one cluster that had those taken, with the status it had. */
  ghost predicate Adds(kv: Records, servers: seq<Host>, kv': Records, id: nat) {
    && OthersStay(kv, kv', id)
    && (id in kv.clusters <==> exists h :: h in servers && h in kv.hosts)
    && (forall h :: h in servers && h in kv.hosts ==> kv.hosts[h] == id)
    && kv'.clusters[id].value.servers == servers
    && kv'.clusters[id].value.status == (if id in kv.clusters then kv.clusters[id].value.status else INIT)
    && (forall h :: Lookup(kv'.hosts, h) == if h in servers then Some(id) else Lookup(kv.hosts, h))
    && Ids(kv') == Ids(kv) + (if id in kv.clusters then [] else [id]) && RouteVersion(kv') == RouteVersion(kv)
    && (id !in kv.clusters ==> forall c :: c in kv.clusters ==> c < id)
  }

  /** The cluster of the servers goes from INIT to IN_SERVICE. Unless it is alone, another one serves already. */
  ghost predicate Starts(kv: Records, servers: seq<Host>, kv': Records, id: nat) {
    && OthersStay(kv, kv', id) && kv'.hosts == kv.hosts && Ids(kv') == Ids(kv)
    && (forall h :: h in servers ==> h in kv.hosts && kv.hosts[h] == id)
    && id in kv.clusters && kv.clusters[id].value.status == INIT
    && kv'.clusters[id].value == ClusterInfo(IN_SERVICE, kv.clusters[id].value.servers)
    && RouteVersion(kv') == RouteVersion(kv) + (if |Ids(kv)| == 1 then 1 else 0)
    && (|Ids(kv)| == 1 || SomeServes(kv))
  }

  ghost predicate SomeServes(kv: Records) {
    exists c :: c in kv.clusters && Serving(kv, c)
  }

  /** The clusters that shards are routed to. */
  predicate Serving(kv: Records, c: nat) {
    c in kv.clusters && (kv.clusters[c].value.status == IN_SERVICE || kv.clusters[c].value.status == EXPORTING)
  }

  /** What the answers say about the hosts. */
  lemma AnswersMean(kv: Records, servers: seq<Host>, answers: seq<Option<nat>>)
    requires FreshAnswers(kv, servers, answers)
    ensures var r := SameCluster(answers);
      && (r.None? <==> !OneCluster(kv, servers))
      && (r.Some? ==>
            && (forall h :: h in servers && h in kv.hosts ==> kv.hosts[h] == r.value.1)
            && (r.value.0 == 0 <==> forall h :: h in servers ==> h !in kv.hosts)
            && r.value.0 <= |servers| && (r.value.0 == |servers| <==> forall h :: h in servers ==> h in kv.hosts))
  {
    SameClusterMeans(answers);
    assert forall i :: 0 <= i < |servers| ==> answers[i] == Lookup(kv.hosts, servers[i]);
    if SameCluster(answers).None? {
      var i, j :| 0 <= i < j < |answers| && answers[i].Some? && answers[j].Some? && answers[i] != answers[j];
      assert servers[i] in servers && servers[j] in servers && kv.hosts[servers[i]] != kv.hosts[servers[j]];
    }
  }

  /** Those of the servers that are taken belong to one cluster. */
  ghost predicate OneCluster(kv: Records, servers: seq<Host>) {
    forall g, h | g in servers && h in servers && g in kv.hosts && h in kv.hosts :: kv.hosts[g] == kv.hosts[h]
  }

  lemma AddTxn(kv: Records, next: nat, servers: seq<Host>, answers: seq<Option<nat>>, t: Txn)
    requires RecordsOk(kv, next) && Decided(kv, AddCluster(servers), answers, t)
    ensures var r := SameCluster(answers);
      && r.Some? && t.hosts == servers && t.create == (r.value.0 == 0)
      && t.id == (if t.create then NewClusterId(Ids(kv)) else r.value.1)
      && t.info == GlobalInfo(Ids(kv) + (if t.create then [t.id] else []), RouteVersion(kv))
      && (if t.create then t.id !in kv.clusters && t.cluster == ClusterInfo(INIT, servers)
          else t.id in kv.clusters && t.cluster == ClusterInfo(kv.clusters[t.id].value.status, servers))
  {
    assert ManagerOf(kv).info == GlobalInfo(Ids(kv), RouteVersion(kv));
    if !t.create {
      assert t.info.ids + [] == t.info.ids;
    }
  }

  lemma StartTxn(kv: Records, next: nat, servers: seq<Host>, answers: seq<Option<nat>>, t: Txn)
    requires RecordsOk(kv, next) && Decided(kv, StartCluster(servers), answers, t)
    ensures var r := SameCluster(answers);
      && r.Some? && r.value == (|servers|, t.id) && t.hosts == [] && !t.create
      && t.id in kv.clusters && kv.clusters[t.id].value.status == INIT
      && t.cluster == ClusterInfo(IN_SERVICE, kv.clusters[t.id].value.servers)
      && t.info == GlobalInfo(Ids(kv), RouteVersion(kv) + if |Ids(kv)| == 1 then 1 else 0)
      && (|Ids(kv)| == 1 || RoutingIds(ManagerOf(kv), |Ids(kv)|) != [])
  {
    assert ManagerOf(kv).info == GlobalInfo(Ids(kv), RouteVersion(kv));
    SameClusterMeans(answers);
    var id := SameCluster(answers).value.1;
    assert id in Ids(kv);
    ClusterLoaded(kv, next, id);
  }

  lemma NewIdIsLarger(kv: Records, next: nat, c: nat)
    requires RecordsOk(kv, next) && c in kv.clusters
    ensures c < NewClusterId(Ids(kv))
  {
    var i :| 0 <= i < |Ids(kv)| && Ids(kv)[i] == c;
  }

  /** A transaction that is committed leaves all clusters but its own alone, and rekeys its hosts. */
  lemma CommittedStays(kv: Records, t: Txn, v: nat)
    ensures var kv' := Committed(kv, t, v);
      && OthersStay(kv, kv', t.id) && kv'.clusters[t.id].value == t.cluster
      && Ids(kv') == t.info.ids && RouteVersion(kv') == t.info.routeVersion
      && (forall h :: Lookup(kv'.hosts, h) == if h in t.hosts then Some(t.id) else Lookup(kv.hosts, h))
      && (t.hosts == [] ==> kv'.hosts == kv.hosts)
  {
  }

  lemma DecidedAdds(kv: Records, next: nat, servers: seq<Host>, answers: seq<Option<nat>>, t: Txn)
    requires RecordsOk(kv, next) && Decided(kv, AddCluster(servers), answers, t)
    ensures Adds(kv, servers, Committed(kv, t, next), t.id)
  {
    AnswersMean(kv, servers, answers);
    AddTxn(kv, next, servers, answers, t);
    CommittedStays(kv, t, next);
    if t.create {
      forall c | c in kv.clusters
        ensures c < t.id
      {
        NewIdIsLarger(kv, next, c);
      }
    }
  }

  lemma DecidedStarts(kv: Records, next: nat, servers: seq<Host>, answers: seq<Option<nat>>, t: Txn)
    requires RecordsOk(kv, next) && Decided(kv, StartCluster(servers), answers, t)
    ensures Starts(kv, servers, Committed(kv, t, next), t.id)
  {
    AnswersMean(kv, servers, answers);
    StartTxn(kv, next, servers, answers, t);
    CommittedStays(kv, t, next);
    ServingMeans(kv, next);
  }

  lemma ServingMeans(kv: Records, next: nat)
    requires RecordsOk(kv, next)
    ensures RoutingIds(ManagerOf(kv), |Ids(kv)|) != [] <==> SomeServes(kv)
  {
    NoneRouting(ManagerOf(kv), |Ids(kv)|);
    if SomeServes(kv) {
      var c :| c in kv.clusters && Serving(kv, c);
      var i :| 0 <= i < |Ids(kv)| && Ids(kv)[i] == c;
      assert ManagerOf(kv).clusters[i] == kv.clusters[c];
    }
    if RoutingIds(ManagerOf(kv), |Ids(kv)|) != [] {
      var i :| 0 <= i < |Ids(kv)| && Routing(ManagerOf(kv).clusters[i].value);
      assert Serving(kv, Ids(kv)[i]);
    }
  }

  /** In every run, a request that goes through adds or starts the cluster of its servers and does nothing else. */
  lemma CommitsDo(run: seq<State>, steps: seq<Step>, n: nat)
    requires IsRun(run, steps) && n < |steps| && Commits(run[n], steps[n]).Some?
    ensures var kv, kv', req := run[n].kv, run[n + 1].kv, run[n].handlers[steps[n].h].req;
      exists id :: if req.AddCluster? then Adds(kv, req.servers, kv', id) else Starts(kv, req.servers, kv', id)
  {
    RunInv(run, steps, n);
    CommitIsDecided(run[n], steps[n]);
    var h, t := run[n].handlers[steps[n].h], Commits(run[n], steps[n]).value;
    if h.req.AddCluster? {
      DecidedAdds(run[n].kv, run[n].next, h.req.servers, Answers(h), t);
    } else {
      DecidedStarts(run[n].kv, run[n].next, h.req.servers, Answers(h), t);
    }
  }

  /** The records call for a transaction: the taken servers of an add agree; a start names one cluster that has all of
      them and has not begun, which is alone or joins one that serves. */
  ghost predicate CalledFor(kv: Records, req: Request) {
    match req
    case AddCluster(servers) => OneCluster(kv, servers)
    case StartCluster(servers) =>
      && servers != [] && OneCluster(kv, servers) && (forall h :: h in servers ==> h in kv.hosts)
      && (forall h :: h in servers && h in kv.hosts && kv.hosts[h] in kv.clusters ==>
            kv.clusters[kv.hosts[h]].value.status == INIT)
      && (|Ids(kv)| == 1 || SomeServes(kv))
  }

  lemma AddIsCalledFor(kv: Records, next: nat, servers: seq<Host>, answers: seq<Option<nat>>)
    requires RecordsOk(kv, next) && FreshAnswers(kv, servers, answers)
    ensures Decide(AddCluster(servers), ManagerOf(kv), answers).Commit? <==> CalledFor(kv, AddCluster(servers))
  {
    AnswersMean(kv, servers, answers);
    assert ManagerOf(kv).info.ids == Ids(kv);
    if NewClusterId(Ids(kv)) in Ids(kv) {
      NewIdIsLarger(kv, next, NewClusterId(Ids(kv)));
    }
  }

  lemma ClusterLoaded(kv: Records, next: nat, id: nat)
    requires RecordsOk(kv, next) && id in kv.clusters
    ensures id > 0 && IndexOf(Ids(kv), id).Some?
    ensures ManagerOf(kv).info.ids == Ids(kv) && |ManagerOf(kv).clusters| == |Ids(kv)|
    ensures ManagerOf(kv).clusters[IndexOf(Ids(kv), id).value] == kv.clusters[id]
  {
    var i :| 0 <= i < |Ids(kv)| && Ids(kv)[i] == id;
  }

  /** All servers are taken by one cluster: the state of the cluster and of the others decides. */
  lemma StartOfTaken(kv: Records, next: nat, servers: seq<Host>, answers: seq<Option<nat>>, id: nat)
    requires RecordsOk(kv, next) && SameCluster(answers) == Some((|servers|, id)) && id in kv.clusters
    ensures Decide(StartCluster(servers), ManagerOf(kv), answers).Commit?
       <==> kv.clusters[id].value.status == INIT && (|Ids(kv)| == 1 || SomeServes(kv))
  {
    ClusterLoaded(kv, next, id);
    ServingMeans(kv, next);
  }

  lemma StartIsCalledFor(kv: Records, next: nat, servers: seq<Host>, answers: seq<Option<nat>>)
    requires RecordsOk(kv, next) && FreshAnswers(kv, servers, answers)
    ensures Decide(StartCluster(servers), ManagerOf(kv), answers).Commit? <==> CalledFor(kv, StartCluster(servers))
  {
    AnswersMean(kv, servers, answers);
    var r := SameCluster(answers);
    if servers != [] && r.Some? && r.value.0 == |servers| {
      assert servers[0] in servers && kv.hosts[servers[0]] == r.value.1;
      StartOfTaken(kv, next, servers, answers, r.value.1);
    }
  }

  /** The versions that a handler guards with are those of the records it has loaded. */
  lemma OwnVersionsHold(kv: Records, next: nat, t: Txn)
    requires RecordsOk(kv, next)
    ensures Admissible(kv, ManagerOf(kv), t) <==>
      if t.create then t.id !in kv.clusters && forall h :: h in t.hosts ==> h !in kv.hosts else t.id in kv.clusters
  {
  }

  lemma AddIsAdmissible(kv: Records, next: nat, servers: seq<Host>, answers: seq<Option<nat>>)
    requires RecordsOk(kv, next) && FreshAnswers(kv, servers, answers)
    requires Decide(AddCluster(servers), ManagerOf(kv), answers).Commit?
    ensures Admissible(kv, ManagerOf(kv), Decide(AddCluster(servers), ManagerOf(kv), answers).txn)
  {
    AnswersMean(kv, servers, answers);
    OwnVersionsHold(kv, next, Decide(AddCluster(servers), ManagerOf(kv), answers).txn);
    assert ManagerOf(kv).info.ids == Ids(kv);
  }

  lemma StartIsAdmissible(kv: Records, next: nat, servers: seq<Host>, answers: seq<Option<nat>>)
    requires RecordsOk(kv, next) && Decide(StartCluster(servers), ManagerOf(kv), answers).Commit?
    ensures Admissible(kv, ManagerOf(kv), Decide(StartCluster(servers), ManagerOf(kv), answers).txn)
  {
    OwnVersionsHold(kv, next, Decide(StartCluster(servers), ManagerOf(kv), answers).txn);
    assert ManagerOf(kv).info.ids == Ids(kv);
  }

  /** In every run, a handler goes through exactly when the global record is still the one it began with and the
      records call for its transaction. */
  lemma CommitsIff(run: seq<State>, steps: seq<Step>, n: nat)
    requires IsRun(run, steps) && n < |steps| && steps[n].Finish?
    ensures var kv, h := run[n].kv, run[n].handlers[steps[n].h];
      Commits(run[n], steps[n]).Some? <==> SameGlobal(kv, h.seen) && CalledFor(kv, h.req)
  {
    RunInv(run, steps, n);
    CommitsNowIff(run[n], steps[n]);
  }

  lemma AdmittedIff(kv: Records, next: nat, req: Request, answers: seq<Option<nat>>)
    requires RecordsOk(kv, next) && FreshAnswers(kv, req.servers, answers)
    ensures var d := Decide(req, ManagerOf(kv), answers);
      CalledFor(kv, req) <==> d.Commit? && Admissible(kv, ManagerOf(kv), d.txn)
  {
    match req
    case AddCluster(servers) =>
      AddIsCalledFor(kv, next, servers, answers);
      if CalledFor(kv, req) {
        AddIsAdmissible(kv, next, servers, answers);
      }
    case StartCluster(servers) =>
      StartIsCalledFor(kv, next, servers, answers);
      if CalledFor(kv, req) {
        StartIsAdmissible(kv, next, servers, answers);
      }
  }

  lemma CommitsNowIff(s: State, st: Step)
    requires Inv(s) && Enabled(s, st) && st.Finish?
    ensures Commits(s, st).Some? <==> SameGlobal(s.kv, s.handlers[st.h].seen) && CalledFor(s.kv, s.handlers[st.h].req)
  {
    var h := s.handlers[st.h];
    assert HandlerOk(s.kv, s.next, h);
    if Commits(s, st).Some? {
      CommitIsDecided(s, st);
    }
    if SameGlobal(s.kv, h.seen) {
      AdmittedIff(s.kv, s.next, h.req, Answers(h));
    }
  }

  lemma StillServing(kv: Records, req: Request, kv': Records, id: nat, c: nat)
    requires Serving(kv, c)
    requires if req.AddCluster? then Adds(kv, req.servers, kv', id) else Starts(kv, req.servers, kv', id)
    ensures Serving(kv', c)
  {
  }

  lemma StepServes(run: seq<State>, steps: seq<Step>, n: nat, c: nat)
    requires IsRun(run, steps) && n < |steps| && Serving(run[n].kv, c)
    ensures Serving(run[n + 1].kv, c)
  {
    if Commits(run[n], steps[n]).Some? {
      CommitsDo(run, steps, n);
      var req := run[n].handlers[steps[n].h].req;
      var id :| if req.AddCluster? then Adds(run[n].kv, req.servers, run[n + 1].kv, id)
                else Starts(run[n].kv, req.servers, run[n + 1].kv, id);
      StillServing(run[n].kv, req, run[n + 1].kv, id, c);
    }
  }

  ghost predicate KeepsServing(run: seq<State>, c: nat) {
    forall i | 0 <= i < |run| - 1 && Serving(run[i].kv, c) :: Serving(run[i + 1].kv, c)
  }

  lemma {:induction false} ServesOn(run: seq<State>, m: nat, n: nat, c: nat)
    requires KeepsServing(run, c) && m <= n < |run| && Serving(run[m].kv, c)
    ensures Serving(run[n].kv, c)
  {
    if m < n {
      ServesOn(run, m, n - 1, c);
    }
  }

  /** A cluster that serves in some state of a run serves in every later one. */
  lemma ServesForever(run: seq<State>, steps: seq<Step>, m: nat, n: nat, c: nat)
    requires IsRun(run, steps) && m <= n < |run| && Serving(run[m].kv, c)
    ensures Serving(run[n].kv, c)
  {
    forall i | 0 <= i < |run| - 1 && Serving(run[i].kv, c)
      ensures Serving(run[i + 1].kv, c)
    {
      StepServes(run, steps, i, c);
    }
    ServesOn(run, m, n, c);
  }

  ghost predicate Follows(a: Records, b: Records) {
    a.global.Some? ==>
      && b.global.Some?
      && a.global.value.value.ids <= b.global.value.value.ids
      && a.global.value.value.routeVersion <= b.global.value.value.routeVersion
  }

  lemma CommittedFollows(kv: Records, t: Txn, v: nat)
    requires kv.global.Some? ==> forall id :: id in kv.global.value.value.ids ==> id in kv.clusters
    requires Shaped(kv, t)
    ensures Follows(kv, Committed(kv, t, v))
  {
  }

  lemma StepFollows(s: State, st: Step)
    requires Inv(s) && Enabled(s, st)
    ensures Follows(s.kv, Next(s, st).kv)
  {
    var t := Commits(s, st);
    if t.Some? {
      CommitIsDecided(s, st);
      DecidedShape(s.kv, s.next, s.handlers[st.h].req, Answers(s.handlers[st.h]), t.value);
      CommittedFollows(s.kv, t.value, s.next);
    }
  }

  /** Cluster ids are only ever appended and the route version never goes down. */
  lemma {:induction false} RecordsFollow(run: seq<State>, steps: seq<Step>, m: nat, n: nat)
    requires IsRun(run, steps) && m <= n < |run|
    ensures Follows(run[m].kv, run[n].kv)
  {
    if m < n {
      RecordsFollow(run, steps, m, n - 1);
      RunInv(run, steps, n - 1);
      StepFollows(run[n - 1], steps[n - 1]);
    }
  }

  /** Starting a cluster changes the routing set, but the route version tells only when the cluster is alone. */
  lemma StartBumpsRouteIffAlone(kv: Records, next: nat, req: Request, answers: seq<Option<nat>>, t: Txn)
    requires RecordsOk(kv, next) && Decided(kv, req, answers, t) && req.StartCluster?
    ensures !Routing(kv.clusters[t.id].value) && Routing(t.cluster)
    ensures t.info.routeVersion > kv.global.value.value.routeVersion <==> |kv.global.value.value.ids| == 1
  {
    DecidedShape(kv, next, req, answers, t);
  }

  /** Starting one of several clusters fails the onboarding assertion exactly when none of them is routing yet, as
      when two clusters are added before the first is started. */
  lemma StartCrashesIffNoneRouting(m: Manager, servers: seq<Host>, answers: seq<Option<nat>>, id: nat, at: nat)
    requires |m.clusters| == |m.info.ids| > 1 && IndexOf(m.info.ids, id) == Some(at)
    requires m.clusters[at].value.status == INIT && id > 0
    requires servers != [] && |answers| == |servers| && forall i :: 0 <= i < |answers| ==> answers[i] == Some(id)
    ensures Decide(StartCluster(servers), m, answers) == Crash
       <==> forall i :: 0 <= i < |m.clusters| ==> !Routing(m.clusters[i].value)
  {
    SameClusterMeans(answers);
    assert answers[0].value == id;
    NoneRouting(m, |m.clusters|);
  }

  lemma {:induction false} NoneRouting(m: Manager, n: nat)
    requires n <= |m.clusters| == |m.info.ids|
    ensures RoutingIds(m, n) == [] <==> forall i :: 0 <= i < n ==> !Routing(m.clusters[i].value)
  {
    if n > 0 {
      NoneRouting(m, n - 1);
    }
  }

  // ----- a run that fails the assertion

  ghost predicate Ends(run: seq<State>, steps: seq<Step>, s: State) {
    IsRun(run, steps) && run[|steps|] == s
  }

  lemma Go(run: seq<State>, steps: seq<Step>, s: State, st: Step) returns (run': seq<State>, steps': seq<Step>)
    requires Ends(run, steps, s) && Enabled(s, st)
    ensures Ends(run', steps', Next(s, st))
  {
    run', steps' := run + [Next(s, st)], steps + [st];
  }

  /** What a handler knows when it has read the records as they are. */
  function Informed(kv: Records, req: Request): Handler
    requires |req.servers| == 1
    requires kv.global.Some? ==> forall id :: id in kv.global.value.value.ids ==> id in kv.clusters
  {
    Loaded(req, kv, ManagerOf(kv), map[0 := Lookup(kv.hosts, req.servers[0])])
  }

  /** A handler for one server runs up to its decision, with nobody in between. */
  lemma Ask(run: seq<State>, steps: seq<Step>, s: State, h: nat, req: Request)
    returns (run': seq<State>, steps': seq<Step>)
    requires Ends(run, steps, s) && h !in s.handlers && |req.servers| == 1
    requires s.kv.global.Some? ==> forall id :: id in s.kv.global.value.value.ids ==> id in s.kv.clusters
    ensures Ends(run', steps', s.(handlers := s.handlers[h := Informed(s.kv, req)]))
  {
    var s1 := s.(handlers := s.handlers[h := Began(req)]);
    run', steps' := Go(run, steps, s, Begin(h, req));
    var s2 := s.(handlers := s.handlers[h := GotGlobal(req, s.kv, s.kv.global)]);
    assert s1.handlers[h := GotGlobal(req, s.kv, s.kv.global)] == s2.handlers;
    run', steps' := Go(run', steps', s1, ReadGlobal(h));
    var hd := Loaded(req, s.kv, ManagerOf(s.kv), map[]);
    var s3 := s.(handlers := s.handlers[h := hd]);
    assert s2.handlers[h := hd] == s3.handlers;
    run', steps' := Go(run', steps', s2, LoadClusters(h));
    assert s3.handlers[h := Informed(s.kv, req)] == s.handlers[h := Informed(s.kv, req)];
    run', steps' := Go(run', steps', s3, ReadHost(h, 0));
  }

  lemma AnswersOne(kv: Records, req: Request)
    requires |req.servers| == 1
    requires kv.global.Some? ==> forall id :: id in kv.global.value.value.ids ==> id in kv.clusters
    ensures Answered(Informed(kv, req)) && Answers(Informed(kv, req)) == [Lookup(kv.hosts, req.servers[0])]
    ensures SameCluster([Lookup(kv.hosts, req.servers[0])])
         == Some(if req.servers[0] in kv.hosts then (1, kv.hosts[req.servers[0]]) else (0, 0))
  {
    assert [Lookup(kv.hosts, req.servers[0])][..0] == [];
  }

  const FRESH: ClusterInfo := ClusterInfo(INIT, ["x"])
  const OTHER: ClusterInfo := ClusterInfo(INIT, ["y"])
  const NONE: Records := Records(None, map[], map[])
  const ONE: Records :=
    Records(Some(Versioned(GlobalInfo([1], 0), 1)), map[1 := Versioned(FRESH, 1)], map["x" := 1])
  const TWO: Records :=
    Records(Some(Versioned(GlobalInfo([1, 2], 0), 2)),
            map[1 := Versioned(FRESH, 1), 2 := Versioned(OTHER, 2)], map["x" := 1, "y" := 2])

  lemma NobodyTaken()
    ensures SameCluster([None]) == Some((0, 0))
  {
    var answers: seq<Option<nat>> := [None];
    assert answers[..0] == [];
  }

  lemma AddFirst()
    ensures Decide(AddCluster(["x"]), ManagerOf(NONE), [None]) == Commit(Txn(GlobalInfo([1], 0), 1, FRESH, ["x"], true))
    ensures Admissible(NONE, ManagerOf(NONE), Txn(GlobalInfo([1], 0), 1, FRESH, ["x"], true))
    ensures Committed(NONE, Txn(GlobalInfo([1], 0), 1, FRESH, ["x"], true), 1) == ONE
  {
    NobodyTaken();
    assert [] + [1] == [1];
  }

  lemma AddSecond()
    ensures Decide(AddCluster(["y"]), ManagerOf(ONE), [None])
         == Commit(Txn(GlobalInfo([1, 2], 0), 2, OTHER, ["y"], true))
    ensures Admissible(ONE, ManagerOf(ONE), Txn(GlobalInfo([1, 2], 0), 2, OTHER, ["y"], true))
    ensures Committed(ONE, Txn(GlobalInfo([1, 2], 0), 2, OTHER, ["y"], true), 2) == TWO
  {
    NobodyTaken();
    assert [1] + [2] == [1, 2];
  }

  lemma StartFirst()
    ensures Decide(StartCluster(["x"]), ManagerOf(TWO), [Some(1)]) == Crash
  {
    var m := ManagerOf(TWO);
    assert m.info.ids[..1] == [1] && [1][..0] == [];
    assert IndexOf([1], 1) == Some(0) && IndexOf([1, 2], 1) == Some(0);
    StartCrashesIffNoneRouting(m, ["x"], [Some(1)], 1, 0);
  }

  /** Two clusters are added and the first is then started: the handler fails the onboarding assertion. */
  lemma StartAfterTwoAddsCrashes() returns (run: seq<State>, steps: seq<Step>)
    ensures IsRun(run, steps) && Enabled(run[|steps|], Finish(2))
    ensures var h := run[|steps|].handlers[2]; Decide(h.req, h.manager, Answers(h)) == Crash
  {
    var s := State(NONE, 1, map[]);
    run, steps := [s], [];
    run, steps := Ask(run, steps, s, 0, AddCluster(["x"]));
    AnswersOne(NONE, AddCluster(["x"]));
    AddFirst();
    var s1 := State(ONE, 2, map[0 := Done]);
    run, steps := Go(run, steps, State(NONE, 1, map[][0 := Informed(NONE, AddCluster(["x"]))]), Finish(0));
    assert map[][0 := Informed(NONE, AddCluster(["x"]))][0 := Done] == s1.handlers;
    run, steps := Ask(run, steps, s1, 1, AddCluster(["y"]));
    AnswersOne(ONE, AddCluster(["y"]));
    AddSecond();
    var s2 := State(TWO, 3, map[0 := Done, 1 := Done]);
    run, steps := Go(run, steps, State(ONE, 2, s1.handlers[1 := Informed(ONE, AddCluster(["y"]))]), Finish(1));
    assert s1.handlers[1 := Informed(ONE, AddCluster(["y"]))][1 := Done] == s2.handlers;
    run, steps := Ask(run, steps, s2, 2, StartCluster(["x"]));
    AnswersOne(TWO, StartCluster(["x"]));
    StartFirst();
  }
}
